/** The reducing states over whole runs: every approval moves the base position toward zero, so their
    number is bounded by the base the run began with. */
module ReduceOnlyRuns {
  import opened Machine
  import opened RiskModel
  import opened RiskEngine
  import opened EngineGuarantees
  import opened RiskLedger
  import opened Admission
  import opened AdmissionRuns

  /** The base position an order for the instrument starts from: position, open orders and reservations. */
  ghost function Base(a: Adapter, instrument: Id, lotSize: i64): Option<int> {
    if a.snapshot.None? then None
    else
      var report := a.snapshot.value;
      var units := CheckedSum(0, PositionUnits(report.positions, instrument));
      var openOrders := CheckedSum(0, OpenOrderLots(report.activeOrders, instrument, None));
      if units.None? || openOrders.None? || PositionLots(units.value, lotSize).None? then None
      else Some(PositionLots(units.value, lotSize).value + openOrders.value
                + ActiveDelta(a.ledger.reservations, a.accountId, instrument))
  }

  /** The account's policy, present or still to be initialised, is in a reducing state. */
  predicate Reducing(a: Adapter) {
    a.accountId in a.ledger.policies ==> ReducingState(a.ledger.policies[a.accountId].state)
  }

  /** The admission stores a new reservation for the instrument. */
  ghost predicate Grants(a: Adapter, input: AdmitInput, instrument: Id) {
    var after := Admit(a, input).0.ledger.reservations;
    && after != a.ledger.reservations
    && input.reservationId in after && after[input.reservationId].instrumentId == instrument
  }

  ghost function AdmitAll(a: Adapter, inputs: seq<AdmitInput>): Adapter {
    if inputs == [] then a else Admit(AdmitAll(a, inputs[..|inputs| - 1]), inputs[|inputs| - 1]).0
  }

  ghost function Approvals(a: Adapter, inputs: seq<AdmitInput>, instrument: Id): nat {
    if inputs == [] then 0
    else
      var init := inputs[..|inputs| - 1];
      Approvals(a, init, instrument) + if Grants(AdmitAll(a, init), inputs[|inputs| - 1], instrument) then 1 else 0
  }

  /** The command is an order for the instrument. */
  predicate Targets(a: Adapter, input: AdmitInput, instrument: Id) {
    && a.snapshot.Some? && Describe(input.command, a.snapshot.value).Ok?
    && var d := Describe(input.command, a.snapshot.value).value;
       d.action.Directional() && d.instrumentId == instrument
  }

  /** Lots that bring a base position closer to zero. */
  predicate Opposes(base: int, lots: int) { Sign(lots) == -Sign(base) && lots != 0 && Abs(lots) < 2 * Abs(base) }

  /** What is asked of an order for the instrument, before it is admitted: a new order sees the given lot
      size, and a replacement asks for lots that oppose the base position. Other orders are not restricted. */
  ghost predicate Admissible(a: Adapter, input: AdmitInput, instrument: Id, lotSize: i64) {
    Targets(a, input, instrument) ==>
      if input.command.ReplaceOrder? then
        var base := Base(a, instrument, lotSize);
        base.Some? && Opposes(base.value, Describe(input.command, a.snapshot.value).value.deltaLots)
      else input.facts.lotSize == lotSize
  }

  // ---- one admission ----

  /** The row an approval of the request adds. */
  predicate GrantedRow(row: RiskReservation, id: Id, account: Id, policy: RiskPolicySet, request: RiskRequest) {
    && row.reservationId == id && row.accountId == account && row.instrumentId == request.instrumentId
    && row.state.Active? && Dispatches(policy, request) && row.remainingDeltaLots == Granted(policy, request)
    && (request.requestedNotional == 0 ==> row.reservedNotional == 0)
  }

  lemma NothingScalesToNothing(requested: i64, approved: i64)
    ensures ScaledNotional(0, requested, approved) == Some(0)
  {}

  lemma SettledOrderRow(l: Ledger, input: AdmitInput, policy: RiskPolicySet, request: RiskRequest, ruling: RiskDecision)
    requires ruling.PermitsDispatch() && request.action.Directional()
    ensures var after := Settle(l, input, policy, request, ruling).0.reservations;
            after == l.reservations
            || (&& input.reservationId !in l.reservations && input.reservationId in after
                && after == l.reservations[input.reservationId := after[input.reservationId]]
                && var row := after[input.reservationId];
                   && row.reservationId == input.reservationId && row.accountId == request.accountId
                   && row.instrumentId == request.instrumentId && row.state.Active?
                   && row.remainingDeltaLots == ruling.approvedDeltaLots
                   && (request.requestedNotional == 0 ==> row.reservedNotional == 0))
  {
    var notional := ScaledNotional(request.requestedNotional, request.requestedDeltaLots, ruling.approvedDeltaLots);
    NothingScalesToNothing(request.requestedDeltaLots, ruling.approvedDeltaLots);
    if notional.Some? {
      var decision := ruling.(reservationId := Some(input.reservationId));
      PersistInsertsPairOrNothing(
        l, decision, NewReservation(input.reservationId, request, decision, notional.value), CapacityOf(policy));
    }
  }

  lemma SettledRowIsGranted(l: Ledger, input: AdmitInput, policy: RiskPolicySet, request: RiskRequest)
    requires Decide(input.decisionId, policy, request).Ok?
    ensures var ruling := Decide(input.decisionId, policy, request).value;
            var after := Settle(l, input, policy, request, ruling).0.reservations;
            after == l.reservations
            || (&& request.action.Directional() && input.reservationId !in l.reservations
                && input.reservationId in after
                && GrantedRow(after[input.reservationId], input.reservationId, request.accountId, policy, request)
                && after == l.reservations[input.reservationId := after[input.reservationId]])
  {
    DispatchMeansEveryGatePassed(input.decisionId, policy, request);
    var ruling := Decide(input.decisionId, policy, request).value;
    if ruling.PermitsDispatch() && request.action.Directional() { SettledOrderRow(l, input, policy, request, ruling); }
  }

  lemma AdmitAddsGrantedRow(a: Adapter, input: AdmitInput)
    requires Admit(a, input).0.ledger.reservations != a.ledger.reservations
    ensures var (l, policy) := CurrentPolicy(a.ledger, a.accountId, input.facts.now);
            && policy.Ok? && input.reservationId !in a.ledger.reservations
            && var request := BuildRequest(a.(ledger := l), input, policy.value).1;
               && request.Ok? && request.value.action.Directional()
               && var after := Admit(a, input).0.ledger.reservations;
                  && input.reservationId in after
                  && GrantedRow(after[input.reservationId], input.reservationId, a.accountId, policy.value, request.value)
                  && after == a.ledger.reservations[input.reservationId := after[input.reservationId]]
  {
    var (l, policy) := CurrentPolicy(a.ledger, a.accountId, input.facts.now);
    PolicyLookupOnlyAddsOwnPolicy(a.ledger, a.accountId, input.facts.now);
    var request := BuildRequest(a.(ledger := l), input, policy.value).1.value;
    BuiltRequestIsAnchored(a.(ledger := l), input, policy.value);
    SettledRowIsGranted(l, input, policy.value, request);
  }

  /** For a new order the engine's base position is the adapter's. */
  lemma RequestBaseIsTheBase(a: Adapter, input: AdmitInput, policy: RiskPolicySet, lotSize: i64)
    requires !input.command.ReplaceOrder? && input.facts.lotSize == lotSize
    requires BuildRequest(a, input, policy).1.Ok? && BuildRequest(a, input, policy).1.value.action.Directional()
    ensures var request := BuildRequest(a, input, policy).1.value;
            Base(a, request.instrumentId, lotSize) == Some(BasePosition(request.snapshot))
  {
    var request := BuildRequest(a, input, policy).1.value;
    var d := Describe(input.command, a.snapshot.value).value;
    RequestFigures(a, input, policy);
    FiguresAreTheBase(a, d, input.facts, lotSize);
  }

  lemma RequestFigures(a: Adapter, input: AdmitInput, policy: RiskPolicySet)
    requires BuildRequest(a, input, policy).1.Ok?
    ensures a.snapshot.Some? && Describe(input.command, a.snapshot.value).Ok?
    ensures var s, d := BuildRequest(a, input, policy).1.value.snapshot, Describe(input.command, a.snapshot.value).value;
            && PositionFigures(a.ledger.reservations, a.accountId, a.snapshot.value, d, input.facts)
               == Ok((s.currentPositionLots, s.openOrderDeltaLots, s.activeReservationDeltaLots))
            && s.unresolvedUnknownDeltaLots == 0
            && d.instrumentId == BuildRequest(a, input, policy).1.value.instrumentId
            && d.action == BuildRequest(a, input, policy).1.value.action
  {}

  lemma FiguresAreTheBase(a: Adapter, d: Description, facts: BrokerFacts, lotSize: i64)
    requires a.snapshot.Some? && d.action.Directional() && d.replacedOrderId.None? && facts.lotSize == lotSize
    requires PositionFigures(a.ledger.reservations, a.accountId, a.snapshot.value, d, facts).Ok?
    ensures var f := PositionFigures(a.ledger.reservations, a.accountId, a.snapshot.value, d, facts).value;
            Base(a, d.instrumentId, lotSize) == Some(f.0 + f.1 + f.2)
  {}

  /** The engine is asked about what the command describes. */
  lemma RequestIsDescribed(a: Adapter, input: AdmitInput, policy: RiskPolicySet)
    requires BuildRequest(a, input, policy).1.Ok?
    ensures var request := BuildRequest(a, input, policy).1.value;
            && a.snapshot.Some? && Describe(input.command, a.snapshot.value).Ok?
            && var d := Describe(input.command, a.snapshot.value).value;
               d.action == request.action && d.instrumentId == request.instrumentId && d.deltaLots == request.requestedDeltaLots
  {}

  lemma AdmitKeepsReducing(a: Adapter, input: AdmitInput)
    requires Reducing(a)
    ensures Reducing(Admit(a, input).0)
    ensures Admit(a, input).0.snapshot == a.snapshot && Admit(a, input).0.accountId == a.accountId
  {
    AdmitStoresAtMostOne(a, input);
  }

  lemma CurrentPolicyReduces(a: Adapter, now: i64)
    requires Reducing(a) && CurrentPolicy(a.ledger, a.accountId, now).1.Ok?
    ensures ReducingState(CurrentPolicy(a.ledger, a.accountId, now).1.value.state)
  {}

  /** Where the row of an approval comes from. */
  lemma GrantFacts(a: Adapter, input: AdmitInput) returns (l: Ledger, policy: RiskPolicySet, request: RiskRequest)
    requires Admit(a, input).0.ledger.reservations != a.ledger.reservations
    ensures SameTables(l, a.ledger) && BuildRequest(a.(ledger := l), input, policy).1 == Ok(request)
    ensures input.reservationId !in a.ledger.reservations && request.action.Directional()
    ensures Reducing(a) ==> ReducingState(policy.state)
    ensures a.accountId in a.ledger.policies ==> policy == a.ledger.policies[a.accountId]
    ensures var rows := Admit(a, input).0.ledger.reservations;
            && input.reservationId in rows
            && GrantedRow(rows[input.reservationId], input.reservationId, a.accountId, policy, request)
            && rows == a.ledger.reservations[input.reservationId := rows[input.reservationId]]
  {
    AdmitAddsGrantedRow(a, input);
    PolicyLookupOnlyAddsOwnPolicy(a.ledger, a.accountId, input.facts.now);
    var (ledger, current) := CurrentPolicy(a.ledger, a.accountId, input.facts.now);
    if Reducing(a) { CurrentPolicyReduces(a, input.facts.now); }
    l, policy := ledger, current.value;
    request := BuildRequest(a.(ledger := l), input, policy).1.value;
  }

  lemma AdmitKeepsSnapshot(a: Adapter, input: AdmitInput)
    ensures Admit(a, input).0.snapshot == a.snapshot && Admit(a, input).0.accountId == a.accountId
  {
    AdmitStoresAtMostOne(a, input);
  }

  lemma AdmitAddsRow(a: Adapter, input: AdmitInput)
    requires Admit(a, input).0.ledger.reservations != a.ledger.reservations
    ensures var rows := Admit(a, input).0.ledger.reservations;
            && input.reservationId !in a.ledger.reservations && input.reservationId in rows
            && rows == a.ledger.reservations[input.reservationId := rows[input.reservationId]]
            && var row := rows[input.reservationId];
               row.reservationId == input.reservationId && row.accountId == a.accountId && row.state.Active?
  {
    var _, policy, request := GrantFacts(a, input);
  }

  /** Adding the row of an approval moves the base of its instrument by the granted lots and no other. */
  lemma RowMovesBase(a: Adapter, after: Adapter, row: RiskReservation, instrument: Id, lotSize: i64)
    requires after.snapshot == a.snapshot && after.accountId == a.accountId
    requires row.reservationId !in a.ledger.reservations && row.accountId == a.accountId && row.state.Active?
    requires after.ledger.reservations == a.ledger.reservations[row.reservationId := row]
    ensures var left, right := Base(a, instrument, lotSize), Base(after, instrument, lotSize);
            if row.instrumentId == instrument && left.Some? then right == Some(left.value + row.remainingDeltaLots) else right == left
  {
    ActiveDeltaAfterPut(a.ledger.reservations, row, a.accountId, instrument);
  }

  /** The lots that an admission grants for the instrument. */
  ghost function GrantedLots(a: Adapter, input: AdmitInput, instrument: Id): int
    requires Grants(a, input, instrument)
  {
    Admit(a, input).0.ledger.reservations[input.reservationId].remainingDeltaLots
  }

  /** The change at most adds one active reservation of the account. */
  predicate AddsAtMostOne(a: Adapter, after: Adapter, id: Id) {
    && after.snapshot == a.snapshot && after.accountId == a.accountId
    && (after.ledger.reservations != a.ledger.reservations ==>
          var rows := after.ledger.reservations;
          && id !in a.ledger.reservations && id in rows && rows == a.ledger.reservations[id := rows[id]]
          && rows[id].reservationId == id && rows[id].accountId == a.accountId && rows[id].state.Active?)
  }

  /** The base moves by the lots of the reservation that was added, if it is for the instrument. */
  ghost predicate BaseFollows(a: Adapter, after: Adapter, id: Id, instrument: Id, lotSize: i64) {
    var before, rows := Base(a, instrument, lotSize), after.ledger.reservations;
    && (rows != a.ledger.reservations ==> id in rows)
    && Base(after, instrument, lotSize)
       == if rows != a.ledger.reservations && rows[id].instrumentId == instrument && before.Some?
          then Some(before.value + rows[id].remainingDeltaLots) else before
  }

  lemma BaseAfter(a: Adapter, after: Adapter, id: Id, instrument: Id, lotSize: i64)
    requires AddsAtMostOne(a, after, id)
    ensures BaseFollows(a, after, id, instrument, lotSize)
  {
    if after.ledger.reservations != a.ledger.reservations {
      RowMovesBase(a, after, after.ledger.reservations[id], instrument, lotSize);
    }
  }

  lemma AdmitAddsAtMostOne(a: Adapter, input: AdmitInput)
    ensures AddsAtMostOne(a, Admit(a, input).0, input.reservationId)
  {
    AdmitKeepsSnapshot(a, input);
    if Admit(a, input).0.ledger.reservations != a.ledger.reservations { AdmitAddsRow(a, input); }
  }

  lemma AdmissionMovesBase(a: Adapter, input: AdmitInput, instrument: Id, lotSize: i64)
    ensures BaseFollows(a, Admit(a, input).0, input.reservationId, instrument, lotSize)
  {
    AdmitAddsAtMostOne(a, input);
    BaseAfter(a, Admit(a, input).0, input.reservationId, instrument, lotSize);
  }

  lemma GrantedReplacementOpposes(a: Adapter, input: AdmitInput, policy: RiskPolicySet, request: RiskRequest, lotSize: i64)
    requires BuildRequest(a, input, policy).1 == Ok(request) && request.action.Directional() && Dispatches(policy, request)
    requires input.command.ReplaceOrder? && Admissible(a, input, request.instrumentId, lotSize)
    ensures Base(a, request.instrumentId, lotSize).Some?
    ensures Opposes(Base(a, request.instrumentId, lotSize).value, Granted(policy, request))
  {
    RequestIsDescribed(a, input, policy);
    GrantIsTheLargestPermittedSize(policy, request);
  }

  lemma GrantedOrderOpposes(a: Adapter, input: AdmitInput, policy: RiskPolicySet, request: RiskRequest, lotSize: i64)
    requires BuildRequest(a, input, policy).1 == Ok(request) && request.action.Directional() && Dispatches(policy, request)
    requires !input.command.ReplaceOrder? && Admissible(a, input, request.instrumentId, lotSize) && ReducingState(policy.state)
    ensures Base(a, request.instrumentId, lotSize).Some?
    ensures Opposes(Base(a, request.instrumentId, lotSize).value, Granted(policy, request))
  {
    RequestIsDescribed(a, input, policy);
    RequestBaseIsTheBase(a, input, policy, lotSize);
    ReducingStatesShrinkPosition(policy, request);
    OpposingLotsShrink(BasePosition(request.snapshot), Granted(policy, request));
  }

  lemma SameTablesSameCondition(a: Adapter, l: Ledger, input: AdmitInput, instrument: Id, lotSize: i64)
    requires SameTables(l, a.ledger)
    ensures Base(a.(ledger := l), instrument, lotSize) == Base(a, instrument, lotSize)
    ensures Admissible(a.(ledger := l), input, instrument, lotSize) <==> Admissible(a, input, instrument, lotSize)
  {}

  /** In a reducing state the lots granted to an admissible order oppose the base position. */
  lemma AdmissibleGrantOpposes(a: Adapter, input: AdmitInput, instrument: Id, lotSize: i64)
    requires Reducing(a) && Admissible(a, input, instrument, lotSize) && Grants(a, input, instrument)
    ensures Base(a, instrument, lotSize).Some?
    ensures Opposes(Base(a, instrument, lotSize).value, GrantedLots(a, input, instrument))
  {
    var l, policy, request := GrantFacts(a, input);
    SameTablesSameCondition(a, l, input, instrument, lotSize);
    if input.command.ReplaceOrder? {
      GrantedReplacementOpposes(a.(ledger := l), input, policy, request, lotSize);
    } else {
      GrantedOrderOpposes(a.(ledger := l), input, policy, request, lotSize);
    }
  }

  lemma OpposingLotsShrink(base: int, lots: int)
    ensures Abs(base + lots) < Abs(base) <==> Opposes(base, lots)
  {}

  /** Any approval, replacement or not, moves the base of its instrument by the granted lots, and closer to
      zero if and only if they oppose it. */
  lemma GrantShrinksBaseExactly(a: Adapter, input: AdmitInput, instrument: Id, lotSize: i64)
    requires Grants(a, input, instrument) && Base(a, instrument, lotSize).Some?
    ensures var before, after := Base(a, instrument, lotSize), Base(Admit(a, input).0, instrument, lotSize);
            && after == Some(before.value + GrantedLots(a, input, instrument))
            && (Abs(after.value) < Abs(before.value) <==> Opposes(before.value, GrantedLots(a, input, instrument)))
  {
    AdmissionMovesBase(a, input, instrument, lotSize);
    OpposingLotsShrink(Base(a, instrument, lotSize).value, GrantedLots(a, input, instrument));
  }

  /** Without an approval for the instrument its base stays. */
  lemma BaseStaysWithoutGrant(a: Adapter, input: AdmitInput, instrument: Id, lotSize: i64)
    requires !Grants(a, input, instrument) || Base(a, instrument, lotSize).None?
    ensures Base(Admit(a, input).0, instrument, lotSize) == Base(a, instrument, lotSize)
  {
    AdmissionMovesBase(a, input, instrument, lotSize);
  }

  // ---- whole runs ----

  /** Every order met the condition when it was admitted. */
  ghost predicate AllAdmissible(a: Adapter, inputs: seq<AdmitInput>, instrument: Id, lotSize: i64) {
    inputs != [] ==>
      var init := inputs[..|inputs| - 1];
      AllAdmissible(a, init, instrument, lotSize) && Admissible(AdmitAll(a, init), inputs[|inputs| - 1], instrument, lotSize)
  }

  /** What an admission adds to the bound: nothing unless it grants lots that do not oppose the base. */
  ghost function Slack(a: Adapter, input: AdmitInput, instrument: Id, lotSize: i64): nat {
    var base := Base(a, instrument, lotSize);
    if !Grants(a, input, instrument) || base.None? || Opposes(base.value, GrantedLots(a, input, instrument)) then 0
    else 1 + Abs(GrantedLots(a, input, instrument))
  }

  ghost function TotalSlack(a: Adapter, inputs: seq<AdmitInput>, instrument: Id, lotSize: i64): nat {
    if inputs == [] then 0
    else
      var init := inputs[..|inputs| - 1];
      TotalSlack(a, init, instrument, lotSize) + Slack(AdmitAll(a, init), inputs[|inputs| - 1], instrument, lotSize)
  }

  /** An approval is paid for by the base it takes away, or by the slack. */
  lemma OneAdmission(a: Adapter, input: AdmitInput, instrument: Id, lotSize: i64)
    ensures var before, after := Base(a, instrument, lotSize), Base(Admit(a, input).0, instrument, lotSize);
            if before.None? then after.None?
            else && after.Some?
                 && (if Grants(a, input, instrument) then 1 else 0) + Abs(after.value)
                    <= Abs(before.value) + Slack(a, input, instrument, lotSize)
  {
    if Grants(a, input, instrument) && Base(a, instrument, lotSize).Some? {
      GrantShrinksBaseExactly(a, input, instrument, lotSize);
    } else {
      BaseStaysWithoutGrant(a, input, instrument, lotSize);
    }
  }

  lemma AdmissibleOrderHasNoSlack(a: Adapter, input: AdmitInput, instrument: Id, lotSize: i64)
    requires Reducing(a) && Admissible(a, input, instrument, lotSize)
    ensures Slack(a, input, instrument, lotSize) == 0
    ensures Base(a, instrument, lotSize).None? ==> !Grants(a, input, instrument)
  {
    if Grants(a, input, instrument) { AdmissibleGrantOpposes(a, input, instrument, lotSize); }
  }

  /** With the snapshot fixed, the approvals for an instrument and what is left of its base position never
      add up to more than the base the run began with plus the slack of its orders; and for admissible
      orders of a reducing account there is no slack. */
  lemma {:induction false} ReduceOnlyApprovalsAreBounded(a: Adapter, inputs: seq<AdmitInput>, instrument: Id, lotSize: i64)
    ensures var before, after := Base(a, instrument, lotSize), Base(AdmitAll(a, inputs), instrument, lotSize);
            if before.None? then after.None?
            else && after.Some?
                 && Approvals(a, inputs, instrument) + Abs(after.value)
                    <= Abs(before.value) + TotalSlack(a, inputs, instrument, lotSize)
    ensures Reducing(a) && AllAdmissible(a, inputs, instrument, lotSize) ==>
              && Reducing(AdmitAll(a, inputs)) && TotalSlack(a, inputs, instrument, lotSize) == 0
              && (Base(a, instrument, lotSize).None? ==> Approvals(a, inputs, instrument) == 0)
  {
    if inputs != [] {
      var init, last := inputs[..|inputs| - 1], inputs[|inputs| - 1];
      ReduceOnlyApprovalsAreBounded(a, init, instrument, lotSize);
      OneMoreIsBounded(a, init, AdmitAll(a, init), last, inputs, instrument, lotSize);
    }
  }

  /** The run up to here is bounded. */
  ghost predicate Bounded(a: Adapter, done: seq<AdmitInput>, state: Adapter, instrument: Id, lotSize: i64) {
    var before, after := Base(a, instrument, lotSize), Base(state, instrument, lotSize);
    && (if before.None? then after.None?
        else && after.Some?
             && Approvals(a, done, instrument) + Abs(after.value) <= Abs(before.value) + TotalSlack(a, done, instrument, lotSize))
    && (Reducing(a) && AllAdmissible(a, done, instrument, lotSize) ==>
          && Reducing(state) && TotalSlack(a, done, instrument, lotSize) == 0
          && (before.None? ==> Approvals(a, done, instrument) == 0))
  }

  lemma OneMoreIsBounded(a: Adapter, done: seq<AdmitInput>, state: Adapter, input: AdmitInput, longer: seq<AdmitInput>,
                         instrument: Id, lotSize: i64)
    requires state == AdmitAll(a, done) && longer != [] && longer[..|longer| - 1] == done && longer[|longer| - 1] == input
    requires Bounded(a, done, state, instrument, lotSize)
    ensures Bounded(a, longer, Admit(state, input).0, instrument, lotSize)
  {
    OneAdmission(state, input, instrument, lotSize);
    if Reducing(state) && Admissible(state, input, instrument, lotSize) {
      AdmitKeepsReducing(state, input);
      AdmissibleOrderHasNoSlack(state, input, instrument, lotSize);
    }
  }

  /** A run taken apart at its first order. */
  lemma {:induction false} FirstOrder(a: Adapter, first: AdmitInput, rest: seq<AdmitInput>, all: seq<AdmitInput>, instrument: Id)
    requires all == [first] + rest
    ensures AdmitAll(a, all) == AdmitAll(Admit(a, first).0, rest)
    ensures Approvals(a, all, instrument)
         == (if Grants(a, first, instrument) then 1 else 0) + Approvals(Admit(a, first).0, rest, instrument)
  {
    var init := all[..|all| - 1];
    if rest == [] {
      assert init == [] && AdmitAll(a, init) == a;
    } else {
      var shorter := rest[..|rest| - 1];
      assert init == [first] + shorter && all[|all| - 1] == rest[|rest| - 1];
      FirstOrder(a, first, shorter, init, instrument);
    }
  }
}
