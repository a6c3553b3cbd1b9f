/** What an admission leaves behind and answers, on the records alone: the stored row of an order, the capacity
    it has to fit, a repeated request, and a recorded outcome. */
module AdmissionOutcomes {
  import opened Machine
  import opened Arithmetic
  import opened RiskModel
  import opened TableSums
  import opened RiskEngine
  import opened RiskLedger
  import opened Reconciliation
  import opened ReservationTransitions
  import opened Admission
  import opened ReportReading

  // ---- the notional of what is approved ----

  /** `scaled` is that share of the notional, cut off toward zero. */
  predicate ScaledTo(notional: int, requested: int, approved: int, scaled: int) {
    && Abs(scaled) * Abs(requested) <= Abs(notional) * Abs(approved) < (Abs(scaled) + 1) * Abs(requested)
    && (scaled > 0 ==> notional > 0) && (scaled < 0 ==> notional < 0)
  }

  lemma QuotientIs(x: nat, q: nat, n: nat)
    requires q > 0
    ensures x / q == n <==> n * q <= x < (n + 1) * q
  {
    var quotient := x / q;
    assert x == quotient * q + x % q && 0 <= x % q < q;
    assert (n + 1) * q == n * q + q && (quotient + 1) * q == quotient * q + q;
    if n < quotient { NextMultiple(q, n, quotient); assert q * n == n * q && q * quotient == quotient * q; }
    if quotient < n { NextMultiple(q, quotient, n); assert q * n == n * q && q * quotient == quotient * q; }
  }

  lemma TruncIs(x: int, q: nat, n: int)
    requires q > 0
    ensures TruncDiv(x, q) == n <==> Abs(n) * q <= Abs(x) < (Abs(n) + 1) * q && (n > 0 ==> x > 0) && (n < 0 ==> x < 0)
  {
    QuotientIs(Abs(x), q, Abs(n));
    if n != 0 { MulMonotone(q, 1, Abs(n)); }
  }

  lemma ProductWithSize(v: int, size: nat)
    ensures Abs(v * size) == Abs(v) * size && (v * size > 0 ==> v > 0) && (v * size < 0 ==> v < 0)
  {
    if v >= 0 { MulMonotone(size, 0, v); assert size * v == v * size; }
    else { MulMonotone(size, 0, -v); assert size * -v == -(v * size); }
  }

  /** The reserved notional is the requested one, scaled to the lots that were approved. */
  lemma NotionalIsScaledExactly(notional: i128, requested: i64, approved: i64, scaled: i128)
    requires requested != 0
    ensures ScaledNotional(notional, requested, approved) == Some(scaled) <==>
              FitsI128(notional * Abs(approved)) && ScaledTo(notional, requested, approved, scaled)
  {
    ProductWithSize(notional, Abs(approved));
    TruncIs(notional * Abs(approved), Abs(requested), scaled);
    ScaledSign(notional, Abs(approved), Abs(requested), scaled);
  }

  /** A share that is not nothing has the sign of the whole. */
  lemma ScaledSign(notional: int, size: nat, whole: nat, scaled: int)
    requires whole > 0
    ensures Abs(scaled) * whole <= Abs(notional) * size && scaled != 0 ==> (notional > 0 <==> notional * size > 0)
  {
    if scaled != 0 && Abs(scaled) * whole <= Abs(notional) * size {
      MulMonotone(whole, 1, Abs(scaled));
      ProductWithSize(notional, size);
    }
  }

  // ---- committing an approval ----

  /** The decision approves lots for the row, and the row is for that decision. */
  predicate Linked(d: RiskDecision, r: RiskReservation) {
    && d.accountId == r.accountId && d.requestId == r.logicalRequestId && d.reservationId == Some(r.reservationId)
    && (d.outcome == RiskOutcome.Approve || d.outcome == Resize) && d.approvedDeltaLots == r.reservedDeltaLots
    && (d.approvedDeltaLots != 0 <==> d.action == DirectionalOrder || d.action == ReplaceDirectionalOrder)
  }

  predicate NotNegative(c: ReservationCapacity) {
    && (c.maxAccountReservedNotional.Some? ==> c.maxAccountReservedNotional.value >= 0)
    && (c.maxInstrumentReservedAbsLots.Some? ==> c.maxInstrumentReservedAbsLots.value >= 0)
  }

  /** With the new row, neither what is held of the instrument nor what the account holds is over its limit. */
  ghost predicate Fits(rows: map<Id, RiskReservation>, r: RiskReservation, c: ReservationCapacity) {
    && (c.maxInstrumentReservedAbsLots.Some? ==>
          HeldLots(rows, r.accountId, r.instrumentId) + Abs(r.remainingDeltaLots) <= c.maxInstrumentReservedAbsLots.value)
    && (c.maxAccountReservedNotional.Some? ==>
          HeldNotional(rows, r.accountId) + Abs(r.reservedNotional) <= c.maxAccountReservedNotional.value)
  }

  /** A first approval commits, as a pair, exactly when it is linked, within capacity and new; a request that
      already has its row is answered with what is on record. */
  lemma ApprovalsCommitExactly(l: Ledger, d: RiskDecision, r: RiskReservation, c: ReservationCapacity)
    requires Consistent(l)
    ensures var (after, result) := PersistApproval(l, d, r, c);
            var k := RequestKey(r.accountId, r.logicalRequestId);
            if k in l.reservationIndex then
              && after == l
              && (result.Ok? <==> Linked(d, r) && NotNegative(c) && k in l.decisionIndex)
              && (result.Ok? ==> result.value == Approval(l.decisions[l.decisionIndex[k]], l.reservations[l.reservationIndex[k]]))
            else
              && (result.Ok? <==> && Linked(d, r) && NotNegative(c) && Fits(l.reservations, r, c)
                                  && d.decisionId !in l.decisions && k !in l.decisionIndex && r.reservationId !in l.reservations)
              && (if result.Ok? then result.value == Approval(d, r) && InsertedPair(l, d, r, after) else after == l)
              && (result == Err(CapacityExceeded) ==> !Fits(l.reservations, r, c))
  {}

  /** A decision is stored exactly when it or its request is new to the store; one that is there already is left as
      it is. */
  lemma DecisionsAreStoredExactly(l: Ledger, d: RiskDecision)
    requires Consistent(l)
    ensures var (after, result) := PutDecision(l, d);
            if d.decisionId in l.decisions then after == l && result == Ok(())
            else if exists id :: id in l.decisions && l.decisions[id].accountId == d.accountId && l.decisions[id].requestId == d.requestId
            then after == l && result == Err(Constraint)
            else result == Ok(()) && after.decisions == l.decisions[d.decisionId := d] && after.reservations == l.reservations
  {
    if DecisionKey(d) in l.decisionIndex { assert l.decisionIndex[DecisionKey(d)] in l.decisions; }
  }

  /** The row of an approved order: the request's account, instrument, source and identity, the approved lots
      with their notional, untouched, as of now. */
  predicate RowOf(row: RiskReservation, id: Id, request: RiskRequest, ruling: RiskDecision) {
    && row.reservationId == id && row.accountId == request.accountId && row.instrumentId == request.instrumentId
    && row.source == request.source && row.logicalRequestId == request.requestId
    && row.reservedDeltaLots == ruling.approvedDeltaLots && row.remainingDeltaLots == ruling.approvedDeltaLots
    && ScaledTo(request.requestedNotional, request.requestedDeltaLots, ruling.approvedDeltaLots, row.reservedNotional)
    && row.state.Active? && row.createdAt == request.now && row.updatedAt == request.now && row.expiresAt == ruling.expiresAt
  }

  /** What an order is reserved against: the policy's position limit in lots and its gross limit in money. */
  ghost predicate WithinPolicy(rows: map<Id, RiskReservation>, row: RiskReservation, policy: RiskPolicySet) {
    && (policy.maxPositionAbsLots.Some? ==>
          0 <= HeldLots(rows, row.accountId, row.instrumentId) + Abs(row.remainingDeltaLots) <= policy.maxPositionAbsLots.value)
    && (policy.maxGrossExposure.Some? ==>
          0 <= HeldNotional(rows, row.accountId) + Abs(row.reservedNotional) <= policy.maxGrossExposure.value)
  }

  /** An approved order is admitted with such a row, within the policy; otherwise nothing is stored. */
  lemma OrdersAreReserved(l: Ledger, input: AdmitInput, policy: RiskPolicySet, request: RiskRequest, ruling: RiskDecision)
    requires Consistent(l) && RequestKey(request.accountId, request.requestId) !in l.reservationIndex
    requires ruling.PermitsDispatch() && request.action.Directional() && request.requestedDeltaLots != 0
    ensures var (after, result) := Settle(l, input, policy, request, ruling);
            if result.Err? then after == l
            else
              && input.reservationId in after.reservations
              && var row := after.reservations[input.reservationId];
                 && RowOf(row, input.reservationId, request, ruling) && WithinPolicy(l.reservations, row, policy)
                 && InsertedPair(l, ruling.(reservationId := Some(input.reservationId)), row, after)
                 && result.value == RiskAdmission(ruling.decisionId, Some(input.reservationId), ruling.policyRevision,
                                                  ruling.approvedDeltaLots)
  {
    var notional := ScaledNotional(request.requestedNotional, request.requestedDeltaLots, ruling.approvedDeltaLots);
    if notional.Some? {
      NotionalIsScaledExactly(request.requestedNotional, request.requestedDeltaLots, ruling.approvedDeltaLots, notional.value);
      var d := ruling.(reservationId := Some(input.reservationId));
      var row := NewReservation(input.reservationId, request, d, notional.value);
      ApprovalsCommitExactly(l, d, row, CapacityOf(policy));
      HeldIsNotNegative(l.reservations, request.accountId, request.instrumentId);
    }
  }

  lemma HeldIsNotNegative(rows: map<Id, RiskReservation>, account: Id, instrument: Id)
    ensures HeldLots(rows, account, instrument) >= 0 && HeldNotional(rows, account) >= 0
  {
    TotalMonotone(map[], LotColumn(rows, account, instrument));
    TotalMonotone(map[], NotionalColumn(rows, account));
  }

  // ---- a repeated request ----

  /** The command asks for what was decided and reserved. */
  ghost predicate AsksAgain(command: Command, report: Report, existing: Approval) {
    exists meaning :: Means(command, report, meaning)
      && meaning.action == existing.decision.action && meaning.instrumentId == existing.reservation.instrumentId
      && meaning.deltaLots == existing.decision.requestedDeltaLots
  }

  lemma AsksAgainExactly(command: Command, report: Report, existing: Approval)
    ensures AsksAgain(command, report, existing) <==>
              && Describe(command, report).Ok?
              && var meaning := Describe(command, report).value;
                 && meaning.action == existing.decision.action && meaning.instrumentId == existing.reservation.instrumentId
                 && meaning.deltaLots == existing.decision.requestedDeltaLots
  {
    DescribeExactly(command, report);
    if AsksAgain(command, report, existing) {
      var meaning :| Means(command, report, meaning)
        && meaning.action == existing.decision.action && meaning.instrumentId == existing.reservation.instrumentId
        && meaning.deltaLots == existing.decision.requestedDeltaLots;
      OneMeaning(command, report, meaning);
    }
  }

  /** A repeated request gets its admission again exactly while its row is untouched, the journal does not know
      it, and it asks for the same thing. */
  lemma RepeatsAreAnsweredExactly(a: Adapter, input: AdmitInput, existing: Approval)
    ensures var answer := Replay(a, input, existing);
            && (answer.Ok? <==>
                  && existing.reservation.state.Active? && !input.journaled && a.snapshot.Some?
                  && AsksAgain(input.command, a.snapshot.value, existing))
            && (answer.Ok? ==>
                  answer.value == RiskAdmission(existing.decision.decisionId, Some(existing.reservation.reservationId),
                                                existing.decision.policyRevision, existing.decision.approvedDeltaLots))
  {
    if a.snapshot.Some? { AsksAgainExactly(input.command, a.snapshot.value, existing); }
  }

  /** A request whose approval is on record is answered from it, and nothing is stored. */
  lemma RepeatedRequestsStoreNothing(a: Adapter, input: AdmitInput, existing: Approval)
    requires ApprovalFor(a.ledger, RequestKey(a.accountId, input.requestId)) == Ok(Some(existing))
    ensures Admit(a, input).0 == a
    ensures Admit(a, input).1.Ok? <==>
              && existing.reservation.state.Active? && !input.journaled && a.snapshot.Some?
              && AsksAgain(input.command, a.snapshot.value, existing)
    ensures Admit(a, input).1.Ok? ==> Admit(a, input).1.value.decisionId == existing.decision.decisionId
                                      && Admit(a, input).1.value.reservationId == Some(existing.reservation.reservationId)
  {
    RepeatsAreAnsweredExactly(a, input, existing);
  }

  /** A first request that cannot be asked, or that the engine cannot rule on, fails without storing anything. */
  lemma UnruledRequestsStoreNothing(a: Adapter, input: AdmitInput, policy: RiskPolicySet)
    requires ApprovalFor(a.ledger, RequestKey(a.accountId, input.requestId)) == Ok(None)
    requires a.accountId in a.ledger.policies && a.ledger.policies[a.accountId] == policy
    ensures var request := BuildRequest(a, input, policy).1;
            && (request.Err? ==> Admit(a, input).0.ledger == a.ledger && Admit(a, input).1 == Err(request.error))
            && (request.Ok? && Decide(input.decisionId, policy, request.value).Err? ==>
                  Admit(a, input).0.ledger == a.ledger && Admit(a, input).1 == Err(Unavailable))
  {}

  // ---- a recorded outcome ----

  /** An acknowledgement leaves the row alone, a rejection releases it and an unknown outcome holds it; a request
      without a row has nothing to record. */
  lemma OutcomesAreRecordedExactly(a: Adapter, requestId: Id, outcome: DispatchOutcome, now: i64)
    requires Consistent(a.ledger)
    ensures var (after, result) := Record(a, requestId, outcome, now);
            var k := RequestKey(a.accountId, requestId);
            if k !in a.ledger.reservationIndex then after == a && result == Ok(())
            else
              var r := a.ledger.reservations[a.ledger.reservationIndex[k]];
              var row := after.ledger.reservations[r.reservationId];
              && (result == Ok(()) <==> outcome == Rejected || InFlight(r))
              && (result.Err? ==> result.error == Unavailable)
              && after == a.(ledger := a.ledger.(reservations := a.ledger.reservations[r.reservationId := row]))
              && match outcome
                 case Acknowledged => row == r
                 case Rejected => if Final(r) then row == r else row == r.(remainingDeltaLots := 0, state := Released, updatedAt := now)
                 case UnknownOutcome => if InFlight(r) && r.state != UnknownHeld then row == r.(state := UnknownHeld, updatedAt := now)
                                        else row == r
  {
    var k := RequestKey(a.accountId, requestId);
    CallsAnswerExactly(a.ledger, k, EvidenceOf(outcome), now);
    ReconcileSettlesOneRow(a.ledger, k, EvidenceOf(outcome), now);
    if k in a.ledger.reservationIndex {
      var r := a.ledger.reservations[a.ledger.reservationIndex[k]];
      assert a.ledger.reservations[r.reservationId := r] == a.ledger.reservations;
    }
  }

  // ---- the policy of a new account ----

  /** A missing policy is initialised, once, to one that reduces only, without margin and without limits of its
      own, and that insists on the provider's lot limits. */
  lemma MissingPolicyIsFailClosed(l: Ledger, account: Id, now: i64)
    requires account !in l.policies
    ensures var (after, policy) := CurrentPolicy(l, account, now);
            if Blank(account) then after == l && policy == Err(Unavailable)
            else
              && policy.Ok? && after.policies == l.policies[account := policy.value] && |after.policyAudit| == |l.policyAudit| + 1
              && policy.value.state == RiskState.ReduceOnly && policy.value.revision == 1
              && !policy.value.allowMargin && policy.value.requireProviderLotLimit && !policy.value.protectionRequiredForNewExposure
              && policy.value.maxSingleOrderLots.None? && policy.value.maxPositionAbsLots.None?
              && policy.value.maxGrossExposure.None? && policy.value.maxNetExposureAbs.None? && policy.value.maxInstrumentExposure.None?
              && policy.value.maxMarginUtilizationPpm.None? && policy.value.maxDailyLoss.None?
              && policy.value.maxMarketDataAge.None? && policy.value.maxUnprotectedDuration.None?
  {
    assert "initialize fail-closed account policy"[0] == 'i';
  }
}
