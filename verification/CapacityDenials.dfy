/** A capacity denial that is overcome: the same order is denied while another reservation holds the
    capacity, and admitted once that reservation is released. */
module CapacityDenials {
  import opened Machine
  import opened RiskModel
  import opened RiskEngine
  import opened EngineGuarantees
  import opened RiskLedger
  import opened Admission
  import opened AdmissionRuns

  lemma LotsAfterChange(rows: map<Id, RiskReservation>, r: RiskReservation, account: Id, instrument: Id)
    requires r.reservationId in rows && rows[r.reservationId].reservationId == r.reservationId
    ensures HeldLots(rows[r.reservationId := r], account, instrument)
         == HeldLots(rows, account, instrument)
            - (if Counts(rows[r.reservationId], account, instrument) then Abs(rows[r.reservationId].remainingDeltaLots) else 0)
            + (if Counts(r, account, instrument) then Abs(r.remainingDeltaLots) else 0)
    ensures ActiveDelta(rows[r.reservationId := r], account, instrument)
         == ActiveDelta(rows, account, instrument)
            - (if Counts(rows[r.reservationId], account, instrument) then rows[r.reservationId].remainingDeltaLots else 0)
            + (if Counts(r, account, instrument) then r.remainingDeltaLots else 0)
  {
    var others, was := rows - {r.reservationId}, rows[r.reservationId];
    assert rows == others[r.reservationId := was] && rows[r.reservationId := r] == others[r.reservationId := r];
    HeldLotsAfterPut(others, was, account, instrument);
    HeldLotsAfterPut(others, r, account, instrument);
    ActiveDeltaAfterPut(others, was, account, instrument);
    ActiveDeltaAfterPut(others, r, account, instrument);
  }

  /** One lot per instrument, and no other limit. */
  const ONE_LOT := RiskPolicySet(1, Normal, false, false, None, None, Some(1), None, None, None, None, None, false, None)

  const FLAT_REPORT := Report(1, true, [], [], [], 1, 1)

  /** A flat account with a limit of one lot, of which `held` lots are reserved to buy. */
  ghost predicate Holding(a: Adapter, held: nat) {
    && a.snapshot == Some(FLAT_REPORT) && FreshCache(a.instrumentCache)
    && a.accountId in a.ledger.policies && a.ledger.policies[a.accountId] == ONE_LOT
    && HeldLots(a.ledger.reservations, a.accountId, "share") == held
    && ActiveDelta(a.ledger.reservations, a.accountId, "share") == held
  }

  /** A plain order of one lot. */
  predicate OrdersOne(input: AdmitInput, side: OrderSide) {
    input.command == PlaceOrder("share", side, 1, false, false, false) && input.facts == PLAIN_FACTS
  }

  function Delta(side: OrderSide): i64 { if side.Buy? then 1 else -1 }

  function OneLotRequest(a: Adapter, input: AdmitInput, side: OrderSide, reserved: i64): RiskRequest {
    RiskRequest(
      input.requestId, a.accountId, a.connectionId, "share", Manual, DirectionalOrder, Delta(side), 0, false, false, false, 0,
      RiskSnapshot(true, true, true, 1, false, 0, 0, 0, reserved, None, None, None, None,
                   PLAIN_FACTS.lotLimits, None, PLAIN_FACTS.protection.value, RiskValidityContext(1, 1, 1, 1, None, 0, 1, 0)))
  }

  lemma OrderIsBuilt(a: Adapter, input: AdmitInput, side: OrderSide, reserved: i64)
    requires 0 <= reserved <= 1 && Holding(a, reserved) && OrdersOne(input, side)
    ensures BuildRequest(a, input, ONE_LOT) == (SHARE_CACHE, Ok(OneLotRequest(a, input, side, reserved)))
  {
    var d := Description(DirectionalOrder, "share", Delta(side), false, false, false, None);
    assert Describe(input.command, FLAT_REPORT) == Ok(d);
    FlatFigures(a, d, reserved);
  }

  lemma FlatFigures(a: Adapter, d: Description, reserved: i64)
    requires 0 <= reserved <= 1 && Holding(a, reserved) && d.action.DirectionalOrder? && d.instrumentId == "share"
    requires d.replacedOrderId.None?
    ensures PositionFigures(a.ledger.reservations, a.accountId, FLAT_REPORT, d, PLAIN_FACTS) == Ok((0, 0, reserved))
  {
    assert PositionUnits(FLAT_REPORT.positions, "share") == [] && OpenOrderLots(FLAT_REPORT.activeOrders, "share", None) == [];
    assert CheckedSum(0, []) == Some(0) && PositionLots(0, 1) == Some(0);
  }

  lemma OrderIsGranted(a: Adapter, input: AdmitInput, side: OrderSide, reserved: i64)
    requires 0 <= reserved <= 1 && (side.Buy? ==> reserved == 0)
    ensures var request := OneLotRequest(a, input, side, reserved);
            Dispatches(ONE_LOT, request) && Granted(ONE_LOT, request) == Delta(side)
  {}

  /** The engine's consent to the order. */
  predicate Consents(a: Adapter, input: AdmitInput, side: OrderSide, ruling: RiskDecision) {
    && ruling.PermitsDispatch() && ruling.decisionId == input.decisionId && ruling.requestId == input.requestId
    && ruling.accountId == a.accountId && ruling.action.DirectionalOrder? && ruling.approvedDeltaLots == Delta(side)
    && ruling.expiresAt.None? && ruling.policyRevision == 1
    && ruling.validity == RiskValidityContext(1, 1, 1, 1, None, 0, 1, 0)
  }

  lemma OrderIsRuled(a: Adapter, input: AdmitInput, side: OrderSide, reserved: i64) returns (ruling: RiskDecision)
    requires 0 <= reserved <= 1 && (side.Buy? ==> reserved == 0)
    ensures Decide(input.decisionId, ONE_LOT, OneLotRequest(a, input, side, reserved)) == Ok(ruling) && Consents(a, input, side, ruling)
  {
    var request := OneLotRequest(a, input, side, reserved);
    OrderIsGranted(a, input, side, reserved);
    DispatchMeansEveryGatePassed(input.decisionId, ONE_LOT, request);
    ruling := Decide(input.decisionId, ONE_LOT, request).value;
  }

  /** The order has been admitted: its decision and its row are stored. */
  predicate Taken(a: Adapter, input: AdmitInput, side: OrderSide, ruling: RiskDecision, after: Ledger, admission: RiskAdmission) {
    var decision := ruling.(reservationId := Some(input.reservationId));
    && admission == AdmissionOf(decision, Some(input.reservationId))
    && after.policies == a.ledger.policies
    && after.decisions == a.ledger.decisions[input.decisionId := decision]
    && after.reservations
       == a.ledger.reservations[input.reservationId :=
            NewReservation(input.reservationId, OneLotRequest(a, input, side, 0), decision, 0)]
  }

  /** With the engine's consent, it is the held lots that decide. */
  lemma SettledByCapacity(a: Adapter, input: AdmitInput, side: OrderSide, reserved: i64, request: RiskRequest, ruling: RiskDecision)
    requires 0 <= reserved <= 1 && HeldLots(a.ledger.reservations, a.accountId, "share") == reserved
    requires Unused(a.ledger, a.accountId, input) && request == OneLotRequest(a, input, side, reserved)
    requires Consents(a, input, side, ruling)
    ensures var (after, answer) := Settle(a.ledger, input, ONE_LOT, request, ruling);
            if reserved == 1 then after == a.ledger && answer == Err(Denied(ReservationCapacityExceeded))
            else answer.Ok? && Taken(a, input, side, ruling, after, answer.value)
  {
    var row := NewReservation(input.reservationId, request, ruling.(reservationId := Some(input.reservationId)), 0);
    assert ScaledNotional(0, Delta(side), Delta(side)) == Some(0);
    assert CapacityVerdict(a.ledger.reservations, row, CapacityOf(ONE_LOT)) == LimitVerdict(reserved + 1, I64_MAX, 1);
  }

  /** An admission without history is the settlement of its ruling. */
  lemma AdmitSettles(a: Adapter, input: AdmitInput, policy: RiskPolicySet, cache: map<Id, i64>, request: RiskRequest, ruling: RiskDecision)
    requires Unused(a.ledger, a.accountId, input) && a.accountId in a.ledger.policies && a.ledger.policies[a.accountId] == policy
    requires BuildRequest(a, input, policy) == (cache, Ok(request)) && Decide(input.decisionId, policy, request) == Ok(ruling)
    ensures var (after, answer) := Settle(a.ledger, input, policy, request, ruling);
            Admit(a, input) == (a.(instrumentCache := cache, ledger := after), answer)
  {}

  lemma OrderIsDecidedByCapacity(a: Adapter, input: AdmitInput, side: OrderSide, reserved: i64) returns (ruling: RiskDecision)
    requires 0 <= reserved <= 1 && (side.Buy? ==> reserved == 0)
    requires Holding(a, reserved) && OrdersOne(input, side) && Unused(a.ledger, a.accountId, input)
    ensures Consents(a, input, side, ruling)
    ensures var (after, answer) := Admit(a, input);
            if reserved == 1 then
              after == a.(instrumentCache := SHARE_CACHE) && answer == Err(Denied(ReservationCapacityExceeded))
            else
              && after == a.(instrumentCache := SHARE_CACHE, ledger := after.ledger)
              && answer.Ok? && Taken(a, input, side, ruling, after.ledger, answer.value)
  {
    var request := OneLotRequest(a, input, side, reserved);
    OrderIsBuilt(a, input, side, reserved);
    ruling := OrderIsRuled(a, input, side, reserved);
    SettledByCapacity(a, input, side, reserved, request, ruling);
    AdmitSettles(a, input, ONE_LOT, SHARE_CACHE, request, ruling);
  }

  /** Rejecting the order behind a held lot gives the lot back. */
  lemma RejectionReleases(a: Adapter, id: Id, now: i64)
    requires Consistent(a.ledger) && Holding(a, 1) && id in a.ledger.reservations
    requires var r := a.ledger.reservations[id]; Counts(r, a.accountId, "share") && r.remainingDeltaLots == 1
    ensures var after := Record(a, a.ledger.reservations[id].logicalRequestId, Rejected, now).0;
            && Holding(after, 0) && after.accountId == a.accountId
            && after.ledger == a.ledger.(reservations := after.ledger.reservations)
            && after.ledger.reservations.Keys == a.ledger.reservations.Keys
  {
    var r := a.ledger.reservations[id];
    RejectionReleasesRow(a, id, now);
    LotsAfterChange(a.ledger.reservations, r.(remainingDeltaLots := 0, state := Released, updatedAt := now), a.accountId, "share");
  }

  lemma RejectionReleasesRow(a: Adapter, id: Id, now: i64)
    requires Consistent(a.ledger) && id in a.ledger.reservations
    requires var r := a.ledger.reservations[id]; Counts(r, a.accountId, "share")
    ensures var r := a.ledger.reservations[id];
            Record(a, r.logicalRequestId, Rejected, now).0
            == a.(ledger := a.ledger.(reservations := a.ledger.reservations[
                    id := r.(remainingDeltaLots := 0, state := Released, updatedAt := now)]))
  {
    var r := a.ledger.reservations[id];
    assert ReservationFor(a.ledger, RequestKey(a.accountId, r.logicalRequestId)) == Some(r);
  }

  /** The same order, denied for capacity at first, is admitted after the release. */
  lemma CapacityDenialIsOvercome(w: World, id: Id, input: AdmitInput, now: i64, denied: World, released: World)
    requires Invariant(w) && Holding(w.adapter, 1) && OrdersOne(input, Sell) && Unused(w.adapter.ledger, w.adapter.accountId, input)
    requires id in w.adapter.ledger.reservations
    requires var r := w.adapter.ledger.reservations[id]; Counts(r, w.adapter.accountId, "share") && r.remainingDeltaLots == 1
    requires denied == Advance(w, Admitting(input))
    requires released == Advance(denied, Recording(w.adapter.ledger.reservations[id].logicalRequestId, Rejected, now))
    ensures Admit(w.adapter, input).1 == Err(Denied(ReservationCapacityExceeded))
    ensures Admit(released.adapter, input).1.Ok?
  {
    var _ := OrderIsDecidedByCapacity(w.adapter, input, Sell, 1);
    assert denied.adapter == w.adapter.(instrumentCache := SHARE_CACHE);
    RejectionReleases(denied.adapter, id, now);
    var _ := OrderIsDecidedByCapacity(released.adapter, input, Sell, 0);
  }

  // ---- from the empty store ----

  const BUY := AdmitInput(PlaceOrder("share", Buy, 1, false, false, false), "buy", PLAIN_FACTS, false, "decision", "row")

  /** The policy, the report, and the state before the order. */
  lemma FlatStateIsReached(account: Id, connection: Id) returns (steps: seq<Step>, flat: World)
    requires !Blank(account)
    ensures AllEnabled(Start(account, connection), steps) && RunAll(Start(account, connection), steps) == Advance(flat, Admitting(BUY))
    ensures Holding(flat.adapter, 0) && flat.adapter.accountId == account
    ensures flat.adapter.ledger == EMPTY.(policies := flat.adapter.ledger.policies, policyAudit := flat.adapter.ledger.policyAudit)
  {
    var w := Start(account, connection);
    steps := [ChangingPolicy(None, ONE_LOT, "limit", 0), Reconciling([], FLAT_REPORT), Admitting(BUY)];
    flat := RunAll(w, steps[..2]);
    assert steps[..0] == [] && steps[..1] == [steps[0]] && steps[..2] == [steps[0], steps[1]];
    assert [steps[0]][..0] == [] && [steps[0], steps[1]][..1] == [steps[0]];
    assert !Blank("limit") by { assert "limit"[0] == 'l'; }
    var first := Advance(w, steps[0]);
    assert RunAll(w, [steps[0]]) == first && first.adapter.ledger.policies == map[account := ONE_LOT];
    EmptyStoreHoldsNothing(account, "share");
  }

  /** One lot is held for the order to buy, which passes its validation. */
  ghost predicate Bought(a: Adapter) {
    && Holding(a, 1) && "row" in a.ledger.reservations
    && (var r := a.ledger.reservations["row"];
        Counts(r, a.accountId, "share") && r.remainingDeltaLots == 1 && r.logicalRequestId == "buy")
    && exists admission :: Validate(a, ValidateInput(BUY.command, "buy", admission, 0, Some(0), false)).1 == Ok(())
  }

  lemma TakenOrderIsHeld(a: Adapter, ruling: RiskDecision, after: Adapter, admission: RiskAdmission)
    requires Holding(a, 0) && Consents(a, BUY, Buy, ruling) && after == a.(instrumentCache := SHARE_CACHE, ledger := after.ledger)
    requires Taken(a, BUY, Buy, ruling, after.ledger, admission) && "row" !in a.ledger.reservations
    ensures Holding(after, 1) && "row" in after.ledger.reservations
    ensures var r := after.ledger.reservations["row"];
            Counts(r, a.accountId, "share") && r.remainingDeltaLots == 1 && r.logicalRequestId == "buy"
  {
    var row := after.ledger.reservations["row"];
    HeldLotsAfterPut(a.ledger.reservations, row, a.accountId, "share");
    ActiveDeltaAfterPut(a.ledger.reservations, row, a.accountId, "share");
  }

  lemma TakenOrderIsValidated(a: Adapter, ruling: RiskDecision, after: Adapter, admission: RiskAdmission)
    requires Holding(a, 0) && Consents(a, BUY, Buy, ruling) && after == a.(instrumentCache := SHARE_CACHE, ledger := after.ledger)
    requires Taken(a, BUY, Buy, ruling, after.ledger, admission)
    ensures Validate(after, ValidateInput(BUY.command, "buy", admission, 0, Some(0), false)).1 == Ok(())
  {
    assert Describe(BUY.command, FLAT_REPORT) == Ok(Description(DirectionalOrder, "share", 1, false, false, false, None));
    assert MatchesApproval(after.ledger.decisions["decision"], a.accountId,
                           ValidateInput(BUY.command, "buy", admission, 0, Some(0), false));
  }

  lemma BuyIsTaken(w: World, late: World)
    requires Holding(w.adapter, 0) && late == Advance(w, Admitting(BUY))
    requires w.adapter.ledger == EMPTY.(policies := w.adapter.ledger.policies, policyAudit := w.adapter.ledger.policyAudit)
    ensures Bought(late.adapter)
  {
    var ruling := OrderIsDecidedByCapacity(w.adapter, BUY, Buy, 0);
    var (after, answer) := Admit(w.adapter, BUY);
    TakenOrderIsHeld(w.adapter, ruling, after, answer.value);
    TakenOrderIsValidated(w.adapter, ruling, after, answer.value);
  }

  /** A run from the empty store leads to the state in which the denial happens, through an order that is
      admitted and passes its validation. */
  lemma HoldingIsReached(account: Id, connection: Id) returns (w: World)
    requires !Blank(account)
    ensures Reachable(w) && Bought(w.adapter)
  {
    var steps, flat := FlatStateIsReached(account, connection);
    w := BuyingIsReachable(account, connection, steps, flat);
    BuyIsTaken(flat, w);
  }

  lemma BuyingIsReachable(account: Id, connection: Id, steps: seq<Step>, flat: World) returns (w: World)
    requires AllEnabled(Start(account, connection), steps) && RunAll(Start(account, connection), steps) == Advance(flat, Admitting(BUY))
    ensures Reachable(w) && w == Advance(flat, Admitting(BUY))
  {
    w := RunAll(Start(account, connection), steps);
  }
}
