/** The production adapter: admit, validate, record and reconcile over one account, as functions of the
    adapter state. Broker replies, clocks and fresh identities are inputs. */
module Admission {
  import opened Machine
  import opened RiskModel
  import opened RiskEngine
  import opened RiskLedger
  import opened Reconciliation

  datatype OrderSide = Buy | Sell

  datatype OrderFact = OrderFact(
    brokerOrderId: Id, logicalRequestId: Option<Id>, instrumentId: Id, side: Option<OrderSide>,
    lotsRequested: i64, lotsExecuted: i64)

  datatype PositionFact = PositionFact(instrumentId: Id, units: i64)

  datatype Report = Report(
    runtimeEpoch: u64, ready: bool, unresolved: seq<Id>, positions: seq<PositionFact>, activeOrders: seq<OrderFact>,
    snapshotObservedAt: i64, completedAt: i64)

  datatype Command =
    | PlaceOrder(instrumentId: Id, side: OrderSide, lots: i64, priced: bool, market: bool, confirmMargin: bool)
    | ReplaceOrder(existingOrderId: Id, lots: i64, confirmMargin: bool)
    | CancelOrderCommand(orderId: Id)
    | ProtectionOrder(instrumentId: Id, confirmMargin: bool)
    | CancelStop

  datatype Description = Description(
    action: RiskActionKind, instrumentId: Id, deltaLots: i64, priced: bool, market: bool, confirmMargin: bool,
    replacedOrderId: Option<Id>)

  datatype DenialCode =
    | Ruled(code: RiskReasonCode)
    | ReservationCapacityExceeded
    | PositionLotMismatch
    | PriceUnavailable
    | InvalidOrderQuantity
    | OrderNotFound
    | OrderDirectionUnknown

  datatype AdmissionError = StaleApproval | Unavailable | Denied(code: DenialCode)

  datatype RiskAdmission = RiskAdmission(
    decisionId: Id, reservationId: Option<Id>, policyRevision: u64, approvedDeltaLots: i64)

  datatype Adapter = Adapter(
    accountId: Id, connectionId: Id, ledger: Ledger, snapshot: Option<Report>, instrumentCache: map<Id, i64>)

  /** What the broker, the runtime journal and the authorization service say during one admission, in the
      order in which they are asked. `None` stands for a failed query, and so does `false` for the connection
      identity, the session (clock, read session, query slot), the instrument constraints and the daily
      result; `tradable` and `lotSize` are the constraints in effect, cached or not. */
  datatype BrokerFacts = BrokerFacts(
    now: i64, addressed: bool, authorizationRevision: Option<u64>, session: bool, constraints: bool, tradable: bool, lotSize: i64,
    lotLimits: Option<BrokerLotLimits>, unresolvedConflict: Option<bool>, orderTotal: Option<i128>, readablePnl: bool,
    dailyPnl: Option<i128>, margin: Option<BrokerMarginFacts>, protection: Option<RiskProtectionStatus>, source: RiskSource)

  datatype AdmitInput = AdmitInput(
    command: Command, requestId: Id, facts: BrokerFacts, journaled: bool, decisionId: Id, reservationId: Id)

  // ---- reading the report ----

  function SignedLots(side: OrderSide, lots: i64): Option<i64> {
    if lots <= 0 then None else Some(if side.Buy? then lots else -lots)
  }

  function SignedRemaining(order: OrderFact): Option<i64> {
    if order.lotsRequested < 0 || order.lotsExecuted < 0 || order.lotsExecuted > order.lotsRequested || order.side.None?
    then None
    else
      var remaining := order.lotsRequested - order.lotsExecuted;
      Some(if order.side.value.Buy? then remaining else -remaining)
  }

  function FindOrder(orders: seq<OrderFact>, matches: OrderFact -> bool): Option<OrderFact> {
    if orders == [] then None
    else if matches(orders[0]) then Some(orders[0]) else FindOrder(orders[1..], matches)
  }

  function FindTarget(orders: seq<OrderFact>, target: Id): Option<OrderFact> {
    FindOrder(orders, (o: OrderFact) => o.brokerOrderId == target || o.logicalRequestId == Some(target))
  }

  /** The first open order that carries the request identity. */
  function OrderOf(report: Report, requestId: Id): Option<OrderFact> {
    FindOrder(report.activeOrders, (o: OrderFact) => o.logicalRequestId == Some(requestId))
  }

  function Describe(command: Command, report: Report): Result<Description, AdmissionError> {
    match command
    case PlaceOrder(instrument, side, lots, priced, market, margin) =>
      var delta := SignedLots(side, lots);
      if delta.None? then Err(Denied(InvalidOrderQuantity))
      else Ok(Description(DirectionalOrder, instrument, delta.value, priced, market, margin, None))
    case ReplaceOrder(existing, lots, margin) =>
      var target := FindTarget(report.activeOrders, existing);
      if target.None? then Err(Denied(OrderNotFound))
      else if target.value.side.None? then Err(Denied(OrderDirectionUnknown))
      else
        var delta := SignedLots(target.value.side.value, lots);
        if delta.None? then Err(Denied(InvalidOrderQuantity))
        else Ok(Description(ReplaceDirectionalOrder, target.value.instrumentId, delta.value, true, false, margin,
                            Some(existing)))
    case CancelOrderCommand(orderId) =>
      var target := FindTarget(report.activeOrders, orderId);
      Ok(Description(RiskActionKind.CancelOrder,
                     if target.None? then "maintenance:cancel-order" else target.value.instrumentId,
                     0, false, false, false, None))
    case ProtectionOrder(instrument, margin) =>
      Ok(Description(ProtectionMaintenance, instrument, 0, false, false, margin, None))
    case CancelStop =>
      Ok(Description(CancelProtection, "maintenance:cancel-protection", 0, false, false, false, None))
  }

  /** Adds up the values in order; `None` when one is unreadable or a running sum overflows. */
  function CheckedSum(total: i64, values: seq<Option<i64>>): Option<i64>
    decreases |values|
  {
    if values == [] then Some(total)
    else if values[0].None? || !FitsI64(total + values[0].value) then None
    else CheckedSum(total + values[0].value, values[1..])
  }

  function PositionUnits(positions: seq<PositionFact>, instrument: Id): seq<Option<i64>> {
    if positions == [] then []
    else (if positions[0].instrumentId == instrument then [Some(positions[0].units)] else [])
         + PositionUnits(positions[1..], instrument)
  }

  function OpenOrderLots(orders: seq<OrderFact>, instrument: Id, replaced: Option<Id>): seq<Option<i64>> {
    if orders == [] then []
    else
      var o := orders[0];
      var counted := o.instrumentId == instrument
                     && (replaced.None? || (o.brokerOrderId != replaced.value && o.logicalRequestId != replaced));
      (if counted then [SignedRemaining(o)] else []) + OpenOrderLots(orders[1..], instrument, replaced)
  }

  /** Position in lots, when the units divide exactly and the division itself is defined. */
  function PositionLots(units: i64, lotSize: i64): Option<i64> {
    if lotSize == 0 then None
    else
      var lots := if lotSize > 0 then TruncDiv(units, lotSize) else 0 - TruncDiv(units, 0 - lotSize);
      if lots * lotSize != units || !FitsI64(lots) then None else Some(lots)
  }

  function SnapshotRevision(report: Report): u64 { if report.snapshotObservedAt < 0 then 0 else report.snapshotObservedAt }

  /** Cached constraints are reused for one second. */
  predicate Cached(cache: map<Id, i64>, instrument: Id, now: i64) {
    instrument in cache && SaturatingSub(now, cache[instrument]) <= 1_000
  }

  /** The cache after a lookup; the revision of the constraints is the time they were fetched. */
  function CacheLookup(cache: map<Id, i64>, instrument: Id, now: i64): map<Id, i64> {
    if Cached(cache, instrument, now) then cache else cache[instrument := now]
  }

  predicate NotionalPolicy(p: RiskPolicySet) {
    p.maxGrossExposure.Some? || p.maxNetExposureAbs.Some? || p.maxInstrumentExposure.Some?
  }

  const INITIAL_POLICY := RiskPolicySet(
    1, RiskState.ReduceOnly, false, true, None, None, None, None, None, None, None, None, false, None)

  // ---- building the risk request ----

  /** The three position figures of the snapshot, or the error that stops the admission. */
  ghost function PositionFigures(rows: map<Id, RiskReservation>, account: Id, report: Report, d: Description, facts: BrokerFacts)
    : Result<(i64, i64, i64), AdmissionError>
  {
    var units := CheckedSum(0, PositionUnits(report.positions, d.instrumentId));
    var openOrders := CheckedSum(0, OpenOrderLots(report.activeOrders, d.instrumentId, d.replacedOrderId));
    var reserved := ActiveDelta(rows, account, d.instrumentId);
    if d.action.Directional() && units.None? then Err(Unavailable)
    else if d.action.Directional() && PositionLots(units.value, facts.lotSize).None? then Err(Denied(PositionLotMismatch))
    else if d.action.Directional() && facts.lotLimits.None? then Err(Denied(Ruled(ProviderLimitUnavailable)))
    else if openOrders.None? || facts.unresolvedConflict.None? || !FitsI64(reserved) then Err(Unavailable)
    else
      var current := if d.action.Directional() then PositionLots(units.value, facts.lotSize).value else 0;
      if !FitsI64(current + openOrders.value) || !FitsI64(current + openOrders.value + reserved) then Err(Unavailable)
      else Ok((current, openOrders.value, reserved))
  }

  /** The magnitudes that the increasing portion is computed from fit 64 bits. */
  predicate PortionRepresentable(base: int, delta: i64) {
    delta != 0 ==> Abs(delta) <= I64_MAX && (base != 0 && Sign(base) != Sign(delta) ==> Abs(base) <= I64_MAX)
  }

  /** The signed notional, needed only when a notional policy meets an order that grows the position. */
  function RequestNotional(d: Description, increasing: int, policy: RiskPolicySet, facts: BrokerFacts): Result<i128, AdmissionError> {
    if !d.action.Directional() || increasing <= 0 || !NotionalPolicy(policy) then Ok(0)
    else if !d.priced || facts.orderTotal.None? then Err(Denied(PriceUnavailable))
    else if d.deltaLots >= 0 then Ok(facts.orderTotal.value)
    else if facts.orderTotal.value == I128_MIN then Err(Unavailable)
    else Ok(-facts.orderTotal.value)
  }

  function RequestMargin(d: Description, increasing: int, policy: RiskPolicySet, facts: BrokerFacts)
    : Result<Option<BrokerMarginFacts>, AdmissionError>
  {
    if increasing <= 0 || (policy.maxMarginUtilizationPpm.None? && !(policy.allowMargin && d.confirmMargin)) then Ok(None)
    else if facts.margin.None? then Err(Denied(Ruled(CriticalInputMissing)))
    else Ok(facts.margin)
  }

  function RequestOf(accountId: Id, connectionId: Id, requestId: Id, report: Report, d: Description, facts: BrokerFacts,
                     constraintsRevision: u64, figures: (i64, i64, i64), notional: i128, margin: Option<BrokerMarginFacts>,
                     policyRevision: u64): RiskRequest
    requires facts.authorizationRevision.Some? && facts.unresolvedConflict.Some? && facts.protection.Some?
  {
    var directional, revision := d.action.Directional(), SnapshotRevision(report);
    RiskRequest(
      requestId, accountId, connectionId, d.instrumentId, facts.source, d.action, d.deltaLots, notional,
      d.market, d.confirmMargin, false, facts.now,
      RiskSnapshot(
        report.ready, true, !directional || facts.tradable, if directional then facts.lotSize else 1,
        facts.unresolvedConflict.value, figures.0, figures.1, 0, figures.2, None, None, None, facts.dailyPnl,
        if directional then facts.lotLimits else None, margin, facts.protection.value,
        RiskValidityContext(report.runtimeEpoch, revision, revision, revision, None, constraintsRevision, policyRevision,
                            facts.authorizationRevision.value)))
  }

  /** The request on the given figures, or the error of an estimate that it needs. */
  function Assembled(accountId: Id, connectionId: Id, requestId: Id, report: Report, d: Description, facts: BrokerFacts,
                     constraintsRevision: u64, figures: (i64, i64, i64), policy: RiskPolicySet): Result<RiskRequest, AdmissionError>
    requires facts.authorizationRevision.Some? && facts.unresolvedConflict.Some?
  {
    var base := figures.0 + figures.1 + figures.2;
    var increasing := IncreasingPortion(base, d.deltaLots);
    var notional := RequestNotional(d, increasing, policy, facts);
    var margin := RequestMargin(d, increasing, policy, facts);
    if !PortionRepresentable(base, d.deltaLots) then Err(Unavailable)
    else if notional.Err? then Err(notional.error)
    else if !facts.readablePnl then Err(Unavailable)
    else if margin.Err? then Err(margin.error)
    else if facts.protection.None? then Err(Unavailable)
    else Ok(RequestOf(accountId, connectionId, requestId, report, d, facts, constraintsRevision, figures, notional.value,
                      margin.value, policy.revision))
  }

  ghost function BuildRequest(a: Adapter, input: AdmitInput, policy: RiskPolicySet)
    : (map<Id, i64>, Result<RiskRequest, AdmissionError>)
  {
    var facts := input.facts;
    if a.snapshot.None? || a.snapshot.value.runtimeEpoch == 0 || !facts.addressed then (a.instrumentCache, Err(Unavailable))
    else if facts.authorizationRevision.None? then (a.instrumentCache, Err(Denied(Ruled(ExecutionUnauthorized))))
    else
      var report := a.snapshot.value;
      var described := Describe(input.command, report);
      if described.Err? then (a.instrumentCache, Err(described.error))
      else
        var d := described.value;
        var directional := d.action.Directional();
        var cache := if directional then CacheLookup(a.instrumentCache, d.instrumentId, facts.now) else a.instrumentCache;
        var figures := PositionFigures(a.ledger.reservations, a.accountId, report, d, facts);
        if !facts.session then (a.instrumentCache, Err(Unavailable))
        else if directional && !facts.constraints && !Cached(a.instrumentCache, d.instrumentId, facts.now)
        then (a.instrumentCache, Err(Denied(Ruled(InstrumentUnavailable))))
        else if directional && cache[d.instrumentId] < 0 then (cache, Err(Unavailable))
        else if figures.Err? then (cache, Err(figures.error))
        else
          (cache, Assembled(a.accountId, a.connectionId, input.requestId, report, d, facts,
                            if directional then cache[d.instrumentId] else 0, figures.value, policy))
  }

  // ---- admission ----

  /** The current policy; a missing one is initialised to the fail-closed default. */
  function CurrentPolicy(l: Ledger, account: Id, now: i64): (Ledger, Result<RiskPolicySet, AdmissionError>) {
    if account in l.policies then (l, Ok(l.policies[account]))
    else
      var (after, result) := PutPolicy(l, account, None, INITIAL_POLICY, "initialize fail-closed account policy", now);
      (after, if result.Ok? then Ok(result.value) else Err(Unavailable))
  }

  /** The requested notional scaled to the approved quantity, rounded toward zero. */
  function ScaledNotional(notional: i128, requested: i64, approved: i64): Option<i128> {
    if requested == 0 then Some(0)
    else if !FitsI128(notional * Abs(approved)) then None
    else
      var scaled := TruncDiv(notional * Abs(approved), Abs(requested));
      if FitsI128(scaled) then Some(scaled) else None
  }

  function NewReservation(id: Id, request: RiskRequest, decision: RiskDecision, notional: i128): RiskReservation {
    RiskReservation(id, request.accountId, request.instrumentId, request.source, request.requestId,
                    decision.approvedDeltaLots, decision.approvedDeltaLots, notional, ReservationState.Active,
                    request.now, request.now, decision.expiresAt)
  }

  function CapacityOf(policy: RiskPolicySet): ReservationCapacity {
    ReservationCapacity(policy.maxGrossExposure, policy.maxPositionAbsLots)
  }

  function AdmissionOf(d: RiskDecision, reservation: Option<Id>): RiskAdmission {
    RiskAdmission(d.decisionId, reservation, d.policyRevision, d.approvedDeltaLots)
  }

  /** A request that already has its approval on record: handed out again while nothing has happened to it. */
  function Replay(a: Adapter, input: AdmitInput, existing: Approval): Result<RiskAdmission, AdmissionError> {
    if !existing.reservation.state.Active? || input.journaled || a.snapshot.None? then Err(StaleApproval)
    else
      var described := Describe(input.command, a.snapshot.value);
      if described.Err? then Err(described.error)
      else if described.value.action != existing.decision.action
           || described.value.instrumentId != existing.reservation.instrumentId
           || described.value.deltaLots != existing.decision.requestedDeltaLots
      then Err(StaleApproval)
      else Ok(AdmissionOf(existing.decision, Some(existing.reservation.reservationId)))
  }

  /** Stores the ruling of a request and turns it into an admission or a denial. */
  ghost function Settle(l: Ledger, input: AdmitInput, policy: RiskPolicySet, request: RiskRequest, ruling: RiskDecision)
    : (Ledger, Result<RiskAdmission, AdmissionError>)
  {
    if !ruling.PermitsDispatch() then
      var (after, stored) := PutDecision(l, ruling);
      (after, Err(if stored.Ok? then Denied(Ruled(ruling.reason)) else Unavailable))
    else if !request.action.Directional() then
      var (after, stored) := PutDecision(l, ruling);
      (after, if stored.Ok? then Ok(AdmissionOf(ruling, None)) else Err(Unavailable))
    else
      var notional := ScaledNotional(request.requestedNotional, request.requestedDeltaLots, ruling.approvedDeltaLots);
      if notional.None? then (l, Err(Unavailable))
      else
        var decision := ruling.(reservationId := Some(input.reservationId));
        var reservation := NewReservation(input.reservationId, request, decision, notional.value);
        var (after, stored) := PersistApproval(l, decision, reservation, CapacityOf(policy));
        (after, if stored.Ok? then Ok(AdmissionOf(stored.value.decision, Some(stored.value.reservation.reservationId)))
                else if stored.error.CapacityExceeded? then Err(Denied(ReservationCapacityExceeded))
                else Err(Unavailable))
  }

  ghost function Admit(a: Adapter, input: AdmitInput): (Adapter, Result<RiskAdmission, AdmissionError>) {
    var approval := ApprovalFor(a.ledger, RequestKey(a.accountId, input.requestId));
    if approval.Err? then (a, Err(Unavailable))
    else if approval.value.Some? then (a, Replay(a, input, approval.value.value))
    else
      var (l, policy) := CurrentPolicy(a.ledger, a.accountId, input.facts.now);
      var ready := a.(ledger := l);
      if policy.Err? then (ready, Err(policy.error))
      else
        var (cache, request) := BuildRequest(ready, input, policy.value);
        var built := ready.(instrumentCache := cache);
        if request.Err? then (built, Err(request.error))
        else
          var ruling := Decide(input.decisionId, policy.value, request.value);
          if ruling.Err? then (built, Err(Unavailable))
          else
            var (after, result) := Settle(l, input, policy.value, request.value, ruling.value);
            (built.(ledger := after), result)
  }

  // ---- validation ----

  datatype ValidateInput = ValidateInput(
    command: Command, requestId: Id, admission: RiskAdmission, now: i64, authorizationRevision: Option<u64>, conflict: bool)

  predicate MatchesApproval(d: RiskDecision, account: Id, input: ValidateInput) {
    && d.requestId == input.requestId
    && d.accountId == account
    && d.policyRevision == input.admission.policyRevision
    && d.approvedDeltaLots == input.admission.approvedDeltaLots
    && d.reservationId == input.admission.reservationId
  }

  predicate WatermarksHold(report: Report, v: RiskValidityContext) {
    && report.runtimeEpoch == v.runtimeEpoch
    && SnapshotRevision(report) == v.reconciliationRevision == v.positionRevision == v.orderRevision
  }

  /** The last checks before an order leaves; the only possible effect is initialising a missing policy. */
  function Validate(a: Adapter, input: ValidateInput): (Adapter, Result<(), AdmissionError>) {
    if input.admission.decisionId !in a.ledger.decisions then (a, Err(StaleApproval))
    else
      var d := a.ledger.decisions[input.admission.decisionId];
      if !MatchesApproval(d, a.accountId, input) || (d.expiresAt.Some? && input.now > d.expiresAt.value) then (a, Err(StaleApproval))
      else
        var (l, policy) := CurrentPolicy(a.ledger, a.accountId, input.now);
        var ready := a.(ledger := l);
        if policy.Err? then (ready, Err(policy.error))
        else if policy.value.revision != d.validity.policyRevision then (ready, Err(StaleApproval))
        else if input.authorizationRevision.None? then (ready, Err(Denied(Ruled(ExecutionUnauthorized))))
        else if input.authorizationRevision.value != d.validity.executionAuthorizationRevision then (ready, Err(StaleApproval))
        else if a.snapshot.None? || !WatermarksHold(a.snapshot.value, d.validity) then (ready, Err(StaleApproval))
        else
          var described := Describe(input.command, a.snapshot.value);
          if described.Err? then (ready, Err(described.error))
          else if described.value.deltaLots != d.approvedDeltaLots || described.value.action != d.action then (ready, Err(StaleApproval))
          else if described.value.action.Directional() && described.value.instrumentId !in a.instrumentCache
          then (ready, Err(StaleApproval))
          else if described.value.action.Directional() && a.instrumentCache[described.value.instrumentId] < 0
          then (ready, Err(Unavailable))
          else if described.value.action.Directional()
               && a.instrumentCache[described.value.instrumentId] != d.validity.instrumentConstraintsRevision
          then (ready, Err(StaleApproval))
          else if input.conflict then (ready, Err(StaleApproval))
          else (ready, Ok(()))
  }

  // ---- outcomes ----

  datatype DispatchOutcome = Acknowledged | Rejected | UnknownOutcome

  function EvidenceOf(outcome: DispatchOutcome): Evidence {
    match outcome
    case Acknowledged => DispatchAcknowledged
    case Rejected => BrokerReject
    case UnknownOutcome => Evidence.UnknownAfterDispatch
  }

  /** A request without a reservation, such as a cancel, has nothing to record. */
  function Record(a: Adapter, requestId: Id, outcome: DispatchOutcome, now: i64): (Adapter, Result<(), AdmissionError>) {
    var (after, result) := Reconcile(a.ledger, RequestKey(a.accountId, requestId), EvidenceOf(outcome), now);
    (a.(ledger := after), if result.Ok? || result.error.NotFound? then Ok(()) else Err(Unavailable))
  }

  // ---- the reconciliation pass ----

  /** What a report says about one request: still unresolved, open with a remaining quantity, gone, or
      open with an unreadable quantity. */
  function ReportedEvidence(report: Report, requestId: Id): Option<Evidence> {
    if requestId in report.unresolved then Some(Evidence.UnknownAfterDispatch)
    else
      var order := OrderOf(report, requestId);
      if order.None? then Some(Evidence.NoRemainingExposure)
      else if SignedRemaining(order.value).None? then None
      else Some(RuntimeRemaining(SignedRemaining(order.value).value))
  }

  function ReconcileRequest(l: Ledger, account: Id, requestId: Id, report: Report): (Ledger, bool) {
    var evidence := ReportedEvidence(report, requestId);
    if evidence.None? then (l, false)
    else
      var (after, result) := Reconcile(l, RequestKey(account, requestId), evidence.value, report.completedAt);
      (after, result.Ok?)
  }

  /** Applies the report to the listed requests in order and stops at the first failure. */
  function ReconcilePass(l: Ledger, account: Id, requests: seq<Id>, report: Report): (Ledger, bool) {
    if requests == [] then (l, true)
    else
      var (before, ok) := ReconcilePass(l, account, requests[..|requests| - 1], report);
      if ok then ReconcileRequest(before, account, requests[|requests| - 1], report) else (before, false)
  }

  /** `requests` lists, in some order and once each, the requests whose reservations hold capacity. */
  ghost predicate ListsHolding(l: Ledger, account: Id, requests: seq<Id>) {
    && (forall i, j :: 0 <= i < j < |requests| ==> requests[i] != requests[j])
    && (forall q :: q in requests <==>
          ReservationFor(l, RequestKey(account, q)).Some? && ReservationFor(l, RequestKey(account, q)).value.state.Holding())
  }

  function ReconcileReport(a: Adapter, requests: seq<Id>, report: Report): (Adapter, Result<(), AdmissionError>) {
    var (after, ok) := ReconcilePass(a.ledger, a.accountId, requests, report);
    (a.(snapshot := Some(report), ledger := after), if ok then Ok(()) else Err(Unavailable))
  }
}
