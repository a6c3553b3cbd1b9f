/** The immutable hand-off from risk to execution, built from a stored decision and its reservation. */
module DispatchPlan {
  import opened Arithmetic
  import opened Machine
  import opened RiskModel
  import opened RiskEngine
  import opened EngineGuarantees
  import opened RiskLedger
  import opened Admission

  datatype Plan = Plan(
    decisionId: Id, reservationId: Option<Id>, action: RiskActionKind, logicalRequestId: Id, accountId: Id,
    brokerConnectionId: Id, instrumentId: Id, approvedDeltaLots: i64, validity: RiskValidityContext)

  datatype PlanError =
    | DecisionDoesNotPermitDispatch
    | RequestIdentityMismatch
    | AccountMismatch
    | ActionMismatch
    | InstrumentMismatch
    | ReservationMismatch
    | ReservationRequired
    | UnexpectedReservation
    | QuantityMismatch
    | ReservationNotActive
    | ValidityMismatch

  function CheckReservation(d: RiskDecision, r: RiskReservation, request: RiskRequest): Option<PlanError> {
    if r.logicalRequestId != request.requestId then Some(RequestIdentityMismatch)
    else if r.accountId != request.accountId then Some(AccountMismatch)
    else if r.instrumentId != request.instrumentId then Some(InstrumentMismatch)
    else if d.reservationId != Some(r.reservationId) then Some(ReservationMismatch)
    else if d.approvedDeltaLots != r.reservedDeltaLots || r.remainingDeltaLots != d.approvedDeltaLots
    then Some(QuantityMismatch)
    else if !r.state.Active? then Some(ReservationNotActive)
    else None
  }

  function FromPersisted(d: RiskDecision, reservation: Option<RiskReservation>, request: RiskRequest): Result<Plan, PlanError> {
    if !d.PermitsDispatch() then Err(DecisionDoesNotPermitDispatch)
    else if d.requestId != request.requestId then Err(RequestIdentityMismatch)
    else if d.accountId != request.accountId then Err(AccountMismatch)
    else if d.action != request.action then Err(ActionMismatch)
    else if d.validity != request.snapshot.validity then Err(ValidityMismatch)
    else
      var problem :=
        if request.action.Directional() then
          (if reservation.None? then Some(ReservationRequired) else CheckReservation(d, reservation.value, request))
        else if reservation.Some? || d.reservationId.Some? then Some(UnexpectedReservation)
        else if d.approvedDeltaLots != 0 then Some(QuantityMismatch)
        else None;
      if problem.Some? then Err(problem.value)
      else Ok(Plan(d.decisionId, if reservation.None? then None else Some(reservation.value.reservationId), d.action,
                   request.requestId, request.accountId, request.brokerConnectionId, request.instrumentId,
                   d.approvedDeltaLots, d.validity))
  }

  /** A plan exists exactly for a permitted decision that describes the request and, for an order, for an
      untouched active reservation on the same terms. */
  lemma PlanExistsExactlyForAnIntactApproval(d: RiskDecision, reservation: Option<RiskReservation>, request: RiskRequest)
    requires request.action.Directional() && reservation.Some?
    ensures FromPersisted(d, reservation, request).Ok? <==>
            && LinkedApproval(d, reservation.value)
            && reservation.value.state.Active?
            && reservation.value.remainingDeltaLots == reservation.value.reservedDeltaLots
            && reservation.value.instrumentId == request.instrumentId
            && DecisionKey(d) == RequestKey(request.accountId, request.requestId)
            && d.action == request.action && d.validity == request.snapshot.validity
  {}

  /** A refused plan says what does not agree. */
  lemma RefusedPlanNamesItsReason(d: RiskDecision, reservation: Option<RiskReservation>, request: RiskRequest)
    requires FromPersisted(d, reservation, request).Err?
    ensures match FromPersisted(d, reservation, request).error
            case DecisionDoesNotPermitDispatch => !d.PermitsDispatch()
            case RequestIdentityMismatch =>
              d.requestId != request.requestId || (reservation.Some? && reservation.value.logicalRequestId != request.requestId)
            case AccountMismatch =>
              d.accountId != request.accountId || (reservation.Some? && reservation.value.accountId != request.accountId)
            case ActionMismatch => d.action != request.action
            case ValidityMismatch => d.validity != request.snapshot.validity
            case ReservationRequired => reservation.None? && request.action.Directional()
            case UnexpectedReservation => !request.action.Directional() && (reservation.Some? || d.reservationId.Some?)
            case InstrumentMismatch => reservation.Some? && reservation.value.instrumentId != request.instrumentId
            case ReservationMismatch => reservation.Some? && d.reservationId != Some(reservation.value.reservationId)
            case QuantityMismatch =>
              && reservation.Some?
              && !(reservation.value.remainingDeltaLots == reservation.value.reservedDeltaLots == d.approvedDeltaLots)
            case ReservationNotActive => reservation.Some? && !reservation.value.state.Active?
  {}

  /** Every fresh directional approval of the engine builds its dispatch plan without error, for exactly
      the lots that were granted. */
  lemma FreshApprovalAlwaysBuildsPlan(id: Id, reservationId: Id, policy: RiskPolicySet, request: RiskRequest, notional: i128)
    requires request.action.Directional()
    requires Decide(id, policy, request).Ok? && Decide(id, policy, request).value.PermitsDispatch()
    ensures var d := Decide(id, policy, request).value.(reservationId := Some(reservationId));
            var r := NewReservation(reservationId, request, d, notional);
            var plan := FromPersisted(d, Some(r), request);
            && LinkedApproval(d, r)
            && plan.Ok? && plan.value.approvedDeltaLots == Granted(policy, request) != 0
            && plan.value.reservationId == Some(reservationId)
            && plan.value.validity.policyRevision == policy.revision
  {
    DispatchMeansEveryGatePassed(id, policy, request);
    assert RevisionGate(policy, request).Pass?;
    var d := Decide(id, policy, request).value.(reservationId := Some(reservationId));
    PlanExistsExactlyForAnIntactApproval(d, Some(NewReservation(reservationId, request, d, notional)), request);
  }

  /** An approved cleanup builds its plan without a reservation and without lots. */
  lemma FreshCleanupBuildsPlan(id: Id, policy: RiskPolicySet, request: RiskRequest)
    requires !request.action.Directional()
    requires Decide(id, policy, request).Ok? && Decide(id, policy, request).value.PermitsDispatch()
    ensures var plan := FromPersisted(Decide(id, policy, request).value, None, request);
            plan.Ok? && plan.value.approvedDeltaLots == 0 && plan.value.reservationId.None?
  {
    DispatchMeansEveryGatePassed(id, policy, request);
  }

  datatype DispatchContext = DispatchContext(
    logicalRequestId: Id, accountId: Id, brokerConnectionId: Id, instrumentId: Id, action: RiskActionKind, deltaLots: i64,
    validity: RiskValidityContext)

  predicate MatchesDispatchContext(plan: Plan, context: DispatchContext) {
    && plan.logicalRequestId == context.logicalRequestId && plan.accountId == context.accountId
    && plan.brokerConnectionId == context.brokerConnectionId && plan.instrumentId == context.instrumentId
    && plan.action == context.action && plan.approvedDeltaLots == context.deltaLots && plan.validity == context.validity
  }

  /** A plan matches one dispatch only: the one with its identity, account, connection, instrument, action, lots and
      validity. */
  lemma PlanMatchesOneDispatch(plan: Plan, context: DispatchContext)
    ensures MatchesDispatchContext(plan, context) <==>
              context == DispatchContext(plan.logicalRequestId, plan.accountId, plan.brokerConnectionId, plan.instrumentId, plan.action,
                                         plan.approvedDeltaLots, plan.validity)
  {}

  /** Scaling never raises the magnitude or changes the sign, and an unchanged quantity keeps the
      notional exactly. */
  lemma ScaledNotionalNeverGrows(notional: i128, requested: i64, approved: i64)
    requires requested != 0 && Abs(approved) <= Abs(requested) && ScaledNotional(notional, requested, approved).Some?
    ensures var scaled := ScaledNotional(notional, requested, approved).value;
            && Abs(scaled) <= Abs(notional)
            && (scaled == 0 || Sign(scaled) == Sign(notional))
            && (Abs(approved) == Abs(requested) ==> scaled == notional)
  {
    SignedScaledDown(notional, Abs(approved), Abs(requested));
  }
}
