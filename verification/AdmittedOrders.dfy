/** From the command to the dispatch: what an admitted order reserves, and the plan it is sent under. */
module AdmittedOrders {
  import opened Machine
  import opened RiskModel
  import opened RiskEngine
  import opened EngineGuarantees
  import opened RiskLedger
  import opened DecisionRuns
  import opened Admission
  import opened AdmissionRequests
  import opened AdmissionRuns
  import opened AdmissionGuarantees
  import opened DispatchPlan
  import opened ReduceOnlyRuns
  import opened AdapterLimits

  /** The adapter asks the engine this about the command, under this policy. */
  ghost predicate Asks(a: Adapter, input: AdmitInput, policy: RiskPolicySet, request: RiskRequest) {
    var (l, current) := CurrentPolicy(a.ledger, a.accountId, input.facts.now);
    && ApprovalFor(a.ledger, RequestKey(a.accountId, input.requestId)) == Ok(None)
    && current == Ok(policy) && BuildRequest(a.(ledger := l), input, policy).1 == Ok(request)
  }

  /** The pair that an admitted order leaves in the store. */
  ghost predicate Stored(l: Ledger, input: AdmitInput, policy: RiskPolicySet, request: RiskRequest, admission: RiskAdmission) {
    var k := RequestKey(request.accountId, request.requestId);
    var ruling := Decide(input.decisionId, policy, request);
    && ruling.Ok? && ruling.value.PermitsDispatch()
    && var notional := ScaledNotional(request.requestedNotional, request.requestedDeltaLots, ruling.value.approvedDeltaLots);
       && notional.Some?
       && var decision := ruling.value.(reservationId := Some(input.reservationId));
          && DecisionFor(l, k) == Some(decision)
          && ReservationFor(l, k) == Some(NewReservation(input.reservationId, request, decision, notional.value))
          && admission == AdmissionOf(decision, Some(input.reservationId))
  }

  lemma SettledOrderIsStored(l: Ledger, input: AdmitInput, policy: RiskPolicySet, request: RiskRequest)
    requires RequestKey(request.accountId, request.requestId) !in l.reservationIndex && request.action.Directional()
    requires Decide(input.decisionId, policy, request).Ok?
    requires Settle(l, input, policy, request, Decide(input.decisionId, policy, request).value).1.Ok?
    ensures var (after, answer) := Settle(l, input, policy, request, Decide(input.decisionId, policy, request).value);
            Stored(after, input, policy, request, answer.value)
  {
    DispatchMeansEveryGatePassed(input.decisionId, policy, request);
    var ruling := Decide(input.decisionId, policy, request).value;
    var notional := ScaledNotional(request.requestedNotional, request.requestedDeltaLots, ruling.approvedDeltaLots);
    var decision := ruling.(reservationId := Some(input.reservationId));
    PersistInsertsPairOrNothing(
      l, decision, NewReservation(input.reservationId, request, decision, notional.value), CapacityOf(policy));
  }

  lemma AdmittedOrderIsStored(a: Adapter, input: AdmitInput, policy: RiskPolicySet, request: RiskRequest)
    requires Consistent(a.ledger) && Asks(a, input, policy, request) && request.action.Directional() && Admit(a, input).1.Ok?
    ensures request.accountId == a.accountId && request.requestId == input.requestId
    ensures Stored(Admit(a, input).0.ledger, input, policy, request, Admit(a, input).1.value)
  {
    var l := CurrentPolicy(a.ledger, a.accountId, input.facts.now).0;
    PolicyLookupOnlyAddsOwnPolicy(a.ledger, a.accountId, input.facts.now);
    BuiltRequestIsAnchored(a.(ledger := l), input, policy);
    SettledOrderIsStored(l, input, policy, request);
  }

  // ---- the plan ----

  /** The dispatch that an admission allows: its request, with the approved lots. */
  function ContextOf(request: RiskRequest, admission: RiskAdmission): DispatchContext {
    DispatchContext(request.requestId, request.accountId, request.brokerConnectionId, request.instrumentId, request.action,
                    admission.approvedDeltaLots, request.snapshot.validity)
  }

  /** The stored pair builds the plan of the admission: its decision, its reservation, and exactly the
      dispatch that was approved. */
  predicate HasPlan(l: Ledger, request: RiskRequest, admission: RiskAdmission) {
    var k := RequestKey(request.accountId, request.requestId);
    && DecisionFor(l, k).Some?
    && var plan := FromPersisted(DecisionFor(l, k).value, ReservationFor(l, k), request);
       && plan.Ok? && MatchesDispatchContext(plan.value, ContextOf(request, admission))
       && plan.value.decisionId == admission.decisionId && plan.value.reservationId == admission.reservationId
  }

  lemma StoredPairBuildsPlan(l: Ledger, input: AdmitInput, policy: RiskPolicySet, request: RiskRequest, admission: RiskAdmission)
    requires request.action.Directional() && Stored(l, input, policy, request, admission)
    ensures HasPlan(l, request, admission)
  {
    var k := RequestKey(request.accountId, request.requestId);
    PlanExistsExactlyForAnIntactApproval(DecisionFor(l, k).value, ReservationFor(l, k), request);
    DispatchMeansEveryGatePassed(input.decisionId, policy, request);
  }

  /** A row with the same terms, still active with everything remaining, builds the same plan. */
  lemma UntouchedRowBuildsTheSamePlan(d: RiskDecision, early: RiskReservation, late: RiskReservation, request: RiskRequest)
    requires Terms(late) == Terms(early) && early.state.Active? && late.state.Active?
    requires early.remainingDeltaLots == early.reservedDeltaLots && late.remainingDeltaLots == late.reservedDeltaLots
    ensures FromPersisted(d, Some(late), request) == FromPersisted(d, Some(early), request)
  {
    assert Terms(late).reservedDeltaLots == Terms(early).reservedDeltaLots;
    assert Terms(late).reservationId == Terms(early).reservationId && Terms(late).accountId == Terms(early).accountId;
    assert Terms(late).instrumentId == Terms(early).instrumentId && Terms(late).logicalRequestId == Terms(early).logicalRequestId;
  }

  /** Every admitted order has its plan, and whatever ran since, a dispatch that passes validation before
      its first recorded outcome still has it. */
  lemma ValidatedDispatchHasItsPlan(w: World, input: AdmitInput, policy: RiskPolicySet, request: RiskRequest, steps: seq<Step>,
                                    late: World, check: ValidateInput)
    requires Invariant(w) && Asks(w.adapter, input, policy, request) && request.action.Directional()
    requires Admit(w.adapter, input).1.Ok? && AllEnabled(Advance(w, Admitting(input)), steps)
    requires late == RunAll(Advance(w, Admitting(input)), steps) && Validate(late.adapter, check).1.Ok?
    requires check.requestId == input.requestId && input.requestId !in late.recorded && check.admission == Admit(w.adapter, input).1.value
    ensures HasPlan(Admit(w.adapter, input).0.ledger, request, check.admission)
    ensures HasPlan(late.adapter.ledger, request, check.admission)
  {
    var admission, early := Admit(w.adapter, input).1.value, Advance(w, Admitting(input));
    AdmittedOrderIsStored(w.adapter, input, policy, request);
    StoredPairBuildsPlan(early.adapter.ledger, input, policy, request, admission);
    AdmitKeepsInvariant(w, input);
    AdmitStoresAtMostOne(w.adapter, input);
    RunsKeepInvariant(early, steps);
    RunsExtendLedger(early, steps);
    PlanSurvives(early.adapter.ledger, late, input, policy, request, admission, check);
  }

  lemma StoredPairIsKept(l: Ledger, after: Ledger, k: RequestKey)
    requires Extends(l, after) && DecisionFor(l, k).Some? && ReservationFor(l, k).Some?
    ensures DecisionFor(after, k) == DecisionFor(l, k)
    ensures ReservationFor(after, k).Some? && Terms(ReservationFor(after, k).value) == Terms(ReservationFor(l, k).value)
  {}

  lemma PlanSurvives(l: Ledger, late: World, input: AdmitInput, policy: RiskPolicySet, request: RiskRequest,
                     admission: RiskAdmission, check: ValidateInput)
    requires Stored(l, input, policy, request, admission) && request.action.Directional() && Consistent(l)
    requires Invariant(late) && Extends(l, late.adapter.ledger) && Validate(late.adapter, check).1.Ok?
    requires request.accountId == late.adapter.accountId && request.requestId == check.requestId && check.requestId !in late.recorded
    requires check.admission == admission
    ensures var k := RequestKey(request.accountId, request.requestId);
            && DecisionFor(late.adapter.ledger, k) == DecisionFor(l, k)
            && ReservationFor(late.adapter.ledger, k).Some?
            && FromPersisted(DecisionFor(l, k).value, ReservationFor(late.adapter.ledger, k), request)
               == FromPersisted(DecisionFor(l, k).value, ReservationFor(l, k), request)
  {
    var k := RequestKey(request.accountId, request.requestId);
    StoredPairIsKept(l, late.adapter.ledger, k);
    KeptDecisionIsFound(l, late.adapter.ledger, input, policy, request, admission);
    PassedValidationFindsReservation(late, check);
    UntouchedRowBuildsTheSamePlan(DecisionFor(l, k).value, ReservationFor(l, k).value, ReservationFor(late.adapter.ledger, k).value,
                                  request);
  }

  lemma KeptDecisionIsFound(l: Ledger, after: Ledger, input: AdmitInput, policy: RiskPolicySet, request: RiskRequest,
                            admission: RiskAdmission)
    requires Stored(l, input, policy, request, admission) && request.action.Directional() && Consistent(l) && Extends(l, after)
    ensures admission.decisionId in after.decisions && after.decisions[admission.decisionId].action.Directional()
  {
    DispatchMeansEveryGatePassed(input.decisionId, policy, request);
  }

  // ---- within the command ----

  /** A reservation that never exceeds the command it was made for, and carries no notional. */
  predicate Within(r: RiskReservation, command: Command)
    requires command.PlaceOrder?
  {
    && r.instrumentId == command.instrumentId && r.reservedNotional == 0
    && 0 < Abs(r.reservedDeltaLots) <= command.lots && (r.reservedDeltaLots > 0 <==> command.side.Buy?)
  }

  lemma StoredOrderIsWithin(a: Adapter, input: AdmitInput, policy: RiskPolicySet, request: RiskRequest, after: Ledger,
                            admission: RiskAdmission)
    requires input.command.PlaceOrder? && BuildRequest(a, input, policy).1 == Ok(request)
    requires Stored(after, input, policy, request, admission)
    ensures Within(ReservationFor(after, RequestKey(request.accountId, request.requestId)).value, input.command)
  {
    PlacedOrderIsAskedAsPlaced(a, input, policy);
    DispatchMeansEveryGatePassed(input.decisionId, policy, request);
    DispatchedOrder(a, input, policy, request);
    GrantIsTheLargestPermittedSize(policy, request);
    NothingScalesToNothing(request.requestedDeltaLots, Decide(input.decisionId, policy, request).value.approvedDeltaLots);
  }

  /** In every later state the reservation of an admitted order is for the command's instrument and side, for
      at most its lots, and for no notional. */
  lemma AdmittedOrderStaysWithinItsCommand(w: World, input: AdmitInput, policy: RiskPolicySet, request: RiskRequest,
                                           steps: seq<Step>, late: World)
    requires Invariant(w) && Asks(w.adapter, input, policy, request) && input.command.PlaceOrder?
    requires Admit(w.adapter, input).1.Ok? && AllEnabled(Advance(w, Admitting(input)), steps)
    requires late == RunAll(Advance(w, Admitting(input)), steps)
    ensures var row := ReservationFor(late.adapter.ledger, RequestKey(w.adapter.accountId, input.requestId));
            row.Some? && Within(row.value, input.command)
  {
    var l := CurrentPolicy(w.adapter.ledger, w.adapter.accountId, input.facts.now).0;
    var early := Advance(w, Admitting(input));
    PlacedOrderIsAskedAsPlaced(w.adapter.(ledger := l), input, policy);
    AdmittedOrderIsStored(w.adapter, input, policy, request);
    StoredOrderIsWithin(w.adapter.(ledger := l), input, policy, request, early.adapter.ledger, Admit(w.adapter, input).1.value);
    AdmitKeepsInvariant(w, input);
    RunsExtendLedger(early, steps);
    WithinSurvives(early.adapter.ledger, late.adapter.ledger, RequestKey(w.adapter.accountId, input.requestId), input.command);
  }

  lemma WithinSurvives(l: Ledger, after: Ledger, k: RequestKey, command: Command)
    requires Extends(l, after) && command.PlaceOrder? && ReservationFor(l, k).Some?
    requires Within(ReservationFor(l, k).value, command)
    ensures ReservationFor(after, k).Some? && Within(ReservationFor(after, k).value, command)
  {
    var was, now := ReservationFor(l, k).value, ReservationFor(after, k).value;
    assert Terms(now) == Terms(was);
    assert Terms(now).reservedDeltaLots == Terms(was).reservedDeltaLots && Terms(now).instrumentId == Terms(was).instrumentId;
    assert Terms(now).reservedNotional == Terms(was).reservedNotional;
  }
}
