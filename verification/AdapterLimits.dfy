/** What follows from what the adapter tells the engine: it never reports exposures or the time of market data
    and never marks an order as an emergency, so some policies let no order through at all. */
module AdapterLimits {
  import opened Machine
  import opened RiskModel
  import opened RiskEngine
  import opened EngineGuarantees
  import opened RiskLedger
  import opened Reconciliation
  import opened DecisionRuns
  import opened Admission
  import opened AdmissionRuns
  import opened AdmissionGuarantees
  import opened ReduceOnlyRuns

  predicate Stopped(policy: RiskPolicySet) { policy.state.Halted? || policy.state.KillSwitch? }

  /** A limit on an exposure, or on the age of market data. */
  predicate NeedsMarket(policy: RiskPolicySet) { NotionalPolicy(policy) || policy.maxMarketDataAge.Some? }

  // ---- one admission ----

  /** What the adapter never tells the engine. */
  lemma BuiltRequestIsSilent(a: Adapter, input: AdmitInput, policy: RiskPolicySet, request: RiskRequest)
    requires BuildRequest(a, input, policy).1 == Ok(request)
    ensures var s := request.snapshot;
            && s.grossExposure.None? && s.netExposure.None? && s.instrumentExposure.None?
            && s.validity.marketDataAsOf.None? && !request.emergencyReduction
            && (request.requestedNotional != 0 ==> Increasing(request) > 0 && NotionalPolicy(policy))
  {}

  lemma SilentOrderIsStopped(policy: RiskPolicySet, request: RiskRequest)
    requires Dispatches(policy, request) && request.action.Directional() && !request.emergencyReduction
    ensures !Stopped(policy)
  {
    if Stopped(policy) { HaltedStatesAdmitOnlyAnExactClose(policy, request); }
  }

  lemma SilentGrowthIsStopped(policy: RiskPolicySet, request: RiskRequest)
    requires Dispatches(policy, request) && request.action.Directional() && Increasing(request) > 0
    requires var s := request.snapshot;
             s.grossExposure.None? && s.netExposure.None? && s.instrumentExposure.None? && s.validity.marketDataAsOf.None?
    ensures !NeedsMarket(policy)
  {}

  lemma DispatchedOrder(a: Adapter, input: AdmitInput, policy: RiskPolicySet, request: RiskRequest)
    requires BuildRequest(a, input, policy).1 == Ok(request) && request.action.Directional() && Dispatches(policy, request)
    ensures !Stopped(policy) && request.requestedNotional == 0 && (Increasing(request) > 0 ==> !NeedsMarket(policy))
  {
    BuiltRequestIsSilent(a, input, policy, request);
    SilentOrderIsStopped(policy, request);
    if Increasing(request) > 0 { SilentGrowthIsStopped(policy, request); }
  }

  /** An order that gets a reservation was not asked of a stopped account; if it grows the position, the policy
      has no limit that needs market data; and the reservation is for no notional. */
  lemma ReservedOrder(a: Adapter, input: AdmitInput) returns (policy: RiskPolicySet, request: RiskRequest)
    requires Admit(a, input).0.ledger.reservations != a.ledger.reservations
    ensures a.accountId in a.ledger.policies ==> policy == a.ledger.policies[a.accountId]
    ensures !Stopped(policy) && (Increasing(request) > 0 ==> !NeedsMarket(policy))
    ensures var rows := Admit(a, input).0.ledger.reservations;
            && input.reservationId in rows && rows[input.reservationId].reservedNotional == 0
            && rows[input.reservationId].remainingDeltaLots == Granted(policy, request)
  {
    var l;
    l, policy, request := GrantFacts(a, input);
    DispatchedOrder(a.(ledger := l), input, policy, request);
  }

  /** A stopped account is never given a reservation. */
  lemma StoppedAccountReservesNothing(a: Adapter, input: AdmitInput)
    requires a.accountId in a.ledger.policies && Stopped(a.ledger.policies[a.accountId])
    ensures Admit(a, input).0.ledger.reservations == a.ledger.reservations
  {
    if Admit(a, input).0.ledger.reservations != a.ledger.reservations {
      var policy, request := ReservedOrder(a, input);
      assert false;
    }
  }

  // ---- whole runs ----

  lemma ForeignUpdateAddsNoRow(l: Ledger, tx: Transaction, account: Id, id: Id)
    requires ForeignTo(l, tx, account) && id in Apply(l, tx).reservations && Apply(l, tx).reservations[id].accountId == account
    ensures id in l.reservations
  {
    match tx {
      case StoreApproval(d, r, c) => PersistInsertsPairOrNothing(l, d, r, c);
      case _ =>
    }
  }

  /** A new row of the account comes from an admission. */
  lemma NewRowsComeFromAdmissions(w: World, step: Step, id: Id)
    requires Invariant(w) && Enabled(w, step)
    requires var rows := Advance(w, step).adapter.ledger.reservations; id in rows && rows[id].accountId == w.adapter.accountId
    ensures id in w.adapter.ledger.reservations || (step.Admitting? && id == step.input.reservationId)
  {
    var a := w.adapter;
    match step {
      case Admitting(input) =>
        if Admit(a, input).0.ledger.reservations != a.ledger.reservations { AdmitAddsRow(a, input); }
      case Validating(check) => ValidateOnlyLooksUpPolicy(a, check);
      case Recording(requestId, outcome, now) =>
        ReconcileOnlyShrinks(a.ledger, RequestKey(a.accountId, requestId), EvidenceOf(outcome), now);
      case Reconciling(requests, report) => PassOnlyShrinks(a.ledger, a.accountId, requests, report);
      case OtherAccount(tx) => ForeignUpdateAddsNoRow(a.ledger, tx, a.accountId, id);
      case _ =>
    }
  }

  ghost predicate NoNotional(l: Ledger, account: Id) {
    forall id :: id in l.reservations && l.reservations[id].accountId == account ==> l.reservations[id].reservedNotional == 0
  }

  lemma AdmittedRowHasNoNotional(a: Adapter, input: AdmitInput)
    requires Admit(a, input).0.ledger.reservations != a.ledger.reservations
    ensures var rows := Admit(a, input).0.ledger.reservations;
            input.reservationId in rows && rows[input.reservationId].reservedNotional == 0
  {
    var policy, request := ReservedOrder(a, input);
  }

  lemma NewRowHasNoNotional(w: World, step: Step, id: Id)
    requires Invariant(w) && Enabled(w, step) && id !in w.adapter.ledger.reservations
    requires var rows := Advance(w, step).adapter.ledger.reservations; id in rows && rows[id].accountId == w.adapter.accountId
    ensures Advance(w, step).adapter.ledger.reservations[id].reservedNotional == 0
  {
    NewRowsComeFromAdmissions(w, step, id);
    AdmittedRowHasNoNotional(w.adapter, step.input);
  }

  lemma StepKeepsNoNotional(w: World, step: Step, after: Ledger)
    requires Invariant(w) && Enabled(w, step) && after == Advance(w, step).adapter.ledger
    requires NoNotional(w.adapter.ledger, w.adapter.accountId)
    ensures NoNotional(after, w.adapter.accountId)
  {
    StepExtends(w, step);
    forall id | id in after.reservations && after.reservations[id].accountId == w.adapter.accountId
      ensures after.reservations[id].reservedNotional == 0
    {
      if id in w.adapter.ledger.reservations {
        KeptTerms(w.adapter.ledger, after, id);
      } else {
        NewRowHasNoNotional(w, step, id);
      }
    }
  }

  lemma KeptTerms(l: Ledger, after: Ledger, id: Id)
    requires Extends(l, after) && id in l.reservations
    ensures id in after.reservations && after.reservations[id].accountId == l.reservations[id].accountId
    ensures after.reservations[id].reservedNotional == l.reservations[id].reservedNotional
  {
    assert Terms(after.reservations[id]).accountId == Terms(l.reservations[id]).accountId;
    assert Terms(after.reservations[id]).reservedNotional == Terms(l.reservations[id]).reservedNotional;
  }

  /** In every run no reservation of the account has a notional, so the notional capacity never binds. */
  lemma {:induction false} ReservationsHaveNoNotional(w: World, steps: seq<Step>)
    requires Invariant(w) && AllEnabled(w, steps) && NoNotional(w.adapter.ledger, w.adapter.accountId)
    ensures NoNotional(RunAll(w, steps).adapter.ledger, w.adapter.accountId)
  {
    if steps != [] {
      var init, last := steps[..|steps| - 1], steps[|steps| - 1];
      assert AllEnabled(w, init) by { assert forall i :: 0 <= i < |init| ==> init[..i] == steps[..i]; }
      ReservationsHaveNoNotional(w, init);
      RunsKeepInvariant(w, init);
      RunsExtendLedger(w, init);
      StepKeepsNoNotional(RunAll(w, init), last, RunAll(w, steps).adapter.ledger);
    }
  }

  ghost predicate StoppedAt(a: Adapter) { a.accountId in a.ledger.policies && Stopped(a.ledger.policies[a.accountId]) }

  predicate KeepsStopped(step: Step) { step.ChangingPolicy? ==> Stopped(step.policy) }

  ghost predicate NoNewRows(before: Ledger, after: Ledger, account: Id) {
    forall id :: id in after.reservations && after.reservations[id].accountId == account ==> id in before.reservations
  }

  lemma AdmitKeepsPolicy(a: Adapter, input: AdmitInput)
    requires a.accountId in a.ledger.policies
    ensures Admit(a, input).0.ledger.policies == a.ledger.policies && Admit(a, input).0.accountId == a.accountId
  {
    AdmitStoresAtMostOne(a, input);
  }

  lemma StepKeepsStopped(w: World, step: Step)
    requires Invariant(w) && Enabled(w, step) && KeepsStopped(step) && StoppedAt(w.adapter)
    ensures StoppedAt(Advance(w, step).adapter)
  {
    var a := w.adapter;
    AccountIsFixed(w, step);
    match step {
      case Admitting(input) => AdmitKeepsPolicy(a, input);
      case Validating(check) =>
        ValidateOnlyLooksUpPolicy(a, check);
        PolicyLookupOnlyAddsOwnPolicy(a.ledger, a.accountId, check.now);
      case Recording(requestId, outcome, now) =>
        ReconcileSettlesOneRow(a.ledger, RequestKey(a.accountId, requestId), EvidenceOf(outcome), now);
      case Reconciling(requests, report) => PassOnlyShrinks(a.ledger, a.accountId, requests, report);
      case ChangingPolicy(expected, policy, reason, now) =>
        PolicyChangeKeepsTables(a.ledger, a.accountId, expected, policy, reason, now);
      case Restarting =>
      case OtherAccount(tx) => ForeignTransactionLeavesAccountAlone(a.ledger, tx, a.accountId);
    }
  }

  lemma StoppedStepAddsNoRow(w: World, step: Step, id: Id)
    requires Invariant(w) && Enabled(w, step) && StoppedAt(w.adapter)
    requires var rows := Advance(w, step).adapter.ledger.reservations; id in rows && rows[id].accountId == w.adapter.accountId
    ensures id in w.adapter.ledger.reservations
  {
    NewRowsComeFromAdmissions(w, step, id);
    if step.Admitting? { StoppedAccountReservesNothing(w.adapter, step.input); }
  }

  lemma StoppedStep(l: Ledger, w: World, step: Step, after: Ledger)
    requires Invariant(w) && Enabled(w, step) && StoppedAt(w.adapter) && after == Advance(w, step).adapter.ledger
    requires NoNewRows(l, w.adapter.ledger, w.adapter.accountId)
    ensures NoNewRows(l, after, w.adapter.accountId)
  {
    StepExtends(w, step);
    forall id | id in after.reservations && after.reservations[id].accountId == w.adapter.accountId ensures id in l.reservations {
      StoppedStepAddsNoRow(w, step, id);
      KeptTerms(w.adapter.ledger, after, id);
    }
  }

  /** As long as an account stays halted or killed it is given no reservation, not even for an order that would
      close its position. */
  lemma {:induction false} StoppedRunsReserveNothing(w: World, steps: seq<Step>)
    requires Invariant(w) && AllEnabled(w, steps) && StoppedAt(w.adapter)
    requires forall i :: 0 <= i < |steps| ==> KeepsStopped(steps[i])
    ensures StoppedAt(RunAll(w, steps).adapter) && RunAll(w, steps).adapter.accountId == w.adapter.accountId
    ensures NoNewRows(w.adapter.ledger, RunAll(w, steps).adapter.ledger, w.adapter.accountId)
  {
    if steps != [] {
      var init, last := steps[..|steps| - 1], steps[|steps| - 1];
      assert AllEnabled(w, init) by { assert forall i :: 0 <= i < |init| ==> init[..i] == steps[..i]; }
      StoppedRunsReserveNothing(w, init);
      RunsKeepInvariant(w, init);
      AccountIsFixed(RunAll(w, init), last);
      StepKeepsStopped(RunAll(w, init), last);
      StoppedStep(w.adapter.ledger, RunAll(w, init), last, RunAll(w, steps).adapter.ledger);
    }
  }
}
