/** The last checks before an order leaves, on the stored decision, the adapter and the input alone, and what
    they prove about the admission that the decision came from. */
module DispatchChecks {
  import opened Machine
  import opened Histories
  import opened RiskModel
  import opened RiskEngine
  import opened RiskLedger
  import opened Reconciliation
  import opened Admission
  import opened AdmissionRuns
  import opened AdmissionGuarantees
  import opened ReportReading
  import opened RequestConditions

  // ---- one validation ----

  /** The approval that is presented is the one on record, and its time has not run out. */
  predicate Presented(d: RiskDecision, account: Id, input: ValidateInput) {
    && d.requestId == input.requestId && d.accountId == account
    && d.policyRevision == input.admission.policyRevision
    && d.approvedDeltaLots == input.admission.approvedDeltaLots
    && d.reservationId == input.admission.reservationId
    && (d.expiresAt.Some? ==> input.now <= d.expiresAt.value)
  }

  /** The revision in force: a missing policy is initialised to revision one, unless the account is blank. */
  predicate PolicyInForce(l: Ledger, account: Id, revision: int) {
    if account in l.policies then l.policies[account].revision == revision else !Blank(account) && revision == 1
  }

  /** The report that the decision was made on is still the one on record. */
  predicate SameReport(snapshot: Option<Report>, v: RiskValidityContext) {
    && snapshot.Some? && snapshot.value.runtimeEpoch == v.runtimeEpoch
    && var observed := if snapshot.value.snapshotObservedAt <= 0 then 0 else snapshot.value.snapshotObservedAt;
       v.reconciliationRevision == observed && v.positionRevision == observed && v.orderRevision == observed
  }

  /** The command is the one that was decided, and for an order the constraints are still those of the decision. */
  ghost predicate SameCommand(a: Adapter, command: Command, d: RiskDecision)
    requires a.snapshot.Some?
  {
    exists meaning :: Means(command, a.snapshot.value, meaning)
      && meaning.deltaLots == d.approvedDeltaLots && meaning.action == d.action
      && (command.PlaceOrder? || command.ReplaceOrder? ==>
            meaning.instrumentId in a.instrumentCache
            && a.instrumentCache[meaning.instrumentId] == d.validity.instrumentConstraintsRevision)
  }

  ghost predicate MayLeave(a: Adapter, input: ValidateInput) {
    && input.admission.decisionId in a.ledger.decisions
    && var d := a.ledger.decisions[input.admission.decisionId];
       && Presented(d, a.accountId, input)
       && PolicyInForce(a.ledger, a.accountId, d.validity.policyRevision)
       && input.authorizationRevision == Some(d.validity.executionAuthorizationRevision)
       && SameReport(a.snapshot, d.validity)
       && SameCommand(a, input.command, d)
       && !input.conflict
  }

  lemma PolicyInForceExactly(l: Ledger, account: Id, now: i64)
    ensures var policy := CurrentPolicy(l, account, now).1;
            forall revision :: PolicyInForce(l, account, revision) <==> policy.Ok? && policy.value.revision == revision
  {
    assert "initialize fail-closed account policy"[0] == 'i';
  }

  lemma SameCommandExactly(a: Adapter, command: Command, d: RiskDecision)
    requires a.snapshot.Some?
    ensures SameCommand(a, command, d) <==>
              && Describe(command, a.snapshot.value).Ok?
              && var meaning := Describe(command, a.snapshot.value).value;
                 && meaning.deltaLots == d.approvedDeltaLots && meaning.action == d.action
                 && (meaning.action.Directional() ==>
                       meaning.instrumentId in a.instrumentCache
                       && a.instrumentCache[meaning.instrumentId] == d.validity.instrumentConstraintsRevision)
  {
    DescribeExactly(command, a.snapshot.value);
    if SameCommand(a, command, d) {
      var meaning :| Means(command, a.snapshot.value, meaning)
        && meaning.deltaLots == d.approvedDeltaLots && meaning.action == d.action
        && (command.PlaceOrder? || command.ReplaceOrder? ==>
              meaning.instrumentId in a.instrumentCache
              && a.instrumentCache[meaning.instrumentId] == d.validity.instrumentConstraintsRevision);
      OneMeaning(command, a.snapshot.value, meaning);
    }
  }

  /** The checks that come after the approval and the policy, and before the journal. */
  lemma LaterChecksExactly(a: Adapter, input: ValidateInput, d: RiskDecision)
    requires input.admission.decisionId in a.ledger.decisions && d == a.ledger.decisions[input.admission.decisionId]
    requires Presented(d, a.accountId, input)
    ensures Validate(a, input).1.Ok? <==>
              && PolicyInForce(a.ledger, a.accountId, d.validity.policyRevision)
              && input.authorizationRevision == Some(d.validity.executionAuthorizationRevision)
              && SameReport(a.snapshot, d.validity) && SameCommand(a, input.command, d) && !input.conflict
  {
    PolicyInForceExactly(a.ledger, a.accountId, input.now);
    if a.snapshot.Some? { SameCommandExactly(a, input.command, d); }
  }

  /** A validation passes exactly when the approval is the stored one and in time, and the policy, the
      authorization, the report, the command, the constraints and the journal are all as decided. */
  lemma ValidationPassesExactly(a: Adapter, input: ValidateInput)
    ensures Validate(a, input).1.Ok? <==> MayLeave(a, input)
  {
    if input.admission.decisionId in a.ledger.decisions {
      var d := a.ledger.decisions[input.admission.decisionId];
      if Presented(d, a.accountId, input) { LaterChecksExactly(a, input, d); }
    }
  }

  /** The first check that fails is the one that is reported. */
  lemma RefusedValidationNamesItsReason(a: Adapter, input: ValidateInput)
    requires Validate(a, input).1.Err?
    ensures var error := Validate(a, input).1.error;
            if input.admission.decisionId !in a.ledger.decisions then error == StaleApproval
            else
              var d := a.ledger.decisions[input.admission.decisionId];
              var meaning := if a.snapshot.Some? then Describe(input.command, a.snapshot.value) else Err(StaleApproval);
              if !Presented(d, a.accountId, input) then error == StaleApproval
              else if a.accountId !in a.ledger.policies && Blank(a.accountId) then error == Unavailable
              else if !PolicyInForce(a.ledger, a.accountId, d.validity.policyRevision) then error == StaleApproval
              else if input.authorizationRevision.None? then error == Denied(Ruled(ExecutionUnauthorized))
              else if input.authorizationRevision.value != d.validity.executionAuthorizationRevision
                      || !SameReport(a.snapshot, d.validity) then error == StaleApproval
              else if meaning.Err? then error == meaning.error
              else error.StaleApproval? || (error.Unavailable? && meaning.value.instrumentId in a.instrumentCache
                                            && a.instrumentCache[meaning.value.instrumentId] < 0)
  {
    PolicyInForceExactly(a.ledger, a.accountId, input.now);
    assert "initialize fail-closed account policy"[0] == 'i';
  }

  // ---- the admission that a decision came from ----

  /** The decision is what this admission put on record: under its identity, for its request, on the report
      and the authorization that it saw. */
  ghost predicate Admitted(a: Adapter, input: AdmitInput, d: RiskDecision) {
    && input.decisionId == d.decisionId && d.decisionId !in a.ledger.decisions
    && input.requestId == d.requestId && a.accountId == d.accountId
    && input.facts.authorizationRevision == Some(d.validity.executionAuthorizationRevision)
    && SameReport(a.snapshot, d.validity)
    && exists meaning :: Means(input.command, a.snapshot.value, meaning)
                         && meaning.action == d.action && meaning.deltaLots == d.requestedDeltaLots
  }

  lemma BuiltRequestIsTheCommand(a: Adapter, input: AdmitInput, policy: RiskPolicySet)
    requires BuildRequest(a, input, policy).1.Ok?
    ensures var q := BuildRequest(a, input, policy).1.value;
            && q.requestId == input.requestId && q.accountId == a.accountId && q.brokerConnectionId == a.connectionId
            && input.facts.authorizationRevision == Some(q.snapshot.validity.executionAuthorizationRevision)
            && q.snapshot.validity.policyRevision == policy.revision
            && SameReport(a.snapshot, q.snapshot.validity)
            && exists meaning :: Means(input.command, a.snapshot.value, meaning)
                                 && meaning.action == q.action && meaning.deltaLots == q.requestedDeltaLots
                                 && meaning.instrumentId == q.instrumentId
  {
    var meaning, fetched, current, open, reserved := BuiltRequestCouldBeAsked(a, input, policy);
    RequestTellsWhatIsReported(a, input, policy, meaning, fetched, current, open, reserved);
    var q := BuildRequest(a, input, policy).1.value;
    assert Means(input.command, a.snapshot.value, meaning) && meaning.action == q.action && meaning.instrumentId == q.instrumentId;
  }

  /** What is stored for a request is its ruling, with or without the reservation's identity. */
  lemma SettleStoresTheRuling(l: Ledger, input: AdmitInput, policy: RiskPolicySet, request: RiskRequest, ruling: RiskDecision, id: Id)
    requires id !in l.decisions && id in Settle(l, input, policy, request, ruling).0.decisions
    ensures id == ruling.decisionId
    ensures var d := Settle(l, input, policy, request, ruling).0.decisions[id]; d == ruling.(reservationId := d.reservationId)
  {
    var notional := ScaledNotional(request.requestedNotional, request.requestedDeltaLots, ruling.approvedDeltaLots);
    if ruling.PermitsDispatch() && request.action.Directional() && notional.Some? {
      var decision := ruling.(reservationId := Some(input.reservationId));
      PersistInsertsPairOrNothing(
        l, decision, NewReservation(input.reservationId, request, decision, notional.value), CapacityOf(policy));
    }
  }

  lemma RulingCarriesTheRequest(id: Id, policy: RiskPolicySet, request: RiskRequest)
    requires Decide(id, policy, request).Ok?
    ensures var d := Decide(id, policy, request).value;
            && d.decisionId == id && d.requestId == request.requestId && d.accountId == request.accountId
            && d.action == request.action && d.requestedDeltaLots == request.requestedDeltaLots
            && d.validity == request.snapshot.validity
  {}

  /** A decision that an admission stores is the ruling on its own command, authorization and report. */
  lemma NewDecisionIsAdmitted(a: Adapter, input: AdmitInput, id: Id)
    requires id !in a.ledger.decisions && id in Admit(a, input).0.ledger.decisions
    ensures Admitted(a, input, Admit(a, input).0.ledger.decisions[id]) && id == input.decisionId
  {
    var (l, policy) := CurrentPolicy(a.ledger, a.accountId, input.facts.now);
    PolicyLookupOnlyAddsOwnPolicy(a.ledger, a.accountId, input.facts.now);
    var ready := a.(ledger := l);
    var request := BuildRequest(ready, input, policy.value).1;
    BuiltRequestIsTheCommand(ready, input, policy.value);
    RulingCarriesTheRequest(input.decisionId, policy.value, request.value);
    SettleStoresTheRuling(l, input, policy.value, request.value, Decide(input.decisionId, policy.value, request.value).value, id);
  }

  /** A new decision of the account comes from an admission. */
  lemma NewDecisionsComeFromAdmissions(w: World, step: Step, id: Id)
    requires Invariant(w) && Enabled(w, step) && id !in w.adapter.ledger.decisions
    requires var after := Advance(w, step).adapter.ledger.decisions; id in after && after[id].accountId == w.adapter.accountId
    ensures step.Admitting? && Admitted(w.adapter, step.input, Advance(w, step).adapter.ledger.decisions[id])
  {
    var a := w.adapter;
    match step {
      case Admitting(input) => NewDecisionIsAdmitted(a, input, id);
      case Validating(check) => ValidateOnlyLooksUpPolicy(a, check);
      case Recording(requestId, outcome, now) =>
        ReconcileOnlyShrinks(a.ledger, RequestKey(a.accountId, requestId), EvidenceOf(outcome), now);
        ReconcileSettlesOneRow(a.ledger, RequestKey(a.accountId, requestId), EvidenceOf(outcome), now);
      case Reconciling(requests, report) => PassOnlyShrinks(a.ledger, a.accountId, requests, report);
      case OtherAccount(tx) => ForeignTransactionLeavesAccountAlone(a.ledger, tx, a.accountId);
      case ChangingPolicy(expected, policy, reason, now) =>
        PolicyChangeKeepsTables(a.ledger, a.accountId, expected, policy, reason, now);
      case Restarting =>
    }
  }

  ghost predicate AdmittedAt(w: World, steps: seq<Step>, i: nat, d: RiskDecision)
    requires i < |steps|
  {
    steps[i].Admitting? && Admitted(RunAll(w, steps[..i]).adapter, steps[i].input, d)
  }

  /** The decision is on record after the first `n` steps. */
  ghost predicate StoredAt(w: World, steps: seq<Step>, n: nat, id: Id, d: RiskDecision)
    requires n <= |steps|
  {
    var decisions := RunAll(w, steps[..n]).adapter.ledger.decisions;
    id in decisions && decisions[id] == d
  }

  /** The step either stored the decision itself or found it there. */
  lemma DecisionBeforeOrNow(w: World, step: Step, after: World, id: Id)
    requires Invariant(w) && Enabled(w, step) && after == Advance(w, step)
    requires id in after.adapter.ledger.decisions && after.adapter.ledger.decisions[id].accountId == w.adapter.accountId
    ensures var d := after.adapter.ledger.decisions[id];
            || (id in w.adapter.ledger.decisions && w.adapter.ledger.decisions[id] == d)
            || (step.Admitting? && Admitted(w.adapter, step.input, d))
  {
    if id in w.adapter.ledger.decisions { StepExtends(w, step); } else { NewDecisionsComeFromAdmissions(w, step, id); }
  }

  lemma RunOneMore(w: World, steps: seq<Step>, k: nat)
    requires k < |steps|
    ensures RunAll(w, steps[..k + 1]) == Advance(RunAll(w, steps[..k]), steps[k])
  {
    assert steps[..k + 1][..k] == steps[..k];
  }

  lemma PrefixIsEnabled(w: World, steps: seq<Step>, k: nat)
    requires AllEnabled(w, steps) && k <= |steps|
    ensures AllEnabled(w, steps[..k])
  {
    assert forall i :: 0 <= i < k ==> steps[..k][..i] == steps[..i];
  }

  lemma StateAfter(account: Id, connection: Id, steps: seq<Step>, k: nat)
    requires AllEnabled(Start(account, connection), steps) && k <= |steps|
    ensures var w := RunAll(Start(account, connection), steps[..k]);
            Invariant(w) && w.adapter.accountId == account && (k < |steps| ==> Enabled(w, steps[k]))
  {
    PrefixIsEnabled(Start(account, connection), steps, k);
    RunsKeepInvariant(Start(account, connection), steps[..k]);
    RunsExtendLedger(Start(account, connection), steps[..k]);
  }

  lemma StoredBeforeOrAdmitted(account: Id, connection: Id, steps: seq<Step>, k: nat, id: Id, d: RiskDecision)
    requires AllEnabled(Start(account, connection), steps) && k < |steps|
    requires StoredAt(Start(account, connection), steps, k + 1, id, d) && d.accountId == account
    ensures StoredAt(Start(account, connection), steps, k, id, d) || AdmittedAt(Start(account, connection), steps, k, d)
  {
    StateAfter(account, connection, steps, k);
    RunOneMore(Start(account, connection), steps, k);
    DecisionBeforeOrNow(RunAll(Start(account, connection), steps[..k]), steps[k], RunAll(Start(account, connection), steps[..k + 1]), id);
  }

  /** Every decision of the account was put on record by one of the run's admissions, and is there ever since. */
  lemma DecisionsComeFromAdmissions(account: Id, connection: Id, steps: seq<Step>, id: Id, d: RiskDecision) returns (i: nat)
    requires AllEnabled(Start(account, connection), steps)
    requires StoredAt(Start(account, connection), steps, |steps|, id, d) && d.accountId == account
    ensures i < |steps| && AdmittedAt(Start(account, connection), steps, i, d)
    ensures forall k :: i < k <= |steps| ==> StoredAt(Start(account, connection), steps, k, id, d)
  {
    var w := Start(account, connection);
    var holds := seq(|steps| + 1, k requires 0 <= k <= |steps| => StoredAt(w, steps, k, id, d));
    var sets := seq(|steps|, k requires 0 <= k < |steps| => AdmittedAt(w, steps, k, d));
    forall k | 0 <= k < |sets| && holds[k + 1] ensures holds[k] || sets[k] {
      StoredBeforeOrAdmitted(account, connection, steps, k, id, d);
    }
    i := HeldSinceSet(holds, sets, |steps|);
    forall k | i < k <= |steps| ensures StoredAt(w, steps, k, id, d) { assert holds[k]; }
  }

  /** The admission and the validation saw the same authorization and the same report. */
  ghost predicate SameFooting(admitting: Adapter, input: AdmitInput, validating: Adapter, check: ValidateInput) {
    && input.decisionId == check.admission.decisionId && input.requestId == check.requestId
    && input.facts.authorizationRevision.Some? && check.authorizationRevision == input.facts.authorizationRevision
    && admitting.snapshot.Some? && validating.snapshot.Some?
    && admitting.snapshot.value.runtimeEpoch == validating.snapshot.value.runtimeEpoch
    && SnapshotRevision(admitting.snapshot.value) == SnapshotRevision(validating.snapshot.value)
  }

  lemma AdmittedAndValidated(admitting: Adapter, input: AdmitInput, validating: Adapter, check: ValidateInput)
    requires MayLeave(validating, check) && Consistent(validating.ledger)
    requires Admitted(admitting, input, validating.ledger.decisions[check.admission.decisionId])
    ensures SameFooting(admitting, input, validating, check)
  {}

  /** A validation that passes at the end of any run sees the authorization revision, the runtime epoch and
      the snapshot revision of the admission that its decision came from. */
  lemma ValidatedDispatchKeepsItsAuthorization(account: Id, connection: Id, steps: seq<Step>, check: ValidateInput)
    returns (i: nat)
    requires AllEnabled(Start(account, connection), steps)
    requires Validate(RunAll(Start(account, connection), steps).adapter, check).1.Ok?
    ensures i < |steps| && steps[i].Admitting?
    ensures SameFooting(RunAll(Start(account, connection), steps[..i]).adapter, steps[i].input,
                        RunAll(Start(account, connection), steps).adapter, check)
  {
    var w := Start(account, connection);
    var late := RunAll(w, steps).adapter;
    assert steps[..|steps|] == steps;
    ValidationPassesExactly(late, check);
    StateAfter(account, connection, steps, |steps|);
    i := DecisionsComeFromAdmissions(account, connection, steps, check.admission.decisionId,
                                     late.ledger.decisions[check.admission.decisionId]);
    AdmittedAndValidated(RunAll(w, steps[..i]).adapter, steps[i].input, late, check);
  }
}
