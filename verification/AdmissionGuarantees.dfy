/** Admissions over whole runs: what a request identity is answered, first and ever after. */
module AdmissionGuarantees {
  import opened Machine
  import opened RiskModel
  import opened RiskEngine
  import opened RiskLedger
  import opened Reconciliation
  import opened DecisionRuns
  import opened Admission
  import opened AdmissionRuns

  // ---- one admission per request ----

  lemma StoredRulingExtends(l: Ledger, after: Ledger, account: Id, decisionId: Id, policyRevision: int, last: int)
    requires StoresAtMostOne(l, after, account, decisionId, policyRevision, last)
    ensures Extends(l, after)
  {}

  lemma ShrinkingRowsExtend(l: Ledger, after: Ledger)
    requires after == l.(reservations := after.reservations) && RowsOnlyShrink(l.reservations, after.reservations)
    ensures Extends(l, after)
  {
    forall id | id in l.reservations ensures id in after.reservations && Terms(after.reservations[id]) == Terms(l.reservations[id]) {
      assert RowOnlyShrinks(l.reservations[id], after.reservations[id]);
    }
  }

  lemma SameTablesExtend(l: Ledger, after: Ledger)
    requires SameTables(after, l)
    ensures Extends(l, after)
  {}

  lemma AdmitExtends(a: Adapter, input: AdmitInput)
    ensures Extends(a.ledger, Admit(a, input).0.ledger)
  {
    var (l, policy) := CurrentPolicy(a.ledger, a.accountId, input.facts.now);
    var after := Admit(a, input).0.ledger;
    AdmitStoresAtMostOne(a, input);
    PolicyLookupOnlyAddsOwnPolicy(a.ledger, a.accountId, input.facts.now);
    SameTablesExtend(a.ledger, l);
    SameTablesExtend(a.ledger, a.ledger);
    if after != a.ledger && after != l {
      StoredRulingExtends(l, after, a.accountId, input.decisionId, policy.value.revision, SnapshotRevision(a.snapshot.value));
      ExtendsIsTransitive(a.ledger, l, after);
    }
  }

  lemma RecordExtends(a: Adapter, requestId: Id, outcome: DispatchOutcome, now: i64)
    requires Consistent(a.ledger)
    ensures Extends(a.ledger, Record(a, requestId, outcome, now).0.ledger)
  {
    ReconcileOnlyShrinks(a.ledger, RequestKey(a.accountId, requestId), EvidenceOf(outcome), now);
    ReconcileSettlesOneRow(a.ledger, RequestKey(a.accountId, requestId), EvidenceOf(outcome), now);
    ShrinkingRowsExtend(a.ledger, Record(a, requestId, outcome, now).0.ledger);
  }

  lemma PassExtends(a: Adapter, requests: seq<Id>, report: Report)
    requires Consistent(a.ledger)
    ensures Extends(a.ledger, ReconcileReport(a, requests, report).0.ledger)
  {
    PassOnlyShrinks(a.ledger, a.accountId, requests, report);
    ShrinkingRowsExtend(a.ledger, ReconcilePass(a.ledger, a.accountId, requests, report).0);
  }

  lemma ValidateExtends(a: Adapter, check: ValidateInput)
    ensures Extends(a.ledger, Validate(a, check).0.ledger)
  {
    ValidateOnlyLooksUpPolicy(a, check);
    SameTablesExtend(a.ledger, Validate(a, check).0.ledger);
  }

  lemma AdmittingExtends(w: World, input: AdmitInput)
    ensures Extends(w.adapter.ledger, Advance(w, Admitting(input)).adapter.ledger)
  {
    AdmitExtends(w.adapter, input);
  }

  lemma ValidatingExtends(w: World, check: ValidateInput)
    ensures Extends(w.adapter.ledger, Advance(w, Validating(check)).adapter.ledger)
  {
    ValidateExtends(w.adapter, check);
  }

  lemma OutcomesExtend(w: World, step: Step)
    requires Consistent(w.adapter.ledger) && (step.Recording? || step.Reconciling?)
    ensures Extends(w.adapter.ledger, Advance(w, step).adapter.ledger)
  {
    if step.Recording? { RecordExtends(w.adapter, step.requestId, step.outcome, step.now); }
    else { PassExtends(w.adapter, step.requests, step.report); }
  }

  lemma ForeignExtends(w: World, tx: Transaction)
    ensures Extends(w.adapter.ledger, Advance(w, OtherAccount(tx)).adapter.ledger)
  {
    TransactionExtends(w.adapter.ledger, tx);
  }

  lemma OwnPolicyExtends(w: World, expected: Option<u64>, policy: RiskPolicySet, reason: string, now: i64)
    ensures Extends(w.adapter.ledger, Advance(w, ChangingPolicy(expected, policy, reason, now)).adapter.ledger)
  {
    PolicyExtends(w.adapter.ledger, w.adapter.accountId, expected, policy, reason, now);
  }

  lemma RestartExtends(w: World)
    ensures Extends(w.adapter.ledger, Advance(w, Restarting).adapter.ledger)
  {}

  lemma StepExtends(w: World, step: Step)
    requires Consistent(w.adapter.ledger)
    ensures Extends(w.adapter.ledger, Advance(w, step).adapter.ledger)
  {
    match step {
      case Admitting(input) => AdmittingExtends(w, input);
      case Validating(check) => ValidatingExtends(w, check);
      case Recording(_, _, _) => OutcomesExtend(w, step);
      case Reconciling(_, _) => OutcomesExtend(w, step);
      case ChangingPolicy(expected, policy, reason, now) => OwnPolicyExtends(w, expected, policy, reason, now);
      case Restarting => RestartExtends(w);
      case OtherAccount(tx) => ForeignExtends(w, tx);
    }
  }

  lemma AdmitKeepsAccount(a: Adapter, input: AdmitInput)
    ensures Admit(a, input).0.accountId == a.accountId
  {
    AdmitStoresAtMostOne(a, input);
  }

  lemma ValidateKeepsAccount(a: Adapter, check: ValidateInput)
    ensures Validate(a, check).0.accountId == a.accountId
  {
    ValidateOnlyLooksUpPolicy(a, check);
  }

  lemma AccountIsFixed(w: World, step: Step)
    ensures Advance(w, step).adapter.accountId == w.adapter.accountId
  {
    match step {
      case Admitting(input) => AdmitKeepsAccount(w.adapter, input);
      case Validating(check) => ValidateKeepsAccount(w.adapter, check);
      case _ =>
    }
  }

  lemma ExtendByStep(l: Ledger, middle: World, step: Step, after: World)
    requires Extends(l, middle.adapter.ledger) && Consistent(middle.adapter.ledger) && after == Advance(middle, step)
    ensures Extends(l, after.adapter.ledger) && after.adapter.accountId == middle.adapter.accountId
  {
    AccountIsFixed(middle, step);
    StepExtends(middle, step);
    ExtendsIsTransitive(l, middle.adapter.ledger, after.adapter.ledger);
  }

  lemma {:induction false} RunsExtendLedger(w: World, steps: seq<Step>)
    requires Invariant(w) && AllEnabled(w, steps)
    ensures Extends(w.adapter.ledger, RunAll(w, steps).adapter.ledger)
    ensures RunAll(w, steps).adapter.accountId == w.adapter.accountId
  {
    if steps != [] {
      var init, step := steps[..|steps| - 1], steps[|steps| - 1];
      assert AllEnabled(w, init) by { assert forall i :: 0 <= i < |init| ==> init[..i] == steps[..i]; }
      RunsExtendLedger(w, init);
      RunsKeepInvariant(w, init);
      ExtendByStep(w.adapter.ledger, RunAll(w, init), step, RunAll(w, steps));
    }
  }

  /** What a granted admission has on record. */
  ghost predicate OnRecord(l: Ledger, k: RequestKey, admission: RiskAdmission) {
    var d := DecisionFor(l, k);
    && d.Some? && admission == AdmissionOf(d.value, admission.reservationId)
    && (if admission.reservationId.Some?
        then ReservationFor(l, k).Some? && ReservationFor(l, k).value.reservationId == admission.reservationId.value
        else k !in l.reservationIndex)
  }

  lemma SettledAdmissionIsOnRecord(l: Ledger, input: AdmitInput, policy: RiskPolicySet, request: RiskRequest)
    requires Consistent(l) && input.decisionId !in l.decisions
    requires RequestKey(request.accountId, request.requestId) !in l.reservationIndex
    requires Decide(input.decisionId, policy, request).Ok?
    requires Settle(l, input, policy, request, Decide(input.decisionId, policy, request).value).1.Ok?
    ensures var (after, result) := Settle(l, input, policy, request, Decide(input.decisionId, policy, request).value);
            OnRecord(after, RequestKey(request.accountId, request.requestId), result.value)
  {
    var ruling := Decide(input.decisionId, policy, request).value;
    if request.action.Directional() {
      var notional := ScaledNotional(request.requestedNotional, request.requestedDeltaLots, ruling.approvedDeltaLots);
      var decision := ruling.(reservationId := Some(input.reservationId));
      PersistInsertsPairOrNothing(
        l, decision, NewReservation(input.reservationId, request, decision, notional.value), CapacityOf(policy));
    }
  }

  lemma GrantedAdmissionIsOnRecord(a: Adapter, input: AdmitInput)
    requires Consistent(a.ledger) && input.decisionId !in a.ledger.decisions
    requires Admit(a, input).1.Ok?
    ensures OnRecord(Admit(a, input).0.ledger, RequestKey(a.accountId, input.requestId), Admit(a, input).1.value)
  {
    var k := RequestKey(a.accountId, input.requestId);
    var approval := ApprovalFor(a.ledger, k);
    if approval.value.None? {
      var (l, policy) := CurrentPolicy(a.ledger, a.accountId, input.facts.now);
      PolicyLookupOnlyAddsOwnPolicy(a.ledger, a.accountId, input.facts.now);
      var request := BuildRequest(a.(ledger := l), input, policy.value).1.value;
      BuiltRequestIsAnchored(a.(ledger := l), input, policy.value);
      SettledAdmissionIsOnRecord(l, input, policy.value, request);
    }
  }

  /** A request with an admission on record can only ever be granted that same admission. */
  lemma RecordedAdmissionIsTheOnlyOne(l: Ledger, later: Adapter, input: AdmitInput, admission: RiskAdmission)
    requires OnRecord(l, RequestKey(later.accountId, input.requestId), admission)
    requires Extends(l, later.ledger) && Admit(later, input).1.Ok?
    ensures Admit(later, input).1.value == admission
  {
    var k := RequestKey(later.accountId, input.requestId);
    assert DecisionFor(later.ledger, k) == DecisionFor(l, k);
    var approval := ApprovalFor(later.ledger, k);
    assert approval.Ok? && approval.value.Some?;
    assert admission.reservationId.Some?;
    assert Terms(ReservationFor(later.ledger, k).value) == Terms(ReservationFor(l, k).value);
    assert approval.value.value.reservation.reservationId == Terms(approval.value.value.reservation).reservationId;
    assert ReservationFor(l, k).value.reservationId == Terms(ReservationFor(l, k).value).reservationId;
  }

  /** All successful admissions of a request return the same decision, reservation and approved lots,
      whatever the adapter and the other accounts did in between. */
  lemma AdmissionsOfOneRequestAgree(w: World, first: AdmitInput, steps: seq<Step>, second: AdmitInput)
    requires Invariant(w) && first.requestId == second.requestId && first.decisionId !in w.adapter.ledger.decisions
    requires Admit(w.adapter, first).1.Ok?
    requires AllEnabled(Advance(w, Admitting(first)), steps)
    requires Admit(RunAll(Advance(w, Admitting(first)), steps).adapter, second).1.Ok?
    ensures Admit(RunAll(Advance(w, Admitting(first)), steps).adapter, second).1 == Admit(w.adapter, first).1
  {
    var middle := Advance(w, Admitting(first));
    AdmitKeepsInvariant(w, first);
    GrantedAdmissionIsOnRecord(w.adapter, first);
    AdmitStoresAtMostOne(w.adapter, first);
    RunsExtendLedger(middle, steps);
    RecordedAdmissionIsTheOnlyOne(middle.adapter.ledger, RunAll(middle, steps).adapter, second, Admit(w.adapter, first).1.value);
  }

  /** A request whose stored decision refuses dispatch is never admitted again. */
  lemma RefusedRequestIsNeverAdmitted(w: World, steps: seq<Step>, input: AdmitInput)
    requires Invariant(w) && AllEnabled(w, steps)
    requires var d := DecisionFor(w.adapter.ledger, RequestKey(w.adapter.accountId, input.requestId));
             d.Some? && !d.value.PermitsDispatch()
    ensures Admit(RunAll(w, steps).adapter, input).1 == Err(Unavailable)
  {
    RunsExtendLedger(w, steps);
    var k := RequestKey(w.adapter.accountId, input.requestId);
    assert DecisionFor(RunAll(w, steps).adapter.ledger, k) == DecisionFor(w.adapter.ledger, k);
  }
}
