/** Whole runs of one account's adapter, with restarts and with other accounts committing to the same
    store: what a passed validation proves, and that a request keeps the admission it first got. */
module AdmissionRuns {
  import opened Machine
  import opened RiskModel
  import opened RiskEngine
  import opened EngineGuarantees
  import opened RiskLedger
  import opened Reconciliation
  import opened DecisionRuns
  import opened Admission

  /** The adapter with the history that the theorems speak about: requests with a recorded outcome, the
      newest snapshot revision reconciled so far, and the policy each stored decision was evaluated under. */
  datatype World = World(
    adapter: Adapter, recorded: set<Id>, lastRevision: int, evaluatedUnder: map<Id, RiskPolicySet>)

  datatype Step =
    | Admitting(input: AdmitInput)
    | Validating(check: ValidateInput)
    | Recording(requestId: Id, outcome: DispatchOutcome, now: i64)
    | Reconciling(requests: seq<Id>, report: Report)
    | ChangingPolicy(expected: Option<u64>, policy: RiskPolicySet, reason: string, when: i64)
    | Restarting
    | OtherAccount(tx: Transaction)

  /** A transaction that another account's adapter may commit. */
  predicate ForeignTo(l: Ledger, tx: Transaction, account: Id) {
    match tx
    case StoreDecision(d) => d.accountId != account
    case StoreApproval(d, r, _) => d.accountId != account && r.accountId != account
    case StoreUpdate(id, _, _, _, _) => id in l.reservations ==> l.reservations[id].accountId != account
    case StorePolicy(other, _, _, _, _) => other != account
  }

  /** Reports carry strictly newer snapshot revisions; other accounts leave this one alone. */
  predicate Enabled(w: World, step: Step) {
    match step
    case Reconciling(_, report) => SnapshotRevision(report) > w.lastRevision
    case OtherAccount(tx) => ForeignTo(w.adapter.ledger, tx, w.adapter.accountId)
    case _ => true
  }

  function PolicyAt(w: World, now: i64): Result<RiskPolicySet, AdmissionError> {
    CurrentPolicy(w.adapter.ledger, w.adapter.accountId, now).1
  }

  ghost function Advance(w: World, step: Step): World {
    var a := w.adapter;
    match step
    case Admitting(input) =>
      var after := Admit(a, input).0;
      var policy := PolicyAt(w, input.facts.now);
      w.(adapter := after,
         evaluatedUnder := if input.decisionId in after.ledger.decisions && input.decisionId !in a.ledger.decisions
                              && policy.Ok?
                           then w.evaluatedUnder[input.decisionId := policy.value] else w.evaluatedUnder)
    case Validating(input) => w.(adapter := Validate(a, input).0)
    case Recording(requestId, outcome, now) =>
      w.(adapter := Record(a, requestId, outcome, now).0, recorded := w.recorded + {requestId})
    case Reconciling(requests, report) =>
      w.(adapter := ReconcileReport(a, requests, report).0, lastRevision := SnapshotRevision(report))
    case ChangingPolicy(expected, policy, reason, now) =>
      w.(adapter := a.(ledger := PutPolicy(a.ledger, a.accountId, expected, policy, reason, now).0))
    case Restarting => w.(adapter := a.(snapshot := None, instrumentCache := map[]))
    case OtherAccount(tx) => w.(adapter := a.(ledger := Apply(a.ledger, tx)))
  }

  ghost function RunAll(w: World, steps: seq<Step>): World {
    if steps == [] then w else Advance(RunAll(w, steps[..|steps| - 1]), steps[|steps| - 1])
  }

  ghost predicate AllEnabled(w: World, steps: seq<Step>) {
    forall i :: 0 <= i < |steps| ==> Enabled(RunAll(w, steps[..i]), steps[i])
  }

  function Start(account: Id, connection: Id): World {
    World(Adapter(account, connection, EMPTY, None, map[]), {}, -1, map[])
  }

  /** None of the identities that the admission may store is on record. */
  ghost predicate Unused(l: Ledger, account: Id, input: AdmitInput) {
    var k := RequestKey(account, input.requestId);
    && k !in l.decisionIndex && k !in l.reservationIndex
    && input.decisionId !in l.decisions && input.reservationId !in l.reservations
  }

  /** Every query answered, nothing unusual, one unit per lot. */
  const PLAIN_FACTS := BrokerFacts(
    0, true, Some(0), true, true, true, 1, Some(BrokerLotLimits(None, None, None, None)), Some(false), None, true, None, None,
    Some(RiskProtectionStatus(0, 0, None, None)), Manual)

  lemma EmptyStoreHoldsNothing(account: Id, instrument: Id)
    ensures ActiveDelta(EMPTY.reservations, account, instrument) == 0 && HeldLots(EMPTY.reservations, account, instrument) == 0
  {
    assert SignedLotColumn(EMPTY.reservations, account, instrument).Keys == {};
    assert LotColumn(EMPTY.reservations, account, instrument).Keys == {};
  }

  const SHARE_CACHE := map["share" := 0]

  /** Constraints of the one instrument, fetched at time zero or not yet. */
  predicate FreshCache(cache: map<Id, i64>) { cache == map[] || cache == SHARE_CACHE }

  // ---- what every run keeps ----

  /** The reservation behind an approved decision: same request, same lots, and untouched as long as the
      snapshot it was decided on is still the newest and no outcome was recorded. */
  predicate BackedDecision(l: Ledger, d: RiskDecision, recorded: set<Id>, last: int) {
    && d.reservationId.Some? && d.reservationId.value in l.reservations
    && var r := l.reservations[d.reservationId.value];
       && ReservationKey(r) == DecisionKey(d)
       && r.reservedDeltaLots == d.approvedDeltaLots
       && d.validity.reconciliationRevision <= last
       && (d.validity.reconciliationRevision == last && d.requestId !in recorded ==>
             r.state.Active? && r.remainingDeltaLots == d.approvedDeltaLots)
  }

  ghost predicate Backed(l: Ledger, account: Id, recorded: set<Id>, last: int) {
    forall id :: id in l.decisions && l.decisions[id].accountId == account && l.decisions[id].approvedDeltaLots != 0 ==>
      BackedDecision(l, l.decisions[id], recorded, last)
  }

  /** The policy a decision was evaluated under is the current one unless the revision has moved on. */
  predicate PolicyOnRecord(d: RiskDecision, evaluated: RiskPolicySet, current: RiskPolicySet) {
    && d.validity.policyRevision == evaluated.revision
    && (evaluated == current || evaluated.revision < current.revision)
  }

  ghost predicate PoliciesOnRecord(l: Ledger, account: Id, evaluatedUnder: map<Id, RiskPolicySet>) {
    forall id :: id in l.decisions && l.decisions[id].accountId == account ==>
      && id in evaluatedUnder && account in l.policies
      && PolicyOnRecord(l.decisions[id], evaluatedUnder[id], l.policies[account])
  }

  ghost predicate Invariant(w: World) {
    && Consistent(w.adapter.ledger)
    && (w.adapter.snapshot.Some? ==> SnapshotRevision(w.adapter.snapshot.value) == w.lastRevision)
    && Backed(w.adapter.ledger, w.adapter.accountId, w.recorded, w.lastRevision)
    && PoliciesOnRecord(w.adapter.ledger, w.adapter.accountId, w.evaluatedUnder)
  }

  // ---- admission ----

  /** What one admission adds to the tables: nothing, a bare decision that approves no lots, or an
      approved decision with its untouched reservation. */
  ghost predicate StoresAtMostOne(before: Ledger, after: Ledger, account: Id, decisionId: Id, policyRevision: int, revision: int) {
    after.policies == before.policies &&
    (|| (after.decisions == before.decisions && after.decisionIndex == before.decisionIndex
         && after.reservations == before.reservations && after.reservationIndex == before.reservationIndex)
     || (&& decisionId in after.decisions
         && var d := after.decisions[decisionId];
            && d.decisionId == decisionId && d.accountId == account && d.approvedDeltaLots == 0
            && d.validity.policyRevision == policyRevision
            && InsertDecision(before, d) == Some(after))
     || (&& decisionId in after.decisions
         && var d := after.decisions[decisionId];
            && d.decisionId == decisionId && d.accountId == account && d.reservationId.Some?
            && d.validity.policyRevision == policyRevision && d.validity.reconciliationRevision == revision
            && d.reservationId.value in after.reservations
            && var r := after.reservations[d.reservationId.value];
               && r.state.Active? && r.remainingDeltaLots == r.reservedDeltaLots == d.approvedDeltaLots
               && r.reservationId == d.reservationId.value
               && InsertedPair(before, d, r, after)))
  }

  lemma SettleStoresAtMostOne(l: Ledger, input: AdmitInput, policy: RiskPolicySet, request: RiskRequest)
    requires Decide(input.decisionId, policy, request).Ok?
    ensures var after := Settle(l, input, policy, request, Decide(input.decisionId, policy, request).value).0;
            StoresAtMostOne(l, after, request.accountId, input.decisionId, request.snapshot.validity.policyRevision,
                            request.snapshot.validity.reconciliationRevision)
  {
    DispatchMeansEveryGatePassed(input.decisionId, policy, request);
    var ruling := Decide(input.decisionId, policy, request).value;
    if ruling.PermitsDispatch() && request.action.Directional() { SettledOrderStoresAtMostOne(l, input, policy, request, ruling); }
  }

  lemma SettledOrderStoresAtMostOne(l: Ledger, input: AdmitInput, policy: RiskPolicySet, request: RiskRequest, ruling: RiskDecision)
    requires ruling.PermitsDispatch() && request.action.Directional()
    requires ruling.decisionId == input.decisionId && ruling.accountId == request.accountId && ruling.requestId == request.requestId
    requires ruling.validity == request.snapshot.validity
    ensures StoresAtMostOne(l, Settle(l, input, policy, request, ruling).0, request.accountId, input.decisionId,
                            request.snapshot.validity.policyRevision, request.snapshot.validity.reconciliationRevision)
  {
    var notional := ScaledNotional(request.requestedNotional, request.requestedDeltaLots, ruling.approvedDeltaLots);
    if notional.Some? {
      var decision := ruling.(reservationId := Some(input.reservationId));
      PersistInsertsPairOrNothing(
        l, decision, NewReservation(input.reservationId, request, decision, notional.value), CapacityOf(policy));
    }
  }

  lemma BuiltRequestIsAnchored(a: Adapter, input: AdmitInput, policy: RiskPolicySet)
    requires BuildRequest(a, input, policy).1.Ok?
    ensures var q := BuildRequest(a, input, policy).1.value;
            && q.requestId == input.requestId && q.accountId == a.accountId
            && q.snapshot.validity.policyRevision == policy.revision
            && a.snapshot.Some? && q.snapshot.validity.reconciliationRevision == SnapshotRevision(a.snapshot.value)
  {}

  /** An admission first makes sure a policy exists and then stores at most one ruling. */
  lemma AdmitStoresAtMostOne(a: Adapter, input: AdmitInput)
    ensures var after := Admit(a, input).0;
            var (l, policy) := CurrentPolicy(a.ledger, a.accountId, input.facts.now);
            && after.accountId == a.accountId && after.snapshot == a.snapshot
            && (after.ledger == a.ledger
                || after.ledger == l
                || (policy.Ok? && a.snapshot.Some?
                    && StoresAtMostOne(l, after.ledger, a.accountId, input.decisionId, policy.value.revision,
                                       SnapshotRevision(a.snapshot.value))))
  {
    var (l, policy) := CurrentPolicy(a.ledger, a.accountId, input.facts.now);
    var approval := ApprovalFor(a.ledger, RequestKey(a.accountId, input.requestId));
    if approval.Ok? && approval.value.None? && policy.Ok? {
      var (cache, request) := BuildRequest(a.(ledger := l), input, policy.value);
      if request.Ok? && Decide(input.decisionId, policy.value, request.value).Ok? {
        BuiltRequestIsAnchored(a.(ledger := l), input, policy.value);
        SettleStoresAtMostOne(l, input, policy.value, request.value);
      }
    }
  }

  // ---- preservation, step by step ----

  ghost predicate SameTables(a: Ledger, b: Ledger) {
    a.decisions == b.decisions && a.decisionIndex == b.decisionIndex
    && a.reservations == b.reservations && a.reservationIndex == b.reservationIndex
  }

  lemma PolicyChangeKeepsInvariant(w: World, l: Ledger)
    requires Invariant(w) && SameTables(l, w.adapter.ledger)
    requires var before, account := w.adapter.ledger.policies, w.adapter.accountId;
             account in before ==> account in l.policies && (l.policies[account] == before[account]
                                                             || before[account].revision < l.policies[account].revision)
    ensures Invariant(w.(adapter := w.adapter.(ledger := l)))
  {
    var account := w.adapter.accountId;
    forall id | id in l.decisions && l.decisions[id].accountId == account
      ensures id in w.evaluatedUnder && account in l.policies
              && PolicyOnRecord(l.decisions[id], w.evaluatedUnder[id], l.policies[account])
    {
      assert id in w.adapter.ledger.decisions;
    }
  }

  lemma StoredRulingKeepsBacked(l: Ledger, after: Ledger, account: Id, decisionId: Id, policyRevision: int, recorded: set<Id>, last: int)
    requires Consistent(l) && Backed(l, account, recorded, last)
    requires StoresAtMostOne(l, after, account, decisionId, policyRevision, last)
    ensures Backed(after, account, recorded, last)
  {
    forall id | id in after.decisions && after.decisions[id].accountId == account && after.decisions[id].approvedDeltaLots != 0
      ensures BackedDecision(after, after.decisions[id], recorded, last)
    {
      if id in l.decisions && after.decisions[id] == l.decisions[id] {
        assert BackedDecision(l, l.decisions[id], recorded, last);
      }
    }
  }

  lemma StoredRulingIsConsistent(l: Ledger, after: Ledger, account: Id, decisionId: Id, policyRevision: int, last: int)
    requires Consistent(l) && StoresAtMostOne(l, after, account, decisionId, policyRevision, last)
    ensures Consistent(after)
  {
    if decisionId in after.decisions && after.decisions[decisionId].reservationId.Some?
       && after.decisions[decisionId].reservationId.value in after.reservations {
      var d := after.decisions[decisionId];
      var r := after.reservations[d.reservationId.value];
      if InsertedPair(l, d, r, after) { InsertedPairIsConsistent(l, d, r, after); }
    }
  }

  lemma StoredRulingKeepsPolicies(l: Ledger, after: Ledger, account: Id, decisionId: Id, policy: RiskPolicySet, last: int,
                                  evaluatedUnder: map<Id, RiskPolicySet>)
    requires PoliciesOnRecord(l, account, evaluatedUnder)
    requires account in l.policies && l.policies[account] == policy
    requires StoresAtMostOne(l, after, account, decisionId, policy.revision, last)
    ensures PoliciesOnRecord(after, account,
              if decisionId in after.decisions && decisionId !in l.decisions
              then evaluatedUnder[decisionId := policy] else evaluatedUnder)
  {}

  /** Storing a ruling, as far as the invariant can tell. */
  lemma RulingKeepsInvariant(w: World, after: Adapter, decisionId: Id, policy: RiskPolicySet)
    requires Invariant(w) && w.adapter.snapshot.Some?
    requires after.accountId == w.adapter.accountId && after.snapshot == w.adapter.snapshot
    requires w.adapter.accountId in w.adapter.ledger.policies && w.adapter.ledger.policies[w.adapter.accountId] == policy
    requires StoresAtMostOne(w.adapter.ledger, after.ledger, w.adapter.accountId, decisionId, policy.revision, w.lastRevision)
    ensures Invariant(w.(adapter := after,
                         evaluatedUnder := if decisionId in after.ledger.decisions && decisionId !in w.adapter.ledger.decisions
                                           then w.evaluatedUnder[decisionId := policy] else w.evaluatedUnder))
  {
    var l, account := w.adapter.ledger, w.adapter.accountId;
    StoredRulingKeepsBacked(l, after.ledger, account, decisionId, policy.revision, w.recorded, w.lastRevision);
    StoredRulingIsConsistent(l, after.ledger, account, decisionId, policy.revision, w.lastRevision);
    StoredRulingKeepsPolicies(l, after.ledger, account, decisionId, policy, w.lastRevision, w.evaluatedUnder);
  }

  lemma PolicyChangeKeepsTables(l: Ledger, account: Id, expected: Option<u64>, policy: RiskPolicySet, reason: string, now: i64)
    ensures var (after, result) := PutPolicy(l, account, expected, policy, reason, now);
            && SameTables(after, l)
            && (result.Ok? ==> result.value == policy && account in after.policies && after.policies[account] == policy)
            && (result.Err? ==> after == l)
            && (account in l.policies ==>
                  && account in after.policies
                  && (after.policies[account] == l.policies[account]
                      || l.policies[account].revision < after.policies[account].revision))
  {}

  lemma PolicyLookupOnlyAddsOwnPolicy(l: Ledger, account: Id, now: i64)
    ensures var (after, policy) := CurrentPolicy(l, account, now);
            && SameTables(after, l)
            && (policy.Ok? ==> account in after.policies && after.policies[account] == policy.value)
            && (account in l.policies ==> after == l)
  {
    if account !in l.policies {
      PolicyChangeKeepsTables(l, account, None, INITIAL_POLICY, "initialize fail-closed account policy", now);
    }
  }

  /** A validation leaves the adapter as it is, or with the account's policy looked up. */
  lemma ValidateOnlyLooksUpPolicy(a: Adapter, check: ValidateInput)
    ensures var after := Validate(a, check).0;
            after == a || after == a.(ledger := CurrentPolicy(a.ledger, a.accountId, check.now).0)
    ensures SameTables(Validate(a, check).0.ledger, a.ledger)
  {
    PolicyLookupOnlyAddsOwnPolicy(a.ledger, a.accountId, check.now);
  }

  lemma AdmitKeepsInvariant(w: World, input: AdmitInput)
    requires Invariant(w)
    ensures Invariant(Advance(w, Admitting(input)))
  {
    var a := w.adapter;
    var (l, policy) := CurrentPolicy(a.ledger, a.accountId, input.facts.now);
    AdmitStoresAtMostOne(a, input);
    PolicyLookupOnlyAddsOwnPolicy(a.ledger, a.accountId, input.facts.now);
    PolicyChangeKeepsInvariant(w, l);
    var after := Admit(a, input).0;
    if after.ledger != a.ledger && after.ledger != l {
      RulingKeepsInvariant(w.(adapter := a.(ledger := l)), after, input.decisionId, policy.value);
    }
  }

  lemma RecordKeepsInvariant(w: World, requestId: Id, outcome: DispatchOutcome, now: i64)
    requires Invariant(w)
    ensures Invariant(Advance(w, Recording(requestId, outcome, now)))
  {
    var a := w.adapter;
    var after := Record(a, requestId, outcome, now).0.ledger;
    ReconcileOnlyShrinks(a.ledger, RequestKey(a.accountId, requestId), EvidenceOf(outcome), now);
    ReconcileSettlesOneRow(a.ledger, RequestKey(a.accountId, requestId), EvidenceOf(outcome), now);
    forall id | id in after.decisions && after.decisions[id].accountId == a.accountId && after.decisions[id].approvedDeltaLots != 0
      ensures BackedDecision(after, after.decisions[id], w.recorded + {requestId}, w.lastRevision)
    {
      var d := after.decisions[id];
      assert BackedDecision(a.ledger, d, w.recorded, w.lastRevision);
      var rid := d.reservationId.value;
      assert RowOnlyShrinks(a.ledger.reservations[rid], after.reservations[rid]);
      assert Terms(after.reservations[rid]).reservedDeltaLots == Terms(a.ledger.reservations[rid]).reservedDeltaLots;
      assert ReservationKey(Terms(after.reservations[rid])) == ReservationKey(Terms(a.ledger.reservations[rid]));
    }
  }

  lemma {:induction false} PassOnlyShrinks(l: Ledger, account: Id, requests: seq<Id>, report: Report)
    requires Consistent(l)
    ensures var after := ReconcilePass(l, account, requests, report).0;
            && Consistent(after)
            && after == l.(reservations := after.reservations)
            && RowsOnlyShrink(l.reservations, after.reservations)
  {
    if requests != [] {
      var init, q := requests[..|requests| - 1], requests[|requests| - 1];
      PassOnlyShrinks(l, account, init, report);
      var middle := ReconcilePass(l, account, init, report).0;
      var e := ReportedEvidence(report, q);
      if e.Some? {
        ReconcileOnlyShrinks(middle, RequestKey(account, q), e.value, report.completedAt);
        ReconcileSettlesOneRow(middle, RequestKey(account, q), e.value, report.completedAt);
      }
    }
  }

  lemma ReconcileKeepsInvariant(w: World, requests: seq<Id>, report: Report)
    requires Invariant(w) && Enabled(w, Reconciling(requests, report))
    ensures Invariant(Advance(w, Reconciling(requests, report)))
  {
    var a := w.adapter;
    var after := ReconcilePass(a.ledger, a.accountId, requests, report).0;
    PassOnlyShrinks(a.ledger, a.accountId, requests, report);
    forall id | id in after.decisions && after.decisions[id].accountId == a.accountId && after.decisions[id].approvedDeltaLots != 0
      ensures BackedDecision(after, after.decisions[id], w.recorded, SnapshotRevision(report))
    {
      var d := after.decisions[id];
      assert BackedDecision(a.ledger, d, w.recorded, w.lastRevision);
      var rid := d.reservationId.value;
      assert RowOnlyShrinks(a.ledger.reservations[rid], after.reservations[rid]);
      assert Terms(after.reservations[rid]).reservedDeltaLots == Terms(a.ledger.reservations[rid]).reservedDeltaLots;
      assert ReservationKey(Terms(after.reservations[rid])) == ReservationKey(Terms(a.ledger.reservations[rid]));
    }
  }

  lemma TransactionKeepsConsistent(l: Ledger, tx: Transaction)
    requires Consistent(l)
    ensures Consistent(Apply(l, tx))
  {
    match tx {
      case StoreApproval(d, r, c) => ApprovalKeepsConsistent(l, d, r, c);
      case StoreUpdate(id, expected, remaining, state, now) => UpdateKeepsConsistent(l, id, expected, remaining, state, now);
      case StorePolicy(account, expected, policy, reason, now) => PolicyChangeKeepsTables(l, account, expected, policy, reason, now);
      case StoreDecision(d) =>
    }
  }

  lemma ApprovalKeepsConsistent(l: Ledger, d: RiskDecision, r: RiskReservation, c: ReservationCapacity)
    requires Consistent(l)
    ensures Consistent(PersistApproval(l, d, r, c).0)
  {
    PersistInsertsPairOrNothing(l, d, r, c);
    var after := PersistApproval(l, d, r, c).0;
    if after != l { InsertedPairIsConsistent(l, d, r, after); }
  }

  lemma UpdateKeepsConsistent(l: Ledger, id: Id, expected: set<ReservationState>, remaining: i64, state: ReservationState, now: i64)
    requires Consistent(l)
    ensures Consistent(UpdateReservation(l, id, expected, remaining, state, now).0)
  {}

  /** Everything stored for the account is as it was. */
  ghost predicate LeavesAccountAlone(l: Ledger, after: Ledger, account: Id) {
    && (forall id :: id in after.decisions && after.decisions[id].accountId == account ==>
          id in l.decisions && l.decisions[id] == after.decisions[id])
    && (forall id :: id in l.reservations && l.reservations[id].accountId == account ==>
          id in after.reservations && after.reservations[id] == l.reservations[id])
    && (account in l.policies ==> account in after.policies && after.policies[account] == l.policies[account])
  }

  lemma ForeignApprovalLeavesAccountAlone(l: Ledger, d: RiskDecision, r: RiskReservation, c: ReservationCapacity, account: Id)
    requires d.accountId != account
    ensures LeavesAccountAlone(l, PersistApproval(l, d, r, c).0, account)
  {
    PersistInsertsPairOrNothing(l, d, r, c);
  }

  /** Another account's transaction leaves this account's rows and policy as they are. */
  lemma ForeignTransactionLeavesAccountAlone(l: Ledger, tx: Transaction, account: Id)
    requires ForeignTo(l, tx, account)
    ensures LeavesAccountAlone(l, Apply(l, tx), account)
  {
    match tx {
      case StoreDecision(d) =>
      case StoreApproval(d, r, c) => ForeignApprovalLeavesAccountAlone(l, d, r, c, account);
      case StoreUpdate(_, _, _, _, _) =>
      case StorePolicy(other, expected, policy, reason, now) =>
        PolicyChangeKeepsTables(l, other, expected, policy, reason, now);
    }
  }

  lemma UntouchedAccountKeepsInvariant(w: World, after: Ledger)
    requires Invariant(w) && Consistent(after) && LeavesAccountAlone(w.adapter.ledger, after, w.adapter.accountId)
    ensures Invariant(w.(adapter := w.adapter.(ledger := after)))
  {
    var l, account := w.adapter.ledger, w.adapter.accountId;
    forall id | id in after.decisions && after.decisions[id].accountId == account && after.decisions[id].approvedDeltaLots != 0
      ensures BackedDecision(after, after.decisions[id], w.recorded, w.lastRevision)
    {
      assert BackedDecision(l, l.decisions[id], w.recorded, w.lastRevision);
    }
  }

  lemma ForeignKeepsInvariant(w: World, tx: Transaction)
    requires Invariant(w) && Enabled(w, OtherAccount(tx))
    ensures Invariant(Advance(w, OtherAccount(tx)))
  {
    TransactionKeepsConsistent(w.adapter.ledger, tx);
    ForeignTransactionLeavesAccountAlone(w.adapter.ledger, tx, w.adapter.accountId);
    UntouchedAccountKeepsInvariant(w, Apply(w.adapter.ledger, tx));
  }

  lemma ValidateKeepsInvariant(w: World, check: ValidateInput)
    requires Invariant(w)
    ensures Invariant(Advance(w, Validating(check)))
  {
    var l := CurrentPolicy(w.adapter.ledger, w.adapter.accountId, check.now).0;
    ValidateOnlyLooksUpPolicy(w.adapter, check);
    PolicyLookupOnlyAddsOwnPolicy(w.adapter.ledger, w.adapter.accountId, check.now);
    PolicyChangeKeepsInvariant(w, l);
  }

  lemma NewPolicyKeepsInvariant(w: World, expected: Option<u64>, policy: RiskPolicySet, reason: string, now: i64)
    requires Invariant(w)
    ensures Invariant(Advance(w, ChangingPolicy(expected, policy, reason, now)))
  {
    PolicyChangeKeepsTables(w.adapter.ledger, w.adapter.accountId, expected, policy, reason, now);
    PolicyChangeKeepsInvariant(w, PutPolicy(w.adapter.ledger, w.adapter.accountId, expected, policy, reason, now).0);
  }

  lemma RestartKeepsInvariant(w: World)
    requires Invariant(w)
    ensures Invariant(Advance(w, Restarting))
  {}

  lemma StepKeepsInvariant(w: World, step: Step)
    requires Invariant(w) && Enabled(w, step)
    ensures Invariant(Advance(w, step))
  {
    match step
    case Admitting(input) => AdmitKeepsInvariant(w, input);
    case Validating(check) => ValidateKeepsInvariant(w, check);
    case Recording(requestId, outcome, now) => RecordKeepsInvariant(w, requestId, outcome, now);
    case Reconciling(requests, report) => ReconcileKeepsInvariant(w, requests, report);
    case ChangingPolicy(expected, policy, reason, now) => NewPolicyKeepsInvariant(w, expected, policy, reason, now);
    case Restarting => RestartKeepsInvariant(w);
    case OtherAccount(tx) => ForeignKeepsInvariant(w, tx);
  }

  lemma {:induction false} RunsKeepInvariant(w: World, steps: seq<Step>)
    requires Invariant(w) && AllEnabled(w, steps)
    ensures Invariant(RunAll(w, steps))
  {
    if steps != [] {
      var init := steps[..|steps| - 1];
      assert forall i :: 0 <= i < |init| ==> init[..i] == steps[..i];
      RunsKeepInvariant(w, init);
      StepKeepsInvariant(RunAll(w, init), steps[|steps| - 1]);
    }
  }

  // ---- main results ----

  /** The facts that a passed validation has checked. */
  lemma PassedValidationChecks(a: Adapter, input: ValidateInput)
    requires Validate(a, input).1.Ok?
    ensures && input.admission.decisionId in a.ledger.decisions && a.snapshot.Some?
            && var d := a.ledger.decisions[input.admission.decisionId];
               && MatchesApproval(d, a.accountId, input)
               && d.validity.reconciliationRevision == SnapshotRevision(a.snapshot.value)
               && (a.accountId in a.ledger.policies ==> a.ledger.policies[a.accountId].revision == d.validity.policyRevision)
  {}

  lemma PassedOrderHasLots(a: Adapter, input: ValidateInput)
    requires Validate(a, input).1.Ok?
    ensures && input.admission.decisionId in a.ledger.decisions
            && var d := a.ledger.decisions[input.admission.decisionId];
               d.action.Directional() ==> d.approvedDeltaLots != 0
  {
    PassedValidationChecks(a, input);
    DescribedOrderHasLots(input.command, a.snapshot.value);
  }

  lemma DescribedOrderHasLots(command: Command, report: Report)
    ensures var d := Describe(command, report); d.Ok? && d.value.action.Directional() ==> d.value.deltaLots != 0
  {}

  lemma PassedValidationFindsPolicy(w: World, input: ValidateInput)
    requires Invariant(w) && Validate(w.adapter, input).1.Ok?
    ensures var account := w.adapter.accountId;
            && account in w.adapter.ledger.policies && input.admission.decisionId in w.evaluatedUnder
            && w.evaluatedUnder[input.admission.decisionId] == w.adapter.ledger.policies[account]
  {
    PassedValidationChecks(w.adapter, input);
  }

  lemma PassedValidationFindsReservation(w: World, input: ValidateInput)
    requires Invariant(w) && Validate(w.adapter, input).1.Ok?
    requires input.admission.decisionId in w.adapter.ledger.decisions
    requires w.adapter.ledger.decisions[input.admission.decisionId].action.Directional()
    requires input.requestId !in w.recorded
    ensures var row := ReservationFor(w.adapter.ledger, RequestKey(w.adapter.accountId, input.requestId));
            && row.Some? && row.value.state.Active?
            && input.admission.reservationId == Some(row.value.reservationId)
            && row.value.remainingDeltaLots == row.value.reservedDeltaLots == input.admission.approvedDeltaLots
  {
    PassedValidationChecks(w.adapter, input);
    PassedOrderHasLots(w.adapter, input);
    assert BackedDecision(w.adapter.ledger, w.adapter.ledger.decisions[input.admission.decisionId], w.recorded, w.lastRevision);
  }

  /** The states that some run from an empty store leads to. */
  ghost predicate Reachable(w: World) {
    exists account, connection, steps ::
      AllEnabled(Start(account, connection), steps) && w == RunAll(Start(account, connection), steps)
  }

  lemma ReachableKeepsInvariant(w: World)
    requires Reachable(w)
    ensures Invariant(w)
  {
    var account, connection, steps :|
      AllEnabled(Start(account, connection), steps) && w == RunAll(Start(account, connection), steps);
    RunsKeepInvariant(Start(account, connection), steps);
  }

  /** A validation that passes, at the end of any run, proves that the current policy is exactly the one
      the decision was evaluated under. */
  lemma ValidatedDispatchRunsUnderItsPolicy(w: World, input: ValidateInput)
    requires Reachable(w) && Validate(w.adapter, input).1.Ok?
    ensures var account := w.adapter.accountId;
            && account in w.adapter.ledger.policies && input.admission.decisionId in w.evaluatedUnder
            && w.evaluatedUnder[input.admission.decisionId] == w.adapter.ledger.policies[account]
  {
    ReachableKeepsInvariant(w);
    PassedValidationFindsPolicy(w, input);
  }

  /** A directional validation that passes before the request's first recorded outcome finds its
      reservation still active with every approved lot remaining. */
  lemma ValidatedOrderStillHoldsItsReservation(w: World, input: ValidateInput)
    requires Reachable(w) && Validate(w.adapter, input).1.Ok?
    requires input.admission.decisionId in w.adapter.ledger.decisions
    requires w.adapter.ledger.decisions[input.admission.decisionId].action.Directional()
    requires input.requestId !in w.recorded
    ensures var row := ReservationFor(w.adapter.ledger, RequestKey(w.adapter.accountId, input.requestId));
            && row.Some? && row.value.state.Active?
            && input.admission.reservationId == Some(row.value.reservationId)
            && row.value.remainingDeltaLots == row.value.reservedDeltaLots == input.admission.approvedDeltaLots
  {
    ReachableKeepsInvariant(w);
    PassedValidationFindsReservation(w, input);
  }
}
