/** Whole runs of committed transactions, by any number of processes in any order: the identity of a
    decision, and the history of a policy. */
module DecisionRuns {
  import opened Machine
  import opened RiskModel
  import opened RiskLedger

  datatype Transaction =
    | StoreDecision(decision: RiskDecision)
    | StoreApproval(decision: RiskDecision, reservation: RiskReservation, capacity: ReservationCapacity)
    | StoreUpdate(id: Id, expected: set<ReservationState>, remaining: i64, state: ReservationState, now: i64)
    | StorePolicy(account: Id, expectedRevision: Option<u64>, policy: RiskPolicySet, reason: string, now: i64)

  ghost function Apply(l: Ledger, tx: Transaction): Ledger {
    match tx
    case StoreDecision(d) => PutDecision(l, d).0
    case StoreApproval(d, r, c) => PersistApproval(l, d, r, c).0
    case StoreUpdate(id, expected, remaining, state, now) => UpdateReservation(l, id, expected, remaining, state, now).0
    case StorePolicy(account, expected, policy, reason, now) => PutPolicy(l, account, expected, policy, reason, now).0
  }

  ghost function ApplyAll(l: Ledger, txs: seq<Transaction>): Ledger {
    if txs == [] then l else Apply(ApplyAll(l, txs[..|txs| - 1]), txs[|txs| - 1])
  }

  // ---- decisions ----

  /** Everything an approval promises later readers: decisions never change, a reservation keeps its
      identity and reserved lots, and a request that has a decision but no reservation never gets one. */
  ghost predicate Extends(before: Ledger, after: Ledger) {
    && (forall id :: id in before.decisions ==> id in after.decisions && after.decisions[id] == before.decisions[id])
    && (forall k :: k in before.decisionIndex ==>
          k in after.decisionIndex && after.decisionIndex[k] == before.decisionIndex[k])
    && (forall id :: id in before.reservations ==>
          id in after.reservations && Terms(after.reservations[id]) == Terms(before.reservations[id]))
    && (forall k :: k in before.reservationIndex ==>
          k in after.reservationIndex && after.reservationIndex[k] == before.reservationIndex[k])
    && (forall k :: k in before.decisionIndex && k in after.reservationIndex ==> k in before.reservationIndex)
  }

  lemma DecisionExtends(l: Ledger, d: RiskDecision)
    ensures Extends(l, PutDecision(l, d).0)
  {}

  lemma ApprovalExtends(l: Ledger, d: RiskDecision, r: RiskReservation, c: ReservationCapacity)
    ensures Extends(l, PersistApproval(l, d, r, c).0)
  {
    PersistInsertsPairOrNothing(l, d, r, c);
  }

  lemma UpdateExtends(l: Ledger, id: Id, expected: set<ReservationState>, remaining: i64, state: ReservationState, now: i64)
    ensures Extends(l, UpdateReservation(l, id, expected, remaining, state, now).0)
  {}

  lemma PolicyExtends(l: Ledger, account: Id, expected: Option<u64>, policy: RiskPolicySet, reason: string, now: i64)
    ensures Extends(l, PutPolicy(l, account, expected, policy, reason, now).0)
  {}

  lemma TransactionExtends(l: Ledger, tx: Transaction)
    ensures Extends(l, Apply(l, tx))
  {
    match tx
    case StoreDecision(d) => DecisionExtends(l, d);
    case StoreApproval(d, r, c) => ApprovalExtends(l, d, r, c);
    case StoreUpdate(id, expected, remaining, state, now) => UpdateExtends(l, id, expected, remaining, state, now);
    case StorePolicy(account, expected, policy, reason, now) => PolicyExtends(l, account, expected, policy, reason, now);
  }

  lemma ExtendsIsTransitive(a: Ledger, b: Ledger, c: Ledger)
    requires Extends(a, b) && Extends(b, c)
    ensures Extends(a, c)
  {}

  lemma {:induction false} RunsExtend(l: Ledger, txs: seq<Transaction>)
    ensures Extends(l, ApplyAll(l, txs))
  {
    if txs != [] {
      var middle := ApplyAll(l, txs[..|txs| - 1]);
      RunsExtend(l, txs[..|txs| - 1]);
      TransactionExtends(middle, txs[|txs| - 1]);
      ExtendsIsTransitive(l, middle, ApplyAll(l, txs));
    }
  }

  lemma DecisionKeepsIndex(l: Ledger, d: RiskDecision)
    requires DecisionsIndexed(l.decisions, l.decisionIndex)
    ensures var after := PutDecision(l, d).0; DecisionsIndexed(after.decisions, after.decisionIndex)
  {}

  lemma ApprovalKeepsIndex(l: Ledger, d: RiskDecision, r: RiskReservation, c: ReservationCapacity)
    requires DecisionsIndexed(l.decisions, l.decisionIndex)
    ensures var after := PersistApproval(l, d, r, c).0; DecisionsIndexed(after.decisions, after.decisionIndex)
  {
    PersistInsertsPairOrNothing(l, d, r, c);
  }

  lemma TransactionKeepsDecisionsIndexed(l: Ledger, tx: Transaction)
    requires DecisionsIndexed(l.decisions, l.decisionIndex)
    ensures DecisionsIndexed(Apply(l, tx).decisions, Apply(l, tx).decisionIndex)
  {
    match tx {
      case StoreDecision(d) => DecisionKeepsIndex(l, d);
      case StoreApproval(d, r, c) => ApprovalKeepsIndex(l, d, r, c);
      case _ =>
    }
  }

  /** From an empty database a request identity never has more than one decision. */
  lemma {:induction false} OneDecisionPerRequest(txs: seq<Transaction>)
    ensures var l := ApplyAll(EMPTY, txs);
            && DecisionsIndexed(l.decisions, l.decisionIndex)
            && forall i, j | i in l.decisions && j in l.decisions
                             && DecisionKey(l.decisions[i]) == DecisionKey(l.decisions[j]) :: i == j
  {
    if txs != [] {
      OneDecisionPerRequest(txs[..|txs| - 1]);
      TransactionKeepsDecisionsIndexed(ApplyAll(EMPTY, txs[..|txs| - 1]), txs[|txs| - 1]);
    }
  }

  /** Once a request has a decision, it reads back unchanged forever. */
  lemma DecisionsAreImmutable(l: Ledger, txs: seq<Transaction>, k: RequestKey)
    requires DecisionFor(l, k).Some?
    ensures DecisionFor(ApplyAll(l, txs), k) == DecisionFor(l, k)
  {
    RunsExtend(l, txs);
  }

  /** Any two successful approvals of the same request, whatever happened in between, hand out the same
      decision and the same reservation on the same terms. */
  lemma ApprovalsOfOneRequestAgree(
    l: Ledger, d1: RiskDecision, r1: RiskReservation, c1: ReservationCapacity,
    txs: seq<Transaction>, d2: RiskDecision, r2: RiskReservation, c2: ReservationCapacity)
    requires DecisionKey(d1) == DecisionKey(d2)
    requires PersistApproval(l, d1, r1, c1).1.Ok?
    requires PersistApproval(ApplyAll(PersistApproval(l, d1, r1, c1).0, txs), d2, r2, c2).1.Ok?
    ensures var first := PersistApproval(l, d1, r1, c1).1.value;
            var second := PersistApproval(ApplyAll(PersistApproval(l, d1, r1, c1).0, txs), d2, r2, c2).1.value;
            second.decision == first.decision && Terms(second.reservation) == Terms(first.reservation)
  {
    var middle := PersistApproval(l, d1, r1, c1).0;
    PersistInsertsPairOrNothing(l, d1, r1, c1);
    RunsExtend(middle, txs);
    PersistInsertsPairOrNothing(ApplyAll(middle, txs), d2, r2, c2);
  }

  /** A request whose decision was stored without a reservation, as every refusal is, is never
      approved afterwards. */
  lemma RefusedRequestIsNeverApproved(
    l: Ledger, k: RequestKey, txs: seq<Transaction>, d: RiskDecision, r: RiskReservation, c: ReservationCapacity)
    requires DecisionFor(l, k).Some? && k !in l.reservationIndex
    requires DecisionKey(d) == k
    ensures PersistApproval(ApplyAll(l, txs), d, r, c).1.Err?
    ensures ApprovalFor(ApplyAll(l, txs), k).Err?
  {
    RunsExtend(l, txs);
    PersistInsertsPairOrNothing(ApplyAll(l, txs), d, r, c);
  }

  // ---- policies ----

  /** The latest audit row of an account. */
  function LastAudit(audit: seq<PolicyAudit>, account: Id): Option<PolicyAudit> {
    if audit == [] then None
    else if audit[|audit| - 1].accountId == account then Some(audit[|audit| - 1])
    else LastAudit(audit[..|audit| - 1], account)
  }

  function AuditedRevision(row: Option<PolicyAudit>): Option<u64> {
    if row.None? then None else Some(row.value.newRevision)
  }

  /** Row `i` continues the chain of its account: it names the previous revision and goes beyond it. */
  predicate Chained(audit: seq<PolicyAudit>, i: nat)
    requires i < |audit|
  {
    var previous := AuditedRevision(LastAudit(audit[..i], audit[i].accountId));
    && audit[i].oldRevision == previous
    && (previous.Some? ==> previous.value < audit[i].newRevision)
    && audit[i].newRevision == audit[i].policy.revision
  }

  ghost predicate PolicyHistory(l: Ledger) {
    && (forall i :: 0 <= i < |l.policyAudit| ==> Chained(l.policyAudit, i))
    && (forall account :: account in l.policies <==> LastAudit(l.policyAudit, account).Some?)
    && (forall account :: account in l.policies ==>
          LastAudit(l.policyAudit, account).value.policy == l.policies[account])
  }

  lemma LastAuditIsChained(audit: seq<PolicyAudit>, account: Id)
    requires forall i :: 0 <= i < |audit| ==> Chained(audit, i)
    requires LastAudit(audit, account).Some?
    ensures LastAudit(audit, account).value.newRevision == LastAudit(audit, account).value.policy.revision
  {
    if audit[|audit| - 1].accountId != account {
      var init := audit[..|audit| - 1];
      assert forall i :: 0 <= i < |init| ==> init[..i] == audit[..i] && Chained(audit, i);
      LastAuditIsChained(init, account);
    } else {
      assert Chained(audit, |audit| - 1);
    }
  }

  lemma PutPolicyExtendsHistory(l: Ledger, account: Id, expected: Option<u64>, policy: RiskPolicySet,
                                reason: string, now: i64)
    requires PolicyHistory(l)
    ensures PolicyHistory(PutPolicy(l, account, expected, policy, reason, now).0)
  {
    var after := PutPolicy(l, account, expected, policy, reason, now).0;
    if after != l {
      var audit := after.policyAudit;
      assert audit[..|audit| - 1] == l.policyAudit;
      forall i | 0 <= i < |audit| ensures Chained(audit, i) {
        assert audit[..i] == l.policyAudit[..i];
        if i < |l.policyAudit| {
          assert Chained(l.policyAudit, i);
        } else if account in l.policies {
          LastAuditIsChained(l.policyAudit, account);
        }
      }
    }
  }

  /** In every run the audit rows of each account form an unbroken chain of strictly increasing
      revisions whose last payload is the current policy. */
  lemma {:induction false} PolicyHistoryIsUnbroken(txs: seq<Transaction>)
    ensures PolicyHistory(ApplyAll(EMPTY, txs))
  {
    if txs != [] {
      var before, tx := ApplyAll(EMPTY, txs[..|txs| - 1]), txs[|txs| - 1];
      PolicyHistoryIsUnbroken(txs[..|txs| - 1]);
      if tx.StorePolicy? {
        PutPolicyExtendsHistory(before, tx.account, tx.expectedRevision, tx.policy, tx.reason, tx.now);
      } else if tx.StoreApproval? {
        PersistInsertsPairOrNothing(before, tx.decision, tx.reservation, tx.capacity);
      }
    }
  }

  lemma StepKeepsOrRaisesRevision(l: Ledger, tx: Transaction, account: Id)
    requires account in l.policies
    ensures var after := Apply(l, tx).policies;
            account in after && (after[account] == l.policies[account]
                                 || l.policies[account].revision < after[account].revision)
  {
    if tx.StoreApproval? { PersistInsertsPairOrNothing(l, tx.decision, tx.reservation, tx.capacity); }
  }

  /** Revisions never fall, and a policy read twice under the same revision is the same policy. */
  lemma {:induction false} SameRevisionMeansSamePolicy(l: Ledger, txs: seq<Transaction>, account: Id)
    requires account in l.policies
    ensures var after := ApplyAll(l, txs).policies;
            account in after && (after[account] == l.policies[account]
                                 || l.policies[account].revision < after[account].revision)
  {
    if txs != [] {
      SameRevisionMeansSamePolicy(l, txs[..|txs| - 1], account);
      StepKeepsOrRaisesRevision(ApplyAll(l, txs[..|txs| - 1]), txs[|txs| - 1], account);
    }
  }
}
