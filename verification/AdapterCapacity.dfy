/** Capacity as the adapter keeps it: with restarts, policy changes and other accounts in between, the lots
    held for an instrument never exceed the largest limit in force. */
module AdapterCapacity {
  import opened Machine
  import opened RiskModel
  import opened RiskEngine
  import opened EngineGuarantees
  import opened TableSums
  import opened RiskLedger
  import opened Reconciliation
  import opened DecisionRuns
  import opened Admission
  import opened AdmissionRuns

  predicate WithinLimit(policy: RiskPolicySet, limit: nat) {
    policy.maxPositionAbsLots.Some? && policy.maxPositionAbsLots.value <= limit
  }

  /** The account has a policy with a limit. */
  predicate Limited(a: Adapter, limit: nat) {
    a.accountId in a.ledger.policies && WithinLimit(a.ledger.policies[a.accountId], limit)
  }

  predicate KeepsLimit(step: Step, limit: nat) { step.ChangingPolicy? ==> WithinLimit(step.policy, limit) }

  ghost function Held(a: Adapter, instrument: Id): int { HeldLots(a.ledger.reservations, a.accountId, instrument) }

  /** Settling a ruling adds at most one row, and only one that the capacity has room for. */
  lemma SettledRowHasRoom(l: Ledger, input: AdmitInput, policy: RiskPolicySet, request: RiskRequest)
    requires Decide(input.decisionId, policy, request).Ok?
    ensures var after := Settle(l, input, policy, request, Decide(input.decisionId, policy, request).value).0;
            && after.policies == l.policies
            && (after.reservations == l.reservations
                || (&& input.reservationId !in l.reservations && input.reservationId in after.reservations
                    && var row := after.reservations[input.reservationId];
                       && after.reservations == l.reservations[input.reservationId := row]
                       && row.reservationId == input.reservationId
                       && CapacityVerdict(l.reservations, row, CapacityOf(policy)).None?))
  {
    DispatchMeansEveryGatePassed(input.decisionId, policy, request);
    var ruling := Decide(input.decisionId, policy, request).value;
    var notional := ScaledNotional(request.requestedNotional, request.requestedDeltaLots, ruling.approvedDeltaLots);
    if ruling.PermitsDispatch() && request.action.Directional() && notional.Some? {
      var decision := ruling.(reservationId := Some(input.reservationId));
      PersistInsertsPairOrNothing(
        l, decision, NewReservation(input.reservationId, request, decision, notional.value), CapacityOf(policy));
    }
  }

  lemma RoomMeansWithinLimit(rows: map<Id, RiskReservation>, row: RiskReservation, policy: RiskPolicySet, account: Id,
                             instrument: Id, limit: nat)
    requires WithinLimit(policy, limit) && row.reservationId !in rows && HeldLots(rows, account, instrument) <= limit
    requires CapacityVerdict(rows, row, CapacityOf(policy)).None?
    ensures HeldLots(rows[row.reservationId := row], account, instrument) <= limit
  {
    HeldLotsAfterPut(rows, row, account, instrument);
  }

  lemma AdmitKeepsHeld(a: Adapter, input: AdmitInput, instrument: Id, limit: nat)
    requires Limited(a, limit) && Held(a, instrument) <= limit
    ensures Limited(Admit(a, input).0, limit) && Held(Admit(a, input).0, instrument) <= limit
  {
    var policy := a.ledger.policies[a.accountId];
    var request := BuildRequest(a, input, policy).1;
    if request.Ok? && Decide(input.decisionId, policy, request.value).Ok? {
      SettledRowHasRoom(a.ledger, input, policy, request.value);
      var after := Settle(a.ledger, input, policy, request.value, Decide(input.decisionId, policy, request.value).value).0;
      if after.reservations != a.ledger.reservations {
        RoomMeansWithinLimit(
          a.ledger.reservations, after.reservations[input.reservationId], policy, a.accountId, instrument, limit);
      }
    }
  }

  lemma ForeignRowKeepsColumn(rows: map<Id, RiskReservation>, id: Id, row: RiskReservation, account: Id, instrument: Id)
    requires row.accountId != account && (id in rows ==> rows[id].accountId != account)
    ensures LotColumn(rows[id := row], account, instrument) == LotColumn(rows, account, instrument)
  {}

  lemma ForeignApprovalKeepsColumn(l: Ledger, d: RiskDecision, r: RiskReservation, c: ReservationCapacity, account: Id, instrument: Id)
    requires r.accountId != account
    ensures LotColumn(PersistApproval(l, d, r, c).0.reservations, account, instrument) == LotColumn(l.reservations, account, instrument)
  {
    PersistInsertsPairOrNothing(l, d, r, c);
    if r.reservationId !in l.reservations { ForeignRowKeepsColumn(l.reservations, r.reservationId, r, account, instrument); }
  }

  lemma ForeignUpdateKeepsColumn(l: Ledger, id: Id, expected: set<ReservationState>, remaining: i64, state: ReservationState, now: i64,
                                 account: Id, instrument: Id)
    requires id in l.reservations ==> l.reservations[id].accountId != account
    ensures LotColumn(UpdateReservation(l, id, expected, remaining, state, now).0.reservations, account, instrument)
         == LotColumn(l.reservations, account, instrument)
  {
    if id in l.reservations {
      ForeignRowKeepsColumn(l.reservations, id, l.reservations[id].(remainingDeltaLots := remaining, state := state, updatedAt := now),
                            account, instrument);
    }
  }

  /** Another account's transaction leaves the account's reservation columns as they are. */
  lemma ForeignKeepsColumn(l: Ledger, tx: Transaction, account: Id, instrument: Id)
    requires Consistent(l) && ForeignTo(l, tx, account)
    ensures LotColumn(Apply(l, tx).reservations, account, instrument) == LotColumn(l.reservations, account, instrument)
  {
    match tx {
      case StoreDecision(d) =>
      case StoreApproval(d, r, c) => ForeignApprovalKeepsColumn(l, d, r, c, account, instrument);
      case StoreUpdate(id, expected, remaining, state, now) =>
        ForeignUpdateKeepsColumn(l, id, expected, remaining, state, now, account, instrument);
      case StorePolicy(other, expected, policy, reason, now) => PolicyChangeKeepsTables(l, other, expected, policy, reason, now);
    }
  }

  lemma ShrinkingKeepsHeld(before: map<Id, RiskReservation>, after: map<Id, RiskReservation>, account: Id, instrument: Id, limit: nat)
    requires RowsOnlyShrink(before, after) && HeldLots(before, account, instrument) <= limit
    ensures HeldLots(after, account, instrument) <= limit
  {
    ShrinkingRowsNeverHoldMore(before, after, account, instrument);
  }

  lemma RecordKeepsHeld(a: Adapter, requestId: Id, outcome: DispatchOutcome, now: i64, instrument: Id, limit: nat)
    requires Consistent(a.ledger) && Limited(a, limit) && Held(a, instrument) <= limit
    ensures Limited(Record(a, requestId, outcome, now).0, limit) && Held(Record(a, requestId, outcome, now).0, instrument) <= limit
  {
    var after := Record(a, requestId, outcome, now).0.ledger;
    ReconcileSettlesOneRow(a.ledger, RequestKey(a.accountId, requestId), EvidenceOf(outcome), now);
    ReconcileOnlyShrinks(a.ledger, RequestKey(a.accountId, requestId), EvidenceOf(outcome), now);
    ShrinkingKeepsHeld(a.ledger.reservations, after.reservations, a.accountId, instrument, limit);
  }

  lemma PassKeepsHeld(a: Adapter, requests: seq<Id>, report: Report, instrument: Id, limit: nat)
    requires Consistent(a.ledger) && Limited(a, limit) && Held(a, instrument) <= limit
    ensures var after := ReconcileReport(a, requests, report).0; Limited(after, limit) && Held(after, instrument) <= limit
  {
    PassOnlyShrinks(a.ledger, a.accountId, requests, report);
    ShrinkingKeepsHeld(a.ledger.reservations, ReconcilePass(a.ledger, a.accountId, requests, report).0.reservations, a.accountId,
                       instrument, limit);
  }

  lemma ForeignKeepsHeld(a: Adapter, tx: Transaction, instrument: Id, limit: nat)
    requires Consistent(a.ledger) && Limited(a, limit) && Held(a, instrument) <= limit && ForeignTo(a.ledger, tx, a.accountId)
    ensures var after := a.(ledger := Apply(a.ledger, tx)); Limited(after, limit) && Held(after, instrument) <= limit
  {
    ForeignKeepsColumn(a.ledger, tx, a.accountId, instrument);
    ForeignTransactionLeavesAccountAlone(a.ledger, tx, a.accountId);
  }

  lemma PolicyKeepsHeld(a: Adapter, expected: Option<u64>, policy: RiskPolicySet, reason: string, now: i64, instrument: Id, limit: nat)
    requires Limited(a, limit) && Held(a, instrument) <= limit && WithinLimit(policy, limit)
    ensures var after := a.(ledger := PutPolicy(a.ledger, a.accountId, expected, policy, reason, now).0);
            Limited(after, limit) && Held(after, instrument) <= limit
  {}

  lemma ValidateKeepsHeld(a: Adapter, check: ValidateInput, instrument: Id, limit: nat)
    requires Limited(a, limit) && Held(a, instrument) <= limit
    ensures Limited(Validate(a, check).0, limit) && Held(Validate(a, check).0, instrument) <= limit
  {}

  lemma StepKeepsHeld(w: World, step: Step, instrument: Id, limit: nat)
    requires Invariant(w) && Enabled(w, step) && KeepsLimit(step, limit)
    requires Limited(w.adapter, limit) && Held(w.adapter, instrument) <= limit
    ensures Limited(Advance(w, step).adapter, limit) && Held(Advance(w, step).adapter, instrument) <= limit
  {
    match step {
      case Admitting(input) => AdmitKeepsHeld(w.adapter, input, instrument, limit);
      case Recording(requestId, outcome, now) => RecordKeepsHeld(w.adapter, requestId, outcome, now, instrument, limit);
      case Reconciling(requests, report) => PassKeepsHeld(w.adapter, requests, report, instrument, limit);
      case OtherAccount(tx) => ForeignKeepsHeld(w.adapter, tx, instrument, limit);
      case ChangingPolicy(expected, policy, reason, now) =>
        PolicyKeepsHeld(w.adapter, expected, policy, reason, now, instrument, limit);
      case Validating(check) => ValidateKeepsHeld(w.adapter, check, instrument, limit);
      case Restarting =>
    }
  }

  /** In every run in which the account's policies limit the position to at most `limit` lots, the held lots
      of each instrument stay within it, and so does the reserved delta that the next decision reads. */
  lemma {:induction false} HeldLotsStayWithinPolicy(w: World, steps: seq<Step>, instrument: Id, limit: nat)
    requires Invariant(w) && AllEnabled(w, steps) && forall i :: 0 <= i < |steps| ==> KeepsLimit(steps[i], limit)
    requires Limited(w.adapter, limit) && Held(w.adapter, instrument) <= limit
    ensures var a := RunAll(w, steps).adapter;
            && Limited(a, limit) && Held(a, instrument) <= limit
            && Abs(ActiveDelta(a.ledger.reservations, a.accountId, instrument)) <= limit
  {
    var a := RunAll(w, steps).adapter;
    if steps != [] {
      var init := steps[..|steps| - 1];
      assert AllEnabled(w, init) by { assert forall i :: 0 <= i < |init| ==> init[..i] == steps[..i]; }
      HeldLotsStayWithinPolicy(w, init, instrument, limit);
      RunsKeepInvariant(w, init);
      StepKeepsHeld(RunAll(w, init), steps[|steps| - 1], instrument, limit);
    }
    SignedTotalBelowMagnitude(SignedLotColumn(a.ledger.reservations, a.accountId, instrument),
                              LotColumn(a.ledger.reservations, a.accountId, instrument));
  }
}
