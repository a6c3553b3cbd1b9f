/** The SQLite risk store and the reservation reconciler as objects. Each method is proved to perform
    the ledger transaction of the same name. */
module RiskStore {
  import opened Machine
  import opened RiskModel
  import opened TableSums
  import opened RiskLedger
  import opened Reconciliation

  class SqliteRiskStore {
    var decisions: map<Id, RiskDecision>
    var decisionIndex: map<RequestKey, Id>
    var reservations: map<Id, RiskReservation>
    var reservationIndex: map<RequestKey, Id>
    var policies: map<Id, RiskPolicySet>
    var policyAudit: seq<PolicyAudit>

    function View(): Ledger
      reads this
    {
      Ledger(decisions, decisionIndex, reservations, reservationIndex, policies, policyAudit)
    }

    constructor ()
      ensures View() == EMPTY
    {
      decisions, decisionIndex, reservations, reservationIndex := map[], map[], map[], map[];
      policies, policyAudit := map[], [];
    }

    method PutPolicy(account: Id, expected: Option<u64>, policy: RiskPolicySet, reason: string, now: i64)
      returns (r: Result<RiskPolicySet, StoreError>)
      modifies this
      ensures (View(), r) == RiskLedger.PutPolicy(old(View()), account, expected, policy, reason, now)
    {
      if Blank(account) || Blank(reason) || policy.revision == 0 { return Err(InvalidPolicyMutation); }
      var current: Option<u64> := if account in policies then Some(policies[account].revision) else None;
      match (expected, current) {
        case (None, None) =>
        case (Some(e), Some(actual)) => if e != actual { return Err(PolicyRevisionConflict); }
        case _ => return Err(PolicyRevisionConflict);
      }
      if current.Some? && policy.revision <= current.value { return Err(PolicyRevisionConflict); }
      policies := policies[account := policy];
      policyAudit := policyAudit + [PolicyAudit(account, current, policy.revision, reason, policy, now)];
      return Ok(policy);
    }

    method PutDecision(decision: RiskDecision) returns (r: Result<(), StoreError>)
      modifies this
      ensures (View(), r) == RiskLedger.PutDecision(old(View()), decision)
    {
      if decision.decisionId in decisions { return Ok(()); }
      if DecisionKey(decision) in decisionIndex { return Err(Constraint); }
      decisions := decisions[decision.decisionId := decision];
      decisionIndex := decisionIndex[DecisionKey(decision) := decision.decisionId];
      return Ok(());
    }

    /** Adds up the selected rows one by one in whatever order the query yields them; a running sum that
        leaves the column width is an error. The verdict depends on the total alone. */
    method SumWithin(column: map<Id, int>, requested: nat, width: nat, limit: int) returns (r: Option<StoreError>)
      requires forall k :: k in column ==> 0 <= column[k]
      ensures r == LimitVerdict(Total(column) + requested, width, limit)
    {
      var todo := column;
      var active := 0;
      while todo != map[]
        invariant todo.Keys <= column.Keys && forall k :: k in todo ==> todo[k] == column[k]
        invariant 0 <= active <= width && active + Total(todo) == Total(column)
        decreases |todo|
      {
        var k :| k in todo;
        TotalSplit(todo, k);
        TotalMonotone(map[], todo - {k});
        if todo[k] > width || active + todo[k] > width { return Some(ArithmeticOverflow); }
        active := active + todo[k];
        todo := todo - {k};
      }
      if requested > width || active + requested > width { return Some(ArithmeticOverflow); }
      if active + requested > limit { return Some(CapacityExceeded); }
      return None;
    }

    method EnforceCapacity(reservation: RiskReservation, capacity: ReservationCapacity)
      returns (r: Option<StoreError>)
      ensures r == CapacityVerdict(reservations, reservation, capacity)
    {
      if capacity.maxInstrumentReservedAbsLots.Some? {
        r := SumWithin(LotColumn(reservations, reservation.accountId, reservation.instrumentId),
                       Abs(reservation.remainingDeltaLots), I64_MAX, capacity.maxInstrumentReservedAbsLots.value);
        if r.Some? { return; }
      }
      if capacity.maxAccountReservedNotional.Some? {
        r := SumWithin(NotionalColumn(reservations, reservation.accountId),
                       Abs(reservation.reservedNotional), I128_MAX, capacity.maxAccountReservedNotional.value);
        return;
      }
      return None;
    }

    method PersistApprovalAtomic(decision: RiskDecision, reservation: RiskReservation, capacity: ReservationCapacity)
      returns (r: Result<Approval, StoreError>)
      modifies this
      ensures (View(), r) == PersistApproval(old(View()), decision, reservation, capacity)
    {
      if !LinkedApproval(decision, reservation) { return Err(ApprovalInvariantViolation); }
      if InvalidLimits(capacity) { return Err(InvalidCapacity); }
      var existing := ReservationFor(View(), ReservationKey(reservation));
      if existing.Some? {
        var recorded := DecisionFor(View(), DecisionKey(decision));
        if recorded.None? { return Err(ApprovalInvariantViolation); }
        return Ok(Approval(recorded.value, existing.value));
      }
      var verdict := EnforceCapacity(reservation, capacity);
      if verdict.Some? { return Err(verdict.value); }
      if decision.decisionId in decisions || DecisionKey(decision) in decisionIndex { return Err(Constraint); }
      if reservation.reservationId in reservations || ReservationKey(reservation) in reservationIndex {
        return Err(Constraint);
      }
      decisions := decisions[decision.decisionId := decision];
      decisionIndex := decisionIndex[DecisionKey(decision) := decision.decisionId];
      reservations := reservations[reservation.reservationId := reservation];
      reservationIndex := reservationIndex[ReservationKey(reservation) := reservation.reservationId];
      return Ok(Approval(decision, reservation));
    }

    /** The holding rows of an account, each once. The query's ORDER BY is not modelled. */
    method ActiveReservations(account: Id) returns (rows: seq<RiskReservation>)
      requires Consistent(View())
      ensures forall i :: 0 <= i < |rows| ==>
                rows[i].reservationId in reservations && reservations[rows[i].reservationId] == rows[i]
                && rows[i].accountId == account && rows[i].state.Holding()
      ensures forall i, j :: 0 <= i < j < |rows| ==> rows[i].reservationId != rows[j].reservationId
      ensures forall id | id in reservations && reservations[id].accountId == account && reservations[id].state.Holding()
                :: reservations[id] in rows
    {
      rows := [];
      var todo := set id | id in reservations && reservations[id].accountId == account && reservations[id].state.Holding();
      ghost var all := todo;
      while todo != {}
        invariant todo <= all
        invariant forall i :: 0 <= i < |rows| ==>
                    && rows[i].reservationId in all - todo
                    && reservations[rows[i].reservationId] == rows[i]
        invariant forall i, j :: 0 <= i < j < |rows| ==> rows[i].reservationId != rows[j].reservationId
        invariant forall id :: id in all - todo ==> reservations[id] in rows
      {
        var id :| id in todo;
        rows := rows + [reservations[id]];
        todo := todo - {id};
      }
    }

    /** The signed sum of the holding rows of an instrument; `None` when it does not fit the column. */
    method ActiveReservedDelta(account: Id, instrument: Id) returns (r: Option<i64>)
      ensures var total := ActiveDelta(reservations, account, instrument);
              r == if FitsI64(total) then Some(total) else None
    {
      var todo := SignedLotColumn(reservations, account, instrument);
      var total := 0;
      while todo != map[]
        invariant total + Total(todo) == ActiveDelta(reservations, account, instrument)
        decreases |todo|
      {
        var k :| k in todo;
        TotalSplit(todo, k);
        total := total + todo[k];
        todo := todo - {k};
      }
      return if FitsI64(total) then Some(total) else None;
    }

    method UpdateReservation(id: Id, expected: set<ReservationState>, remaining: i64, state: ReservationState, now: i64)
      returns (r: Result<RiskReservation, StoreError>)
      modifies this
      ensures (View(), r) == RiskLedger.UpdateReservation(old(View()), id, expected, remaining, state, now)
    {
      if id !in reservations { return Err(ReservationNotFound); }
      if reservations[id].state !in expected { return Err(InvalidTransition); }
      var row := reservations[id].(remainingDeltaLots := remaining, state := state, updatedAt := now);
      reservations := reservations[id := row];
      return Ok(row);
    }
  }

  class RiskReservationReconciler {
    const store: SqliteRiskStore

    constructor (store: SqliteRiskStore)
      ensures this.store == store
    {
      this.store := store;
    }

    method Update(reservation: RiskReservation, expected: set<ReservationState>, remaining: i64,
                  state: ReservationState, now: i64) returns (r: Result<RiskReservation, ReconcileError>)
      modifies store
      ensures var (after, result) :=
                RiskLedger.UpdateReservation(old(store.View()), reservation.reservationId, expected, remaining, state, now);
              store.View() == after && r == if result.Ok? then Ok(result.value) else Err(Store(result.error))
    {
      var result := store.UpdateReservation(reservation.reservationId, expected, remaining, state, now);
      return if result.Ok? then Ok(result.value) else Err(Store(result.error));
    }

    method ProvenPreDispatchFailure(key: RequestKey, now: i64) returns (r: Result<RiskReservation, ReconcileError>)
      modifies store
      ensures (store.View(), r) == Reconcile(old(store.View()), key, Evidence.ProvenPreDispatchFailure, now)
    {
      var row := ReservationFor(store.View(), key);
      if row.None? { return Err(NotFound); }
      r := Update(row.value, {ReservationState.Active}, 0, Released, now);
    }

    method UnknownAfterDispatch(key: RequestKey, now: i64) returns (r: Result<RiskReservation, ReconcileError>)
      modifies store
      ensures (store.View(), r) == Reconcile(old(store.View()), key, Evidence.UnknownAfterDispatch, now)
    {
      var row := ReservationFor(store.View(), key);
      if row.None? { return Err(NotFound); }
      if row.value.state.UnknownHeld? { return Ok(row.value); }
      r := Update(row.value, {ReservationState.Active, PartiallyConsumed}, row.value.remainingDeltaLots, UnknownHeld, now);
    }

    method AuthoritativeFill(key: RequestKey, filled: i64, now: i64) returns (r: Result<RiskReservation, ReconcileError>)
      modifies store
      ensures (store.View(), r) == Reconcile(old(store.View()), key, Evidence.AuthoritativeFill(filled), now)
    {
      if filled == 0 { return Err(InvalidFill); }
      var row := ReservationFor(store.View(), key);
      if row.None? { return Err(NotFound); }
      if !Fillable(row.value.state) { return Err(TerminalReservation); }
      if Sign(row.value.remainingDeltaLots) != Sign(filled) { return Err(FillDirectionMismatch); }
      if Abs(filled) > Abs(row.value.remainingDeltaLots) { return Err(FillExceedsReservation); }
      var remaining := row.value.remainingDeltaLots - filled;
      if !FitsI64(remaining) { return Err(QuantityOverflow); }
      var target := if remaining == 0 then Consumed else PartiallyConsumed;
      r := Update(row.value, {ReservationState.Active, PartiallyConsumed, UnknownHeld}, remaining, target, now);
    }

    method NoRemainingExposure(key: RequestKey, now: i64) returns (r: Result<RiskReservation, ReconcileError>)
      modifies store
      ensures (store.View(), r) == Reconcile(old(store.View()), key, Evidence.NoRemainingExposure, now)
    {
      var row := ReservationFor(store.View(), key);
      if row.None? { return Err(NotFound); }
      if row.value.state.Consumed? || row.value.state.Released? { return Ok(row.value); }
      r := Update(row.value, {ReservationState.Active, PartiallyConsumed, UnknownHeld, Orphaned}, 0, Released, now);
    }

    method OrphanFailClosed(key: RequestKey, now: i64) returns (r: Result<RiskReservation, ReconcileError>)
      modifies store
      ensures (store.View(), r) == Reconcile(old(store.View()), key, Evidence.OrphanFailClosed, now)
    {
      var row := ReservationFor(store.View(), key);
      if row.None? { return Err(NotFound); }
      if row.value.state.Orphaned? { return Ok(row.value); }
      r := Update(row.value, {ReservationState.Active, PartiallyConsumed}, row.value.remainingDeltaLots, Orphaned, now);
    }

    method DispatchAcknowledged(key: RequestKey) returns (r: Result<RiskReservation, ReconcileError>)
      ensures (store.View(), r) == Reconcile(store.View(), key, Evidence.DispatchAcknowledged, 0)
    {
      var row := ReservationFor(store.View(), key);
      if row.None? { return Err(NotFound); }
      if !Fillable(row.value.state) { return Err(TerminalReservation); }
      return Ok(row.value);
    }

    method BrokerAuthoritativeReject(key: RequestKey, now: i64) returns (r: Result<RiskReservation, ReconcileError>)
      modifies store
      ensures (store.View(), r) == Reconcile(old(store.View()), key, BrokerReject, now)
    {
      var row := ReservationFor(store.View(), key);
      if row.None? { return Err(NotFound); }
      if row.value.state.Consumed? || row.value.state.Released? { return Ok(row.value); }
      r := Update(row.value, {ReservationState.Active, PartiallyConsumed, UnknownHeld, Orphaned}, 0, Released, now);
    }

    method RuntimeReconciliation(key: RequestKey, remaining: i64, now: i64)
      returns (r: Result<RiskReservation, ReconcileError>)
      modifies store
      ensures (store.View(), r) == Reconcile(old(store.View()), key, RuntimeRemaining(remaining), now)
    {
      var row := ReservationFor(store.View(), key);
      if row.None? { return Err(NotFound); }
      if !Fillable(row.value.state) { return Err(TerminalReservation); }
      var originalSign := Sign(row.value.remainingDeltaLots);
      if originalSign == 0 { return Err(InvalidFill); }
      if remaining != 0 && Sign(remaining) != originalSign { return Err(FillDirectionMismatch); }
      if Abs(remaining) > I64_MAX || Abs(row.value.remainingDeltaLots) > I64_MAX { return Err(QuantityOverflow); }
      if Abs(remaining) > Abs(row.value.remainingDeltaLots) { return Err(FillExceedsReservation); }
      var target := if remaining == 0 then Consumed else PartiallyConsumed;
      r := Update(row.value, {ReservationState.Active, PartiallyConsumed, UnknownHeld}, remaining, target, now);
    }
  }
}
