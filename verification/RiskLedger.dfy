/** The risk database as a value: tables are maps by primary key, unique indexes are maps by indexed
    columns, and every function below is one committed transaction. */
module RiskLedger {
  import opened Machine
  import opened RiskModel
  import opened TableSums

  datatype RequestKey = RequestKey(accountId: Id, requestId: Id)

  datatype PolicyAudit = PolicyAudit(
    accountId: Id, oldRevision: Option<u64>, newRevision: u64, reason: string, policy: RiskPolicySet, observedAt: i64)

  datatype Ledger = Ledger(
    decisions: map<Id, RiskDecision>,
    decisionIndex: map<RequestKey, Id>,
    reservations: map<Id, RiskReservation>,
    reservationIndex: map<RequestKey, Id>,
    policies: map<Id, RiskPolicySet>,
    policyAudit: seq<PolicyAudit>)

  const EMPTY := Ledger(map[], map[], map[], map[], map[], [])

  datatype ReservationCapacity = ReservationCapacity(
    maxAccountReservedNotional: Option<i128>, maxInstrumentReservedAbsLots: Option<i64>)

  datatype Approval = Approval(decision: RiskDecision, reservation: RiskReservation)

  datatype StoreError =
    | Constraint
    | CapacityExceeded
    | InvalidCapacity
    | ReservationNotFound
    | InvalidTransition
    | ArithmeticOverflow
    | ApprovalInvariantViolation
    | PolicyRevisionConflict
    | InvalidPolicyMutation

  function DecisionKey(d: RiskDecision): RequestKey { RequestKey(d.accountId, d.requestId) }

  function ReservationKey(r: RiskReservation): RequestKey { RequestKey(r.accountId, r.logicalRequestId) }

  ghost predicate DecisionsIndexed(rows: map<Id, RiskDecision>, index: map<RequestKey, Id>) {
    && (forall id :: id in rows ==>
          rows[id].decisionId == id && DecisionKey(rows[id]) in index && index[DecisionKey(rows[id])] == id)
    && (forall k :: k in index ==> index[k] in rows && DecisionKey(rows[index[k]]) == k)
  }

  ghost predicate ReservationsIndexed(rows: map<Id, RiskReservation>, index: map<RequestKey, Id>) {
    && (forall id :: id in rows ==>
          rows[id].reservationId == id && ReservationKey(rows[id]) in index && index[ReservationKey(rows[id])] == id)
    && (forall k :: k in index ==> index[k] in rows && ReservationKey(rows[index[k]]) == k)
  }

  /** Both unique indexes describe exactly the rows of their table. */
  ghost predicate Consistent(l: Ledger) {
    DecisionsIndexed(l.decisions, l.decisionIndex) && ReservationsIndexed(l.reservations, l.reservationIndex)
  }

  /** A reservation without the three columns that an update writes. */
  function Terms(r: RiskReservation): RiskReservation {
    r.(remainingDeltaLots := 0, state := Released, updatedAt := 0)
  }

  function DecisionFor(l: Ledger, k: RequestKey): Option<RiskDecision> {
    if k in l.decisionIndex && l.decisionIndex[k] in l.decisions then Some(l.decisions[l.decisionIndex[k]]) else None
  }

  function ReservationFor(l: Ledger, k: RequestKey): Option<RiskReservation> {
    if k in l.reservationIndex && l.reservationIndex[k] in l.reservations
    then Some(l.reservations[l.reservationIndex[k]]) else None
  }

  function InsertDecision(l: Ledger, d: RiskDecision): Option<Ledger> {
    if d.decisionId in l.decisions || DecisionKey(d) in l.decisionIndex then None
    else Some(l.(decisions := l.decisions[d.decisionId := d],
                 decisionIndex := l.decisionIndex[DecisionKey(d) := d.decisionId]))
  }

  function InsertReservation(l: Ledger, r: RiskReservation): Option<Ledger> {
    if r.reservationId in l.reservations || ReservationKey(r) in l.reservationIndex then None
    else Some(l.(reservations := l.reservations[r.reservationId := r],
                 reservationIndex := l.reservationIndex[ReservationKey(r) := r.reservationId]))
  }

  // ---- capacity ----

  /** The rows that a lot limit counts. */
  predicate Counts(r: RiskReservation, account: Id, instrument: Id) {
    r.state.Holding() && r.accountId == account && r.instrumentId == instrument
  }

  function LotColumn(rows: map<Id, RiskReservation>, account: Id, instrument: Id): map<Id, int> {
    map k | k in rows && Counts(rows[k], account, instrument) :: Abs(rows[k].remainingDeltaLots)
  }

  function SignedLotColumn(rows: map<Id, RiskReservation>, account: Id, instrument: Id): map<Id, int> {
    map k | k in rows && Counts(rows[k], account, instrument) :: rows[k].remainingDeltaLots
  }

  function NotionalColumn(rows: map<Id, RiskReservation>, account: Id): map<Id, int> {
    map k | k in rows && rows[k].state.Holding() && rows[k].accountId == account :: Abs(rows[k].reservedNotional)
  }

  ghost function HeldLots(rows: map<Id, RiskReservation>, account: Id, instrument: Id): int {
    Total(LotColumn(rows, account, instrument))
  }

  ghost function HeldNotional(rows: map<Id, RiskReservation>, account: Id): int {
    Total(NotionalColumn(rows, account))
  }

  /** Signed lots of the reservations that still hold capacity. */
  ghost function ActiveDelta(rows: map<Id, RiskReservation>, account: Id, instrument: Id): int {
    Total(SignedLotColumn(rows, account, instrument))
  }

  /** The verdict on a sum of magnitudes: what matters is the total, not the order of the rows. */
  function LimitVerdict(total: int, width: int, limit: int): Option<StoreError> {
    if total > width then Some(ArithmeticOverflow) else if total > limit then Some(CapacityExceeded) else None
  }

  ghost function CapacityVerdict(rows: map<Id, RiskReservation>, r: RiskReservation, capacity: ReservationCapacity)
    : Option<StoreError>
  {
    var lots := capacity.maxInstrumentReservedAbsLots;
    var notional := capacity.maxAccountReservedNotional;
    var onLots := if lots.None? then None else
      LimitVerdict(HeldLots(rows, r.accountId, r.instrumentId) + Abs(r.remainingDeltaLots), I64_MAX, lots.value);
    if onLots.Some? || notional.None? then onLots
    else LimitVerdict(HeldNotional(rows, r.accountId) + Abs(r.reservedNotional), I128_MAX, notional.value)
  }

  // ---- transactions ----

  predicate LinkedApproval(d: RiskDecision, r: RiskReservation) {
    && d.accountId == r.accountId
    && d.requestId == r.logicalRequestId
    && d.reservationId == Some(r.reservationId)
    && d.PermitsDispatch()
    && d.approvedDeltaLots == r.reservedDeltaLots
  }

  predicate InvalidLimits(c: ReservationCapacity) {
    || (c.maxAccountReservedNotional.Some? && c.maxAccountReservedNotional.value < 0)
    || (c.maxInstrumentReservedAbsLots.Some? && c.maxInstrumentReservedAbsLots.value < 0)
  }

  ghost function PersistApproval(l: Ledger, d: RiskDecision, r: RiskReservation, capacity: ReservationCapacity)
    : (Ledger, Result<Approval, StoreError>)
  {
    if !LinkedApproval(d, r) then (l, Err(ApprovalInvariantViolation))
    else if InvalidLimits(capacity) then (l, Err(InvalidCapacity))
    else if ReservationFor(l, ReservationKey(r)).Some? then
      var existing := DecisionFor(l, DecisionKey(d));
      if existing.None? then (l, Err(ApprovalInvariantViolation))
      else (l, Ok(Approval(existing.value, ReservationFor(l, ReservationKey(r)).value)))
    else
      var verdict := CapacityVerdict(l.reservations, r, capacity);
      if verdict.Some? then (l, Err(verdict.value))
      else
        var withDecision := InsertDecision(l, d);
        if withDecision.None? then (l, Err(Constraint))
        else
          var done := InsertReservation(withDecision.value, r);
          if done.None? then (l, Err(Constraint)) else (done.value, Ok(Approval(d, r)))
  }

  /** A repeated decision identity is ignored; a second decision for the same request violates the
      unique index and fails. */
  function PutDecision(l: Ledger, d: RiskDecision): (Ledger, Result<(), StoreError>) {
    if d.decisionId in l.decisions then (l, Ok(()))
    else var inserted := InsertDecision(l, d);
      if inserted.None? then (l, Err(Constraint)) else (inserted.value, Ok(()))
  }

  function UpdateReservation(l: Ledger, id: Id, expected: set<ReservationState>, remaining: i64,
                             state: ReservationState, now: i64): (Ledger, Result<RiskReservation, StoreError>)
  {
    if id !in l.reservations then (l, Err(ReservationNotFound))
    else if l.reservations[id].state !in expected then (l, Err(InvalidTransition))
    else
      var row := l.reservations[id].(remainingDeltaLots := remaining, state := state, updatedAt := now);
      (l.(reservations := l.reservations[id := row]), Ok(row))
  }

  /** The characters with the White_Space property of Unicode. */
  predicate WhiteSpace(c: char) {
    || '\U{0009}' <= c <= '\U{000D}' || c == ' ' || c == '\U{0085}' || c == '\U{00A0}' || c == '\U{1680}'
    || '\U{2000}' <= c <= '\U{200A}' || c == '\U{2028}' || c == '\U{2029}' || c == '\U{202F}' || c == '\U{205F}'
    || c == '\U{3000}'
  }

  /** Nothing is left of the text when it is trimmed. */
  predicate Blank(s: string) { forall i :: 0 <= i < |s| ==> WhiteSpace(s[i]) }

  function PutPolicy(l: Ledger, account: Id, expected: Option<u64>, policy: RiskPolicySet, reason: string, now: i64)
    : (Ledger, Result<RiskPolicySet, StoreError>)
  {
    if Blank(account) || Blank(reason) || policy.revision == 0 then (l, Err(InvalidPolicyMutation))
    else
      var current := if account in l.policies then Some(l.policies[account].revision) else None;
      if expected != current || (current.Some? && policy.revision <= current.value) then (l, Err(PolicyRevisionConflict))
      else (l.(policies := l.policies[account := policy],
               policyAudit := l.policyAudit + [PolicyAudit(account, current, policy.revision, reason, policy, now)]),
            Ok(policy))
  }

  /** Both rows of an approved request, the absence of both, or a broken pair. */
  function ApprovalFor(l: Ledger, k: RequestKey): Result<Option<Approval>, StoreError> {
    var d, r := DecisionFor(l, k), ReservationFor(l, k);
    if d.None? && r.None? then Ok(None)
    else if d.Some? && r.Some? && LinkedApproval(d.value, r.value) then Ok(Some(Approval(d.value, r.value)))
    else Err(ApprovalInvariantViolation)
  }

  // ---- what a committed approval leaves behind ----

  /** Both rows inserted, into a ledger that had neither the identities nor the request. */
  ghost predicate InsertedPair(before: Ledger, d: RiskDecision, r: RiskReservation, after: Ledger) {
    && d.decisionId !in before.decisions && DecisionKey(d) !in before.decisionIndex
    && r.reservationId !in before.reservations && ReservationKey(r) !in before.reservationIndex
    && DecisionKey(d) == ReservationKey(r)
    && after == before.(
         decisions := before.decisions[d.decisionId := d],
         decisionIndex := before.decisionIndex[DecisionKey(d) := d.decisionId],
         reservations := before.reservations[r.reservationId := r],
         reservationIndex := before.reservationIndex[ReservationKey(r) := r.reservationId])
  }

  /** An approval either changes nothing or inserts the pair it was given after passing the capacity
      check; when it succeeds, both rows of the request are on record as returned. */
  lemma PersistInsertsPairOrNothing(l: Ledger, d: RiskDecision, r: RiskReservation, c: ReservationCapacity)
    ensures var (after, result) := PersistApproval(l, d, r, c);
            && (after == l || (InsertedPair(l, d, r, after) && CapacityVerdict(l.reservations, r, c).None?
                               && LinkedApproval(d, r)))
            && (result.Ok? ==> DecisionFor(after, DecisionKey(d)) == Some(result.value.decision)
                               && ReservationFor(after, DecisionKey(d)) == Some(result.value.reservation)
                               && DecisionKey(d) == ReservationKey(r))
  {}

  lemma InsertedPairIsConsistent(l: Ledger, d: RiskDecision, r: RiskReservation, after: Ledger)
    requires Consistent(l) && InsertedPair(l, d, r, after)
    ensures Consistent(after)
  {}

  // ---- the sums under one row change ----

  lemma HeldLotsAfterPut(rows: map<Id, RiskReservation>, r: RiskReservation, account: Id, instrument: Id)
    requires r.reservationId !in rows
    ensures HeldLots(rows[r.reservationId := r], account, instrument)
         == HeldLots(rows, account, instrument)
            + (if Counts(r, account, instrument) then Abs(r.remainingDeltaLots) else 0)
  {
    var before, after := LotColumn(rows, account, instrument), LotColumn(rows[r.reservationId := r], account, instrument);
    if Counts(r, account, instrument) {
      assert after == before[r.reservationId := Abs(r.remainingDeltaLots)];
      TotalPut(before, r.reservationId, Abs(r.remainingDeltaLots));
    } else {
      assert after == before;
    }
  }

  lemma ActiveDeltaAfterPut(rows: map<Id, RiskReservation>, r: RiskReservation, account: Id, instrument: Id)
    requires r.reservationId !in rows
    ensures ActiveDelta(rows[r.reservationId := r], account, instrument)
         == ActiveDelta(rows, account, instrument)
            + (if Counts(r, account, instrument) then r.remainingDeltaLots else 0)
  {
    var before := SignedLotColumn(rows, account, instrument);
    var after := SignedLotColumn(rows[r.reservationId := r], account, instrument);
    if Counts(r, account, instrument) {
      assert after == before[r.reservationId := r.remainingDeltaLots];
      TotalPut(before, r.reservationId, r.remainingDeltaLots);
    } else {
      assert after == before;
    }
  }

  lemma HeldNotionalAfterPut(rows: map<Id, RiskReservation>, r: RiskReservation, account: Id)
    requires r.reservationId !in rows
    ensures HeldNotional(rows[r.reservationId := r], account)
         == HeldNotional(rows, account)
            + (if r.state.Holding() && r.accountId == account then Abs(r.reservedNotional) else 0)
  {
    var after := rows[r.reservationId := r];
    if r.state.Holding() && r.accountId == account {
      TotalPut(NotionalColumn(rows, account), r.reservationId, Abs(r.reservedNotional));
      assert NotionalColumn(after, account)
          == NotionalColumn(rows, account)[r.reservationId := Abs(r.reservedNotional)];
    } else {
      assert NotionalColumn(after, account) == NotionalColumn(rows, account);
    }
  }

  /** A change of one row that neither starts holding nor raises the remaining magnitude. */
  predicate RowOnlyShrinks(before: RiskReservation, after: RiskReservation) {
    && Terms(after) == Terms(before)
    && (after.state.Holding() ==>
          before.state.Holding() && Abs(after.remainingDeltaLots) <= Abs(before.remainingDeltaLots))
  }

  ghost predicate RowsOnlyShrink(before: map<Id, RiskReservation>, after: map<Id, RiskReservation>) {
    after.Keys == before.Keys && forall k :: k in before ==> RowOnlyShrinks(before[k], after[k])
  }

  lemma ShrinkingRowsNeverHoldMore(before: map<Id, RiskReservation>, after: map<Id, RiskReservation>,
                                   account: Id, instrument: Id)
    requires RowsOnlyShrink(before, after)
    ensures HeldLots(after, account, instrument) <= HeldLots(before, account, instrument)
    ensures HeldNotional(after, account) <= HeldNotional(before, account)
  {
    TotalMonotone(LotColumn(after, account, instrument), LotColumn(before, account, instrument));
    TotalMonotone(NotionalColumn(after, account), NotionalColumn(before, account));
  }
}
