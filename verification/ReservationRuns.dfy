/** Whole runs of approvals and reconciler calls: capacity and conservation when each call is one
    step, and the envelope that survives when the read and the write of a call are split. */
module ReservationRuns {
  import opened Machine
  import opened RiskModel
  import opened TableSums
  import opened RiskLedger
  import opened Reconciliation

  datatype Operation =
    | Approve(decision: RiskDecision, reservation: RiskReservation, capacity: ReservationCapacity)
    | Observe(key: RequestKey, evidence: Evidence, now: i64)

  ghost function Perform(l: Ledger, op: Operation): Ledger {
    match op
    case Approve(d, r, c) => PersistApproval(l, d, r, c).0
    case Observe(k, e, now) => Reconcile(l, k, e, now).0
  }

  /** The ledger after all operations, from an empty database. */
  ghost function Run(ops: seq<Operation>): Ledger {
    if ops == [] then EMPTY else Perform(Run(ops[..|ops| - 1]), ops[|ops| - 1])
  }

  lemma PersistKeepsConsistent(l: Ledger, d: RiskDecision, r: RiskReservation, c: ReservationCapacity)
    requires Consistent(l)
    ensures Consistent(PersistApproval(l, d, r, c).0)
    ensures var after := PersistApproval(l, d, r, c).0;
            after != l ==> InsertedPair(l, d, r, after) && CapacityVerdict(l.reservations, r, c).None?
  {
    PersistInsertsPairOrNothing(l, d, r, c);
    var after := PersistApproval(l, d, r, c).0;
    if after != l { InsertedPairIsConsistent(l, d, r, after); }
  }

  lemma {:induction false} RunIsConsistent(ops: seq<Operation>)
    ensures Consistent(Run(ops))
  {
    if ops != [] {
      var before, op := ops[..|ops| - 1], ops[|ops| - 1];
      RunIsConsistent(before);
      match op
      case Approve(d, r, c) => PersistKeepsConsistent(Run(before), d, r, c);
      case Observe(k, e, now) => ReconcileOnlyShrinks(Run(before), k, e, now);
    }
  }

  // ---- capacity ----

  /** An approval of the account is granted under a lot limit of at most `limit`. */
  predicate LotLimited(op: Operation, account: Id, limit: int) {
    op.Approve? && op.reservation.accountId == account ==>
      var lots := op.capacity.maxInstrumentReservedAbsLots;
      lots.Some? && lots.value <= limit
  }

  predicate NotionalLimited(op: Operation, account: Id, limit: int) {
    op.Approve? && op.reservation.accountId == account ==>
      var notional := op.capacity.maxAccountReservedNotional;
      notional.Some? && notional.value <= limit
  }

  lemma StepRespectsLots(l: Ledger, op: Operation, account: Id, instrument: Id, limit: nat)
    requires Consistent(l) && LotLimited(op, account, limit)
    requires HeldLots(l.reservations, account, instrument) <= limit
    ensures HeldLots(Perform(l, op).reservations, account, instrument) <= limit
  {
    match op
    case Approve(d, r, c) => ApprovalRespectsLots(l, d, r, c, account, instrument, limit);
    case Observe(k, e, now) =>
      ReconcileOnlyShrinks(l, k, e, now);
      ShrinkingRowsNeverHoldMore(l.reservations, Perform(l, op).reservations, account, instrument);
  }

  lemma ApprovalRespectsLots(l: Ledger, d: RiskDecision, r: RiskReservation, c: ReservationCapacity, account: Id, instrument: Id,
                             limit: nat)
    requires Consistent(l) && LotLimited(Operation.Approve(d, r, c), account, limit)
    requires HeldLots(l.reservations, account, instrument) <= limit
    ensures HeldLots(PersistApproval(l, d, r, c).0.reservations, account, instrument) <= limit
  {
    PersistKeepsConsistent(l, d, r, c);
    if PersistApproval(l, d, r, c).0 != l { HeldLotsAfterPut(l.reservations, r, account, instrument); }
  }

  lemma StepRespectsNotional(l: Ledger, op: Operation, account: Id, limit: nat)
    requires Consistent(l) && NotionalLimited(op, account, limit)
    requires HeldNotional(l.reservations, account) <= limit
    ensures HeldNotional(Perform(l, op).reservations, account) <= limit
  {
    match op
    case Approve(d, r, c) =>
      PersistKeepsConsistent(l, d, r, c);
      if Perform(l, op) != l {
        HeldNotionalAfterPut(l.reservations, r, account);
      }
    case Observe(k, e, now) =>
      ReconcileOnlyShrinks(l, k, e, now);
      ShrinkingRowsNeverHoldMore(l.reservations, Perform(l, op).reservations, account, "");
  }

  /** In every run the lots held per account and instrument never exceed the limit they were approved
      under. */
  lemma {:induction false} HeldLotsNeverExceedLimit(ops: seq<Operation>, account: Id, instrument: Id, limit: nat)
    requires forall i :: 0 <= i < |ops| ==> LotLimited(ops[i], account, limit)
    ensures HeldLots(Run(ops).reservations, account, instrument) <= limit
  {
    if ops != [] {
      var before := ops[..|ops| - 1];
      RunIsConsistent(before);
      HeldLotsNeverExceedLimit(before, account, instrument, limit);
      StepRespectsLots(Run(before), ops[|ops| - 1], account, instrument, limit);
    }
  }

  /** Hence the signed sum that later decisions read is bounded by the same limit. */
  lemma ActiveDeltaNeverExceedsLimit(ops: seq<Operation>, account: Id, instrument: Id, limit: nat)
    requires forall i :: 0 <= i < |ops| ==> LotLimited(ops[i], account, limit)
    ensures Abs(ActiveDelta(Run(ops).reservations, account, instrument)) <= limit
  {
    HeldLotsNeverExceedLimit(ops, account, instrument, limit);
    SignedTotalBelowMagnitude(SignedLotColumn(Run(ops).reservations, account, instrument),
                              LotColumn(Run(ops).reservations, account, instrument));
  }

  lemma {:induction false} HeldNotionalNeverExceedsLimit(ops: seq<Operation>, account: Id, limit: nat)
    requires forall i :: 0 <= i < |ops| ==> NotionalLimited(ops[i], account, limit)
    ensures HeldNotional(Run(ops).reservations, account) <= limit
  {
    if ops != [] {
      var before := ops[..|ops| - 1];
      RunIsConsistent(before);
      HeldNotionalNeverExceedsLimit(before, account, limit);
      StepRespectsNotional(Run(before), ops[|ops| - 1], account, limit);
    }
  }

  // ---- conservation ----

  /** A reservation as admission creates it: untouched, active and not empty. */
  predicate Fresh(r: RiskReservation) {
    r.reservedDeltaLots != 0 && r.remainingDeltaLots == r.reservedDeltaLots && r.state.Active?
  }

  predicate Applies(r: RiskReservation, e: Evidence) {
    Assess(r, e).Write? && r.state in Assess(r, e).expected
  }

  /** Lots that a piece of evidence reports as executed. A fill names them; a remaining quantity reports
      them only as the drop from the row it is compared with, so for that evidence the balance below says
      that the row takes over the reported quantity. */
  function ReportedFill(r: RiskReservation, e: Evidence): int {
    if !Applies(r, e) then 0
    else match e
      case AuthoritativeFill(lots) => lots
      case RuntimeRemaining(lots) => r.remainingDeltaLots - lots
      case _ => 0
  }

  /** Lots that a piece of evidence gives back. */
  function ReleasedBy(r: RiskReservation, e: Evidence): int {
    if Applies(r, e) && (e.ProvenPreDispatchFailure? || e.NoRemainingExposure? || e.BrokerReject?)
    then r.remainingDeltaLots else 0
  }

  ghost function Sum(ops: seq<Operation>, id: Id, amount: (RiskReservation, Evidence) -> int): int {
    if ops == [] then 0
    else
      var l, op := Run(ops[..|ops| - 1]), ops[|ops| - 1];
      Sum(ops[..|ops| - 1], id, amount)
      + (if op.Observe? && op.key in l.reservationIndex && l.reservationIndex[op.key] == id && id in l.reservations
         then amount(l.reservations[id], op.evidence) else 0)
  }

  ghost predicate ApprovesFresh(ops: seq<Operation>) {
    forall i :: 0 <= i < |ops| && ops[i].Approve? ==> Fresh(ops[i].reservation)
  }

  lemma {:induction false} NothingMovesBeforeApproval(ops: seq<Operation>, id: Id, amount: (RiskReservation, Evidence) -> int)
    requires id !in Run(ops).reservations
    ensures Sum(ops, id, amount) == 0
  {
    if ops != [] {
      var before, op := ops[..|ops| - 1], ops[|ops| - 1];
      RunIsConsistent(before);
      match op {
        case Approve(d, r, c) => PersistKeepsConsistent(Run(before), d, r, c);
        case Observe(k, e, now) => ReconcileSettlesOneRow(Run(before), k, e, now);
      }
      NothingMovesBeforeApproval(before, id, amount);
    }
  }

  lemma SettlementConserves(r: RiskReservation, e: Evidence, now: i64)
    ensures Settled(r, e, now).remainingDeltaLots + ReportedFill(r, e) + ReleasedBy(r, e) == r.remainingDeltaLots
    ensures Settled(r, e, now).reservedDeltaLots == r.reservedDeltaLots
  {}

  /** Filled plus remaining plus released lots always equal the reserved lots. */
  lemma {:induction false} LotsAreConserved(ops: seq<Operation>, id: Id)
    requires ApprovesFresh(ops) && id in Run(ops).reservations
    ensures var r := Run(ops).reservations[id];
            Sum(ops, id, ReportedFill) + r.remainingDeltaLots + Sum(ops, id, ReleasedBy) == r.reservedDeltaLots
  {
    var before, op := ops[..|ops| - 1], ops[|ops| - 1];
    var l := Run(before);
    RunIsConsistent(before);
    if id in l.reservations {
      LotsAreConserved(before, id);
    } else {
      NothingMovesBeforeApproval(before, id, ReportedFill);
      NothingMovesBeforeApproval(before, id, ReleasedBy);
    }
    match op
    case Approve(d, r, c) =>
      PersistKeepsConsistent(l, d, r, c);
    case Observe(k, e, now) =>
      ReconcileSettlesOneRow(l, k, e, now);
      if id in l.reservations { SettlementConserves(l.reservations[id], e, now); }
  }

  // ---- split reads and writes ----

  /** A write that some caller decided on from a row it read earlier. The last three fields are history:
      the remaining lots it saw, and the lots that its evidence reports as filled and as released. */
  datatype Intent = Intent(
    id: Id, expected: set<ReservationState>, remaining: i64, state: ReservationState, now: i64,
    seen: int, filled: int, released: int)

  /** The write that a caller decides on for a row. */
  function IntentFor(r: RiskReservation, e: Evidence, now: i64): Intent
    requires Assess(r, e).Write?
  {
    var a := Assess(r, e);
    Intent(r.reservationId, a.expected, a.remaining, a.state, now, r.remainingDeltaLots,
           if e.AuthoritativeFill? then e.lots else if e.RuntimeRemaining? then r.remainingDeltaLots - e.lots else 0,
           if e.ProvenPreDispatchFailure? || e.NoRemainingExposure? || e.BrokerReject? then r.remainingDeltaLots else 0)
  }

  datatype SplitState = SplitState(ledger: Ledger, pending: seq<Intent>)

  datatype SplitStep =
    | Admit(decision: RiskDecision, reservation: RiskReservation, capacity: ReservationCapacity)
    | Read(key: RequestKey, evidence: Evidence, now: i64)
    | Commit(i: nat)
    | Crash(i: nat)

  function Without<T>(s: seq<T>, i: nat): seq<T>
    requires i < |s|
  {
    s[..i] + s[i + 1..]
  }

  ghost function SplitPerform(s: SplitState, step: SplitStep): SplitState {
    match step
    case Admit(d, r, c) => s.(ledger := PersistApproval(s.ledger, d, r, c).0)
    case Read(k, e, now) =>
      var row := ReservationFor(s.ledger, k);
      if row.None? || !Assess(row.value, e).Write? then s
      else s.(pending := s.pending + [IntentFor(row.value, e, now)])
    case Commit(i) =>
      if i >= |s.pending| then s
      else
        var w := s.pending[i];
        SplitState(UpdateReservation(s.ledger, w.id, w.expected, w.remaining, w.state, w.now).0, Without(s.pending, i))
    case Crash(i) => if i >= |s.pending| then s else s.(pending := Without(s.pending, i))
  }

  ghost function SplitRun(s: SplitState, steps: seq<SplitStep>): SplitState {
    if steps == [] then s else SplitPerform(SplitRun(s, steps[..|steps| - 1]), steps[|steps| - 1])
  }

  const START := SplitState(EMPTY, [])

  /** `remaining` stays on the reserved side, within the reserved magnitude, and is zero exactly in the
      two final states. */
  predicate InEnvelope(reserved: int, remaining: int, state: ReservationState) {
    && (remaining == 0 || Sign(remaining) == Sign(reserved))
    && Abs(remaining) <= Abs(reserved)
    && (remaining == 0 <==> !state.Holding())
  }

  predicate RowInEnvelope(r: RiskReservation) { InEnvelope(r.reservedDeltaLots, r.remainingDeltaLots, r.state) }

  /** A pending write never matches a final state, and unless the row is already final its result is in
      the envelope. */
  predicate SoundIntent(l: Ledger, w: Intent) {
    && Consumed !in w.expected && Released !in w.expected
    && (w.id in l.reservations && l.reservations[w.id].state.Holding() ==>
          InEnvelope(l.reservations[w.id].reservedDeltaLots, w.remaining, w.state))
    && w.id in l.reservations
  }

  ghost predicate SplitInvariant(s: SplitState) {
    && Consistent(s.ledger)
    && (forall id :: id in s.ledger.reservations ==> RowInEnvelope(s.ledger.reservations[id]))
    && (forall w :: w in s.pending ==> SoundIntent(s.ledger, w))
  }

  /** Between two states, reserved lots are fixed and a row in a final state is frozen entirely. */
  ghost predicate FinalRowsFrozen(before: Ledger, after: Ledger) {
    forall id :: id in before.reservations ==>
      && id in after.reservations
      && after.reservations[id].reservedDeltaLots == before.reservations[id].reservedDeltaLots
      && (!before.reservations[id].state.Holding() ==> after.reservations[id] == before.reservations[id])
  }

  lemma AssessedWriteIsSound(r: RiskReservation, e: Evidence)
    requires RowInEnvelope(r) && Assess(r, e).Write?
    ensures var a := Assess(r, e);
            && Consumed !in a.expected && Released !in a.expected
            && (r.state.Holding() ==> InEnvelope(r.reservedDeltaLots, a.remaining, a.state))
  {}

  lemma FrozenKeepsIntentsSound(before: Ledger, after: Ledger, w: Intent)
    requires FinalRowsFrozen(before, after) && SoundIntent(before, w)
    ensures SoundIntent(after, w)
  {}

  predicate AdmitsFreshOnly(step: SplitStep) { step.Admit? ==> Fresh(step.reservation) }

  /** What a step does to the stored rows; a read leaves them alone. */
  lemma SplitStepKeepsRows(s: SplitState, step: SplitStep)
    requires SplitInvariant(s) && AdmitsFreshOnly(step)
    ensures var after := SplitPerform(s, step).ledger;
            && Consistent(after)
            && FinalRowsFrozen(s.ledger, after)
            && forall id :: id in after.reservations ==> RowInEnvelope(after.reservations[id])
  {
    match step
    case Admit(d, r, c) => PersistKeepsConsistent(s.ledger, d, r, c);
    case Read(k, e, now) =>
    case Commit(i) =>
      if i < |s.pending| {
        assert s.pending[i] in s.pending;
        CommitKeepsEnvelope(s.ledger, s.pending[i]);
      }
    case Crash(i) =>
  }

  lemma SplitStepKeepsEnvelope(s: SplitState, step: SplitStep)
    requires SplitInvariant(s) && AdmitsFreshOnly(step)
    ensures SplitInvariant(SplitPerform(s, step))
    ensures FinalRowsFrozen(s.ledger, SplitPerform(s, step).ledger)
  {
    var after := SplitPerform(s, step);
    SplitStepKeepsRows(s, step);
    forall w | w in after.pending ensures SoundIntent(after.ledger, w) {
      if w in s.pending {
        FrozenKeepsIntentsSound(s.ledger, after.ledger, w);
      } else {
        AssessedWriteIsSound(ReservationFor(s.ledger, step.key).value, step.evidence);
      }
    }
  }

  lemma CommitKeepsEnvelope(l: Ledger, w: Intent)
    requires Consistent(l) && SoundIntent(l, w)
    requires forall id :: id in l.reservations ==> RowInEnvelope(l.reservations[id])
    ensures var after := UpdateReservation(l, w.id, w.expected, w.remaining, w.state, w.now).0;
            && Consistent(after)
            && FinalRowsFrozen(l, after)
            && forall id :: id in after.reservations ==> RowInEnvelope(after.reservations[id])
  {}

  lemma {:induction false} SplitRunsKeepEnvelope(s: SplitState, steps: seq<SplitStep>)
    requires SplitInvariant(s)
    requires forall i :: 0 <= i < |steps| ==> AdmitsFreshOnly(steps[i])
    ensures SplitInvariant(SplitRun(s, steps))
    ensures FinalRowsFrozen(s.ledger, SplitRun(s, steps).ledger)
  {
    if steps != [] {
      SplitRunsKeepEnvelope(s, steps[..|steps| - 1]);
      SplitStepKeepsEnvelope(SplitRun(s, steps[..|steps| - 1]), steps[|steps| - 1]);
    }
  }

  lemma {:induction false} SplitRunAppends(s: SplitState, steps: seq<SplitStep>, k: nat)
    requires k <= |steps|
    ensures SplitRun(SplitRun(s, steps[..k]), steps[k..]) == SplitRun(s, steps)
  {
    if k == |steps| {
      assert steps[..k] == steps;
    } else {
      var init := steps[..|steps| - 1];
      SplitRunAppends(s, init, k);
      assert init[..k] == steps[..k] && init[k..] == steps[k..][..|steps[k..]| - 1];
    }
  }

  /** However reads and writes of different calls interleave, and wherever callers crash, every row
      stays in the envelope and a row that reached Consumed or Released never changes again. */
  lemma InterleavedCallsKeepEnvelope(steps: seq<SplitStep>, k: nat, id: Id)
    requires k <= |steps|
    requires forall i :: 0 <= i < |steps| ==> AdmitsFreshOnly(steps[i])
    requires id in SplitRun(START, steps[..k]).ledger.reservations
    ensures var early := SplitRun(START, steps[..k]).ledger.reservations[id];
            && id in SplitRun(START, steps).ledger.reservations
            && (var late := SplitRun(START, steps).ledger.reservations[id];
                && RowInEnvelope(early) && RowInEnvelope(late)
                && late.reservedDeltaLots == early.reservedDeltaLots
                && (early.remainingDeltaLots == 0 ==> late == early))
  {
    var middle := SplitRun(START, steps[..k]);
    SplitRunsKeepEnvelope(START, steps[..k]);
    SplitRunsKeepEnvelope(middle, steps[k..]);
    SplitRunAppends(START, steps, k);
  }

  /** Why the stronger results need whole calls: a write that was decided before a fill and lands after it
      puts the filled lots back. */
  lemma StaleWriteUndoesFill(l: Ledger, k: RequestKey, filled: i64, now: i64)
    requires Consistent(l) && ReservationFor(l, k).Some? && ReservationFor(l, k).value.state.Active?
    requires var r := ReservationFor(l, k).value; Assess(r, AuthoritativeFill(filled)).Write? && filled != r.remainingDeltaLots
    ensures var r := ReservationFor(l, k).value;
            var s0 := SplitState(l, []);
            var s1 := SplitPerform(s0, Read(k, UnknownAfterDispatch, now));
            var s2 := SplitPerform(s1, Read(k, AuthoritativeFill(filled), now));
            var s3 := SplitPerform(s2, Commit(1));
            var s4 := SplitPerform(s3, Commit(0));
            && s3.ledger.reservations[r.reservationId].remainingDeltaLots == r.remainingDeltaLots - filled
            && s4.ledger.reservations[r.reservationId].remainingDeltaLots == r.remainingDeltaLots
            && s4.ledger.reservations[r.reservationId].state.UnknownHeld?
  {
    var r := ReservationFor(l, k).value;
    var s1 := SplitPerform(SplitState(l, []), Read(k, UnknownAfterDispatch, now));
    var hold := Intent(r.reservationId, OPEN, r.remainingDeltaLots, UnknownHeld, now, r.remainingDeltaLots, 0, 0);
    assert s1 == SplitState(l, [hold]);
    var s2 := SplitPerform(s1, Read(k, AuthoritativeFill(filled), now));
    var fill := Intent(r.reservationId, FILLABLE, r.remainingDeltaLots - filled, PartiallyConsumed, now,
                       r.remainingDeltaLots, filled, 0);
    assert s2 == SplitState(l, [hold, fill]);
    assert Without([hold, fill], 1) == [hold];
  }
}
