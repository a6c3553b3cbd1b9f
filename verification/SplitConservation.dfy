/** Conservation of lots when the read and the write of a reconciler call are split: exactly the writes
    that land on the quantity they were decided on keep the balance. */
module SplitConservation {
  import opened Machine
  import opened RiskModel
  import opened RiskLedger
  import opened Reconciliation
  import opened ReservationRuns

  /** The write accounts for every lot that its caller saw. */
  predicate Accounted(w: Intent) { w.remaining + w.filled + w.released == w.seen }

  lemma DecidedWritesAreAccounted(r: RiskReservation, e: Evidence, now: i64)
    requires Assess(r, e).Write?
    ensures Accounted(IntentFor(r, e, now))
  {}

  /** The write goes through: its row is still in a state that the caller allowed. */
  predicate Lands(l: Ledger, w: Intent) { w.id in l.reservations && l.reservations[w.id].state in w.expected }

  /** The row still has the remaining lots that the caller saw. */
  predicate OnTime(l: Ledger, w: Intent) { Lands(l, w) ==> l.reservations[w.id].remainingDeltaLots == w.seen }

  /** A write decided on row `r` that lands on a balanced row keeps reported plus remaining plus released
      equal to reserved if and only if the row has the remaining lots that were seen. */
  lemma LandingConservesExactly(l: Ledger, r: RiskReservation, e: Evidence, now: i64, reported: int, released: int)
    requires Assess(r, e).Write? && Lands(l, IntentFor(r, e, now))
    requires var q := l.reservations[r.reservationId]; reported + q.remainingDeltaLots + released == q.reservedDeltaLots
    ensures var w := IntentFor(r, e, now);
            var after := UpdateReservation(l, w.id, w.expected, w.remaining, w.state, w.now).0.reservations[r.reservationId];
            reported + w.filled + after.remainingDeltaLots + released + w.released == after.reservedDeltaLots
            <==> l.reservations[r.reservationId].remainingDeltaLots == r.remainingDeltaLots
  {
    DecidedWritesAreAccounted(r, e, now);
  }

  // ---- whole runs ----

  /** What a step books for a row: the amount of the write that it lands. */
  ghost function Booked(s: SplitState, step: SplitStep, id: Id, amount: Intent -> int): int {
    if step.Commit? && step.i < |s.pending| && s.pending[step.i].id == id && Lands(s.ledger, s.pending[step.i])
    then amount(s.pending[step.i]) else 0
  }

  ghost function Books(steps: seq<SplitStep>, id: Id, amount: Intent -> int): int {
    if steps == [] then 0
    else
      var init := steps[..|steps| - 1];
      Books(init, id, amount) + Booked(SplitRun(START, init), steps[|steps| - 1], id, amount)
  }

  function FilledIn(w: Intent): int { w.filled }

  function ReleasedIn(w: Intent): int { w.released }

  predicate CommitsOnTime(s: SplitState, step: SplitStep) {
    step.Commit? && step.i < |s.pending| ==> OnTime(s.ledger, s.pending[step.i])
  }

  ghost predicate AllOnTime(steps: seq<SplitStep>) {
    forall n :: 0 <= n < |steps| ==> CommitsOnTime(SplitRun(START, steps[..n]), steps[n])
  }

  ghost predicate PendingAccounted(s: SplitState) { forall w :: w in s.pending ==> Accounted(w) && w.id in s.ledger.reservations }

  lemma StepKeepsAccounted(s: SplitState, step: SplitStep)
    requires SplitInvariant(s) && AdmitsFreshOnly(step) && PendingAccounted(s)
    ensures PendingAccounted(SplitPerform(s, step))
  {
    SplitStepKeepsRows(s, step);
    var after := SplitPerform(s, step);
    forall w | w in after.pending ensures Accounted(w) && w.id in after.ledger.reservations {
      if w !in s.pending { DecidedWritesAreAccounted(ReservationFor(s.ledger, step.key).value, step.evidence, step.now); }
    }
  }

  lemma {:induction false} RunsKeepAccounted(steps: seq<SplitStep>)
    requires forall i :: 0 <= i < |steps| ==> AdmitsFreshOnly(steps[i])
    ensures SplitInvariant(SplitRun(START, steps)) && PendingAccounted(SplitRun(START, steps))
  {
    SplitRunsKeepEnvelope(START, steps);
    if steps != [] {
      var init := steps[..|steps| - 1];
      RunsKeepAccounted(init);
      StepKeepsAccounted(SplitRun(START, init), steps[|steps| - 1]);
    }
  }

  lemma {:induction false} NothingBookedBeforeApproval(steps: seq<SplitStep>, id: Id, amount: Intent -> int)
    requires forall i :: 0 <= i < |steps| ==> AdmitsFreshOnly(steps[i])
    requires id !in SplitRun(START, steps).ledger.reservations
    ensures Books(steps, id, amount) == 0
  {
    if steps != [] {
      var init := steps[..|steps| - 1];
      RunsKeepAccounted(init);
      SplitStepKeepsRows(SplitRun(START, init), steps[|steps| - 1]);
      NothingBookedBeforeApproval(init, id, amount);
    }
  }

  /** The balance of a row, zero before it exists. */
  predicate Balanced(l: Ledger, id: Id, filled: int, released: int) {
    if id in l.reservations
    then filled + l.reservations[id].remainingDeltaLots + released == l.reservations[id].reservedDeltaLots
    else filled == released == 0
  }

  lemma ApprovalConserves(l: Ledger, d: RiskDecision, r: RiskReservation, c: ReservationCapacity, id: Id, filled: int, released: int)
    requires Consistent(l) && r.remainingDeltaLots == r.reservedDeltaLots && Balanced(l, id, filled, released)
    ensures Balanced(PersistApproval(l, d, r, c).0, id, filled, released)
  {
    PersistKeepsConsistent(l, d, r, c);
  }

  lemma LandingConserves(l: Ledger, w: Intent, id: Id, filled: int, released: int)
    requires Accounted(w) && OnTime(l, w) && Balanced(l, id, filled, released)
    ensures var booked := w.id == id && Lands(l, w);
            Balanced(UpdateReservation(l, w.id, w.expected, w.remaining, w.state, w.now).0, id,
                     filled + (if booked then w.filled else 0), released + (if booked then w.released else 0))
  {}

  /** One step: a row that was balanced stays balanced, and a new row starts balanced. */
  lemma StepConserves(s: SplitState, step: SplitStep, id: Id, filled: int, released: int)
    requires SplitInvariant(s) && PendingAccounted(s) && AdmitsFreshOnly(step) && CommitsOnTime(s, step)
    requires Balanced(s.ledger, id, filled, released)
    ensures Balanced(SplitPerform(s, step).ledger, id, filled + Booked(s, step, id, FilledIn), released + Booked(s, step, id, ReleasedIn))
  {
    match step {
      case Admit(d, r, c) => ApprovalConserves(s.ledger, d, r, c, id, filled, released);
      case Commit(i) =>
        if i < |s.pending| {
          assert s.pending[i] in s.pending;
          LandingConserves(s.ledger, s.pending[i], id, filled, released);
        }
      case _ =>
    }
  }

  /** Split runs conserve lots as long as every write that lands is on time. */
  lemma {:induction false} OnTimeRunsConserveLots(steps: seq<SplitStep>, id: Id)
    requires AllOnTime(steps) && forall i :: 0 <= i < |steps| ==> AdmitsFreshOnly(steps[i])
    requires id in SplitRun(START, steps).ledger.reservations
    ensures var r := SplitRun(START, steps).ledger.reservations[id];
            Books(steps, id, FilledIn) + r.remainingDeltaLots + Books(steps, id, ReleasedIn) == r.reservedDeltaLots
  {
    var init, last := steps[..|steps| - 1], steps[|steps| - 1];
    var s := SplitRun(START, init);
    assert AllOnTime(init) by { assert forall n :: 0 <= n < |init| ==> init[..n] == steps[..n]; }
    assert CommitsOnTime(s, last);
    RunsKeepAccounted(init);
    if id in s.ledger.reservations {
      OnTimeRunsConserveLots(init, id);
    } else {
      NothingBookedBeforeApproval(init, id, FilledIn);
      NothingBookedBeforeApproval(init, id, ReleasedIn);
    }
    StepConserves(s, last, id, Books(init, id, FilledIn), Books(init, id, ReleasedIn));
  }
}
