/** How broker evidence moves a reservation. `Assess` is what a reconciler call decides from the row
    it read; the write it asks for is a separate transaction that re-checks only the state. */
module Reconciliation {
  import opened Machine
  import opened RiskModel
  import opened RiskLedger

  datatype Evidence =
    | ProvenPreDispatchFailure
    | UnknownAfterDispatch
    | AuthoritativeFill(lots: i64)
    | NoRemainingExposure
    | OrphanFailClosed
    | DispatchAcknowledged
    | BrokerReject
    | RuntimeRemaining(lots: i64)

  datatype ReconcileError =
    | NotFound
    | InvalidFill
    | FillDirectionMismatch
    | FillExceedsReservation
    | TerminalReservation
    | QuantityOverflow
    | Store(error: StoreError)

  datatype Assessment =
    | Keep
    | Refused(error: ReconcileError)
    | Write(expected: set<ReservationState>, remaining: i64, state: ReservationState)

  predicate Fillable(state: ReservationState) { state.Active? || state.PartiallyConsumed? || state.UnknownHeld? }

  const OPEN: set<ReservationState> := {ReservationState.Active, PartiallyConsumed}

  const FILLABLE: set<ReservationState> := {ReservationState.Active, PartiallyConsumed, UnknownHeld}

  const HOLDING: set<ReservationState> := {ReservationState.Active, PartiallyConsumed, UnknownHeld, Orphaned}

  function AfterFill(remaining: i64): ReservationState { if remaining == 0 then Consumed else PartiallyConsumed }

  function AssessFill(r: RiskReservation, filled: i64): Assessment {
    var remaining := r.remainingDeltaLots - filled;
    if filled == 0 then Refused(InvalidFill)
    else if !Fillable(r.state) then Refused(TerminalReservation)
    else if Sign(r.remainingDeltaLots) != Sign(filled) then Refused(FillDirectionMismatch)
    else if Abs(filled) > Abs(r.remainingDeltaLots) then Refused(FillExceedsReservation)
    else if !FitsI64(remaining) then Refused(QuantityOverflow)
    else Write(FILLABLE, remaining, AfterFill(remaining))
  }

  function AssessRuntime(r: RiskReservation, remaining: i64): Assessment {
    if !Fillable(r.state) then Refused(TerminalReservation)
    else if r.remainingDeltaLots == 0 then Refused(InvalidFill)
    else if remaining != 0 && Sign(remaining) != Sign(r.remainingDeltaLots) then Refused(FillDirectionMismatch)
    else if Abs(remaining) > I64_MAX || Abs(r.remainingDeltaLots) > I64_MAX then Refused(QuantityOverflow)
    else if Abs(remaining) > Abs(r.remainingDeltaLots) then Refused(FillExceedsReservation)
    else Write(FILLABLE, remaining, AfterFill(remaining))
  }

  function Assess(r: RiskReservation, e: Evidence): Assessment {
    match e
    case ProvenPreDispatchFailure => Write({ReservationState.Active}, 0, Released)
    case UnknownAfterDispatch =>
      if r.state.UnknownHeld? then Keep else Write(OPEN, r.remainingDeltaLots, UnknownHeld)
    case AuthoritativeFill(lots) => AssessFill(r, lots)
    case NoRemainingExposure =>
      if !r.state.Holding() then Keep else Write(HOLDING, 0, Released)
    case OrphanFailClosed =>
      if r.state.Orphaned? then Keep else Write(OPEN, r.remainingDeltaLots, Orphaned)
    case DispatchAcknowledged => if Fillable(r.state) then Keep else Refused(TerminalReservation)
    case BrokerReject =>
      if !r.state.Holding() then Keep else Write(HOLDING, 0, Released)
    case RuntimeRemaining(lots) => AssessRuntime(r, lots)
  }

  /** One reconciler call taken as a single step. */
  function Reconcile(l: Ledger, k: RequestKey, e: Evidence, now: i64)
    : (Ledger, Result<RiskReservation, ReconcileError>)
  {
    var row := ReservationFor(l, k);
    if e.AuthoritativeFill? && e.lots == 0 then (l, Err(InvalidFill))
    else if row.None? then (l, Err(NotFound))
    else match Assess(row.value, e)
      case Keep => (l, Ok(row.value))
      case Refused(error) => (l, Err(error))
      case Write(expected, remaining, state) =>
        var (after, result) := UpdateReservation(l, row.value.reservationId, expected, remaining, state, now);
        (after, if result.Ok? then Ok(result.value) else Err(Store(result.error)))
  }

  /** The row that a call leaves behind when it is one step: the one it read, or its write applied. */
  function Settled(r: RiskReservation, e: Evidence, now: i64): RiskReservation {
    match Assess(r, e)
    case Write(expected, remaining, state) =>
      if r.state in expected then r.(remainingDeltaLots := remaining, state := state, updatedAt := now) else r
    case _ => r
  }

  lemma SettledRowOnlyShrinks(r: RiskReservation, e: Evidence, now: i64)
    ensures RowOnlyShrinks(r, Settled(r, e, now))
    ensures ReservationKey(Settled(r, e, now)) == ReservationKey(r)
  {}

  /** A call that is one step touches the row of its request only, and settles it. */
  lemma ReconcileSettlesOneRow(l: Ledger, k: RequestKey, e: Evidence, now: i64)
    requires Consistent(l)
    ensures var after := Reconcile(l, k, e, now).0;
            after == (if k in l.reservationIndex
                      then var id := l.reservationIndex[k];
                           l.(reservations := l.reservations[id := Settled(l.reservations[id], e, now)])
                      else l)
  {
    if k in l.reservationIndex {
      var id := l.reservationIndex[k];
      assert l.reservations[id := l.reservations[id]] == l.reservations;
    }
  }

  lemma ReconcileOnlyShrinks(l: Ledger, k: RequestKey, e: Evidence, now: i64)
    requires Consistent(l)
    ensures var after := Reconcile(l, k, e, now).0;
            Consistent(after) && RowsOnlyShrink(l.reservations, after.reservations)
  {
    ReconcileSettlesOneRow(l, k, e, now);
    if k in l.reservationIndex {
      SettledRowOnlyShrinks(l.reservations[l.reservationIndex[k]], e, now);
    }
  }
}
