/** The state machine of a reservation, stated on the row and the evidence alone: which evidence is taken,
    what it leaves of the row, and which error the rest gets. */
module ReservationTransitions {
  import opened Machine
  import opened RiskModel
  import opened RiskLedger
  import opened Reconciliation

  /** Dispatched or about to be, and not yet given up. */
  predicate InFlight(r: RiskReservation) { r.state.Active? || r.state == PartiallyConsumed || r.state == UnknownHeld }

  predicate Final(r: RiskReservation) { r.state == Consumed || r.state == Released }

  /** `lots` lies between nothing and all of what remains. */
  predicate PartOf(lots: int, remaining: int) { 0 <= lots <= remaining || remaining <= lots <= 0 }

  predicate Taken(r: RiskReservation, e: Evidence) {
    match e
    case ProvenPreDispatchFailure => r.state.Active?
    case UnknownAfterDispatch => InFlight(r)
    case OrphanFailClosed => r.state.Active? || r.state == PartiallyConsumed || r.state == Orphaned
    case NoRemainingExposure => true
    case BrokerReject => true
    case DispatchAcknowledged => InFlight(r)
    case AuthoritativeFill(lots) => InFlight(r) && lots != 0 && PartOf(lots, r.remainingDeltaLots)
    case RuntimeRemaining(lots) =>
      InFlight(r) && r.remainingDeltaLots != 0 && r.remainingDeltaLots != I64_MIN && PartOf(lots, r.remainingDeltaLots)
  }

  /** The row after evidence that is taken. */
  function Moved(r: RiskReservation, e: Evidence, now: i64): RiskReservation
    requires Taken(r, e)
  {
    match e
    case DispatchAcknowledged => r
    case UnknownAfterDispatch => if r.state == UnknownHeld then r else r.(state := UnknownHeld, updatedAt := now)
    case OrphanFailClosed => if r.state == Orphaned then r else r.(state := Orphaned, updatedAt := now)
    case AuthoritativeFill(lots) => Reduced(r, r.remainingDeltaLots - lots, now)
    case RuntimeRemaining(lots) => Reduced(r, lots, now)
    case _ => if Final(r) then r else r.(remainingDeltaLots := 0, state := Released, updatedAt := now)
  }

  /** A row with less left; with nothing left it is consumed. */
  function Reduced(r: RiskReservation, left: i64, now: i64): RiskReservation {
    r.(remainingDeltaLots := left, state := if left == 0 then Consumed else PartiallyConsumed, updatedAt := now)
  }

  /** Evidence moves a row as above, or leaves it exactly as it is. */
  lemma EvidenceMovesExactly(r: RiskReservation, e: Evidence, now: i64)
    ensures Settled(r, e, now) == if Taken(r, e) then Moved(r, e, now) else r
  {}

  /** Why evidence is refused. */
  predicate Explains(error: ReconcileError, r: RiskReservation, e: Evidence) {
    match e
    case AuthoritativeFill(lots) =>
      if lots == 0 then error == InvalidFill
      else if !InFlight(r) then error == TerminalReservation
      else if Sign(lots) != Sign(r.remainingDeltaLots) then error == FillDirectionMismatch
      else error == FillExceedsReservation && Abs(lots) > Abs(r.remainingDeltaLots)
    case RuntimeRemaining(lots) =>
      if !InFlight(r) then error == TerminalReservation
      else if r.remainingDeltaLots == 0 then error == InvalidFill
      else if lots != 0 && Sign(lots) != Sign(r.remainingDeltaLots) then error == FillDirectionMismatch
      else if r.remainingDeltaLots == I64_MIN || lots == I64_MIN then error == QuantityOverflow
      else error == FillExceedsReservation && Abs(lots) > Abs(r.remainingDeltaLots)
    case DispatchAcknowledged => error == TerminalReservation
    case _ => error == Store(InvalidTransition)
  }

  /** What a call makes of the row it read. */
  lemma AssessedExactly(r: RiskReservation, e: Evidence)
    ensures match Assess(r, e)
            case Keep => Taken(r, e)
            case Refused(error) => !Taken(r, e) && Explains(error, r, e)
            case Write(expected, _, _) =>
              (r.state in expected <==> Taken(r, e)) && (Taken(r, e) || Explains(Store(InvalidTransition), r, e))
  {}

  lemma RowAnswersExactly(l: Ledger, k: RequestKey, r: RiskReservation, e: Evidence, now: i64)
    requires ReservationFor(l, k) == Some(r) && r.reservationId in l.reservations && l.reservations[r.reservationId] == r
    ensures var result := Reconcile(l, k, e, now).1;
            if Taken(r, e) then result == Ok(Settled(r, e, now)) else result.Err? && Explains(result.error, r, e)
  {
    AssessedExactly(r, e);
  }

  /** A call succeeds exactly when its request has a row that takes the evidence, and answers with the row as it
      then is; otherwise it says why and changes nothing. */
  lemma CallsAnswerExactly(l: Ledger, k: RequestKey, e: Evidence, now: i64)
    requires Consistent(l)
    ensures var (after, result) := Reconcile(l, k, e, now);
            if k !in l.reservationIndex then after == l && result == Err(if e == AuthoritativeFill(0) then InvalidFill else NotFound)
            else
              var r := l.reservations[l.reservationIndex[k]];
              if Taken(r, e)
              then result == Ok(Moved(r, e, now)) && after.reservations == l.reservations[r.reservationId := Moved(r, e, now)]
              else after == l && result.Err? && Explains(result.error, r, e)
  {
    ReconcileSettlesOneRow(l, k, e, now);
    if k in l.reservationIndex {
      var r := l.reservations[l.reservationIndex[k]];
      EvidenceMovesExactly(r, e, now);
      RowAnswersExactly(l, k, r, e, now);
      assert l.reservations[r.reservationId := r] == l.reservations;
    }
  }
}
