/** What a reconciliation pass that returns Ok leaves behind, in whatever order it visits the rows. */
module PassGuarantees {
  import opened Machine
  import opened RiskModel
  import opened RiskLedger
  import opened Reconciliation
  import opened Admission
  import opened ReportReading

  ghost predicate Holds(l: Ledger, account: Id, q: Id) {
    var row := ReservationFor(l, RequestKey(account, q));
    row.Some? && row.value.state.Holding()
  }

  /** The request's first open order is readable and has lots left. */
  ghost predicate OpenWithLots(report: Report, q: Id) {
    exists i :: FirstOf(report.activeOrders, q, i) && Readable(report.activeOrders[i])
                && report.activeOrders[i].lotsExecuted < report.activeOrders[i].lotsRequested
  }

  /** The row of a request once the report has been applied to it. */
  ghost predicate SettledByReport(before: RiskReservation, after: RiskReservation, report: Report) {
    var q := before.logicalRequestId;
    && Terms(after) == Terms(before)
    && (after.state.Holding() <==> q in report.unresolved || OpenWithLots(report, q))
    && (q in report.unresolved ==>
          after.state.UnknownHeld? && after.remainingDeltaLots == before.remainingDeltaLots)
    && (q !in report.unresolved && OpenWithLots(report, q) ==>
          && after.state.PartiallyConsumed? && after.updatedAt == report.completedAt
          && forall i :: FirstOf(report.activeOrders, q, i) ==> after.remainingDeltaLots == Left(report.activeOrders[i]))
    && (!after.state.Holding() ==> after.remainingDeltaLots == 0)
  }

  /** What the evidence of a report is, in the columns of its orders. */
  lemma EvidenceIsReported(report: Report, q: Id)
    ensures match ReportedEvidence(report, q)
            case Some(UnknownAfterDispatch) => q in report.unresolved
            case Some(NoRemainingExposure) =>
              q !in report.unresolved
              && forall i :: 0 <= i < |report.activeOrders| ==> !CarriesRequest(report.activeOrders[i], q)
            case Some(RuntimeRemaining(lots)) =>
              && q !in report.unresolved && (lots != 0 <==> OpenWithLots(report, q))
              && exists i :: FirstOf(report.activeOrders, q, i) && Readable(report.activeOrders[i]) && lots == Left(report.activeOrders[i])
            case None =>
              q !in report.unresolved && exists i :: FirstOf(report.activeOrders, q, i) && !Readable(report.activeOrders[i])
            case _ => false
  {
    OrderOfExactly(report, q);
    if q !in report.unresolved && OrderOf(report, q).Some? {
      var i :| FirstOf(report.activeOrders, q, i) && report.activeOrders[i] == OrderOf(report, q).value;
      SignedRemainingExactly(report.activeOrders[i]);
    }
  }

  lemma NoneCarriesNoneOpen(report: Report, q: Id)
    requires forall i :: 0 <= i < |report.activeOrders| ==> !CarriesRequest(report.activeOrders[i], q)
    ensures !OpenWithLots(report, q)
  {}

  lemma ReportSettlesHoldingRow(l: Ledger, account: Id, q: Id, report: Report)
    requires Consistent(l) && Holds(l, account, q)
    requires ReconcileRequest(l, account, q, report).1
    ensures var after := ReconcileRequest(l, account, q, report).0;
            var row := ReservationFor(l, RequestKey(account, q)).value;
            && row.reservationId in after.reservations
            && SettledByReport(row, after.reservations[row.reservationId], report)
  {
    var row := ReservationFor(l, RequestKey(account, q)).value;
    var e := ReportedEvidence(report, q).value;
    ReconcileSettlesOneRow(l, RequestKey(account, q), e, report.completedAt);
    EvidenceIsReported(report, q);
    OrderOfExactly(report, q);
    if e.NoRemainingExposure? { NoneCarriesNoneOpen(report, q); }
    assert Settled(row, e, report.completedAt).state.Holding() <==> q in report.unresolved || OpenWithLots(report, q);
  }

  lemma ReconcileRequestTouchesOneRow(l: Ledger, account: Id, q: Id, report: Report)
    requires Consistent(l)
    ensures var after := ReconcileRequest(l, account, q, report).0;
            && Consistent(after)
            && after == l.(reservations := after.reservations)
            && after.reservations.Keys == l.reservations.Keys
            && forall id :: id in l.reservations && ReservationKey(l.reservations[id]) != RequestKey(account, q)
                 ==> after.reservations[id] == l.reservations[id]
  {
    var e := ReportedEvidence(report, q);
    if e.Some? {
      ReconcileOnlyShrinks(l, RequestKey(account, q), e.value, report.completedAt);
      ReconcileSettlesOneRow(l, RequestKey(account, q), e.value, report.completedAt);
    }
  }

  /** Rows of the listed requests are settled by the report, all others are as before. */
  ghost predicate PassApplied(before: Ledger, after: Ledger, account: Id, requests: seq<Id>, report: Report) {
    && Consistent(after)
    && after == before.(reservations := after.reservations)
    && after.reservations.Keys == before.reservations.Keys
    && forall id :: id in before.reservations ==>
         var r := before.reservations[id];
         if r.accountId == account && r.logicalRequestId in requests
         then SettledByReport(r, after.reservations[id], report)
         else after.reservations[id] == r
  }

  lemma PassStepSettlesNextRow(l: Ledger, middle: Ledger, account: Id, done: seq<Id>, q: Id, report: Report)
    requires Consistent(l) && PassApplied(l, middle, account, done, report)
    requires q !in done && Holds(l, account, q) && ReconcileRequest(middle, account, q, report).1
    ensures PassApplied(l, ReconcileRequest(middle, account, q, report).0, account, done + [q], report)
  {
    var after := ReconcileRequest(middle, account, q, report).0;
    var row := ReservationFor(l, RequestKey(account, q)).value;
    assert middle.reservations[row.reservationId] == row;
    ReconcileRequestTouchesOneRow(middle, account, q, report);
    ReportSettlesHoldingRow(middle, account, q, report);
    forall id | id in l.reservations
      ensures var r := l.reservations[id];
              if r.accountId == account && r.logicalRequestId in done + [q]
              then SettledByReport(r, after.reservations[id], report) else after.reservations[id] == r
    {
      if id != row.reservationId {
        assert ReservationKey(l.reservations[id]) != RequestKey(account, q);
        assert Terms(middle.reservations[id]) == Terms(l.reservations[id]);
        assert after.reservations[id] == middle.reservations[id];
      }
    }
  }

  lemma NextRowIsSettled(l: Ledger, middle: Ledger, account: Id, done: seq<Id>, q: Id, longer: seq<Id>, report: Report)
    requires Consistent(l) && PassApplied(l, middle, account, done, report) && longer == done + [q]
    requires q !in done && Holds(l, account, q) && ReconcileRequest(middle, account, q, report).1
    ensures PassApplied(l, ReconcileRequest(middle, account, q, report).0, account, longer, report)
  {
    PassStepSettlesNextRow(l, middle, account, done, q, report);
  }

  ghost predicate AllHold(l: Ledger, account: Id, requests: seq<Id>) {
    && (forall i, j :: 0 <= i < j < |requests| ==> requests[i] != requests[j])
    && (forall q :: q in requests ==> Holds(l, account, q))
  }

  lemma ShorterListHolds(l: Ledger, account: Id, requests: seq<Id>)
    requires requests != [] && AllHold(l, account, requests)
    ensures var init, q := requests[..|requests| - 1], requests[|requests| - 1];
            AllHold(l, account, init) && Holds(l, account, q) && q !in init && requests == init + [q]
  {
    assert requests[|requests| - 1] in requests;
  }

  lemma {:induction false} PassSettlesListedRows(l: Ledger, account: Id, requests: seq<Id>, report: Report)
    requires Consistent(l) && AllHold(l, account, requests) && ReconcilePass(l, account, requests, report).1
    ensures PassApplied(l, ReconcilePass(l, account, requests, report).0, account, requests, report)
  {
    if requests != [] {
      var init, q := requests[..|requests| - 1], requests[|requests| - 1];
      ShorterListHolds(l, account, requests);
      PassSettlesListedRows(l, account, init, report);
      NextRowIsSettled(l, ReconcilePass(l, account, init, report).0, account, init, q, requests, report);
    }
  }

  /** After a pass that returns Ok, a reservation that held capacity still holds exactly when its request
      is unresolved or its first open order has lots left; in the latter case its remaining lots are the
      broker's. Nothing else moved, whatever order the rows were visited in. */
  lemma PassSettlesEveryHoldingRow(a: Adapter, requests: seq<Id>, report: Report)
    requires Consistent(a.ledger) && ListsHolding(a.ledger, a.accountId, requests)
    requires ReconcileReport(a, requests, report).1.Ok?
    ensures var after := ReconcileReport(a, requests, report).0;
            && after == a.(ledger := after.ledger, snapshot := Some(report))
            && after.ledger == a.ledger.(reservations := after.ledger.reservations)
            && after.ledger.reservations.Keys == a.ledger.reservations.Keys
            && forall id :: id in a.ledger.reservations ==>
                 var r := a.ledger.reservations[id];
                 if r.accountId == a.accountId && r.state.Holding()
                 then SettledByReport(r, after.ledger.reservations[id], report)
                 else after.ledger.reservations[id] == r
  {
    PassSettlesListedRows(a.ledger, a.accountId, requests, report);
    forall id | id in a.ledger.reservations && a.ledger.reservations[id].accountId == a.accountId
      ensures a.ledger.reservations[id].logicalRequestId in requests <==> a.ledger.reservations[id].state.Holding()
    {
      assert ReservationFor(a.ledger, RequestKey(a.accountId, a.ledger.reservations[id].logicalRequestId))
          == Some(a.ledger.reservations[id]);
    }
  }

  // ---- repeating a report ----

  /** A row that the report has settled and that still holds: applying the report again rewrites it as it is. */
  lemma SettledRowIsStable(before: RiskReservation, after: RiskReservation, report: Report)
    requires SettledByReport(before, after, report) && after.state.Holding()
    ensures var e := ReportedEvidence(report, after.logicalRequestId);
            e.Some? && Settled(after, e.value, report.completedAt) == after
            && (Assess(after, e.value).Keep? || (Assess(after, e.value).Write? && after.state in Assess(after, e.value).expected))
  {
    assert Terms(after).logicalRequestId == Terms(before).logicalRequestId;
    var q := before.logicalRequestId;
    EvidenceIsReported(report, q);
    OrderOfExactly(report, q);
    if q !in report.unresolved {
      var i :| FirstOf(report.activeOrders, q, i) && Readable(report.activeOrders[i])
               && report.activeOrders[i].lotsExecuted < report.activeOrders[i].lotsRequested;
      SignedRemainingExactly(report.activeOrders[i]);
    }
  }

  /** The row of a request is as an earlier application of the report left it. */
  ghost predicate AlreadySettled(l: Ledger, account: Id, q: Id, report: Report) {
    Holds(l, account, q)
    && exists before :: SettledByReport(before, ReservationFor(l, RequestKey(account, q)).value, report)
  }

  lemma RepeatedRequestChangesNothing(l: Ledger, account: Id, q: Id, report: Report)
    requires Consistent(l) && AlreadySettled(l, account, q, report)
    ensures ReconcileRequest(l, account, q, report) == (l, true)
  {
    var row := ReservationFor(l, RequestKey(account, q)).value;
    var before :| SettledByReport(before, row, report);
    SettledRowIsStable(before, row, report);
    ReconcileSettlesOneRow(l, RequestKey(account, q), ReportedEvidence(report, q).value, report.completedAt);
    assert l.reservations[row.reservationId := row] == l.reservations;
  }

  lemma {:induction false} RepeatedPassChangesNothing(l: Ledger, account: Id, requests: seq<Id>, report: Report)
    requires Consistent(l)
    requires forall q :: q in requests ==> AlreadySettled(l, account, q, report)
    ensures ReconcilePass(l, account, requests, report) == (l, true)
  {
    if requests != [] {
      var init, q := requests[..|requests| - 1], requests[|requests| - 1];
      assert q in requests && forall p :: p in init ==> p in requests;
      RepeatedPassChangesNothing(l, account, init, report);
      RepeatedRequestChangesNothing(l, account, q, report);
    }
  }

  /** Applying the same report a second time succeeds and leaves the adapter exactly as it is. */
  lemma RepeatedReportChangesNothing(a: Adapter, first: seq<Id>, second: seq<Id>, report: Report)
    requires Consistent(a.ledger) && ListsHolding(a.ledger, a.accountId, first)
    requires ReconcileReport(a, first, report).1.Ok?
    requires ListsHolding(ReconcileReport(a, first, report).0.ledger, a.accountId, second)
    ensures var once := ReconcileReport(a, first, report).0;
            ReconcileReport(once, second, report) == (once, Ok(()))
  {
    PassSettlesListedRows(a.ledger, a.accountId, first, report);
    PassSettlesEveryHoldingRow(a, first, report);
    var once := ReconcileReport(a, first, report).0;
    forall q | q in second ensures AlreadySettled(once.ledger, a.accountId, q, report) {
      var row := ReservationFor(once.ledger, RequestKey(a.accountId, q)).value;
      assert once.ledger.reservations[row.reservationId] == row && row.accountId == a.accountId;
      var before := a.ledger.reservations[row.reservationId];
      assert SettledByReport(before, row, report) || row == before;
      assert Terms(before) == Terms(row);
      assert SettledByReport(before, row, report);
    }
    RepeatedPassChangesNothing(once.ledger, a.accountId, second, report);
  }
}
