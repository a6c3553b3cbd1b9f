/** The production adapter as an object: it owns the snapshot and the instrument cache and works on a
    shared risk store. Each method is proved to perform the admission function of the same name. */
module ProductionRisk {
  import opened Machine
  import opened RiskModel
  import opened RiskEngine
  import opened RiskLedger
  import opened RiskStore
  import opened Admission
  import opened ReportReading
  import DispatchChecks

  class ProductionRiskAdapter {
    const accountId: Id
    const connectionId: Id
    const store: SqliteRiskStore
    var snapshot: Option<Report>
    var instrumentCache: map<Id, i64>

    function View(): Adapter
      reads this, store
    {
      Adapter(accountId, connectionId, store.View(), snapshot, instrumentCache)
    }

    constructor (accountId: Id, connectionId: Id, store: SqliteRiskStore)
      ensures View() == Adapter(accountId, connectionId, old(store.View()), None, map[])
    {
      this.accountId, this.connectionId, this.store := accountId, connectionId, store;
      snapshot, instrumentCache := None, map[];
    }

    /** The stored policy; a missing one is created in its fail-closed form. */
    method Policy(now: i64) returns (r: Result<RiskPolicySet, AdmissionError>)
      modifies store
      ensures (store.View(), r) == CurrentPolicy(old(store.View()), accountId, now)
    {
      if accountId in store.policies { return Ok(store.policies[accountId]); }
      var stored := store.PutPolicy(accountId, None, INITIAL_POLICY, "initialize fail-closed account policy", now);
      return if stored.Ok? then Ok(stored.value) else Err(Unavailable);
    }

    method CurrentUnits(report: Report, instrument: Id) returns (r: Option<i64>)
      ensures r == CheckedSum(0, PositionUnits(report.positions, instrument))
      ensures r == if UnitsFit(0, report.positions, instrument) then Some(UnitsOf(report.positions, instrument)) else None
    {
      UnitsAreSummed(0, report.positions, instrument);
      var total: int, rest := 0, report.positions;
      while rest != []
        invariant FitsI64(total)
        invariant CheckedSum(0, PositionUnits(report.positions, instrument)) == CheckedSum(total, PositionUnits(rest, instrument))
        decreases |rest|
      {
        if rest[0].instrumentId == instrument {
          assert PositionUnits(rest, instrument)[1..] == PositionUnits(rest[1..], instrument);
          if !FitsI64(total + rest[0].units) { return None; }
          total := total + rest[0].units;
        } else {
          assert PositionUnits(rest, instrument) == PositionUnits(rest[1..], instrument);
        }
        rest := rest[1..];
      }
      return Some(total);
    }

    method OpenOrderDelta(report: Report, instrument: Id, replaced: Option<Id>) returns (r: Option<i64>)
      ensures r == CheckedSum(0, OpenOrderLots(report.activeOrders, instrument, replaced))
      ensures r == if OrdersFit(0, report.activeOrders, instrument, replaced)
                   then Some(LeftOf(report.activeOrders, instrument, replaced)) else None
    {
      OrdersAreSummed(0, report.activeOrders, instrument, replaced);
      var total: int, rest := 0, report.activeOrders;
      while rest != []
        invariant FitsI64(total)
        invariant CheckedSum(0, OpenOrderLots(report.activeOrders, instrument, replaced))
               == CheckedSum(total, OpenOrderLots(rest, instrument, replaced))
        decreases |rest|
      {
        var order := rest[0];
        if order.instrumentId == instrument
           && (replaced.None? || (order.brokerOrderId != replaced.value && order.logicalRequestId != replaced)) {
          assert OpenOrderLots(rest, instrument, replaced)[1..] == OpenOrderLots(rest[1..], instrument, replaced);
          var remaining := SignedRemaining(order);
          if remaining.None? || !FitsI64(total + remaining.value) { return None; }
          total := total + remaining.value;
        } else {
          assert OpenOrderLots(rest, instrument, replaced) == OpenOrderLots(rest[1..], instrument, replaced);
        }
        rest := rest[1..];
      }
      return Some(total);
    }

    method Figures(report: Report, d: Description, facts: BrokerFacts) returns (r: Result<(i64, i64, i64), AdmissionError>)
      ensures r == PositionFigures(store.reservations, accountId, report, d, facts)
    {
      var current: i64 := 0;
      if d.action.Directional() {
        var units := CurrentUnits(report, d.instrumentId);
        if units.None? { return Err(Unavailable); }
        var lots := PositionLots(units.value, facts.lotSize);
        if lots.None? { return Err(Denied(PositionLotMismatch)); }
        if facts.lotLimits.None? { return Err(Denied(Ruled(ProviderLimitUnavailable))); }
        current := lots.value;
      }
      var openOrders := OpenOrderDelta(report, d.instrumentId, d.replacedOrderId);
      if openOrders.None? { return Err(Unavailable); }
      if facts.unresolvedConflict.None? { return Err(Unavailable); }
      var reserved := store.ActiveReservedDelta(accountId, d.instrumentId);
      if reserved.None? { return Err(Unavailable); }
      if !FitsI64(current + openOrders.value) || !FitsI64(current + openOrders.value + reserved.value) {
        return Err(Unavailable);
      }
      return Ok((current, openOrders.value, reserved.value));
    }

    method BuildRequest(input: AdmitInput, policy: RiskPolicySet) returns (r: Result<RiskRequest, AdmissionError>)
      modifies this
      ensures snapshot == old(snapshot)
      ensures (instrumentCache, r) == Admission.BuildRequest(old(View()), input, policy)
    {
      var facts := input.facts;
      if snapshot.None? || snapshot.value.runtimeEpoch == 0 { return Err(Unavailable); }
      if !facts.addressed { return Err(Unavailable); }
      if facts.authorizationRevision.None? { return Err(Denied(Ruled(ExecutionUnauthorized))); }
      var report := snapshot.value;
      var described := Describe(input.command, report);
      if described.Err? { return Err(described.error); }
      var d := described.value;
      var directional := d.action.Directional();
      if !facts.session { return Err(Unavailable); }
      if directional {
        if !facts.constraints && !Cached(instrumentCache, d.instrumentId, facts.now) {
          return Err(Denied(Ruled(InstrumentUnavailable)));
        }
        instrumentCache := CacheLookup(instrumentCache, d.instrumentId, facts.now);
        if instrumentCache[d.instrumentId] < 0 { return Err(Unavailable); }
      }
      var figures := Figures(report, d, facts);
      if figures.Err? { return Err(figures.error); }
      r := Assemble(input.requestId, report, d, facts, if directional then instrumentCache[d.instrumentId] else 0,
                    figures.value, policy);
    }

    /** Price and margin are asked for only when the order grows the position. */
    method Assemble(requestId: Id, report: Report, d: Description, facts: BrokerFacts, constraintsRevision: u64,
                    figures: (i64, i64, i64), policy: RiskPolicySet) returns (r: Result<RiskRequest, AdmissionError>)
      requires facts.authorizationRevision.Some? && facts.unresolvedConflict.Some?
      ensures r == Assembled(accountId, connectionId, requestId, report, d, facts, constraintsRevision, figures, policy)
    {
      var base := figures.0 + figures.1 + figures.2;
      if d.deltaLots != 0 && Abs(d.deltaLots) > I64_MAX { return Err(Unavailable); }
      if d.deltaLots != 0 && base != 0 && Sign(base) != Sign(d.deltaLots) && Abs(base) > I64_MAX { return Err(Unavailable); }
      var increasing := IncreasingPortion(base, d.deltaLots);
      var notional: i128 := 0;
      if d.action.Directional() && increasing > 0 && NotionalPolicy(policy) {
        if !d.priced || facts.orderTotal.None? { return Err(Denied(PriceUnavailable)); }
        notional := facts.orderTotal.value;
        if d.deltaLots < 0 {
          if notional == I128_MIN { return Err(Unavailable); }
          notional := -notional;
        }
      }
      if !facts.readablePnl { return Err(Unavailable); }
      var margin: Option<BrokerMarginFacts> := None;
      if increasing > 0 && (policy.maxMarginUtilizationPpm.Some? || (policy.allowMargin && d.confirmMargin)) {
        if facts.margin.None? { return Err(Denied(Ruled(CriticalInputMissing))); }
        margin := facts.margin;
      }
      if facts.protection.None? { return Err(Unavailable); }
      return Ok(RequestOf(accountId, connectionId, requestId, report, d, facts, constraintsRevision, figures, notional, margin,
                          policy.revision));
    }

    /** Stores the ruling and answers with an admission or a denial. */
    method Settle(input: AdmitInput, policy: RiskPolicySet, request: RiskRequest, ruling: RiskDecision)
      returns (r: Result<RiskAdmission, AdmissionError>)
      modifies store
      ensures (store.View(), r) == Admission.Settle(old(store.View()), input, policy, request, ruling)
    {
      if !ruling.PermitsDispatch() {
        var refused := store.PutDecision(ruling);
        return Err(if refused.Ok? then Denied(Ruled(ruling.reason)) else Unavailable);
      }
      if !request.action.Directional() {
        var stored := store.PutDecision(ruling);
        return if stored.Ok? then Ok(AdmissionOf(ruling, None)) else Err(Unavailable);
      }
      var notional := ScaledNotional(request.requestedNotional, request.requestedDeltaLots, ruling.approvedDeltaLots);
      if notional.None? { return Err(Unavailable); }
      var decision := ruling.(reservationId := Some(input.reservationId));
      var reservation := NewReservation(input.reservationId, request, decision, notional.value);
      var stored := store.PersistApprovalAtomic(decision, reservation, CapacityOf(policy));
      if stored.Err? {
        return Err(if stored.error.CapacityExceeded? then Denied(ReservationCapacityExceeded) else Unavailable);
      }
      return Ok(AdmissionOf(stored.value.decision, Some(stored.value.reservation.reservationId)));
    }

    method Admit(input: AdmitInput) returns (r: Result<RiskAdmission, AdmissionError>)
      modifies this, store
      ensures (View(), r) == Admission.Admit(old(View()), input)
    {
      var approval := ApprovalFor(store.View(), RequestKey(accountId, input.requestId));
      if approval.Err? { return Err(Unavailable); }
      if approval.value.Some? { return Replay(View(), input, approval.value.value); }
      var policy := Policy(input.facts.now);
      if policy.Err? { return Err(policy.error); }
      var request := BuildRequest(input, policy.value);
      if request.Err? { return Err(request.error); }
      var ruling := Evaluate(input.decisionId, policy.value, request.value);
      if ruling.Err? { return Err(Unavailable); }
      r := Settle(input, policy.value, request.value, ruling.value);
    }

    method ValidateBeforeDispatch(input: ValidateInput) returns (r: Result<(), AdmissionError>)
      modifies store
      ensures (View(), r) == Validate(old(View()), input)
      ensures r.Ok? <==> DispatchChecks.MayLeave(old(View()), input)
    {
      DispatchChecks.ValidationPassesExactly(View(), input);
      if input.admission.decisionId !in store.decisions { return Err(StaleApproval); }
      var d := store.decisions[input.admission.decisionId];
      if !MatchesApproval(d, accountId, input) { return Err(StaleApproval); }
      if d.expiresAt.Some? && input.now > d.expiresAt.value { return Err(StaleApproval); }
      var policy := Policy(input.now);
      if policy.Err? { return Err(policy.error); }
      if policy.value.revision != d.validity.policyRevision { return Err(StaleApproval); }
      if input.authorizationRevision.None? { return Err(Denied(Ruled(ExecutionUnauthorized))); }
      if input.authorizationRevision.value != d.validity.executionAuthorizationRevision { return Err(StaleApproval); }
      if snapshot.None? || !WatermarksHold(snapshot.value, d.validity) { return Err(StaleApproval); }
      var described := Describe(input.command, snapshot.value);
      if described.Err? { return Err(described.error); }
      var command := described.value;
      if command.deltaLots != d.approvedDeltaLots || command.action != d.action { return Err(StaleApproval); }
      if command.action.Directional() {
        if command.instrumentId !in instrumentCache { return Err(StaleApproval); }
        if instrumentCache[command.instrumentId] < 0 { return Err(Unavailable); }
        if instrumentCache[command.instrumentId] != d.validity.instrumentConstraintsRevision { return Err(StaleApproval); }
      }
      if input.conflict { return Err(StaleApproval); }
      return Ok(());
    }

    method RecordDispatchOutcome(requestId: Id, outcome: DispatchOutcome, now: i64) returns (r: Result<(), AdmissionError>)
      modifies store
      ensures (View(), r) == Record(old(View()), requestId, outcome, now)
    {
      var reconciler := new RiskReservationReconciler(store);
      var key := RequestKey(accountId, requestId);
      var result;
      match outcome {
        case Acknowledged => result := reconciler.DispatchAcknowledged(key);
        case Rejected => result := reconciler.BrokerAuthoritativeReject(key, now);
        case UnknownOutcome => result := reconciler.UnknownAfterDispatch(key, now);
      }
      return if result.Ok? || result.error.NotFound? then Ok(()) else Err(Unavailable);
    }

    method ReconcileOne(requestId: Id, report: Report) returns (ok: bool)
      modifies store
      ensures (store.View(), ok) == ReconcileRequest(old(store.View()), accountId, requestId, report)
    {
      var reconciler := new RiskReservationReconciler(store);
      var key := RequestKey(accountId, requestId);
      if requestId in report.unresolved {
        var held := reconciler.UnknownAfterDispatch(key, report.completedAt);
        return held.Ok?;
      }
      var order := OrderOf(report, requestId);
      if order.Some? {
        var remaining := SignedRemaining(order.value);
        if remaining.None? { return false; }
        var settled := reconciler.RuntimeReconciliation(key, remaining.value, report.completedAt);
        return settled.Ok?;
      }
      var gone := reconciler.NoRemainingExposure(key, report.completedAt);
      return gone.Ok?;
    }

    method ReconcileAll(rows: seq<RiskReservation>, report: Report, ghost requests: seq<Id>) returns (ok: bool)
      requires |requests| == |rows| && forall i :: 0 <= i < |rows| ==> requests[i] == rows[i].logicalRequestId
      modifies store
      ensures (store.View(), ok) == ReconcilePass(old(store.View()), accountId, requests, report)
    {
      ghost var l := store.View();
      var i := 0;
      while i < |rows|
        invariant 0 <= i <= |rows|
        invariant ReconcilePass(l, accountId, requests[..i], report) == (store.View(), true)
      {
        assert requests[..i + 1][..i] == requests[..i];
        ok := ReconcileOne(rows[i].logicalRequestId, report);
        if !ok {
          PassStopsAtFirstFailure(l, accountId, requests, report, i + 1);
          return;
        }
        i := i + 1;
      }
      assert requests[..i] == requests;
      return true;
    }

    /** Replaces the snapshot, lists the holding reservations and settles them one by one. */
    method Reconcile(report: Report) returns (r: Result<(), AdmissionError>, ghost requests: seq<Id>)
      requires Consistent(store.View())
      modifies this, store
      ensures ListsHolding(old(store.View()), accountId, requests)
      ensures (View(), r) == ReconcileReport(old(View()), requests, report)
    {
      snapshot := Some(report);
      var rows := store.ActiveReservations(accountId);
      requests := seq(|rows|, i requires 0 <= i < |rows| => rows[i].logicalRequestId);
      HoldingRowsAreListed(store.View(), accountId, rows, requests);
      var ok := ReconcileAll(rows, report, requests);
      return if ok then Ok(()) else Err(Unavailable), requests;
    }
  }

  lemma HoldingRowsAreListed(l: Ledger, account: Id, rows: seq<RiskReservation>, requests: seq<Id>)
    requires Consistent(l) && |requests| == |rows|
    requires forall i :: 0 <= i < |rows| ==> requests[i] == rows[i].logicalRequestId
    requires forall i :: 0 <= i < |rows| ==>
               rows[i].reservationId in l.reservations && l.reservations[rows[i].reservationId] == rows[i]
               && rows[i].accountId == account && rows[i].state.Holding()
    requires forall i, j :: 0 <= i < j < |rows| ==> rows[i].reservationId != rows[j].reservationId
    requires forall id | id in l.reservations && l.reservations[id].accountId == account && l.reservations[id].state.Holding()
               :: l.reservations[id] in rows
    ensures ListsHolding(l, account, requests)
  {
    forall i | 0 <= i < |rows| ensures ReservationFor(l, RequestKey(account, requests[i])) == Some(rows[i]) {}
    forall q | ReservationFor(l, RequestKey(account, q)).Some? && ReservationFor(l, RequestKey(account, q)).value.state.Holding()
      ensures q in requests
    {
      var row := ReservationFor(l, RequestKey(account, q)).value;
      assert l.reservations[row.reservationId] == row && row in rows;
      var i :| 0 <= i < |rows| && rows[i] == row;
      assert requests[i] == q;
    }
  }

  /** Once a pass over a prefix has failed, the rest of the list changes nothing. */
  lemma {:induction false} PassStopsAtFirstFailure(l: Ledger, account: Id, requests: seq<Id>, report: Report, n: nat)
    requires n <= |requests| && !ReconcilePass(l, account, requests[..n], report).1
    ensures ReconcilePass(l, account, requests, report) == ReconcilePass(l, account, requests[..n], report)
  {
    if n == |requests| {
      assert requests[..n] == requests;
    } else {
      var init := requests[..|requests| - 1];
      assert init[..n] == requests[..n];
      PassStopsAtFirstFailure(l, account, init, report, n);
    }
  }
}
