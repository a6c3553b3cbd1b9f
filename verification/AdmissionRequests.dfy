/** What an admission asks the engine, and what it makes of the answer. */
module AdmissionRequests {
  import opened Machine
  import opened Arithmetic
  import opened RiskModel
  import opened RiskEngine
  import opened EngineGuarantees
  import opened RiskLedger
  import opened Admission

  // ---- reading the snapshot ----

  ghost function Sum(values: seq<Option<i64>>): int
    requires forall i :: 0 <= i < |values| ==> values[i].Some?
  {
    if values == [] then 0 else values[0].value + Sum(values[1..])
  }

  /** A checked sum that is returned is the sum; it needs every value to be readable. */
  lemma {:induction false} CheckedSumIsTheSum(total: i64, values: seq<Option<i64>>)
    requires CheckedSum(total, values).Some?
    ensures forall i :: 0 <= i < |values| ==> values[i].Some?
    ensures CheckedSum(total, values).value == total + Sum(values)
    decreases |values|
  {
    if values != [] {
      CheckedSumIsTheSum(total + values[0].value, values[1..]);
      forall i | 0 <= i < |values| ensures values[i].Some? {
        if i > 0 { assert values[i] == values[1..][i - 1]; }
      }
    }
  }

  /** For a positive lot size, units become lots exactly when they divide. */
  lemma PositionLotsAreExact(units: i64, lotSize: i64)
    requires lotSize > 0
    ensures PositionLots(units, lotSize).Some? <==> exists lots :: lots * lotSize == units
    ensures PositionLots(units, lotSize).Some? ==> PositionLots(units, lotSize).value * lotSize == units
  {
    var n, q: int := Abs(units), lotSize;
    QuotientWithin(n, q);
    if lots: int :| lots * lotSize == units {
      var m := Abs(lots);
      assert q * m == n;
      QuotientAtMost(n, q, m);
      assert TruncDiv(units, lotSize) == lots;
    }
  }

  lemma QuotientWithin(n: int, q: int)
    requires 0 <= n && 0 < q
    ensures 0 <= n / q <= n
  {
    MulMonotone(n, 1, q);
    assert q * n == n * q;
    QuotientAtMost(n, q, n);
  }

  /** A new order is put to the engine with its own instrument, side and size, on the figures of the
      snapshot and the reservations. */
  lemma PlacedOrderIsAskedAsPlaced(a: Adapter, input: AdmitInput, policy: RiskPolicySet)
    requires input.command.PlaceOrder? && BuildRequest(a, input, policy).1.Ok?
    ensures var q, c := BuildRequest(a, input, policy).1.value, input.command;
            && q.action.DirectionalOrder? && q.instrumentId == c.instrumentId
            && Abs(q.requestedDeltaLots) == c.lots > 0 && (q.requestedDeltaLots > 0 <==> c.side.Buy?)
            && q.isMarketOrder == c.market && q.confirmMarginTrade == c.confirmMargin && !q.emergencyReduction
            && q.snapshot.activeReservationDeltaLots == ActiveDelta(a.ledger.reservations, a.accountId, c.instrumentId)
            && q.snapshot.unresolvedUnknownDeltaLots == 0
  {}

  // ---- following the engine ----

  /** A request without history is admitted only as the engine ruled under the current policy: exactly the
      granted lots, that policy's revision, and for an order a reservation of those lots. */
  lemma FreshAdmissionFollowsTheEngine(l: Ledger, input: AdmitInput, policy: RiskPolicySet, request: RiskRequest)
    requires RequestKey(request.accountId, request.requestId) !in l.reservationIndex
    requires Decide(input.decisionId, policy, request).Ok?
    ensures var ruling := Decide(input.decisionId, policy, request).value;
            var (after, result) := Settle(l, input, policy, request, ruling);
            && (result.Ok? ==>
                  && Dispatches(policy, request)
                  && result.value == RiskAdmission(input.decisionId,
                                                   if request.action.Directional() then Some(input.reservationId) else None,
                                                   policy.revision, ruling.approvedDeltaLots)
                  && ruling.approvedDeltaLots == Granted(policy, request))
            && (!Dispatches(policy, request) ==> result == Err(Denied(Ruled(ruling.reason))) || result == Err(Unavailable))
  {
    DispatchMeansEveryGatePassed(input.decisionId, policy, request);
  }
}
