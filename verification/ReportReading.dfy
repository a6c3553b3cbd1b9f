/** What a report says, in its own columns: which order a command or a request is about, what is left of an
    order, and the sums that the base position is made of. */
module ReportReading {
  import opened Machine
  import opened RiskModel
  import opened TableSums
  import opened RiskLedger
  import opened Admission

  // ---- one order ----

  /** The side is known and the progress makes sense. */
  predicate Readable(o: OrderFact) { o.side.Some? && 0 <= o.lotsExecuted <= o.lotsRequested }

  /** What is left of a readable order: positive for a buy, negative for a sell. */
  function Left(o: OrderFact): int {
    if o.side == Some(Buy) then o.lotsRequested - o.lotsExecuted else o.lotsExecuted - o.lotsRequested
  }

  lemma SignedRemainingExactly(o: OrderFact)
    ensures SignedRemaining(o).Some? <==> Readable(o)
    ensures Readable(o) ==> SignedRemaining(o).value == Left(o)
  {}

  // ---- finding an order ----

  predicate CarriesRequest(o: OrderFact, q: Id) { o.logicalRequestId == Some(q) }

  predicate Named(o: OrderFact, target: Id) { o.brokerOrderId == target || CarriesRequest(o, target) }

  /** The order at `i` is the first that carries the request. */
  predicate FirstOf(orders: seq<OrderFact>, q: Id, i: int) {
    0 <= i < |orders| && CarriesRequest(orders[i], q) && forall j :: 0 <= j < i ==> !CarriesRequest(orders[j], q)
  }

  predicate FirstNamed(orders: seq<OrderFact>, target: Id, i: int) {
    0 <= i < |orders| && Named(orders[i], target) && forall j :: 0 <= j < i ==> !Named(orders[j], target)
  }

  lemma {:induction false} FindOrderExactly(orders: seq<OrderFact>, matches: OrderFact -> bool)
    ensures match FindOrder(orders, matches)
            case None => forall i :: 0 <= i < |orders| ==> !matches(orders[i])
            case Some(o) => exists i :: 0 <= i < |orders| && orders[i] == o && matches(o) && forall j :: 0 <= j < i ==> !matches(orders[j])
  {
    if orders != [] && !matches(orders[0]) {
      var rest := orders[1..];
      FindOrderExactly(rest, matches);
      if FindOrder(rest, matches).None? {
        forall i | 0 <= i < |orders| ensures !matches(orders[i]) { if i > 0 { assert orders[i] == rest[i - 1]; } }
      } else {
        var o := FindOrder(rest, matches).value;
        var i :| 0 <= i < |rest| && rest[i] == o && matches(o) && forall j :: 0 <= j < i ==> !matches(rest[j]);
        assert orders[i + 1] == o;
        forall j | 0 <= j < i + 1 ensures !matches(orders[j]) { if j > 0 { assert orders[j] == rest[j - 1]; } }
      }
    }
  }

  /** The order of a request is the first one that carries it. */
  lemma OrderOfExactly(report: Report, q: Id)
    ensures OrderOf(report, q).None? ==> forall i :: 0 <= i < |report.activeOrders| ==> !CarriesRequest(report.activeOrders[i], q)
    ensures OrderOf(report, q).Some? ==>
              exists i :: FirstOf(report.activeOrders, q, i) && report.activeOrders[i] == OrderOf(report, q).value
    ensures forall i :: FirstOf(report.activeOrders, q, i) ==> OrderOf(report, q) == Some(report.activeOrders[i])
  {
    var orders, m := report.activeOrders, (o: OrderFact) => o.logicalRequestId == Some(q);
    FindOrderExactly(orders, m);
    if OrderOf(report, q).Some? {
      var i :| 0 <= i < |orders| && orders[i] == OrderOf(report, q).value && m(orders[i]) && forall j :: 0 <= j < i ==> !m(orders[j]);
      assert FirstOf(orders, q, i) by {
        forall j | 0 <= j < i ensures !CarriesRequest(orders[j], q) { assert !m(orders[j]); }
      }
      forall k | FirstOf(orders, q, k) ensures k == i {}
    } else {
      forall i | 0 <= i < |orders| ensures !CarriesRequest(orders[i], q) { assert !m(orders[i]); }
    }
  }

  /** The target of a command is the first order under that name. */
  lemma FindTargetExactly(orders: seq<OrderFact>, target: Id)
    ensures FindTarget(orders, target).None? <==> forall i :: 0 <= i < |orders| ==> !Named(orders[i], target)
    ensures FindTarget(orders, target).Some? ==>
              exists i :: FirstNamed(orders, target, i) && orders[i] == FindTarget(orders, target).value
    ensures forall i :: FirstNamed(orders, target, i) ==> FindTarget(orders, target) == Some(orders[i])
  {
    var m := (o: OrderFact) => o.brokerOrderId == target || o.logicalRequestId == Some(target);
    FindOrderExactly(orders, m);
    if FindTarget(orders, target).Some? {
      var i :| 0 <= i < |orders| && orders[i] == FindTarget(orders, target).value && m(orders[i])
               && forall j :: 0 <= j < i ==> !m(orders[j]);
      assert FirstNamed(orders, target, i) by {
        forall j | 0 <= j < i ensures !Named(orders[j], target) { assert !m(orders[j]); }
      }
      forall k | FirstNamed(orders, target, k) ensures k == i {}
    } else {
      forall i | 0 <= i < |orders| ensures !Named(orders[i], target) { assert !m(orders[i]); }
    }
  }

  // ---- what a command asks for ----

  predicate Signed(side: OrderSide, lots: int, delta: int) { lots >= 1 && delta == (if side == Buy then lots else -lots) }

  /** The command, read against the report. */
  ghost predicate Means(command: Command, report: Report, d: Description) {
    match command
    case PlaceOrder(instrument, side, lots, priced, market, margin) =>
      Signed(side, lots, d.deltaLots) && d == Description(DirectionalOrder, instrument, d.deltaLots, priced, market, margin, None)
    case ReplaceOrder(existing, lots, margin) =>
      exists i :: FirstNamed(report.activeOrders, existing, i)
        && var o := report.activeOrders[i];
           && o.side.Some? && Signed(o.side.value, lots, d.deltaLots)
           && d == Description(ReplaceDirectionalOrder, o.instrumentId, d.deltaLots, true, false, margin, Some(existing))
    case CancelOrderCommand(orderId) =>
      && d == Description(CancelOrder, d.instrumentId, 0, false, false, false, None)
      && (forall i :: FirstNamed(report.activeOrders, orderId, i) ==> d.instrumentId == report.activeOrders[i].instrumentId)
      && ((forall i :: 0 <= i < |report.activeOrders| ==> !Named(report.activeOrders[i], orderId)) ==>
            d.instrumentId == "maintenance:cancel-order")
    case ProtectionOrder(instrument, margin) =>
      d == Description(ProtectionMaintenance, instrument, 0, false, false, margin, None)
    case CancelStop => d == Description(CancelProtection, "maintenance:cancel-protection", 0, false, false, false, None)
  }

  /** A command is understood as what it means, or refused for the reason there is. */
  lemma DescribeExactly(command: Command, report: Report)
    ensures var d := Describe(command, report);
            match d
            case Ok(description) => Means(command, report, description)
            case Err(error) =>
              || (&& error == Denied(InvalidOrderQuantity) && (command.PlaceOrder? || command.ReplaceOrder?) && command.lots <= 0)
              || (&& error == Denied(OrderNotFound) && command.ReplaceOrder?
                  && forall i :: 0 <= i < |report.activeOrders| ==> !Named(report.activeOrders[i], command.existingOrderId))
              || (&& error == Denied(OrderDirectionUnknown) && command.ReplaceOrder?
                  && exists i :: FirstNamed(report.activeOrders, command.existingOrderId, i) && report.activeOrders[i].side.None?)
  {
    if command.ReplaceOrder? { FindTargetExactly(report.activeOrders, command.existingOrderId); }
    if command.CancelOrderCommand? { FindTargetExactly(report.activeOrders, command.orderId); }
  }

  lemma OneMeaning(command: Command, report: Report, d: Description)
    requires Means(command, report, d)
    ensures Describe(command, report) == Ok(d)
  {
    DescribeExactly(command, report);
    match command {
      case ReplaceOrder(existing, _, _) => FindTargetExactly(report.activeOrders, existing);
      case CancelOrderCommand(orderId) => FindTargetExactly(report.activeOrders, orderId);
      case _ =>
    }
  }

  // ---- the sums ----

  /** The units of the instrument, over all positions. */
  function UnitsOf(positions: seq<PositionFact>, instrument: Id): int {
    if positions == [] then 0
    else UnitsOf(positions[1..], instrument) + if positions[0].instrumentId == instrument then positions[0].units else 0
  }

  /** The order counts for the instrument and is not the one being replaced. */
  predicate CountsFor(o: OrderFact, instrument: Id, replaced: Option<Id>) {
    o.instrumentId == instrument && (replaced.Some? ==> !Named(o, replaced.value))
  }

  /** What is left of the orders for the instrument, without the one being replaced. */
  function LeftOf(orders: seq<OrderFact>, instrument: Id, replaced: Option<Id>): int {
    if orders == [] then 0
    else LeftOf(orders[1..], instrument, replaced) + if CountsFor(orders[0], instrument, replaced) then Left(orders[0]) else 0
  }

  /** No running total of the units leaves 64 bits. */
  ghost predicate UnitsFit(total: int, positions: seq<PositionFact>, instrument: Id) {
    forall k :: 0 <= k <= |positions| ==> FitsI64(total + UnitsOf(positions[..k], instrument))
  }

  /** Every order that counts is readable, and no running total of what is left leaves 64 bits. */
  ghost predicate OrdersFit(total: int, orders: seq<OrderFact>, instrument: Id, replaced: Option<Id>) {
    && (forall i :: 0 <= i < |orders| && CountsFor(orders[i], instrument, replaced) ==> Readable(orders[i]))
    && (forall k :: 0 <= k <= |orders| ==> FitsI64(total + LeftOf(orders[..k], instrument, replaced)))
  }

  lemma UnitsFromTheFirst(positions: seq<PositionFact>, instrument: Id, k: int)
    requires 0 < k <= |positions|
    ensures UnitsOf(positions[..k], instrument) == UnitsOf(positions[..1], instrument) + UnitsOf(positions[1..][..k - 1], instrument)
  {
    assert positions[..1][1..] == [] && positions[..1][0] == positions[..k][0];
    assert positions[..k][1..] == positions[1..][..k - 1];
  }

  lemma LeftFromTheFirst(orders: seq<OrderFact>, instrument: Id, replaced: Option<Id>, k: int)
    requires 0 < k <= |orders|
    ensures LeftOf(orders[..k], instrument, replaced)
            == LeftOf(orders[..1], instrument, replaced) + LeftOf(orders[1..][..k - 1], instrument, replaced)
  {
    assert orders[..1][1..] == [] && orders[..1][0] == orders[..k][0];
    assert orders[..k][1..] == orders[1..][..k - 1];
  }

  lemma UnitsFitFromTheRest(total: int, positions: seq<PositionFact>, instrument: Id)
    requires positions != [] && FitsI64(total)
    ensures UnitsFit(total, positions, instrument) <==>
              UnitsFit(total + UnitsOf(positions[..1], instrument), positions[1..], instrument)
  {
    var rest, first := positions[1..], UnitsOf(positions[..1], instrument);
    forall k | 0 < k <= |positions| ensures UnitsOf(positions[..k], instrument) == first + UnitsOf(rest[..k - 1], instrument) {
      UnitsFromTheFirst(positions, instrument, k);
    }
    if UnitsFit(total, positions, instrument) {
      forall k | 0 <= k <= |rest| ensures FitsI64(total + first + UnitsOf(rest[..k], instrument)) {
        assert FitsI64(total + UnitsOf(positions[..k + 1], instrument));
      }
    }
    if UnitsFit(total + first, rest, instrument) {
      forall k | 0 <= k <= |positions| ensures FitsI64(total + UnitsOf(positions[..k], instrument)) {
        if k > 0 { assert FitsI64(total + first + UnitsOf(rest[..k - 1], instrument)); }
      }
    }
  }

  lemma OrdersFitFromTheRest(total: int, orders: seq<OrderFact>, instrument: Id, replaced: Option<Id>)
    requires orders != [] && FitsI64(total)
    ensures OrdersFit(total, orders, instrument, replaced) <==>
              && (CountsFor(orders[0], instrument, replaced) ==> Readable(orders[0]))
              && OrdersFit(total + LeftOf(orders[..1], instrument, replaced), orders[1..], instrument, replaced)
  {
    var rest, first := orders[1..], LeftOf(orders[..1], instrument, replaced);
    forall k | 0 < k <= |orders|
      ensures LeftOf(orders[..k], instrument, replaced) == first + LeftOf(rest[..k - 1], instrument, replaced)
    {
      LeftFromTheFirst(orders, instrument, replaced, k);
    }
    if OrdersFit(total, orders, instrument, replaced) {
      forall k | 0 <= k <= |rest| ensures FitsI64(total + first + LeftOf(rest[..k], instrument, replaced)) {
        assert FitsI64(total + LeftOf(orders[..k + 1], instrument, replaced));
      }
    }
    if (CountsFor(orders[0], instrument, replaced) ==> Readable(orders[0])) && OrdersFit(total + first, rest, instrument, replaced) {
      forall i | 0 <= i < |orders| && CountsFor(orders[i], instrument, replaced) ensures Readable(orders[i]) {
        if i > 0 { assert orders[i] == rest[i - 1]; }
      }
      forall k | 0 <= k <= |orders| ensures FitsI64(total + LeftOf(orders[..k], instrument, replaced)) {
        if k > 0 { assert FitsI64(total + first + LeftOf(rest[..k - 1], instrument, replaced)); }
      }
    }
  }

  lemma {:induction false} UnitsAreSummed(total: i64, positions: seq<PositionFact>, instrument: Id)
    ensures var sum := CheckedSum(total, PositionUnits(positions, instrument));
            && (sum.Some? <==> UnitsFit(total, positions, instrument))
            && (sum.Some? ==> sum.value == total + UnitsOf(positions, instrument))
    decreases |positions|
  {
    if positions != [] {
      var values, rest := PositionUnits(positions, instrument), PositionUnits(positions[1..], instrument);
      UnitsFitFromTheRest(total, positions, instrument);
      var first := UnitsOf(positions[..1], instrument);
      assert positions[..1][1..] == [];
      assert positions[1..][..0] == [];
      if positions[0].instrumentId == instrument { assert values[1..] == rest; } else { assert values == rest; }
      if FitsI64(total + first) { UnitsAreSummed(total + first, positions[1..], instrument); }
    }
  }

  lemma {:induction false} OrdersAreSummed(total: i64, orders: seq<OrderFact>, instrument: Id, replaced: Option<Id>)
    ensures var sum := CheckedSum(total, OpenOrderLots(orders, instrument, replaced));
            && (sum.Some? <==> OrdersFit(total, orders, instrument, replaced))
            && (sum.Some? ==> sum.value == total + LeftOf(orders, instrument, replaced))
    decreases |orders|
  {
    if orders != [] {
      var values, rest := OpenOrderLots(orders, instrument, replaced), OpenOrderLots(orders[1..], instrument, replaced);
      OrdersFitFromTheRest(total, orders, instrument, replaced);
      SignedRemainingExactly(orders[0]);
      var first := LeftOf(orders[..1], instrument, replaced);
      assert orders[..1][1..] == [];
      assert orders[1..][..0] == [];
      if CountsFor(orders[0], instrument, replaced) { assert values[1..] == rest; } else { assert values == rest; }
      if FitsI64(total + first) { OrdersAreSummed(total + first, orders[1..], instrument, replaced); }
    }
  }

  /** The remaining lots of the rows of the account and the instrument that are neither consumed nor released. */
  ghost function HeldDelta(rows: map<Id, RiskReservation>, account: Id, instrument: Id): int {
    Total(map id | && id in rows && rows[id].accountId == account && rows[id].instrumentId == instrument
                   && !rows[id].state.Consumed? && !rows[id].state.Released? :: rows[id].remainingDeltaLots)
  }

  lemma ActiveDeltaIsHeld(rows: map<Id, RiskReservation>, account: Id, instrument: Id)
    ensures ActiveDelta(rows, account, instrument) == HeldDelta(rows, account, instrument)
  {
    var held := map id | && id in rows && rows[id].accountId == account && rows[id].instrumentId == instrument
                         && !rows[id].state.Consumed? && !rows[id].state.Released? :: rows[id].remainingDeltaLots;
    assert SignedLotColumn(rows, account, instrument) == held;
  }

  /** The figures that an order is judged by are those of the report: the units held come to that many lots
      exactly, then what is left of the other orders, then what is reserved. */
  lemma FiguresAreReported(a: Adapter, input: AdmitInput, policy: RiskPolicySet)
    requires BuildRequest(a, input, policy).1.Ok?
    ensures a.snapshot.Some? && Describe(input.command, a.snapshot.value).Ok?
    ensures var s, d := BuildRequest(a, input, policy).1.value.snapshot, Describe(input.command, a.snapshot.value).value;
            var report := a.snapshot.value;
            && (if d.action.Directional()
                then s.currentPositionLots * input.facts.lotSize == UnitsOf(report.positions, d.instrumentId)
                else s.currentPositionLots == 0)
            && s.openOrderDeltaLots == LeftOf(report.activeOrders, d.instrumentId, d.replacedOrderId)
            && (forall i :: 0 <= i < |report.activeOrders| && CountsFor(report.activeOrders[i], d.instrumentId, d.replacedOrderId) ==>
                  Readable(report.activeOrders[i]))
            && s.activeReservationDeltaLots == HeldDelta(a.ledger.reservations, a.accountId, d.instrumentId)
            && s.unresolvedUnknownDeltaLots == 0
  {
    var report := a.snapshot.value;
    var d := Describe(input.command, report).value;
    UnitsAreSummed(0, report.positions, d.instrumentId);
    OrdersAreSummed(0, report.activeOrders, d.instrumentId, d.replacedOrderId);
    ActiveDeltaIsHeld(a.ledger.reservations, a.accountId, d.instrumentId);
  }
}
