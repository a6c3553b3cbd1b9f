/** Replacements that do not oppose the base position: a reduce-only account approves them without end. */
module ReplacementCycles {
  import opened Machine
  import opened RiskModel
  import opened RiskEngine
  import opened EngineGuarantees
  import opened RiskLedger
  import opened Admission
  import opened AdmissionRuns
  import opened ReduceOnlyRuns

  /** A long position of three lots with an open order that would sell them. */
  const CYCLE_REPORT := Report(
    1, true, [], [PositionFact("share", 3)], [OrderFact("order", None, "share", Some(Sell), 3, 0)], 1, 1)

  /** No identity in common. */
  predicate Apart(x: AdmitInput, y: AdmitInput) {
    x.requestId != y.requestId && x.decisionId != y.decisionId && x.reservationId != y.reservationId
  }

  /** Shrink the open order to two lots, then buy two lots. */
  predicate Cycle(replace: AdmitInput, buy: AdmitInput) {
    && replace.command == ReplaceOrder("order", 2, false) && replace.facts == PLAIN_FACTS
    && buy.command == PlaceOrder("share", Buy, 2, false, false, false) && buy.facts == PLAIN_FACTS
    && Apart(replace, buy)
  }

  ghost predicate CycleState(a: Adapter, reserved: int) {
    && a.snapshot == Some(CYCLE_REPORT) && FreshCache(a.instrumentCache)
    && a.accountId in a.ledger.policies && a.ledger.policies[a.accountId] == INITIAL_POLICY
    && ActiveDelta(a.ledger.reservations, a.accountId, "share") == reserved
  }

  function CycleRequest(a: Adapter, input: AdmitInput, action: RiskActionKind, delta: i64, openOrders: i64, reserved: i64): RiskRequest {
    RiskRequest(
      input.requestId, a.accountId, a.connectionId, "share", Manual, action, delta, 0, false, false, false, 0,
      RiskSnapshot(true, true, true, 1, false, 3, openOrders, 0, reserved, None, None, None, None,
                   PLAIN_FACTS.lotLimits, None, PLAIN_FACTS.protection.value, RiskValidityContext(1, 1, 1, 1, None, 0, 1, 0)))
  }

  lemma ReplaceRequest(a: Adapter, input: AdmitInput)
    requires CycleState(a, 0) && input.command == ReplaceOrder("order", 2, false) && input.facts == PLAIN_FACTS
    ensures BuildRequest(a, input, INITIAL_POLICY)
         == (SHARE_CACHE, Ok(CycleRequest(a, input, ReplaceDirectionalOrder, -2, 0, 0)))
  {
    assert PositionUnits(CYCLE_REPORT.positions, "share") == [Some(3)];
    assert OpenOrderLots(CYCLE_REPORT.activeOrders, "share", Some("order")) == [];
    assert FindTarget(CYCLE_REPORT.activeOrders, "order") == Some(CYCLE_REPORT.activeOrders[0]);
    var d := Describe(input.command, CYCLE_REPORT).value;
    assert d == Description(ReplaceDirectionalOrder, "share", -2, true, false, false, Some("order"));
    assert CheckedSum(0, [Some(3)]) == Some(3) && PositionLots(3, 1) == Some(3);
    assert PositionFigures(a.ledger.reservations, a.accountId, CYCLE_REPORT, d, PLAIN_FACTS) == Ok((3, 0, 0));
  }

  lemma BuyRequest(a: Adapter, input: AdmitInput)
    requires CycleState(a, -2) && input.command == PlaceOrder("share", Buy, 2, false, false, false)
    requires input.facts == PLAIN_FACTS
    ensures BuildRequest(a, input, INITIAL_POLICY)
         == (SHARE_CACHE, Ok(CycleRequest(a, input, DirectionalOrder, 2, -3, -2)))
  {
    assert PositionUnits(CYCLE_REPORT.positions, "share") == [Some(3)];
    assert OpenOrderLots(CYCLE_REPORT.activeOrders, "share", None) == [Some(-3)];
    var d := Describe(input.command, CYCLE_REPORT).value;
    assert d == Description(DirectionalOrder, "share", 2, false, false, false, None);
    assert CheckedSum(0, [Some(3)]) == Some(3) && CheckedSum(0, [Some(-3)]) == Some(-3) && PositionLots(3, 1) == Some(3);
    assert PositionFigures(a.ledger.reservations, a.accountId, CYCLE_REPORT, d, PLAIN_FACTS) == Ok((3, -3, -2));
  }

  /** An order that the engine grants in full, in a store without capacity limits, is admitted. */
  lemma FullGrantIsAdmitted(a: Adapter, input: AdmitInput, request: RiskRequest, other: AdmitInput)
    requires a.accountId in a.ledger.policies && a.ledger.policies[a.accountId] == INITIAL_POLICY
    requires BuildRequest(a, input, INITIAL_POLICY) == (SHARE_CACHE, Ok(request))
    requires request.accountId == a.accountId && request.requestId == input.requestId
    requires request.action.Directional() && request.requestedNotional == 0
    requires Dispatches(INITIAL_POLICY, request) && Granted(INITIAL_POLICY, request) == request.requestedDeltaLots != 0
    requires Unused(a.ledger, a.accountId, input)
    ensures var (after, result) := Admit(a, input);
            && result.Ok? && result.value.approvedDeltaLots == request.requestedDeltaLots
            && after == a.(ledger := after.ledger, instrumentCache := SHARE_CACHE) && after.ledger.policies == a.ledger.policies
            && ActiveDelta(after.ledger.reservations, a.accountId, request.instrumentId)
               == ActiveDelta(a.ledger.reservations, a.accountId, request.instrumentId) + request.requestedDeltaLots
            && Grants(a, input, request.instrumentId)
            && (Unused(a.ledger, a.accountId, other) && Apart(other, input) ==> Unused(after.ledger, a.accountId, other))
  {
    DispatchMeansEveryGatePassed(input.decisionId, INITIAL_POLICY, request);
    var decision := Decide(input.decisionId, INITIAL_POLICY, request).value.(reservationId := Some(input.reservationId));
    var row := NewReservation(input.reservationId, request, decision, 0);
    assert ScaledNotional(0, request.requestedDeltaLots, decision.approvedDeltaLots) == Some(0);
    ActiveDeltaAfterPut(a.ledger.reservations, row, a.accountId, request.instrumentId);
  }

  lemma CycleGrants(a: Adapter, input: AdmitInput)
    ensures var shrink := CycleRequest(a, input, ReplaceDirectionalOrder, -2, 0, 0);
            Dispatches(INITIAL_POLICY, shrink) && Granted(INITIAL_POLICY, shrink) == -2
    ensures var grow := CycleRequest(a, input, DirectionalOrder, 2, -3, -2);
            Dispatches(INITIAL_POLICY, grow) && Granted(INITIAL_POLICY, grow) == 2
  {}

  /** One admission of the cycle, and what it leaves of an admission that has nothing in common with it. */
  ghost predicate Stepped(a: Adapter, input: AdmitInput, reserved: int, other: AdmitInput) {
    var (after, result) := Admit(a, input);
    && result.Ok? && CycleState(after, reserved) && after.accountId == a.accountId && Grants(a, input, "share")
    && (Unused(a.ledger, a.accountId, other) && Apart(other, input) ==> Unused(after.ledger, a.accountId, other))
  }

  lemma ReplaceStep(a: Adapter, input: AdmitInput, other: AdmitInput)
    requires CycleState(a, 0) && input.command == ReplaceOrder("order", 2, false) && input.facts == PLAIN_FACTS
    requires Unused(a.ledger, a.accountId, input)
    ensures Stepped(a, input, -2, other)
  {
    ReplaceRequest(a, input);
    CycleGrants(a, input);
    FullGrantIsAdmitted(a, input, CycleRequest(a, input, ReplaceDirectionalOrder, -2, 0, 0), other);
  }

  lemma BuyStep(a: Adapter, input: AdmitInput, other: AdmitInput)
    requires CycleState(a, -2) && input.command == PlaceOrder("share", Buy, 2, false, false, false)
    requires input.facts == PLAIN_FACTS && Unused(a.ledger, a.accountId, input)
    ensures Stepped(a, input, 0, other)
  {
    BuyRequest(a, input);
    CycleGrants(a, input);
    FullGrantIsAdmitted(a, input, CycleRequest(a, input, DirectionalOrder, 2, -3, -2), other);
  }

  /** Once around: both orders are approved, and the adapter is back in the state it started from. */
  lemma OneCycle(a: Adapter, replace: AdmitInput, middle: Adapter, buy: AdmitInput, other: AdmitInput)
    requires CycleState(a, 0) && Cycle(replace, buy) && middle == Admit(a, replace).0
    requires Unused(a.ledger, a.accountId, replace) && Unused(a.ledger, a.accountId, buy)
    ensures Grants(a, replace, "share") && Grants(middle, buy, "share")
    ensures CycleState(Admit(middle, buy).0, 0) && Admit(middle, buy).0.accountId == a.accountId
    ensures Unused(a.ledger, a.accountId, other) && Apart(other, replace) && Apart(other, buy) ==>
              Unused(Admit(middle, buy).0.ledger, a.accountId, other)
  {
    ReplaceStep(a, replace, buy);
    ReplaceStep(a, replace, other);
    BuyStep(middle, buy, other);
  }

  predicate AllApart(rest: seq<AdmitInput>, x: AdmitInput, y: AdmitInput) {
    forall j :: 0 <= j < |rest| ==> Apart(rest[j], x) && Apart(rest[j], y)
  }

  /** Replacements and buys in turn, without an identity in common. */
  predicate Cycles(inputs: seq<AdmitInput>) {
    inputs != [] ==>
      |inputs| >= 2 && Cycle(inputs[0], inputs[1]) && AllApart(inputs[2..], inputs[0], inputs[1]) && Cycles(inputs[2..])
  }

  ghost predicate AllUnused(a: Adapter, inputs: seq<AdmitInput>) {
    forall j :: 0 <= j < |inputs| ==> Unused(a.ledger, a.accountId, inputs[j])
  }

  /** Once around, with the rest of the orders in view. */
  lemma CycleGoesOn(a: Adapter, replace: AdmitInput, middle: Adapter, buy: AdmitInput, after: Adapter, rest: seq<AdmitInput>)
    requires CycleState(a, 0) && Cycle(replace, buy) && middle == Admit(a, replace).0 && after == Admit(middle, buy).0
    requires Unused(a.ledger, a.accountId, replace) && Unused(a.ledger, a.accountId, buy)
    requires AllUnused(a, rest) && AllApart(rest, replace, buy)
    ensures Grants(a, replace, "share") && Grants(middle, buy, "share") && CycleState(after, 0) && AllUnused(after, rest)
  {
    OneCycle(a, replace, middle, buy, buy);
    forall j | 0 <= j < |rest| ensures Unused(after.ledger, after.accountId, rest[j]) {
      OneCycle(a, replace, middle, buy, rest[j]);
    }
  }

  lemma TwoOrders(a: Adapter, replace: AdmitInput, middle: Adapter, buy: AdmitInput, after: Adapter, rest: seq<AdmitInput>,
                  all: seq<AdmitInput>)
    requires middle == Admit(a, replace).0 && after == Admit(middle, buy).0 && all == [replace] + ([buy] + rest)
    requires Grants(a, replace, "share") && Grants(middle, buy, "share")
    ensures AdmitAll(a, all) == AdmitAll(after, rest) && Approvals(a, all, "share") == 2 + Approvals(after, rest, "share")
  {
    FirstOrder(a, replace, [buy] + rest, all, "share");
    FirstOrder(middle, buy, rest, [buy] + rest, "share");
  }

  /** The orders can go round, from this state. */
  ghost predicate Ready(a: Adapter, inputs: seq<AdmitInput>) { CycleState(a, 0) && Cycles(inputs) && AllUnused(a, inputs) }

  /** They all have been approved, and the state is back. */
  ghost predicate Around(a: Adapter, inputs: seq<AdmitInput>) {
    CycleState(AdmitAll(a, inputs), 0) && Approvals(a, inputs, "share") == |inputs|
  }

  lemma NextOrders(a: Adapter, inputs: seq<AdmitInput>, rest: seq<AdmitInput>)
    requires Cycles(inputs) && AllUnused(a, inputs) && |inputs| >= 2 && rest == inputs[2..]
    ensures Cycle(inputs[0], inputs[1]) && AllApart(rest, inputs[0], inputs[1]) && Cycles(rest)
    ensures Unused(a.ledger, a.accountId, inputs[0]) && Unused(a.ledger, a.accountId, inputs[1]) && AllUnused(a, rest)
    ensures inputs == [inputs[0]] + ([inputs[1]] + rest)
  {}

  lemma AfterCycle(a: Adapter, replace: AdmitInput, buy: AdmitInput, rest: seq<AdmitInput>, all: seq<AdmitInput>)
    returns (after: Adapter)
    requires CycleState(a, 0) && Cycle(replace, buy) && all == [replace] + ([buy] + rest)
    requires Unused(a.ledger, a.accountId, replace) && Unused(a.ledger, a.accountId, buy)
    requires AllUnused(a, rest) && AllApart(rest, replace, buy)
    ensures CycleState(after, 0) && AllUnused(after, rest) && (Around(after, rest) ==> Around(a, all))
  {
    var middle := Admit(a, replace).0;
    after := Admit(middle, buy).0;
    CycleGoesOn(a, replace, middle, buy, after, rest);
    TwoOrders(a, replace, middle, buy, after, rest, all);
  }

  lemma FirstCycle(a: Adapter, inputs: seq<AdmitInput>, rest: seq<AdmitInput>) returns (after: Adapter)
    requires Ready(a, inputs) && |inputs| >= 2 && rest == inputs[2..]
    ensures Ready(after, rest) && (Around(after, rest) ==> Around(a, inputs))
  {
    NextOrders(a, inputs, rest);
    after := AfterCycle(a, inputs[0], inputs[1], rest, inputs);
  }

  lemma {:induction false} CyclesGoOn(a: Adapter, inputs: seq<AdmitInput>)
    requires Ready(a, inputs)
    ensures Around(a, inputs)
    decreases |inputs|
  {
    if inputs != [] {
      var rest := inputs[2..];
      var after := FirstCycle(a, inputs, rest);
      CyclesGoOn(after, rest);
    }
  }

  lemma CycleBase(a: Adapter)
    requires CycleState(a, 0)
    ensures Reducing(a) && Base(a, "share", 1) == Some(0)
  {
    assert PositionUnits(CYCLE_REPORT.positions, "share") == [Some(3)];
    assert OpenOrderLots(CYCLE_REPORT.activeOrders, "share", None) == [Some(-3)];
    assert CheckedSum(0, [Some(3)]) == Some(3) && CheckedSum(0, [Some(-3)]) == Some(-3) && PositionLots(3, 1) == Some(3);
  }

  /** However many cycles are asked for, every order in them is approved, although the account may only
      reduce and its base position is zero. */
  lemma ReplacementsCanCycle(a: Adapter, inputs: seq<AdmitInput>)
    requires CycleState(a, 0) && Cycles(inputs) && AllUnused(a, inputs)
    ensures Reducing(a) && Base(a, "share", 1) == Some(0) && Approvals(a, inputs, "share") == |inputs|
    ensures CycleState(AdmitAll(a, inputs), 0)
  {
    CycleBase(a);
    CyclesGoOn(a, inputs);
  }

  // ---- from the empty store ----

  /** The policy in force, and the report. */
  function CycleSteps(): seq<Step> { [ChangingPolicy(None, INITIAL_POLICY, "start", 0), Reconciling([], CYCLE_REPORT)] }

  lemma CycleStateIsReached(account: Id, connection: Id)
    requires !Blank(account)
    ensures AllEnabled(Start(account, connection), CycleSteps())
    ensures var a := RunAll(Start(account, connection), CycleSteps()).adapter;
            CycleState(a, 0) && a.ledger == EMPTY.(policies := a.ledger.policies, policyAudit := a.ledger.policyAudit)
  {
    var w, steps := Start(account, connection), CycleSteps();
    assert steps[..0] == [] && steps[..1] == [steps[0]] && steps[..2] == steps && [steps[0]][..0] == [];
    assert !Blank("start") by { assert "start"[0] == 's'; }
    var first := Advance(w, steps[0]);
    assert RunAll(w, [steps[0]]) == first && first.adapter.ledger.policies == map[account := INITIAL_POLICY];
    EmptyStoreHoldsNothing(account, "share");
  }

  function Name(k: nat): Id { seq(k, _ => 'x') }

  function OrderNamed(command: Command, k: nat): AdmitInput {
    AdmitInput(command, Name(k), PLAIN_FACTS, false, Name(k), Name(k))
  }

  /** So many cycles, under names that are not used twice. */
  function Orders(cycles: nat, from: nat): seq<AdmitInput> {
    if cycles == 0 then []
    else [OrderNamed(ReplaceOrder("order", 2, false), from)]
         + ([OrderNamed(PlaceOrder("share", Buy, 2, false, false, false), from + 1)] + Orders(cycles - 1, from + 2))
  }

  lemma {:induction false} OrdersAreCycles(cycles: nat, from: nat)
    ensures |Orders(cycles, from)| == 2 * cycles && Cycles(Orders(cycles, from))
    ensures forall i :: 0 <= i < |Orders(cycles, from)| ==>
              exists k: nat, c :: k >= from && Orders(cycles, from)[i] == OrderNamed(c, k)
  {
    if cycles > 0 {
      var all, rest := Orders(cycles, from), Orders(cycles - 1, from + 2);
      OrdersAreCycles(cycles - 1, from + 2);
      assert all[2..] == rest;
      assert |Name(from)| == from && |Name(from + 1)| == from + 1;
      forall j | 0 <= j < |rest| ensures Apart(rest[j], all[0]) && Apart(rest[j], all[1]) {
        var k: nat, c :| k >= from + 2 && rest[j] == OrderNamed(c, k);
        assert |Name(k)| == k;
      }
      forall i | 0 <= i < |all| ensures exists k: nat, c :: k >= from && all[i] == OrderNamed(c, k) {
        if i >= 2 {
          assert all[i] == rest[i - 2];
          var k: nat, c :| k >= from + 2 && rest[i - 2] == OrderNamed(c, k);
        }
      }
    }
  }

  /** From the empty store, on a base position of zero, a reduce-only account is given as many approvals as
      anyone asks for. */
  lemma ApprovalsAreUnbounded(account: Id, connection: Id, cycles: nat)
    requires !Blank(account)
    ensures AllEnabled(Start(account, connection), CycleSteps())
    ensures var a := RunAll(Start(account, connection), CycleSteps()).adapter;
            Reducing(a) && Base(a, "share", 1) == Some(0) && Approvals(a, Orders(cycles, 1), "share") == 2 * cycles
  {
    CycleStateIsReached(account, connection);
    OrdersAreCycles(cycles, 1);
    var a := RunAll(Start(account, connection), CycleSteps()).adapter;
    NothingIsUsed(a, Orders(cycles, 1));
    ReplacementsCanCycle(a, Orders(cycles, 1));
  }

  lemma NothingIsUsed(a: Adapter, inputs: seq<AdmitInput>)
    requires a.ledger == EMPTY.(policies := a.ledger.policies, policyAudit := a.ledger.policyAudit)
    ensures AllUnused(a, inputs)
  {}
}
