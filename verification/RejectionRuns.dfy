/** Rejected requests: which denials are final, and which a later attempt can overcome. */
module RejectionRuns {
  import opened Machine
  import opened RiskModel
  import opened RiskEngine
  import opened EngineGuarantees
  import opened RiskLedger
  import opened Admission
  import opened AdmissionRuns
  import opened AdmissionGuarantees

  /** The request has no history, it is built, and the engine rules against it. */
  ghost predicate EngineRefuses(a: Adapter, input: AdmitInput) {
    var (l, policy) := CurrentPolicy(a.ledger, a.accountId, input.facts.now);
    && ApprovalFor(a.ledger, RequestKey(a.accountId, input.requestId)) == Ok(None)
    && policy.Ok?
    && var request := BuildRequest(a.(ledger := l), input, policy.value).1;
       && request.Ok?
       && var ruling := Decide(input.decisionId, policy.value, request.value);
          ruling.Ok? && !ruling.value.PermitsDispatch()
  }

  lemma SettledRefusalIsStored(l: Ledger, input: AdmitInput, policy: RiskPolicySet, request: RiskRequest)
    requires RequestKey(request.accountId, request.requestId) !in l.decisionIndex && input.decisionId !in l.decisions
    requires Decide(input.decisionId, policy, request).Ok? && !Decide(input.decisionId, policy, request).value.PermitsDispatch()
    ensures var ruling := Decide(input.decisionId, policy, request).value;
            var (after, answer) := Settle(l, input, policy, request, ruling);
            && answer == Err(Denied(Ruled(ruling.reason)))
            && DecisionFor(after, RequestKey(request.accountId, request.requestId)) == Some(ruling)
  {}

  /** The refusal is answered as a denial and put on record. */
  lemma EngineRefusalIsStored(a: Adapter, input: AdmitInput)
    requires Consistent(a.ledger) && EngineRefuses(a, input) && input.decisionId !in a.ledger.decisions
    ensures var (after, answer) := Admit(a, input);
            var stored := DecisionFor(after.ledger, RequestKey(a.accountId, input.requestId));
            && answer.Err? && answer.error.Denied? && answer.error.code.Ruled?
            && stored.Some? && !stored.value.PermitsDispatch()
  {
    var (l, policy) := CurrentPolicy(a.ledger, a.accountId, input.facts.now);
    PolicyLookupOnlyAddsOwnPolicy(a.ledger, a.accountId, input.facts.now);
    BuiltRequestIsAnchored(a.(ledger := l), input, policy.value);
    SettledRefusalIsStored(l, input, policy.value, BuildRequest(a.(ledger := l), input, policy.value).1.value);
  }

  /** An identity that the engine rejected is never admitted, whatever runs afterwards. */
  lemma RejectedIdentityIsNeverAdmitted(w: World, first: AdmitInput, steps: seq<Step>, second: AdmitInput)
    requires Invariant(w) && EngineRefuses(w.adapter, first) && first.decisionId !in w.adapter.ledger.decisions
    requires second.requestId == first.requestId && AllEnabled(Advance(w, Admitting(first)), steps)
    ensures Admit(w.adapter, first).1.Err? && Admit(w.adapter, first).1.error.Denied?
    ensures Admit(RunAll(Advance(w, Admitting(first)), steps).adapter, second).1 == Err(Unavailable)
  {
    EngineRefusalIsStored(w.adapter, first);
    AdmitKeepsInvariant(w, first);
    AdmitStoresAtMostOne(w.adapter, first);
    RefusedRequestIsNeverAdmitted(Advance(w, Admitting(first)), steps, second);
  }

  // ---- denials without a decision ----

  /** Any other denial of a request without history leaves decisions and reservations alone. */
  lemma OtherDenialsLeaveNoTrace(a: Adapter, input: AdmitInput)
    requires ApprovalFor(a.ledger, RequestKey(a.accountId, input.requestId)) == Ok(None)
    requires Admit(a, input).1.Err? && Admit(a, input).1.error.Denied? && !EngineRefuses(a, input)
    ensures var after := Admit(a, input).0;
            && SameTables(after.ledger, a.ledger) && after.accountId == a.accountId
            && a.accountId in after.ledger.policies
            && after.snapshot == a.snapshot && a.snapshot.Some? && a.snapshot.value.runtimeEpoch != 0
  {
    var (l, policy) := CurrentPolicy(a.ledger, a.accountId, input.facts.now);
    PolicyLookupOnlyAddsOwnPolicy(a.ledger, a.accountId, input.facts.now);
    var request := BuildRequest(a.(ledger := l), input, policy.value).1;
    if request.Ok? {
      BuiltRequestIsAnchored(a.(ledger := l), input, policy.value);
      DispatchMeansEveryGatePassed(input.decisionId, policy.value, request.value);
      SettleDeniesOnlyForCapacity(l, input, policy.value, request.value);
    }
  }

  /** With a ruling that permits dispatch, the only denial is the capacity denial, and it stores nothing. */
  lemma SettleDeniesOnlyForCapacity(l: Ledger, input: AdmitInput, policy: RiskPolicySet, request: RiskRequest)
    requires Decide(input.decisionId, policy, request).Ok? && Decide(input.decisionId, policy, request).value.PermitsDispatch()
    ensures var (after, answer) := Settle(l, input, policy, request, Decide(input.decisionId, policy, request).value);
            answer.Err? && answer.error.Denied? ==> answer.error.code.ReservationCapacityExceeded? && after == l
  {}

  // ---- they can be overcome ----

  lemma {:induction false} LongerThanAll(names: set<Id>) returns (name: Id)
    ensures forall x :: x in names ==> |x| < |name|
    ensures name !in names
    decreases |names|
  {
    if names == {} {
      name := "x";
    } else {
      var x :| x in names;
      var rest := LongerThanAll(names - {x});
      name := if |rest| > |x| then rest else x + "x";
      forall y | y in names ensures |y| < |name| {
        if y != x { assert y in names - {x}; }
      }
    }
  }

  lemma {:induction false} NoOrdersFor(orders: seq<OrderFact>, instrument: Id)
    requires forall i :: 0 <= i < |orders| ==> orders[i].instrumentId != instrument
    ensures OpenOrderLots(orders, instrument, None) == []
  {
    if orders != [] { NoOrdersFor(orders[1..], instrument); }
  }

  lemma NothingReservedFor(rows: map<Id, RiskReservation>, account: Id, instrument: Id)
    requires forall id :: id in rows ==> rows[id].instrumentId != instrument
    ensures ActiveDelta(rows, account, instrument) == 0
  {
    assert SignedLotColumn(rows, account, instrument).Keys == {};
  }

  /** A protection order for an instrument that nothing else is about. */
  function Harmless(requestId: Id, decisionId: Id, instrument: Id): AdmitInput {
    AdmitInput(ProtectionOrder(instrument, false), requestId, PLAIN_FACTS, false, decisionId, "")
  }

  lemma HarmlessIsBuilt(a: Adapter, requestId: Id, decisionId: Id, instrument: Id, policy: RiskPolicySet)
    requires a.snapshot.Some? && a.snapshot.value.runtimeEpoch != 0
    requires forall i :: 0 <= i < |a.snapshot.value.activeOrders| ==> a.snapshot.value.activeOrders[i].instrumentId != instrument
    requires forall id :: id in a.ledger.reservations ==> a.ledger.reservations[id].instrumentId != instrument
    ensures var request := BuildRequest(a, Harmless(requestId, decisionId, instrument), policy).1;
            request.Ok? && !request.value.action.Directional() && Dispatches(policy, request.value)
  {
    var report, input := a.snapshot.value, Harmless(requestId, decisionId, instrument);
    NoOrdersFor(report.activeOrders, instrument);
    NothingReservedFor(a.ledger.reservations, a.accountId, instrument);
    var d := Describe(input.command, report).value;
    assert PositionFigures(a.ledger.reservations, a.accountId, report, d, PLAIN_FACTS) == Ok((0, 0, 0));
    var request := BuildRequest(a, input, policy).1.value;
    DispatchMeansEveryGatePassed("", policy, request);
  }

  /** An identity without history is admitted with a protection order, under any policy. */
  lemma UndecidedIdentityCanBeAdmitted(a: Adapter, requestId: Id) returns (input: AdmitInput)
    requires ApprovalFor(a.ledger, RequestKey(a.accountId, requestId)) == Ok(None) && Consistent(a.ledger)
    requires a.accountId in a.ledger.policies && a.snapshot.Some? && a.snapshot.value.runtimeEpoch != 0
    ensures input.requestId == requestId && Admit(a, input).1.Ok?
  {
    var decisionId := LongerThanAll(a.ledger.decisions.Keys);
    var orders := a.snapshot.value.activeOrders;
    var names := (set i | 0 <= i < |orders| :: orders[i].instrumentId)
                 + (set id | id in a.ledger.reservations :: a.ledger.reservations[id].instrumentId);
    var instrument := LongerThanAll(names);
    input := Harmless(requestId, decisionId, instrument);
    assert forall i :: 0 <= i < |orders| ==> orders[i].instrumentId in names;
    assert forall id :: id in a.ledger.reservations ==> a.ledger.reservations[id].instrumentId in names;
    var policy := a.ledger.policies[a.accountId];
    HarmlessIsBuilt(a, requestId, decisionId, instrument, policy);
    BuiltRequestIsAnchored(a, input, policy);
    DispatchMeansEveryGatePassed(decisionId, policy, BuildRequest(a, input, policy).1.value);
  }

  /** No continuation of the run ever admits the identity. */
  ghost predicate Final(w: World, first: AdmitInput) {
    forall steps: seq<Step>, second: AdmitInput ::
      second.requestId == first.requestId && AllEnabled(Advance(w, Admitting(first)), steps) ==>
        Admit(RunAll(Advance(w, Admitting(first)), steps).adapter, second).1.Err?
  }

  lemma RefusalIsFinal(w: World, first: AdmitInput)
    requires Invariant(w) && EngineRefuses(w.adapter, first) && first.decisionId !in w.adapter.ledger.decisions
    ensures Final(w, first)
  {
    forall steps: seq<Step>, second: AdmitInput
      | second.requestId == first.requestId && AllEnabled(Advance(w, Admitting(first)), steps)
      ensures Admit(RunAll(Advance(w, Admitting(first)), steps).adapter, second).1.Err?
    {
      RejectedIdentityIsNeverAdmitted(w, first, steps, second);
    }
  }

  lemma OtherDenialIsNotFinal(w: World, first: AdmitInput)
    requires Invariant(w) && ApprovalFor(w.adapter.ledger, RequestKey(w.adapter.accountId, first.requestId)) == Ok(None)
    requires Admit(w.adapter, first).1.Err? && Admit(w.adapter, first).1.error.Denied? && !EngineRefuses(w.adapter, first)
    ensures !Final(w, first)
  {
    OtherDenialsLeaveNoTrace(w.adapter, first);
    AdmitKeepsInvariant(w, first);
    var after := Advance(w, Admitting(first));
    var second := UndecidedIdentityCanBeAdmitted(after.adapter, first.requestId);
    assert RunAll(after, []) == after && AllEnabled(after, []);
  }

  /** A denial of a request without history is final if and only if it is the engine's. */
  lemma DenialIsFinalExactly(w: World, first: AdmitInput)
    requires Invariant(w) && first.decisionId !in w.adapter.ledger.decisions
    requires ApprovalFor(w.adapter.ledger, RequestKey(w.adapter.accountId, first.requestId)) == Ok(None)
    requires Admit(w.adapter, first).1.Err? && Admit(w.adapter, first).1.error.Denied?
    ensures Final(w, first) <==> EngineRefuses(w.adapter, first)
  {
    if EngineRefuses(w.adapter, first) { RefusalIsFinal(w, first); } else { OtherDenialIsNotFinal(w, first); }
  }
}
