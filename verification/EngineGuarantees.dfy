/** What the admission decision guarantees, for every policy and every request. */
module EngineGuarantees {
  import opened Machine
  import opened RiskModel
  import opened RiskEngine

  predicate Dispatches(policy: RiskPolicySet, request: RiskRequest) {
    var r := Decide("", policy, request);
    r.Ok? && r.value.PermitsDispatch()
  }

  /** Lots granted by the decision; zero when it does not permit dispatch. */
  function Granted(policy: RiskPolicySet, request: RiskRequest): int {
    if Dispatches(policy, request) then Decide("", policy, request).value.approvedDeltaLots else 0
  }

  /** A request is dispatched exactly when no gate stops it, and then with the sized quantity.
      The generated identity never influences the ruling. */
  lemma DispatchMeansEveryGatePassed(id: Id, policy: RiskPolicySet, request: RiskRequest)
    ensures Dispatches(policy, request) <==> Admissibility(policy, request).Pass?
    ensures var r := Decide(id, policy, request);
            (r.Ok? && r.value.PermitsDispatch() <==> Dispatches(policy, request))
            && (r.Ok? && !r.value.PermitsDispatch() ==> r.value.approvedDeltaLots == 0)
            && (Dispatches(policy, request) ==> r.value.approvedDeltaLots == Granted(policy, request)
                                                == ApprovedLots(policy, request))
  {
    if Admissibility(policy, request).Pass? {
      ApprovedLotsFit(policy, request);
    } else if Admissibility(policy, request).Refuse? {
      RefusalsNeverApprove(policy, request);
    }
  }

  lemma RefusalsNeverApprove(policy: RiskPolicySet, request: RiskRequest)
    requires Admissibility(policy, request).Refuse?
    ensures !Admissibility(policy, request).outcome.Approve? && !Admissibility(policy, request).outcome.Resize?
  {
    assert Screening(policy, request).Refuse? ==> !Screening(policy, request).outcome.Approve? && !Screening(policy, request).outcome.Resize?;
  }

  /** The granted size is the largest one that respects the request, the policy's order cap and the
      broker's cap, and it keeps the requested side. */
  lemma GrantIsTheLargestPermittedSize(policy: RiskPolicySet, request: RiskRequest)
    requires request.action.Directional() && Dispatches(policy, request)
    ensures var lots := Granted(policy, request);
            && Sign(lots) == Sign(request.requestedDeltaLots) != 0
            && Abs(lots) <= Abs(request.requestedDeltaLots)
            && WithinCap(Abs(lots), policy.maxSingleOrderLots)
            && WithinCap(Abs(lots), ProviderCap(policy, request))
            && forall n: nat | n <= Abs(request.requestedDeltaLots) && WithinCap(n, policy.maxSingleOrderLots)
                               && WithinCap(n, ProviderCap(policy, request)) :: n <= Abs(lots)
  {
    DispatchMeansEveryGatePassed("", policy, request);
    assert QuantityGate(request).Pass? && SizingGate(policy, request).Pass?;
    SignedSize(ApprovedSize(policy, request), request.requestedDeltaLots);
  }

  lemma SignedSize(size: int, delta: int)
    requires size > 0 && delta != 0
    ensures Sign(size * Sign(delta)) == Sign(delta) && Abs(size * Sign(delta)) == size
  {}

  /** Under a position limit every dispatched order leaves the base position within the limit or
      strictly closer to flat, including a reversal that resizing cut short. */
  lemma PositionStaysWithinLimitOrShrinks(policy: RiskPolicySet, request: RiskRequest)
    requires request.action.Directional() && Dispatches(policy, request)
    requires policy.maxPositionAbsLots.Some?
    ensures var base := BasePosition(request.snapshot); var after := base + Granted(policy, request);
            Abs(after) <= Abs(policy.maxPositionAbsLots.value) || Abs(after) < Abs(base)
  {
    DispatchMeansEveryGatePassed("", policy, request);
    GrantIsTheLargestPermittedSize(policy, request);
    assert WhenIncreasing(request, MaxPositionGate(policy, request)).Pass?;
  }

  predicate ReducingState(state: RiskState) { state.ReduceOnly? || state.Halted? || state.KillSwitch? }

  /** In the reducing states every dispatched order strictly shrinks the base position. */
  lemma ReducingStatesShrinkPosition(policy: RiskPolicySet, request: RiskRequest)
    requires request.action.Directional() && Dispatches(policy, request)
    requires ReducingState(policy.state)
    ensures var base := BasePosition(request.snapshot);
            Abs(base + Granted(policy, request)) < Abs(base)
  {
    DispatchMeansEveryGatePassed("", policy, request);
    GrantIsTheLargestPermittedSize(policy, request);
    assert StateGate(policy, request).Pass?;
  }

  /** The halted states let an order through their own gate only when an emergency request closes the
      base position exactly: a partial emergency reduction is stopped as well. */
  lemma HaltedStatesAdmitOnlyAnExactClose(policy: RiskPolicySet, request: RiskRequest)
    requires request.action.Directional() && QuantityGate(request).Pass?
    requires policy.state.Halted? || policy.state.KillSwitch?
    ensures StateGate(policy, request).Pass? <==>
            request.emergencyReduction && request.requestedDeltaLots == -BasePosition(request.snapshot)
  {
    var base, delta := BasePosition(request.snapshot), request.requestedDeltaLots;
    assert Increasing(request) == 0 <==> delta == -base;
  }

  // ---- tightening a policy ----

  predicate TighterCap(strict: Option<int>, loose: Option<int>) {
    loose.Some? ==> strict.Some? && strict.value <= loose.value
  }

  function Severity(state: RiskState): nat {
    match state
    case Normal => 0
    case Warning => 0
    case ReduceOnly => 1
    case Halted => 2
    case KillSwitch => 2
  }

  function AbsCap(cap: Option<i64>): Option<int> { if cap.None? then None else Some(Abs(cap.value)) }

  /** Field by field, `strict` allows at most what `loose` allows. The position limit is compared by
      magnitude because that is how the engine reads it. */
  predicate AtLeastAsStrict(strict: RiskPolicySet, loose: RiskPolicySet) {
    && strict.revision == loose.revision
    && Severity(strict.state) >= Severity(loose.state)
    && (strict.allowMargin ==> loose.allowMargin)
    && (loose.requireProviderLotLimit ==> strict.requireProviderLotLimit)
    && TighterCap(strict.maxMarketDataAge, loose.maxMarketDataAge)
    && TighterCap(strict.maxSingleOrderLots, loose.maxSingleOrderLots)
    && TighterCap(AbsCap(strict.maxPositionAbsLots), AbsCap(loose.maxPositionAbsLots))
    && TighterCap(strict.maxGrossExposure, loose.maxGrossExposure)
    && TighterCap(strict.maxNetExposureAbs, loose.maxNetExposureAbs)
    && TighterCap(strict.maxInstrumentExposure, loose.maxInstrumentExposure)
    && TighterCap(strict.maxMarginUtilizationPpm, loose.maxMarginUtilizationPpm)
    && TighterCap(strict.maxDailyLoss, loose.maxDailyLoss)
    && (loose.protectionRequiredForNewExposure ==> strict.protectionRequiredForNewExposure)
    && TighterCap(strict.maxUnprotectedDuration, loose.maxUnprotectedDuration)
  }

  lemma LooserScreeningPasses(strict: RiskPolicySet, loose: RiskPolicySet, request: RiskRequest)
    requires AtLeastAsStrict(strict, loose) && Screening(strict, request).Pass?
    ensures Screening(loose, request).Pass?
  {
    assert StateGate(strict, request).Pass?;
    assert StateGate(loose, request).Pass?;
  }

  lemma LooserFactGatesPass(strict: RiskPolicySet, loose: RiskPolicySet, request: RiskRequest)
    requires AtLeastAsStrict(strict, loose)
    ensures MarketDataGate(strict, request).Pass? ==> MarketDataGate(loose, request).Pass?
    ensures ProtectionGate(strict, request).Pass? ==> ProtectionGate(loose, request).Pass?
    ensures MarginPermissionGate(strict, request).Pass? ==> MarginPermissionGate(loose, request).Pass?
    ensures MarginUtilizationGate(strict, request).Pass? ==> MarginUtilizationGate(loose, request).Pass?
  {}

  lemma LooserLimitGatesPass(strict: RiskPolicySet, loose: RiskPolicySet, request: RiskRequest)
    requires AtLeastAsStrict(strict, loose)
    ensures DailyLossGate(strict, request).Pass? ==> DailyLossGate(loose, request).Pass?
    ensures MaxPositionGate(strict, request).Pass? ==> MaxPositionGate(loose, request).Pass?
    ensures GrossGate(strict, request).Pass? ==> GrossGate(loose, request).Pass?
    ensures NetGate(strict, request).Pass? ==> NetGate(loose, request).Pass?
    ensures InstrumentExposureGate(strict, request).Pass? ==> InstrumentExposureGate(loose, request).Pass?
  {}

  lemma LooserSizingGrantsMore(strict: RiskPolicySet, loose: RiskPolicySet, request: RiskRequest)
    requires AtLeastAsStrict(strict, loose)
    requires MarginPermissionGate(strict, request).Pass? && SizingGate(strict, request).Pass?
    ensures SizingGate(loose, request).Pass?
    ensures ApprovedSize(strict, request) <= ApprovedSize(loose, request)
  {
    assert ProviderCap(strict, request) == ProviderCap(loose, request);
  }

  /** Tightening a policy never approves more: whatever the stricter policy dispatches, the looser
      one dispatches too, on the same side and with at least as many lots. */
  lemma TighteningNeverApprovesMore(strict: RiskPolicySet, loose: RiskPolicySet, request: RiskRequest)
    requires AtLeastAsStrict(strict, loose)
    requires Dispatches(strict, request)
    ensures Dispatches(loose, request)
    ensures Sign(Granted(loose, request)) == Sign(Granted(strict, request))
    ensures Abs(Granted(strict, request)) <= Abs(Granted(loose, request))
  {
    DispatchMeansEveryGatePassed("", strict, request);
    DispatchMeansEveryGatePassed("", loose, request);
    LooserScreeningPasses(strict, loose, request);
    if request.action.Directional() {
      LooserFactGatesPass(strict, loose, request);
      LooserLimitGatesPass(strict, loose, request);
      LooserSizingGrantsMore(strict, loose, request);
      assert Admissibility(loose, request).Pass?;
      SignedSize(ApprovedSize(strict, request), request.requestedDeltaLots);
      SignedSize(ApprovedSize(loose, request), request.requestedDeltaLots);
    }
  }
}
