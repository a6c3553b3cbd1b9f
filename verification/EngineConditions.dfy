/** What a decision means in the figures of the policy and the request: when an order is dispatched, for how
    much, and that a refusal gives the first reason there is. Stated on the records alone. */
module EngineConditions {
  import opened Machine
  import opened Arithmetic
  import opened RiskModel
  import opened RiskEngine
  import opened EngineGuarantees

  // ---- the position ----

  /** The position the request starts from. */
  function Start(request: RiskRequest): int {
    var s := request.snapshot;
    s.currentPositionLots + s.openOrderDeltaLots + s.unresolvedUnknownDeltaLots + s.activeReservationDeltaLots
  }

  /** The position the request would lead to. */
  function End(request: RiskRequest): int { Start(request) + request.requestedDeltaLots }

  /** The order grows a position: it ends on its own side of zero. */
  predicate Grows(request: RiskRequest) {
    var delta := request.requestedDeltaLots;
    (delta > 0 && End(request) > 0) || (delta < 0 && End(request) < 0)
  }

  predicate Order(request: RiskRequest) { request.action.DirectionalOrder? || request.action.ReplaceDirectionalOrder? }

  predicate Within(low: int, x: int, high: int) { low <= x <= high }

  // ---- what is asked, in the order in which it is asked ----

  predicate QuantityFits(request: RiskRequest) { Order(request) <==> request.requestedDeltaLots != 0 }

  predicate InstrumentFits(request: RiskRequest) {
    Order(request) ==> request.snapshot.instrumentLotSize >= 1 && request.snapshot.instrumentTradable
  }

  predicate PolicyIsCurrent(policy: RiskPolicySet, request: RiskRequest) {
    policy.revision == request.snapshot.validity.policyRevision
  }

  predicate RuntimeFits(request: RiskRequest) {
    && request.snapshot.executionAuthorized
    && (Order(request) ==> request.snapshot.runtimeReady && !request.snapshot.unresolvedUnknownConflict)
  }

  /** Every sum, and every magnitude that is taken, fits 64 bits. */
  predicate Representable(request: RiskRequest) {
    var s, delta := request.snapshot, request.requestedDeltaLots;
    && Within(I64_MIN, s.currentPositionLots + s.openOrderDeltaLots, I64_MAX)
    && Within(I64_MIN, s.currentPositionLots + s.openOrderDeltaLots + s.unresolvedUnknownDeltaLots, I64_MAX)
    && Within(I64_MIN, Start(request), I64_MAX) && Within(I64_MIN, End(request), I64_MAX)
    && delta != I64_MIN && (delta > 0 ==> Start(request) != I64_MIN)
  }

  predicate StateFits(policy: RiskPolicySet, request: RiskRequest) {
    Order(request) ==>
      match policy.state
      case ReduceOnly => !Grows(request)
      case Halted => request.emergencyReduction && End(request) == 0
      case KillSwitch => request.emergencyReduction && End(request) == 0
      case _ => true
  }

  /** The time since `since` is at most `limit`, where a difference of 64 bits is as far as time goes. */
  predicate Recent(now: int, since: int, limit: int) { now <= since + limit || limit == I64_MAX }

  predicate MarketDataFits(policy: RiskPolicySet, request: RiskRequest) {
    policy.maxMarketDataAge.Some? ==>
      && policy.maxMarketDataAge.value >= 0 && request.snapshot.validity.marketDataAsOf.Some?
      && Recent(request.now, request.snapshot.validity.marketDataAsOf.value, policy.maxMarketDataAge.value)
  }

  /** Lots without a stop. An uncovered position of -2^63 lots is lost to the cast. */
  predicate Uncovered(p: RiskProtectionStatus) {
    Abs(p.activeStopLots) < Abs(p.positionLots) && !(p.positionLots == I64_MIN && p.activeStopLots == 0)
  }

  predicate ProtectionFits(policy: RiskPolicySet, request: RiskRequest) {
    var p := request.snapshot.protection;
    policy.protectionRequiredForNewExposure ==>
      && (policy.maxUnprotectedDuration.Some? ==>
            && policy.maxUnprotectedDuration.value >= 0 && p.positionEnteredAt.Some?
            && (Uncovered(p) ==> Recent(request.now, p.positionEnteredAt.value, policy.maxUnprotectedDuration.value)))
      && (|| p.planState == Some(ProtectionPlanState.Active) || p.planState == Some(PartialCoverage)
          || p.planState == Some(ProtectionPlanState.FullCoverage)
          || (p.positionLots != 0 && Abs(p.activeStopLots) >= Abs(p.positionLots)))
  }

  predicate MarginIsPermitted(policy: RiskPolicySet, request: RiskRequest) { policy.allowMargin || !request.confirmMarginTrade }

  predicate UtilizationFits(policy: RiskPolicySet, request: RiskRequest) {
    policy.maxMarginUtilizationPpm.Some? ==>
      && policy.maxMarginUtilizationPpm.value >= 1 && request.snapshot.margin.Some?
      && var ppm, m := policy.maxMarginUtilizationPpm.value, request.snapshot.margin.value;
         && m.liquidPortfolio >= 1 && Within(0, m.correctedMargin * 1_000_000, I128_MAX)
         && m.correctedMargin * 1_000_000 < (ppm + 1) * m.liquidPortfolio
  }

  predicate LossFits(policy: RiskPolicySet, request: RiskRequest) {
    policy.maxDailyLoss.Some? ==>
      && policy.maxDailyLoss.value >= 1 && request.snapshot.brokerDailyPnl.Some?
      && request.snapshot.brokerDailyPnl.value + policy.maxDailyLoss.value >= 0
  }

  predicate PositionFits(policy: RiskPolicySet, request: RiskRequest) {
    policy.maxPositionAbsLots.Some? ==>
      Within(0 - Abs(policy.maxPositionAbsLots.value), End(request), Abs(policy.maxPositionAbsLots.value))
  }

  predicate GrossFits(policy: RiskPolicySet, request: RiskRequest) {
    policy.maxGrossExposure.Some? ==>
      && policy.maxGrossExposure.value >= 1 && request.snapshot.grossExposure.Some? && request.requestedNotional != I128_MIN
      && var gross, limit := request.snapshot.grossExposure.value, policy.maxGrossExposure.value;
         gross + request.requestedNotional <= limit && gross - request.requestedNotional <= limit
  }

  predicate SignedFits(limit: Option<i128>, exposure: Option<i128>, notional: i128) {
    limit.Some? ==>
      limit.value >= 1 && exposure.Some? && Within(-limit.value, exposure.value + notional, limit.value)
  }

  /** The broker's cap for the side, the order type and the funding of the order is `lots`. */
  predicate CapIs(policy: RiskPolicySet, request: RiskRequest, lots: i64) {
    && request.snapshot.brokerLotLimits.Some? && MarginIsPermitted(policy, request)
    && var l, buys, margin := request.snapshot.brokerLotLimits.value, request.requestedDeltaLots > 0, request.confirmMarginTrade;
       || (buys && !margin && !request.isMarketOrder && l.buyOwn.Some? && l.buyOwn.value.maxLots == lots)
       || (buys && !margin && request.isMarketOrder && l.buyOwn.Some? && l.buyOwn.value.maxMarketLots == lots)
       || (buys && margin && !request.isMarketOrder && l.buyMargin.Some? && l.buyMargin.value.maxLots == lots)
       || (buys && margin && request.isMarketOrder && l.buyMargin.Some? && l.buyMargin.value.maxMarketLots == lots)
       || (!buys && !margin && l.sellOwn == Some(SellLotLimit(lots)))
       || (!buys && margin && l.sellMargin == Some(SellLotLimit(lots)))
  }

  ghost predicate SizeFits(policy: RiskPolicySet, request: RiskRequest) {
    && (policy.maxSingleOrderLots.Some? ==> policy.maxSingleOrderLots.value >= 1)
    && (forall lots: i64 :: CapIs(policy, request, lots) ==> lots >= 1)
    && (policy.requireProviderLotLimit && Grows(request) ==> exists lots: i64 :: CapIs(policy, request, lots))
  }

  /** The conditions on an order that grows a position. */
  predicate GrowthFits(policy: RiskPolicySet, request: RiskRequest) {
    && MarketDataFits(policy, request) && ProtectionFits(policy, request) && UtilizationFits(policy, request)
    && LossFits(policy, request) && PositionFits(policy, request) && GrossFits(policy, request)
    && SignedFits(policy.maxNetExposureAbs, request.snapshot.netExposure, request.requestedNotional)
    && SignedFits(policy.maxInstrumentExposure, request.snapshot.instrumentExposure, request.requestedNotional)
  }

  /** Everything a request has to meet. */
  ghost predicate Meets(policy: RiskPolicySet, request: RiskRequest) {
    && QuantityFits(request) && InstrumentFits(request) && PolicyIsCurrent(policy, request) && RuntimeFits(request)
    && Representable(request) && StateFits(policy, request)
    && (Order(request) ==>
          && (Grows(request) ==> GrowthFits(policy, request))
          && MarginIsPermitted(policy, request) && SizeFits(policy, request))
  }

  // ---- the gates say the same ----

  lemma GrowthIsPositivePortion(request: RiskRequest)
    ensures Increasing(request) > 0 <==> Grows(request)
    ensures request.requestedDeltaLots != 0 ==> (Increasing(request) == 0 <==> End(request) == 0)
  {}

  lemma ScreeningExactly(policy: RiskPolicySet, request: RiskRequest)
    ensures QuantityGate(request).Pass? <==> QuantityFits(request)
    ensures InstrumentGate(request).Pass? <==> InstrumentFits(request)
    ensures RevisionGate(policy, request).Pass? <==> PolicyIsCurrent(policy, request)
    ensures RuntimeGate(request).Pass? <==> RuntimeFits(request)
    ensures PositionGate(request).Pass? <==> Representable(request)
    ensures QuantityFits(request) ==> (StateGate(policy, request).Pass? <==> StateFits(policy, request))
  {
    GrowthIsPositivePortion(request);
  }

  lemma MarketDataExactly(policy: RiskPolicySet, request: RiskRequest)
    ensures MarketDataGate(policy, request).Pass? <==> MarketDataFits(policy, request)
  {}

  lemma ProtectionExactly(policy: RiskPolicySet, request: RiskRequest)
    ensures ProtectionGate(policy, request).Pass? <==> ProtectionFits(policy, request)
  {
    var p := request.snapshot.protection;
    assert p.UncoveredAbsLots() > 0 <==> Uncovered(p);
    assert p.FullCoverage() <==> p.positionLots != 0 && Abs(p.activeStopLots) >= Abs(p.positionLots);
  }

  /** A quotient is at most `ppm` exactly when the dividend is below the next multiple. */
  lemma QuotientBelow(n: nat, d: nat, ppm: nat)
    requires d > 0
    ensures n / d <= ppm <==> n < (ppm + 1) * d
  {
    var q := n / d;
    assert n == q * d + n % d && 0 <= n % d < d;
    if q <= ppm { MulMonotone(d, q, ppm); assert d * q == q * d && d * ppm == ppm * d && (ppm + 1) * d == ppm * d + d; }
    else { MulMonotone(d, ppm + 1, q); assert d * q == q * d && d * (ppm + 1) == (ppm + 1) * d; }
  }

  lemma UtilizationExactly(policy: RiskPolicySet, request: RiskRequest)
    ensures MarginUtilizationGate(policy, request).Pass? <==> UtilizationFits(policy, request)
  {
    if policy.maxMarginUtilizationPpm.Some? && request.snapshot.margin.Some? {
      var ppm, m := policy.maxMarginUtilizationPpm.value, request.snapshot.margin.value;
      if ppm > 0 && m.liquidPortfolio > 0 && m.correctedMargin >= 0 {
        QuotientBelow(m.correctedMargin * 1_000_000, m.liquidPortfolio, ppm);
      }
    }
  }

  lemma LimitsExactly(policy: RiskPolicySet, request: RiskRequest)
    ensures DailyLossGate(policy, request).Pass? <==> LossFits(policy, request)
    ensures MaxPositionGate(policy, request).Pass? <==> PositionFits(policy, request)
    ensures MarginPermissionGate(policy, request).Pass? <==> MarginIsPermitted(policy, request)
  {}

  lemma ExposureExactly(policy: RiskPolicySet, request: RiskRequest)
    ensures GrossGate(policy, request).Pass? <==> GrossFits(policy, request)
    ensures NetGate(policy, request).Pass? <==>
              SignedFits(policy.maxNetExposureAbs, request.snapshot.netExposure, request.requestedNotional)
    ensures InstrumentExposureGate(policy, request).Pass? <==>
              SignedFits(policy.maxInstrumentExposure, request.snapshot.instrumentExposure, request.requestedNotional)
  {}

  /** The broker's cap, by side, order type and funding. */
  lemma CapExactly(policy: RiskPolicySet, request: RiskRequest)
    ensures forall lots: i64 :: CapIs(policy, request, lots) <==> ProviderCap(policy, request) == Some(lots)
  {}

  lemma SizeExactly(policy: RiskPolicySet, request: RiskRequest)
    requires Order(request) && QuantityFits(request) && Representable(request)
    ensures SizingGate(policy, request).Pass? <==> SizeFits(policy, request)
  {
    CapExactly(policy, request);
    GrowthIsPositivePortion(request);
    var cap := ProviderCap(policy, request);
    if cap.Some? { assert CapIs(policy, request, cap.value); }
  }

  lemma GrowthExactly(policy: RiskPolicySet, request: RiskRequest)
    ensures OrderScreening(policy, request).Pass? <==>
              (Grows(request) ==> GrowthFits(policy, request)) && MarginIsPermitted(policy, request)
  {
    GrowthIsPositivePortion(request);
    MarketDataExactly(policy, request);
    ProtectionExactly(policy, request);
    UtilizationExactly(policy, request);
    LimitsExactly(policy, request);
    ExposureExactly(policy, request);
  }

  /** A request is dispatched if and only if it meets every condition. */
  lemma DispatchedExactly(policy: RiskPolicySet, request: RiskRequest)
    ensures Dispatches(policy, request) <==> Meets(policy, request)
  {
    DispatchMeansEveryGatePassed("", policy, request);
    ScreeningExactly(policy, request);
    GrowthExactly(policy, request);
    if Order(request) && QuantityFits(request) && Representable(request) { SizeExactly(policy, request); }
  }

  /** A dispatched order is granted `n` lots or more exactly when it asked for as many and neither the policy's
      cap for one order nor the broker's cap is below; on the side it asked for. */
  lemma GrantedExactly(policy: RiskPolicySet, request: RiskRequest, n: nat)
    requires Order(request) && Dispatches(policy, request)
    ensures Abs(Granted(policy, request)) >= n <==>
            && Abs(request.requestedDeltaLots) >= n
            && (policy.maxSingleOrderLots.Some? ==> policy.maxSingleOrderLots.value >= n)
            && (forall lots: i64 :: CapIs(policy, request, lots) ==> lots >= n)
    ensures Granted(policy, request) > 0 <==> request.requestedDeltaLots > 0
    ensures Granted(policy, request) < 0 <==> request.requestedDeltaLots < 0
  {
    GrantIsTheLargestPermittedSize(policy, request);
    CapExactly(policy, request);
    var cap := ProviderCap(policy, request);
    if cap.Some? { assert CapIs(policy, request, cap.value); }
  }
}
