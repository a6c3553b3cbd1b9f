/** The reason of a refusal and the error of an evaluation: each names something that is the case, and a refusal
    names the first thing that is asked and not met. */
module EngineReasons {
  import opened Machine
  import opened RiskModel
  import opened RiskEngine
  import opened EngineGuarantees
  import opened EngineConditions

  // ---- how far a request gets ----

  predicate Formed(request: RiskRequest) { QuantityFits(request) && InstrumentFits(request) }

  predicate Current(policy: RiskPolicySet, request: RiskRequest) { Formed(request) && PolicyIsCurrent(policy, request) }

  predicate Counted(policy: RiskPolicySet, request: RiskRequest) {
    Current(policy, request) && RuntimeFits(request) && Representable(request)
  }

  /** Everything that is asked of every action. */
  predicate Screened(policy: RiskPolicySet, request: RiskRequest) { Counted(policy, request) && StateFits(policy, request) }

  predicate Seen(policy: RiskPolicySet, request: RiskRequest) {
    Screened(policy, request) && Order(request) && (Grows(request) ==> MarketDataFits(policy, request))
  }

  predicate Protected(policy: RiskPolicySet, request: RiskRequest) {
    Seen(policy, request) && (Grows(request) ==> ProtectionFits(policy, request))
  }

  predicate Permitted(policy: RiskPolicySet, request: RiskRequest) {
    Protected(policy, request) && MarginIsPermitted(policy, request)
  }

  predicate Funded(policy: RiskPolicySet, request: RiskRequest) {
    Permitted(policy, request) && (Grows(request) ==> UtilizationFits(policy, request))
  }

  predicate Solvent(policy: RiskPolicySet, request: RiskRequest) {
    Funded(policy, request) && (Grows(request) ==> LossFits(policy, request))
  }

  predicate Placed(policy: RiskPolicySet, request: RiskRequest) {
    Solvent(policy, request) && (Grows(request) ==> PositionFits(policy, request))
  }

  predicate GrossChecked(policy: RiskPolicySet, request: RiskRequest) {
    Placed(policy, request) && (Grows(request) ==> GrossFits(policy, request))
  }

  predicate NetChecked(policy: RiskPolicySet, request: RiskRequest) {
    && GrossChecked(policy, request)
    && (Grows(request) ==> SignedFits(policy.maxNetExposureAbs, request.snapshot.netExposure, request.requestedNotional))
  }

  /** Everything but the size. */
  predicate Sizable(policy: RiskPolicySet, request: RiskRequest) {
    && NetChecked(policy, request)
    && (Grows(request) ==>
          SignedFits(policy.maxInstrumentExposure, request.snapshot.instrumentExposure, request.requestedNotional))
  }

  // ---- the reasons ----

  /** A figure that the policy needs for a growing order is not there, and it is the first thing missing. */
  predicate InputMissing(policy: RiskPolicySet, request: RiskRequest) {
    var s := request.snapshot;
    && Grows(request)
    && (|| (&& Permitted(policy, request) && policy.maxMarginUtilizationPpm.Some?
            && (s.margin.None? || s.margin.value.liquidPortfolio <= 0 || s.margin.value.correctedMargin < 0))
        || (Funded(policy, request) && policy.maxDailyLoss.Some? && s.brokerDailyPnl.None?)
        || (Placed(policy, request) && policy.maxGrossExposure.Some? && s.grossExposure.None?)
        || (GrossChecked(policy, request) && policy.maxNetExposureAbs.Some? && s.netExposure.None?)
        || (NetChecked(policy, request) && policy.maxInstrumentExposure.Some? && s.instrumentExposure.None?))
  }

  /** The position has been without cover for too long. */
  predicate TooLongUncovered(policy: RiskPolicySet, request: RiskRequest) {
    var p := request.snapshot.protection;
    && policy.maxUnprotectedDuration.Some? && p.positionEnteredAt.Some? && Uncovered(p)
    && !Recent(request.now, p.positionEnteredAt.value, policy.maxUnprotectedDuration.value)
  }

  ghost predicate Explains(policy: RiskPolicySet, request: RiskRequest, outcome: RiskOutcome, code: RiskReasonCode) {
    var s := request.snapshot;
    match code
    case InvalidQuantity => outcome.Reject? && !QuantityFits(request)
    case InstrumentUnavailable => outcome.Reject? && QuantityFits(request) && Order(request) && s.instrumentLotSize <= 0
    case InstrumentNotTradable =>
      outcome.Reject? && QuantityFits(request) && Order(request) && s.instrumentLotSize > 0 && !s.instrumentTradable
    case PolicyRevisionChanged => outcome.Reject? && Formed(request) && !PolicyIsCurrent(policy, request)
    case RuntimeNotReady => outcome.Halt? && Current(policy, request) && Order(request) && !s.runtimeReady
    case ExecutionUnauthorized =>
      outcome.Reject? && Current(policy, request) && (Order(request) ==> s.runtimeReady) && !s.executionAuthorized
    case UnknownMutationConflict =>
      && outcome.Halt? && Current(policy, request) && Order(request)
      && s.runtimeReady && s.executionAuthorized && s.unresolvedUnknownConflict
    case KillSwitchActive => outcome.Halt? && Counted(policy, request) && policy.state.KillSwitch? && !StateFits(policy, request)
    case Halted => outcome.Halt? && Counted(policy, request) && policy.state.Halted? && !StateFits(policy, request)
    case ReduceOnly => outcome.ReduceOnly? && Counted(policy, request) && policy.state.ReduceOnly? && !StateFits(policy, request)
    case MarketDataMissing =>
      && outcome.Reject? && Screened(policy, request) && Grows(request)
      && policy.maxMarketDataAge.Some? && s.validity.marketDataAsOf.None?
    case MarketDataStale =>
      && outcome.Reject? && Screened(policy, request) && Grows(request)
      && policy.maxMarketDataAge.Some? && s.validity.marketDataAsOf.Some?
      && !Recent(request.now, s.validity.marketDataAsOf.value, policy.maxMarketDataAge.value)
    case ProtectionRequired =>
      && Seen(policy, request) && Grows(request) && policy.protectionRequiredForNewExposure && !ProtectionFits(policy, request)
      && outcome == if TooLongUncovered(policy, request) then RiskOutcome.ReduceOnly else RiskOutcome.Reject
    case MarginNotAllowed => outcome.Reject? && Protected(policy, request) && request.confirmMarginTrade && !policy.allowMargin
    case CriticalInputMissing => outcome.Reject? && InputMissing(policy, request)
    case MarginUtilizationExceeded =>
      && outcome.Reject? && Permitted(policy, request) && Grows(request) && policy.maxMarginUtilizationPpm.Some? && s.margin.Some?
      && s.margin.value.correctedMargin * 1_000_000
         >= (policy.maxMarginUtilizationPpm.value + 1) * s.margin.value.liquidPortfolio
    case DailyLossExceeded =>
      && outcome.ReduceOnly? && Funded(policy, request) && Grows(request) && policy.maxDailyLoss.Some? && s.brokerDailyPnl.Some?
      && s.brokerDailyPnl.value + policy.maxDailyLoss.value < 0
    case MaxPositionExceeded => outcome.Reject? && Solvent(policy, request) && Grows(request) && !PositionFits(policy, request)
    case MaxGrossExposureExceeded =>
      && outcome.Reject? && Placed(policy, request) && Grows(request) && policy.maxGrossExposure.Some? && s.grossExposure.Some?
      && s.grossExposure.value + Abs(request.requestedNotional) > policy.maxGrossExposure.value
    case MaxNetExposureExceeded =>
      && outcome.Reject? && GrossChecked(policy, request) && Grows(request) && policy.maxNetExposureAbs.Some? && s.netExposure.Some?
      && Abs(s.netExposure.value + request.requestedNotional) > policy.maxNetExposureAbs.value
    case MaxInstrumentExposureExceeded =>
      && outcome.Reject? && NetChecked(policy, request) && Grows(request)
      && policy.maxInstrumentExposure.Some? && s.instrumentExposure.Some?
      && Abs(s.instrumentExposure.value + request.requestedNotional) > policy.maxInstrumentExposure.value
    case ProviderLimitUnavailable =>
      && outcome.Reject? && Sizable(policy, request) && Grows(request) && policy.requireProviderLotLimit
      && forall lots: i64 :: !CapIs(policy, request, lots)
    case ProviderLimitExceeded => outcome.Reject? && Sizable(policy, request) && CapIs(policy, request, 0)
    case _ => false
  }

  // ---- the verdicts, gate by gate ----

  lemma ScreeningExplains(policy: RiskPolicySet, request: RiskRequest)
    ensures Screening(policy, request).Pass? <==> Screened(policy, request)
    ensures var v := Screening(policy, request); v.Refuse? ==> Explains(policy, request, v.outcome, v.code)
  {
    ScreeningExactly(policy, request);
    GrowthIsPositivePortion(request);
  }

  lemma MarketDataExplains(policy: RiskPolicySet, request: RiskRequest)
    requires Screened(policy, request) && Order(request)
    ensures var v := WhenIncreasing(request, MarketDataGate(policy, request));
            && (v.Pass? <==> Seen(policy, request)) && (v.Refuse? ==> Explains(policy, request, v.outcome, v.code))
  {
    GrowthIsPositivePortion(request);
    MarketDataExactly(policy, request);
  }

  lemma ProtectionExplains(policy: RiskPolicySet, request: RiskRequest)
    requires Seen(policy, request)
    ensures var v := WhenIncreasing(request, ProtectionGate(policy, request));
            && (v.Pass? <==> Protected(policy, request)) && (v.Refuse? ==> Explains(policy, request, v.outcome, v.code))
  {
    GrowthIsPositivePortion(request);
    ProtectionExactly(policy, request);
    var p := request.snapshot.protection;
    assert p.UncoveredAbsLots() > 0 <==> Uncovered(p);
  }

  lemma UtilizationExplains(policy: RiskPolicySet, request: RiskRequest)
    requires Permitted(policy, request)
    ensures var v := WhenIncreasing(request, MarginUtilizationGate(policy, request));
            && (v.Pass? <==> Funded(policy, request)) && (v.Refuse? ==> Explains(policy, request, v.outcome, v.code))
  {
    GrowthIsPositivePortion(request);
    UtilizationExactly(policy, request);
  }

  lemma LossAndPositionExplain(policy: RiskPolicySet, request: RiskRequest)
    requires Funded(policy, request)
    ensures var v := WhenIncreasing(request, DailyLossGate(policy, request));
            && (v.Pass? <==> Solvent(policy, request)) && (v.Refuse? ==> Explains(policy, request, v.outcome, v.code))
    ensures Solvent(policy, request) ==>
              var v := WhenIncreasing(request, MaxPositionGate(policy, request));
              && (v.Pass? <==> Placed(policy, request)) && (v.Refuse? ==> Explains(policy, request, v.outcome, v.code))
  {
    GrowthIsPositivePortion(request);
    LimitsExactly(policy, request);
  }

  lemma ExposuresExplain(policy: RiskPolicySet, request: RiskRequest)
    requires Placed(policy, request)
    ensures var v := WhenIncreasing(request, GrossGate(policy, request));
            && (v.Pass? <==> GrossChecked(policy, request)) && (v.Refuse? ==> Explains(policy, request, v.outcome, v.code))
    ensures GrossChecked(policy, request) ==>
              var v := WhenIncreasing(request, NetGate(policy, request));
              && (v.Pass? <==> NetChecked(policy, request)) && (v.Refuse? ==> Explains(policy, request, v.outcome, v.code))
    ensures NetChecked(policy, request) ==>
              var v := WhenIncreasing(request, InstrumentExposureGate(policy, request));
              && (v.Pass? <==> Sizable(policy, request)) && (v.Refuse? ==> Explains(policy, request, v.outcome, v.code))
  {
    GrowthIsPositivePortion(request);
    ExposureExactly(policy, request);
  }

  lemma SizeExplains(policy: RiskPolicySet, request: RiskRequest)
    requires Sizable(policy, request)
    ensures var v := SizingGate(policy, request); v.Refuse? ==> Explains(policy, request, v.outcome, v.code)
  {
    GrowthIsPositivePortion(request);
    CapExactly(policy, request);
  }

  lemma OrderScreeningExplains(policy: RiskPolicySet, request: RiskRequest)
    requires Screened(policy, request) && Order(request)
    ensures var v := OrderScreening(policy, request);
            && (v.Pass? <==> Sizable(policy, request)) && (v.Refuse? ==> Explains(policy, request, v.outcome, v.code))
  {
    MarketDataExplains(policy, request);
    if Seen(policy, request) { ProtectionExplains(policy, request); }
    LimitsExactly(policy, request);
    if Permitted(policy, request) { UtilizationExplains(policy, request); }
    if Funded(policy, request) { LossAndPositionExplain(policy, request); }
    if Placed(policy, request) { ExposuresExplain(policy, request); }
  }

  /** A refusal gives the first reason there is, and no lots. */
  lemma RefusalNamesTheFirstReason(id: Id, policy: RiskPolicySet, request: RiskRequest)
    requires Decide(id, policy, request).Ok? && !Dispatches(policy, request)
    ensures var d := Decide(id, policy, request).value;
            d.approvedDeltaLots == 0 && Explains(policy, request, d.outcome, d.reason)
  {
    DispatchMeansEveryGatePassed(id, policy, request);
    ScreeningExplains(policy, request);
    if Screened(policy, request) && Order(request) {
      OrderScreeningExplains(policy, request);
      if Sizable(policy, request) { SizeExplains(policy, request); }
    }
  }

  /** Every decision carries the policy's revision and the request it is about. */
  lemma DecisionCarriesTheRequest(id: Id, policy: RiskPolicySet, request: RiskRequest)
    requires Decide(id, policy, request).Ok?
    ensures var d := Decide(id, policy, request).value;
            d == RiskDecision(id, request.requestId, policy.revision, request.accountId, request.action, request.requestedDeltaLots,
                              d.approvedDeltaLots, d.outcome, d.reason, None, None, request.snapshot.validity)
  {
    DispatchMeansEveryGatePassed(id, policy, request);
  }

  /** An approval carries the request it is about, and says which cap cut it short, if one did. */
  lemma ApprovalNamesItsCap(id: Id, policy: RiskPolicySet, request: RiskRequest)
    requires Dispatches(policy, request)
    ensures Decide(id, policy, request).Ok?
    ensures var d := Decide(id, policy, request).value;
            && d == RiskDecision(id, request.requestId, policy.revision, request.accountId, request.action,
                                 request.requestedDeltaLots, Granted(policy, request), d.outcome, d.reason, None, None,
                                 request.snapshot.validity)
            && (if d.approvedDeltaLots == request.requestedDeltaLots then d.outcome.Approve? && d.reason.Approved?
                else && d.outcome.Resize?
                     && (d.reason.ResizedToProviderLimit? <==>
                           exists lots: i64 :: CapIs(policy, request, lots) && lots == Abs(d.approvedDeltaLots)
                                               && (policy.maxSingleOrderLots.Some? ==> lots < policy.maxSingleOrderLots.value))
                     && (d.reason.ResizedToPolicyLimit? <==> policy.maxSingleOrderLots == Some(Abs(d.approvedDeltaLots))))
  {
    DispatchMeansEveryGatePassed(id, policy, request);
    CapExactly(policy, request);
    if Order(request) { SignedSize(ApprovedSize(policy, request), request.requestedDeltaLots); }
  }

  // ---- the errors ----

  /** A limit of the policy is out of its range, or the time of entry that a duration cap needs is unknown. */
  predicate PolicyUnusable(policy: RiskPolicySet, request: RiskRequest) {
    || (policy.maxMarketDataAge.Some? && policy.maxMarketDataAge.value < 0)
    || (&& policy.protectionRequiredForNewExposure && policy.maxUnprotectedDuration.Some?
        && (policy.maxUnprotectedDuration.value < 0 || request.snapshot.protection.positionEnteredAt.None?))
    || (policy.maxMarginUtilizationPpm.Some? && policy.maxMarginUtilizationPpm.value <= 0)
    || (policy.maxDailyLoss.Some? && policy.maxDailyLoss.value <= 0)
    || (policy.maxGrossExposure.Some? && policy.maxGrossExposure.value <= 0)
    || (policy.maxNetExposureAbs.Some? && policy.maxNetExposureAbs.value <= 0)
    || (policy.maxInstrumentExposure.Some? && policy.maxInstrumentExposure.value <= 0)
    || (policy.maxSingleOrderLots.Some? && policy.maxSingleOrderLots.value <= 0)
  }

  /** A number of the request leaves its width. */
  predicate Overflows(request: RiskRequest) {
    var s, n := request.snapshot, request.requestedNotional;
    || !Representable(request)
    || (s.margin.Some? && s.margin.value.correctedMargin * 1_000_000 > I128_MAX)
    || n == I128_MIN
    || (s.grossExposure.Some? && s.grossExposure.value + Abs(n) > I128_MAX)
    || (s.netExposure.Some? && Abs(s.netExposure.value + n) > I128_MAX)
    || (s.instrumentExposure.Some? && Abs(s.instrumentExposure.value + n) > I128_MAX)
  }

  /** An evaluation fails only for a reason of that kind. */
  lemma ErrorsNameTheirReason(id: Id, policy: RiskPolicySet, request: RiskRequest)
    requires Decide(id, policy, request).Err?
    ensures match Decide(id, policy, request).error
            case ArithmeticOverflow => Overflows(request)
            case InvalidPolicy => Order(request) && PolicyUnusable(policy, request)
            case InvalidProviderFact => Order(request) && exists lots: i64 :: lots < 0 && CapIs(policy, request, lots)
  {
    ScreeningExactly(policy, request);
    CapExactly(policy, request);
    if Screening(policy, request).Pass? && OrderScreening(policy, request).Fault? { GrowthErrors(policy, request); }
  }

  lemma GrowthErrors(policy: RiskPolicySet, request: RiskRequest)
    requires OrderScreening(policy, request).Fault?
    ensures match OrderScreening(policy, request).error
            case ArithmeticOverflow => Overflows(request)
            case InvalidPolicy => PolicyUnusable(policy, request)
            case InvalidProviderFact => false
  {}
}
