/** The admission decision. The specification is a chain of named gates, each of which passes,
    refuses with an outcome and a reason, or faults; `Evaluate` is the early-return procedure with
    its running quantity, proved to compute the same decision. */
module RiskEngine {
  import opened Machine
  import opened RiskModel

  datatype EngineError = ArithmeticOverflow | InvalidPolicy | InvalidProviderFact

  datatype Verdict = Pass | Refuse(outcome: RiskOutcome, code: RiskReasonCode) | Fault(error: EngineError)
  {
    function Then(next: Verdict): Verdict { if Pass? then next else this }
  }

  // ---- position arithmetic ----

  /** Position plus open orders, unresolved mutations and live reservations. */
  function BasePosition(s: RiskSnapshot): int {
    s.currentPositionLots + s.openOrderDeltaLots + s.unresolvedUnknownDeltaLots + s.activeReservationDeltaLots
  }

  /** The part of `delta` that grows the position. It is negative for a partial reduction: the
      64-bit saturating subtraction does not stop at zero. */
  function IncreasingPortion(base: int, delta: int): int {
    if delta == 0 then 0
    else if base == 0 || Sign(base) == Sign(delta) then Abs(delta)
    else Abs(delta) - Abs(base)
  }

  function Increasing(request: RiskRequest): int {
    IncreasingPortion(BasePosition(request.snapshot), request.requestedDeltaLots)
  }

  predicate PositionRepresentable(s: RiskSnapshot, delta: i64) {
    && FitsI64(s.currentPositionLots + s.openOrderDeltaLots)
    && FitsI64(s.currentPositionLots + s.openOrderDeltaLots + s.unresolvedUnknownDeltaLots)
    && FitsI64(BasePosition(s))
    && FitsI64(BasePosition(s) + delta)
    && (delta != 0 ==>
          && Abs(delta) <= I64_MAX
          && (BasePosition(s) != 0 && Sign(BasePosition(s)) != Sign(delta) ==> Abs(BasePosition(s)) <= I64_MAX))
  }

  // ---- gates applied to every action ----

  function QuantityGate(request: RiskRequest): Verdict {
    if request.action.Directional() == (request.requestedDeltaLots == 0)
    then Refuse(RiskOutcome.Reject, InvalidQuantity) else Pass
  }

  function InstrumentGate(request: RiskRequest): Verdict {
    if !request.action.Directional() then Pass
    else if request.snapshot.instrumentLotSize <= 0 then Refuse(RiskOutcome.Reject, InstrumentUnavailable)
    else if !request.snapshot.instrumentTradable then Refuse(RiskOutcome.Reject, InstrumentNotTradable)
    else Pass
  }

  function RevisionGate(policy: RiskPolicySet, request: RiskRequest): Verdict {
    if request.snapshot.validity.policyRevision != policy.revision
    then Refuse(RiskOutcome.Reject, PolicyRevisionChanged) else Pass
  }

  function RuntimeGate(request: RiskRequest): Verdict {
    var s := request.snapshot;
    if !s.runtimeReady && !request.action.Cleanup() then Refuse(RiskOutcome.Halt, RuntimeNotReady)
    else if !s.executionAuthorized then Refuse(RiskOutcome.Reject, ExecutionUnauthorized)
    else if s.unresolvedUnknownConflict && !request.action.Cleanup()
    then Refuse(RiskOutcome.Halt, UnknownMutationConflict)
    else Pass
  }

  function PositionGate(request: RiskRequest): Verdict {
    if PositionRepresentable(request.snapshot, request.requestedDeltaLots) then Pass
    else Fault(ArithmeticOverflow)
  }

  function StateGate(policy: RiskPolicySet, request: RiskRequest): Verdict {
    var emergencyClose := request.emergencyReduction && Increasing(request) == 0;
    match policy.state
    case KillSwitch =>
      if !emergencyClose && !request.action.Cleanup() then Refuse(RiskOutcome.Halt, KillSwitchActive) else Pass
    case Halted =>
      if !emergencyClose && !request.action.Cleanup() then Refuse(RiskOutcome.Halt, RiskReasonCode.Halted) else Pass
    case ReduceOnly =>
      if Increasing(request) > 0 then Refuse(RiskOutcome.ReduceOnly, RiskReasonCode.ReduceOnly) else Pass
    case Normal => Pass
    case Warning => Pass
  }

  function Screening(policy: RiskPolicySet, request: RiskRequest): Verdict {
    QuantityGate(request)
    .Then(InstrumentGate(request))
    .Then(RevisionGate(policy, request))
    .Then(RuntimeGate(request))
    .Then(PositionGate(request))
    .Then(StateGate(policy, request))
  }

  // ---- gates applied to orders ----

  function MarketDataGate(policy: RiskPolicySet, request: RiskRequest): Verdict {
    match policy.maxMarketDataAge
    case None => Pass
    case Some(maxAge) =>
      if maxAge < 0 then Fault(InvalidPolicy)
      else match request.snapshot.validity.marketDataAsOf
        case None => Refuse(RiskOutcome.Reject, MarketDataMissing)
        case Some(asOf) =>
          if SaturatingSub(request.now, asOf) > maxAge then Refuse(RiskOutcome.Reject, MarketDataStale) else Pass
  }

  function UnprotectedDurationGate(policy: RiskPolicySet, request: RiskRequest): Verdict {
    var p := request.snapshot.protection;
    match policy.maxUnprotectedDuration
    case None => Pass
    case Some(maxDuration) =>
      if maxDuration < 0 || p.positionEnteredAt.None? then Fault(InvalidPolicy)
      else if p.UncoveredAbsLots() > 0 && SaturatingSub(request.now, p.positionEnteredAt.value) > maxDuration
      then Refuse(RiskOutcome.ReduceOnly, ProtectionRequired) else Pass
  }

  function CoverageGate(request: RiskRequest): Verdict {
    var p := request.snapshot.protection;
    if (p.planState.Some? && p.planState.value.PermitsAdditionalExposure()) || p.FullCoverage()
    then Pass else Refuse(RiskOutcome.Reject, ProtectionRequired)
  }

  function ProtectionGate(policy: RiskPolicySet, request: RiskRequest): Verdict {
    if !policy.protectionRequiredForNewExposure then Pass
    else UnprotectedDurationGate(policy, request).Then(CoverageGate(request))
  }

  function MarginPermissionGate(policy: RiskPolicySet, request: RiskRequest): Verdict {
    if request.confirmMarginTrade && !policy.allowMargin then Refuse(RiskOutcome.Reject, MarginNotAllowed) else Pass
  }

  function MarginUtilizationGate(policy: RiskPolicySet, request: RiskRequest): Verdict {
    match policy.maxMarginUtilizationPpm
    case None => Pass
    case Some(ppm) =>
      if ppm <= 0 then Fault(InvalidPolicy)
      else match request.snapshot.margin
        case None => Refuse(RiskOutcome.Reject, CriticalInputMissing)
        case Some(m) =>
          if m.liquidPortfolio <= 0 || m.correctedMargin < 0 then Refuse(RiskOutcome.Reject, CriticalInputMissing)
          else if !FitsI128(m.correctedMargin * 1_000_000) then Fault(ArithmeticOverflow)
          else if TruncDiv(m.correctedMargin * 1_000_000, m.liquidPortfolio) > ppm
          then Refuse(RiskOutcome.Reject, MarginUtilizationExceeded) else Pass
  }

  function DailyLossGate(policy: RiskPolicySet, request: RiskRequest): Verdict {
    match policy.maxDailyLoss
    case None => Pass
    case Some(maxLoss) =>
      match request.snapshot.brokerDailyPnl
      case None => Refuse(RiskOutcome.Reject, CriticalInputMissing)
      case Some(pnl) =>
        if maxLoss <= 0 then Fault(InvalidPolicy)
        else if pnl < -maxLoss then Refuse(RiskOutcome.ReduceOnly, DailyLossExceeded) else Pass
  }

  function MaxPositionGate(policy: RiskPolicySet, request: RiskRequest): Verdict {
    match policy.maxPositionAbsLots
    case None => Pass
    case Some(limit) =>
      if Abs(BasePosition(request.snapshot) + request.requestedDeltaLots) > Abs(limit)
      then Refuse(RiskOutcome.Reject, MaxPositionExceeded) else Pass
  }

  /** Shared by the three exposure limits: `projected` is the exposure after the order and
      `representable` says that no intermediate value overflowed. */
  function ExposureGate(limit: Option<i128>, exposure: Option<i128>, projected: int, representable: bool,
                        code: RiskReasonCode): Verdict {
    if limit.None? then Pass
    else if exposure.None? then Refuse(RiskOutcome.Reject, CriticalInputMissing)
    else if !representable then Fault(ArithmeticOverflow)
    else if limit.value <= 0 then Fault(InvalidPolicy)
    else if projected > limit.value then Refuse(RiskOutcome.Reject, code) else Pass
  }

  function GrossGate(policy: RiskPolicySet, request: RiskRequest): Verdict {
    var exposure := request.snapshot.grossExposure;
    var before := if exposure.Some? then exposure.value else 0;
    var notional := Abs(request.requestedNotional);
    ExposureGate(policy.maxGrossExposure, exposure, before + notional,
                 FitsI128(notional) && FitsI128(before + notional), MaxGrossExposureExceeded)
  }

  function SignedExposureGate(limit: Option<i128>, exposure: Option<i128>, notional: i128,
                              code: RiskReasonCode): Verdict {
    var after := (if exposure.Some? then exposure.value else 0) + notional;
    ExposureGate(limit, exposure, Abs(after), FitsI128(after) && FitsI128(Abs(after)), code)
  }

  function NetGate(policy: RiskPolicySet, request: RiskRequest): Verdict {
    SignedExposureGate(policy.maxNetExposureAbs, request.snapshot.netExposure, request.requestedNotional,
                       MaxNetExposureExceeded)
  }

  function InstrumentExposureGate(policy: RiskPolicySet, request: RiskRequest): Verdict {
    SignedExposureGate(policy.maxInstrumentExposure, request.snapshot.instrumentExposure, request.requestedNotional,
                       MaxInstrumentExposureExceeded)
  }

  /** A gate that only binds the part of an order that grows the position. */
  function WhenIncreasing(request: RiskRequest, gate: Verdict): Verdict {
    if Increasing(request) > 0 then gate else Pass
  }

  function OrderScreening(policy: RiskPolicySet, request: RiskRequest): Verdict {
    WhenIncreasing(request, MarketDataGate(policy, request))
    .Then(WhenIncreasing(request, ProtectionGate(policy, request)))
    .Then(MarginPermissionGate(policy, request))
    .Then(WhenIncreasing(request, MarginUtilizationGate(policy, request)))
    .Then(WhenIncreasing(request, DailyLossGate(policy, request)))
    .Then(WhenIncreasing(request, MaxPositionGate(policy, request)))
    .Then(WhenIncreasing(request, GrossGate(policy, request)))
    .Then(WhenIncreasing(request, NetGate(policy, request)))
    .Then(WhenIncreasing(request, InstrumentExposureGate(policy, request)))
  }

  // ---- sizing ----

  /** The broker quantity cap that applies to this side, order type and funding, if one is known. */
  function ProviderCap(policy: RiskPolicySet, request: RiskRequest): Option<i64> {
    match request.snapshot.brokerLotLimits
    case None => None
    case Some(limits) =>
      if request.confirmMarginTrade && !policy.allowMargin then None
      else if request.requestedDeltaLots > 0 then
        var buy := if request.confirmMarginTrade then limits.buyMargin else limits.buyOwn;
        if buy.None? then None
        else Some(if request.isMarketOrder then buy.value.maxMarketLots else buy.value.maxLots)
      else
        var sell := if request.confirmMarginTrade then limits.sellMargin else limits.sellOwn;
        if sell.None? then None else Some(sell.value.maxLots)
  }

  predicate WithinCap(lots: int, cap: Option<i64>) { cap.None? || lots <= cap.value }

  function Capped(lots: int, cap: Option<i64>): int { if WithinCap(lots, cap) then lots else cap.value }

  function AfterPolicyCap(policy: RiskPolicySet, request: RiskRequest): int {
    Capped(Abs(request.requestedDeltaLots), policy.maxSingleOrderLots)
  }

  function ApprovedSize(policy: RiskPolicySet, request: RiskRequest): int {
    Capped(AfterPolicyCap(policy, request), ProviderCap(policy, request))
  }

  function SizingGate(policy: RiskPolicySet, request: RiskRequest): Verdict {
    var cap := ProviderCap(policy, request);
    if Abs(request.requestedDeltaLots) > I64_MAX then Fault(ArithmeticOverflow)
    else if policy.maxSingleOrderLots.Some? && policy.maxSingleOrderLots.value <= 0 then Fault(InvalidPolicy)
    else if cap.Some? && cap.value < 0 then Fault(InvalidProviderFact)
    else if cap.None? && policy.requireProviderLotLimit && Increasing(request) > 0
    then Refuse(RiskOutcome.Reject, ProviderLimitUnavailable)
    else if ApprovedSize(policy, request) == 0 then Refuse(RiskOutcome.Reject, ProviderLimitExceeded)
    else Pass
  }

  // ---- the decision ----

  function Ruling(id: Id, policy: RiskPolicySet, request: RiskRequest, approved: i64, outcome: RiskOutcome,
                  code: RiskReasonCode): RiskDecision {
    RiskDecision(id, request.requestId, policy.revision, request.accountId, request.action,
                 request.requestedDeltaLots, approved, outcome, code, None, None, request.snapshot.validity)
  }

  /** All gates that a request of this kind has to pass, in the order they are asked. */
  function Admissibility(policy: RiskPolicySet, request: RiskRequest): Verdict {
    Screening(policy, request)
    .Then(if request.action.Directional()
          then OrderScreening(policy, request).Then(SizingGate(policy, request)) else Pass)
  }

  function ApprovedLots(policy: RiskPolicySet, request: RiskRequest): int {
    if request.action.Directional() then ApprovedSize(policy, request) * Sign(request.requestedDeltaLots) else 0
  }

  lemma ApprovedLotsFit(policy: RiskPolicySet, request: RiskRequest)
    requires Admissibility(policy, request).Pass?
    ensures FitsI64(ApprovedLots(policy, request))
    ensures request.action.Directional() ==> ApprovedLots(policy, request) != 0
  {
    if request.action.Directional() {
      assert SizingGate(policy, request).Pass?;
    }
  }

  function Decide(id: Id, policy: RiskPolicySet, request: RiskRequest): Result<RiskDecision, EngineError> {
    match Admissibility(policy, request)
    case Fault(e) => Err(e)
    case Refuse(outcome, code) => Ok(Ruling(id, policy, request, 0, outcome, code))
    case Pass =>
      ApprovedLotsFit(policy, request);
      var approved := ApprovedLots(policy, request);
      Ok(if approved == request.requestedDeltaLots
         then Ruling(id, policy, request, approved, RiskOutcome.Approve, Approved)
         else Ruling(id, policy, request, approved, RiskOutcome.Resize,
                     if WithinCap(AfterPolicyCap(policy, request), ProviderCap(policy, request))
                     then ResizedToPolicyLimit else ResizedToProviderLimit))
  }

  // ---- the procedure ----

  method ValidateMarketData(policy: RiskPolicySet, request: RiskRequest) returns (verdict: Verdict)
    ensures verdict == MarketDataGate(policy, request)
  {
    if policy.maxMarketDataAge.None? { return Pass; }
    var maxAge := policy.maxMarketDataAge.value;
    if maxAge < 0 { return Fault(InvalidPolicy); }
    if request.snapshot.validity.marketDataAsOf.None? { return Refuse(RiskOutcome.Reject, MarketDataMissing); }
    var age := SaturatingSub(request.now, request.snapshot.validity.marketDataAsOf.value);
    if age > maxAge { return Refuse(RiskOutcome.Reject, MarketDataStale); }
    return Pass;
  }

  method ValidateProtection(policy: RiskPolicySet, request: RiskRequest) returns (verdict: Verdict)
    ensures verdict == ProtectionGate(policy, request)
  {
    if !policy.protectionRequiredForNewExposure { return Pass; }
    var protection := request.snapshot.protection;
    if policy.maxUnprotectedDuration.Some? {
      var maxDuration := policy.maxUnprotectedDuration.value;
      if maxDuration < 0 { return Fault(InvalidPolicy); }
      if protection.positionEnteredAt.None? { return Fault(InvalidPolicy); }
      var age := SaturatingSub(request.now, protection.positionEnteredAt.value);
      if protection.UncoveredAbsLots() > 0 && age > maxDuration {
        return Refuse(RiskOutcome.ReduceOnly, ProtectionRequired);
      }
    }
    var planAcceptable :=
      protection.planState.Some? && protection.planState.value.PermitsAdditionalExposure();
    if !planAcceptable && !protection.FullCoverage() {
      return Refuse(RiskOutcome.Reject, ProtectionRequired);
    }
    return Pass;
  }

  /** The checks shared by all actions, up to and including the policy state. */
  method Screen(policy: RiskPolicySet, request: RiskRequest) returns (verdict: Verdict)
    ensures verdict == Screening(policy, request)
  {
    var s := request.snapshot;
    var directional := request.action.Directional();
    if directional && request.requestedDeltaLots == 0 { return Refuse(RiskOutcome.Reject, InvalidQuantity); }
    if !directional && request.requestedDeltaLots != 0 { return Refuse(RiskOutcome.Reject, InvalidQuantity); }
    if directional && s.instrumentLotSize <= 0 { return Refuse(RiskOutcome.Reject, InstrumentUnavailable); }
    if directional && !s.instrumentTradable { return Refuse(RiskOutcome.Reject, InstrumentNotTradable); }
    if s.validity.policyRevision != policy.revision { return Refuse(RiskOutcome.Reject, PolicyRevisionChanged); }
    var cleanup := request.action.Cleanup();
    if !s.runtimeReady && !cleanup { return Refuse(RiskOutcome.Halt, RuntimeNotReady); }
    if !s.executionAuthorized { return Refuse(RiskOutcome.Reject, ExecutionUnauthorized); }
    if s.unresolvedUnknownConflict && !cleanup { return Refuse(RiskOutcome.Halt, UnknownMutationConflict); }
    if !PositionRepresentable(s, request.requestedDeltaLots) { return Fault(ArithmeticOverflow); }
    var increasing := Increasing(request);
    match policy.state {
      case KillSwitch =>
        if !(request.emergencyReduction && increasing == 0) && !cleanup {
          return Refuse(RiskOutcome.Halt, KillSwitchActive);
        }
      case Halted =>
        if !(request.emergencyReduction && increasing == 0) && !cleanup {
          return Refuse(RiskOutcome.Halt, RiskReasonCode.Halted);
        }
      case ReduceOnly =>
        if increasing > 0 { return Refuse(RiskOutcome.ReduceOnly, RiskReasonCode.ReduceOnly); }
      case _ =>
    }
    return Pass;
  }

  /** The limits that an order has to respect before it is sized. */
  method ScreenOrder(policy: RiskPolicySet, request: RiskRequest) returns (verdict: Verdict)
    ensures verdict == OrderScreening(policy, request)
  {
    var increasing := Increasing(request);
    if increasing > 0 {
      verdict := ValidateMarketData(policy, request);
      if !verdict.Pass? { return; }
      verdict := ValidateProtection(policy, request);
      if !verdict.Pass? { return; }
    }
    if request.confirmMarginTrade && !policy.allowMargin { return Refuse(RiskOutcome.Reject, MarginNotAllowed); }
    if policy.maxMarginUtilizationPpm.Some? && increasing > 0 {
      var maxUtilization := policy.maxMarginUtilizationPpm.value;
      if maxUtilization <= 0 { return Fault(InvalidPolicy); }
      if request.snapshot.margin.None? { return Refuse(RiskOutcome.Reject, CriticalInputMissing); }
      var margin := request.snapshot.margin.value;
      if margin.liquidPortfolio <= 0 || margin.correctedMargin < 0 {
        return Refuse(RiskOutcome.Reject, CriticalInputMissing);
      }
      var scaled := margin.correctedMargin * 1_000_000;
      if !FitsI128(scaled) { return Fault(ArithmeticOverflow); }
      if TruncDiv(scaled, margin.liquidPortfolio) > maxUtilization {
        return Refuse(RiskOutcome.Reject, MarginUtilizationExceeded);
      }
    }
    if policy.maxDailyLoss.Some? && increasing > 0 {
      if request.snapshot.brokerDailyPnl.None? { return Refuse(RiskOutcome.Reject, CriticalInputMissing); }
      if policy.maxDailyLoss.value <= 0 { return Fault(InvalidPolicy); }
      if request.snapshot.brokerDailyPnl.value < -policy.maxDailyLoss.value {
        return Refuse(RiskOutcome.ReduceOnly, DailyLossExceeded);
      }
    }
    var projected := BasePosition(request.snapshot) + request.requestedDeltaLots;
    if policy.maxPositionAbsLots.Some? && Abs(projected) > Abs(policy.maxPositionAbsLots.value) && increasing > 0 {
      return Refuse(RiskOutcome.Reject, MaxPositionExceeded);
    }
    if increasing > 0 { verdict := ScreenExposure(policy, request); } else { verdict := Pass; }
  }

  /** The three exposure limits of an order that grows the position: gross, net and instrument. */
  method ScreenExposure(policy: RiskPolicySet, request: RiskRequest) returns (verdict: Verdict)
    ensures verdict == GrossGate(policy, request).Then(NetGate(policy, request)).Then(InstrumentExposureGate(policy, request))
  {
    var s, notional := request.snapshot, request.requestedNotional;
    if policy.maxGrossExposure.Some? {
      if s.grossExposure.None? { return Refuse(RiskOutcome.Reject, CriticalInputMissing); }
      var size := Abs(notional);
      if !FitsI128(size) { return Fault(ArithmeticOverflow); }
      var gross := s.grossExposure.value + size;
      if !FitsI128(gross) { return Fault(ArithmeticOverflow); }
      if policy.maxGrossExposure.value <= 0 { return Fault(InvalidPolicy); }
      if gross > policy.maxGrossExposure.value { return Refuse(RiskOutcome.Reject, MaxGrossExposureExceeded); }
    }
    if policy.maxNetExposureAbs.Some? {
      if s.netExposure.None? { return Refuse(RiskOutcome.Reject, CriticalInputMissing); }
      var net := s.netExposure.value + notional;
      if !FitsI128(net) || !FitsI128(Abs(net)) { return Fault(ArithmeticOverflow); }
      if policy.maxNetExposureAbs.value <= 0 { return Fault(InvalidPolicy); }
      if Abs(net) > policy.maxNetExposureAbs.value { return Refuse(RiskOutcome.Reject, MaxNetExposureExceeded); }
    }
    if policy.maxInstrumentExposure.Some? {
      if s.instrumentExposure.None? { return Refuse(RiskOutcome.Reject, CriticalInputMissing); }
      var instrument := s.instrumentExposure.value + notional;
      if !FitsI128(instrument) || !FitsI128(Abs(instrument)) { return Fault(ArithmeticOverflow); }
      if policy.maxInstrumentExposure.value <= 0 { return Fault(InvalidPolicy); }
      if Abs(instrument) > policy.maxInstrumentExposure.value {
        return Refuse(RiskOutcome.Reject, MaxInstrumentExposureExceeded);
      }
    }
    return Pass;
  }

  method Evaluate(id: Id, policy: RiskPolicySet, request: RiskRequest)
    returns (r: Result<RiskDecision, EngineError>)
    ensures r == Decide(id, policy, request)
  {
    var verdict := Screen(policy, request);
    if verdict.Fault? { return Err(verdict.error); }
    if verdict.Refuse? { return Ok(Ruling(id, policy, request, 0, verdict.outcome, verdict.code)); }
    if !request.action.Directional() {
      return Ok(Ruling(id, policy, request, 0, RiskOutcome.Approve, Approved));
    }
    verdict := ScreenOrder(policy, request);
    if verdict.Fault? { return Err(verdict.error); }
    if verdict.Refuse? { return Ok(Ruling(id, policy, request, 0, verdict.outcome, verdict.code)); }

    var approvedAbs := Abs(request.requestedDeltaLots);
    var resizeReason: Option<RiskReasonCode> := None;
    if approvedAbs > I64_MAX { return Err(ArithmeticOverflow); }
    if policy.maxSingleOrderLots.Some? {
      var maxOrder := policy.maxSingleOrderLots.value;
      if maxOrder <= 0 { return Err(InvalidPolicy); }
      if approvedAbs > maxOrder {
        approvedAbs := maxOrder;
        resizeReason := Some(ResizedToPolicyLimit);
      }
    }
    var limit := ProviderCap(policy, request);
    if limit.Some? && limit.value < 0 { return Err(InvalidProviderFact); }
    if limit.Some? && approvedAbs > limit.value {
      approvedAbs := limit.value;
      resizeReason := Some(ResizedToProviderLimit);
    } else if limit.None? && policy.requireProviderLotLimit && Increasing(request) > 0 {
      return Ok(Ruling(id, policy, request, 0, RiskOutcome.Reject, ProviderLimitUnavailable));
    }
    if approvedAbs == 0 {
      return Ok(Ruling(id, policy, request, 0, RiskOutcome.Reject, ProviderLimitExceeded));
    }
    var approvedDelta := approvedAbs * Sign(request.requestedDeltaLots);
    if approvedDelta == request.requestedDeltaLots {
      return Ok(Ruling(id, policy, request, approvedDelta, RiskOutcome.Approve, Approved));
    }
    if resizeReason.None? { return Err(ArithmeticOverflow); }
    return Ok(Ruling(id, policy, request, approvedDelta, RiskOutcome.Resize, resizeReason.value));
  }
}
