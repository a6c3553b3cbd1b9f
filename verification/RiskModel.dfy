/** Records of the risk crate: policy, request, decision and reservation. */
module RiskModel {
  import opened Machine

  type Id = string

  datatype RiskOutcome = Approve | Resize | Reject | ReduceOnly | Halt

  datatype RiskState = Normal | Warning | ReduceOnly | Halted | KillSwitch

  datatype RiskSource = Manual | Strategy | Ml | Ai | EmergencyOperator

  datatype RiskActionKind =
    | DirectionalOrder
    | ReplaceDirectionalOrder
    | CancelOrder
    | ProtectionMaintenance
    | CancelProtection
  {
    predicate Directional() { DirectionalOrder? || ReplaceDirectionalOrder? }

    predicate Cleanup() { CancelOrder? || ProtectionMaintenance? || CancelProtection? }
  }

  datatype RiskReasonCode =
    | Approved
    | ResizedToProviderLimit
    | ResizedToPolicyLimit
    | InvalidQuantity
    | InstrumentUnavailable
    | InstrumentNotTradable
    | CriticalInputMissing
    | RuntimeNotReady
    | ExecutionUnauthorized
    | PolicyRevisionChanged
    | MarketDataMissing
    | MarketDataStale
    | UnknownMutationConflict
    | ReduceOnly
    | Halted
    | MarginNotAllowed
    | MarginUtilizationExceeded
    | ProviderLimitUnavailable
    | ProviderLimitExceeded
    | MaxPositionExceeded
    | MaxGrossExposureExceeded
    | MaxNetExposureExceeded
    | MaxInstrumentExposureExceeded
    | DailyLossExceeded
    | ProtectionRequired
    | KillSwitchActive

  datatype BuyLotLimit = BuyLotLimit(maxLots: i64, maxMarketLots: i64)

  datatype SellLotLimit = SellLotLimit(maxLots: i64)

  datatype BrokerLotLimits = BrokerLotLimits(
    buyOwn: Option<BuyLotLimit>,
    buyMargin: Option<BuyLotLimit>,
    sellOwn: Option<SellLotLimit>,
    sellMargin: Option<SellLotLimit>)

  /** The two margin facts that the engine reads. */
  datatype BrokerMarginFacts = BrokerMarginFacts(liquidPortfolio: i128, correctedMargin: i128)

  datatype RiskValidityContext = RiskValidityContext(
    runtimeEpoch: u64,
    reconciliationRevision: u64,
    positionRevision: u64,
    orderRevision: u64,
    marketDataAsOf: Option<i64>,
    instrumentConstraintsRevision: u64,
    policyRevision: u64,
    executionAuthorizationRevision: u64)

  datatype ProtectionPlanState =
    Planned | Submitted | Active | PartialCoverage | FullCoverage | Cancelled | Failed | Stale
  {
    predicate PermitsAdditionalExposure() { Active? || FullCoverage? || PartialCoverage? }
  }

  datatype RiskProtectionStatus = RiskProtectionStatus(
    activeStopLots: i64,
    positionLots: i64,
    positionEnteredAt: Option<i64>,
    planState: Option<ProtectionPlanState>)
  {
    /** The final cast to 64 bits wraps for an uncovered position of 2^63 lots. */
    function UncoveredAbsLots(): i64 {
      WrapToI64(Abs(positionLots) - Min(Abs(activeStopLots), Abs(positionLots)))
    }

    predicate FullCoverage() { positionLots != 0 && UncoveredAbsLots() == 0 }
  }

  datatype RiskSnapshot = RiskSnapshot(
    runtimeReady: bool,
    executionAuthorized: bool,
    instrumentTradable: bool,
    instrumentLotSize: i64,
    unresolvedUnknownConflict: bool,
    currentPositionLots: i64,
    openOrderDeltaLots: i64,
    unresolvedUnknownDeltaLots: i64,
    activeReservationDeltaLots: i64,
    grossExposure: Option<i128>,
    netExposure: Option<i128>,
    instrumentExposure: Option<i128>,
    brokerDailyPnl: Option<i128>,
    brokerLotLimits: Option<BrokerLotLimits>,
    margin: Option<BrokerMarginFacts>,
    protection: RiskProtectionStatus,
    validity: RiskValidityContext)

  datatype RiskRequest = RiskRequest(
    requestId: Id,
    accountId: Id,
    brokerConnectionId: Id,
    instrumentId: Id,
    source: RiskSource,
    action: RiskActionKind,
    requestedDeltaLots: i64,
    requestedNotional: i128,
    isMarketOrder: bool,
    confirmMarginTrade: bool,
    emergencyReduction: bool,
    now: i64,
    snapshot: RiskSnapshot)

  datatype RiskPolicySet = RiskPolicySet(
    revision: u64,
    state: RiskState,
    allowMargin: bool,
    requireProviderLotLimit: bool,
    maxMarketDataAge: Option<i64>,
    maxSingleOrderLots: Option<i64>,
    maxPositionAbsLots: Option<i64>,
    maxGrossExposure: Option<i128>,
    maxNetExposureAbs: Option<i128>,
    maxInstrumentExposure: Option<i128>,
    maxMarginUtilizationPpm: Option<i64>,
    maxDailyLoss: Option<i128>,
    protectionRequiredForNewExposure: bool,
    maxUnprotectedDuration: Option<i64>)

  datatype RiskDecision = RiskDecision(
    decisionId: Id,
    requestId: Id,
    policyRevision: u64,
    accountId: Id,
    action: RiskActionKind,
    requestedDeltaLots: i64,
    approvedDeltaLots: i64,
    outcome: RiskOutcome,
    reason: RiskReasonCode,
    reservationId: Option<Id>,
    expiresAt: Option<i64>,
    validity: RiskValidityContext)
  {
    predicate PermitsDispatch() {
      && (outcome.Approve? || outcome.Resize?)
      && (if action.Directional() then approvedDeltaLots != 0 else approvedDeltaLots == 0)
    }
  }

  datatype ReservationState = Active | PartiallyConsumed | Consumed | Released | UnknownHeld | Orphaned
  {
    /** The four states that count against capacity. */
    predicate Holding() { Active? || PartiallyConsumed? || UnknownHeld? || Orphaned? }
  }

  datatype RiskReservation = RiskReservation(
    reservationId: Id,
    accountId: Id,
    instrumentId: Id,
    source: RiskSource,
    logicalRequestId: Id,
    reservedDeltaLots: i64,
    remainingDeltaLots: i64,
    reservedNotional: i128,
    state: ReservationState,
    createdAt: i64,
    updatedAt: i64,
    expiresAt: Option<i64>)
}
