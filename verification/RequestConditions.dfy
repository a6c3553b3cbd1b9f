/** When an admission can put its request to the engine, and what it then tells the engine: stated on the
    command, the report, the reservations and the broker's answers alone. */
module RequestConditions {
  import opened Machine
  import opened Arithmetic
  import opened RiskModel
  import opened RiskEngine
  import opened Admission
  import opened ReportReading

  // ---- what is needed ----

  predicate IsOrder(meaning: Description) {
    meaning.action.DirectionalOrder? || meaning.action.ReplaceDirectionalOrder?
  }

  /** The runtime, the connection, the authorization service and the broker session all answered. */
  predicate Reached(a: Adapter, facts: BrokerFacts) {
    && a.snapshot.Some? && a.snapshot.value.runtimeEpoch != 0
    && facts.addressed && facts.authorizationRevision.Some? && facts.session
  }

  predicate Recent(now: int, since: int) { now <= since + 1_000 }

  /** Cached constraints serve for a second; otherwise they were fetched, at a time that is not negative. */
  predicate ConstraintsAt(cache: map<Id, i64>, instrument: Id, facts: BrokerFacts, fetched: int) {
    && fetched >= 0
    && (if instrument in cache && Recent(facts.now, cache[instrument]) then fetched == cache[instrument]
        else facts.constraints && fetched == facts.now)
  }

  /** The position in whole lots, what is left of the open orders, and what is reserved. */
  ghost predicate FiguresAre(a: Adapter, meaning: Description, facts: BrokerFacts, current: int, open: int, reserved: int)
    requires a.snapshot.Some?
  {
    var report := a.snapshot.value;
    && (if IsOrder(meaning)
        then && UnitsFit(0, report.positions, meaning.instrumentId) && facts.lotSize != 0
             && current * facts.lotSize == UnitsOf(report.positions, meaning.instrumentId)
        else current == 0)
    && OrdersFit(0, report.activeOrders, meaning.instrumentId, meaning.replacedOrderId)
    && open == LeftOf(report.activeOrders, meaning.instrumentId, meaning.replacedOrderId)
    && reserved == HeldDelta(a.ledger.reservations, a.accountId, meaning.instrumentId)
    && FitsI64(current) && FitsI64(reserved) && FitsI64(current + open) && FitsI64(current + open + reserved)
  }

  predicate Grows(base: int, delta: int) { (delta > 0 && base + delta > 0) || (delta < 0 && base + delta < 0) }

  predicate LimitsExposure(policy: RiskPolicySet) {
    policy.maxGrossExposure.Some? || policy.maxNetExposureAbs.Some? || policy.maxInstrumentExposure.Some?
  }

  /** A price is needed only where an exposure limit meets an order that grows the position. */
  predicate PriceKnown(meaning: Description, base: int, policy: RiskPolicySet, facts: BrokerFacts) {
    IsOrder(meaning) && Grows(base, meaning.deltaLots) && LimitsExposure(policy) ==>
      meaning.priced && facts.orderTotal.Some? && (meaning.deltaLots < 0 ==> facts.orderTotal.value != I128_MIN)
  }

  predicate MarginNeeded(meaning: Description, base: int, policy: RiskPolicySet) {
    && Grows(base, meaning.deltaLots)
    && (policy.maxMarginUtilizationPpm.Some? || (policy.allowMargin && meaning.confirmMargin))
  }

  predicate Answered(meaning: Description, base: int, policy: RiskPolicySet, facts: BrokerFacts) {
    && (IsOrder(meaning) ==> facts.lotLimits.Some?)
    && facts.unresolvedConflict.Some? && facts.readablePnl && facts.protection.Some?
    && meaning.deltaLots != I64_MIN && (meaning.deltaLots > 0 ==> base != I64_MIN)
    && PriceKnown(meaning, base, policy, facts)
    && (MarginNeeded(meaning, base, policy) ==> facts.margin.Some?)
  }

  // ---- the parts ----

  lemma PortionIsGrowth(base: int, delta: int)
    ensures IncreasingPortion(base, delta) > 0 <==> Grows(base, delta)
  {}

  /** Whole lots are those whose units divide, whatever the sign of the lot size. */
  lemma PositionLotsExactly(units: i64, lotSize: i64)
    ensures forall lots: i64 :: PositionLots(units, lotSize) == Some(lots) <==> lotSize != 0 && lots * lotSize == units
  {
    if lotSize != 0 {
      forall lots: i64 | lots * lotSize == units ensures PositionLots(units, lotSize) == Some(lots) {
        var q := if lotSize > 0 then lotSize else 0 - lotSize;
        var signed := if lotSize > 0 then lots else 0 - lots;
        assert signed * q == units;
        ExactQuotient(units, q, signed);
      }
    }
  }

  lemma ExactQuotient(units: int, q: int, lots: int)
    requires q > 0 && lots * q == units
    ensures TruncDiv(units, q) == lots
  {
    var n := if units >= 0 then units else 0 - units;
    var m := if units >= 0 then lots else 0 - lots;
    assert q * m == n;
    QuotientAtMost(n, q, m);
  }

  lemma PositionExactly(report: Report, meaning: Description, facts: BrokerFacts, lots: i64)
    ensures var units := CheckedSum(0, PositionUnits(report.positions, meaning.instrumentId));
            units.Some? && PositionLots(units.value, facts.lotSize) == Some(lots) <==>
              && UnitsFit(0, report.positions, meaning.instrumentId) && facts.lotSize != 0
              && lots * facts.lotSize == UnitsOf(report.positions, meaning.instrumentId)
  {
    var units := CheckedSum(0, PositionUnits(report.positions, meaning.instrumentId));
    UnitsAreSummed(0, report.positions, meaning.instrumentId);
    if units.Some? { PositionLotsExactly(units.value, facts.lotSize); }
  }

  lemma FiguresExactly(a: Adapter, meaning: Description, facts: BrokerFacts, current: i64, open: i64, reserved: i64)
    requires a.snapshot.Some? && facts.unresolvedConflict.Some? && (IsOrder(meaning) ==> facts.lotLimits.Some?)
    ensures PositionFigures(a.ledger.reservations, a.accountId, a.snapshot.value, meaning, facts) == Ok((current, open, reserved)) <==>
              FiguresAre(a, meaning, facts, current, open, reserved)
  {
    PositionExactly(a.snapshot.value, meaning, facts, current);
    OrdersAreSummed(0, a.snapshot.value.activeOrders, meaning.instrumentId, meaning.replacedOrderId);
    ActiveDeltaIsHeld(a.ledger.reservations, a.accountId, meaning.instrumentId);
  }

  lemma ConstraintsExactly(cache: map<Id, i64>, instrument: Id, facts: BrokerFacts)
    ensures var after := CacheLookup(cache, instrument, facts.now);
            forall fetched: int :: ConstraintsAt(cache, instrument, facts, fetched) <==>
              && (facts.constraints || Cached(cache, instrument, facts.now))
              && after[instrument] == fetched && fetched >= 0
  {}

  lemma AssembledExactly(a: Adapter, input: AdmitInput, meaning: Description, revision: u64, figures: (i64, i64, i64),
                         policy: RiskPolicySet)
    requires a.snapshot.Some? && input.facts.authorizationRevision.Some? && input.facts.unresolvedConflict.Some?
    requires IsOrder(meaning) ==> input.facts.lotLimits.Some?
    requires FitsI64(figures.0 + figures.1 + figures.2)
    ensures Assembled(a.accountId, a.connectionId, input.requestId, a.snapshot.value, meaning, input.facts, revision, figures, policy).Ok?
            <==> Answered(meaning, figures.0 + figures.1 + figures.2, policy, input.facts)
  {
    PortionIsGrowth(figures.0 + figures.1 + figures.2, meaning.deltaLots);
  }

  // ---- the whole request ----

  /** With this meaning, these constraints and these figures, everything the request needs is there. */
  ghost predicate CanAskWith(a: Adapter, input: AdmitInput, policy: RiskPolicySet, meaning: Description, fetched: int,
                             current: int, open: int, reserved: int) {
    && Reached(a, input.facts)
    && Means(input.command, a.snapshot.value, meaning)
    && (if IsOrder(meaning) then ConstraintsAt(a.instrumentCache, meaning.instrumentId, input.facts, fetched) else fetched == 0)
    && FiguresAre(a, meaning, input.facts, current, open, reserved)
    && Answered(meaning, current + open + reserved, policy, input.facts)
  }

  /** What the engine is told, in the order of the request's and the snapshot's columns. */
  ghost predicate Tells(a: Adapter, input: AdmitInput, policy: RiskPolicySet, meaning: Description, fetched: int,
                        current: int, open: int, reserved: int, q: RiskRequest)
    requires CanAskWith(a, input, policy, meaning, fetched, current, open, reserved)
  {
    var facts, s, report := input.facts, q.snapshot, a.snapshot.value;
    var observed := if report.snapshotObservedAt <= 0 then 0 else report.snapshotObservedAt;
    && q.requestId == input.requestId && q.accountId == a.accountId && q.brokerConnectionId == a.connectionId
    && q.instrumentId == meaning.instrumentId && q.source == facts.source && q.action == meaning.action
    && q.requestedDeltaLots == meaning.deltaLots && q.isMarketOrder == meaning.market
    && q.confirmMarginTrade == meaning.confirmMargin && !q.emergencyReduction && q.now == facts.now
    && q.requestedNotional == (if IsOrder(meaning) && Grows(current + open + reserved, meaning.deltaLots) && LimitsExposure(policy)
                               then (if meaning.deltaLots < 0 then -1 else 1) * facts.orderTotal.value else 0)
    && s.runtimeReady == report.ready && s.executionAuthorized
    && (IsOrder(meaning) ==> s.instrumentTradable == facts.tradable && s.instrumentLotSize == facts.lotSize)
    && s.unresolvedUnknownConflict == facts.unresolvedConflict.value
    && s.currentPositionLots == current && s.openOrderDeltaLots == open
    && s.unresolvedUnknownDeltaLots == 0 && s.activeReservationDeltaLots == reserved
    && s.grossExposure.None? && s.netExposure.None? && s.instrumentExposure.None?
    && s.brokerDailyPnl == facts.dailyPnl && (IsOrder(meaning) ==> s.brokerLotLimits == facts.lotLimits)
    && s.margin == (if MarginNeeded(meaning, current + open + reserved, policy) then facts.margin else None)
    && s.protection == facts.protection.value
    && s.validity == RiskValidityContext(report.runtimeEpoch, observed, observed, observed, None, fetched, policy.revision,
                                         facts.authorizationRevision.value)
  }

  lemma AssembledTells(a: Adapter, input: AdmitInput, meaning: Description, fetched: u64, figures: (i64, i64, i64),
                       policy: RiskPolicySet)
    requires CanAskWith(a, input, policy, meaning, fetched, figures.0, figures.1, figures.2)
    ensures var q := Assembled(a.accountId, a.connectionId, input.requestId, a.snapshot.value, meaning, input.facts, fetched, figures,
                               policy);
            q.Ok? && Tells(a, input, policy, meaning, fetched, figures.0, figures.1, figures.2, q.value)
  {
    AssembledExactly(a, input, meaning, fetched, figures, policy);
    PortionIsGrowth(figures.0 + figures.1 + figures.2, meaning.deltaLots);
  }

  /** With its meaning, its constraints and its figures known, what is left is to assemble the request. */
  lemma BuildingIsAssembling(a: Adapter, input: AdmitInput, policy: RiskPolicySet, meaning: Description, fetched: u64,
                             figures: (i64, i64, i64))
    requires Reached(a, input.facts) && input.facts.unresolvedConflict.Some? && Describe(input.command, a.snapshot.value) == Ok(meaning)
    requires if IsOrder(meaning) then
               && (input.facts.constraints || Cached(a.instrumentCache, meaning.instrumentId, input.facts.now))
               && CacheLookup(a.instrumentCache, meaning.instrumentId, input.facts.now)[meaning.instrumentId] == fetched
             else fetched == 0
    requires PositionFigures(a.ledger.reservations, a.accountId, a.snapshot.value, meaning, input.facts) == Ok(figures)
    ensures BuildRequest(a, input, policy).1
         == Assembled(a.accountId, a.connectionId, input.requestId, a.snapshot.value, meaning, input.facts, fetched, figures, policy)
  {}

  /** Where everything is there, the request is built, and tells the engine what was reported. */
  lemma RequestTellsWhatIsReported(a: Adapter, input: AdmitInput, policy: RiskPolicySet, meaning: Description, fetched: int,
                                   current: int, open: int, reserved: int)
    requires CanAskWith(a, input, policy, meaning, fetched, current, open, reserved)
    ensures var q := BuildRequest(a, input, policy).1;
            q.Ok? && Tells(a, input, policy, meaning, fetched, current, open, reserved, q.value)
  {
    OneMeaning(input.command, a.snapshot.value, meaning);
    ConstraintsExactly(a.instrumentCache, meaning.instrumentId, input.facts);
    var orders := a.snapshot.value.activeOrders;
    assert orders[..|orders|] == orders;
    FiguresExactly(a, meaning, input.facts, current, open, reserved);
    BuildingIsAssembling(a, input, policy, meaning, fetched, (current, open, reserved));
    AssembledTells(a, input, meaning, fetched, (current, open, reserved), policy);
  }

  /** A request that is built had everything it needs. */
  lemma BuiltRequestCouldBeAsked(a: Adapter, input: AdmitInput, policy: RiskPolicySet)
    returns (meaning: Description, fetched: int, current: int, open: int, reserved: int)
    requires BuildRequest(a, input, policy).1.Ok?
    ensures CanAskWith(a, input, policy, meaning, fetched, current, open, reserved)
  {
    var facts, report := input.facts, a.snapshot.value;
    DescribeExactly(input.command, report);
    meaning := Describe(input.command, report).value;
    ConstraintsExactly(a.instrumentCache, meaning.instrumentId, facts);
    fetched := if IsOrder(meaning) then CacheLookup(a.instrumentCache, meaning.instrumentId, facts.now)[meaning.instrumentId] else 0;
    var figures := PositionFigures(a.ledger.reservations, a.accountId, report, meaning, facts).value;
    current, open, reserved := figures.0, figures.1, figures.2;
    FiguresExactly(a, meaning, facts, current, open, reserved);
    AssembledExactly(a, input, meaning, fetched, figures, policy);
  }

  /** The request is put to the engine exactly when the runtime, the broker and the report answer everything
      that it needs. */
  lemma RequestsAreBuiltExactly(a: Adapter, input: AdmitInput, policy: RiskPolicySet)
    ensures BuildRequest(a, input, policy).1.Ok? <==>
              exists meaning, fetched, current, open, reserved :: CanAskWith(a, input, policy, meaning, fetched, current, open, reserved)
  {
    if BuildRequest(a, input, policy).1.Ok? {
      var meaning, fetched, current, open, reserved := BuiltRequestCouldBeAsked(a, input, policy);
    }
    if meaning, fetched, current, open, reserved :| CanAskWith(a, input, policy, meaning, fetched, current, open, reserved) {
      RequestTellsWhatIsReported(a, input, policy, meaning, fetched, current, open, reserved);
    }
  }

  // ---- why a request is not put to the engine ----

  /** What is wrong with the figures, in the order in which they are read. */
  ghost predicate FiguresRefused(a: Adapter, meaning: Description, facts: BrokerFacts, error: AdmissionError)
    requires a.snapshot.Some?
  {
    var positions := a.snapshot.value.positions;
    if IsOrder(meaning) && !UnitsFit(0, positions, meaning.instrumentId) then error == Unavailable
    else if IsOrder(meaning) && !WholeLots(UnitsOf(positions, meaning.instrumentId), facts.lotSize)
    then error == Denied(PositionLotMismatch)
    else if IsOrder(meaning) && facts.lotLimits.None? then error == Denied(Ruled(ProviderLimitUnavailable))
    else error == Unavailable
  }

  ghost predicate WholeLots(units: int, lotSize: int) { lotSize != 0 && exists lots: i64 :: lots * lotSize == units }

  lemma WholeLotsExactly(units: i64, lotSize: i64)
    ensures PositionLots(units, lotSize).Some? <==> WholeLots(units, lotSize)
  {
    PositionLotsExactly(units, lotSize);
    if PositionLots(units, lotSize).Some? { assert PositionLots(units, lotSize).value * lotSize == units; }
    if WholeLots(units, lotSize) {
      var lots: i64 :| lots * lotSize == units;
      assert PositionLots(units, lotSize) == Some(lots);
    }
  }

  lemma FiguresAreRefusedFor(a: Adapter, meaning: Description, facts: BrokerFacts)
    requires a.snapshot.Some?
    ensures var figures := PositionFigures(a.ledger.reservations, a.accountId, a.snapshot.value, meaning, facts);
            figures.Err? ==> FiguresRefused(a, meaning, facts, figures.error)
  {
    var positions := a.snapshot.value.positions;
    UnitsAreSummed(0, positions, meaning.instrumentId);
    var units := CheckedSum(0, PositionUnits(positions, meaning.instrumentId));
    if units.Some? { WholeLotsExactly(units.value, facts.lotSize); }
  }

  /** What is missing to judge an order on its figures, in the order in which it is asked for. */
  predicate AnswersRefused(meaning: Description, base: int, policy: RiskPolicySet, facts: BrokerFacts, error: AdmissionError) {
    var priced := IsOrder(meaning) && Grows(base, meaning.deltaLots) && LimitsExposure(policy);
    if meaning.deltaLots == I64_MIN || (meaning.deltaLots > 0 && base == I64_MIN) then error == Unavailable
    else if priced && (!meaning.priced || facts.orderTotal.None?) then error == Denied(PriceUnavailable)
    else if (priced && meaning.deltaLots < 0 && facts.orderTotal.value == I128_MIN) || !facts.readablePnl then error == Unavailable
    else if MarginNeeded(meaning, base, policy) && facts.margin.None? then error == Denied(Ruled(CriticalInputMissing))
    else error == Unavailable && facts.protection.None?
  }

  lemma AnswersAreRefusedFor(a: Adapter, input: AdmitInput, meaning: Description, revision: u64, figures: (i64, i64, i64),
                             policy: RiskPolicySet)
    requires a.snapshot.Some? && input.facts.authorizationRevision.Some? && input.facts.unresolvedConflict.Some?
    requires FitsI64(figures.0 + figures.1 + figures.2)
    ensures var r := Assembled(a.accountId, a.connectionId, input.requestId, a.snapshot.value, meaning, input.facts, revision, figures,
                               policy);
            r.Err? ==> AnswersRefused(meaning, figures.0 + figures.1 + figures.2, policy, input.facts, r.error)
  {
    PortionIsGrowth(figures.0 + figures.1 + figures.2, meaning.deltaLots);
  }

  /** Why a request is not put to the engine: the first thing that is missing. */
  ghost predicate Unasked(a: Adapter, input: AdmitInput, policy: RiskPolicySet, error: AdmissionError) {
    var facts := input.facts;
    if a.snapshot.None? || a.snapshot.value.runtimeEpoch == 0 || !facts.addressed then error == Unavailable
    else if facts.authorizationRevision.None? then error == Denied(Ruled(ExecutionUnauthorized))
    else if Describe(input.command, a.snapshot.value).Err? then error == Describe(input.command, a.snapshot.value).error
    else
      var d := Describe(input.command, a.snapshot.value).value;
      if !facts.session then error == Unavailable
      else if IsOrder(d) && !facts.constraints
              && (d.instrumentId !in a.instrumentCache || !Recent(facts.now, a.instrumentCache[d.instrumentId]))
      then error == Denied(Ruled(InstrumentUnavailable))
      else
        || (error == Unavailable && IsOrder(d) && forall fetched :: !ConstraintsAt(a.instrumentCache, d.instrumentId, facts, fetched))
        || FiguresRefused(a, d, facts, error)
        || exists current, open, reserved :: FiguresAre(a, d, facts, current, open, reserved)
                                             && AnswersRefused(d, current + open + reserved, policy, facts, error)
  }

  lemma UnaskedRequestNamesItsReason(a: Adapter, input: AdmitInput, policy: RiskPolicySet)
    requires BuildRequest(a, input, policy).1.Err?
    ensures Unasked(a, input, policy, BuildRequest(a, input, policy).1.error)
  {
    var facts := input.facts;
    if Reached(a, facts) && Describe(input.command, a.snapshot.value).Ok? {
      var d := Describe(input.command, a.snapshot.value).value;
      ConstraintsExactly(a.instrumentCache, d.instrumentId, facts);
      FiguresAreRefusedFor(a, d, facts);
      var figures := PositionFigures(a.ledger.reservations, a.accountId, a.snapshot.value, d, facts);
      if figures.Ok? {
        var (current, open, reserved) := figures.value;
        FiguresExactly(a, d, facts, current, open, reserved);
        var cache := CacheLookup(a.instrumentCache, d.instrumentId, facts.now);
        var revision := if IsOrder(d) then cache[d.instrumentId] else 0;
        if revision >= 0 { AnswersAreRefusedFor(a, input, d, revision, figures.value, policy); }
      }
    }
  }
}
