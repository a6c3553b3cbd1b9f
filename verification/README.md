# Capital safety of the trader, in Dafny

This project models the parts of the trader that decide whether money may move, and proves what they
keep over whole runs.

* **Risk.** `RiskEngine` is the decision procedure; `RiskLedger`/`RiskStore` are the risk database as
  tables with unique indexes; `Reconciliation` is the reservation lifecycle; `Admission`/`ProductionRisk`
  are the production adapter (admit, validate, record, reconcile); `DispatchPlan` is the hand-off to
  execution. `EngineGuarantees` is about one decision; `EngineConditions` and `EngineReasons` say, in the
  figures of policy and request alone, when an order is dispatched, for how much, and what a refusal or an
  error names. `ReservationTransitions`, `ReportReading`, `RequestConditions`, `AdmissionOutcomes` and
  `DispatchChecks` do the same for a reconciler call, for reading a report, for the request that is put to the
  engine, for what an admission stores and answers, and for the last checks before an order leaves.
  `ReservationRuns`, `SplitConservation` and
  `DecisionRuns` about runs of the store; `AdmissionRuns`, `AdmissionGuarantees`, `PassGuarantees`,
  `AdapterCapacity`, `AdapterLimits`, `AdmittedOrders`, `RejectionRuns`, `CapacityDenials`, `ReduceOnlyRuns`
  and `ReplacementCycles` about runs of the adapter.
* **Connections.** `ConnectionStores` holds the metadata repository and the secret store as two objects
  without a common transaction; what the environment makes of a call (it goes through, fails, or the
  process stops there) is a parameter of the call. `ConnectionLifecycle` is the service.
  `ConnectionSteps`, `ConnectionRotation` and `ConnectionRecovery` describe the states in which its methods
  can stop and prove what holds in all of them; the tail of a rotation is a function of the outcomes of its
  store calls. `ConnectionRuns` draws the conclusions for runs of any length, and `ConnectionRepair` says
  what recovery leaves as it is and how it can always be brought to complete. `ConnectionGrants` says what an
  execution grant means in the stored rows and where in a run its authorization was set; `ConnectionEndings`,
  what closing, deleting, recovering and an undone rotation leave. `DispatchAuthority` joins both sides: an order
  leaves under the mode and with the secret that were there when it was admitted.
* **Dispatch.** `Mutation` is the compare-and-set evidence store and `MutationRecovery`; `MutationRuns`
  lets any number of processes interleave and crash.
* **Tail.** `Candles` (revisions and the subscriber), `Trailing` (the trailing-stop ratchet), `Futures`
  and `ExactDecimals` (exact money).

Code that updates state is modelled as classes and loops. Each such method is proved against a function
or a relation on the abstract state, and the theorems are about those. `Machine` spells out 64- and
128-bit ranges, truncating division, saturation and wrap-around; `TableSums`, `Arithmetic` and
`Histories` are supporting mathematics.

## Assumptions

* Clocks, broker replies, generated identities and permission checks are inputs. A generated identity is
  taken to be unused where a statement depends on it (`AdmissionsOfOneRequestAgree`,
  `ConnectionRuns.Next`).
* A transaction is one atomic step; a failed one has no effect.
* Reconciling is one step relative to admitting, and connection operations run one at a time (each may
  crash anywhere). Reconciler calls are treated both ways: as one step for conservation and capacity, and
  with the read and the write split (`SplitConservation`).
* A reconciliation report has a strictly newer revision than the last one (`AdmissionRuns.Enabled`).
* "Base position" is the figure the code computes: position plus open orders plus reservations.

## Where the code is followed against its own text

* `increasing_portion` does not stop at zero, so the engine lets a halted account through only with an
  emergency reduction that closes the base position exactly (`HaltedStatesAdmitOnlyAnExactClose`). The
  adapter never marks an order as an emergency, so a halted account is given no reservation
  (`StoppedRunsReserveNothing`).
* The adapter tells the engine no exposures and no time of market data. Under a limit on an exposure or on the
  age of market data no growing order is admitted (`ReservedOrder`), and no reservation ever has a notional
  (`ReservationsHaveNoNotional`).
* An unknown entry time under a duration cap is an error of the evaluation; a test next to the code
  expects a rejection.
* `permits_additional_exposure` accepts partial coverage although its comment says otherwise.
* The uncovered quantity of a position of 2^63 lots wraps to a negative number.
* A rotation does not look at pending states: it can turn a connection that is being disabled or deleted back
  into a valid one that is not enabled, with a live secret, which recovery then passes by
  (`RotationLosesDisable`).

## Promises that hold only under a condition

* Reduce-only accounts get at most |base| approvals for an instrument, plus the slack of the orders that do
  not oppose the base: a granted order shrinks the base if and only if its lots have the opposite sign and
  less than twice its magnitude (`GrantShrinksBaseExactly`). New orders under one lot size, and replacements
  whose lots oppose the base, have no slack. Other replacements do, and then the number is unbounded:
  `ApprovalsAreUnbounded` gets any number of approvals on a base of zero (three lots held, three on sale).
* The identity of a denied request is never admitted later if and only if the engine refused the request
  (`DenialIsFinalExactly`). Denials before the engine is asked, and the denial for exceeded reservation
  capacity, store no decision. After those the identity can still be admitted, if only with another command
  (a protection order for an unused instrument serves as the example); for the capacity denial it is the same
  order that is admitted, after a release (`CapacityDenialIsOvercome`, in a state that `HoldingIsReached`
  reaches).
* With the reads and writes of reconciler calls split, a late write conserves lots if and only if the row
  still has the remaining lots that its caller saw (`LandingConservesExactly`); `StaleWriteUndoesFill` is a
  write that does not.
* A connection can end up healthy with a disabled secret only through a rotation. A rotation can end that way
  if and only if it is at risk beforehand: its checks pass, the connection is enabled, and it is healthy or
  the discovery makes it healthy (`RotationCanEndUnsafeExactly`, with the outcomes of the store calls that
  lead there). `UnsafeStateIsReached` is such a run from the empty stores.
* After a completed recovery the state is safe, no row has a pending status and every live secret has an
  owner, but recovery does not always complete. A visit can be finished if and only if `CanFinish` holds of the
  row, the secret and the provider's reply, and recovery can be completed if and only if every visit can be
  finished. A connection that is pending disable without a secret (`CrashedCreateBlocksRecovery`) and an
  enabled valid connection that is being validated with a disabled secret (`BrokenRotationBlocksRecovery`) keep
  every recovery from completing, until at most two disables or deletes of each such connection clear the way
  (`RecoveryCanBeUnblocked`).
* A disable or delete that was started stays on its way, as long as the connection exists, unless a rotation
  stores its new row in between (`LeavesTheWayOutExactly`, `StartedDisableIsLostOnlyToRotation`).
* The trailing threshold never widens if and only if the relative distance is at most 100% for a long, or
  at least -100% for a short (`NeverWidensExactly`).
* A subscriber holds the stored bars after every publication if and only if no unemitted page drops a bar or
  brings another body for a bar at the highest revision (`SubscriberHoldsTheStore`; the failing inputs are
  `RepeatedTimeLosesBar` and `SaturatedRevisionHidesChange`). A bound on the published revisions rules out the
  second, and pages that list each open time once rule out the first
  (`SubscriberHoldsTheStoreWithinBound`).
* A units/nano pair survives the round trip if and only if its parts agree in sign
  (`UnitsNanoRoundTrip`).

## Model

| member | source | states |
|---|---|---|
| `RiskEngine.ValidateMarketData` | crates/vox-risk/src/engine.rs:633-676 | the early-return procedure is the market-data gate |
| `RiskEngine.ValidateProtection` | crates/vox-risk/src/engine.rs:678-750 | the procedure is the protection gate: duration cap, then coverage |
| `RiskEngine.Screen` | crates/vox-risk/src/engine.rs:13-249 | the checks made for every action amount to the six screening gates, in their order |
| `RiskEngine.ScreenOrder` | crates/vox-risk/src/engine.rs:250-397 | the early-return checks on orders amount to the order gates, most of them only for growing orders; what those gates ask, in figures, is `DispatchedExactly` |
| `RiskEngine.ScreenExposure` | crates/vox-risk/src/engine.rs:399-499 | the exposure checks of a growing order amount to the gross, net and instrument gates in that order |
| `RiskEngine.Evaluate` | crates/vox-risk/src/engine.rs:13-617 | the whole procedure with its mutable size and resize reason is the decision function, which `DispatchedExactly`, `GrantedExactly`, `RefusalNamesTheFirstReason`, `ErrorsNameTheirReason` and `ApprovalNamesItsCap` determine on the records |
| `RiskEngine.ApprovedLotsFit` | crates/vox-risk/src/engine.rs:500-617 | an approved size is non-zero and fits 64 bits |
| `EngineGuarantees.DispatchMeansEveryGatePassed` | crates/vox-risk/src/engine.rs:13-617 | a request is dispatchable if and only if no gate stops it; a refusal approves nothing; the identity plays no part |
| `EngineGuarantees.RefusalsNeverApprove` | crates/vox-risk/src/engine.rs:832-865 | a refusal never carries an approving outcome |
| `EngineGuarantees.GrantIsTheLargestPermittedSize` | crates/vox-risk/src/engine.rs:500-579 | the approved size keeps the requested sign and is the largest within the policy and provider caps |
| `EngineGuarantees.PositionStaysWithinLimitOrShrinks` | crates/vox-risk/src/engine.rs:378-397 | base plus approved lots is within the position limit or strictly closer to zero, also for reversals cut short |
| `EngineGuarantees.ReducingStatesShrinkPosition` | crates/vox-risk/src/engine.rs:178-249 | in the reducing states every dispatchable order strictly shrinks the base position |
| `EngineGuarantees.HaltedStatesAdmitOnlyAnExactClose` | crates/vox-risk/src/engine.rs:817-830 | the halted states pass an order if and only if it is an emergency closing the base exactly |
| `EngineGuarantees.TighteningNeverApprovesMore` | crates/vox-risk/src/engine.rs:13-617 | of two policies of equal revision, whatever the stricter dispatches the looser dispatches with the same sign and at least the lots |
| `EngineConditions.DispatchedExactly` | crates/vox-risk/src/engine.rs:13-617 | a request is dispatched if and only if, in its own figures: quantity, instrument, revision, runtime and state fit, every sum fits 64 bits, and a growing order has market data of at most the permitted age, protection, margin use of at most the permitted share, a known daily result within the permitted loss, and a projected position and three projected exposures within their limits |
| `EngineConditions.GrantedExactly` | crates/vox-risk/src/engine.rs:500-617 | the grant keeps the requested side and is at least n lots exactly if the request, the order limit and the broker limit for its side, order type and funding all are |
| `EngineConditions.CapExactly` | crates/vox-risk/src/engine.rs:752-802 | the broker limit that applies: buy or sell, own funds or permitted margin, market or limit lots |
| `EngineConditions.UtilizationExactly` | crates/vox-risk/src/engine.rs:305-346 | margin use passes if and only if the corrected margin in millionths is below the next permitted multiple of the portfolio |
| `EngineReasons.RefusalNamesTheFirstReason` | crates/vox-risk/src/engine.rs:13-617 | a refusal carries the outcome and the code of the first condition that fails |
| `EngineReasons.ErrorsNameTheirReason` | crates/vox-risk/src/engine.rs:13-617 | an error names an invalid policy, an invalid broker limit or an overflow that is there |
| `EngineReasons.ApprovalNamesItsCap` | crates/vox-risk/src/engine.rs:500-617 | an approval is reported as a resize exactly if it is cut, and then names the broker limit or the order limit that cut it |
| `EngineReasons.DecisionCarriesTheRequest` | crates/vox-risk/src/engine.rs:832-865 | every decision carries the policy revision, the request and its validity context |
| `RiskStore.SqliteRiskStore.PutPolicy` | crates/vox-risk/src/store.rs:137-194 | compare and set on the revision, with the audit row in the same step |
| `RiskStore.SqliteRiskStore.PutDecision` | crates/vox-risk/src/store.rs:196-220 | a repeated identity is ignored, a second decision for a request fails |
| `RiskStore.SqliteRiskStore.SumWithin` | crates/vox-risk/src/store.rs:633-705 | a running sum over rows in any order gives the verdict of the total: overflow, exceeded or fine |
| `RiskStore.SqliteRiskStore.EnforceCapacity` | crates/vox-risk/src/store.rs:633-705 | the verdict depends only on the totals of the holding rows plus the new one |
| `RiskStore.SqliteRiskStore.PersistApprovalAtomic` | crates/vox-risk/src/store.rs:259-322 | performs the approval transaction on all tables |
| `RiskStore.SqliteRiskStore.ActiveReservations` | crates/vox-risk/src/store.rs:422-441 | lists every holding row of the account, once |
| `RiskStore.SqliteRiskStore.ActiveReservedDelta` | crates/vox-risk/src/store.rs:405-420 | the signed sum over the holding rows, if it fits |
| `RiskStore.SqliteRiskStore.UpdateReservation` | crates/vox-risk/src/store.rs:443-486 | re-checks the state only and writes remaining, state and time |
| `RiskLedger.PersistInsertsPairOrNothing` | crates/vox-risk/src/store.rs:259-322 | an approval inserts both rows after the capacity check or changes nothing, and what it returns is on record |
| `RiskLedger.InsertedPairIsConsistent` | crates/vox-risk/src/store.rs:967-1012 | the unique indexes stay exact |
| `RiskLedger.ShrinkingRowsNeverHoldMore` | crates/vox-risk/src/store.rs:633-705 | rows that only shrink never raise the held sums |
| `RiskStore.RiskReservationReconciler.ProvenPreDispatchFailure` | crates/vox-risk/src/reconcile.rs:33-56 | performs the call on this evidence |
| `RiskStore.RiskReservationReconciler.UnknownAfterDispatch` | crates/vox-risk/src/reconcile.rs:58-99 | performs the call on this evidence |
| `RiskStore.RiskReservationReconciler.AuthoritativeFill` | crates/vox-risk/src/reconcile.rs:101-161 | performs the call on this evidence |
| `RiskStore.RiskReservationReconciler.NoRemainingExposure` | crates/vox-risk/src/reconcile.rs:163-208 | performs the call on this evidence |
| `RiskStore.RiskReservationReconciler.OrphanFailClosed` | crates/vox-risk/src/reconcile.rs:210-253 | performs the call on this evidence |
| `RiskStore.RiskReservationReconciler.DispatchAcknowledged` | crates/vox-risk/src/reconcile.rs:255-281 | performs the call on this evidence |
| `RiskStore.RiskReservationReconciler.BrokerAuthoritativeReject` | crates/vox-risk/src/reconcile.rs:283-330 | performs the call on this evidence |
| `RiskStore.RiskReservationReconciler.RuntimeReconciliation` | crates/vox-risk/src/reconcile.rs:332-394 | performs the call on this evidence |
| `Reconciliation.SettledRowOnlyShrinks` | crates/vox-risk/src/reconcile.rs:33-394 | no evidence raises the remaining lots of a row or makes it hold again |
| `Reconciliation.ReconcileSettlesOneRow` | crates/vox-risk/src/reconcile.rs:33-394 | a call touches only the row of its request |
| `Reconciliation.ReconcileOnlyShrinks` | crates/vox-risk/src/reconcile.rs:33-394 | over the whole table a call only shrinks rows and keeps the indexes |
| `ReservationTransitions.EvidenceMovesExactly` | crates/vox-risk/src/reconcile.rs:33-394 | for each state and evidence, the lots, the state and the time that the row ends with, or that it stays exactly as it is |
| `ReservationTransitions.CallsAnswerExactly` | crates/vox-risk/src/reconcile.rs:33-394 | a call succeeds if and only if its request has a row in a state that takes the evidence, with fitting lots; each error names what does not fit, and changes nothing |
| `ReservationRuns.RunIsConsistent` | crates/vox-risk/src/store.rs:259-322 | every run keeps decisions and reservations indexed |
| `ReservationRuns.HeldLotsNeverExceedLimit` | crates/vox-risk/src/store.rs:633-705 | in every run under a fixed lot limit the held lots per account and instrument stay within it |
| `ReservationRuns.ActiveDeltaNeverExceedsLimit` | crates/vox-risk/src/store.rs:405-420 | so does the magnitude of the signed delta |
| `ReservationRuns.HeldNotionalNeverExceedsLimit` | crates/vox-risk/src/store.rs:633-705 | in every run the held notional per account stays within its limit |
| `ReservationRuns.LotsAreConserved` | crates/vox-risk/src/reconcile.rs:58-394 | with whole calls, reported fills plus remaining plus released lots always equal the reserved lots |
| `ReservationRuns.InterleavedCallsKeepEnvelope` | crates/vox-risk/src/reconcile.rs:58-394 | with reads and writes interleaved, remaining keeps the sign, stays within reserved, is zero exactly in the final states, and final rows never change |
| `ReservationRuns.StaleWriteUndoesFill` | crates/vox-risk/src/reconcile.rs:58-161 | with split calls a stale write can put filled lots back |
| `SplitConservation.LandingConservesExactly` | crates/vox-risk/src/reconcile.rs:58-394 | a write decided on one version of a row and landing on another keeps reported plus remaining plus released equal to reserved if and only if the remaining lots are those that were seen |
| `SplitConservation.OnTimeRunsConserveLots` | crates/vox-risk/src/reconcile.rs:58-394 | every split run whose writes land on time conserves lots |
| `DecisionRuns.TransactionExtends` | crates/vox-risk/src/store.rs:196-322 | no transaction removes or changes a decision or the terms of a reservation |
| `DecisionRuns.OneDecisionPerRequest` | crates/vox-risk/src/store.rs:975-992 | in every run each account and request has at most one decision |
| `DecisionRuns.DecisionsAreImmutable` | crates/vox-risk/src/store.rs:196-220 | a stored decision is the same in every later state |
| `DecisionRuns.ApprovalsOfOneRequestAgree` | crates/vox-risk/src/store.rs:259-322 | all successful approvals of a request return the same decision and the same reservation terms |
| `DecisionRuns.RefusedRequestIsNeverApproved` | crates/vox-risk/src/store.rs:259-322 | a request whose stored decision refuses is never approved later |
| `DecisionRuns.PolicyHistoryIsUnbroken` | crates/vox-risk/src/store.rs:137-194 | audit rows form an unbroken chain of rising revisions ending in the current policy |
| `DecisionRuns.SameRevisionMeansSamePolicy` | crates/vox-risk/src/store.rs:137-194 | equal revisions at two points of a run mean the same policy |
| `DispatchPlan.FreshApprovalAlwaysBuildsPlan` | crates/vox-risk/src/plan.rs:40-111 | every fresh directional approval builds its plan, for the granted lots |
| `DispatchPlan.FreshCleanupBuildsPlan` | crates/vox-risk/src/plan.rs:88-99 | every approved cleanup builds its plan, without reservation |
| `DispatchPlan.PlanExistsExactlyForAnIntactApproval` | crates/vox-risk/src/plan.rs:40-111 | an order has a plan if and only if the decision permits it and describes it, and the reservation is active and untouched on the same terms |
| `DispatchPlan.RefusedPlanNamesItsReason` | crates/vox-risk/src/plan.rs:40-99 | a refused plan names something that does not agree |
| `DispatchPlan.PlanMatchesOneDispatch` | crates/vox-risk/src/plan.rs:113-124 | a plan matches exactly one dispatch: its own identity, account, connection, instrument, action, lots and validity |
| `DispatchPlan.ScaledNotionalNeverGrows` | crates/vox-core/src/production_risk.rs:1041-1059 | the scaled notional keeps the sign, never grows, and is unchanged for an uncut order |
| `ProductionRisk.ProductionRiskAdapter.Policy` | crates/vox-core/src/production_risk.rs:60-78 | a missing policy is created in its fail-closed form |
| `ProductionRisk.ProductionRiskAdapter.CurrentUnits` | crates/vox-core/src/production_risk.rs:269-278 | the sum of the instrument's units over all positions, exactly if no running total leaves 64 bits |
| `ProductionRisk.ProductionRiskAdapter.OpenOrderDelta` | crates/vox-core/src/production_risk.rs:308-333 | the sum of what is left of the open orders, requested minus executed lots by side and without the replaced order, exactly if each of them is readable and no running total leaves 64 bits |
| `ProductionRisk.ProductionRiskAdapter.Figures` | crates/vox-core/src/production_risk.rs:269-351 | position, open orders and reservations, or the first error |
| `ProductionRisk.ProductionRiskAdapter.BuildRequest` | crates/vox-core/src/production_risk.rs:179-489 | asks snapshot, authorization, session, constraints, limits and journal in the order of the source, each failure with its own answer, and builds the request on the adapter state |
| `ProductionRisk.ProductionRiskAdapter.Assemble` | crates/vox-core/src/production_risk.rs:343-489 | puts the request together from the figures; price and margin are asked for only when the order grows the position, and each overflow is an error |
| `ProductionRisk.ProductionRiskAdapter.Settle` | crates/vox-core/src/production_risk.rs:546-623 | stores the ruling and answers with admission or denial |
| `ProductionRisk.ProductionRiskAdapter.Admit` | crates/vox-core/src/production_risk.rs:494-624 | performs the admission on adapter and store |
| `ProductionRisk.ProductionRiskAdapter.ValidateBeforeDispatch` | crates/vox-core/src/production_risk.rs:626-738 | passes if and only if the presented approval is the stored one and in time, policy and authorization revision are the decided ones, epoch and snapshot revision are unchanged, the command means the decided action and lots, the cached constraints are those of the decision, and the journal has no conflict; at most a missing policy is created |
| `ProductionRisk.ProductionRiskAdapter.RecordDispatchOutcome` | crates/vox-core/src/production_risk.rs:740-767 | performs the recording; a request without reservation is fine |
| `ProductionRisk.ProductionRiskAdapter.ReconcileOne` | crates/vox-core/src/production_risk.rs:780-815 | applies the report to one request: held if unresolved, what is left of its first open order if that is readable, otherwise released; what the evidence is in the columns of the orders is `EvidenceIsReported` |
| `ProductionRisk.ProductionRiskAdapter.Reconcile` | crates/vox-core/src/production_risk.rs:769-817 | snapshot first, then exactly the holding requests, stopping at the first failure |
| `PassGuarantees.PassSettlesEveryHoldingRow` | crates/vox-core/src/production_risk.rs:769-817 | after a completed pass a holding row holds on exactly if its request is unresolved or its first open order has a known side and executed less than requested; it then has requested minus executed lots, signed by that side; all other rows stay |
| `PassGuarantees.EvidenceIsReported` | crates/vox-core/src/production_risk.rs:780-815 | unresolved, no order with that identity, first order readable with so many lots left, or first order unreadable, each exactly |
| `PassGuarantees.RepeatedReportChangesNothing` | crates/vox-core/src/production_risk.rs:769-817 | applying a report again leaves the adapter as it is |
| `AdmissionRequests.CheckedSumIsTheSum` | crates/vox-core/src/production_risk.rs:269-333 | a checked sum that is returned is the sum of all readable values |
| `AdmissionRequests.PositionLotsAreExact` | crates/vox-core/src/production_risk.rs:279-303 | units become lots if and only if they divide by the lot size, and then exactly |
| `ReportReading.SignedRemainingExactly` | crates/vox-runtime/src/model.rs:624-645 | an order is readable if and only if its side is known and executed lies between zero and requested; what is left is the difference, signed by the side |
| `ReportReading.FindTargetExactly` | crates/vox-core/src/production_risk.rs:845-887 | the target of a command is the first order whose broker identity or request identity it names |
| `ReportReading.DescribeExactly` | crates/vox-core/src/production_risk.rs:830-929 | what each command means against the report: action, instrument, signed lots; each refusal has its cause |
| `ReportReading.UnitsAreSummed` | crates/vox-core/src/production_risk.rs:269-278 | the units of the instrument are summed exactly if no running total leaves 64 bits |
| `ReportReading.OrdersAreSummed` | crates/vox-core/src/production_risk.rs:308-333 | what is left of the open orders without the replaced one is summed exactly if all are readable and no running total leaves 64 bits |
| `ReportReading.FiguresAreReported` | crates/vox-core/src/production_risk.rs:269-351 | the three figures of a built request: the lots whose units the report holds, what its other orders have left, and the lots of the rows that are neither consumed nor released |
| `RequestConditions.PositionLotsExactly` | crates/vox-core/src/production_risk.rs:279-303 | units become that many lots if and only if they divide, for any sign of the lot size |
| `RequestConditions.RequestsAreBuiltExactly` | crates/vox-core/src/production_risk.rs:202-489 | the request is put to the engine if and only if runtime, authorization, session, constraints, figures, limits, journal and, where they are needed, price and margin are all there |
| `RequestConditions.RequestTellsWhatIsReported` | crates/vox-core/src/production_risk.rs:441-489 | it then tells the engine exactly what the command, the report, the reservations and the broker said |
| `RequestConditions.UnaskedRequestNamesItsReason` | crates/vox-core/src/production_risk.rs:202-489 | otherwise the answer names the first thing that is missing |
| `AdmissionRequests.FreshAdmissionFollowsTheEngine` | crates/vox-core/src/production_risk.rs:547-623 | a fresh admission carries exactly the engine's grant; a refusal is answered with the engine's reason |
| `AdmissionOutcomes.NotionalIsScaledExactly` | crates/vox-core/src/production_risk.rs:1041-1059 | the reserved notional is the requested one times approved over requested lots, cut off toward zero, or an overflow |
| `AdmissionOutcomes.ApprovalsCommitExactly` | crates/vox-risk/src/store.rs:259-322 | a first approval commits if and only if it is linked, its limits are not negative, the held lots and notional stay within them, and its identities are new; a repeated one is answered from the record |
| `AdmissionOutcomes.DecisionsAreStoredExactly` | crates/vox-risk/src/store.rs:196-220 | a decision is stored unless its identity is known or its request has one |
| `AdmissionOutcomes.OrdersAreReserved` | crates/vox-core/src/production_risk.rs:562-623 | an approved order either stores nothing or leaves a row with every column as requested and approved, within the position and gross limit of the policy |
| `AdmissionOutcomes.RepeatedRequestsStoreNothing` | crates/vox-core/src/production_risk.rs:501-541 | a request with an approval on record stores nothing and is admitted again if and only if its row is active, the journal does not know it and it asks for the same action, instrument and lots |
| `AdmissionOutcomes.UnruledRequestsStoreNothing` | crates/vox-core/src/production_risk.rs:542-548 | a request that cannot be built or ruled on fails without storing anything |
| `AdmissionOutcomes.OutcomesAreRecordedExactly` | crates/vox-core/src/production_risk.rs:740-767 | acknowledged leaves the row, rejected releases it, unknown holds it; when that succeeds, and that a request without a row always does |
| `AdmissionOutcomes.MissingPolicyIsFailClosed` | crates/vox-core/src/production_risk.rs:60-78 | a missing policy is created once, reduce-only, without margin, with the provider limit required |
| `AdmissionRuns.AdmitStoresAtMostOne` | crates/vox-core/src/production_risk.rs:494-624 | an admission adds nothing, a bare decision, or an approved decision with its untouched reservation |
| `AdmissionRuns.RunsKeepInvariant` | crates/vox-core/src/production_risk.rs:494-817 | every run, with restarts and other accounts, keeps approvals backed and policies on record |
| `AdmissionRuns.ValidatedDispatchRunsUnderItsPolicy` | crates/vox-core/src/production_risk.rs:654-658 | in every reachable state a passed validation means the current policy is the one the decision was evaluated under |
| `AdmissionRuns.ValidatedOrderStillHoldsItsReservation` | crates/vox-core/src/production_risk.rs:626-738 | an order validated before its first recorded outcome still has its reservation active with all approved lots |
| `DispatchChecks.ValidationPassesExactly` | crates/vox-core/src/production_risk.rs:626-738 | the validation as a condition on the stored decision, the adapter and the input alone |
| `DispatchChecks.RefusedValidationNamesItsReason` | crates/vox-core/src/production_risk.rs:626-738 | the first check that fails decides the answer |
| `DispatchChecks.NewDecisionIsAdmitted` | crates/vox-core/src/production_risk.rs:441-561 | a decision that an admission stores is the ruling on its own command, authorization revision and report |
| `DispatchChecks.DecisionsComeFromAdmissions` | crates/vox-core/src/production_risk.rs:494-624 | in every run each decision of the account was stored by one of its admissions and is there ever since |
| `DispatchChecks.ValidatedDispatchKeepsItsAuthorization` | crates/vox-core/src/production_risk.rs:660-704 | in every run a validation that passes sees the authorization revision, runtime epoch and snapshot revision of the admission that its decision came from |
| `DispatchAuthority.ValidatedDispatchKeepsModeAndSecret` | crates/vox-core/src/production_risk.rs:660-677 | with any run of the connection service beside it, a validation that passes on a fresh grant sees the mode and the secret of that admission |
| `AdapterCapacity.HeldLotsStayWithinPolicy` | crates/vox-core/src/production_risk.rs:494-817 | in every run of the adapter whose policies limit the position to at most L lots, the held lots of each instrument and the reserved delta that the next decision reads stay within L |
| `AdapterLimits.ReservedOrder` | crates/vox-core/src/production_risk.rs:406-489 | an order that gets a reservation was not asked of a halted or killed account, and if it grows the position the policy has no exposure or market-data-age limit |
| `AdapterLimits.ReservationsHaveNoNotional` | crates/vox-core/src/production_risk.rs:426-440 | in every run no reservation of the account has a notional |
| `AdapterLimits.StoppedRunsReserveNothing` | crates/vox-core/src/production_risk.rs:419-426 | as long as an account stays halted or killed it is given no new reservation, whatever runs |
| `AdmissionGuarantees.RunsExtendLedger` | crates/vox-core/src/production_risk.rs:494-817 | no run of the adapter loses or changes a decision or reservation terms |
| `AdmissionGuarantees.GrantedAdmissionIsOnRecord` | crates/vox-core/src/production_risk.rs:501-623 | what an admission returns is what the store holds |
| `AdmissionGuarantees.AdmissionsOfOneRequestAgree` | crates/vox-core/src/production_risk.rs:501-623 | all successful admissions of a request return the same decision, reservation and lots, whatever ran in between |
| `AdmittedOrders.AdmittedOrderIsStored` | crates/vox-core/src/production_risk.rs:546-623 | an admitted order leaves the approved decision and an active reservation of the approved lots under its request |
| `AdmittedOrders.ValidatedDispatchHasItsPlan` | crates/vox-risk/src/plan.rs:40-124 | every admitted order builds its plan from the stored pair, and in every later state a dispatch that passes validation before its first recorded outcome still has that plan |
| `AdmittedOrders.AdmittedOrderStaysWithinItsCommand` | crates/vox-core/src/production_risk.rs:202-623 | in every later state the reservation of an admitted order is for the instrument and side of its command, for at most its lots, and for no notional |
| `AdmissionGuarantees.RefusedRequestIsNeverAdmitted` | crates/vox-core/src/production_risk.rs:501-561 | a request with a stored refusal is never admitted |
| `RejectionRuns.EngineRefusalIsStored` | crates/vox-core/src/production_risk.rs:546-561 | a refusal of the engine is answered as a denial and put on record |
| `RejectionRuns.RejectedIdentityIsNeverAdmitted` | crates/vox-core/src/production_risk.rs:494-624 | an identity that the engine rejected is never admitted, whatever runs afterwards |
| `RejectionRuns.OtherDenialsLeaveNoTrace` | crates/vox-core/src/production_risk.rs:202-624 | every other denial of a request without history leaves decisions and reservations as they are |
| `RejectionRuns.DenialIsFinalExactly` | crates/vox-core/src/production_risk.rs:494-624 | a denial of a request without history is final if and only if the request was built and the engine refused it |
| `CapacityDenials.CapacityDenialIsOvercome` | crates/vox-core/src/production_risk.rs:577-623 | an order denied for exceeded reservation capacity is admitted with the same request after a release |
| `CapacityDenials.HoldingIsReached` | crates/vox-core/src/production_risk.rs:494-738 | a run from the empty store leads to the state of that denial, through an order that is admitted and passes its validation |
| `ReduceOnlyRuns.OneAdmission` | crates/vox-core/src/production_risk.rs:343-351 | for any order, an approval is paid for by the base it takes away or by its slack, which only lots that do not oppose the base have |
| `ReduceOnlyRuns.GrantShrinksBaseExactly` | crates/vox-core/src/production_risk.rs:308-351 | any approval, replacement or not, moves the base by the granted lots, and closer to zero if and only if they have the opposite sign and less than twice its magnitude |
| `ReduceOnlyRuns.AdmissibleGrantOpposes` | crates/vox-core/src/production_risk.rs:308-351 | in a reducing state the lots granted to a new order of the given lot size, or to a replacement that opposes the base, oppose the base |
| `ReduceOnlyRuns.ReduceOnlyApprovalsAreBounded` | crates/vox-core/src/production_risk.rs:343-351 | under a fixed snapshot, for any orders, approvals plus the magnitude of the remaining base never exceed that of the initial base plus the slack; admissible orders of a reducing account have no slack |
| `ReplacementCycles.ReplacementsCanCycle` | crates/vox-core/src/production_risk.rs:308-325 | with other replacements every order of any number of cycles is approved on a base of zero: each replacement and buy lead back to the start |
| `ReplacementCycles.ApprovalsAreUnbounded` | crates/vox-core/src/production_risk.rs:308-325 | from the empty store a reduce-only account with a base of zero gets as many approvals as asked for |
| `ConnectionStores.InsertAccounts` | crates/vox-connections/src/repository.rs:367-396 | all accounts are inserted, or the primary key is violated |
| `ConnectionStores.InsertAuthorizations` | crates/vox-connections/src/repository.rs:397-414 | all authorizations are inserted, or the primary key is violated |
| `ConnectionStores.SqliteConnectionRepository.InsertOnboarding` | crates/vox-connections/src/repository.rs:349-432 | row, accounts and authorizations in one step, or nothing |
| `ConnectionStores.SqliteConnectionRepository.ReplaceAccounts` | crates/vox-connections/src/repository.rs:477-529 | hides every account and then writes the discovered ones |
| `ConnectionStores.ReplacedTable` | crates/vox-connections/src/repository.rs:477-529 | afterwards: discovered accounts as discovered, all others as before but inaccessible |
| `ConnectionStores.SqliteConnectionRepository.Accounts` | crates/vox-connections/src/repository.rs:531-565 | lists every account row of the connection, once |
| `ConnectionStores.SqliteConnectionRepository.InsertConnection` | crates/vox-connections/src/repository.rs:339-347 | inserts a row under a new key and a new credential reference, or fails |
| `ConnectionStores.SqliteConnectionRepository.UpdateConnection` | crates/vox-connections/src/repository.rs:434-452 | writes status, enabled and health, and nothing else |
| `ConnectionStores.SqliteConnectionRepository.PutAuthorization` | crates/vox-connections/src/repository.rs:941-965 | writes only over the expected revision and only its successor |
| `ConnectionStores.SqliteConnectionRepository.InvalidateAuthorizations` | crates/vox-connections/src/repository.rs:691-709 | raises every revision of the connection by one |
| `ConnectionStores.SqliteConnectionRepository.FinalizeDelete` | crates/vox-connections/src/repository.rs:801-816 | removes the connection with everything that references it |
| `ConnectionStores.SqliteSecretStore.Put` | crates/vox-connections/src/secret.rs:352-392 | a new live secret, or the reference existed |
| `ConnectionStores.SqliteSecretStore.Get` | crates/vox-connections/src/secret.rs:394-478 | the value of a live secret in its own context; each refusal says why |
| `ConnectionStores.SqliteSecretStore.Rotate` | crates/vox-connections/src/secret.rs:480-516 | replaces the value of a live secret in its own context |
| `ConnectionStores.SqliteSecretStore.Disable` | crates/vox-connections/src/secret.rs:529-544 | marks the secret; an absent one is an error |
| `ConnectionStores.SqliteSecretStore.Delete` | crates/vox-connections/src/secret.rs:546-556 | removes the secret; an absent one is fine |
| `ConnectionStores.SqliteSecretStore.Metadata` | crates/vox-connections/src/secret.rs:558-599 | references and disabled flags of all secrets |
| `ConnectionAccess.ValidateDiscovery` | crates/vox-connections/src/service.rs:1567-1583 | accepts exactly safe texts without repeated accounts |
| `ConnectionAccess.WithDisappearedAccounts` | crates/vox-connections/src/service.rs:1621-1638 | the discovered accounts followed by the disappeared ones, emptied |
| `ConnectionAccess.PredictionMatchesTable` | crates/vox-connections/src/service.rs:1610-1638 | the in-memory prediction lists exactly the stored accounts, with their accessibility, and discovered ones in full |
| `ConnectionAccess.PredictedConflictIsReal` | crates/vox-connections/src/service.rs:1323-1344 | a conflict is predicted if and only if something has to be revoked afterwards |
| `ConnectionAccess.RevokedLeavesNoConflict` | crates/vox-connections/src/service.rs:1346-1400 | revoking leaves no conflict, and changes nothing if there was none |
| `ConnectionAccess.RevokedTable` | crates/vox-connections/src/service.rs:1346-1400 | going through the accounts one by one revokes exactly those |
| `ConnectionAccess.RevokeRunOnTable` | crates/vox-connections/src/service.rs:1346-1400 | whatever store calls fail, some of the revocations are written; getting through means exactly all of them |
| `ConnectionAccess.RevokeRunGetsThrough` | crates/vox-connections/src/service.rs:1346-1400 | revoking can get through if and only if no revision to be raised is the highest |
| `ConnectionLifecycle.PredictedHealth` | crates/vox-connections/src/service.rs:648-670 | the health computed in memory is the one the stored table calls for |
| `ConnectionLifecycle.ConnectionService.CreateConnection` | crates/vox-connections/src/service.rs:470-586 | ends in one of the states of an interrupted onboarding, or complete |
| `ConnectionLifecycle.ConnectionService.DisableConnection` | crates/vox-connections/src/service.rs:865-926 | ends untouched, gated, gated with the secret off, or complete |
| `ConnectionLifecycle.ConnectionService.DeleteConnection` | crates/vox-connections/src/service.rs:928-974 | ends untouched, as a tombstone with or without secret, or complete; only a connection that is not enabled is deleted |
| `ConnectionLifecycle.ConnectionService.AuthorizationConflict` | crates/vox-connections/src/service.rs:1323-1344 | true exactly if some authorization is on an account that may not trade |
| `ConnectionLifecycle.ConnectionService.RevokeInvalidAuthorizations` | crates/vox-connections/src/service.rs:1346-1400 | the loop over the accounts is the revocation run of the given outcomes, up to the first halt |
| `ConnectionLifecycle.ConnectionService.Compare` | crates/vox-connections/src/service.rs:651-656 | the verdict on lost access or conflicts agrees with the table the discovery will leave |
| `ConnectionLifecycle.ConnectionService.PublishDiscovery` | crates/vox-connections/src/service.rs:678-719 | row first, then accounts, then revocations, or one of the states in between |
| `ConnectionLifecycle.ConnectionService.Revalidate` | crates/vox-connections/src/service.rs:629-719 | ends in one of the states of an interrupted revalidation, or complete; healthy only if nothing was lost or to be revoked |
| `ConnectionLifecycle.ConnectionService.PersistRotation` | crates/vox-connections/src/service.rs:820-832 | accounts, row, revocations and audit row, as the function of the outcomes of these calls |
| `ConnectionLifecycle.ConnectionService.Compensate` | crates/vox-connections/src/service.rs:833-858 | restores secret, accounts and row, or disables the secret and says so, as the function of the outcomes of these calls |
| `ConnectionLifecycle.ConnectionService.RotateCredential` | crates/vox-connections/src/service.rs:721-863 | ends in exactly the state that belongs to how far it got and, once the secret is replaced, to the outcomes of the remaining calls |
| `ConnectionLifecycle.ConnectionService.SetExecutionAuthorization` | crates/vox-connections/src/service.rs:1115-1192 | a mode change goes through only on the expected revision and, unless it disables, on a healthy connection and a tradable account; each refusal names the first thing in the way; disabling on the expected revision does not depend on health, accessibility or capability |
| `ConnectionLifecycle.ConnectionService.ValidateExecutionAccess` | crates/vox-connections/src/service.rs:1214-1254 | grants exactly when everything needed is in place, apart from store outages; each refusal names the first thing in the way, in the stored rows |
| `ConnectionLifecycle.ConnectionService.RecoverOnboarding` | crates/vox-connections/src/service.rs:197-297 | finishes, defers or fails an interrupted onboarding |
| `ConnectionLifecycle.ConnectionService.RecoverDelete` | crates/vox-connections/src/service.rs:299-314 | finishes an interrupted delete |
| `ConnectionLifecycle.ConnectionService.RecoverDisable` | crates/vox-connections/src/service.rs:315-333 | finishes an interrupted disable |
| `ConnectionLifecycle.ConnectionService.RecoverRotation` | crates/vox-connections/src/service.rs:334-368 | revalidates what a crashed rotation left |
| `ConnectionLifecycle.ConnectionService.VerifySecret` | crates/vox-connections/src/service.rs:369-382 | an enabled connection without a usable secret is disabled |
| `ConnectionLifecycle.ConnectionService.QuarantineOrphans` | crates/vox-connections/src/service.rs:387-406 | goes through the secrets and disables those without an owner, or stops at one of them |
| `ConnectionLifecycle.ConnectionService.RecoverConnectionLifecycle` | crates/vox-connections/src/service.rs:187-408 | visits the connections one after the other and then quarantines, stopping anywhere |
| `ConnectionSteps.CreateKeepsGuarantees` | crates/vox-connections/src/service.rs:470-586 | every state a creation can stop in keeps soundness, safety and evolution |
| `ConnectionSteps.DisableKeepsGuarantees` | crates/vox-connections/src/service.rs:865-926 | the same for disabling |
| `ConnectionSteps.DeleteKeepsGuarantees` | crates/vox-connections/src/service.rs:928-974 | the same for deleting |
| `ConnectionSteps.RevalidateKeepsGuarantees` | crates/vox-connections/src/service.rs:629-719 | the same for revalidating |
| `ConnectionSteps.AuthorizeKeepsGuarantees` | crates/vox-connections/src/service.rs:1115-1192 | the same for authorizing |
| `ConnectionSteps.RefreshedHasNoConflict` | crates/vox-connections/src/service.rs:1323-1400 | a completed discovery leaves no authorization on an account that may not trade; healthy means none was revoked |
| `ConnectionRotation.RotationIsRotating` | crates/vox-connections/src/service.rs:752-863 | whatever the store calls do, a rotation past its gate has raised every revision, its row is the old one, the gate or the new one, its secret is disabled only after a failed compensation, and a completed one has stored everything |
| `ConnectionRotation.RotationCompletesExactly` | crates/vox-connections/src/service.rs:721-863 | a rotation can complete if and only if the secret is live, the discovery is accepted and no revision to be raised is the highest |
| `ConnectionRotation.CompletedRotation` | crates/vox-connections/src/service.rs:795-819 | a completed rotation makes the connection valid whatever it was, leaves it as enabled as it was, and leaves the new secret live |
| `ConnectionRotation.RotationRow` | crates/vox-connections/src/service.rs:795-858 | a rotation leaves its new row, exactly when it was stored and not taken back, or else the status it found |
| `ConnectionRotation.RotateKeepsGuarantees` | crates/vox-connections/src/service.rs:721-863 | every state a rotation can stop in keeps soundness and evolution, and safety unless its compensation failed |
| `ConnectionRotation.RotationStaysSafe` | crates/vox-connections/src/service.rs:721-863 | a rotation that is not at risk ends safe whatever fails |
| `ConnectionRotation.RotationAtRisk` | crates/vox-connections/src/service.rs:833-858 | for every rotation at risk there are outcomes of its store calls that end it unsafe: the accounts are not restored under a healthy row, or the row is not restored after a healthy discovery |
| `ConnectionRotation.RotationCanEndUnsafeExactly` | crates/vox-connections/src/service.rs:721-863 | a rotation can end unsafe if and only if its checks pass on an enabled connection that is healthy or discovered healthy |
| `ConnectionRecovery.VisitKeepsGuarantees` | crates/vox-connections/src/service.rs:195-385 | each visit keeps the guarantees, and a finished one leaves its connection safe and not pending |
| `ConnectionRecovery.VisitFinishesExactly` | crates/vox-connections/src/service.rs:195-385 | a visit can be finished if and only if the row, the secret and the reply allow it |
| `ConnectionRecovery.RecoverKeepsGuarantees` | crates/vox-connections/src/service.rs:187-408 | wherever recovery stops the guarantees hold; if it completes, the state is safe, nothing is pending and no live secret is unowned, also after a failed compensation |
| `ConnectionRecovery.RecoveryCompletesExactly` | crates/vox-connections/src/service.rs:187-408 | recovery can be completed if and only if every single visit can be finished from the starting state |
| `ConnectionRuns.NextIsStep` | crates/vox-connections/src/service.rs:187-974 | every operation, wherever it stops, keeps the guarantees |
| `ConnectionRuns.RunsStaySafe` | crates/vox-connections/src/service.rs:187-974 | in every run an enabled and healthy connection is valid with a live secret in its context, unless a rotation at risk lost its compensation and awaits recovery |
| `ConnectionRuns.CompletedRecoveryRepairs` | crates/vox-connections/src/service.rs:187-408 | after each completed recovery of any run the state is safe, no row has a pending status and no live secret is unowned |
| `ConnectionRuns.DisabledConnectionsStayDisabled` | crates/vox-connections/src/service.rs:187-974 | a connection past onboarding that is not enabled is never enabled again |
| `ConnectionRuns.SameRevisionSameModeAndSecret` | crates/vox-connections/src/service.rs:752-794 | revisions only grow, and any change of mode or secret between two points raises them |
| `ConnectionRuns.CheckedGrantSeesWhatWasRead` | crates/vox-connections/src/service.rs:1214-1254 | a grant checked against a revision sees the mode and secret of when that revision was read |
| `ConnectionRuns.OnlyDisabledConnectionsGo` | crates/vox-connections/src/service.rs:928-974 | no step of any run removes a connection that is still enabled |
| `ConnectionGrants.GrantsExactly` | crates/vox-connections/src/service.rs:1214-1254 | access is granted if and only if the connection is enabled, healthy, not being deleted and has a live secret in its context, the account is accessible and may place orders in that environment, the revision is the expected one, some mode is set, sandbox purposes meet the sandbox and production purposes production, and automation the automated mode |
| `ConnectionGrants.ModesAreSetByAuthorizing` | crates/vox-connections/src/service.rs:1115-1192 | only a completed authorization gives an account a mode other than not allowed that it did not have |
| `ConnectionGrants.ModesWereSet` | crates/vox-connections/src/service.rs:1115-1192 | in every run such a mode was set by a completed authorization of that account and has been in force ever since |
| `ConnectionGrants.GrantsGoBackToAnAuthorization` | crates/vox-connections/src/service.rs:1709-1735 | in every run a grant goes back to a completed authorization that has been in force ever since, to the automated mode for an automated purpose, on a connection and an account that could trade then |
| `ConnectionGrants.NotedFailureStopsGrants` | crates/vox-connections/src/service.rs:684-708 | a noted provider error sets the health and status that it calls for and leaves no grant possible |
| `ConnectionGrants.OnboardedAccountsAreAsReported` | crates/vox-connections/src/service.rs:470-586 | after onboarding the accounts are those reported, as reported, and none is authorized |
| `ConnectionGrants.RevalidatedAccountsAreAsReported` | crates/vox-connections/src/service.rs:678-719 | after a completed revalidation reported accounts are as reported and the others inaccessible |
| `ConnectionEndings.DisablingClosesForGood` | crates/vox-connections/src/service.rs:865-926 | disabling closes the row, then the secret, and touches nothing else; no grant is possible from the first write on |
| `ConnectionEndings.DeletingLeavesNothing` | crates/vox-connections/src/service.rs:928-974 | a deleted connection leaves neither row nor secret, and before that a tombstone |
| `ConnectionEndings.RecoveryFinishesOnboarding` | crates/vox-connections/src/service.rs:197-297 | an interrupted onboarding becomes invalid without a secret, stays pending on a provider error, and opens otherwise |
| `ConnectionEndings.RecoveryClosesWithoutSecret` | crates/vox-connections/src/service.rs:369-382 | a valid enabled connection is closed by recovery if and only if its secret is missing or disabled |
| `ConnectionEndings.UndoneRotationRestores` | crates/vox-connections/src/service.rs:833-858 | a rotation whose metadata cannot be stored and that is undone ends with the old secret, row and accounts, what only the new secret showed inaccessible, and every revision raised |
| `ConnectionRuns.UnsafeStateIsReached` | crates/vox-connections/src/service.rs:833-858 | creating any connection and rotating it once can end unsafe |
| `ConnectionRuns.BrokenRotationBlocksRecovery` | crates/vox-connections/src/service.rs:334-368 | from every healthy connection a rotation can end in a safe state from which no recovery completes |
| `ConnectionRuns.CrashedCreateBlocksRecovery` | crates/vox-connections/src/service.rs:315-319 | a creation that stops before its secret is stored, followed by a failed disable, leaves a state from which no recovery completes |
| `ConnectionRepair.LeavesTheWayOutExactly` | crates/vox-connections/src/service.rs:187-974 | an operation takes a connection that is disabled, pending disable or pending delete off its way out if and only if it is a rotation whose new row stays |
| `ConnectionRepair.StartedDisableIsLostOnlyToRotation` | crates/vox-connections/src/service.rs:721-974 | in every run a started disable or delete is lost only to such a rotation |
| `ConnectionRepair.RecoveryPassesBy` | crates/vox-connections/src/service.rs:369-385 | completed recovery leaves a valid connection that is not enabled, and its secret, as they are |
| `ConnectionRepair.RotationLosesDisable` | crates/vox-connections/src/service.rs:795-819 | a disable that stops after its gate and a completed rotation leave a valid connection, not enabled, with a live secret, which no completed recovery changes |
| `ConnectionRepair.RecoveryCanBeUnblocked` | crates/vox-connections/src/service.rs:865-974 | from every sound state at most two disables or deletes of each connection that recovery cannot finish, and of no other, lead to a state from which recovery completes |
| `Mutation.EvidenceStore.Claim` | crates/vox-domain/src/mutation.rs:141-143 | atomic claim by compare and set |
| `Mutation.EvidenceStore.Resolve` | crates/vox-domain/src/mutation.rs:145-150 | atomic replacement of the expected record |
| `Mutation.MutationRecovery.DecisionOn` | crates/vox-domain/src/mutation.rs:169-182 | submit exactly if absent or not dispatched, do not submit exactly if terminal; the only error is an outage |
| `Mutation.MutationRecovery.PersistBeforeDispatch` | crates/vox-domain/src/mutation.rs:184-198 | succeeds exactly for the claim that makes the identity unclaimable, with an unknown outcome and the given correlation |
| `Mutation.MutationRecovery.PersistAuthoritativeOutcome` | crates/vox-domain/src/mutation.rs:200-234 | replaces an unknown record with the evidence and the observed outcome, where only an outage can fail it; a terminal one only confirms itself; each other error has its stored outcome |
| `Mutation.MutationRecovery.ResolveOrderAccepted` | crates/vox-domain/src/mutation.rs:236-254 | turns an unknown record into accepted with the broker's order, where only an outage can fail it; an absent record and any other outcome have their own error |
| `MutationRuns.RunsKeepInvariant` | crates/vox-domain/src/mutation.rs:136-254 | any interleaving keeps records moving forward and claimed identities unclaimable |
| `MutationRuns.NothingIsSubmittedTwice` | crates/vox-domain/src/mutation.rs:163-198 | after a claim there is no second claim and nobody is told to submit |
| `MutationRuns.TerminalEvidenceNeverChanges` | crates/vox-domain/src/mutation.rs:200-234 | a terminal record is the record of every later state |
| `MutationRuns.ResolutionLandsExactly` | crates/vox-domain/src/mutation.rs:200-234 | a process that loads an unknown record and later commits, whatever runs in between, leaves the outcome it observed if and only if the record is still the loaded one, and touches no other |
| `Candles.SnapshotMarketProjection.PublishCandles` | crates/vox-api/src/market_project.rs:122-161 | the loop merges the page bar by bar and emits exactly if something differs |
| `Candles.LifecycleOnlyAdvances` | crates/vox-api/src/market_project.rs:533-564 | revisions never fall, a bar is open only while both are, corrected only after closing, and below the ceiling every change raises the revision |
| `Candles.UnchangedPageKeepsBarsExactly` | crates/vox-api/src/market_project.rs:122-161 | a page that is not emitted leaves every bar as it was if and only if it drops none and brings no other body for a bar at the highest revision |
| `Candles.PublishKeepsSyncExactly` | crates/vox-api/src/market_project.rs:122-161 | a subscriber in sync stays in sync if and only if the publication is not silenced in one of these two ways |
| `Candles.SubscriberHoldsTheStore` | crates/vox-api/src/market_project.rs:122-161 | a subscriber to the emitted pages holds exactly the stored bars, states and revisions after every publication if and only if none is silenced |
| `Candles.SubscriberHoldsTheStoreWithinBound` | crates/vox-api/src/market_project.rs:122-161 | while the highest published revision plus the number of publications stays within 64 bits, this is so if and only if no unemitted page drops a bar, which pages that list each time once never do |
| `Candles.RepublishedPageIsSilent` | crates/vox-api/src/market_project.rs:122-161 | publishing the stored page again changes nothing and emits nothing if and only if its bars agree with the first of their time; pages that list each time once do |
| `Candles.SaturatedRevisionHidesChange` | crates/vox-api/src/market_project.rs:540-542 | at the highest revision the subscriber can be left behind |
| `Candles.RepeatedTimeLosesBar` | crates/vox-api/src/market_project.rs:122-161 | a page that repeats an open time can drop a stored bar without being emitted |
| `Trailing.TrailingSemanticReference.Observe` | crates/vox-domain/src/execution.rs:329-337 | the field is the extreme of the extended sequence |
| `Trailing.TrailingSemanticReference.CurrentThreshold` | crates/vox-domain/src/execution.rs:339-354 | computes the threshold or notices an overflow |
| `Trailing.ExtremeIsTheBest` | crates/vox-domain/src/execution.rs:329-337 | the extreme is the maximum or minimum of reference and observations |
| `Trailing.AbsoluteStopIsItsDistanceAway` | crates/vox-domain/src/execution.rs:339-354 | an absolute stop is exactly its distance away from the extreme, on the losing side, wherever that fits |
| `Trailing.RelativeStopIsItsShareAway` | crates/vox-domain/src/execution.rs:339-354 | a relative stop is that share of the extreme away, cut off toward zero, unless the product overflows |
| `Trailing.NeverWidensExactly` | crates/vox-domain/src/execution.rs:339-354 | the threshold never widens if and only if the distance is at most 100% (long) or at least -100% (short), or absolute |
| `Trailing.ThresholdsFollowThePrice` | crates/vox-domain/src/execution.rs:329-354 | over any price sequence later thresholds are never less favourable |
| `Futures.UnitsNanoIsTheCanonicalForm` | crates/vox-domain/src/money.rs:70-76 | the pair has the value and is the only canonical one |
| `Futures.UnitsNanoRoundTrip` | crates/vox-domain/src/money.rs:30-76 | a provider pair comes back exactly if its parts agree in sign |
| `Futures.AcceptedMetadataIsExact` | crates/vox-domain/src/money.rs:112-142 | metadata is accepted if and only if it is positive, consistent, representable and exact |
| `Futures.RefusedMetadataNamesItsReason` | crates/vox-domain/src/money.rs:112-142 | refused metadata says what is wrong with it |
| `Futures.TickPricesAreExact` | crates/vox-domain/src/money.rs:159-182 | k ticks are worth exactly k tick amounts per contract or overflow, exactly when a product does not fit; never inexact |
| `Futures.ReturnedValuesAreExact` | crates/vox-domain/src/money.rs:159-182 | any returned value is the exact product of price, tick ratio and contracts |
| `ExactDecimals.Normalized` | crates/vox-nautilus/src/exact.rs:54-60 | the loop computes the normal form |
| `ExactDecimals.FixedPointPrecision` | crates/vox-nautilus/src/exact.rs:174-182 | the loop finds the scale of the normal form of the magnitude |
| `ExactDecimals.NormalKeepsValue` | crates/vox-nautilus/src/exact.rs:54-60 | same value, and no trailing zero left |
| `ExactDecimals.NormalIsMinimal` | crates/vox-nautilus/src/exact.rs:54-60 | no decimal of the same value has fewer places, and all have the same normal form |
| `ExactDecimals.RawIsExact` | crates/vox-nautilus/src/exact.rs:32-52 | the sixteen-digit quantity is the nanos times ten million, or overflows exactly when that does not fit |
| `ExactDecimals.MoneyPerPointExactly` | crates/vox-nautilus/src/exact.rs:85-102 | money per point is there if and only if the ticks are positive and agree and the amount is positive, and has its value |
| `ExactDecimals.MoneyPerPointIsExact` | crates/vox-nautilus/src/exact.rs:86-106 | from tick metadata to the raw quantity nothing is rounded |

## Left out

- SQL text, JSON encoding, pragmas and tracing; tables are maps with unique indexes, and the 63-bit range of integer columns is not modelled.
- The order in which queries return rows; every statement holds for any order.
- Audit rows of connections (they only appear as calls that may fail), labels, fingerprints, credential class and scope, timestamps of connections.
- AES-GCM, key versions and rewrapping of secrets; a secret is an opaque value with a context and a disabled flag.
- Account bindings, roles and permission checks; their verdict is an input.
- Broker calls and provider discovery; their replies are inputs, and a lot size of zero, which would panic, is answered like a mismatch.
- The contents of cached instrument constraints; the constraints in effect are an input, and only the age of the cache entry is tracked.
- The order in which overflows inside a sum are noticed; the verdict is that of the total.
- Protection-plan rows, `reserve_atomic`, the runtime coordinator and its journal.
- Concurrent connection operations; they are taken one at a time, crashes included.
- The constructors of the trading library, which may refuse further values.
- HTTP, WebSocket, user interface and scripts.
- `Mutation.EvidenceStore.Claim`: the source only states a contract for the store; the in-memory form here is the simplest that meets it.
