/** At-most-once dispatch: processes that share one evidence store and change it only by compare and set. */
module Mutation {
  import opened Machine

  type Id = string

  datatype Outcome = NotDispatched | Accepted | Rejected | Unknown
  {
    predicate Terminal() { Accepted? || Rejected? }

    /** Outcomes only move to a higher rank. */
    function Rank(): nat { match this case NotDispatched => 0 case Unknown => 1 case _ => 2 }
  }

  datatype Evidence = Evidence(
    requestId: Id, outcome: Outcome, brokerOrderId: Option<Id>, brokerStopOrderId: Option<Id>, exchangeOrderId: Option<Id>,
    providerOperationId: Option<string>, correlationId: Option<string>)

  datatype Authoritative = ConfirmedAccepted | ConfirmedRejected
  {
    function Outcome(): Outcome { if ConfirmedAccepted? then Accepted else Rejected }
  }

  datatype Decision = Submit | Reconcile | DoNotSubmit

  datatype MutationError =
    | StoreUnavailable
    | AlreadyDispatched
    | NotPersisted
    | TerminalIsImmutable
    | CannotResolve
    | EvidenceChanged

  type Records = map<Id, Evidence>

  function DispatchEvidence(id: Id, correlation: Option<string>): Evidence {
    Evidence(id, Unknown, None, None, None, None, correlation)
  }

  predicate Claimable(records: Records, id: Id) { id in records ==> records[id].outcome.NotDispatched? }

  function ClaimDispatch(records: Records, evidence: Evidence): (Records, bool) {
    if Claimable(records, evidence.requestId) then (records[evidence.requestId := evidence], true) else (records, false)
  }

  function ResolveUnknown(records: Records, expected: Evidence, resolved: Evidence): (Records, bool) {
    if expected.requestId in records && records[expected.requestId] == expected
    then (records[resolved.requestId := resolved], true) else (records, false)
  }

  function DecisionFor(stored: Option<Evidence>): Decision {
    if stored.None? || stored.value.outcome.NotDispatched? then Submit
    else if stored.value.outcome.Unknown? then Reconcile else DoNotSubmit
  }

  /** What an authoritative observation does with the record it found: answer at once, or try to replace it. */
  datatype Plan = Answer(result: Result<Evidence, MutationError>) | Replace(expected: Evidence, resolved: Evidence)

  function PlanResolution(stored: Option<Evidence>, evidence: Evidence, outcome: Outcome): Plan {
    if stored.None? then Answer(Err(NotPersisted))
    else if stored.value.outcome.Terminal() then
      Answer(if stored.value == evidence && stored.value.outcome == outcome then Ok(stored.value) else Err(TerminalIsImmutable))
    else if !stored.value.outcome.Unknown? then Answer(Err(CannotResolve))
    else Replace(stored.value, evidence.(outcome := outcome))
  }

  // ---- the objects ----

  class EvidenceStore {
    var records: Records

    /** `false` stands for a failed call; the record is then left alone. */
    method Available() returns (up: bool) {
      if { case true => up := true; case true => up := false; }
    }

    method Load(id: Id) returns (r: Result<Option<Evidence>, MutationError>)
      ensures r.Ok? ==> r.value == if id in records then Some(records[id]) else None
      ensures r.Err? ==> r.error.StoreUnavailable?
    {
      var up := Available();
      if !up { return Err(StoreUnavailable); }
      return Ok(if id in records then Some(records[id]) else None);
    }

    method Claim(evidence: Evidence) returns (r: Result<bool, MutationError>)
      modifies this
      ensures r.Err? ==> r.error.StoreUnavailable? && records == old(records)
      ensures r.Ok? ==> (records, r.value) == ClaimDispatch(old(records), evidence)
    {
      var up := Available();
      if !up { return Err(StoreUnavailable); }
      if Claimable(records, evidence.requestId) {
        records := records[evidence.requestId := evidence];
        return Ok(true);
      }
      return Ok(false);
    }

    method Resolve(expected: Evidence, resolved: Evidence) returns (r: Result<bool, MutationError>)
      modifies this
      ensures r.Err? ==> r.error.StoreUnavailable? && records == old(records)
      ensures r.Ok? ==> (records, r.value) == ResolveUnknown(old(records), expected, resolved)
    {
      var up := Available();
      if !up { return Err(StoreUnavailable); }
      if expected.requestId !in records || records[expected.requestId] != expected { return Ok(false); }
      records := records[resolved.requestId := resolved];
      return Ok(true);
    }
  }

  /** Nothing moves backwards, and terminal evidence stays exactly as it is. */
  ghost predicate Forward(before: Records, after: Records) {
    forall id :: id in before ==>
      && id in after && before[id].outcome.Rank() <= after[id].outcome.Rank()
      && (before[id].outcome.Terminal() ==> after[id] == before[id])
  }

  class MutationRecovery {
    const store: EvidenceStore

    constructor (store: EvidenceStore)
      ensures this.store == store
    {
      this.store := store;
    }

    method DecisionOn(id: Id) returns (r: Result<Decision, MutationError>)
      ensures r.Ok? ==> (r.value.Submit? <==> id !in store.records || store.records[id].outcome == NotDispatched)
      ensures r.Err? ==> r.error.StoreUnavailable?
      ensures r.Ok? ==> (r.value.DoNotSubmit? <==> id in store.records && store.records[id].outcome.Terminal())
    {
      var stored := store.Load(id);
      if stored.Err? { return Err(stored.error); }
      return Ok(DecisionFor(stored.value));
    }

    /** Claims the identity before anything is sent; exactly one caller can ever succeed. */
    method PersistBeforeDispatch(id: Id, correlation: Option<string>) returns (r: Result<Evidence, MutationError>)
      modifies store
      ensures Forward(old(store.records), store.records)
      ensures r.Ok? ==> Claimable(old(store.records), id) && !Claimable(store.records, id)
                        && r.value == Evidence(id, Unknown, None, None, None, None, correlation)
                        && store.records == old(store.records)[id := r.value]
      ensures r.Err? ==> store.records == old(store.records) && (r.error.AlreadyDispatched? <==> !r.error.StoreUnavailable?)
      ensures r.Err? && r.error.AlreadyDispatched? ==> !Claimable(store.records, id)
    {
      var evidence := DispatchEvidence(id, correlation);
      var claimed := store.Claim(evidence);
      if claimed.Err? { return Err(claimed.error); }
      if claimed.value { return Ok(evidence); }
      return Err(AlreadyDispatched);
    }

    /** Resolves an unknown record with an authoritative outcome; a terminal record only confirms itself. */
    method PersistAuthoritativeOutcome(evidence: Evidence, observed: Authoritative) returns (r: Result<Evidence, MutationError>)
      requires forall id :: id in store.records ==> store.records[id].requestId == id
      modifies store
      ensures Forward(old(store.records), store.records)
      ensures r.Ok? ==>
                && evidence.requestId in old(store.records) && r.value == evidence.(outcome := observed.Outcome())
                && store.records == old(store.records)[evidence.requestId := r.value]
                && (old(store.records)[evidence.requestId].outcome.Unknown? || old(store.records)[evidence.requestId] == r.value)
      ensures r.Err? ==> store.records == old(store.records)
      ensures r.Err? ==>
                var id, before := evidence.requestId, old(store.records);
                match r.error
                case StoreUnavailable => true
                case NotPersisted => id !in before
                case CannotResolve => id in before && before[id].outcome == NotDispatched
                case TerminalIsImmutable =>
                  && id in before && (before[id].outcome == Accepted || before[id].outcome == Rejected)
                  && (before[id] != evidence || before[id].outcome != observed.Outcome())
                case _ => false
    {
      var stored := store.Load(evidence.requestId);
      if stored.Err? { return Err(stored.error); }
      match PlanResolution(stored.value, evidence, observed.Outcome()) {
        case Answer(result) => return result;
        case Replace(expected, resolved) =>
          var replaced := store.Resolve(expected, resolved);
          if replaced.Err? { return Err(replaced.error); }
          if replaced.value { return Ok(resolved); }
          return Err(EvidenceChanged);
      }
    }

    /** An order found at the broker resolves its unknown record as accepted. */
    method ResolveOrderAccepted(id: Id, orderId: Id) returns (r: Result<Evidence, MutationError>)
      requires forall id :: id in store.records ==> store.records[id].requestId == id
      modifies store
      ensures Forward(old(store.records), store.records)
      ensures r.Ok? ==> && id in old(store.records) && old(store.records)[id].outcome.Unknown?
                        && r.value == old(store.records)[id].(brokerOrderId := Some(orderId), outcome := Accepted)
                        && store.records == old(store.records)[id := r.value]
      ensures r.Err? ==> store.records == old(store.records)
      ensures r.Err? ==>
                var before := old(store.records);
                match r.error
                case StoreUnavailable => true
                case NotPersisted => id !in before
                case CannotResolve => id in before && before[id].outcome != Unknown
                case _ => false
    {
      var stored := store.Load(id);
      if stored.Err? { return Err(stored.error); }
      if stored.value.None? { return Err(NotPersisted); }
      if !stored.value.value.outcome.Unknown? { return Err(CannotResolve); }
      r := PersistAuthoritativeOutcome(stored.value.value.(brokerOrderId := Some(orderId)), ConfirmedAccepted);
    }
  }
}
