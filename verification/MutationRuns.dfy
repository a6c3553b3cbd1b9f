/** Any number of processes on one evidence store. A resolution is a load and a later compare and set,
    with other processes in between; a process may crash at any point. */
module MutationRuns {
  import opened Machine
  import opened Mutation

  /** The shared records, what each process is about to replace, and what has happened so far. */
  datatype System = System(records: Records, pending: map<nat, Plan>, log: seq<Event>)

  datatype Event =
    | Claimed(id: Id)
    | Told(id: Id, decision: Decision)
    | Silent

  datatype Action =
    | Claim(process: nat, id: Id, correlation: Option<string>)
    | Decide(process: nat, id: Id)
    | Load(process: nat, evidence: Evidence, observed: Authoritative)
    | Commit(process: nat)
    | Crash(process: nat)

  function Lookup(records: Records, id: Id): Option<Evidence> { if id in records then Some(records[id]) else None }

  function Act(s: System, action: Action): System {
    match action
    case Claim(p, id, correlation) =>
      var (records, ok) := ClaimDispatch(s.records, DispatchEvidence(id, correlation));
      s.(records := records, log := s.log + [if ok then Claimed(id) else Silent])
    case Decide(p, id) => s.(log := s.log + [Told(id, DecisionFor(Lookup(s.records, id)))])
    case Load(p, evidence, observed) =>
      var plan := PlanResolution(Lookup(s.records, evidence.requestId), evidence, observed.Outcome());
      s.(pending := s.pending[p := plan], log := s.log + [Silent])
    case Commit(p) =>
      if p in s.pending && s.pending[p].Replace? then
        s.(records := ResolveUnknown(s.records, s.pending[p].expected, s.pending[p].resolved).0,
           pending := s.pending - {p}, log := s.log + [Silent])
      else s.(log := s.log + [Silent])
    case Crash(p) => s.(pending := s.pending - {p}, log := s.log + [Silent])
  }

  function Run(s: System, actions: seq<Action>): System {
    if actions == [] then s else Act(Run(s, actions[..|actions| - 1]), actions[|actions| - 1])
  }

  ghost predicate Keyed(records: Records) { forall id :: id in records ==> records[id].requestId == id }

  /** A waiting replacement still expects an unknown record of the request it resolves. */
  predicate SoundPlan(plan: Plan) {
    plan.Replace? ==>
      plan.expected.outcome.Unknown? && plan.resolved.outcome.Terminal() && plan.expected.requestId == plan.resolved.requestId
  }

  ghost predicate Invariant(start: Records, s: System) {
    && Keyed(s.records) && Forward(start, s.records)
    && (forall p :: p in s.pending ==> SoundPlan(s.pending[p]))
    && (forall i :: 0 <= i < |s.log| && s.log[i].Claimed? ==> !Claimable(s.records, s.log[i].id))
  }

  lemma ActKeepsForward(s: System, action: Action)
    requires Keyed(s.records) && forall p :: p in s.pending ==> SoundPlan(s.pending[p])
    ensures var t := Act(s, action);
            && Keyed(t.records) && Forward(s.records, t.records)
            && (forall p :: p in t.pending ==> SoundPlan(t.pending[p]))
            && (forall id :: !Claimable(s.records, id) ==> !Claimable(t.records, id))
            && |t.log| == |s.log| + 1 && t.log[..|s.log|] == s.log
            && (t.log[|s.log|].Claimed? ==>
                  Claimable(s.records, t.log[|s.log|].id) && !Claimable(t.records, t.log[|s.log|].id))
            && (t.log[|s.log|].Told? && t.log[|s.log|].decision.Submit? ==> Claimable(s.records, t.log[|s.log|].id))
  {}

  lemma ForwardIsTransitive(a: Records, b: Records, c: Records)
    requires Forward(a, b) && Forward(b, c)
    ensures Forward(a, c)
  {
    forall id | id in a
      ensures id in c && a[id].outcome.Rank() <= c[id].outcome.Rank() && (a[id].outcome.Terminal() ==> c[id] == a[id])
    {
      assert id in b;
    }
  }

  lemma ActKeepsInvariant(start: Records, s: System, action: Action)
    requires Invariant(start, s)
    ensures Invariant(start, Act(s, action)) && |Act(s, action).log| == |s.log| + 1
  {
    var t := Act(s, action);
    ActKeepsForward(s, action);
    ForwardIsTransitive(start, s.records, t.records);
    forall i | 0 <= i < |t.log| && t.log[i].Claimed? ensures !Claimable(t.records, t.log[i].id) {
      if i < |s.log| { assert t.log[..|s.log|][i] == s.log[i]; }
    }
  }

  lemma {:induction false} RunsKeepInvariant(start: Records, actions: seq<Action>)
    requires Keyed(start)
    ensures var t := Run(System(start, map[], []), actions);
            Invariant(start, t) && |t.log| == |actions|
  {
    if actions != [] {
      var init, last := actions[..|actions| - 1], actions[|actions| - 1];
      RunsKeepInvariant(start, init);
      var s := Run(System(start, map[], []), init);
      ActKeepsInvariant(start, s, last);
    }
  }

  /** The log of a prefix is a prefix of the log, and the records have only moved forward since. */
  lemma {:induction false} PrefixStates(start: Records, actions: seq<Action>, n: nat)
    requires Keyed(start) && n <= |actions|
    ensures var early, late := Run(System(start, map[], []), actions[..n]), Run(System(start, map[], []), actions);
            && |early.log| == n && |late.log| == |actions| && late.log[..n] == early.log
            && Forward(early.records, late.records)
            && (forall id :: !Claimable(early.records, id) ==> !Claimable(late.records, id))
  {
    RunsKeepInvariant(start, actions[..n]);
    RunsKeepInvariant(start, actions);
    if n == |actions| {
      assert actions[..n] == actions;
    } else {
      var init := actions[..|actions| - 1];
      assert init[..n] == actions[..n];
      PrefixStates(start, init, n);
      RunsKeepInvariant(start, init);
      var s := Run(System(start, map[], []), init);
      ActKeepsForward(s, actions[|actions| - 1]);
      ForwardIsTransitive(Run(System(start, map[], []), actions[..n]).records, s.records, Run(System(start, map[], []), actions).records);
      assert Run(System(start, map[], []), actions).log[..n] == s.log[..n];
    }
  }

  /** The event that an action adds, seen from the state it acted on. */
  lemma EventAt(start: Records, actions: seq<Action>, i: nat)
    requires Keyed(start) && i < |actions|
    ensures var log := Run(System(start, map[], []), actions).log;
            var before := Run(System(start, map[], []), actions[..i]).records;
            var after := Run(System(start, map[], []), actions[..i + 1]).records;
            && |log| == |actions|
            && (log[i].Claimed? ==> Claimable(before, log[i].id) && !Claimable(after, log[i].id))
            && (log[i].Told? && log[i].decision.Submit? ==> Claimable(before, log[i].id))
  {
    PrefixStates(start, actions, i + 1);
    assert actions[..i + 1][..i] == actions[..i];
    RunsKeepInvariant(start, actions[..i]);
    ActKeepsForward(Run(System(start, map[], []), actions[..i]), actions[i]);
    var log := Run(System(start, map[], []), actions).log;
    assert log[i] == log[..i + 1][i];
  }

  /** Once an identity has been claimed, it is neither claimed again nor is any process told to submit it. */
  lemma NothingIsSubmittedTwice(start: Records, actions: seq<Action>, i: nat, j: nat)
    requires Keyed(start) && i < j < |Run(System(start, map[], []), actions).log|
    requires Run(System(start, map[], []), actions).log[i].Claimed?
    ensures var log := Run(System(start, map[], []), actions).log;
            && log[j] != Claimed(log[i].id)
            && log[j] != Told(log[i].id, Submit)
  {
    RunsKeepInvariant(start, actions);
    EventAt(start, actions, i);
    EventAt(start, actions, j);
    assert actions[..j][..i + 1] == actions[..i + 1];
    PrefixStates(start, actions[..j], i + 1);
  }

  /** A terminal outcome, once recorded, is the record of every later state. */
  lemma TerminalEvidenceNeverChanges(start: Records, actions: seq<Action>, n: nat, id: Id)
    requires Keyed(start) && n <= |actions|
    requires var early := Run(System(start, map[], []), actions[..n]).records; id in early && early[id].outcome.Terminal()
    ensures var early, late := Run(System(start, map[], []), actions[..n]).records, Run(System(start, map[], []), actions).records;
            id in late && late[id] == early[id]
  {
    PrefixStates(start, actions, n);
  }

  // ---- resolutions land ----

  predicate Touches(action: Action, process: nat) {
    (action.Load? || action.Commit? || action.Crash?) && action.process == process
  }

  function After(start: Records, actions: seq<Action>, n: nat): System
    requires n <= |actions|
  {
    Run(System(start, map[], []), actions[..n])
  }

  lemma AfterOneMore(start: Records, actions: seq<Action>, n: nat)
    requires n < |actions|
    ensures After(start, actions, n + 1) == Act(After(start, actions, n), actions[n])
  {
    assert actions[..n + 1][..n] == actions[..n];
  }

  /** What a process has loaded is still waiting, as long as it does nothing else about a resolution. */
  lemma {:induction false} PlanWaits(start: Records, actions: seq<Action>, i: nat, j: nat)
    requires i < j <= |actions| && actions[i].Load?
    requires forall k :: i < k < j ==> !Touches(actions[k], actions[i].process)
    ensures var p, evidence := actions[i].process, actions[i].evidence;
            var found := Lookup(After(start, actions, i).records, evidence.requestId);
            && p in After(start, actions, j).pending
            && After(start, actions, j).pending[p] == PlanResolution(found, evidence, actions[i].observed.Outcome())
    decreases j
  {
    AfterOneMore(start, actions, j - 1);
    if i < j - 1 { PlanWaits(start, actions, i, j - 1); }
  }

  /** A process that loaded an unknown record and then commits leaves the outcome that it observed, if the record
      is still the one it loaded; otherwise its commit changes nothing. No other record is touched. */
  lemma ResolutionLandsExactly(start: Records, actions: seq<Action>, i: nat, j: nat)
    requires Keyed(start) && i < j < |actions| && actions[i].Load? && actions[j] == Commit(actions[i].process)
    requires forall k :: i < k < j ==> !Touches(actions[k], actions[i].process)
    requires var found := Lookup(After(start, actions, i).records, actions[i].evidence.requestId);
             found.Some? && found.value.outcome == Unknown
    ensures var id := actions[i].evidence.requestId;
            var loaded, before := After(start, actions, i).records, After(start, actions, j).records;
            After(start, actions, j + 1).records ==
              if id in before && before[id] == loaded[id]
              then before[id := actions[i].evidence.(outcome := if actions[i].observed.ConfirmedAccepted? then Accepted else Rejected)]
              else before
  {
    RunsKeepInvariant(start, actions[..i]);
    PlanWaits(start, actions, i, j);
    AfterOneMore(start, actions, j);
  }
}
