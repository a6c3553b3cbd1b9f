/** The adapter and the connection service together: the order that leaves does so under the mode and with the
    secret that were there when it was admitted. */
module DispatchAuthority {
  import opened Machine
  import Connections = ConnectionModel
  import Service = ConnectionRuns
  import opened ConnectionSteps
  import opened Admission
  import opened AdmissionRuns
  import opened DispatchChecks

  /** A revision that was obtained is the one stored for the account at that moment. */
  predicate ReadFrom(s: Connections.Stores, connection: Connections.Id, account: Connections.Id, revision: Option<u64>) {
    revision.Some? ==>
      && connection in s.cells && account in s.cells[connection].authorizations
      && s.cells[connection].authorizations[account].revision == revision.value
  }

  /** Step `i` of the adapter's run looked at state `seen[i]` of the connection service. */
  ghost predicate AdmissionsRead(steps: seq<Step>, states: seq<Connections.Stores>, seen: seq<nat>, n: nat,
                                 connection: Connections.Id, account: Connections.Id) {
    && |seen| == |steps| && n < |states|
    && forall i :: 0 <= i < |steps| && steps[i].Admitting? ==>
         seen[i] <= n && ReadFrom(states[seen[i]], connection, account, steps[i].input.facts.authorizationRevision)
  }

  /** The mode and the readable secret of the connection are the same in both states. */
  predicate SameModeAndSecret(s: Connections.Stores, t: Connections.Stores, connection: Connections.Id, account: Connections.Id) {
    && connection in s.cells && connection in t.cells
    && var before, after := s.cells[connection], t.cells[connection];
       var ref := before.connection.credentialRef;
       && account in before.authorizations && account in after.authorizations
       && after.authorizations[account] == before.authorizations[account] && after.connection.credentialRef == ref
       && ref in s.secrets && ref in t.secrets && t.secrets[ref].value == s.secrets[ref].value
  }

  /** Whatever both sides did in between, a validation that passes on a fresh grant sees the mode and the secret
      that the admission of its decision saw. */
  lemma ValidatedDispatchKeepsModeAndSecret(
    account: Connections.Id, connection: Connections.Id, steps: seq<Step>, check: ValidateInput, states: seq<Connections.Stores>,
    ops: seq<Service.Operation>, seen: seq<nat>, n: nat, purpose: Connections.ExecutionPurpose)
    returns (i: nat)
    requires AllEnabled(Start(account, connection), steps)
    requires Validate(RunAll(Start(account, connection), steps).adapter, check).1.Ok?
    requires Service.IsRun(states, ops) && n <= |ops| && AdmissionsRead(steps, states, seen, n, connection, account)
    requires GrantAllowed(states[n].cells, states[n].secrets, connection, account, purpose, None)
    requires ReadFrom(states[n], connection, account, check.authorizationRevision)
    ensures i < |steps| && steps[i].Admitting? && steps[i].input.decisionId == check.admission.decisionId
    ensures SameModeAndSecret(states[seen[i]], states[n], connection, account)
  {
    i := ValidatedDispatchKeepsItsAuthorization(account, connection, steps, check);
    SameRevisionSameSecret(states, ops, seen[i], n, connection, account, purpose, check.authorizationRevision.value);
  }

  lemma SameRevisionSameSecret(states: seq<Connections.Stores>, ops: seq<Service.Operation>, m: nat, n: nat,
                               connection: Connections.Id, account: Connections.Id, purpose: Connections.ExecutionPurpose, revision: u64)
    requires Service.IsRun(states, ops) && m <= n <= |ops|
    requires ReadFrom(states[m], connection, account, Some(revision)) && ReadFrom(states[n], connection, account, Some(revision))
    requires GrantAllowed(states[n].cells, states[n].secrets, connection, account, purpose, None)
    ensures SameModeAndSecret(states[m], states[n], connection, account)
  {
    Service.CheckedGrantSeesWhatWasRead(states, ops, m, n, connection, account, purpose);
  }
}
