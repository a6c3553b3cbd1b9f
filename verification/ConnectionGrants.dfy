/** What an execution grant means in the stored rows, and where, in a run of the connection service, the
    authorization behind it was set. */
module ConnectionGrants {
  import opened Machine
  import opened Histories
  import opened ConnectionModel
  import opened ConnectionStores
  import opened ConnectionAccess
  import opened ConnectionSteps
  import opened ConnectionRotation
  import opened ConnectionRecovery
  import opened ConnectionRuns

  // ---- one grant ----

  /** Access is granted exactly for an open connection, an account that may place orders, the expected
      revision, and a mode that suits the purpose. */
  lemma GrantsExactly(cells: map<Id, Cell>, secrets: map<Id, Secret>, id: Id, account: Id, purpose: ExecutionPurpose,
                      expected: Option<nat>)
    ensures GrantAllowed(cells, secrets, id, account, purpose, expected) <==>
              && id in cells && Open(secrets, cells[id].connection)
              && account in cells[id].accounts && account in cells[id].authorizations
              && var environment := cells[id].connection.context.environment;
                 && OrdersAllowed(environment, cells[id].accounts[account])
                 && Suits(environment, cells[id].authorizations[account].mode, purpose)
                 && (expected.Some? ==> cells[id].authorizations[account].revision == expected.value)
  {}

  /** A revalidation that fails and is noted leaves the connection enabled and without grants, with the health and
      the credential status that the provider's error calls for. */
  lemma NotedFailureStopsGrants(s: Stores, t: Stores, id: Id, kind: ProviderErrorKind)
    requires RevalidateStops(s, t, id, Err(kind), false) && t != s
    ensures && id in s.cells && id in t.cells
            && var before, row := s.cells[id].connection.row, t.cells[id].connection.row;
               && t == PutCell(s, id, WithRow(s.cells[id], row)) && row.enabled && row.health != Healthy
               && (row.health == HealthState.InvalidCredential <==> kind == InvalidCredentialError || kind == ExpiredOrInactiveError)
               && (row.health == HealthState.InsufficientPermission <==> kind == InsufficientPermissionError)
               && (row.health == HealthState.AccountAccessChanged <==> kind == AccountAccessChangedError)
               && (row.health == HealthState.ProviderUnavailable <==>
                     kind == WrongEnvironment || kind == ProviderUnavailableError || kind == UnsupportedProvider)
               && (kind == ExpiredOrInactiveError ==> row.status == ExpiredOrInactive)
               && (kind == InvalidCredentialError || kind == WrongEnvironment ==> row.status == Invalid)
               && (row.status == before.status || row.status == ExpiredOrInactive || row.status == Invalid)
    ensures forall account, purpose, expected :: !GrantAllowed(t.cells, t.secrets, id, account, purpose, expected)
  {}

  /** After onboarding, the accounts are the reported ones, as reported, and none is authorized yet. */
  lemma OnboardedAccountsAreAsReported(s: Stores, t: Stores, id: Id, connection: Connection, value: string, reply: Reply)
    requires CreateStops(s, t, id, connection, value, reply, true)
    ensures && reply.Ok? && id in t.cells
            && var cell, facts := t.cells[id], reply.value;
               && (forall a :: a in cell.accounts <==> exists i :: 0 <= i < |facts| && facts[i].accountId == a)
               && (forall i :: 0 <= i < |facts| ==>
                     && facts[i].accountId in cell.accounts && facts[i].accountId in cell.authorizations
                     && cell.accounts[facts[i].accountId]
                        == Account(facts[i].accountId, connection.context.environment, facts[i].accessible, facts[i].capabilities)
                     && cell.authorizations[facts[i].accountId] == Authorization(NotAllowed, 1))
  {
    FactsStayDistinct(connection.context.environment, reply.value);
    AccountsAsReported(connection.context.environment, reply.value);
    AuthorizationsAsReported(connection.context.environment, reply.value);
  }

  lemma AccountsAsReported(environment: BrokerEnvironment, facts: seq<AccountFact>)
    requires DistinctFacts(facts)
    ensures var accounts := Upserted(map[], Materialized(environment, facts));
            && (forall a :: a in accounts <==> exists i :: 0 <= i < |facts| && facts[i].accountId == a)
            && (forall i :: 0 <= i < |facts| ==>
                  && facts[i].accountId in accounts
                  && accounts[facts[i].accountId]
                     == Account(facts[i].accountId, environment, facts[i].accessible, facts[i].capabilities))
  {
    var accounts := Materialized(environment, facts);
    FactsStayDistinct(environment, facts);
    UpsertedTable(map[], accounts);
    ReportedAreListed(environment, facts);
    forall i | 0 <= i < |facts| ensures facts[i].accountId in Upserted(map[], accounts) {
      assert Listed(accounts, accounts[i].accountId);
    }
  }

  lemma AuthorizationsAsReported(environment: BrokerEnvironment, facts: seq<AccountFact>)
    requires DistinctFacts(facts)
    ensures var grants := Granted(map[], InitialAuthorizations(Materialized(environment, facts)));
            forall i :: 0 <= i < |facts| ==>
              facts[i].accountId in grants && grants[facts[i].accountId] == Authorization(NotAllowed, 1)
  {
    var added := InitialAuthorizations(Materialized(environment, facts));
    GrantedTable(map[], added);
    forall i | 0 <= i < |facts|
      ensures facts[i].accountId in Granted(map[], added) && Granted(map[], added)[facts[i].accountId] == Authorization(NotAllowed, 1)
    {
      assert added[i] == (facts[i].accountId, Authorization(NotAllowed, 1));
    }
  }

  lemma ReportedAreListed(environment: BrokerEnvironment, facts: seq<AccountFact>)
    ensures forall a :: Listed(Materialized(environment, facts), a) <==> exists i :: 0 <= i < |facts| && facts[i].accountId == a
  {
    var accounts := Materialized(environment, facts);
    assert |accounts| == |facts| && forall i :: 0 <= i < |facts| ==> accounts[i].accountId == facts[i].accountId;
  }

  /** After a completed revalidation, the reported accounts are as reported, and the others are kept but
      inaccessible. */
  lemma RevalidatedAccountsAreAsReported(s: Stores, t: Stores, id: Id, reply: Reply)
    requires RevalidateStops(s, t, id, reply, true)
    ensures && reply.Ok? && id in s.cells && id in t.cells
            && var before, after, facts := s.cells[id].accounts, t.cells[id].accounts, reply.value;
               && (forall a :: a in after <==> a in before || exists i :: 0 <= i < |facts| && facts[i].accountId == a)
               && (forall a :: a in before && !(exists i :: 0 <= i < |facts| && facts[i].accountId == a) ==>
                     a in after && after[a] == before[a].(accessible := false))
               && (forall i :: 0 <= i < |facts| ==>
                     && facts[i].accountId in after
                     && after[facts[i].accountId] == Account(facts[i].accountId, s.cells[id].connection.context.environment,
                                                             facts[i].accessible, facts[i].capabilities))
  {
    var environment := s.cells[id].connection.context.environment;
    FactsStayDistinct(environment, reply.value);
    var accounts := Materialized(environment, reply.value);
    ReplacedTable(s.cells[id].accounts, accounts);
    ReportedAreListed(environment, reply.value);
    forall i | 0 <= i < |reply.value|
      ensures reply.value[i].accountId in t.cells[id].accounts && t.cells[id].accounts[reply.value[i].accountId] == accounts[i]
    {
      assert Listed(accounts, accounts[i].accountId);
    }
  }

  // ---- where modes come from ----

  function AuthorizationsOf(s: Stores, id: Id): map<Id, Authorization> {
    if id in s.cells then s.cells[id].authorizations else map[]
  }

  /** A mode other than not allowed was there before. */
  ghost predicate KeepsModes(before: map<Id, Authorization>, after: map<Id, Authorization>) {
    forall k :: k in after && after[k].mode != NotAllowed ==> k in before && before[k].mode == after[k].mode
  }

  ghost predicate OnlyLowers(s: Stores, t: Stores) {
    forall id :: id in t.cells ==> KeepsModes(AuthorizationsOf(s, id), t.cells[id].authorizations)
  }

  lemma OnlyLowersIsTransitive(s: Stores, t: Stores, u: Stores)
    requires OnlyLowers(s, t) && OnlyLowers(t, u)
    ensures OnlyLowers(s, u)
  {
    forall id | id in u.cells ensures KeepsModes(AuthorizationsOf(s, id), u.cells[id].authorizations) {
      if id in t.cells { assert KeepsModes(AuthorizationsOf(s, id), t.cells[id].authorizations); }
    }
  }

  lemma OneCellLowers(s: Stores, t: Stores, id: Id)
    requires id in t.cells && t.cells == s.cells[id := t.cells[id]]
    requires KeepsModes(AuthorizationsOf(s, id), t.cells[id].authorizations)
    ensures OnlyLowers(s, t)
  {}

  lemma SameCellsLower(s: Stores, t: Stores)
    requires t.cells.Keys <= s.cells.Keys && forall id :: id in t.cells ==> t.cells[id] == s.cells[id]
    ensures OnlyLowers(s, t)
  {}

  /** New accounts start out not allowed. */
  lemma {:induction false} GrantedNothing(grants: map<Id, Authorization>, added: seq<(Id, Authorization)>)
    requires forall i :: 0 <= i < |added| ==> added[i].1.mode == NotAllowed
    ensures KeepsModes(grants, Granted(grants, added))
  {
    if added != [] { GrantedNothing(grants, added[..|added| - 1]); }
  }

  lemma CreatingOnlyLowers(s: Stores, t: Stores, id: Id, connection: Connection, value: string, reply: Reply, done: bool)
    requires CreateStops(s, t, id, connection, value, reply, done)
    ensures OnlyLowers(s, t)
  {
    if done {
      GrantedNothing(map[], InitialAuthorizations(Materialized(connection.context.environment, reply.value)));
      OneCellLowers(s, t, id);
    } else if t.cells == s.cells {
      SameCellsLower(s, t);
    } else {
      OneCellLowers(s, t, id);
    }
  }

  lemma ClosingOnlyLowers(s: Stores, t: Stores, id: Id, done: bool)
    requires DisableStops(s, t, id, done) || DeleteStops(s, t, id, done)
    ensures OnlyLowers(s, t)
  {}

  lemma RevalidatedCellLowers(cell: Cell, after: Cell, reply: Reply, done: bool)
    requires RevalidatedCell(cell, after, reply, done)
    ensures KeepsModes(cell.authorizations, after.authorizations)
  {}

  lemma RevalidatingOnlyLowers(s: Stores, t: Stores, id: Id, reply: Reply, done: bool)
    requires RevalidateStops(s, t, id, reply, done)
    ensures OnlyLowers(s, t)
  {
    if t == s {
      SameCellsLower(s, t);
    } else {
      RevalidatedCellLowers(s.cells[id], t.cells[id], reply, done);
      OneCellLowers(s, t, id);
    }
  }

  lemma RotatedCellLowers(cell: Cell, secret: Secret, value: string, reply: Reply, path: Path)
    requires CellSound(cell) && Accepted(reply) && !secret.disabled && PathListed(path, cell.accounts, Discovered(cell, reply))
    ensures KeepsModes(cell.authorizations, RotateRun(cell, secret, value, Discovered(cell, reply), path).0.authorizations)
  {
    if path.BeforeSecret? || path.BehindSecret? { RotationIsRotating(cell, secret, value, reply, path); }
  }

  lemma RotatingOnlyLowers(s: Stores, t: Stores, id: Id, value: string, reply: Reply, path: Path, end: RotationEnd)
    requires Sound(s) && RotateStops(s, t, id, value, reply, path, end)
    ensures OnlyLowers(s, t)
  {
    if t == s {
      SameCellsLower(s, t);
    } else {
      var cell := s.cells[id];
      RotatedCellLowers(cell, s.secrets[cell.connection.credentialRef], value, reply, path);
      OneCellLowers(s, t, id);
    }
  }

  lemma VisitingOnlyLowers(s: Stores, t: Stores, id: Id, reply: Reply, done: bool)
    requires Visit(s, t, id, reply, done)
    ensures OnlyLowers(s, t)
  {
    var cell, row := s.cells[id], s.cells[id].connection.row;
    if row.status.Valid? && row.enabled && row.health.Validating? {
      if RevalidateStops(s, t, id, reply, true) { RevalidatingOnlyLowers(s, t, id, reply, true); }
      else if RevalidateStops(s, t, id, reply, false) { RevalidatingOnlyLowers(s, t, id, reply, false); }
    } else if row.status.PendingValidation? && reply.Ok? {
      GrantedNothing(cell.authorizations, InitialAuthorizations(Discovered(cell, reply)));
    }
  }

  lemma {:induction false} VisitsOnlyLower(s: Stores, t: Stores, visited: set<Id>, replies: Id -> Reply)
    requires Visits(s, t, visited, replies)
    ensures OnlyLowers(s, t)
    decreases visited
  {
    if visited == {} && t == s {
      SameCellsLower(s, t);
    } else {
      var id, p, rest := LastVisit(s, t, visited, replies);
      VisitsOnlyLower(s, p, rest, replies);
      VisitingOnlyLowers(p, t, id, replies(id), true);
      OnlyLowersIsTransitive(s, p, t);
    }
  }

  lemma RecoveringOnlyLowers(s: Stores, t: Stores, replies: Id -> Reply, done: bool)
    requires RecoverStops(s, t, replies, done)
    ensures OnlyLowers(s, t)
  {
    var mid, visited := RecoverVisits(s, t, replies, done);
    VisitsOnlyLower(s, mid, visited, replies);
    if t.cells != mid.cells {
      var id :| id in s.cells && id !in visited && Visit(mid, t, id, replies(id), false);
      VisitingOnlyLowers(mid, t, id, replies(id), false);
      OnlyLowersIsTransitive(s, mid, t);
    }
  }

  /** A completed authorization of the account to this mode. */
  predicate Sets(op: Operation, id: Id, account: Id, mode: AuthorizationMode) {
    op.Authorize? && op.done && op.id == id && op.account == account && op.mode == mode
  }

  /** Only a completed authorization gives an account a mode that it did not have. */
  lemma ModesAreSetByAuthorizing(s: Stores, op: Operation, t: Stores, id: Id, account: Id)
    requires Sound(s) && Next(s, op, t)
    requires id in t.cells && account in t.cells[id].authorizations && t.cells[id].authorizations[account].mode != NotAllowed
    ensures var mode := t.cells[id].authorizations[account].mode;
            || Sets(op, id, account, mode)
            || (id in s.cells && account in s.cells[id].authorizations && s.cells[id].authorizations[account].mode == mode)
  {
    match op
    case Create(c, connection, value, reply, done) => CreatingOnlyLowers(s, t, c, connection, value, reply, done);
    case Disable(c, done) => ClosingOnlyLowers(s, t, c, done);
    case Delete(c, done) => ClosingOnlyLowers(s, t, c, done);
    case Revalidate(c, reply, done) => RevalidatingOnlyLowers(s, t, c, reply, done);
    case Rotate(c, value, reply, path, end) => RotatingOnlyLowers(s, t, c, value, reply, path, end);
    case Authorize(_, _, _, _, _) =>
    case Recover(replies, done) => RecoveringOnlyLowers(s, t, replies, done);
  }

  // ---- whole runs ----

  /** The account has the mode. */
  ghost predicate Has(s: Stores, id: Id, account: Id, mode: AuthorizationMode) {
    id in s.cells && account in s.cells[id].authorizations && s.cells[id].authorizations[account].mode == mode
  }

  /** At every state of every run, a mode other than not allowed was set by a completed authorization of
      that account, and has been in force ever since. */
  lemma ModesWereSet(states: seq<Stores>, ops: seq<Operation>, n: nat, id: Id, account: Id, mode: AuthorizationMode) returns (i: nat)
    requires IsRun(states, ops) && n <= |ops| && mode != NotAllowed && Has(states[n], id, account, mode)
    ensures i < n && Sets(ops[i], id, account, mode) && forall k :: i < k <= n ==> Has(states[k], id, account, mode)
  {
    var holds := seq(|states|, k requires 0 <= k < |states| => Has(states[k], id, account, mode));
    var sets := seq(|ops|, k requires 0 <= k < |ops| => Sets(ops[k], id, account, mode));
    forall k | 0 <= k < |sets| && holds[k + 1] ensures holds[k] || sets[k] {
      RunsAreSound(states, ops, k);
      ModesAreSetByAuthorizing(states[k], ops[k], states[k + 1], id, account);
    }
    i := HeldSinceSet(holds, sets, n);
    forall k | i < k <= n ensures Has(states[k], id, account, mode) { assert holds[k]; }
  }

  /** A grant goes back to a completed authorization of the account that has been in force ever since; for an
      automated purpose it set the automated mode, on a connection that was open and an account that might trade. */
  lemma GrantsGoBackToAnAuthorization(states: seq<Stores>, ops: seq<Operation>, n: nat, id: Id, account: Id,
                                      purpose: ExecutionPurpose, expected: Option<nat>) returns (i: nat, mode: AuthorizationMode)
    requires IsRun(states, ops) && n <= |ops|
    requires GrantAllowed(states[n].cells, states[n].secrets, id, account, purpose, expected)
    ensures mode != NotAllowed && (purpose == ProductionAutomated ==> mode == AutomatedAllowed)
    ensures i < n && ops[i].Authorize? && ops[i] == Authorize(id, account, mode, ops[i].expected, true)
    ensures forall k :: i < k <= n ==> Has(states[k], id, account, mode)
    ensures && id in states[i].cells && account in states[i].cells[id].accounts && account in states[i].cells[id].authorizations
            && states[i].cells[id].authorizations[account].revision == ops[i].expected
            && states[i].cells[id].connection.row.enabled && states[i].cells[id].connection.row.health == Healthy
            && OrdersAllowed(states[i].cells[id].connection.context.environment, states[i].cells[id].accounts[account])
  {
    GrantsExactly(states[n].cells, states[n].secrets, id, account, purpose, expected);
    mode := states[n].cells[id].authorizations[account].mode;
    i := ModesWereSet(states, ops, n, id, account, mode);
    RunsAreSound(states, ops, i);
    assert Next(states[i], ops[i], states[i + 1]);
  }
}
