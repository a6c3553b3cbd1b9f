/** The connection service as an object over the two stores. Every method ends in one of the states that
    its relation allows, whether it completes, fails or crashes at some store call. */
module ConnectionLifecycle {
  import opened Machine
  import opened ConnectionModel
  import opened ConnectionStores
  import opened ConnectionAccess
  import opened ConnectionSteps
  import opened ConnectionRotation
  import opened ConnectionRecovery

  datatype ServiceError =
    | Store(fault: Fault)
    | Discovery(error: DiscoveryError)
    | Provider(kind: ProviderErrorKind)
    | ConnectionNotFound
    | ConnectionDisabled
    | CredentialRotationCompensationFailed
    | DisableBeforeDelete
    | AccountNotFound
    | AccountUnavailable
    | AccountBindingMismatch
    | ConnectionUnavailable
    | ExecutionUnauthorized
    | StaleExecutionAuthorization
    | AuthorizationRevisionOverflow
    | ProviderDoesNotAllowOrders
    | PermissionDenied

  datatype Grant = Grant(credentialRef: Id, capabilities: set<Capability>, mode: AuthorizationMode, revision: nat)

  predicate StoreTrouble(e: ServiceError) { e.Store? || e.AuthorizationRevisionOverflow? }

  function EndOf<T>(r: Result<T, ServiceError>): RotationEnd {
    if r.Ok? then RotationDone
    else if r.error.CredentialRotationCompensationFailed? then RotationBroken else RotationFailed
  }

  /** How an error halts a sequence of store calls. */
  function HaltedBy(error: Option<ServiceError>): Option<Halt> {
    if error.None? then None else if error.value == Store(Crashed) then Some(Crash) else Some(Failure)
  }

  lemma ListedAccessLost(table: map<Id, Account>, previous: seq<Account>, current: seq<Account>)
    requires Lists(previous, table)
    ensures AccessRemoved(previous, current) <==> AccessLost(table, current)
  {
    if AccessLost(table, current) {
      var a :| a in table && table[a].accessible && !StillAccessible(a, current);
      assert Listed(previous, a);
      var i :| 0 <= i < |previous| && previous[i].accountId == a;
      assert previous[i].accessible && !StillAccessible(previous[i].accountId, current);
    }
    if AccessRemoved(previous, current) {
      var i :| 0 <= i < |previous| && previous[i].accessible && !StillAccessible(previous[i].accountId, current);
      assert table[previous[i].accountId] == previous[i];
    }
  }

  /** The health computed in memory is the one the stored table calls for. */
  lemma PredictedHealth(cell: Cell, reply: Reply, previous: seq<Account>)
    requires CellSound(cell) && Accepted(reply) && Lists(previous, cell.accounts)
    ensures var current := Discovered(cell, reply);
            var changed := AccessRemoved(previous, current)
                           || Conflict(current + Disappeared(previous, current), cell.authorizations);
            DiscoveredHealth(cell, current) == if changed then HealthState.AccountAccessChanged else Healthy
  {
    var current := Discovered(cell, reply);
    ListedAccessLost(cell.accounts, previous, current);
    FactsStayDistinct(cell.connection.context.environment, reply.value);
    PredictionMatchesTable(cell.accounts, previous, current);
    ReplacedSound(cell, reply);
    PredictedConflictIsReal(
      current + Disappeared(previous, current), current, Replaced(cell.accounts, current), cell.authorizations);
  }

  /** The states in which publishing a discovery can stop. */
  ghost predicate PublishStops(before: Cell, after: Cell, row: Row, current: seq<Account>) {
    || after == before
    || after == WithRow(before, row)
    || (&& after == WithRow(before, row).(accounts := after.accounts, authorizations := after.authorizations)
        && after.accounts == Replaced(before.accounts, current)
        && PartlyRevoked(before.authorizations, after.authorizations))
  }

  /** Why an authorization is not set: the first thing in the way, or a failing store. */
  predicate AuthorizationRefused(cells: map<Id, Cell>, id: Id, account: Id, mode: AuthorizationMode, expected: nat, permitted: bool,
                                 bound: bool, error: ServiceError) {
    if error.Store? then error.fault == Crashed || error.fault == Persistence
    else if id !in cells then error == ConnectionNotFound
    else if account !in cells[id].authorizations || account !in cells[id].accounts then error == AccountNotFound
    else
      var row, target := cells[id].connection.row, cells[id].accounts[account];
      if cells[id].authorizations[account].revision != expected then error == StaleExecutionAuthorization
      else if !permitted then error == PermissionDenied
      else if !bound then error == AccountBindingMismatch
      else if mode != NotAllowed && !(row.enabled && row.health == Healthy) then error == ConnectionUnavailable
      else if mode != NotAllowed && !target.accessible then error == AccountUnavailable
      else if mode != NotAllowed && !OrdersAllowed(cells[id].connection.context.environment, target)
      then error == ProviderDoesNotAllowOrders
      else expected >= U64_MAX && error == AuthorizationRevisionOverflow
  }

  /** Why access is not granted: the first thing in the way, or a failing store. */
  predicate AccessRefused(cells: map<Id, Cell>, secrets: map<Id, Secret>, id: Id, account: Id, bound: bool,
                          purpose: ExecutionPurpose, expected: Option<nat>, error: ServiceError) {
    if error == Store(Crashed) || error == Store(Persistence) then true
    else if id !in cells then error == ConnectionNotFound
    else
      var c, cell := cells[id].connection, cells[id];
      if !c.row.enabled || c.row.health != Healthy || c.row.status == PendingDelete then error == ConnectionUnavailable
      else if account !in cell.accounts then error == AccountNotFound
      else if !cell.accounts[account].accessible then error == AccountUnavailable
      else if !bound then error == AccountBindingMismatch
      else if account !in cell.authorizations then error == ExecutionUnauthorized
      else if expected.Some? && cell.authorizations[account].revision != expected.value then error == StaleExecutionAuthorization
      else if !Suits(c.context.environment, cell.authorizations[account].mode, purpose) then error == ExecutionUnauthorized
      else if !OrdersAllowed(c.context.environment, cell.accounts[account]) then error == ProviderDoesNotAllowOrders
      else error.Store? && !Open(secrets, c)
  }

  lemma OwnedIsListed(s: Stores, connections: map<Id, Connection>, ref: Id)
    requires connections == map id | id in s.cells :: s.cells[id].connection
    ensures Owned(s, ref) <==> exists id :: id in connections && connections[id].credentialRef == ref
  {
    forall id | id in s.cells ensures id in connections && connections[id] == s.cells[id].connection {}
  }

  class ConnectionService {
    const repository: SqliteConnectionRepository
    const secretStore: SqliteSecretStore

    constructor (repository: SqliteConnectionRepository, secretStore: SqliteSecretStore)
      ensures this.repository == repository && this.secretStore == secretStore
    {
      this.repository, this.secretStore := repository, secretStore;
    }

    ghost function View(): Stores
      reads repository, secretStore
    {
      Stores(repository.cells, secretStore.secrets, repository.issued)
    }

    method Lookup(id: Id) returns (r: Result<Connection, ServiceError>)
      ensures r.Ok? ==> id in repository.cells && r.value == repository.cells[id].connection
      ensures r.Err? ==> (r.error.Store? && Outage(r.error.fault)) || (r.error.ConnectionNotFound? && id !in repository.cells)
    {
      var outcome := Draw();
      var found := repository.Connection(id, outcome);
      if found.Err? { return Err(Store(found.error)); }
      if found.value.None? { return Err(ConnectionNotFound); }
      return Ok(found.value.value);
    }

    method CreateConnection(id: Id, context: CredentialContext, ref: Id, value: string, reply: Reply)
      returns (r: Result<Connection, ServiceError>)
      modifies repository, secretStore
      ensures CreateStops(old(View()), View(), id, Connection(context, ref, ONBOARDING), value, reply, r.Ok?)
      ensures r.Ok? ==> r.value == Connection(context, ref, ONBOARDED)
    {
      var outcome: Outcome;
      if reply.Err? { return Err(Provider(reply.error)); }
      var invalid := ValidateDiscovery(reply.value);
      if invalid.Some? { return Err(Discovery(invalid.value)); }
      outcome := Draw();
      var inserted := repository.InsertConnection(id, Connection(context, ref, ONBOARDING), outcome);
      if inserted.Some? { return Err(Store(inserted.value)); }
      outcome := Draw();
      var put := secretStore.Put(ref, context, value, outcome);
      if put.Some? { return Err(Store(put.value)); }
      var accounts := Materialized(context.environment, reply.value);
      outcome := Draw();
      var finalized := repository.InsertOnboarding(id, ONBOARDED, accounts, InitialAuthorizations(accounts), outcome);
      if finalized.Some? {
        outcome := Draw();
        var _ := secretStore.Delete(ref, outcome);
        assert old(secretStore.secrets)[ref := Secret(context, value, false)] - {ref} == old(secretStore.secrets);
        return Err(Store(finalized.value));
      }
      return Ok(Connection(context, ref, ONBOARDED));
    }

    method DisableConnection(id: Id) returns (r: Result<Row, ServiceError>)
      modifies repository, secretStore
      ensures DisableStops(old(View()), View(), id, r.Ok?)
      ensures r.Ok? ==> id in repository.cells && repository.cells[id].connection.row == r.value && r.value.status.Disabled?
    {
      var outcome: Outcome;
      var found := Lookup(id);
      if found.Err? { return Err(found.error); }
      var connection := found.value;
      var row := connection.row;
      if !row.status.PendingDisable? {
        row := CLOSING;
        outcome := Draw();
        var started := repository.UpdateConnection(id, row, outcome);
        if started.Some? { return Err(Store(started.value)); }
      }
      outcome := Draw();
      var disabled := secretStore.Disable(connection.credentialRef, outcome);
      if disabled.Some? { return Err(Store(disabled.value)); }
      row := row.(status := Disabled, health := HealthDisabled);
      outcome := Draw();
      var finished := repository.UpdateConnection(id, row, outcome);
      if finished.Some? { return Err(Store(finished.value)); }
      return Ok(row);
    }

    method DeleteConnection(id: Id) returns (r: Result<(), ServiceError>)
      modifies repository, secretStore
      ensures DeleteStops(old(View()), View(), id, r.Ok?)
    {
      var outcome: Outcome;
      var found := Lookup(id);
      if found.Err? { return Err(found.error); }
      var connection := found.value;
      if connection.row.enabled && !connection.row.status.PendingDelete? { return Err(DisableBeforeDelete); }
      outcome := Draw();
      var started := repository.UpdateConnection(id, TOMBSTONE, outcome);
      if started.Some? { return Err(Store(started.value)); }
      outcome := Draw();
      var deleted := secretStore.Delete(connection.credentialRef, outcome);
      if deleted.Some? && !deleted.value.NotFound? { return Err(Store(deleted.value)); }
      outcome := Draw();
      var finished := repository.FinalizeDelete(id, outcome);
      if finished.Some? { return Err(Store(finished.value)); }
      assert repository.cells == old(repository.cells) - {id};
      return Ok(());
    }

    /** Whether some authorization would be left on an account that may not trade. */
    method AuthorizationConflict(id: Id, accounts: seq<Account>) returns (r: Result<bool, ServiceError>)
      requires id in repository.cells
      ensures r.Ok? ==> r.value == Conflict(accounts, repository.cells[id].authorizations)
      ensures r.Err? ==> r.error.Store?
    {
      var outcome: Outcome;
      var i := 0;
      while i < |accounts|
        invariant 0 <= i <= |accounts|
        invariant forall j :: 0 <= j < i ==> !NeedsRevoking(accounts[j], repository.cells[id].authorizations)
      {
        outcome := Draw();
        var authorization := repository.AuthorizationFor(id, accounts[i].accountId, outcome);
        if authorization.Err? { return Err(Store(authorization.error)); }
        var mode := if authorization.value.Some? then authorization.value.value.mode else NotAllowed;
        if !mode.NotAllowed? && !MayTrade(accounts[i]) {
          assert NeedsRevoking(accounts[i], repository.cells[id].authorizations);
          return Ok(true);
        }
        i := i + 1;
      }
      return Ok(false);
    }

    method RevokeIfInvalid(id: Id, account: Account, lookup: Outcome, write: Outcome) returns (error: Option<ServiceError>)
      requires id in repository.cells
      modifies repository`cells
      ensures var before := old(repository.cells)[id];
              var run := RevokeCall(before.authorizations, account, lookup, write);
              repository.cells == old(repository.cells)[id := before.(authorizations := run.0)] && HaltedBy(error) == run.1
      ensures error.Some? ==> StoreTrouble(error.value)
    {
      var previous := repository.AuthorizationFor(id, account.accountId, lookup);
      if previous.Err? { return Some(Store(previous.error)); }
      if previous.value.None? || previous.value.value.mode.NotAllowed? || MayTrade(account) { return None; }
      var revision := previous.value.value.revision;
      if revision >= U64_MAX { return Some(AuthorizationRevisionOverflow); }
      var put := repository.PutAuthorization(id, account.accountId, Authorization(NotAllowed, revision + 1), revision, write);
      if put.Some? { return Some(Store(put.value)); }
      return None;
    }

    /** Revokes, account by account, what the account table does not support any more. */
    method RevokeInvalidAuthorizations(id: Id, accounts: seq<Account>, lookups: seq<Outcome>, writes: seq<Outcome>)
      returns (error: Option<ServiceError>)
      requires id in repository.cells
      modifies repository`cells
      ensures var before := old(repository.cells)[id];
              var run := RevokeRun(before.authorizations, accounts, lookups, writes);
              repository.cells == old(repository.cells)[id := before.(authorizations := run.0)] && HaltedBy(error) == run.1
      ensures error.Some? ==> StoreTrouble(error.value)
    {
      ghost var cells, before := repository.cells, repository.cells[id];
      var i := 0;
      error := None;
      while i < |accounts|
        invariant 0 <= i <= |accounts|
        invariant var run := RevokeRun(before.authorizations, accounts[..i], lookups, writes);
                  repository.cells == cells[id := before.(authorizations := run.0)] && run.1.None?
      {
        assert accounts[..i + 1][..i] == accounts[..i];
        error := RevokeIfInvalid(id, accounts[i], At(lookups, i), At(writes, i));
        if error.Some? {
          RevokeRunHalts(before.authorizations, accounts, lookups, writes, i + 1);
          return;
        }
        i := i + 1;
      }
      assert accounts[..i] == accounts;
      return None;
    }

    method RevokeUnsupported(id: Id) returns (error: Option<ServiceError>)
      requires id in repository.cells && CellSound(repository.cells[id])
      modifies repository`cells
      ensures id in repository.cells
      ensures repository.cells == old(repository.cells)[id := old(repository.cells)[id].(
                authorizations := repository.cells[id].authorizations)]
      ensures PartlyRevoked(old(repository.cells)[id].authorizations, repository.cells[id].authorizations)
      ensures error.None? ==>
                && repository.cells[id].authorizations
                   == Revoked(old(repository.cells)[id].authorizations, repository.cells[id].accounts)
                && Revocable(old(repository.cells)[id].authorizations, repository.cells[id].accounts)
      ensures error.Some? ==> StoreTrouble(error.value)
    {
      ghost var before := repository.cells[id];
      var outcome := Draw();
      var persisted := repository.Accounts(id, outcome);
      if persisted.Err? { return Some(Store(persisted.error)); }
      var lookups := DrawSome(|persisted.value|);
      var writes := DrawSome(|persisted.value|);
      RevokeRunOnTable(before.authorizations, persisted.value, before.accounts, lookups, writes);
      error := RevokeInvalidAuthorizations(id, persisted.value, lookups, writes);
    }

    /** The account table as it is, and whether the discovered accounts take access away. */
    method Compare(id: Id, facts: seq<AccountFact>, current: seq<Account>) returns (r: Result<(seq<Account>, bool), ServiceError>)
      requires id in repository.cells && CellSound(repository.cells[id]) && AllSafe(facts) && DistinctFacts(facts)
      requires current == Discovered(repository.cells[id], Ok(facts))
      ensures r.Ok? ==>
                Lists(r.value.0, repository.cells[id].accounts)
                && r.value.1 == DiscoveredHealth(repository.cells[id], current).AccountAccessChanged?
      ensures r.Err? ==> r.error.Store?
    {
      var outcome := Draw();
      var previous := repository.Accounts(id, outcome);
      if previous.Err? { return Err(Store(previous.error)); }
      PredictedHealth(repository.cells[id], Ok(facts), previous.value);
      if AccessRemoved(previous.value, current) { return Ok((previous.value, true)); }
      var effective := WithDisappearedAccounts(previous.value, current);
      var conflict := AuthorizationConflict(id, effective);
      if conflict.Err? { return Err(conflict.error); }
      return Ok((previous.value, conflict.value));
    }

    method ReplaceAndRevoke(id: Id, current: seq<Account>) returns (error: Option<ServiceError>)
      requires id in repository.cells && CellSound(repository.cells[id]) && Distinct(current)
      requires forall i :: 0 <= i < |current| ==> current[i].environment == repository.cells[id].connection.context.environment
      modifies repository`cells
      ensures id in repository.cells
      ensures repository.cells == old(repository.cells)[id := repository.cells[id]]
      ensures var before, after := old(repository.cells)[id], repository.cells[id];
              && PublishStops(before, after, before.connection.row, current)
              && (error.None? ==>
                    && after == Refreshed(before, before.connection.row, current)
                    && Revocable(before.authorizations, Replaced(before.accounts, current)))
      ensures error.Some? ==> StoreTrouble(error.value)
    {
      var outcome: Outcome;
      ghost var before := repository.cells[id];
      outcome := Draw();
      var replaced := repository.ReplaceAccounts(id, current, outcome);
      if replaced.Some? { return Some(Store(replaced.value)); }
      UpsertedSound(Hidden(before.accounts), before.connection.context.environment, current);
      assert CellSound(repository.cells[id]);
      error := RevokeUnsupported(id);
    }

    /** Publishes the new row first, then the accounts, then revokes; the row is written once more at the end. */
    method PublishDiscovery(id: Id, row: Row, current: seq<Account>) returns (error: Option<ServiceError>)
      requires id in repository.cells && CellSound(WithRow(repository.cells[id], row)) && Distinct(current)
      requires forall i :: 0 <= i < |current| ==> current[i].environment == repository.cells[id].connection.context.environment
      modifies repository`cells
      ensures id in repository.cells
      ensures var before, after := old(repository.cells)[id], repository.cells[id];
              && repository.cells == old(repository.cells)[id := after]
              && (if error.None?
                  then after == Refreshed(before, row, current) && Revocable(before.authorizations, Replaced(before.accounts, current))
                  else PublishStops(before, after, row, current))
      ensures error.Some? ==> StoreTrouble(error.value)
    {
      var outcome := Draw();
      var gated := repository.UpdateConnection(id, row, outcome);
      if gated.Some? { return Some(Store(gated.value)); }
      error := ReplaceAndRevoke(id, current);
      if error.Some? { return; }
      outcome := Draw();
      var written := repository.UpdateConnection(id, row, outcome);
      if written.Some? { return Some(Store(written.value)); }
      outcome := Draw();
      var audited := repository.AppendAudit(outcome);
      if audited.Some? { return Some(Store(audited.value)); }
      return None;
    }

    method Revalidate(id: Id, reply: Reply) returns (r: Result<Row, ServiceError>)
      requires id in repository.cells ==> CellSound(repository.cells[id])
      modifies repository`cells
      ensures RevalidateStops(old(View()), View(), id, reply, r.Ok?)
      ensures r.Ok? ==> r.value == repository.cells[id].connection.row
      ensures r.Err? && r.error.Provider? ==>
                && reply.Err? && id in old(View()).cells && Live(secretStore.secrets, old(View()).cells[id].connection)
                && View() == PutCell(old(View()), id, WithRow(old(View()).cells[id],
                                                              FailedRow(old(View()).cells[id].connection.row, reply.error)))
    {
      var outcome: Outcome;
      var found := Lookup(id);
      if found.Err? { return Err(found.error); }
      var connection := found.value;
      if !connection.row.enabled { return Err(ConnectionDisabled); }
      outcome := Draw();
      var credential := secretStore.Get(connection.credentialRef, connection.context, outcome);
      if credential.Err? { return Err(Store(credential.error)); }
      if reply.Err? {
        outcome := Draw();
        var noted := repository.UpdateConnection(id, FailedRow(connection.row, reply.error), outcome);
        if noted.Some? { return Err(Store(noted.value)); }
        outcome := Draw();
        var audited := repository.AppendAudit(outcome);
        if audited.Some? { return Err(Store(audited.value)); }
        return Err(Provider(reply.error));
      }
      var invalid := ValidateDiscovery(reply.value);
      if invalid.Some? { return Err(Discovery(invalid.value)); }
      var current := Materialized(connection.context.environment, reply.value);
      var compared := Compare(id, reply.value, current);
      if compared.Err? { return Err(compared.error); }
      var row := Row(Valid, true, if compared.value.1 then HealthState.AccountAccessChanged else Healthy);
      FactsStayDistinct(connection.context.environment, reply.value);
      var error := PublishDiscovery(id, row, current);
      if error.Some? { return Err(error.value); }
      return Ok(row);
    }

    /** The metadata half of a rotation: accounts, row, revocations and the audit row. */
    method PersistRotation(id: Id, row: Row, current: seq<Account>, script: TailScript)
      returns (error: Option<ServiceError>, ghost listed: seq<Account>)
      requires id in repository.cells && CellSound(repository.cells[id]) && RowSound(row) && Distinct(current)
      requires forall i :: 0 <= i < |current| ==> current[i].environment == repository.cells[id].connection.context.environment
      modifies repository`cells
      ensures var before := old(repository.cells)[id];
              var run := PersistRun(before, row, current, listed, script);
              && repository.cells == old(repository.cells)[id := run.0] && HaltedBy(error) == run.1
              && (script.replace.Done? && script.write.Done? && script.list.Done? ==> Lists(listed, Replaced(before.accounts, current)))
      ensures error.Some? ==> StoreTrouble(error.value)
    {
      ghost var before := repository.cells[id];
      listed := [];
      var replaced := repository.ReplaceAccounts(id, current, script.replace);
      if replaced.Some? { return Some(Store(replaced.value)), listed; }
      UpsertedSound(Hidden(before.accounts), before.connection.context.environment, current);
      var written := repository.UpdateConnection(id, row, script.write);
      if written.Some? { return Some(Store(written.value)), listed; }
      assert CellSound(repository.cells[id]);
      var persisted := repository.Accounts(id, script.list);
      if persisted.Err? { return Some(Store(persisted.error)), listed; }
      listed := persisted.value;
      error := RevokeInvalidAuthorizations(id, persisted.value, script.lookups, script.revocations);
      if error.Some? { return; }
      var audited := repository.AppendAudit(script.audit);
      if audited.Some? { return Some(Store(audited.value)), listed; }
      return None, listed;
    }

    /** Undoes a rotation whose metadata could not be stored. */
    method Compensate(id: Id, previous: Connection, value: string, accounts: seq<Account>, script: TailScript)
      returns (error: Option<ServiceError>)
      requires id in repository.cells && Live(secretStore.secrets, previous)
      modifies repository`cells, secretStore
      ensures var ref := previous.credentialRef;
              var run := CompensateRun(old(repository.cells)[id], old(secretStore.secrets)[ref], previous.row, value, accounts, script);
              && repository.cells == old(repository.cells)[id := run.0]
              && secretStore.secrets == old(secretStore.secrets)[ref := run.1]
              && run.2 == (if error == Some(CredentialRotationCompensationFailed) then RotationBroken else RotationFailed)
    {
      ghost var ref := previous.credentialRef;
      assert secretStore.secrets == secretStore.secrets[ref := secretStore.secrets[ref]];
      var secret := secretStore.Rotate(previous.credentialRef, previous.context, value, script.restoreRead, script.restoreSecret);
      if secret == Some(Crashed) { return Some(Store(Crashed)); }
      var table := repository.ReplaceAccounts(id, accounts, script.restoreAccounts);
      if table == Some(Crashed) { return Some(Store(Crashed)); }
      var row := repository.UpdateConnection(id, previous.row, script.restoreRow);
      if row == Some(Crashed) { return Some(Store(Crashed)); }
      if secret.Some? || table.Some? || row.Some? {
        var disabled := secretStore.Disable(previous.credentialRef, script.disable);
        if disabled == Some(Crashed) { return Some(Store(Crashed)); }
        return Some(CredentialRotationCompensationFailed);
      }
      return None;
    }

    /** Stores the metadata of a rotated secret, and compensates if that fails. */
    method FinishRotation(id: Id, previous: Connection, oldValue: string, row: Row, accounts: seq<Account>, current: seq<Account>,
                          script: TailScript) returns (r: Result<Row, ServiceError>, ghost listed: seq<Account>)
      requires id in repository.cells && CellSound(repository.cells[id]) && Live(secretStore.secrets, previous)
      requires repository.cells[id].connection.context == previous.context && RowSound(row) && Distinct(current)
      requires forall i :: 0 <= i < |current| ==> current[i].environment == previous.context.environment
      modifies repository`cells, secretStore
      ensures var before, ref := old(repository.cells)[id], previous.credentialRef;
              var run := FinishRun(before, old(secretStore.secrets)[ref], previous.row, oldValue, row, current, accounts, listed, script);
              && repository.cells == old(repository.cells)[id := run.0]
              && secretStore.secrets == old(secretStore.secrets)[ref := run.1] && EndOf(r) == run.2
              && (script.replace.Done? && script.write.Done? && script.list.Done? ==> Lists(listed, Replaced(before.accounts, current)))
      ensures r.Ok? ==> id in repository.cells && r.value == row == repository.cells[id].connection.row
    {
      ghost var ref := previous.credentialRef;
      assert secretStore.secrets == secretStore.secrets[ref := secretStore.secrets[ref]];
      var error;
      error, listed := PersistRotation(id, row, current, script);
      if error.None? { return Ok(row), listed; }
      if error == Some(Store(Crashed)) { return Err(Store(Crashed)), listed; }
      var broken := Compensate(id, previous, oldValue, accounts, script);
      return Err(if broken.Some? then broken.value else error.value), listed;
    }

    /** Raises every revision and then replaces the secret; if that fails, the row is written back. */
    method RaiseAndReplace(id: Id, previous: Connection, value: string, ghost current: seq<Account>, ghost cell: Cell)
      returns (error: Option<Fault>, ghost path: Path)
      requires id in repository.cells && repository.cells[id] == Closed(cell) && cell.connection == previous
      requires Live(secretStore.secrets, previous)
      modifies repository`cells, secretStore
      ensures var ref := previous.credentialRef;
              if error.None?
              then && repository.cells == old(repository.cells)[id := Raised(cell)]
                   && secretStore.secrets == old(secretStore.secrets)[ref := old(secretStore.secrets)[ref].(value := value)]
              else && (path.AtGate? || path.BeforeSecret?)
                   && var run := RotateRun(cell, old(secretStore.secrets)[ref], value, current, path);
                      && repository.cells == old(repository.cells)[id := run.0] && secretStore.secrets == old(secretStore.secrets)
    {
      path := AtGate;
      var outcome := Draw();
      error := repository.InvalidateAuthorizations(id, outcome);
      if error.Some? { return; }
      path := BeforeSecret(false);
      outcome := Draw();
      var write := Draw();
      error := secretStore.Rotate(previous.credentialRef, previous.context, value, outcome, write);
      if error.Some? && error != Some(Crashed) {
        outcome := Draw();
        var back := repository.UpdateConnection(id, previous.row, outcome);
        path := BeforeSecret(back.None?);
      }
    }

    /** The rest of a rotation once the gate is closed: raise every revision, replace the secret, store the
        metadata. */
    method RotateBehindGate(id: Id, previous: Connection, oldValue: string, value: string, row: Row, accounts: seq<Account>,
                            current: seq<Account>, script: TailScript, ghost cell: Cell)
      returns (r: Result<Row, ServiceError>, ghost path: Path)
      requires id in repository.cells && CellSound(cell) && repository.cells[id] == Closed(cell) && cell.connection == previous
      requires Live(secretStore.secrets, previous) && secretStore.secrets[previous.credentialRef].value == oldValue
      requires row == NewRow(cell, current) && RowSound(row) && Distinct(current) && Lists(accounts, cell.accounts)
      requires forall i :: 0 <= i < |current| ==> current[i].environment == previous.context.environment
      modifies repository`cells, secretStore
      ensures var ref := previous.credentialRef;
              var run := RotateRun(cell, old(secretStore.secrets)[ref], value, current, path);
              && !path.BeforeGate? && PathListed(path, cell.accounts, current) && (path.BehindSecret? ==> path.script == script)
              && repository.cells == old(repository.cells)[id := run.0]
              && secretStore.secrets == old(secretStore.secrets)[ref := run.1] && EndOf(r) == run.2
      ensures r.Ok? ==> id in repository.cells && r.value == row == repository.cells[id].connection.row
    {
      var error;
      error, path := RaiseAndReplace(id, previous, value, current, cell);
      if error.Some? { return Err(Store(error.value)), path; }
      ghost var listed;
      r, listed := FinishRotation(id, previous, oldValue, row, accounts, current, script);
      path := BehindSecret(script, accounts, listed);
    }

    method RotateCredential(id: Id, value: string, reply: Reply, script: TailScript)
      returns (r: Result<Row, ServiceError>, ghost path: Path)
      requires id in repository.cells ==> CellSound(repository.cells[id])
      modifies repository`cells, secretStore
      ensures RotateStops(old(View()), View(), id, value, reply, path, EndOf(r))
      ensures path.BehindSecret? ==> path.script == script
      ensures r.Ok? ==> r.value == repository.cells[id].connection.row
    {
      path := BeforeGate;
      var found := Lookup(id);
      if found.Err? { return Err(found.error), path; }
      var previous := found.value;
      if reply.Err? { return Err(Provider(reply.error)), path; }
      var invalid := ValidateDiscovery(reply.value);
      if invalid.Some? { return Err(Discovery(invalid.value)), path; }
      var outcome := Draw();
      var credential := secretStore.Get(previous.credentialRef, previous.context, outcome);
      if credential.Err? { return Err(Store(credential.error)), path; }
      var current := Materialized(previous.context.environment, reply.value);
      var compared := Compare(id, reply.value, current);
      if compared.Err? { return Err(compared.error), path; }
      var row := previous.row.(status := Valid, health := if compared.value.1 then HealthState.AccountAccessChanged else Healthy);
      ghost var cell := repository.cells[id];
      outcome := Draw();
      var gated := repository.UpdateConnection(id, previous.row.(health := Validating), outcome);
      if gated.Some? { return Err(Store(gated.value)), path; }
      FactsStayDistinct(previous.context.environment, reply.value);
      r, path := RotateBehindGate(id, previous, credential.value, value, row, compared.value.0, current, script, cell);
    }

    method FindAccount(id: Id, account: Id) returns (r: Result<Option<Account>, ServiceError>)
      requires id in repository.cells && CellSound(repository.cells[id])
      ensures r.Ok? ==> r.value == if account in repository.cells[id].accounts
                                   then Some(repository.cells[id].accounts[account]) else None
      ensures r.Err? ==> r.error.Store? && Outage(r.error.fault)
    {
      var outcome := Draw();
      var accounts := repository.Accounts(id, outcome);
      if accounts.Err? { return Err(Store(accounts.error)); }
      var i := 0;
      while i < |accounts.value|
        invariant 0 <= i <= |accounts.value|
        invariant forall j :: 0 <= j < i ==> accounts.value[j].accountId != account
      {
        if accounts.value[i].accountId == account { return Ok(Some(accounts.value[i])); }
        i := i + 1;
      }
      assert !Listed(accounts.value, account);
      return Ok(None);
    }

    /** Changes the mode under a compare and set on the revision that the caller has seen. */
    /** Sets the mode on the expected revision, or says what is in the way first. Whether trading would be possible
        matters only for a mode that allows it: taking an authorization away depends on none of that. */
    method SetExecutionAuthorization(id: Id, account: Id, mode: AuthorizationMode, expected: nat, permitted: bool, bound: bool)
      returns (r: Result<Authorization, ServiceError>)
      requires id in repository.cells ==> CellSound(repository.cells[id])
      modifies repository`cells
      ensures AuthorizeStops(old(View()), View(), id, account, mode, expected, r.Ok?)
      ensures r.Ok? ==> permitted && bound && r.value == Authorization(mode, expected + 1)
      ensures r.Err? ==> AuthorizationRefused(old(repository.cells), id, account, mode, expected, permitted, bound, r.error)
      ensures && mode == NotAllowed && permitted && bound && id in old(repository.cells)
              && account in old(repository.cells)[id].authorizations
              && old(repository.cells)[id].authorizations[account].revision == expected && expected < U64_MAX ==>
                r.Ok? || (r.error.Store? && Outage(r.error.fault))
    {
      var outcome: Outcome;
      var found := Lookup(id);
      if found.Err? { return Err(found.error); }
      outcome := Draw();
      var previous := repository.AuthorizationFor(id, account, outcome);
      if previous.Err? { return Err(Store(previous.error)); }
      if previous.value.None? { return Err(AccountNotFound); }
      if previous.value.value.revision != expected { return Err(StaleExecutionAuthorization); }
      if !permitted { return Err(PermissionDenied); }
      var target := FindAccount(id, account);
      if target.Err? { return Err(target.error); }
      if target.value.None? { return Err(AccountNotFound); }
      if !bound { return Err(AccountBindingMismatch); }
      if !mode.NotAllowed? {
        if !Admitting(found.value.row) { return Err(ConnectionUnavailable); }
        if !target.value.value.accessible { return Err(AccountUnavailable); }
        if RequiredCapability(found.value.context.environment) !in target.value.value.capabilities {
          return Err(ProviderDoesNotAllowOrders);
        }
      }
      if expected >= U64_MAX { return Err(AuthorizationRevisionOverflow); }
      var authorization := Authorization(mode, expected + 1);
      outcome := Draw();
      var put := repository.PutAuthorization(id, account, authorization, expected, outcome);
      if put.Some? { return Err(Store(put.value)); }
      return Ok(authorization);
    }

    /** Grants access exactly when everything the purpose needs is in place; otherwise, apart from failing
        stores, it refuses. */
    method ValidateExecutionAccess(id: Id, account: Id, bound: bool, purpose: ExecutionPurpose, expected: Option<nat>)
      returns (r: Result<Grant, ServiceError>)
      requires id in repository.cells ==> CellSound(repository.cells[id])
      ensures r.Ok? ==>
                && bound && GrantAllowed(repository.cells, secretStore.secrets, id, account, purpose, expected)
                && var cell := repository.cells[id];
                   r.value == Grant(cell.connection.credentialRef, cell.accounts[account].capabilities,
                                    cell.authorizations[account].mode, cell.authorizations[account].revision)
      ensures r.Err? && !r.error.Store? ==>
                !bound || !GrantAllowed(repository.cells, secretStore.secrets, id, account, purpose, expected)
      ensures r.Err? && r.error.Store? && !Outage(r.error.fault) ==>
                !GrantAllowed(repository.cells, secretStore.secrets, id, account, purpose, expected)
      ensures r.Err? ==> AccessRefused(repository.cells, secretStore.secrets, id, account, bound, purpose, expected, r.error)
    {
      var outcome: Outcome;
      var found := Lookup(id);
      if found.Err? { return Err(found.error); }
      var connection := found.value;
      if !connection.row.enabled || !connection.row.health.Healthy? || connection.row.status.PendingDelete? {
        return Err(ConnectionUnavailable);
      }
      var target := FindAccount(id, account);
      if target.Err? { return Err(target.error); }
      if target.value.None? { return Err(AccountNotFound); }
      if !target.value.value.accessible { return Err(AccountUnavailable); }
      if !bound { return Err(AccountBindingMismatch); }
      outcome := Draw();
      var authorization := repository.AuthorizationFor(id, account, outcome);
      if authorization.Err? { return Err(Store(authorization.error)); }
      if authorization.value.None? { return Err(ExecutionUnauthorized); }
      if expected.Some? && expected.value != authorization.value.value.revision { return Err(StaleExecutionAuthorization); }
      if !PurposeAllowed(connection.context.environment, authorization.value.value.mode, purpose) {
        return Err(ExecutionUnauthorized);
      }
      if RequiredCapability(connection.context.environment) !in target.value.value.capabilities {
        return Err(ProviderDoesNotAllowOrders);
      }
      outcome := Draw();
      var credential := secretStore.Get(connection.credentialRef, connection.context, outcome);
      if credential.Err? { return Err(Store(credential.error)); }
      return Ok(Grant(connection.credentialRef, target.value.value.capabilities, authorization.value.value.mode,
                      authorization.value.value.revision));
    }

    // ---- startup recovery ----

    method RecoverOnboarding(id: Id, connection: Connection, reply: Reply) returns (error: Option<ServiceError>)
      requires id in repository.cells && repository.cells[id].connection == connection
      modifies repository`cells
      ensures OnboardingStops(old(View()), View(), id, reply, error.None?)
    {
      var outcome := Draw();
      var credential := secretStore.Get(connection.credentialRef, connection.context, outcome);
      if credential.Err? {
        if !credential.error.NotFound? { return Some(Store(credential.error)); }
        outcome := Draw();
        var failed := repository.UpdateConnection(id, INCONSISTENT, outcome);
        return if failed.Some? then Some(Store(failed.value)) else None;
      }
      if reply.Err? {
        outcome := Draw();
        var deferred := repository.UpdateConnection(id, connection.row.(enabled := false, health := HealthOf(reply.error)), outcome);
        return if deferred.Some? then Some(Store(deferred.value)) else None;
      }
      var invalid := ValidateDiscovery(reply.value);
      if invalid.Some? { return Some(Discovery(invalid.value)); }
      var accounts := Materialized(connection.context.environment, reply.value);
      outcome := Draw();
      var finalized := repository.InsertOnboarding(id, ONBOARDED, accounts, InitialAuthorizations(accounts), outcome);
      return if finalized.Some? then Some(Store(finalized.value)) else None;
    }

    method RecoverDelete(id: Id, ref: Id) returns (error: Option<ServiceError>)
      requires id in repository.cells && repository.cells[id].connection.credentialRef == ref
      requires repository.cells[id].connection.row.status.PendingDelete?
      modifies repository`cells, secretStore
      ensures forall reply :: VisitStops(old(View()), View(), id, reply, error.None?)
    {
      var outcome := Draw();
      var deleted := secretStore.Delete(ref, outcome);
      if deleted.Some? && !deleted.value.NotFound? { return Some(Store(deleted.value)); }
      outcome := Draw();
      var finished := repository.FinalizeDelete(id, outcome);
      return if finished.Some? then Some(Store(finished.value)) else None;
    }

    method RecoverDisable(id: Id, connection: Connection) returns (error: Option<ServiceError>)
      requires id in repository.cells && repository.cells[id].connection == connection
      requires connection.row.status.PendingDisable?
      modifies repository`cells, secretStore
      ensures forall reply :: VisitStops(old(View()), View(), id, reply, error.None?)
    {
      var outcome := Draw();
      var disabled := secretStore.Disable(connection.credentialRef, outcome);
      if disabled.Some? { return Some(Store(disabled.value)); }
      outcome := Draw();
      var finished := repository.UpdateConnection(id, connection.row.(status := Disabled, enabled := false), outcome);
      return if finished.Some? then Some(Store(finished.value)) else None;
    }

    /** A crash can land between the rotation of a secret and its metadata: validate what is there now. */
    method RecoverRotation(id: Id, reply: Reply) returns (error: Option<ServiceError>)
      requires id in repository.cells && CellSound(repository.cells[id])
      requires var row := repository.cells[id].connection.row; row.status.Valid? && row.enabled && row.health.Validating?
      modifies repository`cells
      ensures VisitStops(old(View()), View(), id, reply, error.None?)
    {
      var outcome: Outcome;
      var revalidated := Revalidate(id, reply);
      if revalidated.Err? { return if revalidated.error.Provider? then None else Some(revalidated.error); }
      outcome := Draw();
      var written := repository.UpdateConnection(id, revalidated.value, outcome);
      return if written.Some? then Some(Store(written.value)) else None;
    }

    method VerifySecret(id: Id, connection: Connection) returns (error: Option<ServiceError>)
      requires id in repository.cells && repository.cells[id].connection == connection
      requires connection.row.status.Valid? && connection.row.enabled && !connection.row.health.Validating?
      modifies repository`cells
      ensures forall reply :: VisitStops(old(View()), View(), id, reply, error.None?)
    {
      var outcome := Draw();
      var secret := secretStore.Get(connection.credentialRef, connection.context, outcome);
      if secret.Ok? { return None; }
      if !secret.error.NotFound? && !secret.error.SecretDisabled? { return Some(Store(secret.error)); }
      outcome := Draw();
      var disabled := repository.UpdateConnection(id, INCONSISTENT, outcome);
      return if disabled.Some? then Some(Store(disabled.value)) else None;
    }

    method RecoverOne(id: Id, connection: Connection, reply: Reply) returns (error: Option<ServiceError>)
      requires id in repository.cells && CellSound(repository.cells[id]) && repository.cells[id].connection == connection
      modifies repository`cells, secretStore
      ensures VisitStops(old(View()), View(), id, reply, error.None?)
    {
      var row := connection.row;
      if row.status.PendingValidation? { error := RecoverOnboarding(id, connection, reply); }
      else if row.status.PendingDelete? { error := RecoverDelete(id, connection.credentialRef); }
      else if row.status.PendingDisable? { error := RecoverDisable(id, connection); }
      else if row.status.Valid? && row.enabled && row.health.Validating? { error := RecoverRotation(id, reply); }
      else if row.status.Valid? && row.enabled { error := VerifySecret(id, connection); }
      else { error := None; }
    }

    method VisitNext(id: Id, connection: Connection, replies: Id -> Reply, ghost start: Stores, ghost visited: set<Id>)
      returns (error: Option<ServiceError>)
      requires Sound(start) && visited <= start.cells.Keys && Visits(start, View(), visited, replies)
      requires id in start.cells && id !in visited && start.cells[id].connection == connection
      modifies repository`cells, secretStore
      ensures if error.None? then Visits(start, View(), visited + {id}, replies) else RecoverStops(start, View(), replies, false)
    {
      ghost var before := View();
      StillToVisit(start, before, visited, replies, id);
      error := RecoverOne(id, connection, replies(id));
      VisitExtends(start, before, View(), visited, replies, id, error.None?);
    }

    method VisitAll(connections: map<Id, Connection>, replies: Id -> Reply, ghost start: Stores) returns (error: Option<ServiceError>)
      requires Sound(start) && View() == start
      requires connections == map id | id in start.cells :: start.cells[id].connection
      modifies repository`cells, secretStore
      ensures error.None? ==> Visits(start, View(), start.cells.Keys, replies)
      ensures error.Some? ==> RecoverStops(start, View(), replies, false)
    {
      var todo := connections.Keys;
      ghost var visited := {};
      while todo != {}
        invariant todo !! visited && todo + visited == start.cells.Keys
        invariant Visits(start, View(), visited, replies)
      {
        var id :| id in todo;
        error := VisitNext(id, connections[id], replies, start, visited);
        if error.Some? { return; }
        visited, todo := visited + {id}, todo - {id};
      }
      assert visited == start.cells.Keys;
      return None;
    }

    method QuarantineOne(ref: Id, disabled: bool, ghost start: Stores) returns (error: Option<ServiceError>)
      requires ref in start.secrets && !Owned(start, ref) && disabled == start.secrets[ref].disabled
      modifies secretStore
      ensures QuarantineStops(start, old(View()), View(), ref, error.None?)
    {
      if !disabled {
        var outcome := Draw();
        var fault := secretStore.Disable(ref, outcome);
        if fault.Some? { return Some(Store(fault.value)); }
      }
      var outcome := Draw();
      var audited := repository.AppendAudit(outcome);
      return if audited.Some? then Some(Store(audited.value)) else None;
    }

    method QuarantineNext(ref: Id, connections: map<Id, Connection>, disabled: bool, ghost start: Stores)
      returns (error: Option<ServiceError>)
      requires ref in start.secrets && disabled == start.secrets[ref].disabled
      requires connections == map id | id in start.cells :: start.cells[id].connection
      modifies secretStore
      ensures QuarantineStops(start, old(View()), View(), ref, error.None?)
    {
      OwnedIsListed(start, connections, ref);
      if exists id :: id in connections && connections[id].credentialRef == ref { return None; }
      error := QuarantineOne(ref, disabled, start);
    }

    method QuarantineOrphans(connections: map<Id, Connection>, metadata: map<Id, bool>, replies: Id -> Reply, ghost start: Stores)
      returns (error: Option<ServiceError>)
      requires Visits(start, View(), start.cells.Keys, replies)
      requires connections == map id | id in start.cells :: start.cells[id].connection
      requires metadata == map ref | ref in start.secrets :: start.secrets[ref].disabled
      modifies secretStore
      ensures RecoverStops(start, View(), replies, error.None?)
    {
      ghost var mid := View();
      var todo := metadata.Keys;
      ghost var seen := {};
      while todo != {}
        invariant todo !! seen && todo + seen == start.secrets.Keys
        invariant Quarantines(start, mid, View(), seen)
      {
        var ref :| ref in todo;
        ghost var before := View();
        error := QuarantineNext(ref, connections, metadata[ref], start);
        QuarantineExtends(start, mid, before, View(), seen, replies, ref, error.None?);
        if error.Some? { return; }
        seen, todo := seen + {ref}, todo - {ref};
      }
      assert seen == start.secrets.Keys;
      assert Completes(start, View(), mid, replies);
      return None;
    }

    /** Repairs what a crash left half done, connection by connection, and then disables every secret that
        no connection owns. */
    method RecoverConnectionLifecycle(replies: Id -> Reply) returns (r: Result<(), ServiceError>)
      requires Sound(View())
      modifies repository`cells, secretStore
      ensures RecoverStops(old(View()), View(), replies, r.Ok?)
    {
      ghost var start := View();
      assert LeftVisiting(start, start, start, {}, replies);
      var outcome := Draw();
      var listed := repository.ListConnections(outcome);
      if listed.Err? { return Err(Store(listed.error)); }
      outcome := Draw();
      var metadata := secretStore.Metadata(outcome);
      if metadata.Err? { return Err(Store(metadata.error)); }
      var error := VisitAll(listed.value, replies, start);
      if error.Some? { return Err(error.value); }
      error := QuarantineOrphans(listed.value, metadata.value, replies, start);
      return if error.Some? then Err(error.value) else Ok(());
    }
  }
}
