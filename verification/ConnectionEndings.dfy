/** What closing, deleting and recovering a connection leave in its columns. */
module ConnectionEndings {
  import opened Machine
  import opened ConnectionModel
  import opened ConnectionStores
  import opened ConnectionAccess
  import opened ConnectionSteps
  import opened ConnectionRotation
  import opened ConnectionRecovery

  /** Only the row of the connection has changed. */
  ghost predicate OnlyRow(s: Stores, t: Stores, id: Id) {
    && id in s.cells && id in t.cells && t.issued == s.issued && t.cells.Keys == s.cells.Keys
    && (forall k :: k in s.cells && k != id ==> t.cells[k] == s.cells[k])
    && t.cells[id] == s.cells[id].(connection := s.cells[id].connection.(row := t.cells[id].connection.row))
  }

  /** Disabling closes the connection first and then its secret; its accounts and authorizations stay. */
  lemma DisablingClosesForGood(s: Stores, t: Stores, id: Id, done: bool)
    requires Sound(s) && DisableStops(s, t, id, done) && t != s
    ensures OnlyRow(s, t, id)
    ensures var ref, before, row := s.cells[id].connection.credentialRef, s.cells[id].connection.row, t.cells[id].connection.row;
            && !row.enabled
            && (if done then row.status == Disabled && row.health == HealthDisabled && ref in t.secrets && t.secrets[ref].disabled
                else row.status == PendingDisable && (before.status != PendingDisable ==> row.health == HealthDisabled))
            && (forall r :: r in t.secrets <==> r in s.secrets)
            && (forall r :: r in s.secrets ==>
                  t.secrets[r] == s.secrets[r] || (r == ref && t.secrets[r] == s.secrets[r].(disabled := true)))
    ensures forall account, purpose, expected :: !GrantAllowed(t.cells, t.secrets, id, account, purpose, expected)
  {}

  /** A deleted connection leaves neither a row nor a secret; before that, it is a closed tombstone. */
  lemma DeletingLeavesNothing(s: Stores, t: Stores, id: Id, done: bool)
    requires Sound(s) && DeleteStops(s, t, id, done) && t != s
    ensures id in s.cells && !s.cells[id].connection.row.enabled
    ensures var ref := s.cells[id].connection.credentialRef;
            && (forall r :: r != ref ==> (r in t.secrets <==> r in s.secrets) && (r in s.secrets ==> t.secrets[r] == s.secrets[r]))
            && (if done then t.cells == s.cells - {id} && ref !in t.secrets
                else OnlyRow(s, t, id) && t.cells[id].connection.row == Row(PendingDelete, false, HealthDisabled))
  {}

  /** Recovery finishes an interrupted onboarding: without a secret the connection is invalid, if the provider
      refuses it stays pending with the provider's verdict, and otherwise it opens. */
  lemma RecoveryFinishesOnboarding(s: Stores, t: Stores, id: Id, reply: Reply)
    requires Visit(s, t, id, reply, true) && s.cells[id].connection.row.status == PendingValidation
    ensures && id in t.cells && t.secrets == s.secrets
            && var c, row := s.cells[id].connection, t.cells[id].connection.row;
               if c.credentialRef !in s.secrets then OnlyRow(s, t, id) && row == Row(Invalid, false, HealthState.InvalidCredential)
               else if reply.Err? then
                 && OnlyRow(s, t, id) && row.status == PendingValidation && !row.enabled && row.health != Healthy
                 && (row.health == HealthState.InvalidCredential <==>
                       reply.error == InvalidCredentialError || reply.error == ExpiredOrInactiveError)
                 && (row.health == HealthState.InsufficientPermission <==> reply.error == InsufficientPermissionError)
                 && (row.health == HealthState.AccountAccessChanged <==> reply.error == AccountAccessChangedError)
               else row == Row(Valid, true, Healthy)
  {}

  /** Recovery closes an open connection whose secret is missing or disabled, and only such a one. */
  lemma RecoveryClosesWithoutSecret(s: Stores, t: Stores, id: Id, reply: Reply)
    requires Visit(s, t, id, reply, true)
    requires var row := s.cells[id].connection.row; row.status == Valid && row.enabled && row.health != Validating
    ensures var ref := s.cells[id].connection.credentialRef;
            if ref in s.secrets && !s.secrets[ref].disabled then t == s
            else OnlyRow(s, t, id) && t.secrets == s.secrets
                 && t.cells[id].connection.row == Row(Invalid, false, HealthState.InvalidCredential)
  {}

  /** The metadata of the rotation was not stored, and everything was there to undo it. */
  predicate Undone(cell: Cell, current: seq<Account>, path: Path) {
    && path.BehindSecret?
    && PersistRun(Raised(cell), NewRow(cell, current), current, path.listed, path.script).1 == Some(Failure)
    && path.script.restoreRead.Done? && path.script.restoreSecret.Done?
    && path.script.restoreAccounts.Done? && path.script.restoreRow.Done?
  }

  /** A rotation that is undone fails with the old secret, row and accounts back in place; what only the new secret
      showed stays inaccessible, and every revision has moved on. */
  lemma UndoneRotationRestores(s: Stores, t: Stores, id: Id, value: string, reply: Reply, path: Path, end: RotationEnd)
    requires Sound(s) && RotateStops(s, t, id, value, reply, path, end) && path.BehindSecret?
    requires Undone(s.cells[id], Discovered(s.cells[id], reply), path)
    ensures end == RotationFailed && id in t.cells && t.secrets == s.secrets && t.cells[id].connection == s.cells[id].connection
    ensures var before, after := s.cells[id], t.cells[id];
            && (forall a :: a in before.accounts ==> a in after.accounts && after.accounts[a] == before.accounts[a])
            && (forall a :: a in after.accounts && a !in before.accounts ==> !after.accounts[a].accessible)
            && (forall a :: a in before.authorizations ==>
                  a in after.authorizations && before.authorizations[a].revision < after.authorizations[a].revision)
  {
    var cell, ref := s.cells[id], s.cells[id].connection.credentialRef;
    var current := Discovered(cell, reply);
    UndoneRun(cell, s.secrets[ref], value, current, path);
    UndoneRevisions(cell, s.secrets[ref], value, reply, path);
    assert t.secrets == s.secrets;
  }

  lemma UndoneRun(cell: Cell, secret: Secret, value: string, current: seq<Account>, path: Path)
    requires Undone(cell, current, path) && Lists(path.previous, cell.accounts)
    ensures var run := RotateRun(cell, secret, value, current, path);
            && run.0.connection == cell.connection && run.1 == secret && run.2 == RotationFailed
            && (forall a :: a in cell.accounts ==> a in run.0.accounts && run.0.accounts[a] == cell.accounts[a])
            && (forall a :: a in run.0.accounts && a !in cell.accounts ==> !run.0.accounts[a].accessible)
  {
    var persisted := PersistRun(Raised(cell), NewRow(cell, current), current, path.listed, path.script).0;
    RestoredAccounts(cell.accounts, persisted.accounts, path.previous);
  }

  lemma UndoneRevisions(cell: Cell, secret: Secret, value: string, reply: Reply, path: Path)
    requires CellSound(cell) && Accepted(reply) && !secret.disabled && path.BehindSecret?
    requires PathListed(path, cell.accounts, Discovered(cell, reply))
    ensures var after := RotateRun(cell, secret, value, Discovered(cell, reply), path).0.authorizations;
            forall a :: a in cell.authorizations ==> a in after && cell.authorizations[a].revision < after[a].revision
  {
    RotationIsRotating(cell, secret, value, reply, path);
    RaisedRevisions(cell.authorizations, RotateRun(cell, secret, value, Discovered(cell, reply), path).0.authorizations);
  }

  lemma RaisedRevisions(before: map<Id, Authorization>, after: map<Id, Authorization>)
    requires PartlyRevoked(Bumped(before), after)
    ensures forall a :: a in before ==> a in after && before[a].revision < after[a].revision
  {
    forall a | a in before ensures a in after && before[a].revision < after[a].revision { assert a in Bumped(before); }
  }

  lemma RestoredAccounts(before: map<Id, Account>, middle: map<Id, Account>, previous: seq<Account>)
    requires Lists(previous, before)
    ensures var after := Replaced(middle, previous);
            && (forall a :: a in before ==> a in after && after[a] == before[a])
            && (forall a :: a in after && a !in before ==> !after[a].accessible)
  {
    ReplacedTable(middle, previous);
    forall a | a in before ensures a in Replaced(middle, previous) && Replaced(middle, previous)[a] == before[a] {
      assert Listed(previous, a);
      var i :| 0 <= i < |previous| && previous[i].accountId == a;
    }
    forall a | a in Replaced(middle, previous) && a !in before ensures !Replaced(middle, previous)[a].accessible {
      assert !Listed(previous, a);
    }
  }
}
