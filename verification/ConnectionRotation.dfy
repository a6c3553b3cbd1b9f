/** Credential rotation. Once the secret has been replaced, the metadata is stored, and if that fails the
    rotation is undone; what these calls leave behind is a function of what the stores make of each of them. */
module ConnectionRotation {
  import opened Machine
  import opened ConnectionModel
  import opened ConnectionStores
  import opened ConnectionAccess
  import opened ConnectionSteps

  datatype RotationEnd = RotationDone | RotationFailed | RotationBroken

  /** The outcome of every store call after the secret has been replaced. */
  datatype TailScript = TailScript(
    replace: Outcome, write: Outcome, list: Outcome, lookups: seq<Outcome>, revocations: seq<Outcome>, audit: Outcome,
    restoreRead: Outcome, restoreSecret: Outcome, restoreAccounts: Outcome, restoreRow: Outcome, disable: Outcome)

  // ---- the tail, as a function of its script ----

  /** Storing the metadata: accounts, row, revocations of what the stored accounts do not support, audit row. */
  function PersistRun(cell: Cell, row: Row, current: seq<Account>, listed: seq<Account>, script: TailScript): (Cell, Option<Halt>) {
    var replaced := cell.(accounts := Replaced(cell.accounts, current));
    var written := WithRow(replaced, row);
    if !script.replace.Done? then (cell, HaltOf(script.replace))
    else if !script.write.Done? then (replaced, HaltOf(script.write))
    else if !script.list.Done? then (written, HaltOf(script.list))
    else
      var run := RevokeRun(cell.authorizations, listed, script.lookups, script.revocations);
      (written.(authorizations := run.0), if run.1.Some? then run.1 else HaltOf(script.audit))
  }

  function RestoreSecret(secret: Secret, value: string, script: TailScript): (Secret, Option<Halt>) {
    if !script.restoreRead.Done? then (secret, HaltOf(script.restoreRead))
    else if !script.restoreSecret.Done? then (secret, HaltOf(script.restoreSecret))
    else (secret.(value := value), None)
  }

  /** Undoing a rotation: secret, accounts and row, each on a best effort; unless all three succeed, the
      secret is disabled. */
  function CompensateRun(cell: Cell, secret: Secret, oldRow: Row, oldValue: string, previous: seq<Account>, script: TailScript)
    : (Cell, Secret, RotationEnd) {
    var restored := RestoreSecret(secret, oldValue, script);
    var table := if script.restoreAccounts.Done? then cell.(accounts := Replaced(cell.accounts, previous)) else cell;
    var back := if script.restoreRow.Done? then WithRow(table, oldRow) else table;
    if restored.1 == Some(Crash) then (cell, restored.0, RotationFailed)
    else if script.restoreAccounts.Stops? then (table, restored.0, RotationFailed)
    else if script.restoreRow.Stops? then (back, restored.0, RotationFailed)
    else if restored.1.None? && script.restoreAccounts.Done? && script.restoreRow.Done? then (back, restored.0, RotationFailed)
    else if script.disable.Stops? then (back, restored.0, RotationFailed)
    else (back, if script.disable.Done? then restored.0.(disabled := true) else restored.0, RotationBroken)
  }

  function FinishRun(cell: Cell, secret: Secret, oldRow: Row, oldValue: string, row: Row, current: seq<Account>,
                     previous: seq<Account>, listed: seq<Account>, script: TailScript): (Cell, Secret, RotationEnd) {
    var persisted := PersistRun(cell, row, current, listed, script);
    if persisted.1.None? then (persisted.0, secret, RotationDone)
    else if persisted.1.value.Crash? then (persisted.0, secret, RotationFailed)
    else CompensateRun(persisted.0, secret, oldRow, oldValue, previous, script)
  }

  // ---- a whole rotation ----

  /** How far a rotation got: nothing written; the gate closed; every revision raised, with the row written
      back or not; or the secret replaced, after which the script decides. The accounts were listed before,
      and again if the script gets there. */
  datatype Path =
    | BeforeGate
    | AtGate
    | BeforeSecret(restored: bool)
    | BehindSecret(script: TailScript, previous: seq<Account>, listed: seq<Account>)

  predicate PathListed(path: Path, table: map<Id, Account>, current: seq<Account>) {
    path.BehindSecret? ==>
      && Lists(path.previous, table)
      && (path.script.replace.Done? && path.script.write.Done? && path.script.list.Done? ==>
            Lists(path.listed, Replaced(table, current)))
  }

  function NewRow(cell: Cell, current: seq<Account>): Row {
    cell.connection.row.(status := Valid, health := DiscoveredHealth(cell, current))
  }

  /** The connection with its gate closed. */
  function Closed(cell: Cell): Cell { WithRow(cell, cell.connection.row.(health := Validating)) }

  /** ... and with every revision raised. */
  function Raised(cell: Cell): Cell { Closed(cell).(authorizations := Bumped(cell.authorizations)) }

  function RotateRun(cell: Cell, secret: Secret, value: string, current: seq<Account>, path: Path): (Cell, Secret, RotationEnd) {
    match path
    case BeforeGate => (cell, secret, RotationFailed)
    case AtGate => (Closed(cell), secret, RotationFailed)
    case BeforeSecret(restored) =>
      (if restored then WithRow(Raised(cell), cell.connection.row) else Raised(cell), secret, RotationFailed)
    case BehindSecret(script, previous, listed) =>
      FinishRun(Raised(cell), secret.(value := value), cell.connection.row, secret.value, NewRow(cell, current), current,
                previous, listed, script)
  }

  /** Exactly the state in which a rotation ends. */
  ghost predicate RotateStops(s: Stores, t: Stores, id: Id, value: string, reply: Reply, path: Path, end: RotationEnd) {
    || (path.BeforeGate? && t == s && end.RotationFailed?)
    || (&& !path.BeforeGate? && id in s.cells && Live(s.secrets, s.cells[id].connection) && Accepted(reply)
        && var cell, ref := s.cells[id], s.cells[id].connection.credentialRef;
           var current := Discovered(cell, reply);
           var run := RotateRun(cell, s.secrets[ref], value, current, path);
           && PathListed(path, cell.accounts, current)
           && t == PutSecret(PutCell(s, id, run.0), ref, run.1) && end == run.2)
  }

  // ---- what holds wherever it stops ----

  /** The states behind the raised revisions: the row is the old one, the closed gate or the new one. */
  ghost predicate RotatingCell(cell: Cell, after: Cell, row: Row) {
    var c, a := cell.connection, after.connection;
    && a == c.(row := a.row)
    && (a.row == c.row || a.row == c.row.(health := Validating) || a.row == row)
    && TableSound(after.accounts, c.context.environment) && cell.accounts.Keys <= after.accounts.Keys
    && PartlyRevoked(Bumped(cell.authorizations), after.authorizations)
  }

  /** Where the secret stands: the old or the new value, disabled only after a failed compensation. */
  predicate RotatingSecret(secret: Secret, after: Secret, value: string, end: RotationEnd) {
    && after.context == secret.context && (after.value == secret.value || after.value == value)
    && (after.disabled ==> secret.disabled || end.RotationBroken?)
  }

  lemma PersistIsRotating(cell: Cell, reply: Reply, listed: seq<Account>, script: TailScript)
    requires CellSound(cell) && Accepted(reply)
    requires script.replace.Done? && script.write.Done? && script.list.Done? ==>
               Lists(listed, Replaced(cell.accounts, Discovered(cell, reply)))
    ensures var current := Discovered(cell, reply);
            var run := PersistRun(Raised(cell), NewRow(cell, current), current, listed, script);
            && RotatingCell(cell, run.0, NewRow(cell, current))
            && (run.1.None? ==>
                  && run.0 == Refreshed(cell.(authorizations := Bumped(cell.authorizations)), NewRow(cell, current), current)
                  && Revocable(Bumped(cell.authorizations), Replaced(cell.accounts, current)))
  {
    var current := Discovered(cell, reply);
    ReplacedSound(cell, reply);
    if script.replace.Done? && script.write.Done? && script.list.Done? {
      RevokeRunOnTable(Bumped(cell.authorizations), listed, Replaced(cell.accounts, current), script.lookups, script.revocations);
    }
  }

  lemma RestoredTableSound(cell: Cell, table: map<Id, Account>, previous: seq<Account>)
    requires CellSound(cell) && Lists(previous, cell.accounts)
    requires TableSound(table, cell.connection.context.environment) && cell.accounts.Keys <= table.Keys
    ensures TableSound(Replaced(table, previous), cell.connection.context.environment)
    ensures cell.accounts.Keys <= Replaced(table, previous).Keys
  {
    forall i | 0 <= i < |previous| ensures previous[i].environment == cell.connection.context.environment {
      assert cell.accounts[previous[i].accountId] == previous[i];
    }
    UpsertedSound(Hidden(table), cell.connection.context.environment, previous);
  }

  lemma CompensationKeepsSecret(cell: Cell, secret: Secret, oldRow: Row, oldValue: string, previous: seq<Account>, script: TailScript)
    ensures var run := CompensateRun(cell, secret, oldRow, oldValue, previous, script);
            RotatingSecret(secret, run.1, oldValue, run.2) && !run.2.RotationDone?
  {}

  lemma CompensationIsRotating(cell: Cell, after: Cell, secret: Secret, oldValue: string, row: Row, previous: seq<Account>,
                               script: TailScript)
    requires CellSound(cell) && RotatingCell(cell, after, row) && Lists(previous, cell.accounts)
    ensures RotatingCell(cell, CompensateRun(after, secret, cell.connection.row, oldValue, previous, script).0, row)
  {
    RestoredTableSound(cell, after.accounts, previous);
    var table := if script.restoreAccounts.Done? then after.(accounts := Replaced(after.accounts, previous)) else after;
    assert RotatingCell(cell, table, row);
    assert RotatingCell(cell, WithRow(table, cell.connection.row), row);
  }

  /** The rotation past its gate is one of the states above. */
  ghost predicate StaysRotating(cell: Cell, secret: Secret, value: string, current: seq<Account>,
                                run: (Cell, Secret, RotationEnd)) {
    && RotatingCell(cell, run.0, NewRow(cell, current)) && RotatingSecret(secret, run.1, value, run.2)
    && (run.2.RotationDone? ==>
          && run.0 == Refreshed(cell.(authorizations := Bumped(cell.authorizations)), NewRow(cell, current), current)
          && run.1 == secret.(value := value))
  }

  lemma FinishIsRotating(cell: Cell, secret: Secret, value: string, reply: Reply, script: TailScript, previous: seq<Account>,
                         listed: seq<Account>)
    requires CellSound(cell) && Accepted(reply) && !secret.disabled && Lists(previous, cell.accounts)
    requires script.replace.Done? && script.write.Done? && script.list.Done? ==>
               Lists(listed, Replaced(cell.accounts, Discovered(cell, reply)))
    ensures var current := Discovered(cell, reply);
            StaysRotating(cell, secret, value, current,
                          FinishRun(Raised(cell), secret.(value := value), cell.connection.row, secret.value, NewRow(cell, current),
                                    current, previous, listed, script))
  {
    var current := Discovered(cell, reply);
    var row := NewRow(cell, current);
    PersistIsRotating(cell, reply, listed, script);
    var after := PersistRun(Raised(cell), row, current, listed, script).0;
    CompensationIsRotating(cell, after, secret.(value := value), secret.value, row, previous, script);
    CompensationKeepsSecret(after, secret.(value := value), cell.connection.row, secret.value, previous, script);
  }

  /** Whatever the stores do, a rotation past its gate is one of the states above, and a completed one has
      stored everything. */
  lemma RotationIsRotating(cell: Cell, secret: Secret, value: string, reply: Reply, path: Path)
    requires CellSound(cell) && Accepted(reply) && !secret.disabled
    requires PathListed(path, cell.accounts, Discovered(cell, reply)) && (path.BeforeSecret? || path.BehindSecret?)
    ensures StaysRotating(cell, secret, value, Discovered(cell, reply), RotateRun(cell, secret, value, Discovered(cell, reply), path))
  {
    if path.BehindSecret? { FinishIsRotating(cell, secret, value, reply, path.script, path.previous, path.listed); }
  }

  lemma RotatingCellEvolves(cell: Cell, after: Cell, row: Row, was: map<Id, Secret>, now: map<Id, Secret>)
    requires CellSound(cell) && RotatingCell(cell, after, row) && RowSound(row)
    requires row == cell.connection.row.(status := Valid, health := row.health)
    requires var ref := cell.connection.credentialRef;
             ref in was && ref in now && (was[ref].disabled ==> now[ref].disabled)
    ensures CellSound(after) && CellEvolves(cell, after, was, now)
  {}

  /** Closing the gate of a connection. */
  lemma GateKeepsGuarantees(s: Stores, id: Id)
    requires Sound(s) && id in s.cells
    ensures Step(s, Other, PutCell(s, id, Closed(s.cells[id])))
  {
    LocalStep(s, PutCell(s, id, Closed(s.cells[id])), id);
  }

  lemma RotatingKeepsGuarantees(s: Stores, t: Stores, id: Id, row: Row)
    requires Sound(s) && id in s.cells && id in t.cells && Live(s.secrets, s.cells[id].connection)
    requires RotatingCell(s.cells[id], t.cells[id], row) && RowSound(row)
    requires row == s.cells[id].connection.row.(status := Valid, health := row.health)
    requires var ref := s.cells[id].connection.credentialRef;
             && ref in t.secrets && t == PutSecret(PutCell(s, id, t.cells[id]), ref, t.secrets[ref])
             && t.secrets[ref].context == s.secrets[ref].context
    ensures var ref := s.cells[id].connection.credentialRef;
            Step(s, if t.secrets[ref].disabled then CompensationFailed else Other, t)
    ensures var ref := s.cells[id].connection.credentialRef;
            Safe(s) && !(Admitting(t.cells[id].connection.row) && t.secrets[ref].disabled) ==> Safe(t)
  {
    RotatingCellEvolves(s.cells[id], t.cells[id], row, s.secrets, t.secrets);
    ConfinedStep(s, t, id);
  }

  lemma RotateKeepsGuarantees(s: Stores, t: Stores, id: Id, value: string, reply: Reply, path: Path, end: RotationEnd)
    requires Sound(s) && RotateStops(s, t, id, value, reply, path, end)
    ensures Step(s, if end.RotationBroken? then CompensationFailed else Other, t)
  {
    if path.BeforeGate? {
      NoStep(s);
    } else {
      var cell, ref := s.cells[id], s.cells[id].connection.credentialRef;
      if path.AtGate? {
        assert s.secrets[ref := s.secrets[ref]] == s.secrets;
        GateKeepsGuarantees(s, id);
      } else {
        RotationIsRotating(cell, s.secrets[ref], value, reply, path);
        RotatingKeepsGuarantees(s, t, id, NewRow(cell, Discovered(cell, reply)));
      }
    }
  }

  // ---- when a rotation completes, and which row it leaves ----

  /** What a rotation needs to complete. */
  predicate Rotatable(s: Stores, id: Id, reply: Reply) {
    && id in s.cells && Live(s.secrets, s.cells[id].connection) && Accepted(reply)
    && var cell := s.cells[id];
       Revocable(Bumped(cell.authorizations), Replaced(cell.accounts, Discovered(cell, reply)))
  }

  const ALL_DONE := TailScript(Done, Done, Done, [], [], Done, Done, Done, Done, Done, Done)

  lemma PersistCompletes(cell: Cell, row: Row, current: seq<Account>, listed: seq<Account>)
    requires Lists(listed, Replaced(cell.accounts, current)) && Revocable(cell.authorizations, Replaced(cell.accounts, current))
    ensures PersistRun(cell, row, current, listed, ALL_DONE).1.None?
  {
    var table := Replaced(cell.accounts, current);
    forall i | 0 <= i < |listed| && NeedsRevoking(listed[i], cell.authorizations)
      ensures cell.authorizations[listed[i].accountId].revision < U64_MAX
    {
      assert table[listed[i].accountId] == listed[i];
    }
    RevokeRunGetsThrough(cell.authorizations, listed, [], []);
  }

  lemma RunCompletes(cell: Cell, secret: Secret, value: string, current: seq<Account>, previous: seq<Account>, listed: seq<Account>)
    requires Lists(listed, Replaced(cell.accounts, current)) && Revocable(Bumped(cell.authorizations), Replaced(cell.accounts, current))
    ensures RotateRun(cell, secret, value, current, BehindSecret(ALL_DONE, previous, listed)).2.RotationDone?
  {
    PersistCompletes(Raised(cell), NewRow(cell, current), current, listed);
  }

  /** The accounts as they are listed before and after a discovery. */
  lemma Listings(cell: Cell, reply: Reply) returns (previous: seq<Account>, listed: seq<Account>)
    requires CellSound(cell) && Accepted(reply)
    ensures Lists(previous, cell.accounts) && Lists(listed, Replaced(cell.accounts, Discovered(cell, reply)))
  {
    var table := Replaced(cell.accounts, Discovered(cell, reply));
    ReplacedSound(cell, reply);
    previous := Listing(cell.accounts, cell.accounts.Keys);
    listed := Listing(table, table.Keys);
  }

  lemma RotationCanComplete(s: Stores, id: Id, value: string, reply: Reply) returns (t: Stores, path: Path)
    requires Sound(s) && Rotatable(s, id, reply)
    ensures RotateStops(s, t, id, value, reply, path, RotationDone)
  {
    var cell, ref := s.cells[id], s.cells[id].connection.credentialRef;
    var previous, listed := Listings(cell, reply);
    path := BehindSecret(ALL_DONE, previous, listed);
    RunCompletes(cell, s.secrets[ref], value, Discovered(cell, reply), previous, listed);
    var run := RotateRun(cell, s.secrets[ref], value, Discovered(cell, reply), path);
    t := PutSecret(PutCell(s, id, run.0), ref, run.1);
  }

  lemma CompletedRotationWasRotatable(s: Stores, t: Stores, id: Id, value: string, reply: Reply, path: Path)
    requires Sound(s) && RotateStops(s, t, id, value, reply, path, RotationDone)
    ensures Rotatable(s, id, reply)
  {
    if path.BehindSecret? {
      PersistIsRotating(s.cells[id], reply, path.listed, path.script);
      CompensationKeepsSecret(
        PersistRun(Raised(s.cells[id]), NewRow(s.cells[id], Discovered(s.cells[id], reply)), Discovered(s.cells[id], reply),
                   path.listed, path.script).0,
        s.secrets[s.cells[id].connection.credentialRef].(value := value), s.cells[id].connection.row,
        s.secrets[s.cells[id].connection.credentialRef].value, path.previous, path.script);
    }
  }

  /** A rotation can complete exactly under that condition. */
  lemma RotationCompletesExactly(s: Stores, id: Id, value: string, reply: Reply)
    requires Sound(s)
    ensures (exists t, path :: RotateStops(s, t, id, value, reply, path, RotationDone)) <==> Rotatable(s, id, reply)
  {
    if Rotatable(s, id, reply) {
      var t, path := RotationCanComplete(s, id, value, reply);
    } else {
      forall t, path | RotateStops(s, t, id, value, reply, path, RotationDone) ensures false {
        CompletedRotationWasRotatable(s, t, id, value, reply, path);
      }
    }
  }

  /** A completed rotation makes the connection valid, whatever it was before, leaves it as enabled as it
      was, and leaves its secret live. */
  lemma CompletedRotation(s: Stores, t: Stores, id: Id, value: string, reply: Reply, path: Path)
    requires Sound(s) && RotateStops(s, t, id, value, reply, path, RotationDone)
    ensures id in s.cells && id in t.cells && Live(t.secrets, t.cells[id].connection)
    ensures var row := t.cells[id].connection.row; row.status.Valid? && row.enabled == s.cells[id].connection.row.enabled
    ensures t.secrets[t.cells[id].connection.credentialRef].value == value
  {
    RotationIsRotating(s.cells[id], s.secrets[s.cells[id].connection.credentialRef], value, reply, path);
  }

  /** The compensation gets as far as writing the old row back. */
  predicate RowRestored(script: TailScript) {
    && !script.restoreRead.Stops? && !(script.restoreRead.Done? && script.restoreSecret.Stops?)
    && !script.restoreAccounts.Stops? && script.restoreRow.Done?
  }

  /** The new row is stored and not taken back. */
  predicate NewRowStays(cell: Cell, current: seq<Account>, path: Path) {
    && path.BehindSecret? && path.script.replace.Done? && path.script.write.Done?
    && !(&& PersistRun(Raised(cell), NewRow(cell, current), current, path.listed, path.script).1 == Some(Failure)
         && RowRestored(path.script))
  }

  lemma PersistedRow(cell: Cell, row: Row, current: seq<Account>, listed: seq<Account>, script: TailScript)
    ensures PersistRun(cell, row, current, listed, script).0.connection.row
         == if script.replace.Done? && script.write.Done? then row else cell.connection.row
    ensures !(script.replace.Done? && script.write.Done?) ==> PersistRun(cell, row, current, listed, script).1.Some?
  {}

  lemma CompensatedRow(cell: Cell, secret: Secret, oldRow: Row, oldValue: string, previous: seq<Account>, script: TailScript)
    ensures CompensateRun(cell, secret, oldRow, oldValue, previous, script).0.connection.row
         == if RowRestored(script) then oldRow else cell.connection.row
  {}

  lemma FinishedRow(cell: Cell, secret: Secret, oldRow: Row, oldValue: string, row: Row, current: seq<Account>,
                    previous: seq<Account>, listed: seq<Account>, script: TailScript)
    ensures var run := PersistRun(cell, row, current, listed, script);
            FinishRun(cell, secret, oldRow, oldValue, row, current, previous, listed, script).0.connection.row
            == if run.1 == Some(Failure) && RowRestored(script) then oldRow
               else if script.replace.Done? && script.write.Done? then row else cell.connection.row
  {
    PersistedRow(cell, row, current, listed, script);
    CompensatedRow(PersistRun(cell, row, current, listed, script).0, secret, oldRow, oldValue, previous, script);
  }

  /** A rotation leaves its new row, or the status that it found. */
  lemma RotationRow(cell: Cell, secret: Secret, value: string, current: seq<Account>, path: Path)
    ensures var row := RotateRun(cell, secret, value, current, path).0.connection.row;
            && row.enabled == cell.connection.row.enabled
            && (if NewRowStays(cell, current, path) then row == NewRow(cell, current) else row.status == cell.connection.row.status)
  {
    if path.BehindSecret? {
      FinishedRow(Raised(cell), secret.(value := value), cell.connection.row, secret.value, NewRow(cell, current), current,
                  path.previous, path.listed, path.script);
    }
  }

  // ---- when a rotation can lose safety ----

  /** A rotation is at risk when it gets past its checks on an enabled connection that is healthy or is
      about to be. */
  predicate AtRisk(s: Stores, id: Id, reply: Reply) {
    && id in s.cells && Live(s.secrets, s.cells[id].connection) && Accepted(reply)
    && s.cells[id].connection.row.enabled
    && (s.cells[id].connection.row.health.Healthy? || DiscoveredHealth(s.cells[id], Discovered(s.cells[id], reply)).Healthy?)
  }

  /** Only a disabled secret under an admitting row is unsafe. */
  lemma RotationUnsafeAtMost(s: Stores, t: Stores, id: Id, value: string, reply: Reply, path: Path, end: RotationEnd)
    requires Sound(s) && Safe(s) && path.BehindSecret? && RotateStops(s, t, id, value, reply, path, end)
    ensures id in t.cells && RotatingCell(s.cells[id], t.cells[id], NewRow(s.cells[id], Discovered(s.cells[id], reply)))
    ensures var ref := s.cells[id].connection.credentialRef;
            ref in t.secrets && (!(Admitting(t.cells[id].connection.row) && t.secrets[ref].disabled) ==> Safe(t))
  {
    var cell, ref := s.cells[id], s.cells[id].connection.credentialRef;
    RotationIsRotating(cell, s.secrets[ref], value, reply, path);
    RotatingKeepsGuarantees(s, t, id, NewRow(cell, Discovered(cell, reply)));
  }

  lemma RotationStaysSafe(s: Stores, t: Stores, id: Id, value: string, reply: Reply, path: Path, end: RotationEnd)
    requires Sound(s) && Safe(s) && RotateStops(s, t, id, value, reply, path, end) && !AtRisk(s, id, reply)
    ensures Safe(t)
  {
    if path.BehindSecret? {
      RotationUnsafeAtMost(s, t, id, value, reply, path, end);
    } else {
      RotateKeepsGuarantees(s, t, id, value, reply, path, end);
    }
  }

  /** Every table can be listed. */
  lemma {:induction false} Listing(table: map<Id, Account>, keys: set<Id>) returns (rows: seq<Account>)
    requires keys <= table.Keys && forall a :: a in table ==> table[a].accountId == a
    ensures Distinct(rows) && forall i :: 0 <= i < |rows| ==> rows[i].accountId in keys && table[rows[i].accountId] == rows[i]
    ensures forall a :: a in keys ==> Listed(rows, a)
  {
    if keys == {} { return []; }
    var a :| a in keys;
    var init := Listing(table, keys - {a});
    rows := init + [table[a]];
    forall b | b in keys ensures Listed(rows, b) {
      if b == a {
        assert rows[|init|].accountId == b;
      } else {
        assert Listed(init, b);
        var i :| 0 <= i < |init| && init[i].accountId == b;
        assert rows[i].accountId == b;
      }
    }
  }

  /** The accounts are not stored, so the rotation is undone: secret and row are restored, the accounts are
      not, and the secret is disabled under the old row. */
  const ACCOUNTS_NOT_RESTORED :=
    TailScript(Fails, Done, Done, [], [], Done, Done, Done, Fails, Done, Done)

  /** The new row is stored but the accounts cannot be listed: secret and accounts are restored, the row is
      not, and the secret is disabled under the new row. */
  const ROW_NOT_RESTORED :=
    TailScript(Done, Done, Fails, [], [], Done, Done, Done, Done, Fails, Done)

  /** The accounts are not stored, and the row is not restored either: the secret is disabled behind the
      closed gate. */
  const GATE_NOT_OPENED :=
    TailScript(Fails, Done, Done, [], [], Done, Done, Done, Done, Fails, Done)

  lemma NotRestored(cell: Cell, secret: Secret, value: string, current: seq<Account>, previous: seq<Account>)
    ensures RotateRun(cell, secret, value, current, BehindSecret(ACCOUNTS_NOT_RESTORED, previous, []))
         == (WithRow(Raised(cell), cell.connection.row), secret.(disabled := true), RotationBroken)
    ensures RotateRun(cell, secret, value, current, BehindSecret(ROW_NOT_RESTORED, previous, []))
         == (WithRow(Raised(cell), NewRow(cell, current)).(accounts := Replaced(Replaced(cell.accounts, current), previous)),
             secret.(disabled := true), RotationBroken)
  {}

  lemma DisabledSecretIsUnsafe(s: Stores, id: Id, after: Cell, secret: Secret)
    requires id in s.cells && after.connection.credentialRef == s.cells[id].connection.credentialRef
    requires Admitting(after.connection.row) && secret.disabled
    ensures !Safe(PutSecret(PutCell(s, id, after), s.cells[id].connection.credentialRef, secret))
  {
    assert !SafeAt(PutSecret(PutCell(s, id, after), s.cells[id].connection.credentialRef, secret), id);
  }

  /** Every rotation at risk has outcomes of its store calls that end it unsafe. */
  lemma RotationAtRisk(s: Stores, id: Id, value: string, reply: Reply) returns (t: Stores, path: Path)
    requires Sound(s) && AtRisk(s, id, reply)
    ensures path.BehindSecret?
    ensures path.script == if s.cells[id].connection.row.health.Healthy? then ACCOUNTS_NOT_RESTORED else ROW_NOT_RESTORED
    ensures RotateStops(s, t, id, value, reply, path, RotationBroken) && !Safe(t)
  {
    var cell, ref := s.cells[id], s.cells[id].connection.credentialRef;
    var previous := Listing(cell.accounts, cell.accounts.Keys);
    path := BehindSecret(if cell.connection.row.health.Healthy? then ACCOUNTS_NOT_RESTORED else ROW_NOT_RESTORED, previous, []);
    NotRestored(cell, s.secrets[ref], value, Discovered(cell, reply), previous);
    var run := RotateRun(cell, s.secrets[ref], value, Discovered(cell, reply), path);
    t := PutSecret(PutCell(s, id, run.0), ref, run.1);
    DisabledSecretIsUnsafe(s, id, run.0, run.1);
  }

  /** A rotation can end unsafe exactly when it is at risk. */
  lemma RotationCanEndUnsafeExactly(s: Stores, id: Id, value: string, reply: Reply)
    requires Sound(s) && Safe(s)
    ensures AtRisk(s, id, reply) <==>
            exists t: Stores, path: Path, end: RotationEnd :: RotateStops(s, t, id, value, reply, path, end) && !Safe(t)
  {
    if AtRisk(s, id, reply) {
      var t, path := RotationAtRisk(s, id, value, reply);
    } else {
      forall t: Stores, path: Path, end: RotationEnd | RotateStops(s, t, id, value, reply, path, end) ensures Safe(t) {
        RotationStaysSafe(s, t, id, value, reply, path, end);
      }
    }
  }

  lemma GateNotOpened(cell: Cell, secret: Secret, value: string, current: seq<Account>, previous: seq<Account>)
    ensures RotateRun(cell, secret, value, current, BehindSecret(GATE_NOT_OPENED, previous, []))
         == (Raised(cell).(accounts := Replaced(cell.accounts, previous)), secret.(disabled := true), RotationBroken)
  {}

  /** A rotation of a valid connection can end with the secret disabled behind the closed gate, which is safe. */
  lemma GateStaysClosed(s: Stores, id: Id, value: string, reply: Reply) returns (t: Stores, path: Path)
    requires Sound(s) && Safe(s) && id in s.cells && Live(s.secrets, s.cells[id].connection) && Accepted(reply)
    ensures path.BehindSecret? && path.script == GATE_NOT_OPENED
    ensures RotateStops(s, t, id, value, reply, path, RotationBroken) && Safe(t)
    ensures id in t.cells && t.cells[id].connection == s.cells[id].connection.(row := s.cells[id].connection.row.(health := Validating))
    ensures !Live(t.secrets, t.cells[id].connection)
  {
    var cell, ref := s.cells[id], s.cells[id].connection.credentialRef;
    var previous := Listing(cell.accounts, cell.accounts.Keys);
    path := BehindSecret(GATE_NOT_OPENED, previous, []);
    GateNotOpened(cell, s.secrets[ref], value, Discovered(cell, reply), previous);
    var run := RotateRun(cell, s.secrets[ref], value, Discovered(cell, reply), path);
    t := PutSecret(PutCell(s, id, run.0), ref, run.1);
    RotationUnsafeAtMost(s, t, id, value, reply, path, RotationBroken);
  }
}
