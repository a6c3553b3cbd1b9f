/** The two databases behind a connection, as objects. What the environment makes of a call is a parameter:
    it goes through, it fails without effect, or the process stops there, which is reported as a crash. */
module ConnectionStores {
  import opened Machine
  import opened ConnectionModel

  datatype Fault =
    | Crashed
    | Persistence
    | NotFound
    | SecretDisabled
    | ContextMismatch
    | AlreadyExists
    | ConstraintViolation
    | StaleAuthorizationRevision

  /** A fault that says nothing about the tables. */
  predicate Outage(fault: Fault) { fault.Crashed? || fault.Persistence? }

  /** The environment's say in a store call. */
  datatype Outcome = Done | Fails | Stops

  function Trouble(o: Outcome): Option<Fault> {
    match o case Done => None case Fails => Some(Persistence) case Stops => Some(Crashed)
  }

  /** Any outcome at all. */
  method Draw() returns (o: Outcome) {
    if {
      case true => o := Done;
      case true => o := Fails;
      case true => o := Stops;
    }
  }

  method DrawSome(n: nat) returns (script: seq<Outcome>)
    ensures |script| == n
  {
    script := [];
    while |script| < n
      invariant |script| <= n
    {
      var o := Draw();
      script := script + [o];
    }
  }

  // ---- account tables ----

  function Hidden(accounts: map<Id, Account>): map<Id, Account> {
    map a | a in accounts :: accounts[a].(accessible := false)
  }

  function Upserted(table: map<Id, Account>, accounts: seq<Account>): map<Id, Account> {
    if accounts == [] then table
    else var last := accounts[|accounts| - 1];
      Upserted(table, accounts[..|accounts| - 1])[last.accountId := last]
  }

  /** The account table after a discovery: what was not discovered is kept but inaccessible. */
  function Replaced(table: map<Id, Account>, accounts: seq<Account>): map<Id, Account> { Upserted(Hidden(table), accounts) }

  predicate Listed(accounts: seq<Account>, a: Id) { exists i :: 0 <= i < |accounts| && accounts[i].accountId == a }

  predicate Distinct(accounts: seq<Account>) {
    forall i, j :: 0 <= i < j < |accounts| ==> accounts[i].accountId != accounts[j].accountId
  }

  /** `accounts` lists the rows of a table, each once. */
  predicate Lists(accounts: seq<Account>, table: map<Id, Account>) {
    && Distinct(accounts)
    && (forall i :: 0 <= i < |accounts| ==> accounts[i].accountId in table && table[accounts[i].accountId] == accounts[i])
    && (forall a :: a in table ==> Listed(accounts, a))
  }

  lemma {:induction false} UpsertedTable(table: map<Id, Account>, accounts: seq<Account>)
    requires Distinct(accounts)
    ensures var after := Upserted(table, accounts);
            && (forall a :: a in after <==> a in table || Listed(accounts, a))
            && (forall a :: a in table && !Listed(accounts, a) ==> after[a] == table[a])
            && (forall i :: 0 <= i < |accounts| ==> after[accounts[i].accountId] == accounts[i])
  {
    if accounts != [] {
      var init, last := accounts[..|accounts| - 1], accounts[|accounts| - 1];
      UpsertedTable(table, init);
      forall a ensures Listed(accounts, a) <==> Listed(init, a) || a == last.accountId {
        if Listed(init, a) {
          var i :| 0 <= i < |init| && init[i].accountId == a;
          assert accounts[i].accountId == a;
        }
        if Listed(accounts, a) && a != last.accountId {
          var i :| 0 <= i < |accounts| && accounts[i].accountId == a;
          assert init[i].accountId == a;
        }
        assert accounts[|accounts| - 1].accountId == last.accountId;
      }
      forall i | 0 <= i < |accounts| ensures Upserted(table, accounts)[accounts[i].accountId] == accounts[i] {
        if i < |init| { assert init[i] == accounts[i]; }
      }
    }
  }

  /** Exactly what a discovery leaves in the table. */
  lemma ReplacedTable(table: map<Id, Account>, accounts: seq<Account>)
    requires Distinct(accounts)
    ensures var after := Replaced(table, accounts);
            && (forall a :: a in after <==> a in table || Listed(accounts, a))
            && (forall a :: a in table && !Listed(accounts, a) ==> after[a] == table[a].(accessible := false))
            && (forall i :: 0 <= i < |accounts| ==> after[accounts[i].accountId] == accounts[i])
  {
    UpsertedTable(Hidden(table), accounts);
  }

  function Bumped(authorizations: map<Id, Authorization>): map<Id, Authorization> {
    map a | a in authorizations :: authorizations[a].(revision := authorizations[a].revision + 1)
  }

  /** None of the accounts is in the table, and none is listed twice. */
  predicate NewAccounts(table: map<Id, Account>, accounts: seq<Account>) {
    Distinct(accounts) && forall i :: 0 <= i < |accounts| ==> accounts[i].accountId !in table
  }

  predicate NewAuthorizations(grants: map<Id, Authorization>, added: seq<(Id, Authorization)>) {
    && (forall i :: 0 <= i < |added| ==> added[i].0 !in grants)
    && (forall i, j :: 0 <= i < j < |added| ==> added[i].0 != added[j].0)
  }

  function Granted(grants: map<Id, Authorization>, added: seq<(Id, Authorization)>): map<Id, Authorization> {
    if added == [] then grants
    else Granted(grants, added[..|added| - 1])[added[|added| - 1].0 := added[|added| - 1].1]
  }

  lemma {:induction false} GrantedTable(grants: map<Id, Authorization>, added: seq<(Id, Authorization)>)
    requires NewAuthorizations(grants, added)
    ensures var after := Granted(grants, added);
            && (forall a :: a in grants ==> a in after && after[a] == grants[a])
            && (forall i :: 0 <= i < |added| ==> added[i].0 in after && after[added[i].0] == added[i].1)
            && (forall a :: a in after ==> a in grants || exists i :: 0 <= i < |added| && added[i].0 == a)
  {
    if added != [] {
      var init, last := added[..|added| - 1], added[|added| - 1];
      GrantedTable(grants, init);
      forall a | a in Granted(grants, added) ensures a in grants || exists i :: 0 <= i < |added| && added[i].0 == a {
        if a in Granted(grants, init) && a !in grants {
          var i :| 0 <= i < |init| && init[i].0 == a;
          assert added[i].0 == a;
        } else if a == last.0 {
          assert added[|added| - 1].0 == a;
        }
      }
      forall i | 0 <= i < |added| ensures added[i].0 in Granted(grants, added) && Granted(grants, added)[added[i].0] == added[i].1 {
        if i < |init| { assert init[i] == added[i]; }
      }
    }
  }

  /** Whether the next insert finds its key taken. */
  lemma NextAccount(table: map<Id, Account>, accounts: seq<Account>, i: nat)
    requires i < |accounts| && NewAccounts(table, accounts[..i])
    ensures accounts[i].accountId in Upserted(table, accounts[..i]) <==> !NewAccounts(table, accounts[..i + 1])
    ensures NewAccounts(table, accounts) ==> NewAccounts(table, accounts[..i + 1])
  {
    var init, longer := accounts[..i], accounts[..i + 1];
    UpsertedTable(table, init);
    if accounts[i].accountId in Upserted(table, init) {
      if accounts[i].accountId !in table {
        var j :| 0 <= j < i && init[j].accountId == accounts[i].accountId;
        assert longer[j].accountId == longer[i].accountId;
      } else {
        assert longer[i].accountId in table;
      }
    } else {
      forall j | 0 <= j < i ensures longer[j].accountId != accounts[i].accountId {
        assert init[j] == longer[j];
      }
    }
  }

  /** Plain inserts: a row that is already there violates the primary key. */
  method InsertAccounts(table: map<Id, Account>, accounts: seq<Account>) returns (r: Option<map<Id, Account>>)
    ensures r == if NewAccounts(table, accounts) then Some(Upserted(table, accounts)) else None
  {
    var rows, i := table, 0;
    while i < |accounts|
      invariant 0 <= i <= |accounts| && NewAccounts(table, accounts[..i]) && rows == Upserted(table, accounts[..i])
    {
      NextAccount(table, accounts, i);
      if accounts[i].accountId in rows { return None; }
      assert accounts[..i + 1][..i] == accounts[..i];
      rows, i := rows[accounts[i].accountId := accounts[i]], i + 1;
    }
    assert accounts[..i] == accounts;
    return Some(rows);
  }

  lemma NextGrant(grants: map<Id, Authorization>, added: seq<(Id, Authorization)>, i: nat)
    requires i < |added| && NewAuthorizations(grants, added[..i])
    ensures added[i].0 in Granted(grants, added[..i]) <==> !NewAuthorizations(grants, added[..i + 1])
    ensures NewAuthorizations(grants, added) ==> NewAuthorizations(grants, added[..i + 1])
  {
    var init, longer := added[..i], added[..i + 1];
    GrantedTable(grants, init);
    if added[i].0 in Granted(grants, init) {
      if added[i].0 !in grants {
        var j :| 0 <= j < i && init[j].0 == added[i].0;
        assert longer[j].0 == longer[i].0;
      } else {
        assert longer[i].0 in grants;
      }
    } else {
      forall j | 0 <= j < i ensures longer[j].0 != added[i].0 {
        assert init[j] == longer[j];
      }
    }
  }

  method InsertAuthorizations(grants: map<Id, Authorization>, added: seq<(Id, Authorization)>)
    returns (r: Option<map<Id, Authorization>>)
    ensures r == if NewAuthorizations(grants, added) then Some(Granted(grants, added)) else None
  {
    var rows, i := grants, 0;
    while i < |added|
      invariant 0 <= i <= |added| && NewAuthorizations(grants, added[..i]) && rows == Granted(grants, added[..i])
    {
      NextGrant(grants, added, i);
      if added[i].0 in rows { return None; }
      assert added[..i + 1][..i] == added[..i];
      rows, i := rows[added[i].0 := added[i].1], i + 1;
    }
    assert added[..i] == added;
    return Some(rows);
  }

  class SqliteConnectionRepository {
    var cells: map<Id, Cell>
    ghost var issued: set<Id>

    method Connection(id: Id, o: Outcome) returns (r: Result<Option<Connection>, Fault>)
      ensures r == if Trouble(o).Some? then Err(Trouble(o).value)
                   else Ok(if id in cells then Some(cells[id].connection) else None)
    {
      var fault := Trouble(o);
      if fault.Some? { return Err(fault.value); }
      return Ok(if id in cells then Some(cells[id].connection) else None);
    }

    method ListConnections(o: Outcome) returns (r: Result<map<Id, Connection>, Fault>)
      ensures r == if Trouble(o).Some? then Err(Trouble(o).value) else Ok(map id | id in cells :: cells[id].connection)
    {
      var fault := Trouble(o);
      if fault.Some? { return Err(fault.value); }
      return Ok(map id | id in cells :: cells[id].connection);
    }

    /** The primary key and the unique credential reference both have to be new. */
    method InsertConnection(id: Id, connection: Connection, o: Outcome) returns (fault: Option<Fault>)
      modifies this
      ensures fault.Some? ==> unchanged(this)
      ensures fault.None? ==>
                && id !in old(cells) && (forall k :: k in old(cells) ==> old(cells)[k].connection.credentialRef != connection.credentialRef)
                && cells == old(cells)[id := Cell(connection, map[], map[])] && issued == old(issued) + {id}
    {
      fault := Trouble(o);
      if fault.Some? { return; }
      if id in cells || exists k :: k in cells && cells[k].connection.credentialRef == connection.credentialRef {
        return Some(ConstraintViolation);
      }
      cells, issued := cells[id := Cell(connection, map[], map[])], issued + {id};
    }

    method UpdateConnection(id: Id, row: Row, o: Outcome) returns (fault: Option<Fault>)
      modifies this`cells
      ensures fault == if Trouble(o).Some? then Trouble(o) else if id in old(cells) then None else Some(NotFound)
      ensures cells == if fault.Some? then old(cells)
                       else old(cells)[id := old(cells)[id].(connection := old(cells)[id].connection.(row := row))]
    {
      fault := Trouble(o);
      if fault.Some? { return; }
      if id !in cells { return Some(NotFound); }
      cells := cells[id := cells[id].(connection := cells[id].connection.(row := row))];
    }

    /** Finalises onboarding in one transaction: the row, all accounts and all authorizations. */
    method InsertOnboarding(id: Id, row: Row, accounts: seq<Account>, authorizations: seq<(Id, Authorization)>, o: Outcome)
      returns (fault: Option<Fault>)
      modifies this`cells
      ensures fault.Some? ==> unchanged(this)
      ensures fault.None? ==>
                && id in old(cells)
                && var before := old(cells)[id];
                   && NewAccounts(before.accounts, accounts) && NewAuthorizations(before.authorizations, authorizations)
                   && cells == old(cells)[id := Cell(before.connection.(row := row), Upserted(before.accounts, accounts),
                                                     Granted(before.authorizations, authorizations))]
    {
      fault := Trouble(o);
      if fault.Some? { return; }
      if id !in cells { return Some(NotFound); }
      var table := InsertAccounts(cells[id].accounts, accounts);
      if table.None? { return Some(ConstraintViolation); }
      var grants := InsertAuthorizations(cells[id].authorizations, authorizations);
      if grants.None? { return Some(ConstraintViolation); }
      cells := cells[id := Cell(cells[id].connection.(row := row), table.value, grants.value)];
    }

    /** Marks every account of the connection inaccessible and then writes the discovered ones. */
    method ReplaceAccounts(id: Id, accounts: seq<Account>, o: Outcome) returns (fault: Option<Fault>)
      requires id in cells
      modifies this`cells
      ensures fault == Trouble(o)
      ensures cells == if fault.Some? then old(cells)
                       else old(cells)[id := old(cells)[id].(accounts := Replaced(old(cells)[id].accounts, accounts))]
    {
      fault := Trouble(o);
      if fault.Some? { return; }
      var table := map a | a in cells[id].accounts :: cells[id].accounts[a].(accessible := false);
      var i := 0;
      while i < |accounts|
        invariant 0 <= i <= |accounts| && table == Upserted(Hidden(cells[id].accounts), accounts[..i])
      {
        assert accounts[..i + 1][..i] == accounts[..i];
        table := table[accounts[i].accountId := accounts[i]];
        i := i + 1;
      }
      assert accounts[..i] == accounts;
      cells := cells[id := cells[id].(accounts := table)];
    }

    /** The rows of a connection, each once. */
    method Accounts(id: Id, o: Outcome) returns (r: Result<seq<Account>, Fault>)
      requires id in cells && CellSound(cells[id])
      ensures r.Ok? <==> Trouble(o).None?
      ensures if r.Ok? then Lists(r.value, cells[id].accounts) else Trouble(o) == Some(r.error)
    {
      var fault := Trouble(o);
      if fault.Some? { return Err(fault.value); }
      var table := cells[id].accounts;
      var rows, todo := [], table.Keys;
      while todo != {}
        invariant todo <= table.Keys && Distinct(rows)
        invariant forall i :: 0 <= i < |rows| ==>
                    rows[i].accountId in table.Keys - todo && table[rows[i].accountId] == rows[i]
        invariant forall a :: a in table.Keys - todo ==> Listed(rows, a)
      {
        var a :| a in todo;
        forall b | b in table.Keys - (todo - {a}) ensures Listed(rows + [table[a]], b) {
          if b != a {
            assert b in table.Keys - todo;
            var i :| 0 <= i < |rows| && rows[i].accountId == b;
            assert (rows + [table[a]])[i].accountId == b;
          } else {
            assert (rows + [table[a]])[|rows|].accountId == b;
          }
        }
        rows, todo := rows + [table[a]], todo - {a};
      }
      return Ok(rows);
    }

    method AuthorizationFor(id: Id, account: Id, o: Outcome) returns (r: Result<Option<Authorization>, Fault>)
      ensures r == if Trouble(o).Some? then Err(Trouble(o).value)
                   else Ok(if id in cells && account in cells[id].authorizations
                           then Some(cells[id].authorizations[account]) else None)
    {
      var fault := Trouble(o);
      if fault.Some? { return Err(fault.value); }
      return Ok(if id in cells && account in cells[id].authorizations then Some(cells[id].authorizations[account]) else None);
    }

    /** Compare and set: the row must still carry the expected revision and the new one must be its successor. */
    method PutAuthorization(id: Id, account: Id, authorization: Authorization, expected: nat, o: Outcome)
      returns (fault: Option<Fault>)
      modifies this`cells
      ensures fault == if Trouble(o).Some? then Trouble(o)
                       else if id in old(cells) && account in old(cells)[id].authorizations
                               && old(cells)[id].authorizations[account].revision == expected
                               && authorization.revision == expected + 1 then None
                       else Some(StaleAuthorizationRevision)
      ensures cells == if fault.Some? then old(cells)
                       else old(cells)[id := old(cells)[id].(
                              authorizations := old(cells)[id].authorizations[account := authorization])]
    {
      fault := Trouble(o);
      if fault.Some? { return; }
      if id !in cells || account !in cells[id].authorizations || cells[id].authorizations[account].revision != expected
         || authorization.revision != expected + 1 {
        return Some(StaleAuthorizationRevision);
      }
      cells := cells[id := cells[id].(authorizations := cells[id].authorizations[account := authorization])];
    }

    /** Raises the revision of every authorization of the connection in one statement. */
    method InvalidateAuthorizations(id: Id, o: Outcome) returns (fault: Option<Fault>)
      modifies this`cells
      ensures fault == Trouble(o)
      ensures cells == if fault.None? && id in old(cells)
                       then old(cells)[id := old(cells)[id].(authorizations := Bumped(old(cells)[id].authorizations))]
                       else old(cells)
    {
      fault := Trouble(o);
      if fault.Some? || id !in cells { return; }
      cells := cells[id := cells[id].(authorizations := Bumped(cells[id].authorizations))];
    }

    /** Deletes the connection; accounts and authorizations go with it. */
    method FinalizeDelete(id: Id, o: Outcome) returns (fault: Option<Fault>)
      modifies this`cells
      ensures fault.Some? ==> unchanged(this)
      ensures fault.None? ==> id in old(cells) && cells == old(cells) - {id}
    {
      fault := Trouble(o);
      if fault.Some? { return; }
      if id !in cells { return Some(NotFound); }
      cells := cells - {id};
    }

    /** A separate audit row: no effect on the tables modelled here, but it can fail. */
    method AppendAudit(o: Outcome) returns (fault: Option<Fault>)
      ensures fault == Trouble(o)
    {
      fault := Trouble(o);
    }
  }

  class SqliteSecretStore {
    var secrets: map<Id, Secret>

    method Put(ref: Id, context: CredentialContext, value: string, o: Outcome) returns (fault: Option<Fault>)
      modifies this
      ensures fault.Some? ==> secrets == old(secrets)
      ensures fault.None? ==> ref !in old(secrets) && secrets == old(secrets)[ref := Secret(context, value, false)]
    {
      fault := Trouble(o);
      if fault.Some? { return; }
      if ref in secrets { return Some(AlreadyExists); }
      secrets := secrets[ref := Secret(context, value, false)];
    }

    method Get(ref: Id, expected: CredentialContext, o: Outcome) returns (r: Result<string, Fault>)
      ensures r.Ok? <==> Trouble(o).None? && ref in secrets && !secrets[ref].disabled && secrets[ref].context == expected
      ensures r.Ok? ==> r.value == secrets[ref].value
      ensures r.Err? ==> r.error == if Trouble(o).Some? then Trouble(o).value
                                    else if ref !in secrets then NotFound
                                    else if secrets[ref].disabled then SecretDisabled else ContextMismatch
    {
      var fault := Trouble(o);
      if fault.Some? { return Err(fault.value); }
      if ref !in secrets { return Err(NotFound); }
      if secrets[ref].disabled { return Err(SecretDisabled); }
      if secrets[ref].context != expected { return Err(ContextMismatch); }
      return Ok(secrets[ref].value);
    }

    /** Two calls: the present secret is read before it is replaced. */
    method Rotate(ref: Id, expected: CredentialContext, value: string, read: Outcome, write: Outcome) returns (fault: Option<Fault>)
      modifies this
      ensures fault.None? <==> Trouble(read).None? && Trouble(write).None?
                               && ref in old(secrets) && !old(secrets)[ref].disabled && old(secrets)[ref].context == expected
      ensures fault == Some(Crashed) <==>
                read.Stops? || (read.Done? && write.Stops? && ref in old(secrets) && !old(secrets)[ref].disabled
                                && old(secrets)[ref].context == expected)
      ensures secrets == if fault.None? then old(secrets)[ref := old(secrets)[ref].(value := value)] else old(secrets)
    {
      var current := Get(ref, expected, read);
      if current.Err? { return Some(current.error); }
      fault := Trouble(write);
      if fault.Some? { return; }
      secrets := secrets[ref := secrets[ref].(value := value)];
    }

    method Disable(ref: Id, o: Outcome) returns (fault: Option<Fault>)
      modifies this
      ensures fault == if Trouble(o).Some? then Trouble(o) else if ref in old(secrets) then None else Some(NotFound)
      ensures secrets == if fault.None? then old(secrets)[ref := old(secrets)[ref].(disabled := true)] else old(secrets)
    {
      fault := Trouble(o);
      if fault.Some? { return; }
      if ref !in secrets { return Some(NotFound); }
      secrets := secrets[ref := secrets[ref].(disabled := true)];
    }

    /** Deleting an absent secret succeeds. */
    method Delete(ref: Id, o: Outcome) returns (fault: Option<Fault>)
      modifies this
      ensures fault == Trouble(o)
      ensures secrets == if fault.None? then old(secrets) - {ref} else old(secrets)
    {
      fault := Trouble(o);
      if fault.Some? { return; }
      secrets := secrets - {ref};
    }

    /** References and disabled flags of all secrets. */
    method Metadata(o: Outcome) returns (r: Result<map<Id, bool>, Fault>)
      ensures r == if Trouble(o).Some? then Err(Trouble(o).value) else Ok(map ref | ref in secrets :: secrets[ref].disabled)
    {
      var fault := Trouble(o);
      if fault.Some? { return Err(fault.value); }
      return Ok(map ref | ref in secrets :: secrets[ref].disabled);
    }
  }
}
