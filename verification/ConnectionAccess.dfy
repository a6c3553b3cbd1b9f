/** Account discovery: the in-memory prediction of the account table, and which authorizations it
    would take away. */
module ConnectionAccess {
  import opened Machine
  import opened ConnectionModel
  import opened ConnectionStores

  datatype AccountFact = AccountFact(accountId: Id, safeText: bool, accessible: bool, capabilities: set<Capability>)

  datatype DiscoveryError = UnsafeText | DuplicateProviderAccount

  predicate DistinctFacts(facts: seq<AccountFact>) {
    forall i, j :: 0 <= i < j < |facts| ==> facts[i].accountId != facts[j].accountId
  }

  predicate AllSafe(facts: seq<AccountFact>) { forall i :: 0 <= i < |facts| ==> facts[i].safeText }

  /** Accepts exactly the discoveries with safe texts and no repeated account. */
  method ValidateDiscovery(facts: seq<AccountFact>) returns (error: Option<DiscoveryError>)
    ensures error.None? <==> AllSafe(facts) && DistinctFacts(facts)
  {
    var identities, i := {}, 0;
    while i < |facts|
      invariant 0 <= i <= |facts| && AllSafe(facts[..i]) && DistinctFacts(facts[..i])
      invariant forall a :: a in identities <==> exists j :: 0 <= j < i && facts[j].accountId == a
    {
      if !facts[i].safeText { return Some(UnsafeText); }
      if facts[i].accountId in identities { return Some(DuplicateProviderAccount); }
      identities, i := identities + {facts[i].accountId}, i + 1;
    }
    return None;
  }

  function Materialized(environment: BrokerEnvironment, facts: seq<AccountFact>): seq<Account> {
    seq(|facts|, i requires 0 <= i < |facts| =>
      Account(facts[i].accountId, environment, facts[i].accessible, facts[i].capabilities))
  }

  /** Some account that was accessible is not accessible any more. */
  predicate AccessRemoved(previous: seq<Account>, current: seq<Account>) {
    exists i :: 0 <= i < |previous| && previous[i].accessible && !StillAccessible(previous[i].accountId, current)
  }

  predicate StillAccessible(a: Id, current: seq<Account>) {
    exists j :: 0 <= j < |current| && current[j].accountId == a && current[j].accessible
  }

  function Gone(account: Account): Account { account.(accessible := false, capabilities := {}) }

  function Disappeared(previous: seq<Account>, current: seq<Account>): seq<Account> {
    if previous == [] then []
    else
      var init, last := previous[..|previous| - 1], previous[|previous| - 1];
      Disappeared(init, current) + if Listed(current, last.accountId) then [] else [Gone(last)]
  }

  /** The accounts as they are expected after the discovery is stored. */
  method WithDisappearedAccounts(previous: seq<Account>, current: seq<Account>) returns (effective: seq<Account>)
    ensures effective == current + Disappeared(previous, current)
  {
    effective := current;
    var i := 0;
    while i < |previous|
      invariant 0 <= i <= |previous| && effective == current + Disappeared(previous[..i], current)
    {
      assert previous[..i + 1][..i] == previous[..i];
      if !Listed(current, previous[i].accountId) { effective := effective + [Gone(previous[i])]; }
      i := i + 1;
    }
    assert previous[..i] == previous;
  }

  // ---- which authorizations a table takes away ----

  predicate NeedsRevoking(account: Account, authorizations: map<Id, Authorization>) {
    account.accountId in authorizations && !authorizations[account.accountId].mode.NotAllowed? && !MayTrade(account)
  }

  predicate Conflict(accounts: seq<Account>, authorizations: map<Id, Authorization>) {
    exists i :: 0 <= i < |accounts| && NeedsRevoking(accounts[i], authorizations)
  }

  predicate TableConflict(table: map<Id, Account>, authorizations: map<Id, Authorization>) {
    exists a :: a in table && NeedsRevoking(table[a], authorizations)
  }

  /** The prediction lists the accounts of the stored table, each with its accessibility, and the
      discovered ones with their capabilities. */
  ghost predicate Predicts(effective: seq<Account>, current: seq<Account>, table: map<Id, Account>) {
    && (forall a :: a in table <==> Listed(effective, a))
    && (forall i :: 0 <= i < |effective| ==>
          var e := effective[i];
          && e.accountId in table && e.accessible == table[e.accountId].accessible
          && e.environment == table[e.accountId].environment
          && (e == table[e.accountId] || (!Listed(current, e.accountId) && !e.accessible && e.capabilities == {})))
  }

  lemma {:induction false} DisappearedAccounts(previous: seq<Account>, current: seq<Account>)
    ensures var gone := Disappeared(previous, current);
            && (forall i :: 0 <= i < |gone| ==>
                  exists j :: 0 <= j < |previous| && gone[i] == Gone(previous[j]) && !Listed(current, previous[j].accountId))
            && (forall j :: 0 <= j < |previous| && !Listed(current, previous[j].accountId) ==> Listed(gone, previous[j].accountId))
  {
    if previous != [] {
      var init, last := previous[..|previous| - 1], previous[|previous| - 1];
      DisappearedAccounts(init, current);
      var before, gone := Disappeared(init, current), Disappeared(previous, current);
      forall i | 0 <= i < |gone|
        ensures exists j :: 0 <= j < |previous| && gone[i] == Gone(previous[j]) && !Listed(current, previous[j].accountId)
      {
        if i < |before| {
          var j :| 0 <= j < |init| && before[i] == Gone(init[j]) && !Listed(current, init[j].accountId);
          assert gone[i] == Gone(previous[j]);
        } else {
          assert gone[i] == Gone(previous[|previous| - 1]);
        }
      }
      forall j | 0 <= j < |previous| && !Listed(current, previous[j].accountId) ensures Listed(gone, previous[j].accountId) {
        if j < |init| {
          assert Listed(before, init[j].accountId);
          var i :| 0 <= i < |before| && before[i].accountId == init[j].accountId;
          assert gone[i].accountId == previous[j].accountId;
        } else {
          assert gone[|before|].accountId == previous[j].accountId;
        }
      }
    }
  }

  lemma PredictionEntries(table: map<Id, Account>, previous: seq<Account>, current: seq<Account>, i: nat)
    requires Lists(previous, table) && Distinct(current) && i < |current + Disappeared(previous, current)|
    ensures var e := (current + Disappeared(previous, current))[i];
            var after := Replaced(table, current);
            && e.accountId in after && e.accessible == after[e.accountId].accessible
            && e.environment == after[e.accountId].environment
            && (e == after[e.accountId] || (!Listed(current, e.accountId) && !e.accessible && e.capabilities == {}))
  {
    ReplacedTable(table, current);
    var gone := Disappeared(previous, current);
    var e := (current + gone)[i];
    if i < |current| {
      assert e == current[i];
    } else {
      DisappearedAccounts(previous, current);
      assert e == gone[i - |current|];
      var j :| 0 <= j < |previous| && e == Gone(previous[j]) && !Listed(current, previous[j].accountId);
      assert table[previous[j].accountId] == previous[j];
    }
  }

  /** The in-memory prediction agrees with the table that the replacement leaves behind. */
  lemma PredictionMatchesTable(table: map<Id, Account>, previous: seq<Account>, current: seq<Account>)
    requires Lists(previous, table) && Distinct(current)
    ensures Predicts(current + Disappeared(previous, current), current, Replaced(table, current))
  {
    var gone := Disappeared(previous, current);
    var effective, after := current + gone, Replaced(table, current);
    ReplacedTable(table, current);
    DisappearedAccounts(previous, current);
    forall i | 0 <= i < |effective|
      ensures var e := effective[i];
              && e.accountId in after && e.accessible == after[e.accountId].accessible
              && e.environment == after[e.accountId].environment
              && (e == after[e.accountId] || (!Listed(current, e.accountId) && !e.accessible))
    {
      PredictionEntries(table, previous, current, i);
    }
    forall a | a in after ensures Listed(effective, a) {
      if Listed(current, a) {
        var i :| 0 <= i < |current| && current[i].accountId == a;
        assert effective[i].accountId == a;
      } else {
        assert Listed(previous, a);
        var j :| 0 <= j < |previous| && previous[j].accountId == a;
        assert Listed(gone, a);
        var i :| 0 <= i < |gone| && gone[i].accountId == a;
        assert effective[|current| + i].accountId == a;
      }
    }
    forall a | Listed(effective, a) ensures a in after {
      var i :| 0 <= i < |effective| && effective[i].accountId == a;
      PredictionEntries(table, previous, current, i);
    }
  }

  /** A predicted conflict is exactly the need to revoke something after the replacement. */
  lemma PredictedConflictIsReal(effective: seq<Account>, current: seq<Account>, table: map<Id, Account>,
                                authorizations: map<Id, Authorization>)
    requires Predicts(effective, current, table) && forall a :: a in table ==> table[a].accountId == a
    ensures Conflict(effective, authorizations) <==> TableConflict(table, authorizations)
  {
    if Conflict(effective, authorizations) {
      var i :| 0 <= i < |effective| && NeedsRevoking(effective[i], authorizations);
      assert NeedsRevoking(table[effective[i].accountId], authorizations);
    }
    if TableConflict(table, authorizations) {
      var a :| a in table && NeedsRevoking(table[a], authorizations);
      assert Listed(effective, a);
      var i :| 0 <= i < |effective| && effective[i].accountId == a;
      assert NeedsRevoking(effective[i], authorizations);
    }
  }

  // ---- revoking ----

  function Revoked(authorizations: map<Id, Authorization>, table: map<Id, Account>): map<Id, Authorization> {
    map a | a in authorizations ::
      if a in table && NeedsRevoking(table[a], authorizations)
      then Authorization(NotAllowed, authorizations[a].revision + 1) else authorizations[a]
  }

  /** Some of the revocations, and nothing else, have been written. */
  predicate PartlyRevoked(before: map<Id, Authorization>, after: map<Id, Authorization>) {
    after.Keys == before.Keys
    && forall a :: a in before ==>
         after[a] == before[a] || (!before[a].mode.NotAllowed? && after[a] == Authorization(NotAllowed, before[a].revision + 1))
  }

  lemma RevokedLeavesNoConflict(authorizations: map<Id, Authorization>, table: map<Id, Account>)
    requires forall a :: a in table ==> table[a].accountId == a
    ensures !TableConflict(table, Revoked(authorizations, table))
    ensures !TableConflict(table, authorizations) ==> Revoked(authorizations, table) == authorizations
  {
    forall a | a in table ensures !NeedsRevoking(table[a], Revoked(authorizations, table)) {}
  }

  function RevokedOne(authorizations: map<Id, Authorization>, account: Account): map<Id, Authorization> {
    if NeedsRevoking(account, authorizations)
    then authorizations[account.accountId := Authorization(NotAllowed, authorizations[account.accountId].revision + 1)]
    else authorizations
  }

  /** The authorizations after the listed accounts have been looked at one by one. */
  function RevokedInTurn(authorizations: map<Id, Authorization>, accounts: seq<Account>): map<Id, Authorization> {
    if accounts == [] then authorizations
    else RevokedOne(RevokedInTurn(authorizations, accounts[..|accounts| - 1]), accounts[|accounts| - 1])
  }

  /** Looking at distinct accounts one by one revokes exactly the ones that call for it. */
  lemma {:induction false} RevokedInTurnIsRevoked(authorizations: map<Id, Authorization>, accounts: seq<Account>)
    requires Distinct(accounts)
    ensures var after := RevokedInTurn(authorizations, accounts);
            && PartlyRevoked(authorizations, after)
            && (forall i :: 0 <= i < |accounts| && accounts[i].accountId in authorizations ==>
                  after[accounts[i].accountId] == RevokedOne(authorizations, accounts[i])[accounts[i].accountId])
            && (forall a :: a in authorizations && !Listed(accounts, a) ==> after[a] == authorizations[a])
  {
    if accounts != [] {
      var init, last := accounts[..|accounts| - 1], accounts[|accounts| - 1];
      RevokedInTurnIsRevoked(authorizations, init);
      assert !Listed(init, last.accountId);
      forall a | Listed(init, a) || a == last.accountId ensures Listed(accounts, a) {
        assert accounts[|accounts| - 1].accountId == last.accountId;
        if Listed(init, a) {
          var i :| 0 <= i < |init| && init[i].accountId == a;
          assert accounts[i].accountId == a;
        }
      }
      forall i | 0 <= i < |accounts| && accounts[i].accountId in authorizations
        ensures RevokedInTurn(authorizations, accounts)[accounts[i].accountId]
             == RevokedOne(authorizations, accounts[i])[accounts[i].accountId]
      {
        if i < |init| { assert init[i] == accounts[i] && accounts[i].accountId != last.accountId; }
      }
    }
  }

  lemma RevokedTable(authorizations: map<Id, Authorization>, accounts: seq<Account>, table: map<Id, Account>)
    requires Lists(accounts, table) && authorizations.Keys <= table.Keys
    ensures RevokedInTurn(authorizations, accounts) == Revoked(authorizations, table)
  {
    RevokedInTurnIsRevoked(authorizations, accounts);
    forall a | a in authorizations ensures RevokedInTurn(authorizations, accounts)[a] == Revoked(authorizations, table)[a] {
      assert Listed(accounts, a);
      var i :| 0 <= i < |accounts| && accounts[i].accountId == a;
      assert table[a] == accounts[i];
    }
  }

  // ---- revoking against failing stores ----

  /** How a sequence of store calls comes to a halt: the process stops, or a call reports an error. */
  datatype Halt = Crash | Failure

  function HaltOf(o: Outcome): Option<Halt> {
    match o case Done => None case Fails => Some(Failure) case Stops => Some(Crash)
  }

  /** The outcome of the call for position `i`; beyond the script calls go through. */
  function At(script: seq<Outcome>, i: nat): Outcome { if i < |script| then script[i] else Done }

  function RevokeCall(authorizations: map<Id, Authorization>, account: Account, lookup: Outcome, write: Outcome)
    : (map<Id, Authorization>, Option<Halt>) {
    if !lookup.Done? then (authorizations, HaltOf(lookup))
    else if !NeedsRevoking(account, authorizations) then (authorizations, None)
    else if authorizations[account.accountId].revision >= U64_MAX then (authorizations, Some(Failure))
    else if !write.Done? then (authorizations, HaltOf(write))
    else (RevokedOne(authorizations, account), None)
  }

  /** Revoking account by account, with the given outcomes, up to the first halt. */
  function RevokeRun(authorizations: map<Id, Authorization>, accounts: seq<Account>, lookups: seq<Outcome>, writes: seq<Outcome>)
    : (map<Id, Authorization>, Option<Halt>) {
    if accounts == [] then (authorizations, None)
    else
      var n := |accounts| - 1;
      var before := RevokeRun(authorizations, accounts[..n], lookups, writes);
      if before.1.Some? then before else RevokeCall(before.0, accounts[n], At(lookups, n), At(writes, n))
  }

  /** A halted run stays where it is. */
  lemma {:induction false} RevokeRunHalts(authorizations: map<Id, Authorization>, accounts: seq<Account>, lookups: seq<Outcome>,
                                          writes: seq<Outcome>, k: nat)
    requires k <= |accounts| && RevokeRun(authorizations, accounts[..k], lookups, writes).1.Some?
    ensures RevokeRun(authorizations, accounts, lookups, writes) == RevokeRun(authorizations, accounts[..k], lookups, writes)
  {
    var n := |accounts| - 1;
    if k <= n {
      assert accounts[..n][..k] == accounts[..k];
      RevokeRunHalts(authorizations, accounts[..n], lookups, writes, k);
    } else {
      assert accounts[..k] == accounts;
    }
  }

  /** No authorization that has to be revoked is at the last revision. */
  predicate Revocable(authorizations: map<Id, Authorization>, table: map<Id, Account>) {
    forall a :: a in table && NeedsRevoking(table[a], authorizations) ==> authorizations[table[a].accountId].revision < U64_MAX
  }

  /** An account that comes after the listed ones has not been touched yet. */
  lemma LaterIsUntouched(authorizations: map<Id, Authorization>, init: seq<Account>, account: Account)
    requires Distinct(init + [account])
    ensures var before := RevokedInTurn(authorizations, init);
            && (NeedsRevoking(account, before) <==> NeedsRevoking(account, authorizations))
            && (account.accountId in authorizations ==>
                  account.accountId in before && before[account.accountId] == authorizations[account.accountId])
  {
    var all := init + [account];
    forall i | 0 <= i < |init| ensures all[i] == init[i] && init[i].accountId != account.accountId {
      assert all[|init|] == account;
    }
    assert Distinct(init);
    RevokedInTurnIsRevoked(authorizations, init);
  }

  /** Wherever revoking halts, it has treated a first part of the accounts. */
  lemma {:induction false} RevokeRunIsPartial(authorizations: map<Id, Authorization>, accounts: seq<Account>,
                                              lookups: seq<Outcome>, writes: seq<Outcome>) returns (k: nat)
    ensures k <= |accounts|
    ensures var run := RevokeRun(authorizations, accounts, lookups, writes);
            run.0 == RevokedInTurn(authorizations, accounts[..k]) && (run.1.None? ==> k == |accounts|)
  {
    if accounts == [] { return 0; }
    var n := |accounts| - 1;
    k := RevokeRunIsPartial(authorizations, accounts[..n], lookups, writes);
    assert accounts[..n][..k] == accounts[..k];
    if RevokeRun(authorizations, accounts, lookups, writes).1.None? {
      assert accounts[..n + 1] == accounts;
      k := n + 1;
    }
  }

  predicate AllBelowLast(authorizations: map<Id, Authorization>, accounts: seq<Account>) {
    forall i :: 0 <= i < |accounts| && NeedsRevoking(accounts[i], authorizations) ==>
      authorizations[accounts[i].accountId].revision < U64_MAX
  }

  /** Revoking gets through only if no revision runs over, and then it can. */
  lemma {:induction false} RevokeRunGetsThrough(authorizations: map<Id, Authorization>, accounts: seq<Account>,
                                                lookups: seq<Outcome>, writes: seq<Outcome>)
    requires Distinct(accounts)
    ensures RevokeRun(authorizations, accounts, lookups, writes).1.None? ==> AllBelowLast(authorizations, accounts)
    ensures AllBelowLast(authorizations, accounts) ==> RevokeRun(authorizations, accounts, [], []).1.None?
  {
    if accounts != [] {
      var n := |accounts| - 1;
      var init, last := accounts[..n], accounts[n];
      assert accounts == init + [last];
      RevokeRunGetsThrough(authorizations, init, lookups, writes);
      LaterIsUntouched(authorizations, init, last);
      assert AllBelowLast(authorizations, accounts) <==>
               AllBelowLast(authorizations, init)
               && (NeedsRevoking(last, authorizations) ==> authorizations[last.accountId].revision < U64_MAX) by {
        forall i | 0 <= i < n ensures accounts[i] == init[i] {}
      }
      var k := RevokeRunIsPartial(authorizations, init, lookups, writes);
      assert init[..|init|] == init;
      var j := RevokeRunIsPartial(authorizations, init, [], []);
    }
  }

  /** Revoking what the rows of a table do not support: whatever it got to is a part of it, and getting
      through means all of it. */
  lemma RevokeRunOnTable(authorizations: map<Id, Authorization>, accounts: seq<Account>, table: map<Id, Account>,
                         lookups: seq<Outcome>, writes: seq<Outcome>)
    requires Lists(accounts, table) && authorizations.Keys <= table.Keys
    ensures var run := RevokeRun(authorizations, accounts, lookups, writes);
            && PartlyRevoked(authorizations, run.0)
            && (run.1.None? ==> run.0 == Revoked(authorizations, table) && Revocable(authorizations, table))
  {
    var k := RevokeRunIsPartial(authorizations, accounts, lookups, writes);
    RevokedInTurnIsRevoked(authorizations, accounts[..k]);
    if RevokeRun(authorizations, accounts, lookups, writes).1.None? {
      assert accounts[..k] == accounts;
      RevokedTable(authorizations, accounts, table);
      RevokeRunGetsThrough(authorizations, accounts, lookups, writes);
      forall a | a in table && NeedsRevoking(table[a], authorizations)
        ensures authorizations[table[a].accountId].revision < U64_MAX
      {
        assert Listed(accounts, a);
        var i :| 0 <= i < |accounts| && accounts[i].accountId == a;
        assert table[a] == accounts[i];
      }
    }
  }
}
