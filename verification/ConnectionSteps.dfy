/** Where each service operation can stop. An operation is a sequence of store writes, and a failure or a
    crash can leave it after any of them; each relation below says which joint states that allows, and
    each lemma proves what holds in all of them. */
module ConnectionSteps {
  import opened Machine
  import opened ConnectionModel
  import opened ConnectionStores
  import opened ConnectionAccess

  datatype ProviderErrorKind =
    | InvalidCredentialError | InsufficientPermissionError | WrongEnvironment | ProviderUnavailableError
    | ExpiredOrInactiveError | AccountAccessChangedError | UnsupportedProvider

  type Reply = Result<seq<AccountFact>, ProviderErrorKind>

  function HealthOf(kind: ProviderErrorKind): HealthState {
    match kind
    case InvalidCredentialError => HealthState.InvalidCredential
    case ExpiredOrInactiveError => HealthState.InvalidCredential
    case InsufficientPermissionError => HealthState.InsufficientPermission
    case AccountAccessChangedError => HealthState.AccountAccessChanged
    case _ => HealthState.ProviderUnavailable
  }

  function StatusAfter(kind: ProviderErrorKind, status: CredentialStatus): CredentialStatus {
    match kind
    case ExpiredOrInactiveError => ExpiredOrInactive
    case InvalidCredentialError => Invalid
    case WrongEnvironment => Invalid
    case _ => status
  }

  /** The row after a provider error during revalidation. */
  function FailedRow(row: Row, kind: ProviderErrorKind): Row { Row(StatusAfter(kind, row.status), true, HealthOf(kind)) }

  const ONBOARDED := Row(Valid, true, Healthy)
  const ONBOARDING := Row(PendingValidation, false, Validating)
  const CLOSING := Row(PendingDisable, false, HealthDisabled)
  const TOMBSTONE := Row(PendingDelete, false, HealthDisabled)
  const INCONSISTENT := Row(Invalid, false, HealthState.InvalidCredential)

  predicate Accepted(reply: Reply) { reply.Ok? && AllSafe(reply.value) && DistinctFacts(reply.value) }

  function InitialAuthorizations(accounts: seq<Account>): seq<(Id, Authorization)> {
    seq(|accounts|, i requires 0 <= i < |accounts| => (accounts[i].accountId, Authorization(NotAllowed, 1)))
  }

  function PutCell(s: Stores, id: Id, cell: Cell): Stores { s.(cells := s.cells[id := cell]) }

  function PutSecret(s: Stores, ref: Id, secret: Secret): Stores { s.(secrets := s.secrets[ref := secret]) }

  // ---- creating ----

  function Onboarded(connection: Connection, accounts: seq<Account>): Cell {
    Cell(connection.(row := ONBOARDED), Upserted(map[], accounts), Granted(map[], InitialAuthorizations(accounts)))
  }

  /** Create: insert the pending row, put the secret, finalise; a failed finalisation deletes the secret. */
  predicate CreateStops(s: Stores, t: Stores, id: Id, connection: Connection, value: string, reply: Reply, done: bool) {
    var pending := s.(cells := s.cells[id := Cell(connection.(row := ONBOARDING), map[], map[])], issued := s.issued + {id});
    var stored := PutSecret(pending, connection.credentialRef, Secret(connection.context, value, false));
    || (!done && (t == s || (Accepted(reply) && (t == pending || t == stored))))
    || (done && Accepted(reply)
        && t == PutCell(stored, id, Onboarded(connection, Materialized(connection.context.environment, reply.value))))
  }

  // ---- disabling and deleting ----

  predicate DisableStops(s: Stores, t: Stores, id: Id, done: bool) {
    || (!done && t == s)
    || (&& id in s.cells
        && var cell := s.cells[id];
           var ref := cell.connection.credentialRef;
           var row := if cell.connection.row.status.PendingDisable? then cell.connection.row else CLOSING;
           || (!done && t == PutCell(s, id, WithRow(cell, row)))
           || (&& ref in s.secrets
               && var dark := PutSecret(s, ref, s.secrets[ref].(disabled := true));
                  || (!done && t == PutCell(dark, id, WithRow(cell, row)))
                  || (done && t == PutCell(dark, id, WithRow(cell, row.(status := Disabled, health := HealthDisabled))))))
  }

  predicate DeleteStops(s: Stores, t: Stores, id: Id, done: bool) {
    || (!done && t == s)
    || (&& id in s.cells
        && var cell := s.cells[id];
           var dark := s.secrets - {cell.connection.credentialRef};
           && (cell.connection.row.enabled ==> cell.connection.row.status.PendingDelete?)
           && (|| (!done && t == PutCell(s, id, WithRow(cell, TOMBSTONE)))
               || (!done && t == PutCell(s, id, WithRow(cell, TOMBSTONE)).(secrets := dark))
               || (done && t == s.(cells := s.cells - {id}, secrets := dark))))
  }

  // ---- revalidating ----

  /** Some account of the table that was accessible is not accessible any more. */
  predicate AccessLost(table: map<Id, Account>, current: seq<Account>) {
    exists a :: a in table && table[a].accessible && !StillAccessible(a, current)
  }

  /** The health a discovery leads to: healthy only when no access was lost and nothing needs revoking. */
  function DiscoveredHealth(cell: Cell, current: seq<Account>): HealthState {
    if AccessLost(cell.accounts, current) || TableConflict(Replaced(cell.accounts, current), cell.authorizations)
    then HealthState.AccountAccessChanged else Healthy
  }

  function Discovered(cell: Cell, reply: Reply): seq<Account>
    requires reply.Ok?
  {
    Materialized(cell.connection.context.environment, reply.value)
  }

  /** The completed effect of a discovery on a connection. */
  function Refreshed(cell: Cell, row: Row, current: seq<Account>): Cell {
    var table := Replaced(cell.accounts, current);
    WithRow(cell, row).(accounts := table, authorizations := Revoked(cell.authorizations, table))
  }

  ghost predicate RevalidatedCell(cell: Cell, after: Cell, reply: Reply, done: bool) {
    if reply.Err? then
      !done && after == WithRow(cell, FailedRow(cell.connection.row, reply.error))
    else
      && Accepted(reply)
      && var current := Discovered(cell, reply);
         var row := Row(Valid, true, DiscoveredHealth(cell, current));
         if done then after == Refreshed(cell, row, current) && Revocable(cell.authorizations, Replaced(cell.accounts, current))
         else
           || after == WithRow(cell, row)
           || (&& after == WithRow(cell, row).(accounts := after.accounts, authorizations := after.authorizations)
               && after.accounts == Replaced(cell.accounts, current)
               && PartlyRevoked(cell.authorizations, after.authorizations))
  }

  ghost predicate RevalidateStops(s: Stores, t: Stores, id: Id, reply: Reply, done: bool) {
    || (!done && t == s)
    || (&& id in s.cells && id in t.cells && s.cells[id].connection.row.enabled && Live(s.secrets, s.cells[id].connection)
        && t == PutCell(s, id, t.cells[id])
        && RevalidatedCell(s.cells[id], t.cells[id], reply, done))
  }

  // ---- authorizing ----

  predicate AuthorizeStops(s: Stores, t: Stores, id: Id, account: Id, mode: AuthorizationMode, expected: nat, done: bool) {
    || (!done && t == s)
    || (&& done && id in s.cells && account in s.cells[id].authorizations && account in s.cells[id].accounts
        && var cell := s.cells[id];
           && cell.authorizations[account].revision == expected
           && (!mode.NotAllowed? ==> Admitting(cell.connection.row) && MayTrade(cell.accounts[account]))
           && t == PutCell(s, id, cell.(
                authorizations := cell.authorizations[account := Authorization(mode, expected + 1)])))
  }

  /** Everything that an execution grant needs. */
  predicate GrantAllowed(cells: map<Id, Cell>, secrets: map<Id, Secret>, id: Id, account: Id, purpose: ExecutionPurpose,
                         expected: Option<nat>) {
    && id in cells
    && var cell := cells[id];
       && Admitting(cell.connection.row) && !cell.connection.row.status.PendingDelete? && Live(secrets, cell.connection)
       && account in cell.accounts && account in cell.authorizations
       && cell.accounts[account].accessible
       && RequiredCapability(cell.connection.context.environment) in cell.accounts[account].capabilities
       && (expected.Some? ==> cell.authorizations[account].revision == expected.value)
       && PurposeAllowed(cell.connection.context.environment, cell.authorizations[account].mode, purpose)
  }

  /** The connection is open for business, and its secret can be read for it. */
  predicate Open(secrets: map<Id, Secret>, c: Connection) {
    && c.row.enabled && c.row.health == Healthy && c.row.status != PendingDelete
    && c.credentialRef in secrets && !secrets[c.credentialRef].disabled && secrets[c.credentialRef].context == c.context
  }

  /** The provider lets this account place orders in the environment of the connection. */
  predicate OrdersAllowed(environment: BrokerEnvironment, account: Account) {
    && account.accessible
    && (environment == Production ==> ProductionOrdersProviderAllowed in account.capabilities)
    && (environment == Sandbox ==> SandboxOrders in account.capabilities)
  }

  /** An authorization is there, sandbox purposes stay in the sandbox and production purposes in production,
      and automation needs the mode for it. */
  predicate Suits(environment: BrokerEnvironment, mode: AuthorizationMode, purpose: ExecutionPurpose) {
    && mode != NotAllowed
    && (purpose == SandboxMutation <==> environment == Sandbox)
    && (purpose == ProductionAutomated ==> mode == AutomatedAllowed)
  }

  // ---- what holds wherever they stop ----

  lemma FactsStayDistinct(environment: BrokerEnvironment, facts: seq<AccountFact>)
    requires DistinctFacts(facts)
    ensures Distinct(Materialized(environment, facts))
  {}

  /** Every row is stored under its own identity and in the connection's environment. */
  ghost predicate TableSound(table: map<Id, Account>, environment: BrokerEnvironment) {
    forall k :: k in table ==> table[k].accountId == k && table[k].environment == environment
  }

  lemma UpsertedSound(table: map<Id, Account>, environment: BrokerEnvironment, accounts: seq<Account>)
    requires Distinct(accounts) && TableSound(table, environment)
    requires forall i :: 0 <= i < |accounts| ==> accounts[i].environment == environment
    ensures TableSound(Upserted(table, accounts), environment) && table.Keys <= Upserted(table, accounts).Keys
  {
    UpsertedTable(table, accounts);
    forall k | k in Upserted(table, accounts)
      ensures Upserted(table, accounts)[k].accountId == k && Upserted(table, accounts)[k].environment == environment
    {
      if Listed(accounts, k) { var i :| 0 <= i < |accounts| && accounts[i].accountId == k; }
    }
  }

  lemma OnboardedSound(connection: Connection, facts: seq<AccountFact>)
    requires DistinctFacts(facts)
    ensures CellSound(Onboarded(connection, Materialized(connection.context.environment, facts)))
  {
    var accounts := Materialized(connection.context.environment, facts);
    FactsStayDistinct(connection.context.environment, facts);
    UpsertedSound(map[], connection.context.environment, accounts);
    UpsertedTable(map[], accounts);
    var added := InitialAuthorizations(accounts);
    GrantedTable(map[], added);
    forall a | a in Granted(map[], added) ensures a in Upserted(map[], accounts) {
      var i :| 0 <= i < |added| && added[i].0 == a;
      assert accounts[i].accountId == a;
    }
  }

  lemma CreateKeepsGuarantees(s: Stores, t: Stores, id: Id, connection: Connection, value: string, reply: Reply, done: bool)
    requires Sound(s) && CreateStops(s, t, id, connection, value, reply, done)
    requires id !in s.issued && connection.credentialRef !in s.secrets
    requires forall k :: k in s.cells ==> s.cells[k].connection.credentialRef != connection.credentialRef
    ensures Step(s, Other, t)
  {
    if t == s {
      NoStep(s);
    } else {
      if done { OnboardedSound(connection, reply.value); }
      InsertStep(s, t, id);
    }
  }

  lemma DisableKeepsGuarantees(s: Stores, t: Stores, id: Id, done: bool)
    requires Sound(s) && DisableStops(s, t, id, done)
    ensures Step(s, Other, t)
  {
    if t == s { NoStep(s); } else { CloseStep(s, t, id, t.cells[id].connection.row); }
  }

  lemma DeleteKeepsGuarantees(s: Stores, t: Stores, id: Id, done: bool)
    requires Sound(s) && DeleteStops(s, t, id, done)
    ensures Step(s, Other, t)
  {
    if t == s { NoStep(s); }
    else if done { DeleteStep(s, t, id); }
    else { CloseStep(s, t, id, TOMBSTONE); }
  }

  lemma ReplacedSound(cell: Cell, reply: Reply)
    requires CellSound(cell) && Accepted(reply)
    ensures var table := Replaced(cell.accounts, Discovered(cell, reply));
            TableSound(table, cell.connection.context.environment) && cell.accounts.Keys <= table.Keys
  {
    FactsStayDistinct(cell.connection.context.environment, reply.value);
    UpsertedSound(Hidden(cell.accounts), cell.connection.context.environment, Discovered(cell, reply));
  }

  lemma RevokedIsPartlyRevoked(cell: Cell, table: map<Id, Account>)
    requires forall k :: k in table ==> table[k].accountId == k
    ensures PartlyRevoked(cell.authorizations, Revoked(cell.authorizations, table))
  {}

  lemma RevalidateKeepsGuarantees(s: Stores, t: Stores, id: Id, reply: Reply, done: bool)
    requires Sound(s) && RevalidateStops(s, t, id, reply, done)
    ensures Step(s, Other, t)
  {
    if t == s {
      NoStep(s);
    } else {
      var cell, after := s.cells[id], t.cells[id];
      if reply.Ok? {
        ReplacedSound(cell, reply);
        RevokedIsPartlyRevoked(cell, Replaced(cell.accounts, Discovered(cell, reply)));
      }
      assert CellSound(after);
      LocalStep(s, t, id);
    }
  }

  lemma AuthorizeKeepsGuarantees(s: Stores, t: Stores, id: Id, account: Id, mode: AuthorizationMode, expected: nat, done: bool)
    requires Sound(s) && AuthorizeStops(s, t, id, account, mode, expected, done)
    ensures Step(s, Other, t)
  {
    if t == s { NoStep(s); } else { LocalStep(s, t, id); }
  }

  /** A completed discovery leaves no authorization on an account that may not trade, and reports a
      healthy connection only when there was none to revoke. */
  lemma RefreshedHasNoConflict(cell: Cell, row: Row, reply: Reply)
    requires CellSound(cell) && Accepted(reply)
    ensures var after := Refreshed(cell, row, Discovered(cell, reply));
            && !TableConflict(after.accounts, after.authorizations)
            && (forall a :: a in after.authorizations && !after.authorizations[a].mode.NotAllowed? ==>
                  a in after.accounts && MayTrade(after.accounts[a]))
            && (DiscoveredHealth(cell, Discovered(cell, reply)).Healthy? ==> after.authorizations == cell.authorizations)
  {
    var after := Refreshed(cell, row, Discovered(cell, reply));
    ReplacedSound(cell, reply);
    RevokedLeavesNoConflict(cell.authorizations, after.accounts);
    forall a | a in after.authorizations && !after.authorizations[a].mode.NotAllowed?
      ensures a in after.accounts && MayTrade(after.accounts[a])
    {
      assert !NeedsRevoking(after.accounts[a], after.authorizations);
    }
  }
}
