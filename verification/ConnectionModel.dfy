/** Broker connections across the metadata database and the separate secret database: the joint state,
    what has to hold of it, and how it may evolve. */
module ConnectionModel {
  type Id = string

  datatype BrokerEnvironment = Production | Sandbox

  datatype CredentialContext = CredentialContext(provider: string, environment: BrokerEnvironment)

  datatype CredentialStatus =
    PendingValidation | Valid | Invalid | ExpiredOrInactive | PendingDisable | Disabled | PendingDelete

  datatype HealthState =
    | Unknown | Validating | Healthy | InvalidCredential | InsufficientPermission | ProviderUnavailable
    | AccountAccessChanged | HealthDisabled

  datatype Capability =
    | AccountDiscovery | PortfolioRead | PositionsRead | OperationsRead | StreamHealth
    | SandboxOrders | ProductionOrdersProviderAllowed

  datatype AuthorizationMode = NotAllowed | ManualAllowed | AutomatedAllowed

  datatype ExecutionPurpose = SandboxMutation | ProductionManual | ProductionAutomated

  /** The columns of a connection that an update writes. */
  datatype Row = Row(status: CredentialStatus, enabled: bool, health: HealthState)

  datatype Connection = Connection(context: CredentialContext, credentialRef: Id, row: Row)

  datatype Account = Account(accountId: Id, environment: BrokerEnvironment, accessible: bool, capabilities: set<Capability>)

  datatype Authorization = Authorization(mode: AuthorizationMode, revision: nat)

  /** A connection with the account and authorization rows that reference it. */
  datatype Cell = Cell(connection: Connection, accounts: map<Id, Account>, authorizations: map<Id, Authorization>)

  datatype Secret = Secret(context: CredentialContext, value: string, disabled: bool)

  /** Both databases, and the connection identities handed out so far. */
  datatype Stores = Stores(cells: map<Id, Cell>, secrets: map<Id, Secret>, issued: set<Id>)

  function RequiredCapability(environment: BrokerEnvironment): Capability {
    if environment.Production? then ProductionOrdersProviderAllowed else SandboxOrders
  }

  predicate MayTrade(account: Account) {
    account.accessible && RequiredCapability(account.environment) in account.capabilities
  }

  predicate PurposeAllowed(environment: BrokerEnvironment, mode: AuthorizationMode, purpose: ExecutionPurpose) {
    match (environment, purpose)
    case (Sandbox, SandboxMutation) => mode.ManualAllowed? || mode.AutomatedAllowed?
    case (Production, ProductionManual) => mode.ManualAllowed? || mode.AutomatedAllowed?
    case (Production, ProductionAutomated) => mode.AutomatedAllowed?
    case _ => false
  }

  // ---- what holds of every reachable state ----

  predicate Admitting(row: Row) { row.enabled && row.health.Healthy? }

  /** Only a connection past onboarding and not on its way out is enabled, and only a valid one is healthy. */
  predicate RowSound(row: Row) {
    && (row.enabled ==> row.status.Valid? || row.status.Invalid? || row.status.ExpiredOrInactive?)
    && (Admitting(row) ==> row.status.Valid?)
  }

  ghost predicate CellSound(cell: Cell) {
    && cell.authorizations.Keys <= cell.accounts.Keys
    && (forall a :: a in cell.accounts ==>
          cell.accounts[a].accountId == a && cell.accounts[a].environment == cell.connection.context.environment)
    && RowSound(cell.connection.row)
  }

  predicate OwnContext(secrets: map<Id, Secret>, c: Connection) {
    c.credentialRef in secrets ==> secrets[c.credentialRef].context == c.context
  }

  ghost predicate Sound(s: Stores) {
    && (forall id :: id in s.cells ==>
          id in s.issued && CellSound(s.cells[id]) && OwnContext(s.secrets, s.cells[id].connection))
    && (forall a, b :: a in s.cells && b in s.cells && a != b ==>
          s.cells[a].connection.credentialRef != s.cells[b].connection.credentialRef)
  }

  predicate Live(secrets: map<Id, Secret>, c: Connection) {
    c.credentialRef in secrets && !secrets[c.credentialRef].disabled && secrets[c.credentialRef].context == c.context
  }

  predicate SafeAt(s: Stores, id: Id) {
    id in s.cells && Admitting(s.cells[id].connection.row) ==>
      s.cells[id].connection.row.status.Valid? && Live(s.secrets, s.cells[id].connection)
  }

  /** An enabled and healthy connection is valid and has a usable secret in its own context. */
  ghost predicate Safe(s: Stores) { forall id :: id in s.cells ==> SafeAt(s, id) }

  // ---- how the state may evolve ----

  predicate SecretEvolves(before: map<Id, Secret>, after: map<Id, Secret>, ref: Id) {
    ref in after ==> ref in before && (before[ref].disabled ==> after[ref].disabled)
  }

  predicate AuthorizationEvolves(before: Authorization, after: Authorization, sameSecret: bool) {
    before.revision <= after.revision && (before.mode != after.mode || !sameSecret ==> before.revision < after.revision)
  }

  predicate SameSecret(before: map<Id, Secret>, after: map<Id, Secret>, ref: Id) {
    ref in before && ref in after ==> before[ref].value == after[ref].value
  }

  /** What no step may do to one connection that existed before and exists after. */
  ghost predicate CellEvolves(before: Cell, after: Cell, was: map<Id, Secret>, now: map<Id, Secret>) {
    var b, a, ref := before.connection, after.connection, before.connection.credentialRef;
    && a.credentialRef == ref && a.context == b.context
    && (!b.row.status.PendingValidation? ==> !a.row.status.PendingValidation? && (!b.row.enabled ==> !a.row.enabled))
    && SecretEvolves(was, now, ref)
    && (forall k :: k in before.authorizations ==>
          k in after.authorizations
          && AuthorizationEvolves(before.authorizations[k], after.authorizations[k], SameSecret(was, now, ref)))
  }

  ghost predicate Evolves(s: Stores, t: Stores) {
    && s.issued <= t.issued
    && (forall id :: id in t.cells && id in s.issued ==>
          id in s.cells && CellEvolves(s.cells[id], t.cells[id], s.secrets, t.secrets))
  }

  lemma CellEvolvesIsTransitive(before: Cell, middle: Cell, after: Cell, s0: map<Id, Secret>, s1: map<Id, Secret>, s2: map<Id, Secret>)
    requires CellEvolves(before, middle, s0, s1) && CellEvolves(middle, after, s1, s2)
    ensures CellEvolves(before, after, s0, s2)
  {
    var ref := before.connection.credentialRef;
    forall k | k in before.authorizations
      ensures k in after.authorizations
              && AuthorizationEvolves(before.authorizations[k], after.authorizations[k], SameSecret(s0, s2, ref))
    {
      assert k in middle.authorizations;
    }
  }

  lemma EvolvesIsTransitive(s: Stores, t: Stores, u: Stores)
    requires Evolves(s, t) && Evolves(t, u)
    ensures Evolves(s, u)
  {
    forall id | id in u.cells && id in s.issued
      ensures id in s.cells && CellEvolves(s.cells[id], u.cells[id], s.secrets, u.secrets)
    {
      CellEvolvesIsTransitive(s.cells[id], t.cells[id], u.cells[id], s.secrets, t.secrets, u.secrets);
    }
  }

  lemma EvolvesIsReflexive(s: Stores)
    ensures Evolves(s, s) <== Sound(s)
  {}

  // ---- steps that touch one connection ----

  /** `t` differs from `s` at most in one connection and its secret. */
  ghost predicate Confined(s: Stores, t: Stores, id: Id) {
    && id in s.cells && id in t.cells && t.issued == s.issued
    && t.cells == s.cells[id := t.cells[id]]
    && var ref := s.cells[id].connection.credentialRef;
       t.secrets - {ref} == s.secrets - {ref}
  }

  lemma ConfinedSecrets(s: Stores, t: Stores, id: Id, r: Id)
    requires Confined(s, t, id) && r != s.cells[id].connection.credentialRef
    ensures r in s.secrets <==> r in t.secrets
    ensures r in s.secrets ==> s.secrets[r] == t.secrets[r]
  {
    var ref := s.cells[id].connection.credentialRef;
    assert r in s.secrets <==> r in s.secrets - {ref};
    assert r in t.secrets <==> r in t.secrets - {ref};
    if r in s.secrets { assert (s.secrets - {ref})[r] == s.secrets[r] && (t.secrets - {ref})[r] == t.secrets[r]; }
  }

  /** A step confined to one connection keeps the whole state sound, and safe if it keeps that
      connection safe. */
  lemma ConfinedStep(s: Stores, t: Stores, id: Id)
    requires Sound(s) && Confined(s, t, id)
    requires CellSound(t.cells[id]) && OwnContext(t.secrets, t.cells[id].connection)
    requires CellEvolves(s.cells[id], t.cells[id], s.secrets, t.secrets)
    ensures Sound(t) && Evolves(s, t)
    ensures Safe(s) && SafeAt(t, id) ==> Safe(t)
  {
    forall other | other in t.cells && other != id
      ensures other in s.cells && t.cells[other] == s.cells[other]
      ensures OwnContext(t.secrets, t.cells[other].connection)
      ensures CellEvolves(s.cells[other], t.cells[other], s.secrets, t.secrets)
      ensures SafeAt(s, other) ==> SafeAt(t, other)
    {
      ConfinedSecrets(s, t, id, s.cells[other].connection.credentialRef);
    }
  }

  // ---- the contract of an operation ----

  /** What one service operation reports, as far as the state guarantees depend on it. */
  datatype Event = Recovered | CompensationFailed | Other

  ghost predicate NothingPending(s: Stores) {
    forall id :: id in s.cells ==>
      !s.cells[id].connection.row.status.PendingDisable? && !s.cells[id].connection.row.status.PendingDelete?
  }

  predicate Owned(s: Stores, ref: Id) { exists id :: id in s.cells && s.cells[id].connection.credentialRef == ref }

  ghost predicate NoOrphans(s: Stores) {
    forall ref :: ref in s.secrets && !s.secrets[ref].disabled ==> Owned(s, ref)
  }

  /** The contract of every service operation, whether it completes, fails or crashes half-way. */
  ghost predicate Step(s: Stores, event: Event, t: Stores) {
    && Sound(t) && Evolves(s, t)
    && (Safe(s) && !event.CompensationFailed? ==> Safe(t))
    && (event.Recovered? ==> Safe(t) && NothingPending(t) && NoOrphans(t))
  }

  // ---- the three kinds of change an operation makes ----

  lemma LocalStep(s: Stores, t: Stores, id: Id)
    requires Sound(s) && Confined(s, t, id)
    requires CellSound(t.cells[id]) && OwnContext(t.secrets, t.cells[id].connection)
    requires CellEvolves(s.cells[id], t.cells[id], s.secrets, t.secrets)
    requires Safe(s) ==> SafeAt(t, id)
    ensures Step(s, Other, t)
  {
    ConfinedStep(s, t, id);
  }

  /** The cell with another row. */
  function WithRow(cell: Cell, row: Row): Cell { cell.(connection := cell.connection.(row := row)) }

  /** Closing a connection: it is not enabled, and its secret is as before, disabled or gone. */
  lemma CloseStep(s: Stores, t: Stores, id: Id, row: Row)
    requires Sound(s) && id in s.cells && !row.enabled && !row.status.PendingValidation?
    requires t == s.(cells := s.cells[id := WithRow(s.cells[id], row)], secrets := t.secrets)
    requires var ref := s.cells[id].connection.credentialRef;
             || t.secrets == s.secrets
             || t.secrets == s.secrets - {ref}
             || (ref in s.secrets && t.secrets == s.secrets[ref := s.secrets[ref].(disabled := true)])
    ensures Step(s, Other, t)
  {
    LocalStep(s, t, id);
  }

  lemma NoStep(s: Stores)
    requires Sound(s)
    ensures Step(s, Other, s)
  {}

  /** A connection whose cell and secret are untouched. */
  lemma Untouched(s: Stores, t: Stores, id: Id)
    requires Sound(s) && id in s.cells && id in t.cells && t.cells[id] == s.cells[id]
    requires var ref := s.cells[id].connection.credentialRef;
             ref in s.secrets <==> ref in t.secrets
    requires var ref := s.cells[id].connection.credentialRef;
             ref in s.secrets ==> s.secrets[ref] == t.secrets[ref]
    ensures CellEvolves(s.cells[id], t.cells[id], s.secrets, t.secrets)
    ensures CellSound(t.cells[id]) && OwnContext(t.secrets, t.cells[id].connection) && (SafeAt(s, id) ==> SafeAt(t, id))
  {}

  /** A new connection under fresh identities, with or without its secret. */
  lemma InsertStep(s: Stores, t: Stores, id: Id)
    requires Sound(s) && id !in s.issued && id in t.cells
    requires var ref := t.cells[id].connection.credentialRef;
             && ref !in s.secrets && (forall k :: k in s.cells ==> s.cells[k].connection.credentialRef != ref)
             && t.cells == s.cells[id := t.cells[id]] && t.issued == s.issued + {id}
             && (t.secrets == s.secrets || (ref in t.secrets && t.secrets == s.secrets[ref := t.secrets[ref]]))
    requires CellSound(t.cells[id]) && OwnContext(t.secrets, t.cells[id].connection)
    requires SafeAt(t, id)
    ensures Step(s, Other, t)
  {
    forall other | other in s.cells ensures Unharmed(s, t, other) {
      Untouched(s, t, other);
    }
    NewCellStep(s, t, id);
  }

  /** An old connection is sound, has evolved, and is as safe as before. */
  ghost predicate Unharmed(s: Stores, t: Stores, id: Id) {
    && id in s.cells && id in t.cells && CellSound(t.cells[id]) && OwnContext(t.secrets, t.cells[id].connection)
    && t.cells[id].connection.credentialRef == s.cells[id].connection.credentialRef
    && CellEvolves(s.cells[id], t.cells[id], s.secrets, t.secrets) && (SafeAt(s, id) ==> SafeAt(t, id))
  }

  lemma NewCellStep(s: Stores, t: Stores, id: Id)
    requires Sound(s) && id !in s.issued && id in t.cells && t.issued == s.issued + {id} && t.cells.Keys == s.cells.Keys + {id}
    requires forall other :: other in s.cells ==> Unharmed(s, t, other)
    requires forall k :: k in s.cells ==> s.cells[k].connection.credentialRef != t.cells[id].connection.credentialRef
    requires CellSound(t.cells[id]) && OwnContext(t.secrets, t.cells[id].connection) && SafeAt(t, id)
    ensures Step(s, Other, t)
  {
    forall k | k in t.cells && k in s.issued
      ensures k in s.cells && CellEvolves(s.cells[k], t.cells[k], s.secrets, t.secrets)
    {
      assert Unharmed(s, t, k);
    }
    forall k | k in t.cells
      ensures k in t.issued && CellSound(t.cells[k]) && OwnContext(t.secrets, t.cells[k].connection) && (Safe(s) ==> SafeAt(t, k))
    {
      if k != id { assert Unharmed(s, t, k); }
    }
    forall a, b | a in t.cells && b in t.cells && a != b
      ensures t.cells[a].connection.credentialRef != t.cells[b].connection.credentialRef
    {
      if a != id { assert Unharmed(s, t, a); }
      if b != id { assert Unharmed(s, t, b); }
    }
  }

  lemma SurvivorsStep(s: Stores, t: Stores)
    requires Sound(s) && t.issued == s.issued
    requires forall id :: id in t.cells ==>
               && id in s.cells && CellSound(t.cells[id]) && OwnContext(t.secrets, t.cells[id].connection)
               && CellEvolves(s.cells[id], t.cells[id], s.secrets, t.secrets)
               && (SafeAt(s, id) ==> SafeAt(t, id))
    ensures Step(s, Other, t)
  {}

  lemma DeleteStep(s: Stores, t: Stores, id: Id)
    requires Sound(s) && id in s.cells
    requires t.cells == s.cells - {id} && t.issued == s.issued
    requires t.secrets == s.secrets - {s.cells[id].connection.credentialRef}
    ensures Step(s, Other, t)
  {
    forall other | other in t.cells
      ensures && other in s.cells && CellSound(t.cells[other]) && OwnContext(t.secrets, t.cells[other].connection)
              && CellEvolves(s.cells[other], t.cells[other], s.secrets, t.secrets)
              && (SafeAt(s, other) ==> SafeAt(t, other))
    {
      Untouched(s, t, other);
    }
    SurvivorsStep(s, t);
  }
}
