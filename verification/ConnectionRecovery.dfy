/** Startup recovery: what it does to one connection, what it has achieved wherever it stops, and exactly when
    it can be completed. */
module ConnectionRecovery {
  import opened ConnectionModel
  import opened ConnectionStores
  import opened ConnectionAccess
  import opened ConnectionSteps

  /** Finishing an interrupted onboarding: the accounts and authorizations must not be there yet. */
  ghost predicate OnboardingStops(s: Stores, t: Stores, id: Id, reply: Reply, done: bool)
    requires id in s.cells
  {
    var cell, c := s.cells[id], s.cells[id].connection;
    || (!done && t == s)
    || (done && c.credentialRef !in s.secrets && t == PutCell(s, id, WithRow(cell, INCONSISTENT)))
    || (done && Live(s.secrets, c) && reply.Err?
        && t == PutCell(s, id, WithRow(cell, c.row.(enabled := false, health := HealthOf(reply.error)))))
    || (&& done && Live(s.secrets, c) && Accepted(reply)
        && var current := Discovered(cell, reply);
           && NewAccounts(cell.accounts, current) && NewAuthorizations(cell.authorizations, InitialAuthorizations(current))
           && t == PutCell(s, id, Cell(c.(row := ONBOARDED), Upserted(cell.accounts, current),
                                       Granted(cell.authorizations, InitialAuthorizations(current)))))
  }

  ghost predicate VisitStops(s: Stores, t: Stores, id: Id, reply: Reply, done: bool)
    requires id in s.cells
  {
    var cell, c, row, ref := s.cells[id], s.cells[id].connection, s.cells[id].connection.row, s.cells[id].connection.credentialRef;
    match row.status
    case PendingValidation => OnboardingStops(s, t, id, reply, done)
    case PendingDelete =>
      var dark := s.(secrets := s.secrets - {ref});
      if done then t == dark.(cells := s.cells - {id}) else t == s || t == dark
    case PendingDisable =>
      || (!done && t == s)
      || (&& ref in s.secrets
          && var dark := PutSecret(s, ref, s.secrets[ref].(disabled := true));
             if done then t == PutCell(dark, id, WithRow(cell, row.(status := Disabled, enabled := false))) else t == dark)
    case Valid =>
      if row.enabled && row.health.Validating? then
        || RevalidateStops(s, t, id, reply, true)
        || (!done && RevalidateStops(s, t, id, reply, false))
        || (done && reply.Err? && Live(s.secrets, c) && t == PutCell(s, id, WithRow(cell, FailedRow(row, reply.error))))
      else if row.enabled then
        || (t == s && (done ==> Live(s.secrets, c)))
        || (done && (ref !in s.secrets || s.secrets[ref].disabled) && t == PutCell(s, id, WithRow(cell, INCONSISTENT)))
      else t == s
    case _ => t == s
  }

  /** When a visit can be completed, from the row, the secret and the provider's reply. */
  predicate CanFinish(s: Stores, id: Id, reply: Reply)
    requires id in s.cells
  {
    var cell, c, ref := s.cells[id], s.cells[id].connection, s.cells[id].connection.credentialRef;
    match c.row.status
    case PendingValidation =>
      || ref !in s.secrets
      || (&& Live(s.secrets, c)
          && (reply.Err?
              || (&& Accepted(reply) && NewAccounts(cell.accounts, Discovered(cell, reply))
                  && NewAuthorizations(cell.authorizations, InitialAuthorizations(Discovered(cell, reply))))))
    case PendingDisable => ref in s.secrets
    case Valid =>
      if c.row.enabled && c.row.health.Validating? then
        && Live(s.secrets, c)
        && (reply.Err?
            || (Accepted(reply) && Revocable(cell.authorizations, Replaced(cell.accounts, Discovered(cell, reply)))))
      else c.row.enabled && ref in s.secrets && !s.secrets[ref].disabled ==> Live(s.secrets, c)
    case _ => true
  }

  predicate Settled(s: Stores, id: Id) {
    id in s.cells ==>
      && SafeAt(s, id)
      && !s.cells[id].connection.row.status.PendingDisable? && !s.cells[id].connection.row.status.PendingDelete?
  }

  // ---- one visit ----

  lemma OnboardingKeepsGuarantees(s: Stores, t: Stores, id: Id, reply: Reply, done: bool)
    requires Sound(s) && id in s.cells && OnboardingStops(s, t, id, reply, done)
    requires s.cells[id].connection.row.status.PendingValidation?
    ensures Step(s, Other, t) && (done ==> Settled(t, id))
  {
    if t == s {
      NoStep(s);
    } else {
      if t.cells[id].connection.row == ONBOARDED { FinishedOnboardingSound(s.cells[id], reply); }
      LocalStep(s, t, id);
    }
  }

  lemma FinishedOnboardingSound(cell: Cell, reply: Reply)
    requires CellSound(cell) && Accepted(reply) && NewAccounts(cell.accounts, Discovered(cell, reply))
    requires NewAuthorizations(cell.authorizations, InitialAuthorizations(Discovered(cell, reply)))
    ensures var current := Discovered(cell, reply);
            var after := Granted(cell.authorizations, InitialAuthorizations(current));
            && CellSound(Cell(cell.connection.(row := ONBOARDED), Upserted(cell.accounts, current), after))
            && forall a :: a in cell.authorizations ==> a in after && after[a] == cell.authorizations[a]
  {
    var current := Discovered(cell, reply);
    UpsertedSound(cell.accounts, cell.connection.context.environment, current);
    UpsertedTable(cell.accounts, current);
    GrantedTable(cell.authorizations, InitialAuthorizations(current));
    forall a | a in Granted(cell.authorizations, InitialAuthorizations(current)) ensures a in Upserted(cell.accounts, current) {
      if a !in cell.authorizations {
        var i :| 0 <= i < |current| && InitialAuthorizations(current)[i].0 == a;
        assert current[i].accountId == a;
      }
    }
  }

  lemma RevalidationVisitKeepsGuarantees(s: Stores, t: Stores, id: Id, reply: Reply, done: bool)
    requires Sound(s) && id in s.cells && VisitStops(s, t, id, reply, done)
    requires var row := s.cells[id].connection.row; row.status.Valid? && row.enabled && row.health.Validating?
    ensures Step(s, Other, t) && (done ==> Settled(t, id))
  {
    if RevalidateStops(s, t, id, reply, true) { RevalidateKeepsGuarantees(s, t, id, reply, true); }
    else { RevalidateKeepsGuarantees(s, t, id, reply, false); }
  }

  lemma VisitKeepsGuarantees(s: Stores, t: Stores, id: Id, reply: Reply, done: bool)
    requires Sound(s) && id in s.cells && VisitStops(s, t, id, reply, done)
    ensures Step(s, Other, t) && (done ==> Settled(t, id))
  {
    var row := s.cells[id].connection.row;
    if row.status.PendingValidation? {
      OnboardingKeepsGuarantees(s, t, id, reply, done);
    } else if row.status.Valid? && row.enabled && row.health.Validating? {
      RevalidationVisitKeepsGuarantees(s, t, id, reply, done);
    } else if t == s {
      NoStep(s);
    } else if row.status.PendingDelete? && done {
      DeleteStep(s, t, id);
    } else {
      CloseStep(s, t, id, t.cells[id].connection.row);
    }
  }

  /** A visit leaves the other connections and all other secrets alone. */
  lemma VisitIsConfined(s: Stores, t: Stores, id: Id, reply: Reply)
    requires id in s.cells && VisitStops(s, t, id, reply, true)
    ensures t.issued == s.issued && t.cells.Keys <= s.cells.Keys
    ensures forall k :: k in s.cells && k != id ==> k in t.cells && t.cells[k] == s.cells[k]
    ensures forall r :: r != s.cells[id].connection.credentialRef ==>
              (r in t.secrets <==> r in s.secrets) && (r in s.secrets ==> t.secrets[r] == s.secrets[r])
    ensures t.secrets.Keys <= s.secrets.Keys
    ensures id in t.cells || s.cells[id].connection.credentialRef !in t.secrets
  {}

  lemma FinishedVisitCouldFinish(s: Stores, t: Stores, id: Id, reply: Reply)
    requires id in s.cells && VisitStops(s, t, id, reply, true)
    ensures CanFinish(s, id, reply)
  {}

  lemma FinishableVisitFinishes(s: Stores, id: Id, reply: Reply) returns (t: Stores)
    requires id in s.cells && CanFinish(s, id, reply)
    ensures VisitStops(s, t, id, reply, true)
  {
    var cell, c, ref := s.cells[id], s.cells[id].connection, s.cells[id].connection.credentialRef;
    match c.row.status
    case PendingValidation =>
      if ref !in s.secrets {
        t := PutCell(s, id, WithRow(cell, INCONSISTENT));
      } else if reply.Err? {
        t := PutCell(s, id, WithRow(cell, c.row.(enabled := false, health := HealthOf(reply.error))));
      } else {
        var current := Discovered(cell, reply);
        t := PutCell(s, id, Cell(c.(row := ONBOARDED), Upserted(cell.accounts, current),
                                 Granted(cell.authorizations, InitialAuthorizations(current))));
      }
    case PendingDelete => t := s.(cells := s.cells - {id}, secrets := s.secrets - {ref});
    case PendingDisable =>
      t := PutCell(PutSecret(s, ref, s.secrets[ref].(disabled := true)), id, WithRow(cell, c.row.(status := Disabled, enabled := false)));
    case Valid =>
      if c.row.enabled && c.row.health.Validating? {
        if reply.Err? {
          t := PutCell(s, id, WithRow(cell, FailedRow(c.row, reply.error)));
        } else {
          var current := Discovered(cell, reply);
          t := PutCell(s, id, Refreshed(cell, Row(Valid, true, DiscoveredHealth(cell, current)), current));
        }
      } else if c.row.enabled && !Live(s.secrets, c) {
        t := PutCell(s, id, WithRow(cell, INCONSISTENT));
      } else {
        t := s;
      }
    case _ => t := s;
  }

  /** A visit can be completed exactly under that condition. */
  lemma VisitFinishesExactly(s: Stores, id: Id, reply: Reply)
    requires id in s.cells
    ensures (exists t :: VisitStops(s, t, id, reply, true)) <==> CanFinish(s, id, reply)
  {
    if CanFinish(s, id, reply) {
      var t := FinishableVisitFinishes(s, id, reply);
    } else {
      forall t | VisitStops(s, t, id, reply, true) ensures false { FinishedVisitCouldFinish(s, t, id, reply); }
    }
  }

  // ---- the visited part ----

  /** What recovery has achieved after visiting the connections in `visited`. */
  ghost predicate Visited(start: Stores, s: Stores, visited: set<Id>) {
    && Step(start, Other, s) && s.issued == start.issued
    && s.cells.Keys <= start.cells.Keys && s.secrets.Keys <= start.secrets.Keys
    && (forall id :: id in start.cells && id !in visited ==> id in s.cells && s.cells[id] == start.cells[id])
    && (forall id :: id in visited ==> Settled(s, id))
    && (forall id :: id in start.cells && id !in s.cells ==> start.cells[id].connection.credentialRef !in s.secrets)
    && (forall r :: r in start.secrets && !Owned(start, r) ==> r in s.secrets && s.secrets[r] == start.secrets[r])
  }

  lemma VisitedAtStart(start: Stores)
    requires Sound(start)
    ensures Visited(start, start, {})
  {
    NoStep(start);
  }

  lemma StepsCompose(s: Stores, t: Stores, u: Stores)
    requires Sound(s) && Step(s, Other, t) && Step(t, Other, u)
    ensures Step(s, Other, u)
  {
    EvolvesIsTransitive(s, t, u);
  }

  lemma StaysSettled(s: Stores, t: Stores, id: Id, k: Id, reply: Reply)
    requires Sound(s) && id in s.cells && VisitStops(s, t, id, reply, true) && k != id && Settled(s, k)
    ensures Settled(t, k)
  {
    VisitIsConfined(s, t, id, reply);
  }

  lemma VisitAdvances(start: Stores, s: Stores, t: Stores, visited: set<Id>, id: Id, reply: Reply)
    requires Sound(start) && Visited(start, s, visited) && id in start.cells && id !in visited
    requires VisitStops(s, t, id, reply, true)
    ensures Visited(start, t, visited + {id})
  {
    VisitKeepsGuarantees(s, t, id, reply, true);
    StepsCompose(start, s, t);
    VisitIsConfined(s, t, id, reply);
    AllStaySettled(s, t, visited, id, reply);
    OrphansStay(start, s, t, id, reply);
  }

  lemma AllStaySettled(s: Stores, t: Stores, visited: set<Id>, id: Id, reply: Reply)
    requires Sound(s) && id in s.cells && VisitStops(s, t, id, reply, true) && Settled(t, id)
    requires forall k :: k in visited ==> Settled(s, k)
    ensures forall k :: k in visited + {id} ==> Settled(t, k)
  {
    forall k | k in visited + {id} ensures Settled(t, k) {
      if k != id { StaysSettled(s, t, id, k, reply); }
    }
  }

  lemma OrphansStay(start: Stores, s: Stores, t: Stores, id: Id, reply: Reply)
    requires id in start.cells && id in s.cells && s.cells[id] == start.cells[id] && VisitStops(s, t, id, reply, true)
    requires forall r :: r in start.secrets && !Owned(start, r) ==> r in s.secrets && s.secrets[r] == start.secrets[r]
    ensures forall r :: r in start.secrets && !Owned(start, r) ==> r in t.secrets && t.secrets[r] == start.secrets[r]
  {
    VisitIsConfined(s, t, id, reply);
    forall r | r in start.secrets && !Owned(start, r) ensures r in t.secrets && t.secrets[r] == start.secrets[r] {
      assert r != start.cells[id].connection.credentialRef;
    }
  }

  /** A visit, completed or not, leaves the other connections alone. */
  lemma VisitTouchesOne(s: Stores, t: Stores, id: Id, reply: Reply, done: bool)
    requires id in s.cells && VisitStops(s, t, id, reply, done)
    ensures forall k :: k in s.cells && k != id ==> k in t.cells && t.cells[k] == s.cells[k]
    ensures t.cells.Keys <= s.cells.Keys
  {}

  // ---- the orphans ----

  /** All connections have been visited and the orphaned secrets in `quarantined` are disabled. */
  ghost predicate Quarantined(start: Stores, s: Stores, quarantined: set<Id>) {
    && Step(start, Other, s) && s.cells.Keys <= start.cells.Keys && s.secrets.Keys <= start.secrets.Keys
    && (forall id :: id in s.cells ==> Settled(s, id))
    && (forall id :: id in start.cells && id !in s.cells ==> start.cells[id].connection.credentialRef !in s.secrets)
    && (forall r :: r in start.secrets && !Owned(start, r) ==> r in s.secrets && (start.secrets[r].disabled ==> s.secrets[r].disabled))
    && (forall r :: r in quarantined && r in start.secrets && !Owned(start, r) ==> s.secrets[r].disabled)
  }

  lemma QuarantineBegins(start: Stores, s: Stores)
    requires Visited(start, s, start.cells.Keys)
    ensures Quarantined(start, s, {})
  {}

  /** Disabling a secret that no connection owns changes nothing for the connections. */
  lemma OrphanStep(s: Stores, r: Id)
    requires Sound(s) && r in s.secrets && !Owned(s, r)
    ensures Step(s, Other, PutSecret(s, r, s.secrets[r].(disabled := true)))
    ensures forall id :: id in s.cells && Settled(s, id) ==> Settled(PutSecret(s, r, s.secrets[r].(disabled := true)), id)
  {
    var t := PutSecret(s, r, s.secrets[r].(disabled := true));
    forall id | id in t.cells
      ensures CellSound(t.cells[id]) && OwnContext(t.secrets, t.cells[id].connection)
      ensures CellEvolves(s.cells[id], t.cells[id], s.secrets, t.secrets) && (SafeAt(s, id) ==> SafeAt(t, id))
    {
      assert s.cells[id].connection.credentialRef != r;
      Untouched(s, t, id);
    }
    SurvivorsStep(s, t);
  }

  lemma QuarantineAdvances(start: Stores, s: Stores, t: Stores, quarantined: set<Id>, r: Id)
    requires Sound(start) && Quarantined(start, s, quarantined) && r in start.secrets && !Owned(start, r)
    requires t == PutSecret(s, r, s.secrets[r].(disabled := true)) || (t == s && start.secrets[r].disabled)
    ensures Quarantined(start, t, quarantined + {r})
  {
    if t != s {
      forall id | id in s.cells ensures s.cells[id].connection.credentialRef != r {
        assert start.cells[id].connection.credentialRef != r;
      }
      OrphanStep(s, r);
      StepsCompose(start, s, t);
    }
  }

  /** With every orphan quarantined, recovery has delivered what it promises. */
  lemma RecoveryDelivers(start: Stores, s: Stores)
    requires Sound(start) && Quarantined(start, s, start.secrets.Keys)
    ensures Step(start, Recovered, s)
  {
    forall r | r in s.secrets && !s.secrets[r].disabled ensures Owned(s, r) {
      assert Owned(start, r);
      var id :| id in start.cells && start.cells[id].connection.credentialRef == r;
      assert id in s.cells && s.cells[id].connection.credentialRef == r;
    }
  }

  // ---- the whole of recovery ----

  /** The connections in `visited` have been visited one after the other, each visit completed. */
  ghost predicate Visits(start: Stores, s: Stores, visited: set<Id>, replies: Id -> Reply)
    decreases visited
  {
    || (visited == {} && s == start)
    || exists id, p :: id in visited && Visits(start, p, visited - {id}, replies) && Visit(p, s, id, replies(id), true)
  }

  ghost predicate Visit(s: Stores, t: Stores, id: Id, reply: Reply, done: bool) { id in s.cells && VisitStops(s, t, id, reply, done) }

  /** Disabling one secret that no connection owned at the start, if it was not disabled then. */
  ghost predicate QuarantineStops(start: Stores, s: Stores, t: Stores, r: Id, done: bool)
    requires r in start.secrets
  {
    if Owned(start, r) || start.secrets[r].disabled then t == s
    else || (!done && t == s)
         || (r in s.secrets && t == PutSecret(s, r, s.secrets[r].(disabled := true)))
  }

  /** The secrets in `seen` have been looked at one after the other. */
  ghost predicate Quarantines(start: Stores, from: Stores, s: Stores, seen: set<Id>)
    requires seen <= start.secrets.Keys
    decreases seen
  {
    || (seen == {} && s == from)
    || exists r, p :: r in seen && Quarantines(start, from, p, seen - {r}) && QuarantineStops(start, p, s, r, true)
  }

  /** Recovery was left during the visits: after some of them, or in the middle of one more. */
  ghost predicate LeftVisiting(s: Stores, t: Stores, mid: Stores, visited: set<Id>, replies: Id -> Reply) {
    && visited <= s.cells.Keys && Visits(s, mid, visited, replies)
    && (t == mid || exists id :: id in s.cells && id !in visited && Visit(mid, t, id, replies(id), false))
  }

  /** Recovery was left during the quarantine: after some of the secrets, or at one more. */
  ghost predicate LeftQuarantining(s: Stores, t: Stores, mid: Stores, late: Stores, seen: set<Id>, replies: Id -> Reply) {
    && seen <= s.secrets.Keys && Visits(s, mid, s.cells.Keys, replies) && Quarantines(s, mid, late, seen)
    && (t == late || exists r :: r in s.secrets && QuarantineStops(s, late, t, r, false))
  }

  ghost predicate Completes(s: Stores, t: Stores, mid: Stores, replies: Id -> Reply) {
    Visits(s, mid, s.cells.Keys, replies) && Quarantines(s, mid, t, s.secrets.Keys)
  }

  /** The states in which recovery can stop. */
  ghost predicate RecoverStops(s: Stores, t: Stores, replies: Id -> Reply, done: bool) {
    if done then exists mid :: Completes(s, t, mid, replies)
    else || (exists mid, visited :: LeftVisiting(s, t, mid, visited, replies))
         || (exists mid, late, seen :: LeftQuarantining(s, t, mid, late, seen, replies))
  }

  lemma VisitCompletes(start: Stores, s: Stores, t: Stores, rest: set<Id>, visited: set<Id>, id: Id, reply: Reply)
    requires Sound(start) && Visited(start, s, rest) && id in start.cells && id !in rest && visited == rest + {id}
    requires VisitStops(s, t, id, reply, true)
    ensures Visited(start, t, visited)
  {
    VisitAdvances(start, s, t, rest, id, reply);
  }

  lemma LastVisit(start: Stores, s: Stores, visited: set<Id>, replies: Id -> Reply) returns (id: Id, p: Stores, rest: set<Id>)
    requires Visits(start, s, visited, replies) && !(visited == {} && s == start)
    ensures id in visited && rest == visited - {id} && Visits(start, p, rest, replies) && Visit(p, s, id, replies(id), true)
  {
    id, p :| id in visited && Visits(start, p, visited - {id}, replies) && Visit(p, s, id, replies(id), true);
    rest := visited - {id};
  }

  lemma {:induction false} QuarantinesKeepCells(start: Stores, from: Stores, s: Stores, seen: set<Id>)
    requires seen <= start.secrets.Keys && Quarantines(start, from, s, seen)
    ensures s.cells == from.cells
    decreases seen
  {
    if !(seen == {} && s == from) {
      var r, p :| r in seen && Quarantines(start, from, p, seen - {r}) && QuarantineStops(start, p, s, r, true);
      QuarantinesKeepCells(start, from, p, seen - {r});
    }
  }

  /** The cells that recovery leaves are those after some visits and at most one incomplete one. */
  lemma RecoverVisits(s: Stores, t: Stores, replies: Id -> Reply, done: bool) returns (mid: Stores, visited: set<Id>)
    requires RecoverStops(s, t, replies, done)
    ensures visited <= s.cells.Keys && Visits(s, mid, visited, replies)
    ensures t.cells == mid.cells || exists k :: k in s.cells && k !in visited && Visit(mid, t, k, replies(k), false)
  {
    if done {
      mid :| Completes(s, t, mid, replies);
      visited := s.cells.Keys;
      QuarantinesKeepCells(s, mid, t, s.secrets.Keys);
    } else if exists mid, visited :: LeftVisiting(s, t, mid, visited, replies) {
      mid, visited :| LeftVisiting(s, t, mid, visited, replies);
    } else {
      var late, seen;
      mid, late, seen :| LeftQuarantining(s, t, mid, late, seen, replies);
      visited := s.cells.Keys;
      QuarantinesKeepCells(s, mid, late, seen);
    }
  }

  lemma {:induction false} VisitsAchieve(start: Stores, s: Stores, visited: set<Id>, replies: Id -> Reply)
    requires Sound(start) && visited <= start.cells.Keys && Visits(start, s, visited, replies)
    ensures Visited(start, s, visited)
    decreases visited
  {
    if visited == {} && s == start {
      VisitedAtStart(start);
    } else {
      var id, p, rest := LastVisit(start, s, visited, replies);
      VisitsAchieve(start, p, rest, replies);
      VisitCompletes(start, p, s, rest, visited, id, replies(id));
    }
  }

  lemma QuarantineCompletes(start: Stores, s: Stores, t: Stores, rest: set<Id>, seen: set<Id>, r: Id)
    requires Sound(start) && Quarantined(start, s, rest) && r in start.secrets && seen == rest + {r}
    requires QuarantineStops(start, s, t, r, true)
    ensures Quarantined(start, t, seen)
  {
    if !Owned(start, r) { QuarantineAdvances(start, s, t, rest, r); }
  }

  lemma {:induction false} QuarantinesAchieve(start: Stores, from: Stores, s: Stores, seen: set<Id>)
    requires Sound(start) && Quarantined(start, from, {}) && seen <= start.secrets.Keys && Quarantines(start, from, s, seen)
    ensures Quarantined(start, s, seen)
    decreases seen
  {
    if !(seen == {} && s == from) {
      var r, p :| r in seen && Quarantines(start, from, p, seen - {r}) && QuarantineStops(start, p, s, r, true);
      var rest := seen - {r};
      QuarantinesAchieve(start, from, p, rest);
      QuarantineCompletes(start, p, s, rest, seen, r);
    }
  }

  lemma AllVisited(s: Stores, mid: Stores, replies: Id -> Reply)
    requires Sound(s) && Visits(s, mid, s.cells.Keys, replies)
    ensures Quarantined(s, mid, {})
  {
    VisitsAchieve(s, mid, s.cells.Keys, replies);
    QuarantineBegins(s, mid);
  }

  lemma LeftVisitingKeepsGuarantees(s: Stores, t: Stores, mid: Stores, visited: set<Id>, replies: Id -> Reply)
    requires Sound(s) && LeftVisiting(s, t, mid, visited, replies)
    ensures Step(s, Other, t)
  {
    VisitsAchieve(s, mid, visited, replies);
    if t != mid {
      var id :| id in s.cells && id !in visited && Visit(mid, t, id, replies(id), false);
      VisitKeepsGuarantees(mid, t, id, replies(id), false);
      StepsCompose(s, mid, t);
    }
  }

  lemma LeftQuarantiningKeepsGuarantees(s: Stores, t: Stores, mid: Stores, late: Stores, seen: set<Id>, replies: Id -> Reply)
    requires Sound(s) && LeftQuarantining(s, t, mid, late, seen, replies)
    ensures Step(s, Other, t)
  {
    AllVisited(s, mid, replies);
    QuarantinesAchieve(s, mid, late, seen);
    if t != late {
      var r :| r in s.secrets && QuarantineStops(s, late, t, r, false);
      QuarantineCompletes(s, late, t, seen, seen + {r}, r);
    }
  }

  /** Recovery keeps every guarantee wherever it stops; completed, it has repaired everything. */
  lemma RecoverKeepsGuarantees(s: Stores, t: Stores, replies: Id -> Reply, done: bool)
    requires Sound(s) && RecoverStops(s, t, replies, done)
    ensures Step(s, if done then Recovered else Other, t)
  {
    if done {
      var mid :| Completes(s, t, mid, replies);
      AllVisited(s, mid, replies);
      QuarantinesAchieve(s, mid, t, s.secrets.Keys);
      RecoveryDelivers(s, t);
    } else if exists mid, visited :: LeftVisiting(s, t, mid, visited, replies) {
      var mid, visited :| LeftVisiting(s, t, mid, visited, replies);
      LeftVisitingKeepsGuarantees(s, t, mid, visited, replies);
    } else {
      var mid, late, seen :| LeftQuarantining(s, t, mid, late, seen, replies);
      LeftQuarantiningKeepsGuarantees(s, t, mid, late, seen, replies);
    }
  }

  lemma StillToVisit(start: Stores, s: Stores, visited: set<Id>, replies: Id -> Reply, id: Id)
    requires Sound(start) && visited <= start.cells.Keys && Visits(start, s, visited, replies)
    requires id in start.cells && id !in visited
    ensures id in s.cells && s.cells[id] == start.cells[id] && CellSound(s.cells[id])
  {
    VisitsAchieve(start, s, visited, replies);
  }

  lemma VisitExtends(start: Stores, s: Stores, t: Stores, visited: set<Id>, replies: Id -> Reply, id: Id, done: bool)
    requires visited <= start.cells.Keys && Visits(start, s, visited, replies) && id in start.cells && id !in visited
    requires Visit(s, t, id, replies(id), done)
    ensures if done then Visits(start, t, visited + {id}, replies) else RecoverStops(start, t, replies, false)
  {
    assert visited + {id} - {id} == visited;
    if !done { assert LeftVisiting(start, t, s, visited, replies); }
  }

  lemma QuarantineExtends(start: Stores, mid: Stores, s: Stores, t: Stores, seen: set<Id>, replies: Id -> Reply, r: Id, done: bool)
    requires seen <= start.secrets.Keys && Visits(start, mid, start.cells.Keys, replies) && Quarantines(start, mid, s, seen)
    requires r in start.secrets && r !in seen && QuarantineStops(start, s, t, r, done)
    ensures if done then Quarantines(start, mid, t, seen + {r}) else RecoverStops(start, t, replies, false)
  {
    assert seen + {r} - {r} == seen;
    if !done { assert LeftQuarantining(start, t, mid, s, seen, replies); }
  }

  // ---- when recovery can be completed ----

  /** The secret and the row that a later visit finds are those of the start. */
  lemma {:induction false} OwnSecretIsLeftAlone(start: Stores, s: Stores, visited: set<Id>, replies: Id -> Reply, id: Id)
    requires Sound(start) && visited <= start.cells.Keys && Visits(start, s, visited, replies)
    requires id in start.cells && id !in visited
    ensures id in s.cells && s.cells[id] == start.cells[id]
    ensures var ref := start.cells[id].connection.credentialRef;
            (ref in s.secrets <==> ref in start.secrets) && (ref in s.secrets ==> s.secrets[ref] == start.secrets[ref])
    decreases visited
  {
    if !(visited == {} && s == start) {
      var k, p :| k in visited && Visits(start, p, visited - {k}, replies) && Visit(p, s, k, replies(k), true);
      OwnSecretIsLeftAlone(start, p, visited - {k}, replies, id);
      OwnSecretIsLeftAlone(start, p, visited - {k}, replies, k);
      VisitIsConfined(p, s, k, replies(k));
    }
  }

  lemma SameCanFinish(s: Stores, t: Stores, id: Id, reply: Reply)
    requires id in s.cells && id in t.cells && s.cells[id] == t.cells[id]
    requires var ref := s.cells[id].connection.credentialRef;
             (ref in s.secrets <==> ref in t.secrets) && (ref in s.secrets ==> s.secrets[ref] == t.secrets[ref])
    ensures CanFinish(s, id, reply) <==> CanFinish(t, id, reply)
  {}

  lemma {:induction false} VisitedCouldFinish(start: Stores, s: Stores, visited: set<Id>, replies: Id -> Reply)
    requires Sound(start) && visited <= start.cells.Keys && Visits(start, s, visited, replies)
    ensures forall id :: id in visited ==> CanFinish(start, id, replies(id))
    decreases visited
  {
    if !(visited == {} && s == start) {
      var id, p :| id in visited && Visits(start, p, visited - {id}, replies) && Visit(p, s, id, replies(id), true);
      VisitedCouldFinish(start, p, visited - {id}, replies);
      OwnSecretIsLeftAlone(start, p, visited - {id}, replies, id);
      FinishedVisitCouldFinish(p, s, id, replies(id));
      SameCanFinish(start, p, id, replies(id));
    }
  }

  lemma {:induction false} VisitsCanBeMade(start: Stores, visited: set<Id>, replies: Id -> Reply) returns (s: Stores)
    requires Sound(start) && visited <= start.cells.Keys
    requires forall id :: id in visited ==> CanFinish(start, id, replies(id))
    ensures Visits(start, s, visited, replies)
    decreases visited
  {
    s := start;
    if visited != {} {
      var id :| id in visited;
      var p := VisitsCanBeMade(start, visited - {id}, replies);
      OwnSecretIsLeftAlone(start, p, visited - {id}, replies, id);
      SameCanFinish(start, p, id, replies(id));
      s := FinishableVisitFinishes(p, id, replies(id));
      assert Visit(p, s, id, replies(id), true);
    }
  }

  lemma {:induction false} QuarantinesCanBeMade(start: Stores, from: Stores, seen: set<Id>) returns (s: Stores)
    requires Sound(start) && Quarantined(start, from, {}) && seen <= start.secrets.Keys
    ensures Quarantines(start, from, s, seen)
    decreases seen
  {
    s := from;
    if seen != {} {
      var r :| r in seen;
      var p := QuarantinesCanBeMade(start, from, seen - {r});
      QuarantinesAchieve(start, from, p, seen - {r});
      s := if Owned(start, r) || start.secrets[r].disabled then p else PutSecret(p, r, p.secrets[r].(disabled := true));
      assert QuarantineStops(start, p, s, r, true);
    }
  }

  /** Recovery can be completed exactly when every single visit can; one connection that cannot be
      finished keeps all of it from completing. */
  lemma RecoveryCompletesExactly(s: Stores, replies: Id -> Reply)
    requires Sound(s)
    ensures (exists t :: RecoverStops(s, t, replies, true)) <==> forall id :: id in s.cells ==> CanFinish(s, id, replies(id))
  {
    if forall id :: id in s.cells ==> CanFinish(s, id, replies(id)) {
      var mid := VisitsCanBeMade(s, s.cells.Keys, replies);
      AllVisited(s, mid, replies);
      var t := QuarantinesCanBeMade(s, mid, s.secrets.Keys);
      assert Completes(s, t, mid, replies);
      assert RecoverStops(s, t, replies, true);
    } else {
      forall t | RecoverStops(s, t, replies, true) ensures false {
        var mid :| Completes(s, t, mid, replies);
        VisitedCouldFinish(s, mid, s.cells.Keys, replies);
      }
    }
  }
}
