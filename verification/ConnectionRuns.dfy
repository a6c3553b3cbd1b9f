/** Whole runs of the connection service: any operations in any order, each completing, failing or
    crashing anywhere. */
module ConnectionRuns {
  import opened Machine
  import opened ConnectionModel
  import opened ConnectionAccess
  import opened ConnectionSteps
  import opened ConnectionRotation
  import opened ConnectionRecovery

  datatype Operation =
    | Create(id: Id, connection: Connection, value: string, reply: Reply, done: bool)
    | Disable(id: Id, done: bool)
    | Delete(id: Id, done: bool)
    | Revalidate(id: Id, reply: Reply, done: bool)
    | Rotate(id: Id, value: string, reply: Reply, path: Path, end: RotationEnd)
    | Authorize(id: Id, account: Id, mode: AuthorizationMode, expected: nat, done: bool)
    | Recover(replies: Id -> Reply, done: bool)

  function EventOf(op: Operation): Event {
    match op
    case Rotate(_, _, _, _, end) => if end.RotationBroken? then CompensationFailed else Other
    case Recover(_, done) => if done then Recovered else Other
    case _ => Other
  }

  /** One operation, wherever it stops; new connections get identities that were never used. */
  ghost predicate Next(s: Stores, op: Operation, t: Stores) {
    match op
    case Create(id, connection, value, reply, done) =>
      && id !in s.issued && connection.credentialRef !in s.secrets
      && (forall k :: k in s.cells ==> s.cells[k].connection.credentialRef != connection.credentialRef)
      && CreateStops(s, t, id, connection, value, reply, done)
    case Disable(id, done) => DisableStops(s, t, id, done)
    case Delete(id, done) => DeleteStops(s, t, id, done)
    case Revalidate(id, reply, done) => RevalidateStops(s, t, id, reply, done)
    case Rotate(id, value, reply, path, end) => RotateStops(s, t, id, value, reply, path, end)
    case Authorize(id, account, mode, expected, done) => AuthorizeStops(s, t, id, account, mode, expected, done)
    case Recover(replies, done) => RecoverStops(s, t, replies, done)
  }

  lemma NextIsStep(s: Stores, op: Operation, t: Stores)
    requires Sound(s) && Next(s, op, t)
    ensures Step(s, EventOf(op), t)
  {
    match op
    case Create(id, connection, value, reply, done) => CreateKeepsGuarantees(s, t, id, connection, value, reply, done);
    case Disable(id, done) => DisableKeepsGuarantees(s, t, id, done);
    case Delete(id, done) => DeleteKeepsGuarantees(s, t, id, done);
    case Revalidate(id, reply, done) => RevalidateKeepsGuarantees(s, t, id, reply, done);
    case Rotate(id, value, reply, path, end) => RotateKeepsGuarantees(s, t, id, value, reply, path, end);
    case Authorize(id, account, mode, expected, done) => AuthorizeKeepsGuarantees(s, t, id, account, mode, expected, done);
    case Recover(replies, done) => RecoverKeepsGuarantees(s, t, replies, done);
  }

  const EMPTY_STORES := Stores(map[], map[], {})

  ghost predicate IsRun(states: seq<Stores>, ops: seq<Operation>) {
    && |states| == |ops| + 1 && states[0] == EMPTY_STORES
    && forall i :: 0 <= i < |ops| ==> Next(states[i], ops[i], states[i + 1])
  }

  lemma {:induction false} RunsAreSound(states: seq<Stores>, ops: seq<Operation>, n: nat)
    requires IsRun(states, ops) && n <= |ops|
    ensures Sound(states[n])
    ensures n > 0 ==> Step(states[n - 1], EventOf(ops[n - 1]), states[n])
  {
    if n > 0 {
      RunsAreSound(states, ops, n - 1);
      NextIsStep(states[n - 1], ops[n - 1], states[n]);
    }
  }

  /** The operation is a rotation whose compensation failed although it was at risk. */
  ghost predicate Endangers(s: Stores, op: Operation) {
    op.Rotate? && op.end.RotationBroken? && AtRisk(s, op.id, op.reply)
  }

  /** Every such rotation up to `n` has been followed by a completed recovery. */
  ghost predicate Repaired(states: seq<Stores>, ops: seq<Operation>, n: nat)
    requires n <= |ops| < |states|
  {
    forall i :: 0 <= i < n && Endangers(states[i], ops[i]) ==> exists j :: i < j < n && EventOf(ops[j]).Recovered?
  }

  lemma NextStaysSafe(s: Stores, op: Operation, t: Stores)
    requires Sound(s) && Next(s, op, t)
    ensures Safe(s) && !Endangers(s, op) ==> Safe(t)
    ensures EventOf(op).Recovered? ==> Safe(t)
  {
    NextIsStep(s, op, t);
    if Safe(s) && !Endangers(s, op) && op.Rotate? && op.end.RotationBroken? {
      RotationStaysSafe(s, t, op.id, op.value, op.reply, op.path, op.end);
    }
  }

  /** Something that holds at the start, is kept unless it is endangered, and is restored by a repair, holds
      whenever every danger has been followed by a repair. */
  lemma {:induction false} RepairsRestore(holds: seq<bool>, dangers: seq<bool>, repairs: seq<bool>, n: nat)
    requires |holds| == |dangers| + 1 == |repairs| + 1 && holds[0] && n <= |dangers|
    requires forall i :: 0 <= i < |dangers| ==> (holds[i] && !dangers[i]) || repairs[i] ==> holds[i + 1]
    requires forall i :: 0 <= i < n && dangers[i] ==> exists j :: i < j < n && repairs[j]
    ensures holds[n]
  {
    if n > 0 && !repairs[n - 1] {
      forall i | 0 <= i < n - 1 && dangers[i] ensures exists j :: i < j < n - 1 && repairs[j] {
        var j :| i < j < n && repairs[j];
      }
      RepairsRestore(holds, dangers, repairs, n - 1);
    }
  }

  /** An enabled and healthy connection is valid and has a usable secret in its own context, at the end
      of every run, unless a rotation at risk lost its compensation and is still waiting for recovery. */
  lemma RunsStaySafe(states: seq<Stores>, ops: seq<Operation>, n: nat)
    requires IsRun(states, ops) && n <= |ops| && Repaired(states, ops, n)
    ensures Safe(states[n])
  {
    var holds := seq(|states|, i requires 0 <= i < |states| => Safe(states[i]));
    var dangers := seq(|ops|, i requires 0 <= i < |ops| < |states| => Endangers(states[i], ops[i]));
    var repairs := seq(|ops|, i requires 0 <= i < |ops| => EventOf(ops[i]).Recovered?);
    forall i | 0 <= i < |dangers| ensures (holds[i] && !dangers[i]) || repairs[i] ==> holds[i + 1] {
      RunsAreSound(states, ops, i);
      NextStaysSafe(states[i], ops[i], states[i + 1]);
    }
    forall i | 0 <= i < n && dangers[i] ensures exists j :: i < j < n && repairs[j] {
      assert Endangers(states[i], ops[i]);
      var j :| i < j < n && EventOf(ops[j]).Recovered?;
      assert repairs[j];
    }
    RepairsRestore(holds, dangers, repairs, n);
  }

  /** After every completed recovery the state is safe, no row has a pending status, and every live secret
      has an owner, even if a compensation had failed before. */
  lemma CompletedRecoveryRepairs(states: seq<Stores>, ops: seq<Operation>, n: nat)
    requires IsRun(states, ops) && 0 < n <= |ops| && ops[n - 1].Recover? && ops[n - 1].done
    ensures Safe(states[n]) && NothingPending(states[n]) && NoOrphans(states[n])
  {
    RunsAreSound(states, ops, n);
  }

  /** Every state is sound and evolves into the next one. */
  ghost predicate Linked(states: seq<Stores>) {
    && (forall i :: 0 <= i < |states| ==> Sound(states[i]))
    && (forall i :: 0 < i < |states| ==> Evolves(states[i - 1], states[i]))
  }

  lemma RunsAreLinked(states: seq<Stores>, ops: seq<Operation>)
    requires IsRun(states, ops)
    ensures Linked(states)
  {
    forall n | 0 <= n < |states| ensures Sound(states[n]) && (n > 0 ==> Evolves(states[n - 1], states[n])) {
      RunsAreSound(states, ops, n);
    }
  }

  lemma {:induction false} LinkedStatesEvolve(states: seq<Stores>, m: nat, n: nat)
    requires Linked(states) && m <= n < |states|
    ensures Evolves(states[m], states[n])
    decreases n
  {
    if m == n {
      EvolvesIsReflexive(states[n]);
    } else {
      LinkedStatesEvolve(states, m, n - 1);
      EvolvesIsTransitive(states[m], states[n - 1], states[n]);
    }
  }

  lemma RunsEvolve(states: seq<Stores>, ops: seq<Operation>, m: nat, n: nat)
    requires IsRun(states, ops) && m <= n <= |ops|
    ensures Evolves(states[m], states[n]) && Sound(states[m]) && Sound(states[n])
  {
    RunsAreLinked(states, ops);
    LinkedStatesEvolve(states, m, n);
  }

  /** Once a connection is past onboarding and not enabled, it is never enabled again. */
  lemma DisabledConnectionsStayDisabled(states: seq<Stores>, ops: seq<Operation>, m: nat, n: nat, id: Id)
    requires IsRun(states, ops) && m <= n <= |ops| && id in states[m].cells
    requires var row := states[m].cells[id].connection.row; !row.status.PendingValidation? && !row.enabled
    ensures id in states[n].cells ==> !states[n].cells[id].connection.row.enabled
  {
    RunsEvolve(states, ops, m, n);
  }

  /** The connections that are gone were not enabled. */
  ghost predicate GoneWereClosed(start: Stores, s: Stores) {
    forall id :: id in start.cells && id !in s.cells ==> !start.cells[id].connection.row.enabled
  }

  lemma VisitRemovesTombstones(s: Stores, t: Stores, id: Id, reply: Reply)
    requires Visit(s, t, id, reply, true) && id !in t.cells
    ensures s.cells[id].connection.row.status.PendingDelete?
  {}

  lemma VisitKeepsEnabled(start: Stores, p: Stores, s: Stores, id: Id)
    requires GoneWereClosed(start, p) && id in start.cells && CellSound(start.cells[id])
    requires forall k :: k in p.cells && k != id ==> k in s.cells
    requires id in s.cells || start.cells[id].connection.row.status.PendingDelete?
    ensures GoneWereClosed(start, s)
  {}

  lemma {:induction false} VisitsKeepEnabled(start: Stores, s: Stores, visited: set<Id>, replies: Id -> Reply)
    requires Sound(start) && visited <= start.cells.Keys && Visits(start, s, visited, replies)
    ensures GoneWereClosed(start, s)
    decreases visited
  {
    if !(visited == {} && s == start) {
      var last, p, rest := LastVisit(start, s, visited, replies);
      VisitsKeepEnabled(start, p, rest, replies);
      VisitsAchieve(start, p, rest, replies);
      VisitTouchesOne(p, s, last, replies(last), true);
      if last !in s.cells { VisitRemovesTombstones(p, s, last, replies(last)); }
      VisitKeepsEnabled(start, p, s, last);
    }
  }

  lemma UnfinishedVisitKeepsCells(s: Stores, t: Stores, id: Id, reply: Reply)
    requires Visit(s, t, id, reply, false)
    ensures t.cells.Keys == s.cells.Keys
  {}

  lemma RecoveryKeepsEnabled(s: Stores, t: Stores, replies: Id -> Reply, done: bool)
    requires Sound(s) && RecoverStops(s, t, replies, done)
    ensures GoneWereClosed(s, t)
  {
    var mid, visited := RecoverVisits(s, t, replies, done);
    VisitsKeepEnabled(s, mid, visited, replies);
    if t.cells != mid.cells {
      var id :| id in s.cells && id !in visited && Visit(mid, t, id, replies(id), false);
      UnfinishedVisitKeepsCells(mid, t, id, replies(id));
    }
  }

  /** No step of any run removes a connection that is still enabled. */
  lemma OnlyDisabledConnectionsGo(states: seq<Stores>, ops: seq<Operation>, n: nat, id: Id)
    requires IsRun(states, ops) && n < |ops| && id in states[n].cells && id !in states[n + 1].cells
    ensures !states[n].cells[id].connection.row.enabled
  {
    RunsAreSound(states, ops, n);
    var s, t := states[n], states[n + 1];
    assert Next(s, ops[n], t);
    if ops[n].Recover? { RecoveryKeepsEnabled(s, t, ops[n].replies, ops[n].done); }
  }

  /** Revisions only grow, and two observations with the same revision saw the same mode and, as long as
      the secret is still there, the same secret. */
  lemma SameRevisionSameModeAndSecret(states: seq<Stores>, ops: seq<Operation>, m: nat, n: nat, id: Id, account: Id)
    requires IsRun(states, ops) && m <= n <= |ops|
    requires id in states[m].cells && account in states[m].cells[id].authorizations
    requires id in states[n].cells && account in states[n].cells[id].authorizations
    ensures var before, after := states[m].cells[id], states[n].cells[id];
            var ref := before.connection.credentialRef;
            && after.connection.credentialRef == ref
            && before.authorizations[account].revision <= after.authorizations[account].revision
            && (before.authorizations[account].revision == after.authorizations[account].revision ==>
                  && before.authorizations[account].mode == after.authorizations[account].mode
                  && (ref in states[n].secrets ==>
                        ref in states[m].secrets && states[m].secrets[ref].value == states[n].secrets[ref].value))
  {
    RunsEvolve(states, ops, m, n);
    assert CellEvolves(states[m].cells[id], states[n].cells[id], states[m].secrets, states[n].secrets);
  }

  /** A grant that was checked against a revision sees the mode and the secret of the moment when that
      revision was read, whatever ran or crashed in between. */
  lemma CheckedGrantSeesWhatWasRead(states: seq<Stores>, ops: seq<Operation>, m: nat, n: nat, id: Id, account: Id,
                                    purpose: ExecutionPurpose)
    requires IsRun(states, ops) && m <= n <= |ops|
    requires id in states[m].cells && account in states[m].cells[id].authorizations
    requires GrantAllowed(states[n].cells, states[n].secrets, id, account, purpose,
                          Some(states[m].cells[id].authorizations[account].revision))
    ensures var before, after := states[m].cells[id], states[n].cells[id];
            var ref := before.connection.credentialRef;
            && after.authorizations[account] == before.authorizations[account]
            && after.connection.credentialRef == ref && ref in states[m].secrets && ref in states[n].secrets
            && states[n].secrets[ref].value == states[m].secrets[ref].value
            && states[n].secrets[ref].context == before.connection.context
  {
    SameRevisionSameModeAndSecret(states, ops, m, n, id, account);
    RunsEvolve(states, ops, m, n);
  }

  // ---- runs that lose safety, and runs that recovery cannot complete ----

  /** Creating any connection from the empty stores puts its next rotation at risk. */
  lemma CreatedFromNothing(id: Id, connection: Connection, value: string, reply: Reply) returns (t: Stores)
    requires Accepted(reply)
    ensures Next(EMPTY_STORES, Create(id, connection, value, reply, true), t) && Sound(t) && AtRisk(t, id, reply)
  {
    var pending := EMPTY_STORES.(cells := EMPTY_STORES.cells[id := Cell(connection.(row := ONBOARDING), map[], map[])],
                                 issued := EMPTY_STORES.issued + {id});
    t := PutCell(PutSecret(pending, connection.credentialRef, Secret(connection.context, value, false)), id,
                 Onboarded(connection, Materialized(connection.context.environment, reply.value)));
    NextIsStep(EMPTY_STORES, Create(id, connection, value, reply, true), t);
  }

  /** From the empty stores: create any connection, then rotate it with the accounts neither stored nor
      restored. */
  lemma UnsafeStateIsReached(id: Id, connection: Connection, value: string, reply: Reply)
    returns (states: seq<Stores>, ops: seq<Operation>)
    requires Accepted(reply)
    ensures IsRun(states, ops) && |ops| == 2 && ops[0] == Create(id, connection, value, reply, true)
    ensures ops[1].Rotate? && ops[1].id == id && !Safe(states[2])
  {
    var created := CreatedFromNothing(id, connection, value, reply);
    var broken, path := RotationAtRisk(created, id, value, reply);
    states := [EMPTY_STORES, created, broken];
    ops := [Create(id, connection, value, reply, true), Rotate(id, value, reply, path, RotationBroken)];
    assert Next(states[1], ops[1], states[2]);
  }

  ghost predicate RecoveryBlocked(s: Stores) { forall replies, t :: !RecoverStops(s, t, replies, true) }

  lemma OneConnectionBlocksRecovery(s: Stores, id: Id)
    requires Sound(s) && id in s.cells && forall reply :: !CanFinish(s, id, reply)
    ensures RecoveryBlocked(s)
  {
    forall replies, t ensures !RecoverStops(s, t, replies, true) {
      RecoveryCompletesExactly(s, replies);
      assert !CanFinish(s, id, replies(id));
    }
  }

  /** From every healthy connection: a rotation is undone but for its row, which leaves the disabled secret
      behind the closed gate. The state is safe, and no recovery completes from it. */
  lemma BrokenRotationBlocksRecovery(s: Stores, id: Id, value: string, reply: Reply) returns (t: Stores, path: Path)
    requires Sound(s) && Safe(s) && id in s.cells && Admitting(s.cells[id].connection.row) && Accepted(reply)
    ensures path.BehindSecret? && path.script == GATE_NOT_OPENED
    ensures RotateStops(s, t, id, value, reply, path, RotationBroken) && Safe(t) && RecoveryBlocked(t)
  {
    assert SafeAt(s, id);
    t, path := GateStaysClosed(s, id, value, reply);
    RotateKeepsGuarantees(s, t, id, value, reply, path, RotationBroken);
    OneConnectionBlocksRecovery(t, id);
  }

  /** A creation that stops before its secret is stored, then a disabling that fails for want of a secret:
      the connection stays pending disable, and no recovery completes. */
  lemma CrashedCreateBlocksRecovery(s: Stores, id: Id, connection: Connection, value: string, reply: Reply)
    returns (pending: Stores, closing: Stores)
    requires Sound(s) && id !in s.issued && connection.credentialRef !in s.secrets && Accepted(reply)
    requires forall k :: k in s.cells ==> s.cells[k].connection.credentialRef != connection.credentialRef
    ensures Next(s, Create(id, connection, value, reply, false), pending) && Next(pending, Disable(id, false), closing)
    ensures RecoveryBlocked(closing)
  {
    pending := s.(cells := s.cells[id := Cell(connection.(row := ONBOARDING), map[], map[])], issued := s.issued + {id});
    NextIsStep(s, Create(id, connection, value, reply, false), pending);
    closing := DisableWithoutSecretBlocks(pending, id);
  }

  lemma DisableWithoutSecretBlocks(s: Stores, id: Id) returns (t: Stores)
    requires Sound(s) && id in s.cells && s.cells[id].connection.credentialRef !in s.secrets
    ensures Next(s, Disable(id, false), t) && RecoveryBlocked(t)
  {
    var row := s.cells[id].connection.row;
    t := PutCell(s, id, WithRow(s.cells[id], if row.status.PendingDisable? then row else CLOSING));
    NextIsStep(s, Disable(id, false), t);
    OneConnectionBlocksRecovery(t, id);
  }
}
