/** What recovery leaves as it is, and how it can always be brought to complete: a rotation that overwrites a
    pending disable or delete, and the disables and deletes that clear what recovery cannot finish. */
module ConnectionRepair {
  import opened ConnectionModel
  import opened ConnectionSteps
  import opened ConnectionRotation
  import opened ConnectionRecovery
  import opened ConnectionRuns

  // ---- leaving the way out ----

  /** Disabled, or on the way to being disabled or deleted. */
  predicate OnTheWayOut(status: CredentialStatus) { status.PendingDisable? || status.PendingDelete? || status.Disabled? }

  predicate LeavingAt(s: Stores, id: Id) { id in s.cells && OnTheWayOut(s.cells[id].connection.row.status) }

  /** The operation is a rotation of the connection whose new row stays stored. */
  predicate Revives(s: Stores, op: Operation, id: Id) {
    && op.Rotate? && op.id == id && id in s.cells && op.reply.Ok?
    && NewRowStays(s.cells[id], Discovered(s.cells[id], op.reply), op.path)
  }

  lemma VisitStaysOnTheWayOut(s: Stores, t: Stores, k: Id, reply: Reply, done: bool, id: Id)
    requires Visit(s, t, k, reply, done) && LeavingAt(s, id) && id in t.cells
    ensures LeavingAt(t, id)
  {
    VisitTouchesOne(s, t, k, reply, done);
  }

  lemma {:induction false} VisitsStayOnTheWayOut(start: Stores, s: Stores, visited: set<Id>, replies: Id -> Reply, id: Id)
    requires Visits(start, s, visited, replies) && LeavingAt(start, id) && id in s.cells
    ensures LeavingAt(s, id)
    decreases visited
  {
    if !(visited == {} && s == start) {
      var k, p :| k in visited && Visits(start, p, visited - {k}, replies) && Visit(p, s, k, replies(k), true);
      VisitTouchesOne(p, s, k, replies(k), true);
      VisitsStayOnTheWayOut(start, p, visited - {k}, replies, id);
      VisitStaysOnTheWayOut(p, s, k, replies(k), true, id);
    }
  }

  lemma RecoverStaysOnTheWayOut(s: Stores, t: Stores, replies: Id -> Reply, done: bool, id: Id)
    requires RecoverStops(s, t, replies, done) && LeavingAt(s, id) && id in t.cells
    ensures LeavingAt(t, id)
  {
    var mid, visited := RecoverVisits(s, t, replies, done);
    if t.cells == mid.cells {
      VisitsStayOnTheWayOut(s, mid, visited, replies, id);
    } else {
      var k :| k in s.cells && k !in visited && Visit(mid, t, k, replies(k), false);
      VisitTouchesOne(mid, t, k, replies(k), false);
      VisitsStayOnTheWayOut(s, mid, visited, replies, id);
      VisitStaysOnTheWayOut(mid, t, k, replies(k), false, id);
    }
  }

  lemma RotateLeavesTheWayOutExactly(s: Stores, t: Stores, op: Operation, id: Id)
    requires op.Rotate? && Next(s, op, t) && LeavingAt(s, id) && id in t.cells
    ensures LeavingAt(t, id) <==> !Revives(s, op, id)
  {
    if op.id == id && !op.path.BeforeGate? {
      var cell, ref := s.cells[id], s.cells[id].connection.credentialRef;
      RotationRow(cell, s.secrets[ref], op.value, Discovered(cell, op.reply), op.path);
    }
  }

  lemma OthersStayOnTheWayOut(s: Stores, op: Operation, t: Stores, id: Id)
    requires Sound(s) && Next(s, op, t) && LeavingAt(s, id) && id in t.cells && !op.Rotate? && !op.Recover?
    ensures LeavingAt(t, id)
  {}

  /** One operation takes a connection off the way out exactly when it is a rotation whose new row stays. */
  lemma LeavesTheWayOutExactly(s: Stores, op: Operation, t: Stores, id: Id)
    requires Sound(s) && Next(s, op, t) && LeavingAt(s, id) && id in t.cells
    ensures LeavingAt(t, id) <==> !Revives(s, op, id)
  {
    match op {
      case Rotate(_, _, _, _, _) => RotateLeavesTheWayOutExactly(s, t, op, id);
      case Recover(replies, done) => RecoverStaysOnTheWayOut(s, t, replies, done, id);
      case _ => OthersStayOnTheWayOut(s, op, t, id);
    }
  }

  /** Per operation: a connection that is there was there before unless it is new, and leaves the way out only
      when it is revived. */
  ghost predicate WayOutChain(states: seq<Stores>, ops: seq<Operation>, id: Id) {
    && |states| == |ops| + 1
    && forall i {:trigger ops[i]} :: 0 <= i < |ops| && LeavingAt(states[i], id) && id in states[i + 1].cells ==>
         (LeavingAt(states[i + 1], id) <==> !Revives(states[i], ops[i], id))
  }

  lemma RunsAreWayOutChains(states: seq<Stores>, ops: seq<Operation>, id: Id)
    requires IsRun(states, ops)
    ensures WayOutChain(states, ops, id)
  {
    forall i | 0 <= i < |ops| && LeavingAt(states[i], id) && id in states[i + 1].cells
      ensures LeavingAt(states[i + 1], id) <==> !Revives(states[i], ops[i], id)
    {
      RunsAreSound(states, ops, i);
      LeavesTheWayOutExactly(states[i], ops[i], states[i + 1], id);
    }
  }

  ghost predicate RevivedBetween(states: seq<Stores>, ops: seq<Operation>, m: nat, n: nat, id: Id)
    requires m <= n <= |ops| < |states|
  {
    exists i :: m <= i < n && LeavingAt(states[i], id) && Revives(states[i], ops[i], id)
  }

  lemma {:induction false} ChainedReviving(states: seq<Stores>, ops: seq<Operation>, m: nat, n: nat, id: Id)
    requires WayOutChain(states, ops, id) && m <= n <= |ops| && LeavingAt(states[m], id)
    requires forall i :: m <= i <= n ==> id in states[i].cells
    ensures LeavingAt(states[n], id) || RevivedBetween(states, ops, m, n, id)
    decreases n
  {
    if m < n {
      ChainedReviving(states, ops, m, n - 1, id);
      if RevivedBetween(states, ops, m, n - 1, id) {
        var i :| m <= i < n - 1 && LeavingAt(states[i], id) && Revives(states[i], ops[i], id);
        assert RevivedBetween(states, ops, m, n, id);
      } else if !LeavingAt(states[n], id) {
        assert Revives(states[n - 1], ops[n - 1], id);
      }
    }
  }

  /** In every run, a disable or delete that was started is only lost to a rotation: as long as the connection
      exists it stays on the way out, unless a rotation stored its new row in between. */
  lemma StartedDisableIsLostOnlyToRotation(states: seq<Stores>, ops: seq<Operation>, m: nat, n: nat, id: Id)
    requires IsRun(states, ops) && m <= n <= |ops| && LeavingAt(states[m], id) && id in states[n].cells
    ensures LeavingAt(states[n], id) || RevivedBetween(states, ops, m, n, id)
  {
    RunsAreWayOutChains(states, ops, id);
    RunsAreSound(states, ops, m);
    forall i | m <= i <= n ensures id in states[i].cells {
      RunsEvolve(states, ops, m, i);
      RunsEvolve(states, ops, i, n);
    }
    ChainedReviving(states, ops, m, n, id);
  }

  // ---- half disabled for good ----

  /** The connection and its secret are as they were. */
  predicate Same(s: Stores, t: Stores, id: Id) {
    && id in s.cells && id in t.cells && t.cells[id] == s.cells[id]
    && var ref := s.cells[id].connection.credentialRef;
       (ref in t.secrets <==> ref in s.secrets) && (ref in s.secrets ==> t.secrets[ref] == s.secrets[ref])
  }

  predicate PassedBy(s: Stores, id: Id) {
    id in s.cells && s.cells[id].connection.row.status.Valid? && !s.cells[id].connection.row.enabled
  }

  lemma VisitPassesBy(s: Stores, t: Stores, k: Id, reply: Reply, done: bool, id: Id)
    requires Sound(s) && Visit(s, t, k, reply, done) && PassedBy(s, id)
    ensures Same(s, t, id)
  {
    if k != id {
      VisitTouchesOne(s, t, k, reply, done);
      VisitKeepsOtherSecrets(s, t, k, reply, done, s.cells[id].connection.credentialRef);
    }
  }

  lemma VisitKeepsOtherSecrets(s: Stores, t: Stores, k: Id, reply: Reply, done: bool, r: Id)
    requires Visit(s, t, k, reply, done) && r != s.cells[k].connection.credentialRef
    ensures (r in t.secrets <==> r in s.secrets) && (r in s.secrets ==> t.secrets[r] == s.secrets[r])
  {}

  lemma {:induction false} VisitsPassBy(start: Stores, s: Stores, visited: set<Id>, replies: Id -> Reply, id: Id)
    requires Sound(start) && visited <= start.cells.Keys && Visits(start, s, visited, replies) && PassedBy(start, id)
    ensures Same(start, s, id)
    decreases visited
  {
    if !(visited == {} && s == start) {
      var k, p :| k in visited && Visits(start, p, visited - {k}, replies) && Visit(p, s, k, replies(k), true);
      VisitsPassBy(start, p, visited - {k}, replies, id);
      VisitsAchieve(start, p, visited - {k}, replies);
      VisitPassesBy(p, s, k, replies(k), true, id);
    }
  }

  lemma {:induction false} QuarantinesPassBy(start: Stores, from: Stores, s: Stores, seen: set<Id>, id: Id)
    requires seen <= start.secrets.Keys && Quarantines(start, from, s, seen) && id in start.cells && Same(start, from, id)
    ensures Same(start, s, id)
    decreases seen
  {
    if !(seen == {} && s == from) {
      var r, p :| r in seen && Quarantines(start, from, p, seen - {r}) && QuarantineStops(start, p, s, r, true);
      QuarantinesPassBy(start, from, p, seen - {r}, id);
      assert Owned(start, start.cells[id].connection.credentialRef);
    }
  }

  /** Completed recovery leaves a valid connection that is not enabled, and its secret, as they are. */
  lemma RecoveryPassesBy(s: Stores, t: Stores, replies: Id -> Reply, id: Id)
    requires Sound(s) && RecoverStops(s, t, replies, true) && PassedBy(s, id)
    ensures Same(s, t, id)
  {
    var mid :| Completes(s, t, mid, replies);
    VisitsPassBy(s, mid, s.cells.Keys, replies, id);
    QuarantinesPassBy(s, mid, t, s.secrets.Keys, id);
  }

  /** A disable that stops after its gate. */
  function Gated(s: Stores, id: Id): Stores
    requires id in s.cells
  {
    var cell := s.cells[id];
    PutCell(s, id, WithRow(cell, if cell.connection.row.status.PendingDisable? then cell.connection.row else CLOSING))
  }

  lemma DisableStopsAtGate(s: Stores, id: Id)
    requires Sound(s) && id in s.cells
    ensures Next(s, Disable(id, false), Gated(s, id)) && Sound(Gated(s, id))
    ensures var c := Gated(s, id).cells[id].connection;
            c == s.cells[id].connection.(row := c.row) && c.row.status.PendingDisable? && !c.row.enabled
  {
    NextIsStep(s, Disable(id, false), Gated(s, id));
  }

  lemma GateKeepsRotatable(s: Stores, id: Id, reply: Reply)
    requires Rotatable(s, id, reply)
    ensures Rotatable(Gated(s, id), id, reply)
  {}

  /** A disable that stops after its gate, then a completed rotation: the connection is valid, not enabled, and
      its secret is live. Recovery can finish it with any reply, and no completed recovery changes that. */
  lemma RotationLosesDisable(s: Stores, id: Id, value: string, reply: Reply) returns (gated: Stores, rotated: Stores, path: Path)
    requires Sound(s) && Rotatable(s, id, reply)
    ensures Next(s, Disable(id, false), gated) && id in gated.cells && gated.cells[id].connection.row.status.PendingDisable?
    ensures Next(gated, Rotate(id, value, reply, path, RotationDone), rotated)
    ensures PassedBy(rotated, id) && Live(rotated.secrets, rotated.cells[id].connection)
    ensures forall other :: CanFinish(rotated, id, other)
    ensures forall replies, t :: RecoverStops(rotated, t, replies, true) ==> Same(rotated, t, id)
  {
    gated := Gated(s, id);
    DisableStopsAtGate(s, id);
    GateKeepsRotatable(s, id, reply);
    rotated, path := CompletesOn(gated, id, value, reply);
    forall replies, t | RecoverStops(rotated, t, replies, true) ensures Same(rotated, t, id) {
      RecoveryPassesBy(rotated, t, replies, id);
    }
  }

  /** A rotation of a connection that is not enabled leaves nothing for recovery to do. */
  lemma CompletesOn(s: Stores, id: Id, value: string, reply: Reply) returns (t: Stores, path: Path)
    requires Sound(s) && Rotatable(s, id, reply) && !s.cells[id].connection.row.enabled
    ensures Next(s, Rotate(id, value, reply, path, RotationDone), t) && Sound(t)
    ensures PassedBy(t, id) && Live(t.secrets, t.cells[id].connection) && forall other :: CanFinish(t, id, other)
  {
    t, path := RotationCanComplete(s, id, value, reply);
    CompletedRotation(s, t, id, value, reply, path);
    NextIsStep(s, Rotate(id, value, reply, path, RotationDone), t);
  }

  // ---- bringing recovery to complete ----

  /** A run of operations between two states. */
  ghost predicate Leads(s: Stores, ops: seq<Operation>, t: Stores)
    decreases |ops|
  {
    if ops == [] then t == s else exists m :: Next(s, ops[0], m) && Leads(m, ops[1..], t)
  }

  lemma {:induction false} LeadsOn(s: Stores, ops: seq<Operation>, m: Stores, more: seq<Operation>, t: Stores)
    requires Leads(s, ops, m) && Leads(m, more, t)
    ensures Leads(s, ops + more, t)
    decreases |ops|
  {
    if ops == [] {
      assert ops + more == more;
    } else {
      var n :| Next(s, ops[0], n) && Leads(n, ops[1..], m);
      LeadsOn(n, ops[1..], m, more, t);
      assert (ops + more)[0] == ops[0] && (ops + more)[1..] == ops[1..] + more;
    }
  }

  predicate AllClear(ops: seq<Operation>, ids: set<Id>) {
    forall i :: 0 <= i < |ops| ==> (ops[i].Disable? || ops[i].Delete?) && ops[i].id in ids
  }

  /** Every other connection and its secret are as they were. */
  ghost predicate SameBut(s: Stores, t: Stores, ids: set<Id>) {
    t.cells.Keys <= s.cells.Keys && forall k :: k in s.cells && k !in ids ==> Same(s, t, k)
  }

  lemma DisableLeads(s: Stores, id: Id) returns (t: Stores)
    requires Sound(s) && id in s.cells && s.cells[id].connection.credentialRef in s.secrets
    ensures Leads(s, [Disable(id, true)], t) && Sound(t) && SameBut(s, t, {id})
    ensures id in t.cells && forall reply :: CanFinish(t, id, reply)
  {
    var cell, ref := s.cells[id], s.cells[id].connection.credentialRef;
    var row := if cell.connection.row.status.PendingDisable? then cell.connection.row else CLOSING;
    var dark := PutSecret(s, ref, s.secrets[ref].(disabled := true));
    t := PutCell(dark, id, WithRow(cell, row.(status := Disabled, health := HealthDisabled)));
    assert [Disable(id, true)][1..] == [];
    assert Leads(t, [], t) && Next(s, [Disable(id, true)][0], t);
    NextIsStep(s, Disable(id, true), t);
    forall k | k in s.cells && k !in {id} ensures Same(s, t, k) {
      assert s.cells[k].connection.credentialRef != ref;
    }
  }

  lemma DeleteGated(s: Stores, id: Id) returns (t: Stores)
    requires Sound(s) && id in s.cells && !s.cells[id].connection.row.enabled
    ensures Leads(s, [Delete(id, true)], t) && Sound(t) && SameBut(s, t, {id}) && id !in t.cells
  {
    var ref := s.cells[id].connection.credentialRef;
    t := s.(cells := s.cells - {id}, secrets := s.secrets - {ref});
    NextIsStep(s, Delete(id, true), t);
    assert [Delete(id, true)][1..] == [];
    assert Leads(t, [], t) && Next(s, [Delete(id, true)][0], t);
    forall k | k in s.cells && k !in {id} ensures Same(s, t, k) {
      assert s.cells[k].connection.credentialRef != ref;
    }
  }

  lemma GateLeads(s: Stores, id: Id, gated: Stores)
    requires Sound(s) && id in s.cells && gated == Gated(s, id)
    ensures Leads(s, [Disable(id, false)], gated) && SameBut(s, gated, {id})
  {
    DisableStopsAtGate(s, id);
    assert [Disable(id, false)][1..] == [];
    assert Leads(gated, [], gated) && Next(s, [Disable(id, false)][0], gated);
  }

  lemma DeleteLeads(s: Stores, id: Id) returns (t: Stores)
    requires Sound(s) && id in s.cells
    ensures Leads(s, [Disable(id, false), Delete(id, true)], t) && Sound(t) && SameBut(s, t, {id}) && id !in t.cells
  {
    var gated := Gated(s, id);
    DisableStopsAtGate(s, id);
    GateLeads(s, id, gated);
    t := DeleteGated(gated, id);
    LeadsOn(s, [Disable(id, false)], gated, [Delete(id, true)], t);
    assert [Disable(id, false)] + [Delete(id, true)] == [Disable(id, false), Delete(id, true)];
    SameButTwice(s, gated, t, id);
  }

  lemma SameButTwice(s: Stores, m: Stores, t: Stores, id: Id)
    requires SameBut(s, m, {id}) && SameBut(m, t, {id})
    ensures SameBut(s, t, {id})
  {
    forall k | k in s.cells && k !in {id} ensures Same(s, t, k) {
      assert Same(s, m, k) && Same(m, t, k);
    }
  }

  lemma OneCleared(s: Stores, id: Id, reply: Reply) returns (ops: seq<Operation>, t: Stores)
    requires Sound(s) && id in s.cells
    ensures Leads(s, ops, t) && |ops| <= 2 && AllClear(ops, {id}) && Sound(t) && SameBut(s, t, {id})
    ensures id in t.cells ==> CanFinish(t, id, reply)
  {
    if s.cells[id].connection.credentialRef in s.secrets {
      ops := [Disable(id, true)];
      t := DisableLeads(s, id);
    } else {
      ops := [Disable(id, false), Delete(id, true)];
      t := DeleteLeads(s, id);
    }
  }

  lemma SameButComposes(s: Stores, m: Stores, t: Stores, id: Id, ids: set<Id>)
    requires SameBut(s, m, {id}) && SameBut(m, t, ids) && id !in ids
    ensures SameBut(s, t, ids + {id})
    ensures m.cells.Keys <= s.cells.Keys && t.cells.Keys <= s.cells.Keys
  {
    forall k | k in s.cells && k !in ids + {id} ensures Same(s, t, k) {
      assert Same(s, m, k) && Same(m, t, k);
    }
  }

  lemma ClearComposes(ops: seq<Operation>, more: seq<Operation>, id: Id, ids: set<Id>)
    requires AllClear(ops, {id}) && AllClear(more, ids)
    ensures AllClear(ops + more, ids + {id})
  {}

  lemma OthersStillFinish(s: Stores, m: Stores, id: Id, ids: set<Id>, replies: Id -> Reply)
    requires SameBut(s, m, {id}) && (id in m.cells ==> CanFinish(m, id, replies(id)))
    requires forall k :: k in s.cells && k !in ids ==> CanFinish(s, k, replies(k))
    ensures forall k :: k in m.cells && k !in ids - {id} ==> CanFinish(m, k, replies(k))
  {
    forall k | k in m.cells && k !in ids - {id} ensures CanFinish(m, k, replies(k)) {
      if k != id {
        assert Same(s, m, k);
        SameCanFinish(s, m, k, replies(k));
      }
    }
  }

  /** Connection by connection, until every visit can be finished. */
  lemma {:induction false} AllCleared(s: Stores, ids: set<Id>, replies: Id -> Reply) returns (ops: seq<Operation>, t: Stores)
    requires Sound(s) && forall k :: k in s.cells && k !in ids ==> CanFinish(s, k, replies(k))
    ensures Leads(s, ops, t) && |ops| <= 2 * |ids| && AllClear(ops, ids) && Sound(t) && SameBut(s, t, ids)
    ensures forall k :: k in t.cells ==> CanFinish(t, k, replies(k))
    decreases ids
  {
    if ids == {} {
      ops, t := [], s;
    } else {
      var id :| id in ids;
      var first, m := [], s;
      if id in s.cells { first, m := OneCleared(s, id, replies(id)); }
      var rest := ids - {id};
      OthersStillFinish(s, m, id, ids, replies);
      var more;
      more, t := AllCleared(m, rest, replies);
      ops := first + more;
      LeadsOn(s, first, m, more, t);
      SameButComposes(s, m, t, id, rest);
      ClearComposes(first, more, id, rest);
      assert rest + {id} == ids;
    }
  }

  /** The connections that recovery cannot finish with these replies. */
  function Stuck(s: Stores, replies: Id -> Reply): set<Id> { set id | id in s.cells && !CanFinish(s, id, replies(id)) }

  /** From every sound state, at most two disables or deletes for each connection that recovery cannot finish,
      and none for any other, lead to a state from which recovery completes. */
  lemma RecoveryCanBeUnblocked(s: Stores, replies: Id -> Reply) returns (ops: seq<Operation>, t: Stores, recovered: Stores)
    requires Sound(s)
    ensures Leads(s, ops, t) && |ops| <= 2 * |Stuck(s, replies)| && AllClear(ops, Stuck(s, replies))
    ensures SameBut(s, t, Stuck(s, replies))
    ensures RecoverStops(t, recovered, replies, true)
  {
    ops, t := AllCleared(s, Stuck(s, replies), replies);
    RecoveryCompletesExactly(t, replies);
    recovered :| RecoverStops(t, recovered, replies, true);
  }
}
