/**
 The sections of the lock table keep the invariant of the runtime.
 */
module LockSteps {
  import opened Basics
  import opened LockTable
  import opened LockAccounting
  import opened TaskPool
  import opened WaitGraph
  import opened Runtime
  import opened Invariants

  // What a section that runs for `key` does to the lock table.
  ghost predicate TableMove(t: Table, u: Table, key: nat) {
    && (forall id: nat :: Rec(u, id) == Rec(t, id) || (Ours(Owner(t, id), key) && Ours(Owner(u, id), key)))
    && (forall id: nat :: Owner(t, id) >= 0 && Owner(u, id) < 0 ==> id in u.notified)
    && (forall k: nat :: k != key ==>
          (k in u.edges <==> k in t.edges) && (k in t.edges ==> u.edges[k] == t.edges[k]))
  }

  // Between two pcs of the same standing: same claim, counted the same way, in task context.
  predicate SameStanding(a: Pc, b: Pc) {
    && ClaimOf(a) == ClaimOf(b)
    && !Unstacked(a) && !Unstacked(b) && !a.Exited? && !b.Exited?
    && ((a.LockWait? || a.TaskWait?) <==> (b.LockWait? || b.TaskWait?))
  }

  lemma CurIsLive(s: State, i: nat)
    requires i < |s.threads| && ShapeOk(s, i) && s.threads[i].stack != []
    ensures Live(s, Cur(s.threads[i]))
  {
    var d := |s.threads[i].stack| - 1;
    assert (i == 0 && d == 0) || HasLoc(s, s.threads[i].stack[d], OnStack(i, d));
  }

  lemma OwnStackDistinct(s: State, i: nat, d: nat)
    requires i < |s.threads| && ShapeOk(s, i) && d < |s.threads[i].stack| - 1
    ensures s.threads[i].stack[d] != Cur(s.threads[i])
  {
    var e := |s.threads[i].stack| - 1;
    assert (i == 0 && e == 0) || HasLoc(s, s.threads[i].stack[e], OnStack(i, e));
    assert (i == 0 && d == 0) || HasLoc(s, s.threads[i].stack[d], OnStack(i, d));
  }

  lemma TableStepFrame(s: State, i: nat, t: Table, pc: Pc)
    requires Inv(s) && i < |s.threads| && s.threads[i].stack != []
    requires TableMove(s.table, t, Cur(s.threads[i]))
    ensures Frame(s, SetPc(SetTable(s, t), i, pc), i)
  {
    var u := SetPc(SetTable(s, t), i, pc);
    var key := Cur(s.threads[i]);
    forall id: nat
      ensures Owner(u.table, id) == Owner(s.table, id)
              || (Mine(s, i, Owner(s.table, id)) && Mine(s, i, Owner(u.table, id)))
    {
      assert Rec(t, id) == Rec(s.table, id) || (Ours(Owner(s.table, id), key) && Ours(Owner(t, id), key));
    }
    assert FrameLocks(s, u, i);
    forall j | j != i && j in u.sleepLock && j < |s.threads| && s.threads[j].pc.LockWait?
      ensures Owner(s.table, s.threads[j].pc.id) >= 0 ==> Owner(u.table, s.threads[j].pc.id) >= 0
    {
      assert !Announced(s, t, j);
    }
  }

  lemma TableStepSuspended(s: State, i: nat, t: Table, pc: Pc)
    requires Inv(s) && i < |s.threads| && s.threads[i].stack != []
    requires TableMove(s.table, t, Cur(s.threads[i]))
    ensures SuspendedOk(SetPc(SetTable(s, t), i, pc), i)
  {
    var u := SetPc(SetTable(s, t), i, pc);
    var th := s.threads[i];
    assert ThreadOk(s, i);
    forall d | 0 <= d < |th.stack| - 1
      ensures && th.stack[d] in u.table.edges && u.table.edges[th.stack[d]] == OnTask(th.stack[d + 1])
              && OwnsNothing(u.table, th.stack[d])
              && (d < |th.waits| ==> ValidTask(u.pool, th.waits[d]))
    {
      OwnStackDistinct(s, i, d);
      forall id: nat ensures Owner(u.table, id) != th.stack[d] {
        assert Owner(s.table, id) != th.stack[d];
      }
    }
  }

  lemma TableStepTasks(s: State, i: nat, t: Table, pc: Pc)
    requires Inv(s) && i < |s.threads| && SameStanding(s.threads[i].pc, pc)
    ensures TasksOk(SetPc(SetTable(s, t), i, pc)) && WorkersOk(SetPc(SetTable(s, t), i, pc))
  {
    var u := SetPc(SetTable(s, t), i, pc);
    forall task | 1 <= task <= |u.loc| ensures LocOk(u, task) {
      assert LocOk(s, task);
    }
    assert forall j :: 0 <= j < |s.pool.queue| ==> HasLoc(u, s.pool.queue[j], Queued);
    assert IdleSet(u) == IdleSet(s);
    assert BlockedSet(u) == BlockedSet(s);
  }

  lemma TableStepLocks(s: State, i: nat, t: Table, pc: Pc)
    requires Inv(s) && i < |s.threads| && s.threads[i].stack != []
    requires TableMove(s.table, t, Cur(s.threads[i]))
    requires TableOk(t)
    ensures LocksOk(SetPc(SetTable(s, t), i, pc))
  {
    var u := SetPc(SetTable(s, t), i, pc);
    var key := Cur(s.threads[i]);
    assert ThreadOk(s, i);
    CurIsLive(s, i);
    SameLocksOk(t, u.table);
    forall id: nat | Owner(u.table, id) >= 0 ensures Live(u, Owner(u.table, id)) {
      assert Owner(u.table, id) == Owner(t, id);
      assert Rec(t, id) == Rec(s.table, id) || Ours(Owner(t, id), key);
    }
    forall k: nat | k in u.table.edges ensures Live(u, k) {
    }
  }

  // The set of announced locks is not part of the accounting or of the graph.
  lemma SameLocksOk(t: Table, u: Table)
    requires TableOk(t) && u == t.(notified := u.notified)
    ensures TableOk(u)
  {
    HeldUnchanged(t, u);
    forall k: nat, id: nat
      ensures Uses(u, k, id, 0, []) == if Owner(u, id) == k then Rec(u, id).explicitDepth else 0
    {
      assert Uses(t, k, id, 0, []) == if Owner(t, id) == k then Rec(t, id).explicitDepth else 0;
    }
  }

  // A section that only works on the lock table keeps the invariant when its own thread is in order.
  lemma TableStep(s: State, i: nat, t: Table, pc: Pc)
    requires Inv(s) && i < |s.threads| && s.threads[i].stack != []
    requires !Sleeping(s, i)
    requires SameStanding(s.threads[i].pc, pc)
    requires TableMove(s.table, t, Cur(s.threads[i]))
    requires TableOk(t)
    requires PcOk(SetPc(SetTable(s, t), i, pc), i)
    ensures Inv(SetPc(SetTable(s, t), i, pc))
  {
    var u := SetPc(SetTable(s, t), i, pc);
    assert ThreadOk(s, i);
    TableStepFrame(s, i, t, pc);
    TableStepSuspended(s, i, t, pc);
    TableStepTasks(s, i, t, pc);
    TableStepLocks(s, i, t, pc);
    assert ShapeOk(u, i) by {
      var th := s.threads[i];
      forall d | 0 <= d < |th.stack| ensures (i == 0 && d == 0) || HasLoc(u, th.stack[d], OnStack(i, d)) {
        assert (i == 0 && d == 0) || HasLoc(s, th.stack[d], OnStack(i, d));
      }
    }
    assert SleepOk(u, i);
    ThreadsKeepOk(s, u, i);
    assert RecordsOk(u) && EndingOk(u);
  }

  // ---------------------------------------------------------------- the sections one by one

  lemma ReleasedKeepsInv(s: State, i: nat, r: Released, pc: Pc)
    requires Inv(s) && i < |s.threads| && s.threads[i].stack != []
    requires !Sleeping(s, i)
    requires SameStanding(s.threads[i].pc, pc)
    requires pc.User? && s.threads[i].pc.User?
    requires r.Ok? ==> TableOk(r.t) && Moves(s.table, r.t, Cur(s.threads[i]))
    ensures ReleasedStep(s, i, r, pc).fatal || Inv(ReleasedStep(s, i, r, pc))
  {
    assert ThreadOk(s, i);
    if r.Ok? {
      TableStep(s, i, r.t, pc);
    }
  }

  lemma ReleaseAllTable(t: Table, key: nat)
    requires TableOk(t)
    ensures var r := ReleaseAll(t, key);
            && r.Ok? && TableOk(r.t) && TableMove(t, r.t, key)
            && OwnsNothing(r.t, key) && key !in r.t.edges
  {
    ReleaseAllReleasesAll(t, key);
    var u := ReleaseAll(t, key).t;
    RecMoves(t, t, u.(edges := t.edges), u, key);
  }

  // Who owns what decides the owner part of a move; edges are a separate matter.
  lemma RecMoves(t: Table, t1: Table, u: Table, u1: Table, key: nat)
    requires Moves(t, u, key)
    requires t.locks == t1.locks && t.notified == t1.notified && u.locks == u1.locks && u.notified == u1.notified
    ensures (forall k: nat :: k != key ==>
               (k in u1.edges <==> k in t1.edges) && (k in t1.edges ==> u1.edges[k] == t1.edges[k]))
            ==> TableMove(t1, u1, key)
  {
    forall id: nat ensures Rec(t1, id) == Rec(t, id) && Rec(u1, id) == Rec(u, id) {
    }
  }

  lemma FreedPcOk(s: State, i: nat, t: Table, pc: Pc)
    requires i < |s.threads| && s.threads[i].stack != []
    requires OwnsNothing(t, Cur(s.threads[i])) && Cur(s.threads[i]) !in t.edges
    requires pc.User? || (pc.Released? && Cur(s.threads[i]) > 0)
    ensures PcOk(SetPc(SetTable(s, t), i, pc), i)
  {
    var u := SetPc(SetTable(s, t), i, pc);
    forall id: nat ensures Owner(u.table, id) != Cur(s.threads[i]) {
      assert Owner(t, id) != Cur(s.threads[i]);
    }
  }

  // sync_release_all at the end of a task or of the main program.
  lemma ReleaseAllKeepsInv(s: State, i: nat, pc: Pc)
    requires Inv(s) && i < |s.threads| && s.threads[i].stack != []
    requires !Sleeping(s, i)
    requires SameStanding(s.threads[i].pc, pc)
    requires pc.User? || (pc.Released? && Cur(s.threads[i]) > 0)
    ensures Inv(ReleasedStep(s, i, ReleaseAll(s.table, Cur(s.threads[i])), pc))
  {
    var key := Cur(s.threads[i]);
    ReleaseAllTable(s.table, key);
    FreedPcOk(s, i, ReleaseAll(s.table, key).t, pc);
    TableStep(s, i, ReleaseAll(s.table, key).t, pc);
  }

  // Edges do not take part in the accounting.
  lemma EdgesKeepTableOk(t: Table, u: Table)
    requires TableOk(t) && u == t.(edges := u.edges)
    ensures TableOk(u)
  {
    HeldUnchanged(t, u);
    forall k: nat, id: nat
      ensures Uses(u, k, id, 0, []) == if Owner(u, id) == k then Rec(u, id).explicitDepth else 0
    {
      assert Uses(t, k, id, 0, []) == if Owner(t, id) == k then Rec(t, id).explicitDepth else 0;
    }
  }

  // The edge that sync_note_wait_task writes, whatever the cycle detector then says about it.
  lemma NotedKeepsInv(s: State, i: nat, target: nat, pc: Pc)
    requires Inv(s) && i < |s.threads| && s.threads[i].stack != []
    requires !Sleeping(s, i)
    requires SameStanding(s.threads[i].pc, pc)
    requires PcOk(SetPc(SetTable(s, Noted(s.table, Cur(s.threads[i]), target)), i, pc), i)
    ensures Inv(SetPc(SetTable(s, Noted(s.table, Cur(s.threads[i]), target)), i, pc))
  {
    var u := Noted(s.table, Cur(s.threads[i]), target);
    EdgesKeepTableOk(s.table, u);
    TableStep(s, i, u, pc);
  }

  // sync_clear_wait, and the erasure of the edge after a wait for a lock.
  lemma ClearKeepsInv(s: State, i: nat, pc: Pc)
    requires Inv(s) && i < |s.threads| && s.threads[i].stack != []
    requires !Sleeping(s, i)
    requires SameStanding(s.threads[i].pc, pc) && (pc.User? || (pc.LockWoken? && Increasing(pc.ids)))
    ensures var t := s.table.(edges := s.table.edges - {Cur(s.threads[i])});
            Inv(SetPc(SetTable(s, t), i, pc))
  {
    var t := s.table.(edges := s.table.edges - {Cur(s.threads[i])});
    EdgesKeepTableOk(s.table, t);
    TableStep(s, i, t, pc);
  }

  lemma QuietTable(s: State, t: Table)
    requires t.notified == {}
    ensures SetTable(s, t) == s.(table := t)
  {
    assert (set j | j in s.sleepLock && !Announced(s, t, j)) == s.sleepLock;
  }

  lemma BlockedTable(t: Table, key: nat, ids: seq<nat>, explicitly: bool)
    requires TableOk(t) && Enter(t, key, ids, explicitly).Blocked?
    ensures var r := Enter(t, key, ids, explicitly);
            var u := r.t.(edges := r.t.edges[key := OnLock(r.on)]);
            && Owner(r.t, r.on) >= 0 && Owner(r.t, r.on) != key
            && TableOk(u) && TableMove(t, u, key)
  {
    BlockedEnterIsNoOp(t, key, ids, explicitly);
    var r := Enter(t, key, ids, explicitly);
    var u := r.t.(edges := r.t.edges[key := OnLock(r.on)]);
    forall id: nat ensures Rec(u, id) == Rec(t, id) && Rec(r.t, id) == Rec(t, id) {
    }
    EdgesKeepTableOk(r.t, u);
  }

  // A blocked round of SYNC_ENTER with its edge, whatever the cycle detector then says about it.
  lemma BlockedKeepsInv(s: State, i: nat, ids: seq<nat>, explicitly: bool)
    requires Inv(s) && i < |s.threads| && s.threads[i].stack != []
    requires !Sleeping(s, i)
    requires SameStanding(s.threads[i].pc, User)
    requires Increasing(ids) && Enter(s.table, Cur(s.threads[i]), ids, explicitly).Blocked?
    ensures var key := Cur(s.threads[i]);
            var r := Enter(s.table, key, ids, explicitly);
            var u := r.t.(edges := r.t.edges[key := OnLock(r.on)]);
            && Owner(r.t, r.on) >= 0 && Owner(r.t, r.on) != key
            && Inv(SetPc(SetTable(s, u), i, LockNoted(ids, explicitly, r.on)))
  {
    var key := Cur(s.threads[i]);
    var r := Enter(s.table, key, ids, explicitly);
    BlockedTable(s.table, key, ids, explicitly);
    BlockedEnterIsNoOp(s.table, key, ids, explicitly);
    TableStep(s, i, r.t.(edges := r.t.edges[key := OnLock(r.on)]), LockNoted(ids, explicitly, r.on));
  }

  // One round of SYNC_ENTER from a table in which the task does not wait.
  lemma EnterKeepsInv(s: State, i: nat, ids: seq<nat>, explicitly: bool)
    requires Inv(s) && i < |s.threads| && s.threads[i].stack != []
    requires !Sleeping(s, i)
    requires SameStanding(s.threads[i].pc, User)
    requires Cur(s.threads[i]) !in s.table.edges && Increasing(ids)
    ensures EnterStep(s, i, ids, explicitly).fatal || Inv(EnterStep(s, i, ids, explicitly))
  {
    var key := Cur(s.threads[i]);
    var r := Enter(s.table, key, ids, explicitly);
    if r.Entered? {
      EnterKeepsOk(s.table, key, ids, explicitly);
      TableStep(s, i, r.t, User);
    } else if r.Blocked? {
      BlockedKeepsInv(s, i, ids, explicitly);
    }
  }

  // After its wait for a lock a task erases its edge and tries the whole statement again.
  lemma LockWokenKeepsInv(s: State, i: nat)
    requires Inv(s) && CanStep(s, i, Run) && s.threads[i].pc.LockWoken?
    ensures RunStep(s, i).fatal || Inv(RunStep(s, i))
  {
    var pc := s.threads[i].pc;
    var key := Cur(s.threads[i]);
    var t := s.table.(edges := s.table.edges - {key});
    var s1 := s.(table := t);
    assert ThreadOk(s, i);
    ClearKeepsInv(s, i, pc);
    QuietTable(s, t);
    assert s.threads[i := s.threads[i]] == s.threads;
    assert SetPc(SetTable(s, t), i, pc) == s1;
    EnterKeepsInv(s1, i, pc.ids, pc.explicitly);
  }
}
