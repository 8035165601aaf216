/**
 The wait graph stays acyclic: an edge is only written after the cycle detector has cleared it, and a
 lock only passes to a task that does not wait.
 */
module AcyclicSteps {
  import opened Basics
  import opened LockTable
  import opened LockAccounting
  import opened TaskPool
  import opened WaitGraph
  import opened Runtime
  import opened Invariants
  import opened LockSteps

  lemma SameGraph(t: Table, u: Table)
    requires Acyclic(t) && t.edges == u.edges && forall id: nat :: Owner(u, id) == Owner(t, id)
    ensures Acyclic(u)
  {
    TruncationKeepsAcyclic(t, u);
  }

  // In a table whose task does not wait, taking and releasing locks cannot close a cycle.
  lemma MovesKeepAcyclic(t: Table, u: Table, key: nat)
    requires Acyclic(t) && Moves(t, u, key) && key !in t.edges
    ensures Acyclic(u)
  {
    forall k: nat
      ensures Succ(u, k) == Succ(t, k) || Succ(u, k).None? || Succ(u, Succ(u, k).value).None?
    {
      if k in t.edges && t.edges[k].OnLock? {
        assert Rec(u, t.edges[k].id) == Rec(t, t.edges[k].id) || Ours(Owner(u, t.edges[k].id), key);
      }
    }
    TruncationKeepsAcyclic(t, u);
  }

  lemma QuietedGraph(s: State, t: Table)
    requires Acyclic(t)
    ensures Acyclic(SetTable(s, t).table)
  {
    SameGraph(t, SetTable(s, t).table);
  }

  lemma ReleasedKeepsAcyclic(s: State, i: nat, r: Released, pc: Pc)
    requires Acyclic(s.table) && i < |s.threads| && s.threads[i].stack != []
    requires Cur(s.threads[i]) !in s.table.edges
    requires r.Ok? ==> Moves(s.table, r.t, Cur(s.threads[i]))
    ensures Acyclic(ReleasedStep(s, i, r, pc).table)
  {
    if r.Ok? {
      MovesKeepAcyclic(s.table, r.t, Cur(s.threads[i]));
      QuietedGraph(s, r.t);
    }
  }

  lemma ReleaseAllKeepsAcyclic(s: State, i: nat, pc: Pc)
    requires TableOk(s.table) && Acyclic(s.table) && i < |s.threads| && s.threads[i].stack != []
    requires Cur(s.threads[i]) !in s.table.edges
    ensures Acyclic(ReleasedStep(s, i, ReleaseAll(s.table, Cur(s.threads[i])), pc).table)
  {
    var key := Cur(s.threads[i]);
    ReleaseAllReleasesAll(s.table, key);
    var u := ReleaseAll(s.table, key).t;
    assert u.edges == s.table.edges;
    assert u.(edges := s.table.edges) == u;
    MovesKeepAcyclic(s.table, u, key);
    QuietedGraph(s, u);
  }

  // The set of announced locks is not part of the graph.
  lemma QuietedCycles(s: State, t: Table)
    requires ShortCycles(SetTable(s, t).table)
    ensures ShortCycles(t)
  {
    var u := SetTable(s, t).table;
    assert u == t.(notified := {});
    forall x: nat ensures Succ(u, x) == Succ(t, x) {
    }
    SameShortCycles(u, t);
  }

  lemma NoteKeepsAcyclic(s: State, i: nat, target: nat, pc: Pc)
    requires Acyclic(s.table) && i < |s.threads| && s.threads[i].stack != []
    requires ShortCycles(NoteStep(s, i, target, pc).table)
    ensures NoteStep(s, i, target, pc).fatal || Acyclic(NoteStep(s, i, target, pc).table)
  {
    hide ShortCycles, Acyclic;
    var key := Cur(s.threads[i]);
    var u := Noted(s.table, key, target);
    assert EdgeTarget(s.table, OnTask(target)) == Some(target);
    if !CycleLocked(u, target, key) {
      QuietedCycles(s, u);
      ClearedEdgeIsSafe(s.table, key, OnTask(target), target);
      QuietedGraph(s, u);
    }
  }

  lemma BlockedKeepsAcyclic(s: State, i: nat, ids: seq<nat>, explicitly: bool)
    requires TableOk(s.table) && Acyclic(s.table) && i < |s.threads| && s.threads[i].stack != []
    requires Enter(s.table, Cur(s.threads[i]), ids, explicitly).Blocked?
    requires ShortCycles(EnterStep(s, i, ids, explicitly).table)
    ensures EnterStep(s, i, ids, explicitly).fatal || Acyclic(EnterStep(s, i, ids, explicitly).table)
  {
    hide ShortCycles, Acyclic;
    var key := Cur(s.threads[i]);
    var r := Enter(s.table, key, ids, explicitly);
    BlockedEnterIsNoOp(s.table, key, ids, explicitly);
    forall id: nat ensures Owner(r.t, id) == Owner(s.table, id) {
      assert Rec(r.t, id) == Rec(s.table, id);
    }
    SameGraph(s.table, r.t);
    var u := r.t.(edges := r.t.edges[key := OnLock(r.on)]);
    assert EdgeTarget(r.t, OnLock(r.on)) == Some(Owner(r.t, r.on));
    hide Enter, TableOk;
    if !CycleLocked(u, Owner(r.t, r.on), key) {
      QuietedCycles(s, u);
      ClearedEdgeIsSafe(r.t, key, OnLock(r.on), Owner(r.t, r.on));
      QuietedGraph(s, u);
    }
  }

  lemma EnterKeepsAcyclic(s: State, i: nat, ids: seq<nat>, explicitly: bool)
    requires TableOk(s.table) && Acyclic(s.table) && i < |s.threads| && s.threads[i].stack != []
    requires Cur(s.threads[i]) !in s.table.edges
    requires ShortCycles(EnterStep(s, i, ids, explicitly).table)
    ensures EnterStep(s, i, ids, explicitly).fatal || Acyclic(EnterStep(s, i, ids, explicitly).table)
  {
    hide ShortCycles, Acyclic, TableOk;
    var key := Cur(s.threads[i]);
    var r := Enter(s.table, key, ids, explicitly);
    if r.Entered? {
      EnterKeepsOk(s.table, key, ids, explicitly);
      MovesKeepAcyclic(s.table, r.t, key);
      QuietedGraph(s, r.t);
    } else if r.Blocked? {
      BlockedKeepsAcyclic(s, i, ids, explicitly);
    }
  }

  lemma WokenKeepsAcyclic(s: State, i: nat)
    requires Inv(s) && Acyclic(s.table) && CanStep(s, i, Run) && s.threads[i].pc.LockWoken?
    requires ShortCycles(RunStep(s, i).table)
    ensures RunStep(s, i).fatal || Acyclic(RunStep(s, i).table)
  {
    hide ShortCycles, Acyclic;
    var key := Cur(s.threads[i]);
    var t := s.table.(edges := s.table.edges - {key});
    RemovingEdgeKeepsAcyclic(s.table, key);
    EdgesKeepTableOk(s.table, t);
    EnterKeepsAcyclic(s.(table := t), i, s.threads[i].pc.ids, s.threads[i].pc.explicitly);
  }

  lemma RunKeepsAcyclic(s: State, i: nat)
    requires Inv(s) && Acyclic(s.table) && CanStep(s, i, Run) && !s.threads[i].pc.User?
    requires ShortCycles(RunStep(s, i).table)
    ensures RunStep(s, i).fatal || Acyclic(RunStep(s, i).table)
  {
    hide ShortCycles, Acyclic, ThreadsOk, TasksOk, RecordsOk, WorkersOk, EndingOk, TableOk;
    hide EnterStep, NoteStep, ReleaseAll, Announced;
    OneThread(s, i);
    match s.threads[i].pc
    case LockWoken(_, _) => WokenKeepsAcyclic(s, i);
    case Popped(h, t) => NoteKeepsAcyclic(s, i, t, HelpClaimed(h, t));
    case Helped(h, t) => NoteKeepsAcyclic(s, i, h, LoopTop(h));
    case WaitOver(h) =>
      RemovingEdgeKeepsAcyclic(s.table, Cur(s.threads[i]));
      QuietedGraph(s, s.table.(edges := s.table.edges - {Cur(s.threads[i])}));
    case Returned(f) => ReleaseAllKeepsAcyclic(s, i, Released(f));
    case _ =>
  }

  lemma UserKeepsAcyclic(s: State, i: nat, a: Action)
    requires Inv(s) && Acyclic(s.table) && CanStep(s, i, a) && s.threads[i].pc.User?
    requires ShortCycles(UserStep(s, i, a).table)
    ensures UserStep(s, i, a).fatal || Acyclic(UserStep(s, i, a).table)
  {
    hide ShortCycles, Acyclic;
    var key := Cur(s.threads[i]);
    assert ThreadOk(s, i);
    match a
    case SyncEnter(ids, ex) => EnterKeepsAcyclic(s, i, Ordered(ids), ex);
    case SyncLeave(ids) =>
      var r := ReleaseReversed(s.table, key, Ordered(ids), false);
      if r.Ok? {
        LeaveKeepsOk(s.table, key, Ordered(ids));
      }
      ReleasedKeepsAcyclic(s, i, r, User);
    case Unlock =>
      PopKeepsOk(s.table, key);
      ReleasedKeepsAcyclic(s, i, PopExplicit(s.table, key), User);
    case ReleaseTo(mark) =>
      PopToKeepsOk(s.table, key, mark);
      ReleasedKeepsAcyclic(s, i, PopTo(s.table, key, mark), User);
    case Wait(task) => NoteKeepsAcyclic(s, i, task, LoopTop(task));
    case Shutdown(_) => ReleaseAllKeepsAcyclic(s, i, User);
    case _ =>
  }

  // Every event keeps the wait graph acyclic, ends the program, or closes a cycle of more than 1,000,000
  // tasks.
  lemma EventKeepsAcyclic(s: State, e: Event)
    requires Inv(s) && Acyclic(s.table) && CanHappen(s, e) && ShortCycles(After(s, e).table)
    ensures After(s, e).fatal || Acyclic(After(s, e).table)
  {
    match e
    case ThreadStep(i, a) =>
      if s.threads[i].pc.User? {
        UserKeepsAcyclic(s, i, a);
      } else {
        RunKeepsAcyclic(s, i);
      }
    case SpuriousWake(_) =>
  }
}
