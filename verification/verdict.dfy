/**
 The verdict of the deadlock diagnosis: when the runtime stops the program because of a cycle, the tasks
 of that cycle would have been stopped for ever.
 */
module Verdict {
  import opened Basics
  import opened LockTable
  import opened LockAccounting
  import opened TaskPool
  import opened WaitGraph
  import opened Runtime
  import opened Invariants
  import opened LockSteps
  import opened UserSteps
  import opened Runs
  import opened Deadlock

  // A step that consults the cycle detector: the table with the new wait edge, the edge, and where the
  // thread goes on if there is no cycle.
  datatype Question = Question(table: Table, edge: WaitEdge, next: Pc)

  function NoteQuestion(s: State, key: nat, target: nat, next: Pc): Question {
    Question(Noted(s.table, key, target), OnTask(target), next)
  }

  function EnterQuestion(t: Table, key: nat, ids: seq<nat>, explicitly: bool): Option<Question> {
    match Enter(t, key, ids, explicitly)
    case Blocked(u, on) =>
      Some(Question(u.(edges := u.edges[key := OnLock(on)]), OnLock(on), LockNoted(ids, explicitly, on)))
    case _ => None
  }

  function Asks(s: State, i: nat, a: Action): Option<Question>
    requires CanStep(s, i, a)
  {
    var th := s.threads[i];
    match th.pc
    case User =>
      (match a
       case Wait(task) => Some(NoteQuestion(s, Cur(th), task, LoopTop(task)))
       case SyncEnter(ids, ex) => EnterQuestion(s.table, Cur(th), Ordered(ids), ex)
       case _ => None)
    case LockWoken(ids, ex) => EnterQuestion(s.table.(edges := s.table.edges - {Cur(th)}), Cur(th), ids, ex)
    case Popped(h, task) => Some(NoteQuestion(s, Cur(th), task, HelpClaimed(h, task)))
    case Helped(h, task) => Some(NoteQuestion(s, Cur(th), h, LoopTop(h)))
    case _ => None
  }

  // The detector reports a cycle.
  predicate Reported(q: Question, key: nat) {
    var x := EdgeTarget(q.table, q.edge);
    x.Some? && CycleLocked(q.table, x.value, key)
  }

  predicate Diagnosed(s: State, i: nat, a: Action)
    requires CanStep(s, i, a)
  {
    var q := Asks(s, i, a);
    q.Some? && s.threads[i].stack != [] && Reported(q.value, Cur(s.threads[i]))
  }

  // The state in which the thread would go on if the detector were ignored.
  function Continued(s: State, i: nat, q: Question): State
    requires i < |s.threads|
  {
    SetPc(SetTable(s, q.table), i, q.next)
  }

  // A diagnosed step stops the program; an undiagnosed one that asked goes on as if nothing had been
  // asked.
  lemma DiagnosisStops(s: State, i: nat, a: Action)
    requires Inv(s) && CanStep(s, i, a) && Asks(s, i, a).Some?
    ensures Diagnosed(s, i, a) <==> Step(s, i, a).fatal
    ensures !Diagnosed(s, i, a) ==> Step(s, i, a) == Continued(s, i, Asks(s, i, a).value)
  {
    var th := s.threads[i];
    assert ThreadOk(s, i);
    if th.pc.User? && a.SyncEnter? {
      EnterAsks(s, s.table, i, Ordered(a.ids), a.explicitly);
      assert s.(table := s.table) == s;
    } else if th.pc.LockWoken? {
      EnterAsks(s, s.table.(edges := s.table.edges - {Cur(th)}), i, th.pc.ids, th.pc.explicitly);
    }
  }

  lemma EnterAsks(s: State, t: Table, i: nat, ids: seq<nat>, explicitly: bool)
    requires TableOk(s.table) && t == s.table.(edges := t.edges) && i < |s.threads| && s.threads[i].stack != []
    requires !s.fatal && EnterQuestion(t, Cur(s.threads[i]), ids, explicitly).Some?
    ensures var key := Cur(s.threads[i]);
            var q := EnterQuestion(t, key, ids, explicitly).value;
            var u := EnterStep(s.(table := t), i, ids, explicitly);
            && (Reported(q, key) <==> u.fatal)
            && (!Reported(q, key) ==> u == Continued(s, i, q))
  {
    EdgesKeepTableOk(s.table, t);
    BlockedTable(t, Cur(s.threads[i]), ids, explicitly);
    var r := Enter(t, Cur(s.threads[i]), ids, explicitly);
    var u := r.t.(edges := r.t.edges[Cur(s.threads[i]) := OnLock(r.on)]);
    assert Rec(u, r.on) == Rec(r.t, r.on);
  }

  // ---------------------------------------------------------------- the reported cycle

  lemma {:induction false} WalkIsPath(t: Table, from: nat, me: nat, steps: nat)
    requires Walk(t, from, me, steps)
    ensures exists n: nat :: Iter(t, from, n) == Some(me)
    decreases steps
  {
    if from == me {
      var none: nat := 0;
      assert Iter(t, from, none) == Some(me);
    } else {
      WalkIsPath(t, Succ(t, from).value, me, steps - 1);
      var n: nat :| Iter(t, Succ(t, from).value, n) == Some(me);
      assert Iter(t, from, n + 1) == Some(me);
    }
  }

  // No task waits for a lock of its own.
  ghost predicate NoSelfLock(t: Table) {
    forall k: nat :: k in t.edges && t.edges[k].OnLock? ==> Succ(t, k) != Some(k)
  }

  lemma AcyclicHasNoSelfLock(t: Table)
    requires Acyclic(t)
    ensures NoSelfLock(t)
  {
    AcyclicHasNoCycle(t);
    forall k: nat | k in t.edges && t.edges[k].OnLock? ensures Succ(t, k) != Some(k) {
      var one: nat := 1;
      assert Iter(t, k, one) != Some(k);
    }
  }

  lemma ReportedEdgeIsOnCycle(q: Question, key: nat)
    requires key in q.table.edges && q.table.edges[key] == q.edge && Reported(q, key)
    ensures exists n: nat :: n > 0 && Iter(q.table, key, n) == Some(key)
  {
    var x := EdgeTarget(q.table, q.edge).value;
    WalkIsPath(q.table, x, key, CAP);
    var n: nat :| Iter(q.table, x, n) == Some(key);
    assert n + 1 > 0 && Iter(q.table, key, n + 1) == Some(key);
  }

  lemma {:induction false} SameIter(t: Table, u: Table, k: nat, n: nat)
    requires u == t.(notified := u.notified)
    ensures Iter(u, k, n) == Iter(t, k, n)
    decreases n
  {
    assert Succ(u, k) == Succ(t, k);
    if n > 0 && Succ(t, k).Some? {
      SameIter(t, u, Succ(t, k).value, n - 1);
    }
  }

  lemma ContinuedIsTrapped(s: State, i: nat, q: Question)
    requires Answered(s, i, q) && Reported(q, Cur(s.threads[i]))
    ensures exists c: set<nat> :: Cur(s.threads[i]) in c && Trapped(Continued(s, i, q), c)
  {
    var key := Cur(s.threads[i]);
    var v := Continued(s, i, q);
    ReportedEdgeIsOnCycle(q, key);
    var n: nat :| n > 0 && Iter(q.table, key, n) == Some(key);
    SameIter(q.table, v.table, key, n);
    forall k: nat | k in v.table.edges && v.table.edges[k].OnLock? ensures Succ(v.table, k) != Some(k) {
      assert Succ(q.table, k) == Succ(v.table, k);
    }
    CycleIsTrap(v, key, n);
    assert key in Met(v.table, key) && Trapped(v, Met(v.table, key));
  }

  // ---------------------------------------------------------------- the two kinds of question

  ghost predicate Answered(s: State, i: nat, q: Question) {
    && i < |s.threads| && s.threads[i].stack != []
    && Inv(Continued(s, i, q)) && NoSelfLock(q.table)
    && Cur(s.threads[i]) in q.table.edges && q.table.edges[Cur(s.threads[i])] == q.edge
  }

  lemma NoteAnswer(s: State, i: nat, target: nat, next: Pc)
    requires Safe(s) && i < |s.threads| && s.threads[i].stack != [] && !Sleeping(s, i)
    requires SameStanding(s.threads[i].pc, next)
    requires match next
             case LoopTop(h) => h == target && ValidTask(s.pool, h)
             case HelpClaimed(h, t) => s.threads[i].pc == Popped(h, t) && target == t
             case _ => false
    ensures var q := NoteQuestion(s, Cur(s.threads[i]), target, next);
            Answered(s, i, q)
  {
    assert ThreadOk(s, i);
    var key := Cur(s.threads[i]);
    NotedPcOk(s, i, target, next);
    NotedKeepsInv(s, i, target, next);
    AcyclicHasNoSelfLock(s.table);
    var u := Noted(s.table, key, target);
    forall k: nat | k in u.edges && u.edges[k].OnLock? ensures Succ(u, k) != Some(k) {
      assert Succ(u, k) == Succ(s.table, k);
    }
  }

  lemma EnterAnswer(s: State, i: nat, ids: seq<nat>, explicitly: bool)
    requires Safe(s) && i < |s.threads| && s.threads[i].stack != [] && !Sleeping(s, i)
    requires SameStanding(s.threads[i].pc, User)
    requires Increasing(ids) && Enter(s.table, Cur(s.threads[i]), ids, explicitly).Blocked?
    ensures var q := EnterQuestion(s.table, Cur(s.threads[i]), ids, explicitly).value;
            Answered(s, i, q)
  {
    var key := Cur(s.threads[i]);
    BlockedKeepsInv(s, i, ids, explicitly);
    BlockedEnterIsNoOp(s.table, key, ids, explicitly);
    AcyclicHasNoSelfLock(s.table);
    var r := Enter(s.table, key, ids, explicitly);
    var u := r.t.(edges := r.t.edges[key := OnLock(r.on)]);
    forall id: nat ensures Owner(u, id) == Owner(s.table, id) && Owner(r.t, id) == Owner(s.table, id) {
      assert Rec(r.t, id) == Rec(s.table, id);
      assert Rec(u, id) == Rec(r.t, id);
    }
    forall k: nat | k in u.edges && u.edges[k].OnLock? ensures Succ(u, k) != Some(k) {
      if k != key {
        assert Succ(u, k) == Succ(s.table, k);
      }
    }
  }

  // Before it tries again a woken task has erased its edge.
  lemma ErasedIsSafe(s: State, i: nat)
    requires Safe(s) && i < |s.threads| && s.threads[i].stack != [] && !Sleeping(s, i)
    requires s.threads[i].pc.LockWoken?
    ensures Safe(s.(table := s.table.(edges := s.table.edges - {Cur(s.threads[i])})))
  {
    var key := Cur(s.threads[i]);
    var t := s.table.(edges := s.table.edges - {key});
    assert ThreadOk(s, i);
    ClearKeepsInv(s, i, s.threads[i].pc);
    QuietTable(s, t);
    assert s.threads[i := s.threads[i]] == s.threads;
    assert SetPc(SetTable(s, t), i, s.threads[i].pc) == s.(table := t);
    RemovingEdgeKeepsAcyclic(s.table, key);
  }

  lemma CallAnswer(s: State, i: nat, a: Action)
    requires Safe(s) && CanStep(s, i, a) && s.threads[i].pc.User? && Asks(s, i, a).Some?
    ensures Answered(s, i, Asks(s, i, a).value)
  {
    if a.Wait? {
      NoteAnswer(s, i, a.task, LoopTop(a.task));
    } else {
      OrderedIsSortedAndComplete(a.ids);
      EnterAnswer(s, i, Ordered(a.ids), a.explicitly);
    }
  }

  lemma SameContinuation(s: State, t: Table, i: nat, q: Question)
    requires i < |s.threads|
    ensures Continued(s.(table := t), i, q) == Continued(s, i, q)
  {
  }

  lemma RetryAnswer(s: State, i: nat)
    requires Safe(s) && CanStep(s, i, Run) && s.threads[i].pc.LockWoken? && Asks(s, i, Run).Some?
    ensures Answered(s, i, Asks(s, i, Run).value)
  {
    var pc := s.threads[i].pc;
    var t := s.table.(edges := s.table.edges - {Cur(s.threads[i])});
    assert ThreadOk(s, i);
    ErasedIsSafe(s, i);
    RetryFrom(s.(table := t), i, pc.ids, pc.explicitly);
    SameContinuation(s, t, i, Asks(s, i, Run).value);
  }

  lemma RetryFrom(s: State, i: nat, ids: seq<nat>, explicitly: bool)
    requires Safe(s) && i < |s.threads| && s.threads[i].stack != [] && !Sleeping(s, i)
    requires s.threads[i].pc.LockWoken? && Increasing(ids) && EnterQuestion(s.table, Cur(s.threads[i]), ids, explicitly).Some?
    ensures Answered(s, i, EnterQuestion(s.table, Cur(s.threads[i]), ids, explicitly).value)
  {
    EnterAnswer(s, i, ids, explicitly);
  }

  lemma HelperAnswer(s: State, i: nat)
    requires Safe(s) && CanStep(s, i, Run) && (s.threads[i].pc.Popped? || s.threads[i].pc.Helped?)
    ensures Answered(s, i, Asks(s, i, Run).value)
  {
    var pc := s.threads[i].pc;
    assert ThreadOk(s, i);
    if pc.Popped? {
      NoteAnswer(s, i, pc.task, HelpClaimed(pc.handle, pc.task));
    } else {
      NoteAnswer(s, i, pc.handle, LoopTop(pc.handle));
    }
  }

  lemma AskedIsAnswered(s: State, i: nat, a: Action)
    requires Safe(s) && CanStep(s, i, a) && Asks(s, i, a).Some?
    ensures Answered(s, i, Asks(s, i, a).value)
  {
    if s.threads[i].pc.User? {
      CallAnswer(s, i, a);
    } else if s.threads[i].pc.LockWoken? {
      RetryAnswer(s, i);
    } else {
      HelperAnswer(s, i);
    }
  }

  // No false alarm: if the runtime reports a cycle, then in the state in which the program would have
  // gone on the reporting task belongs to a set of tasks that only wait for each other.
  lemma DiagnosisIsReal(s: State, i: nat, a: Action)
    requires Safe(s) && CanStep(s, i, a) && Diagnosed(s, i, a)
    ensures s.threads[i].stack != []
    ensures var v := Continued(s, i, Asks(s, i, a).value);
            Inv(v) && exists c: set<nat> :: Cur(s.threads[i]) in c && Trapped(v, c)
  {
    AskedIsAnswered(s, i, a);
    ContinuedIsTrapped(s, i, Asks(s, i, a).value);
  }

  // ---------------------------------------------------------------- exactly the deadlocks

  // The question is about one new edge in an acyclic graph.
  ghost predicate NewEdge(q: Question, key: nat, t: Table) {
    && Acyclic(t) && q.table == t.(edges := t.edges[key := q.edge])
    && EdgeTarget(t, q.edge).Some? && EdgeTarget(q.table, q.edge) == EdgeTarget(t, q.edge)
  }

  lemma NoteIsNewEdge(s: State, key: nat, target: nat, next: Pc)
    requires Acyclic(s.table)
    ensures NewEdge(NoteQuestion(s, key, target, next), key, s.table)
  {
    hide Acyclic;
  }

  lemma EnterIsNewEdge(t: Table, key: nat, ids: seq<nat>, explicitly: bool) returns (u: Table)
    requires TableOk(t) && Acyclic(t) && EnterQuestion(t, key, ids, explicitly).Some?
    ensures NewEdge(EnterQuestion(t, key, ids, explicitly).value, key, u)
  {
    BlockedEnterIsNoOp(t, key, ids, explicitly);
    var r := Enter(t, key, ids, explicitly);
    u := r.t;
    hide Enter, TableOk, Acyclic;
    forall k: nat ensures Succ(r.t, k) == Succ(t, k) {
      if k in t.edges && t.edges[k].OnLock? {
        assert Rec(r.t, t.edges[k].id) == Rec(t, t.edges[k].id);
      }
    }
    TruncationKeepsAcyclic(t, r.t);
    assert Rec(r.t, r.on) == Rec(t, r.on);
  }

  lemma AskedAboutNewEdge(s: State, i: nat, a: Action) returns (t: Table)
    requires Safe(s) && CanStep(s, i, a) && Asks(s, i, a).Some?
    ensures s.threads[i].stack != [] && NewEdge(Asks(s, i, a).value, Cur(s.threads[i]), t)
  {
    hide NewEdge, Acyclic, EnterQuestion, NoteQuestion, ThreadsOk, TasksOk, RecordsOk, WorkersOk, EndingOk;
    var key := Cur(s.threads[i]);
    var pc := s.threads[i].pc;
    if pc.User? && a.SyncEnter? {
      t := EnterIsNewEdge(s.table, key, Ordered(a.ids), a.explicitly);
    } else if pc.LockWoken? {
      var t0 := s.table.(edges := s.table.edges - {key});
      EdgesKeepTableOk(s.table, t0);
      RemovingEdgeKeepsAcyclic(s.table, key);
      t := EnterIsNewEdge(t0, key, pc.ids, pc.explicitly);
    } else {
      t := s.table;
      if pc.User? {
        NoteIsNewEdge(s, key, a.task, LoopTop(a.task));
      } else if pc.Popped? {
        NoteIsNewEdge(s, key, pc.task, HelpClaimed(pc.handle, pc.task));
      } else {
        NoteIsNewEdge(s, key, pc.handle, LoopTop(pc.handle));
      }
    }
  }

  // Few tasks mean few edges, the new one included.
  lemma AskedEdgesAtMostTasks(s: State, i: nat, a: Action)
    requires Safe(s) && CanStep(s, i, a) && Asks(s, i, a).Some?
    ensures |Asks(s, i, a).value.table.edges| <= |s.pool.tasks| + 1
  {
    AskedIsAnswered(s, i, a);
    var q := Asks(s, i, a).value;
    hide Inv, Asks, NoSelfLock, CanStep;
    EdgesAtMostTasks(Continued(s, i, q));
  }

  // The whole diagnosis, from the step that asks to the end of the program: the program is stopped if and
  // only if the new edge closes a cycle of at most CAP tasks; so with at most CAP wait edges, or fewer
  // than CAP tasks, it is stopped if and only if there is a deadlock.
  lemma StoppedIffDeadlock(s: State, i: nat, a: Action)
    requires Safe(s) && CanStep(s, i, a) && Asks(s, i, a).Some?
    ensures s.threads[i].stack != []
    ensures var u := Asks(s, i, a).value.table;
            && (Step(s, i, a).fatal <==> exists n: nat :: n <= CAP && CycleOf(u, Cur(s.threads[i]), n))
            && (|u.edges| <= CAP || |s.pool.tasks| < CAP ==> (Step(s, i, a).fatal <==> !NoCycle(u)))
  {
    var t := AskedAboutNewEdge(s, i, a);
    DiagnosisStops(s, i, a);
    AskedEdgesAtMostTasks(s, i, a);
    var q := Asks(s, i, a).value;
    hide Asks, Step, CanStep, Inv, Acyclic;
    ReportedIff(q, Cur(s.threads[i]), t);
  }

  lemma ReportedIff(q: Question, key: nat, t: Table)
    requires NewEdge(q, key, t)
    ensures Reported(q, key) <==> exists n: nat :: n <= CAP && CycleOf(q.table, key, n)
    ensures |q.table.edges| <= CAP ==> (Reported(q, key) <==> !NoCycle(q.table))
  {
    hide Acyclic, CycleLocked, CycleOf, NoCycle;
    var x := EdgeTarget(t, q.edge).value;
    DetectorVerdict(t, key, q.edge, x);
    if Reported(q, key) {
      var n: nat :| CycleOf(q.table, key, n);
      assert n <= CAP && CycleOf(q.table, key, n);
    }
    if |q.table.edges| <= CAP {
      DetectorIsExact(t, key, q.edge, x);
    }
  }

  lemma NextKeepsTrapped(s: State, u: State, c: set<nat>)
    requires Inv(s) && Trapped(s, c) && Next(s, u)
    ensures u.fatal || (Inv(u) && Trapped(u, c))
  {
    var e: Event :| CanHappen(s, e) && u == After(s, e);
    EventKeepsTrapped(s, e, c);
  }

  // And such a set stays as it is for ever: whatever the other threads do, no task of it runs compiled
  // code, releases a lock or finishes.
  lemma {:induction false} TrappedForever(run: seq<State>, n: nat, c: set<nat>)
    requires n < |run| && Inv(run[0]) && Trapped(run[0], c)
    requires forall k :: 0 < k < |run| ==> Next(run[k - 1], run[k])
    ensures run[n].fatal || (Inv(run[n]) && Trapped(run[n], c))
    decreases n
  {
    hide Inv, Trapped, Next;
    if n > 0 {
      TrappedForever(run, n - 1, c);
      assert Next(run[n - 1], run[n]);
      NextIsNotFatal(run[n - 1], run[n]);
      NextKeepsTrapped(run[n - 1], run[n], c);
    }
  }

  lemma NextIsNotFatal(s: State, u: State)
    requires Next(s, u)
    ensures !s.fatal
  {
  }
}
