/**
 Global progress: as long as the main program has not ended, some thread can move on, whatever locks are
 held and whoever waits for whom.
 */
module Progress {
  import opened Basics
  import opened LockTable
  import opened LockAccounting
  import opened TaskPool
  import opened WaitGraph
  import opened Runtime
  import opened Invariants
  import opened LockSteps
  import opened PoolSteps
  import opened Runs

  predicate HasEnded(s: State, h: nat) {
    ValidTask(s.pool, h) && IsFinished(TaskAt(s.pool, h).state)
  }

  predicate MayHave(s: State, th: Thread, id: nat) {
    Owner(s.table, id) < 0 || (th.stack != [] && Owner(s.table, id) == Cur(th))
  }

  // The thread is awake and its next step is not just another look at something that has not happened.
  predicate CanMove(s: State, i: nat) {
    && i < |s.threads|
    && !Sleeping(s, i)
    && var th := s.threads[i];
       match th.pc
       case Fetch => s.pool.queue != []
       case Idle => s.pool.queue != []
       case LockNoted(_, _, id) => s.pool.queue != [] || MayHave(s, th, id)
       case LockWait(_, _, id) => MayHave(s, th, id)
       case LoopTop(h) => s.pool.queue != [] || HasEnded(s, h)
       case HoldsNothing(h) => s.pool.queue != [] || HasEnded(s, h)
       case Decided(h, _) => s.pool.queue != [] || HasEnded(s, h)
       case TaskWait(h) => HasEnded(s, h)
       case Exited => false
       case _ => true
  }

  ghost predicate SomeoneCanMove(s: State) {
    exists i: nat :: CanMove(s, i)
  }

  // The thread has gone on to another place, or the program has been stopped.
  ghost predicate MovedOn(s: State, u: State, i: nat)
    requires i < |s.threads|
  {
    u.fatal || (i < |u.threads| && u.threads[i].pc != s.threads[i].pc)
  }

  lemma WokenMoves(s: State, i: nat)
    requires TableOk(s.table) && CanStep(s, i, Run) && s.threads[i].pc.LockWoken?
    ensures MovedOn(s, RunStep(s, i), i)
  {
    hide Enter, CycleLocked, TableOk, Rec, Announced;
    var pc := s.threads[i].pc;
    var key := Cur(s.threads[i]);
    var t := s.table.(edges := s.table.edges - {key});
    EdgesKeepTableOk(s.table, t);
    var r := Enter(t, key, pc.ids, pc.explicitly);
    if r.Blocked? {
      BlockedEnterIsNoOp(t, key, pc.ids, pc.explicitly);
      assert Rec(r.t, r.on) == Rec(t, r.on);
    }
  }

  // A section that only moves its own thread on, leaving what runs on it.
  ghost predicate QuietThread(s: State, u: State, i: nat)
    requires i < |s.threads|
  {
    && FrameThreads(s, u, i)
    && u.threads[i].stack == s.threads[i].stack && u.threads[i].waits == s.threads[i].waits
  }

  lemma EnterIsQuiet(s: State, i: nat, ids: seq<nat>, explicitly: bool)
    requires i < |s.threads| && s.threads[i].stack != []
    ensures QuietThread(s, EnterStep(s, i, ids, explicitly), i)
  {
    hide Enter, CycleLocked, Owner, Announced;
  }

  lemma NoteIsQuiet(s: State, i: nat, target: nat, next: Pc)
    requires i < |s.threads| && s.threads[i].stack != []
    ensures QuietThread(s, NoteStep(s, i, target, next), i)
  {
    hide CycleLocked, Announced;
  }

  lemma ReleasedIsQuiet(s: State, i: nat, r: Released, next: Pc)
    requires i < |s.threads|
    ensures QuietThread(s, ReleasedStep(s, i, r, next), i)
  {
    hide Announced;
  }

  lemma WorkerIsQuiet(s: State, i: nat)
    requires i < |s.threads|
    ensures QuietThread(s, FetchStep(s, i), i) && QuietThread(s, IdleStep(s, i), i)
  {
  }

  lemma DecidedIsQuiet(s: State, i: nat, handle: nat, mayHelp: bool)
    requires i < |s.threads|
    ensures QuietThread(s, DecidedStep(s, i, handle, mayHelp), i)
  {
    hide BlockBegin;
  }

  lemma WaitOverIsQuiet(s: State, i: nat, handle: nat)
    requires i < |s.threads| && s.threads[i].stack != []
    ensures QuietThread(s, WaitOverStep(s, i, handle), i)
  {
    hide Announced;
  }

  lemma QuietStack(s: State, i: nat)
    requires CanStep(s, i, Run) && !s.threads[i].pc.User?
    requires !s.threads[i].pc.Claimed? && !s.threads[i].pc.HelpClaimed? && !s.threads[i].pc.Released?
    ensures QuietThread(s, RunStep(s, i), i)
  {
    hide FetchStep, IdleStep, EnterStep, NoteStep, ReleasedStep, DecidedStep, WaitOverStep;
    hide ReleaseAll, Owner, BlockBegin, BlockEnd;
    var th := s.threads[i];
    match th.pc
    case Fetch => WorkerIsQuiet(s, i);
    case Idle => WorkerIsQuiet(s, i);
    case LockWoken(ids, ex) =>
      var t := s.table.(edges := s.table.edges - {Cur(th)});
      EnterIsQuiet(s.(table := t), i, ids, ex);
    case Decided(h, mayHelp) => DecidedIsQuiet(s, i, h, mayHelp);
    case Popped(h, task) => NoteIsQuiet(s, i, task, HelpClaimed(h, task));
    case Helped(h, _) => NoteIsQuiet(s, i, h, LoopTop(h));
    case WaitOver(h) => WaitOverIsQuiet(s, i, h);
    case Returned(failure) => ReleasedIsQuiet(s, i, ReleaseAll(s.table, Cur(th)), Released(failure));
    case _ =>
  }

  lemma RunThreads(s: State, i: nat)
    requires CanStep(s, i, Run) && !s.threads[i].pc.User?
    ensures FrameThreads(s, RunStep(s, i), i)
  {
    if s.threads[i].pc.Claimed? || s.threads[i].pc.HelpClaimed? || s.threads[i].pc.Released? {
    } else {
      hide RunStep, CanStep, FrameThreads;
      QuietStack(s, i);
    }
  }

  lemma UserThreads(s: State, i: nat, a: Action)
    requires CanStep(s, i, a) && s.threads[i].pc.User?
    ensures QuietThread(s, UserStep(s, i, a), i)
  {
    hide Enter, ReleaseAll, ReleaseReversed, PopExplicit, PopTo, CycleLocked, Announced, Rec;
  }

  lemma BeginMoves(s: State, i: nat)
    requires ThreadsOk(s) && TasksOk(s) && CanStep(s, i, Run)
    requires s.threads[i].pc.Claimed? || s.threads[i].pc.HelpClaimed?
    ensures MovedOn(s, RunStep(s, i), i)
  {
    hide TasksOk;
    OneThread(s, i);
    hide ThreadsOk, ShapeOk, SuspendedOk, SleepOk;
    assert HasLoc(s, s.threads[i].pc.task, ClaimedBy(i));
    ClaimIsTask(s, s.threads[i].pc.task, i);
  }

  lemma ClaimIsTask(s: State, task: nat, i: nat)
    requires TasksOk(s) && HasLoc(s, task, ClaimedBy(i))
    ensures ValidTask(s.pool, task)
  {
  }

  lemma FinishMoves(s: State, i: nat)
    requires ThreadsOk(s) && TasksOk(s) && CanStep(s, i, Run) && s.threads[i].pc.Released?
    ensures MovedOn(s, RunStep(s, i), i)
  {
    OneThread(s, i);
    hide ThreadsOk, SuspendedOk, SleepOk;
    var d := |s.threads[i].stack| - 1;
    assert (i == 0 && d == 0) || HasLoc(s, s.threads[i].stack[d], OnStack(i, d));
  }

  lemma WorkerMoves(s: State, i: nat)
    requires CanMove(s, i) && CanStep(s, i, Run) && (s.threads[i].pc.Fetch? || s.threads[i].pc.Idle?)
    ensures MovedOn(s, RunStep(s, i), i)
  {
  }

  lemma LockWaiterMoves(s: State, i: nat)
    requires CanMove(s, i) && CanStep(s, i, Run) && (s.threads[i].pc.LockNoted? || s.threads[i].pc.LockWait?)
    ensures MovedOn(s, RunStep(s, i), i)
  {
  }

  lemma TaskWaiterMoves(s: State, i: nat)
    requires CanMove(s, i) && CanStep(s, i, Run)
    requires var pc := s.threads[i].pc;
             pc.LoopTop? || pc.HoldsNothing? || pc.Decided? || pc.TaskWait? || pc.WaitOver?
    ensures MovedOn(s, RunStep(s, i), i)
  {
    hide Announced;
  }

  lemma NoterMoves(s: State, i: nat)
    requires CanStep(s, i, Run)
    requires s.threads[i].pc.Popped? || s.threads[i].pc.Helped? || s.threads[i].pc.Returned?
    ensures MovedOn(s, RunStep(s, i), i)
  {
    hide ReleaseAll, CycleLocked, Announced;
  }

  lemma RunMoves(s: State, i: nat)
    requires ThreadsOk(s) && TasksOk(s) && TableOk(s.table)
    requires CanMove(s, i) && CanStep(s, i, Run) && !s.threads[i].pc.User?
    ensures MovedOn(s, RunStep(s, i), i)
  {
    hide RunStep, MovedOn, ThreadsOk, TasksOk, TableOk;
    match s.threads[i].pc
    case Fetch => WorkerMoves(s, i);
    case Idle => WorkerMoves(s, i);
    case Claimed(_) => BeginMoves(s, i);
    case HelpClaimed(_, _) => BeginMoves(s, i);
    case LockNoted(_, _, _) => LockWaiterMoves(s, i);
    case LockWait(_, _, _) => LockWaiterMoves(s, i);
    case LockWoken(_, _) => WokenMoves(s, i);
    case Popped(_, _) => NoterMoves(s, i);
    case Helped(_, _) => NoterMoves(s, i);
    case Returned(_) => NoterMoves(s, i);
    case Released(_) => FinishMoves(s, i);
    case _ => TaskWaiterMoves(s, i);
  }

  // Compiled code can always go on: it may return, stop the program, or continue the shutdown.
  lemma UserSteps(s: State, i: nat)
    requires i < |s.threads| && ThreadOk(s, i) && EndingOk(s) && !s.fatal && s.threads[i].pc.User?
    ensures exists a: Action :: CanStep(s, i, a)
  {
    if i == 0 && |s.threads[i].stack| == 1 && !s.ending.NotEnding? {
      if s.ending.Releasing? {
        assert CanStep(s, i, Snapshot);
      } else if s.ending.done == s.ending.all {
        assert CanStep(s, i, Stop);
      } else {
        assert CanStep(s, i, Action.Wait(s.ending.done + 1));
      }
    } else {
      assert CanStep(s, i, Die);
    }
  }

  // An enabled step that takes the thread to another place (compiled code does as it likes).
  ghost predicate Advances(s: State, i: nat, a: Action) {
    && CanStep(s, i, a)
    && (s.threads[i].pc.User? || MovedOn(s, RunStep(s, i), i))
  }

  lemma MoverSteps(s: State, i: nat)
    requires Inv(s) && !s.fatal && CanMove(s, i)
    ensures exists a: Action :: Advances(s, i, a)
  {
    assert ThreadOk(s, i);
    if s.threads[i].pc.User? {
      UserSteps(s, i);
      var a: Action :| CanStep(s, i, a);
      assert Advances(s, i, a);
    } else {
      assert CanStep(s, i, Run) && ThreadsOk(s) && TasksOk(s) && TableOk(s.table);
      RunMoves(s, i);
      assert Advances(s, i, Run);
    }
  }

  // ---------------------------------------------------------------- queued work

  // Someone must take the queued work: an idle worker that is awake, or one that is not blocked.
  lemma QueueIsServed(s: State)
    requires Inv(s) && !s.pool.stopping && s.pool.queue != []
    ensures SomeoneCanMove(s)
  {
    if s.sleepWork != {} {
      if forall j: nat :: j in IdleSet(s) ==> j in s.sleepWork {
        SubsetSize(IdleSet(s), s.sleepWork);
        assert false;
      }
      var j: nat :| j in IdleSet(s) && j !in s.sleepWork;
      assert ThreadOk(s, j);
      assert CanMove(s, j);
    } else {
      var n := Workers(s.pool);
      IndicesAre(n);
      if forall j: nat :: j in Indices(n) ==> j in BlockedSet(s) {
        SubsetSize(Indices(n), BlockedSet(s));
        assert false;
      }
      var j: nat :| j in Indices(n) && j !in BlockedSet(s);
      assert ThreadOk(s, j);
      assert CanMove(s, j);
    }
  }

  // ---------------------------------------------------------------- along the wait graph

  lemma ClaimerMoves(s: State, i: nat)
    requires Inv(s) && i < |s.threads| && ClaimOf(s.threads[i].pc).Some?
    ensures SomeoneCanMove(s)
  {
    assert ThreadOk(s, i);
    assert CanMove(s, i);
  }

  // A task that is waited for has ended, or can be moved on, or runs somewhere.
  lemma AwaitedTask(s: State, h: nat)
    requires Inv(s) && s.pool.queue == [] && ValidTask(s.pool, h)
    ensures HasEnded(s, h) || SomeoneCanMove(s) || Live(s, h)
  {
    assert LocOk(s, h);
    if s.loc[h - 1].ClaimedBy? {
      ClaimerMoves(s, s.loc[h - 1].thread);
    }
  }

  // The current task of a thread: the thread can move, or the task waits for another running one.
  lemma CurrentTask(s: State, i: nat)
    requires Inv(s) && s.pool.queue == [] && i < |s.threads| && s.threads[i].stack != []
    requires !s.threads[i].pc.Exited?
    ensures var next := Succ(s.table, Cur(s.threads[i]));
            SomeoneCanMove(s) || (next.Some? && Live(s, next.value))
  {
    assert ThreadOk(s, i);
    if !CanMove(s, i) {
      match s.threads[i].pc
      case LoopTop(h) => AwaitedTask(s, h);
      case HoldsNothing(h) => AwaitedTask(s, h);
      case Decided(h, _) => AwaitedTask(s, h);
      case TaskWait(h) => AwaitedTask(s, h);
      case _ =>
    }
  }

  lemma LiveTaskIsOnStack(s: State, k: nat) returns (i: nat, d: nat)
    requires Inv(s) && Live(s, k)
    ensures i < |s.threads| && d < |s.threads[i].stack| && s.threads[i].stack[d] == k
  {
    assert ThreadOk(s, 0);
    if k == 0 {
      return 0, 0;
    } else {
      assert LocOk(s, k);
      return s.loc[k - 1].thread, s.loc[k - 1].depth;
    }
  }

  lemma {:induction false} WalkFindsMover(s: State, k: nat, n: nat)
    requires Inv(s) && s.pool.queue == [] && !s.pool.stopping && !s.threads[0].pc.Exited?
    requires Live(s, k) && Ends(s.table, k, n)
    ensures SomeoneCanMove(s)
    decreases n
  {
    var i, d := LiveTaskIsOnStack(s, k);
    assert ThreadOk(s, i);
    if d < |s.threads[i].stack| - 1 {
      NextOnStackIsLive(s, i, d);
      WalkFindsMover(s, s.threads[i].stack[d + 1], n - 1);
    } else {
      CurrentTask(s, i);
      if !SomeoneCanMove(s) {
        WalkFindsMover(s, Succ(s.table, k).value, n - 1);
      }
    }
  }

  lemma NextOnStackIsLive(s: State, i: nat, d: nat)
    requires Inv(s) && i < |s.threads| && d < |s.threads[i].stack| - 1
    ensures Succ(s.table, s.threads[i].stack[d]) == Some(s.threads[i].stack[d + 1])
    ensures Live(s, s.threads[i].stack[d + 1])
  {
    assert ThreadOk(s, i);
    assert (i == 0 && d + 1 == 0) || HasLoc(s, s.threads[i].stack[d + 1], OnStack(i, d + 1));
  }

  // Global progress. Until the main program has ended some thread can move on.
  lemma SomeoneAlwaysCanMove(s: State)
    requires Safe(s) && !s.pool.stopping && !s.threads[0].pc.Exited?
    ensures SomeoneCanMove(s)
  {
    if s.pool.queue != [] {
      QueueIsServed(s);
    } else {
      var main: nat := 0;
      assert Finite(s.table, main);
      var n: nat :| Ends(s.table, main, n);
      WalkFindsMover(s, main, n);
    }
  }

  // In particular no task is left behind: in every run, whenever a task is unfinished and the program
  // goes on, some thread has an enabled step that takes it further.
  lemma RunsMakeProgress(configured: nat, run: seq<State>, n: nat, task: nat)
    requires IsRun(configured, run) && NoLongCycles(run) && n < |run|
    requires var s := run[n];
             !s.fatal && !s.pool.stopping && ValidTask(s.pool, task) && !IsFinished(TaskAt(s.pool, task).state)
    ensures exists i: nat, a: Action :: CanMove(run[n], i) && Advances(run[n], i, a)
  {
    var s := run[n];
    RunsAreSafe(configured, run, n);
    assert ThreadOk(s, 0);
    SomeoneAlwaysCanMove(s);
    var i: nat :| CanMove(s, i);
    MoverSteps(s, i);
    var a: Action :| Advances(s, i, a);
    assert CanMove(s, i) && Advances(s, i, a);
  }
}
