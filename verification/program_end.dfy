/**
 The end of the program, over runs: the shutdown that the main program calls does what it was asked for, the
 main program owns nothing from then on, and the workers stop after every task of the snapshot has finished.
 */
module ProgramEnd {
  import opened Basics
  import opened LockTable
  import opened LockAccounting
  import opened TaskPool
  import opened WaitGraph
  import opened Runtime
  import opened Invariants
  import opened UserSteps
  import opened TaskSteps
  import opened Progress
  import opened LockFrames
  import opened SyncEnters
  import opened Runs
  import opened Histories
  import opened Outcomes
  import opened Waits

  // ---------------------------------------------------------------- exceptions that nobody catches

  // A THROW that the main program does not catch ends the whole program, and so does a fatal diagnosis.
  lemma UncaughtThrowInMainIsFatal(configured: nat, run: seq<State>, m: nat, i: nat, text: string)
    requires Arrived(configured, run, m) && CallsAt(run, m, i, Throw(text)) && Cur(run[m].threads[i]) == 0
    ensures run[m + 1].fatal
  {
    hide IsRun;
  }

  lemma DieIsFatal(run: seq<State>, m: nat, i: nat)
    requires CallsAt(run, m, i, Die)
    ensures run[m + 1].fatal
  {
  }

  // ---------------------------------------------------------------- the stages of the end

  // The shutdown has begun with this verdict, and its snapshot has perhaps been taken.
  ghost predicate IsEnding(s: State, normalExit: bool) {
    s.ending == Releasing(normalExit) || s.ending.Draining?
  }

  // The snapshot has been taken, of so many tasks.
  ghost predicate WaitsForAll(s: State, all: nat) {
    s.ending.Draining? && s.ending.all == all && all <= |s.pool.tasks|
  }

  lemma UserEnding(s: State, i: nat, a: Action)
    requires CanStep(s, i, a) && s.threads[i].pc.User?
    ensures var u := UserStep(s, i, a);
            && (a.Shutdown? ==> u.ending == Releasing(a.normalExit))
            && (a.Snapshot? && s.pool.started ==> u.ending == Draining(|s.pool.tasks|, 0))
            && (a.Snapshot? && !s.pool.started ==> i < |u.threads| && u.threads[i].pc.Exited? && u.ending == s.ending)
            && (!a.Shutdown? && !a.Snapshot? ==> u.ending == s.ending)
            && (a.Shutdown? ==> s.ending.NotEnding?) && (a.Snapshot? ==> s.ending.Releasing?)
            && |s.pool.tasks| <= |u.pool.tasks|
            && u.pool.stopping == (s.pool.stopping || a.Stop?)
  {
    hide Enter, ReleaseAll, ReleaseReversed, PopExplicit, PopTo, Announced, CycleLocked;
  }

  lemma RunPool(s: State, i: nat)
    requires CanStep(s, i, Run) && !s.threads[i].pc.User?
    ensures var u := RunStep(s, i);
            |u.pool.tasks| == |s.pool.tasks| && u.pool.stopping == s.pool.stopping
  {
    hide RunStep;
    if RunsTask(s.threads[i].pc) {
      TaskSection(s, i);
    } else if LooksForWork(s.threads[i].pc) {
      LookerSection(s, i);
    } else {
      QuietIsQuiet(s, i);
    }
  }

  lemma BeginEnding(s: State, i: nat, task: nat, waits: seq<nat>, back: Pc)
    requires i < |s.threads|
    ensures BeginStep(s, i, task, waits, back).ending == s.ending
  {
    hide BeginRun;
  }

  lemma FinishEnding(s: State, i: nat, failure: string)
    requires i < |s.threads| && s.threads[i].stack != []
    ensures FinishStep(s, i, failure).ending == s.ending
  {
    hide FinishRun;
  }

  lemma OtherSectionEnding(s: State, i: nat)
    requires CanStep(s, i, Run) && !s.threads[i].pc.User? && !s.threads[i].pc.WaitOver?
    ensures RunStep(s, i).ending == s.ending
  {
    hide Enter, ReleaseAll, Announced, CycleLocked, Owner, BeginRun, FinishRun, MaybeAddWorker, BlockBegin, BlockEnd;
    match s.threads[i].pc
    case Claimed(task) => BeginEnding(s, i, task, s.threads[i].waits, Fetch);
    case HelpClaimed(h, task) => BeginEnding(s, i, task, s.threads[i].waits + [h], Helped(h, task));
    case Released(failure) => FinishEnding(s, i, failure);
    case _ =>
  }

  // The main program is about to leave the wait for the next task of the shutdown.
  predicate LastWait(s: State, i: nat) {
    && i == 0 && s.threads != [] && |s.threads[0].stack| == 1 && s.threads[0].pc.WaitOver?
    && s.ending.Draining? && s.ending.done < s.ending.all && s.threads[0].pc.handle == s.ending.done + 1
  }

  // Only that moves the shutdown on.
  lemma RunEnding(s: State, i: nat)
    requires CanStep(s, i, Run) && !s.threads[i].pc.User?
    ensures RunStep(s, i).ending == if LastWait(s, i) then s.ending.(done := s.ending.done + 1) else s.ending
  {
    if s.threads[i].pc.WaitOver? {
      hide Announced;
    } else {
      OtherSectionEnding(s, i);
      hide RunStep;
    }
  }

  lemma StepEnding(s: State, u: State)
    requires Next(s, u)
    ensures forall x :: IsEnding(s, x) ==> IsEnding(u, x)
    ensures forall all :: WaitsForAll(s, all) ==> WaitsForAll(u, all)
    ensures s.pool.stopping ==> u.pool.stopping
  {
    var e: Event :| CanHappen(s, e) && u == After(s, e);
    if e.ThreadStep? {
      if s.threads[e.thread].pc.User? {
        UserEnding(s, e.thread, e.action);
      } else {
        RunEnding(s, e.thread);
        RunPool(s, e.thread);
      }
      hide UserStep, RunStep, CanStep;
    }
  }

  lemma {:induction false} EndingLasts(configured: nat, run: seq<State>, m: nat, n: nat)
    requires IsRun(configured, run) && m <= n < |run|
    ensures forall x :: IsEnding(run[m], x) ==> IsEnding(run[n], x)
    ensures forall all :: WaitsForAll(run[m], all) ==> WaitsForAll(run[n], all)
    ensures run[m].pool.stopping ==> run[n].pool.stopping
    decreases n
  {
    hide IsEnding, WaitsForAll, Next;
    if m < n {
      EndingLasts(configured, run, m, n - 1);
      assert Next(run[n - 1], run[n - 1 + 1]);
      StepEnding(run[n - 1], run[n]);
    }
  }

  // The snapshot of a shutdown is taken with the verdict that the shutdown was called with.
  lemma SnapshotHasVerdict(configured: nat, run: seq<State>, m: nat, k: nat, i: nat, j: nat, normalExit: bool)
    requires IsRun(configured, run) && m < k < |run| && CallsAt(run, m, i, Shutdown(normalExit)) && CallsAt(run, k, j, Snapshot)
    ensures run[k].ending == Releasing(normalExit)
    ensures run[k].pool.started ==> run[k + 1].ending == Draining(|run[k].pool.tasks|, 0)
  {
    UserEnding(run[m], i, Shutdown(normalExit));
    UserEnding(run[k], j, Snapshot);
    hide IsRun, UserStep, CanStep;
    EndingLasts(configured, run, m + 1, k);
    assert IsEnding(run[m + 1], normalExit) && IsEnding(run[k], normalExit);
  }

  // A program that has never spawned a task ends at once.
  lemma NoPoolEndsAtOnce(run: seq<State>, k: nat, j: nat)
    requires CallsAt(run, k, j, Snapshot) && !run[k].pool.started
    ensures j < |run[k + 1].threads| && run[k + 1].threads[j].pc.Exited?
  {
    UserEnding(run[k], j, Snapshot);
    hide UserStep, CanStep;
  }

  lemma SnapshotRequests(s: State, u: State, task: nat)
    requires Next(s, u) && s.ending == Releasing(false) && u.ending.Draining?
    requires ValidTask(s.pool, task) && !IsFinished(TaskAt(s.pool, task).state)
    ensures Requested(u, task)
  {
    SnapshotCancelsAll(s, u);
    hide Next;
    assert u.pool.tasks[task - 1] == Marked(s.pool.tasks[task - 1], false);
  }

  // A program that ends abnormally asks every unfinished task to stop, and what has not begun never runs.
  lemma AbnormalEndCancels(configured: nat, run: seq<State>, m: nat, k: nat, n: nat, i: nat, j: nat, task: nat)
    requires IsRun(configured, run) && m < k < n < |run|
    requires CallsAt(run, m, i, Shutdown(false)) && CallsAt(run, k, j, Snapshot)
    requires ValidTask(run[k].pool, task) && !IsFinished(TaskAt(run[k].pool, task).state) && run[k].pool.started
    ensures Requested(run[n], task)
    ensures TaskAt(run[k].pool, task).state.Pending? ==>
              TaskAt(run[n].pool, task).thunkRuns == 0
              && (TaskAt(run[n].pool, task).state.Pending? || TaskAt(run[n].pool, task).state.Cancelled?)
  {
    hide IsRun, CallsAt, Inv, Next;
    SnapshotHasVerdict(configured, run, m, k, i, j, false);
    StepIsNext(configured, run, k);
    SnapshotRequests(run[k], run[k + 1], task);
    RequestStays(configured, run, k + 1, n, task);
    if TaskAt(run[k].pool, task).state.Pending? {
      AbnormalEndStartsNothing(configured, run, k, n, task);
    }
  }

  // A program that ends normally asks nobody to stop.
  lemma NormalEndCancelsNobody(configured: nat, run: seq<State>, m: nat, k: nat, i: nat, j: nat)
    requires IsRun(configured, run) && m < k < |run| && run[k].pool.started
    requires CallsAt(run, m, i, Shutdown(true)) && CallsAt(run, k, j, Snapshot)
    ensures run[k + 1].pool.tasks == run[k].pool.tasks
  {
    assert k + 1 < |run|;
    hide IsRun, CallsAt, Inv, Next;
    SnapshotHasVerdict(configured, run, m, k, i, j, true);
    StepIsNext(configured, run, k);
    NormalSnapshotKeepsTasks(run[k], run[k + 1]);
  }

  lemma StopIsDone(configured: nat, run: seq<State>, e: nat, j: nat)
    requires IsRun(configured, run) && CallsAt(run, e, j, Stop)
    ensures run[e].ending.Draining? && run[e].ending.done == run[e].ending.all
    ensures EndingOk(run[e]) && run[e + 1].pool.stopping
  {
    UserEnding(run[e], j, Stop);
    hide Step, UserStep;
    StepIsNext(configured, run, e);
    hide IsRun, ThreadsOk, TasksOk, RecordsOk, LocksOk, WorkersOk, EndingOk, Next;
  }

  // When the workers are told to stop, every task that existed at the snapshot has finished, and they stay
  // told.
  lemma StopWaitsForAll(configured: nat, run: seq<State>, k: nat, e: nat, n: nat, i: nat, j: nat, task: nat)
    requires IsRun(configured, run) && k < e < n < |run|
    requires CallsAt(run, k, i, Snapshot) && run[k].pool.started && CallsAt(run, e, j, Stop)
    requires ValidTask(run[k].pool, task)
    ensures ValidTask(run[e].pool, task) && IsFinished(TaskAt(run[e].pool, task).state)
    ensures run[n].pool.stopping
  {
    StopIsDone(configured, run, e, j);
    SnapshotCounts(run, k, i);
    hide IsRun, CallsAt;
    EndingLasts(configured, run, k + 1, e);
    EndingLasts(configured, run, e + 1, n);
    assert WaitsForAll(run[e], |run[k].pool.tasks|);
  }

  lemma SnapshotCounts(run: seq<State>, k: nat, i: nat)
    requires CallsAt(run, k, i, Snapshot) && run[k].pool.started
    ensures WaitsForAll(run[k + 1], |run[k].pool.tasks|)
  {
    UserEnding(run[k], i, Snapshot);
    hide UserStep, CanStep;
  }

  // ---------------------------------------------------------------- the main program's locks

  ghost predicate HasNothing(t: Table, key: nat) {
    OwnsNothing(t, key) && StackOf(t, key) == []
  }

  // Once the shutdown has begun the main program owns nothing, and does not wait for a lock itself.
  ghost predicate MainIsClean(s: State) {
    !s.ending.NotEnding? ==>
      HasNothing(s.table, 0) && s.threads != [] && (|s.threads[0].stack| == 1 ==> !WaitsForLock(s.threads[0]))
  }

  lemma OthersKeepNothing(s: State, u: State, i: nat, key: nat)
    requires i < |s.threads| && OthersKeepLocks(s, u, i) && !MyKey(s, i, key) && HasNothing(s.table, key)
    ensures HasNothing(u.table, key)
  {
    forall id: nat ensures Owner(u.table, id) != key {
      assert Owner(s.table, id) != key;
      assert Rec(u.table, id) == Rec(s.table, id)
             || (Mine(s, i, Owner(s.table, id)) && Mine(s, i, Owner(u.table, id)));
    }
  }

  lemma SameLocksNothing(t: Table, u: Table, key: nat)
    requires HasNothing(t, key) && u.locks == t.locks && u.stacks == t.stacks
    ensures HasNothing(u, key)
  {
    forall id: nat ensures Owner(u, id) != key {
      assert Owner(t, id) != key && Rec(u, id) == Rec(t, id);
    }
  }

  lemma KeyZeroIsMain(s: State, i: nat)
    requires Inv(s) && i < |s.threads| && s.threads[i].stack != []
    ensures (i == 0 && |s.threads[i].stack| == 1) || Cur(s.threads[i]) > 0
  {
    hide TasksOk, RecordsOk, LocksOk, WorkersOk, EndingOk;
    OneThread(s, i);
    hide ThreadsOk;
    var d := |s.threads[i].stack| - 1;
    assert (i == 0 && d == 0) || HasLoc(s, s.threads[i].stack[d], OnStack(i, d));
  }

  lemma ShutdownIs(s: State, normalExit: bool, t: Table)
    requires CanStep(s, 0, Shutdown(normalExit)) && s.threads[0].pc.User? && ReleaseAll(s.table, Cur(s.threads[0])) == Ok(t)
    ensures var u := UserStep(s, 0, Shutdown(normalExit));
            && u.table == t.(notified := {}) && u.ending == Releasing(normalExit)
            && u.threads != [] && u.threads[0].pc.User?
  {
    hide ReleaseAll, Announced;
  }

  lemma ShutdownCleans(s: State, normalExit: bool)
    requires TableOk(s.table) && CanStep(s, 0, Shutdown(normalExit)) && s.threads[0].pc.User? && Cur(s.threads[0]) == 0
    ensures MainIsClean(UserStep(s, 0, Shutdown(normalExit)))
  {
    hide UserStep, CanStep, TableOk, ReleaseAll;
    ReleaseAllReleasesAll(s.table, 0);
    var t := ReleaseAll(s.table, 0).t;
    ShutdownIs(s, normalExit, t);
    SameLocksNothing(t, t.(notified := {}), 0);
  }

  // What the main program calls after its shutdown has begun.
  lemma MainCallIsQuiet(s: State, a: Action)
    requires CanStep(s, 0, a) && s.threads[0].pc.User? && |s.threads[0].stack| == 1 && !s.ending.NotEnding?
    ensures var u := UserStep(s, 0, a);
            u.table.locks == s.table.locks && u.table.stacks == s.table.stacks && !u.ending.NotEnding?
            && u.threads != [] && !WaitsForLock(u.threads[0])
  {
    hide Announced, CycleLocked, Enter, ReleaseAll, ReleaseReversed, PopExplicit, PopTo;
  }

  predicate StaysOut(u: State, i: nat) {
    i < |u.threads| && !WaitsForLock(u.threads[i])
  }

  lemma BeginStaysOut(s: State, i: nat, task: nat, waits: seq<nat>, back: Pc)
    requires StaysOut(s, i) && !back.LockNoted? && !back.LockWait? && !back.LockWoken?
    ensures StaysOut(BeginStep(s, i, task, waits, back), i)
  {
    hide BeginRun;
  }

  lemma FinishStaysOut(s: State, i: nat, failure: string)
    requires StaysOut(s, i) && s.threads[i].stack != []
    ensures StaysOut(FinishStep(s, i, failure), i)
  {
    hide FinishRun;
  }

  lemma LookerStaysOut(s: State, i: nat)
    requires CanStep(s, i, Run) && LooksForWork(s.threads[i].pc)
    ensures StaysOut(RunStep(s, i), i)
  {
    hide MaybeAddWorker;
  }

  lemma NoteStaysOut(s: State, i: nat, target: nat, next: Pc)
    requires StaysOut(s, i) && s.threads[i].stack != [] && !next.LockNoted? && !next.LockWait? && !next.LockWoken?
    ensures StaysOut(NoteStep(s, i, target, next), i)
  {
    hide CycleLocked, Announced;
  }

  lemma RunStaysOut(s: State, i: nat)
    requires CanStep(s, i, Run) && !s.threads[i].pc.User? && StaysOut(s, i)
    ensures StaysOut(RunStep(s, i), i)
  {
    var th := s.threads[i];
    if RunsTask(th.pc) {
      if th.pc.Released? {
        FinishIsStep(s, i, th.pc.failure);
        FinishStaysOut(s, i, th.pc.failure);
      } else {
        BeginIsStep(s, i);
        BeginStaysOut(s, i, th.pc.task, if th.pc.Claimed? then th.waits else th.waits + [th.pc.handle],
                      if th.pc.Claimed? then Fetch else Helped(th.pc.handle, th.pc.task));
      }
      hide RunStep;
    } else if LooksForWork(th.pc) {
      LookerStaysOut(s, i);
      hide RunStep;
    } else {
      WaiterStaysOut(s, i);
      hide RunStep;
    }
  }

  lemma WaiterStaysOut(s: State, i: nat)
    requires CanStep(s, i, Run) && !s.threads[i].pc.User? && StaysOut(s, i)
    requires !RunsTask(s.threads[i].pc) && !LooksForWork(s.threads[i].pc)
    ensures StaysOut(RunStep(s, i), i)
  {
    match s.threads[i].pc
    case Popped(h, task) =>
      hide NoteStep;
      NoteStaysOut(s, i, task, HelpClaimed(h, task));
    case Helped(h, task) =>
      hide NoteStep;
      NoteStaysOut(s, i, h, LoopTop(h));
    case _ =>
      hide ReleaseAll, Announced, BlockEnd;
  }

  lemma BeginStack(s: State, i: nat, task: nat, waits: seq<nat>, back: Pc)
    requires i < |s.threads|
    ensures var u := BeginStep(s, i, task, waits, back);
            i < |u.threads| && |u.threads[i].stack| >= |s.threads[i].stack|
  {
    hide BeginRun;
  }

  lemma StepStack(s: State, i: nat, a: Action)
    requires CanStep(s, i, a) && !s.threads[i].pc.Released?
    ensures i < |Step(s, i, a).threads| && |Step(s, i, a).threads[i].stack| >= |s.threads[i].stack|
  {
    var th := s.threads[i];
    if th.pc.User? {
      UserThreads(s, i, a);
      hide UserStep;
    } else if RunsTask(th.pc) {
      BeginIsStep(s, i);
      BeginStack(s, i, th.pc.task, if th.pc.Claimed? then th.waits else th.waits + [th.pc.handle],
                 if th.pc.Claimed? then Fetch else Helped(th.pc.handle, th.pc.task));
      hide RunStep;
    } else {
      QuietStack(s, i);
      hide RunStep;
    }
  }

  lemma MainStepKeepsClean(s: State, a: Action)
    requires Inv(s) && CanStep(s, 0, a) && MainIsClean(s) && !s.ending.NotEnding?
    requires s.threads[0].stack != [] && |s.threads[0].stack| == 1
    ensures MainIsClean(Step(s, 0, a))
  {
    if s.threads[0].pc.User? {
      MainCallIsQuiet(s, a);
      hide Inv, UserStep, CanStep;
      SameLocksNothing(s.table, UserStep(s, 0, a).table, 0);
    } else {
      MainIsNotReturning(s);
      QuietLocks(s, 0);
      RunStaysOut(s, 0);
      RunEnding(s, 0);
      hide Inv, RunStep, CanStep;
      SameLocksNothing(s.table, RunStep(s, 0).table, 0);
    }
  }

  lemma MainIsNotReturning(s: State)
    requires Inv(s) && |s.threads[0].stack| == 1
    ensures !s.threads[0].pc.Returned?
  {
    hide TasksOk, RecordsOk, LocksOk, WorkersOk, EndingOk;
    OneThread(s, 0);
    hide ThreadsOk;
  }

  // A helper's stack grows, or the task on top of it ends and the helper goes on.
  lemma HelperStaysOut(s: State, a: Action)
    requires CanStep(s, 0, a) && |s.threads[0].stack| > 1
    ensures var u := Step(s, 0, a);
            u.threads != [] && (|u.threads[0].stack| == 1 ==> !WaitsForLock(u.threads[0]))
  {
    if s.threads[0].pc.Released? {
      RunStaysOut(s, 0);
      hide RunStep;
    } else {
      StepStack(s, 0, a);
      hide Step, CanStep;
    }
  }

  lemma StepKeepsEnding(s: State, i: nat, a: Action)
    requires CanStep(s, i, a)
    ensures !s.ending.NotEnding? ==> !Step(s, i, a).ending.NotEnding?
    ensures s.ending.NotEnding? && !Step(s, i, a).ending.NotEnding? ==> s.threads[i].pc.User? && a.Shutdown?
  {
    if s.threads[i].pc.User? {
      UserEnding(s, i, a);
      hide UserStep;
    } else {
      RunEnding(s, i);
      hide RunStep;
    }
  }

  lemma OtherStepKeepsClean(s: State, i: nat, a: Action)
    requires Inv(s) && CanStep(s, i, a) && MainIsClean(s) && !s.ending.NotEnding? && !MyKey(s, i, 0)
    ensures MainIsClean(Step(s, i, a))
  {
    StepKeepsOthers(s, i, a);
    StepKeepsEnding(s, i, a);
    if i == 0 {
      MainHasFrame(s);
      HelperStaysOut(s, a);
    }
    hide Inv, CanStep, Step, OthersKeepLocks, HasNothing;
    OthersKeepNothing(s, Step(s, i, a), i, 0);
  }

  lemma MainHasFrame(s: State)
    requires Inv(s) && s.threads != [] && !MyKey(s, 0, 0)
    ensures |s.threads[0].stack| > 1
  {
    hide TasksOk, RecordsOk, LocksOk, WorkersOk, EndingOk;
    OneThread(s, 0);
    hide ThreadsOk;
  }

  lemma StepKeepsClean(s: State, i: nat, a: Action)
    requires Inv(s) && CanStep(s, i, a) && MainIsClean(s)
    ensures MainIsClean(Step(s, i, a))
  {
    StepKeepsEnding(s, i, a);
    if s.ending.NotEnding? {
      if s.threads[i].pc.User? && a.Shutdown? {
        ShutdownIsMains(s, i, a.normalExit);
        ShutdownCleans(s, a.normalExit);
      }
      hide Inv, Step, CanStep, HasNothing;
    } else {
      if MyKey(s, i, 0) {
        KeyZeroIsMain(s, i);
        MainStepKeepsClean(s, a);
      } else {
        OtherStepKeepsClean(s, i, a);
      }
      hide Inv, Step, CanStep, MainIsClean;
    }
  }

  lemma ShutdownIsMains(s: State, i: nat, normalExit: bool)
    requires Inv(s) && CanStep(s, i, Shutdown(normalExit)) && s.threads[i].pc.User?
    ensures i == 0 && s.threads[i].stack != [] && Cur(s.threads[0]) == 0 && TableOk(s.table)
  {
    hide TasksOk, RecordsOk, WorkersOk, EndingOk, TableOk;
    OneThread(s, i);
    hide ThreadsOk;
  }

  lemma EventKeepsClean(s: State, e: Event)
    requires Inv(s) && CanHappen(s, e) && MainIsClean(s)
    ensures MainIsClean(After(s, e))
  {
    match e
    case ThreadStep(i, a) =>
      hide Inv, Step, CanStep, MainIsClean;
      StepKeepsClean(s, i, a);
    case SpuriousWake(_) =>
  }

  // Once the shutdown has begun, the main program owns no lock and has no open LOCK for the rest of the run,
  // whatever it held when it ended: no task waits for it in vain.
  lemma {:induction false} MainOwnsNothingAtTheEnd(configured: nat, run: seq<State>, n: nat)
    requires IsRun(configured, run) && n < |run|
    ensures MainIsClean(run[n])
    ensures !run[n].ending.NotEnding? ==> OwnsNothing(run[n].table, 0) && StackOf(run[n].table, 0) == []
    decreases n
  {
    hide Inv, Step, MayCall, CanStep;
    if n == 0 {
      assert run[0].ending == NotEnding;
    } else {
      MainOwnsNothingAtTheEnd(configured, run, n - 1);
      StepIsNext(configured, run, n - 1);
      var e: Event :| CanHappen(run[n - 1], e) && run[n] == After(run[n - 1], e);
      EventKeepsClean(run[n - 1], e);
    }
  }

  // ---------------------------------------------------------------- the shutdown waits for one task after the other

  // While the shutdown drains, the main program waits for the first task it has not waited for yet.
  ghost predicate DrainsInOrder(s: State) {
    s.ending.Draining? && s.threads != [] && Awaited(s.threads[0], 0).Some? ==>
      s.ending.done < s.ending.all && Awaited(s.threads[0], 0).value == s.ending.done + 1
  }

  lemma OnlyMainEnds(s: State, i: nat, a: Action)
    requires CanStep(s, i, a) && s.threads[i].pc.User?
    ensures a.Snapshot? || a.Shutdown? ==> i == 0 && |s.threads[0].stack| == 1
    ensures i == 0 && |s.threads[0].stack| == 1 && s.ending.Draining? && a.Wait? ==>
              s.ending.done < s.ending.all && a.task == s.ending.done + 1
  {
  }

  lemma MainShape(s: State)
    requires Inv(s)
    ensures s.threads != [] && s.threads[0].stack != [] && |s.threads[0].waits| == |s.threads[0].stack| - 1
    ensures |s.threads[0].stack| == 1 ==> !RunsTask(s.threads[0].pc) || s.threads[0].pc.HelpClaimed?
  {
    hide TasksOk, RecordsOk, LocksOk, WorkersOk, EndingOk;
    OneThread(s, 0);
    hide ThreadsOk;
  }

  // What the main thread waits for stays until it is over.
  lemma RunAwaits(s: State)
    requires Inv(s) && CanStep(s, 0, Run) && !s.threads[0].pc.User?
    ensures var u := RunStep(s, 0);
            u.threads != []
            && (u.fatal || Awaited(u.threads[0], 0).None?
                || (Awaited(u.threads[0], 0) == Awaited(s.threads[0], 0) && !LastWait(s, 0)))
  {
    MainShape(s);
    WaiterShape(s, 0);
    hide Inv, Awaited;
    var th := s.threads[0];
    if th.pc.HelpClaimed? {
      BeginIsStep(s, 0);
      BeginAwaits(s, 0, th.pc.task, th.waits + [th.pc.handle], Helped(th.pc.handle, th.pc.task), 0);
      hide RunStep;
    } else if th.pc.Released? {
      FinishIsStep(s, 0, th.pc.failure);
      FinishAwaits(s, 0, th.pc.failure, 0);
      hide RunStep;
    } else if |th.stack| > 1 {
      QuietStack(s, 0);
      hide RunStep;
      DeepAwaits(s, RunStep(s, 0), 0, 0);
    } else {
      BottomAwaits(s);
      hide RunStep;
    }
  }

  lemma BottomAwaits(s: State)
    requires CanStep(s, 0, Run) && !s.threads[0].pc.User? && |s.threads[0].stack| == 1
    requires !RunsTask(s.threads[0].pc) && !Unstacked(s.threads[0].pc)
    ensures var u := RunStep(s, 0);
            u.threads != []
            && (u.fatal || Awaited(u.threads[0], 0).None?
                || (Awaited(u.threads[0], 0) == Awaited(s.threads[0], 0) && !LastWait(s, 0)))
  {
    if s.threads[0].pc.WaitOver? {
      WaitIsOver(s, 0, 0);
    } else if Awaited(s.threads[0], 0).Some? {
      TopAwaits(s, 0, 0);
    } else {
      TopStaysFree(s, 0, 0);
    }
    hide RunStep, Awaited;
  }

  lemma MainDrains(s: State, a: Action)
    requires Inv(s) && DrainsInOrder(s) && CanStep(s, 0, a)
    ensures Step(s, 0, a).fatal || DrainsInOrder(Step(s, 0, a))
  {
    MainShape(s);
    if s.threads[0].pc.User? {
      UserAwaits(s, 0, a, 0);
      UserEnding(s, 0, a);
      OnlyMainEnds(s, 0, a);
      hide Inv, CanStep, UserStep;
    } else {
      RunAwaits(s);
      RunEnding(s, 0);
      hide Inv, CanStep, RunStep, Awaited;
    }
  }

  lemma OtherDrains(s: State, i: nat, a: Action)
    requires Inv(s) && DrainsInOrder(s) && CanStep(s, i, a) && i > 0
    ensures DrainsInOrder(Step(s, i, a))
  {
    StepFrames(s, i, a);
    MainShape(s);
    if s.threads[i].pc.User? {
      UserEnding(s, i, a);
      OnlyMainEnds(s, i, a);
      hide Inv, CanStep, UserStep, Awaited;
    } else {
      RunEnding(s, i);
      hide Inv, CanStep, RunStep, Awaited;
    }
  }

  lemma EventDrains(s: State, e: Event)
    requires Inv(s) && CanHappen(s, e) && DrainsInOrder(s)
    ensures After(s, e).fatal || DrainsInOrder(After(s, e))
  {
    match e
    case ThreadStep(i, a) =>
      hide Inv, Step, CanStep, DrainsInOrder;
      if i == 0 {
        MainDrains(s, a);
      } else {
        OtherDrains(s, i, a);
      }
    case SpuriousWake(_) =>
  }

  lemma {:induction false} ShutdownWaitsInOrder(configured: nat, run: seq<State>, n: nat)
    requires Arrived(configured, run, n)
    ensures DrainsInOrder(run[n])
    decreases n
  {
    hide Inv, Step, MayCall, CanStep;
    if n == 0 {
      assert run[0].ending == NotEnding;
    } else {
      StepIsNext(configured, run, n - 1);
      ShutdownWaitsInOrder(configured, run, n - 1);
      var e: Event :| CanHappen(run[n - 1], e) && run[n] == After(run[n - 1], e);
      hide IsRun;
      EventDrains(run[n - 1], e);
    }
  }

  // The shutdown goes on: each wait that is over counts one more task, in the order of their ids ...
  lemma EachWaitCounts(configured: nat, run: seq<State>, n: nat)
    requires Arrived(configured, run, n) && n + 1 < |run| && run[n].ending.Draining?
    requires CanStep(run[n], 0, Run) && run[n].threads[0].pc.WaitOver? && |run[n].threads[0].stack| == 1
    requires run[n + 1] == Step(run[n], 0, Run)
    ensures run[n + 1].ending == run[n].ending.(done := run[n].ending.done + 1)
    ensures run[n].threads[0].pc.handle == run[n].ending.done + 1
  {
    ShutdownWaitsInOrder(configured, run, n);
    RunEnding(run[n], 0);
    hide IsRun, RunStep;
  }

  // ... and afterwards the main program can wait for the next one, or stop when there is none.
  lemma ShutdownGoesOn(configured: nat, run: seq<State>, n: nat)
    requires Arrived(configured, run, n) && run[n].ending.Draining?
    requires run[n].threads != [] && run[n].threads[0].pc.User? && |run[n].threads[0].stack| == 1 && !Sleeping(run[n], 0)
    ensures var done := run[n].ending.done;
            if done < run[n].ending.all then CanStep(run[n], 0, Action.Wait(done + 1)) else CanStep(run[n], 0, Stop)
  {
    RunsKeepInv(configured, run, n);
    hide IsRun, ThreadsOk, TasksOk, RecordsOk, LocksOk, WorkersOk;
  }
}
