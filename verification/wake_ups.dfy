/**
 Nobody is woken for nothing. A thread sleeps only while what it waits for has not happened (that is part of
 the invariant); here the other half: in every run, a thread that is woken otherwise than spuriously finds its
 lock free, a task just finished, or is the one worker woken for a new task or told to stop.
 */
module WakeUps {
  import opened Basics
  import opened LockTable
  import opened TaskPool
  import opened WaitGraph
  import opened Runtime
  import opened Invariants
  import opened TaskSteps
  import opened Runs
  import opened Outcomes

  // ---------------------------------------------------------------- announced locks are free

  ghost predicate AnnouncedAreFree(t: Table) {
    forall id: nat :: id in t.notified ==> Owner(t, id) < 0
  }

  lemma ReleaseAnnounces(t: Table, key: nat, id: nat, explicitly: bool)
    requires AnnouncedAreFree(t) && Release(t, key, id, explicitly).Ok?
    ensures AnnouncedAreFree(Release(t, key, id, explicitly).t)
  {
    forall x: nat | x in Release(t, key, id, explicitly).t.notified
      ensures Owner(Release(t, key, id, explicitly).t, x) < 0
    {
      if x != id {
        assert x in t.notified ==> Owner(t, x) < 0;
      }
    }
  }

  lemma {:induction false} ReversedAnnounces(t: Table, key: nat, ids: seq<nat>, explicitly: bool)
    requires AnnouncedAreFree(t) && ReleaseReversed(t, key, ids, explicitly).Ok?
    ensures AnnouncedAreFree(ReleaseReversed(t, key, ids, explicitly).t)
    decreases |ids|
  {
    if ids != [] {
      ReleaseAnnounces(t, key, ids[|ids| - 1], explicitly);
      hide AnnouncedAreFree, Release;
      ReversedAnnounces(Release(t, key, ids[|ids| - 1], explicitly).t, key, ids[..|ids| - 1], explicitly);
    }
  }

  lemma SameLocksAnnounce(t: Table, u: Table)
    requires AnnouncedAreFree(t) && u.locks == t.locks && u.notified == t.notified
    ensures AnnouncedAreFree(u)
  {
    forall id: nat | id in u.notified ensures Owner(u, id) < 0 {
      assert Owner(t, id) < 0;
    }
  }

  lemma PopAnnounces(t: Table, key: nat)
    requires AnnouncedAreFree(t) && PopExplicit(t, key).Ok?
    ensures AnnouncedAreFree(PopExplicit(t, key).t)
  {
    var st := StackOf(t, key);
    if st != [] {
      var rest := st[..|st| - 1];
      var u := t.(stacks := t.stacks[key := rest], entries := t.entries - 1);
      SameLocksAnnounce(t, u);
      ReversedAnnounces(u, key, st[|st| - 1], true);
      var v := ReleaseReversed(u, key, st[|st| - 1], true).t;
      SameLocksAnnounce(v, v.(stacks := v.stacks - {key}));
      hide AnnouncedAreFree, ReleaseReversed;
    }
  }

  lemma {:induction false} PopToAnnounces(t: Table, key: nat, mark: int)
    requires AnnouncedAreFree(t) && PopTo(t, key, mark).Ok?
    ensures AnnouncedAreFree(PopTo(t, key, mark).t)
    decreases |StackOf(t, key)|
  {
    hide AnnouncedAreFree, PopExplicit;
    if |StackOf(t, key)| > mark && StackOf(t, key) != [] {
      PopShortens(t, key);
      PopAnnounces(t, key);
      PopToAnnounces(PopExplicit(t, key).t, key, mark);
    }
  }

  lemma SweepAnnounces(t: Table, key: nat)
    requires AnnouncedAreFree(t)
    ensures AnnouncedAreFree(Sweep(t, key))
  {
    forall id: nat | id in Sweep(t, key).notified ensures Owner(Sweep(t, key), id) < 0 {
      assert id in t.notified ==> Owner(t, id) < 0;
    }
  }

  lemma ReleaseAllAnnounces(t: Table, key: nat)
    requires AnnouncedAreFree(t) && ReleaseAll(t, key).Ok?
    ensures AnnouncedAreFree(ReleaseAll(t, key).t)
  {
    PopToAnnounces(t, key, 0);
    hide AnnouncedAreFree, PopTo, Sweep;
    SweepAnnounces(PopTo(t, key, 0).t, key);
  }

  lemma {:induction false} AcquireAnnouncesNothing(t: Table, key: nat, ids: seq<nat>, i: nat, explicitly: bool)
    requires i <= |ids| && !Acquire(t, key, ids, i, explicitly).Fatal?
    ensures Acquire(t, key, ids, i, explicitly).t.notified == t.notified
    decreases |ids| - i
  {
    if i < |ids| {
      var r := LockTable.TryAcquire(t, key, ids[i], explicitly);
      if r.Got? {
        AcquireAnnouncesNothing(r.t, key, ids, i + 1, explicitly);
      }
    }
  }

  lemma NothingAnnounced(t: Table)
    requires t.notified == {}
    ensures AnnouncedAreFree(t)
  {
  }

  lemma EnterAnnounces(t: Table, key: nat, ids: seq<nat>, explicitly: bool)
    requires t.notified == {}
    ensures var r := Enter(t, key, ids, explicitly);
            r.Entered? || r.Blocked? ==> AnnouncedAreFree(r.t)
  {
    var a := Acquire(t, key, ids, 0, explicitly);
    if !a.Fatal? {
      AcquireAnnouncesNothing(t, key, ids, 0, explicitly);
      NothingAnnounced(a.t);
      if a.All? {
        NothingAnnounced(Push(a.t, key, ids));
      } else if a.at < |ids| && ReleaseReversed(a.t, key, ids[..a.at], explicitly).Ok? {
        ReversedAnnounces(a.t, key, ids[..a.at], explicitly);
      }
      hide AnnouncedAreFree, Acquire, ReleaseReversed;
    }
  }

  // ---------------------------------------------------------------- threads woken by a lock

  ghost predicate LockWakesOk(s: State, u: State) {
    forall j :: j in s.sleepLock && j !in u.sleepLock ==> WokenByLock(s, u, j)
  }

  predicate WokenByLock(s: State, u: State, j: nat) {
    j < |s.threads| && s.threads[j].pc.LockWait? && Owner(u.table, s.threads[j].pc.id) < 0
  }

  lemma TableWakes(s: State, t: Table, u: State)
    requires AnnouncedAreFree(t) && u.sleepLock == SetTable(s, t).sleepLock && u.table.locks == t.locks
    ensures LockWakesOk(s, u)
  {
    forall j | j in s.sleepLock && j !in u.sleepLock ensures WokenByLock(s, u, j) {
      assert Announced(s, t, j);
      assert Owner(u.table, s.threads[j].pc.id) == Owner(t, s.threads[j].pc.id);
    }
  }

  lemma SleepersStay(s: State, u: State)
    requires s.sleepLock <= u.sleepLock
    ensures LockWakesOk(s, u)
  {
  }

  lemma EnterWakes(s: State, t0: Table, i: nat, ids: seq<nat>, explicitly: bool)
    requires i < |s.threads| && s.threads[i].stack != [] && t0.notified == {}
    ensures LockWakesOk(s, EnterStep(s.(table := t0), i, ids, explicitly))
  {
    var key := Cur(s.threads[i]);
    var r := Enter(t0, key, ids, explicitly);
    var u := EnterStep(s.(table := t0), i, ids, explicitly);
    EnterAnnounces(t0, key, ids, explicitly);
    hide Enter, AnnouncedAreFree, CycleLocked, LockWakesOk;
    match r
    case Entered(t) => TableWakes(s, t, u);
    case Blocked(t, on) =>
      var noted := t.(edges := t.edges[key := OnLock(on)]);
      SameLocksAnnounce(t, noted);
      if Owner(t, on) < 0 || Owner(t, on) == key {
        TableWakes(s, t, u);
      } else if CycleLocked(noted, Owner(t, on), key) {
        SleepersStay(s, u);
      } else {
        TableWakes(s, noted, u);
      }
    case SelfDeadlocked => SleepersStay(s, u);
    case InternalError => SleepersStay(s, u);
  }

  lemma ReleasedWakes(s: State, i: nat, r: LockTable.Released, next: Pc)
    requires i < |s.threads| && (r.Ok? ==> AnnouncedAreFree(r.t))
    ensures LockWakesOk(s, ReleasedStep(s, i, r, next))
  {
    var u := ReleasedStep(s, i, r, next);
    hide AnnouncedAreFree, LockWakesOk, Announced;
    match r
    case Ok(t) => TableWakes(s, t, u);
    case NotOwner => SleepersStay(s, u);
  }

  lemma NoteWakes(s: State, i: nat, target: nat, next: Pc)
    requires i < |s.threads| && s.threads[i].stack != [] && s.table.notified == {}
    ensures LockWakesOk(s, NoteStep(s, i, target, next))
  {
    var t := Noted(s.table, Cur(s.threads[i]), target);
    NothingAnnounced(t);
    hide AnnouncedAreFree, LockWakesOk, Announced;
    if CycleLocked(t, target, Cur(s.threads[i])) {
      SleepersStay(s, NoteStep(s, i, target, next));
    } else {
      TableWakes(s, t, NoteStep(s, i, target, next));
    }
  }

  lemma WaitOverWakes(s: State, i: nat, handle: nat)
    requires i < |s.threads| && s.threads[i].stack != [] && s.table.notified == {}
    ensures LockWakesOk(s, WaitOverStep(s, i, handle))
  {
    var t := s.table.(edges := s.table.edges - {Cur(s.threads[i])});
    NothingAnnounced(t);
    hide AnnouncedAreFree, LockWakesOk, Announced;
    TableWakes(s, t, WaitOverStep(s, i, handle));
  }

  lemma ShutdownSleepers(s: State, u: State, v: State)
    requires LockWakesOk(s, u) && v.sleepLock == u.sleepLock && v.table == u.table
    ensures LockWakesOk(s, v)
  {
    forall j | j in s.sleepLock && j !in v.sleepLock ensures WokenByLock(s, v, j) {
      assert WokenByLock(s, u, j);
    }
  }

  lemma UserWakes(s: State, i: nat, a: Action)
    requires CanStep(s, i, a) && s.threads[i].pc.User? && s.table.notified == {}
    ensures LockWakesOk(s, UserStep(s, i, a))
  {
    var key, u := Cur(s.threads[i]), UserStep(s, i, a);
    NothingAnnounced(s.table);
    hide LockWakesOk, AnnouncedAreFree, ReleaseReversed, PopExplicit, PopTo, ReleaseAll, EnterStep, ReleasedStep, NoteStep, Ordered;
    match a
    case SyncEnter(ids, ex) => EnterWakes(s, s.table, i, Ordered(ids), ex);
    case SyncLeave(ids) =>
      var r := ReleaseReversed(s.table, key, Ordered(ids), false);
      if r.Ok? {
        ReversedAnnounces(s.table, key, Ordered(ids), false);
      }
      ReleasedWakes(s, i, r, User);
    case Unlock =>
      if PopExplicit(s.table, key).Ok? {
        PopAnnounces(s.table, key);
      }
      ReleasedWakes(s, i, PopExplicit(s.table, key), User);
    case ReleaseTo(mark) =>
      if PopTo(s.table, key, mark).Ok? {
        PopToAnnounces(s.table, key, mark);
      }
      ReleasedWakes(s, i, PopTo(s.table, key, mark), User);
    case Shutdown(normalExit) =>
      if ReleaseAll(s.table, key).Ok? {
        ReleaseAllAnnounces(s.table, key);
      }
      ReleasedWakes(s, i, ReleaseAll(s.table, key), User);
      ShutdownSleepers(s, ReleasedStep(s, i, ReleaseAll(s.table, key), User), UserStep(s, i, a));
    case Wait(task) => NoteWakes(s, i, task, LoopTop(task));
    case _ => SleepersStay(s, u);
  }

  lemma RunWakes(s: State, i: nat)
    requires CanStep(s, i, Run) && !s.threads[i].pc.User? && s.table.notified == {}
    ensures LockWakesOk(s, RunStep(s, i))
  {
    var th, u := s.threads[i], RunStep(s, i);
    NothingAnnounced(s.table);
    hide LockWakesOk, AnnouncedAreFree, ReleaseAll, EnterStep, ReleasedStep, NoteStep, WaitOverStep;
    match th.pc
    case LockWoken(ids, ex) =>
      EnterWakes(s, s.table.(edges := s.table.edges - {Cur(th)}), i, ids, ex);
    case Popped(h, task) => NoteWakes(s, i, task, HelpClaimed(h, task));
    case Helped(h, task) => NoteWakes(s, i, h, LoopTop(h));
    case WaitOver(h) => WaitOverWakes(s, i, h);
    case Returned(failure) =>
      if ReleaseAll(s.table, Cur(th)).Ok? {
        ReleaseAllAnnounces(s.table, Cur(th));
      }
      ReleasedWakes(s, i, ReleaseAll(s.table, Cur(th)), Pc.Released(failure));
    case Claimed(task) =>
      BeginSleepers(s, i, task, th.waits, Fetch);
      SleepersStay(s, u);
    case HelpClaimed(h, task) =>
      BeginSleepers(s, i, task, th.waits + [h], Helped(h, task));
      SleepersStay(s, u);
    case Released(failure) =>
      FinishSleepers(s, i, failure);
      SleepersStay(s, u);
    case _ => SleepersStay(s, u);
  }

  lemma BeginSleepers(s: State, i: nat, task: nat, waits: seq<nat>, back: Pc)
    requires i < |s.threads|
    ensures BeginStep(s, i, task, waits, back).sleepLock == s.sleepLock
  {
    hide BeginRun;
  }

  lemma FinishSleepers(s: State, i: nat, failure: string)
    requires i < |s.threads| && s.threads[i].stack != []
    ensures FinishStep(s, i, failure).sleepLock == s.sleepLock
  {
    hide FinishRun;
  }

  // ---------------------------------------------------------------- threads woken by a task

  ghost predicate JustFinished(s: State, u: State, task: nat) {
    && ValidTask(s.pool, task) && !IsFinished(TaskAt(s.pool, task).state)
    && ValidTask(u.pool, task) && IsFinished(TaskAt(u.pool, task).state)
  }

  ghost predicate TaskWakesOk(s: State, u: State) {
    s.sleepTask <= u.sleepTask || exists task: nat :: JustFinished(s, u, task)
  }

  lemma BeginWakes(s: State, i: nat, task: nat, waits: seq<nat>, back: Pc)
    requires CanBegin(s, i, task, waits, back)
    ensures TaskWakesOk(s, BeginStep(s, i, task, waits, back))
    ensures BeginStep(s, i, task, waits, back).sleepWork == s.sleepWork
  {
    ClaimedTask(s, i, task, waits, back);
    hide Inv;
    if TaskAt(s.pool, task).cancelRequested {
      assert JustFinished(s, BeginStep(s, i, task, waits, back), task);
    }
  }

  lemma FinishWakes(s: State, i: nat, failure: string)
    requires CanFinish(s, i, failure)
    ensures s.threads[i].stack != [] && TaskWakesOk(s, FinishStep(s, i, failure))
    ensures FinishStep(s, i, failure).sleepWork == s.sleepWork
  {
    FinishingTask(s, i, failure);
    FinishIs(s, i, failure);
    hide Inv, FinishStep;
    assert JustFinished(s, FinishStep(s, i, failure), Cur(s.threads[i]));
  }

  lemma UserSleepers(s: State, i: nat, a: Action)
    requires CanStep(s, i, a) && s.threads[i].pc.User?
    ensures var u := UserStep(s, i, a);
            && u.sleepTask == s.sleepTask
            && u.sleepWork == (if a.Stop? then {} else if a.Spawn? then s.sleepWork - {a.wake} else s.sleepWork)
            && (a.Stop? ==> u.pool.stopping)
  {
    hide Enter, ReleaseAll, ReleaseReversed, PopExplicit, PopTo, Announced, CycleLocked, Ordered;
  }

  lemma RunSleepers(s: State, i: nat)
    requires Inv(s) && CanStep(s, i, Run) && !s.threads[i].pc.User?
    ensures TaskWakesOk(s, RunStep(s, i)) && s.sleepWork <= RunStep(s, i).sleepWork
  {
    var th := s.threads[i];
    if RunsTask(th.pc) {
      hide Inv, TaskWakesOk, RunStep;
      if th.pc.Released? {
        FinishWakes(s, i, th.pc.failure);
        FinishIsStep(s, i, th.pc.failure);
      } else {
        BeginIsStep(s, i);
        ClaimOf(s, i);
        BeginWakes(s, i, th.pc.task, if th.pc.Claimed? then th.waits else th.waits + [th.pc.handle],
                   if th.pc.Claimed? then Fetch else Helped(th.pc.handle, th.pc.task));
      }
    } else {
      hide Inv;
      WaiterSleepers(s, i);
      hide RunStep;
    }
  }

  lemma ClaimOf(s: State, i: nat)
    requires Inv(s) && i < |s.threads|
    ensures s.threads[i].pc.Claimed? ==> s.threads[i].waits == []
  {
    hide TasksOk, RecordsOk, LocksOk, WorkersOk, EndingOk;
    OneThread(s, i);
    hide ThreadsOk;
  }

  lemma WaiterSleepers(s: State, i: nat)
    requires CanStep(s, i, Run) && !s.threads[i].pc.User? && !RunsTask(s.threads[i].pc)
    ensures s.sleepTask <= RunStep(s, i).sleepTask && s.sleepWork <= RunStep(s, i).sleepWork
  {
    hide Enter, ReleaseAll, Announced, CycleLocked, Owner, MaybeAddWorker, BlockEnd;
  }

  // ---------------------------------------------------------------- over runs

  // In every run a thread that a step wakes has a reason: the lock it waits for is free, a task has just
  // finished, or it is the one worker that a SPAWN wakes or one of those that are told to stop.
  lemma WakeUpsHaveReasons(configured: nat, run: seq<State>, n: nat, i: nat, a: Action)
    requires IsRun(configured, run) && n + 1 < |run| && CanStep(run[n], i, a) && run[n + 1] == Step(run[n], i, a)
    ensures forall j :: j in run[n].sleepLock && j !in run[n + 1].sleepLock ==> WokenByLock(run[n], run[n + 1], j)
    ensures TaskWakesOk(run[n], run[n + 1])
    ensures forall j :: j in run[n].sleepWork && j !in run[n + 1].sleepWork ==>
              run[n].threads[i].pc.User? && (a == Spawn(j) || (a.Stop? && run[n + 1].pool.stopping))
  {
    StepIsNext(configured, run, n);
    NobodyAnnounced(run[n]);
    StepWakes(run[n], i, a);
    hide IsRun, Inv, CanStep, Step, Next;
  }

  lemma NobodyAnnounced(s: State)
    requires Inv(s)
    ensures s.table.notified == {}
  {
    hide ThreadsOk, TasksOk, RecordsOk, WorkersOk, EndingOk, TableOk;
  }

  lemma StepWakes(s: State, i: nat, a: Action)
    requires Inv(s) && CanStep(s, i, a) && s.table.notified == {}
    ensures LockWakesOk(s, Step(s, i, a)) && TaskWakesOk(s, Step(s, i, a))
    ensures forall j :: j in s.sleepWork && j !in Step(s, i, a).sleepWork ==>
              s.threads[i].pc.User? && (a == Spawn(j) || (a.Stop? && Step(s, i, a).pool.stopping))
  {
    if s.threads[i].pc.User? {
      UserWakes(s, i, a);
      UserSleepers(s, i, a);
      hide UserStep, Inv, CanStep, LockWakesOk;
    } else {
      RunWakes(s, i);
      RunSleepers(s, i);
      hide RunStep, Inv, CanStep, LockWakesOk;
    }
  }
}
