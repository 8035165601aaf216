/**
 The native concurrency runtime as one state machine: any number of threads run tasks, take locks and
 wait for each other, and each mutex-protected section of
 native/uxb_runtime/uxb_runtime_task_v2.cpp and native/uxb_runtime/uxb_runtime_sync.cpp is one step.

 Thread 0 is the main thread, the others are workers. `stack` holds the tasks that run on a thread, the
 current one last; a task below another one is suspended inside wait_finished (it "helps"), and `waits`
 holds the task it waits for. `loc` is an auxiliary record of where each task is; no step reads it.
 The sets `sleepWork`, `sleepTask` and `sleepLock` hold the threads that sleep in a condition variable
 and have not been notified since.
 */
module Runtime {
  import opened Basics
  import opened LockTable
  import opened TaskPool
  import opened WaitGraph

  datatype Pc =
    | Fetch                                               // worker_main, before it locks the queue
    | Idle                                                // in g_workAvailable.wait
    | Claimed(task: nat)                                  // popped by a worker, run_task not yet begun
    | User                                                // compiled code of the current task
    | LockNoted(ids: seq<nat>, explicitly: bool, id: nat) // wait_free_locked: edge written
    | LockWait(ids: seq<nat>, explicitly: bool, id: nat)  // in the condition variable of lock `id`
    | LockWoken(ids: seq<nat>, explicitly: bool)          // about to erase the edge and try again
    | LoopTop(handle: nat)                                // wait_finished: before sync_holds_any
    | HoldsNothing(handle: nat)                           // before sync_explicit_total
    | Decided(handle: nat, mayHelp: bool)                 // before the task mutex
    | TaskWait(handle: nat)                               // in g_taskFinished.wait
    | Popped(handle: nat, task: nat)                      // a helper has popped `task`
    | HelpClaimed(handle: nat, task: nat)                 // ... and noted its edge to it
    | Helped(handle: nat, task: nat)                      // run_task(task) has returned
    | WaitOver(handle: nat)                               // before sync_clear_wait
    | Returned(failure: string)                           // the thunk has returned
    | Released(failure: string)                           // after sync_release_all
    | Exited

  datatype Thread = Thread(worker: bool, stack: seq<nat>, waits: seq<nat>, pc: Pc)

  datatype Loc = Queued | ClaimedBy(thread: nat) | OnStack(thread: nat, depth: nat) | Finished

  // The end of the main program: __uxb_rt_task_shutdown.
  datatype Ending = NotEnding | Releasing(normalExit: bool) | Draining(all: nat, done: nat)

  datatype State = State(
    table: Table,
    pool: Pool,
    threads: seq<Thread>,
    loc: seq<Loc>,
    sleepWork: set<nat>,
    sleepTask: set<nat>,
    sleepLock: set<nat>,
    ending: Ending,
    configured: nat,
    fatal: bool)

  datatype Action =
    | Run                                    // the next runtime section of a thread that is not in user code
    | Spawn(wake: nat)                       // `wake` is the sleeper that notify_one picks
    | Cancel(task: nat)
    | Throw(text: string)
    | CancelCheck
    | SyncEnter(ids: seq<nat>, explicitly: bool)
    | SyncLeave(ids: seq<nat>)
    | Unlock
    | ReleaseTo(mark: int)
    | Wait(task: nat)
    | Return(failure: string)
    | Die                                    // runtime_fatal, e.g. JOIN of a failed task
    | Shutdown(normalExit: bool)
    | Snapshot
    | Stop

  const NEW_WORKER := Thread(true, [], [], Fetch)

  function Initial(configured: nat): State {
    State(EMPTY, NO_POOL, [Thread(false, [0], [], User)], [], {}, {}, {}, NotEnding, configured, false)
  }

  function Cur(th: Thread): nat
    requires th.stack != []
  {
    th.stack[|th.stack| - 1]
  }

  function SetThread(s: State, i: nat, th: Thread): State
    requires i < |s.threads|
  {
    s.(threads := s.threads[i := th])
  }

  function SetPc(s: State, i: nat, pc: Pc): State
    requires i < |s.threads|
  {
    SetThread(s, i, s.threads[i].(pc := pc))
  }

  // The new pool record; workers that the section started begin at the top of worker_main.
  function SetPool(s: State, p: Pool): State {
    s.(pool := p,
       threads := s.threads + seq(if Workers(p) > Workers(s.pool) then Workers(p) - Workers(s.pool) else 0, _ => NEW_WORKER))
  }

  // The new lock table; the waiters of every announced lock wake up.
  function SetTable(s: State, t: Table): State {
    s.(table := t.(notified := {}),
       sleepLock := set j | j in s.sleepLock && !Announced(s, t, j))
  }

  predicate Announced(s: State, t: Table, j: nat) {
    j < |s.threads| && s.threads[j].pc.LockWait? && s.threads[j].pc.id in t.notified
  }

  function SetLoc(s: State, task: nat, loc: Loc): State {
    if 1 <= task <= |s.loc| then s.(loc := s.loc[task - 1 := loc]) else s
  }

  function Fatally(s: State): State {
    s.(fatal := true)
  }

  // ---------------------------------------------------------------- sections of a thread

  function Pop(s: State, i: nat): State
    requires s.pool.queue != []
  {
    SetLoc(SetPool(s, PopFront(s.pool)), s.pool.queue[0], ClaimedBy(i))
  }

  function FetchStep(s: State, i: nat): State
    requires i < |s.threads|
  {
    if s.pool.queue != [] then SetPc(Pop(s, i), i, Claimed(s.pool.queue[0]))
    else if s.pool.stopping then SetPc(s, i, Exited)
    else SetPc(s, i, Idle).(pool := s.pool.(idleWorkers := s.pool.idleWorkers + 1), sleepWork := s.sleepWork + {i})
  }

  function IdleStep(s: State, i: nat): State
    requires i < |s.threads|
  {
    var p := s.pool.(idleWorkers := s.pool.idleWorkers - 1);
    if s.pool.queue != [] then SetPc(Pop(s.(pool := p), i), i, Claimed(s.pool.queue[0]))
    else if s.pool.stopping then SetPc(s.(pool := p), i, Exited)
    else s.(sleepWork := s.sleepWork + {i})
  }

  // run_task up to the call of the thunk; `back` is where a helper or worker goes on when the task
  // was cancelled before it began.
  function BeginStep(s: State, i: nat, task: nat, waits: seq<nat>, back: Pc): State
    requires i < |s.threads|
  {
    if !ValidTask(s.pool, task) then s
    else
      var s1 := s.(pool := BeginRun(s.pool, task));
      var th := s.threads[i];
      if TaskAt(s1.pool, task).state == Running then
        SetLoc(SetThread(s1, i, Thread(th.worker, th.stack + [task], waits, User)), task, OnStack(i, |th.stack|))
      else
        SetLoc(SetPc(s1, i, back), task, Finished).(sleepTask := {})
  }

  // run_task after sync_release_all.
  function FinishStep(s: State, i: nat, failure: string): State
    requires i < |s.threads| && s.threads[i].stack != []
  {
    var th := s.threads[i];
    var task := Cur(th);
    if !ValidTask(s.pool, task) then s
    else
      var s1 := SetLoc(s.(pool := FinishRun(s.pool, task, failure), sleepTask := {}), task, Finished);
      var left := th.stack[..|th.stack| - 1];
      if th.waits == [] then SetThread(s1, i, Thread(th.worker, left, [], Fetch))
      else
        var n := |th.waits| - 1;
        SetThread(s1, i, Thread(th.worker, left, th.waits[..n], Helped(th.waits[n], task)))
  }

  // One round of the loop in SYNC_ENTER, up to the wait.
  function EnterStep(s: State, i: nat, ids: seq<nat>, explicitly: bool): State
    requires i < |s.threads| && s.threads[i].stack != []
  {
    var key := Cur(s.threads[i]);
    match Enter(s.table, key, ids, explicitly)
    case Entered(t) => SetPc(SetTable(s, t), i, User)
    case Blocked(t, on) =>
      if Owner(t, on) < 0 || Owner(t, on) == key then SetPc(SetTable(s, t), i, LockWoken(ids, explicitly))
      else
        var u := t.(edges := t.edges[key := OnLock(on)]);
        if CycleLocked(u, Owner(t, on), key) then Fatally(s)
        else SetPc(SetTable(s, u), i, LockNoted(ids, explicitly, on))
    case SelfDeadlocked => Fatally(s)
    case InternalError => Fatally(s)
  }

  // sync_note_wait_task writes the edge before it looks for a cycle.
  function Noted(t: Table, key: nat, target: nat): Table {
    t.(edges := t.edges[key := OnTask(target)])
  }

  function NoteStep(s: State, i: nat, target: nat, next: Pc): State
    requires i < |s.threads| && s.threads[i].stack != []
  {
    var key := Cur(s.threads[i]);
    var u := Noted(s.table, key, target);
    if CycleLocked(u, target, key) then Fatally(s)
    else SetPc(SetTable(s, u), i, next)
  }

  function ReleasedStep(s: State, i: nat, r: Released, next: Pc): State
    requires i < |s.threads|
  {
    match r
    case Ok(t) => SetPc(SetTable(s, t), i, next)
    case NotOwner => Fatally(s)
  }

  // The section of wait_finished under the task mutex.
  function DecidedStep(s: State, i: nat, handle: nat, mayHelp: bool): State
    requires i < |s.threads|
  {
    if !ValidTask(s.pool, handle) || IsFinished(TaskAt(s.pool, handle).state) then SetPc(s, i, WaitOver(handle))
    else if mayHelp && s.pool.queue != [] then SetPc(Pop(s, i), i, Popped(handle, s.pool.queue[0]))
    else SetPc(SetPool(s, BlockBegin(s.pool, s.threads[i].worker)), i, TaskWait(handle)).(sleepTask := s.sleepTask + {i})
  }

  function WaitOverStep(s: State, i: nat, handle: nat): State
    requires i < |s.threads| && s.threads[i].stack != []
  {
    var t := s.table.(edges := s.table.edges - {Cur(s.threads[i])});
    var s1 := SetPc(SetTable(s, t), i, User);
    if i == 0 && |s.threads[i].stack| == 1 && s.ending.Draining?
       && s.ending.done < s.ending.all && handle == s.ending.done + 1 then
      s1.(ending := s.ending.(done := handle))
    else s1
  }

  // ---------------------------------------------------------------- steps

  predicate Sleeping(s: State, i: nat) {
    i in s.sleepWork || i in s.sleepTask || i in s.sleepLock
  }

  // What compiled code may call where; after the end of the main program only the shutdown goes on.
  predicate MayCall(s: State, i: nat, a: Action)
    requires i < |s.threads| && s.threads[i].stack != []
  {
    var main := i == 0 && |s.threads[i].stack| == 1;
    && (match a
        case Run => false
        case Spawn(wake) => s.sleepWork == {} || wake in s.sleepWork
        case Cancel(task) => ValidTask(s.pool, task)
        case Throw(_) => true
        case CancelCheck => !main
        case SyncEnter(ids, _) => ids != []
        case SyncLeave(ids) => ids != []
        case Unlock => true
        case ReleaseTo(_) => true
        case Wait(task) => ValidTask(s.pool, task)
        case Return(failure) => !main && (failure == "" || FAILURE_PREFIX <= failure)
        case Die => true
        case Shutdown(_) => main && s.ending.NotEnding?
        case Snapshot => main && s.ending.Releasing?
        case Stop => main && s.ending.Draining? && s.ending.done == s.ending.all)
    && (main && s.ending.Releasing? ==> a.Snapshot?)
    && (main && s.ending.Draining? ==>
          a.Stop? || (a.Wait? && s.ending.done < s.ending.all && a.task == s.ending.done + 1))
  }

  predicate CanStep(s: State, i: nat, a: Action) {
    && !s.fatal
    && i < |s.threads|
    && !Sleeping(s, i)
    && match s.threads[i].pc
       case User => s.threads[i].stack != [] && MayCall(s, i, a)
       case Exited => false
       case Fetch => a.Run?
       case Idle => a.Run?
       case Claimed(_) => a.Run?
       case _ => a.Run? && s.threads[i].stack != []
  }

  function RunStep(s: State, i: nat): State
    requires CanStep(s, i, Run)
  {
    var th := s.threads[i];
    match th.pc
    case Fetch => FetchStep(s, i)
    case Idle => IdleStep(s, i)
    case Claimed(task) => BeginStep(s, i, task, th.waits, Fetch)
    case LockNoted(ids, ex, id) => SetPc(SetPool(s, BlockBegin(s.pool, th.worker)), i, LockWait(ids, ex, id))
    case LockWait(ids, ex, id) =>
      if Owner(s.table, id) < 0 || Owner(s.table, id) == Cur(th) then
        SetPc(s.(pool := BlockEnd(s.pool, th.worker)), i, LockWoken(ids, ex))
      else s.(sleepLock := s.sleepLock + {i})
    case LockWoken(ids, ex) =>
      EnterStep(s.(table := s.table.(edges := s.table.edges - {Cur(th)})), i, ids, ex)
    case LoopTop(h) => SetPc(s, i, if Cur(th) in s.table.held then Decided(h, false) else HoldsNothing(h))
    case HoldsNothing(h) => SetPc(s, i, Decided(h, s.table.entries == 0))
    case Decided(h, mayHelp) => DecidedStep(s, i, h, mayHelp)
    case TaskWait(h) => SetPc(s.(pool := BlockEnd(s.pool, th.worker)), i, LoopTop(h))
    case Popped(h, task) => NoteStep(s, i, task, HelpClaimed(h, task))
    case HelpClaimed(h, task) => BeginStep(s, i, task, th.waits + [h], Helped(h, task))
    case Helped(h, task) => NoteStep(s, i, h, LoopTop(h))
    case WaitOver(h) => WaitOverStep(s, i, h)
    case Returned(failure) => ReleasedStep(s, i, ReleaseAll(s.table, Cur(th)), Released(failure))
    case Released(failure) => FinishStep(s, i, failure)
    case User => s
    case Exited => s
  }

  function UserStep(s: State, i: nat, a: Action): State
    requires CanStep(s, i, a) && s.threads[i].pc.User?
  {
    var key := Cur(s.threads[i]);
    match a
    case Spawn(wake) =>
      SetPool(s, SpawnTask(s.pool, s.configured)).(loc := s.loc + [Queued], sleepWork := s.sleepWork - {wake})
    case Cancel(task) => s.(pool := RequestCancel(s.pool, task))
    case Throw(text) => if ValidTask(s.pool, key) then s.(pool := RecordThrow(s.pool, key, text)) else Fatally(s)
    case CancelCheck => if ValidTask(s.pool, key) then s.(pool := CancelPoint(s.pool, key)) else s
    case SyncEnter(ids, ex) => EnterStep(s, i, Ordered(ids), ex)
    case SyncLeave(ids) => ReleasedStep(s, i, ReleaseReversed(s.table, key, Ordered(ids), false), User)
    case Unlock => ReleasedStep(s, i, PopExplicit(s.table, key), User)
    case ReleaseTo(mark) => ReleasedStep(s, i, PopTo(s.table, key, mark), User)
    case Wait(task) => NoteStep(s, i, task, LoopTop(task))
    case Return(failure) => SetPc(s, i, Returned(failure))
    case Die => Fatally(s)
    case Shutdown(normalExit) =>
      ReleasedStep(s, i, ReleaseAll(s.table, key), User).(ending := Releasing(normalExit))
    case Snapshot =>
      if !s.pool.started then SetPc(s, i, Exited)
      else s.(pool := MarkAll(s.pool, s.ending.normalExit), ending := Draining(|s.pool.tasks|, 0))
    case Stop => SetPc(s, i, Exited).(pool := s.pool.(stopping := true), sleepWork := {})
    case Run => s
  }

  function Step(s: State, i: nat, a: Action): State
    requires CanStep(s, i, a)
  {
    if s.threads[i].pc.User? then UserStep(s, i, a) else RunStep(s, i)
  }

  // An event of a run: a step of a thread, or a spurious wake-up of a sleeping one.
  datatype Event = ThreadStep(thread: nat, action: Action) | SpuriousWake(thread: nat)

  predicate CanHappen(s: State, e: Event) {
    match e
    case ThreadStep(i, a) => CanStep(s, i, a)
    case SpuriousWake(i) => !s.fatal && Sleeping(s, i)
  }

  function After(s: State, e: Event): State
    requires CanHappen(s, e)
  {
    match e
    case ThreadStep(i, a) => Step(s, i, a)
    case SpuriousWake(i) =>
      s.(sleepWork := s.sleepWork - {i}, sleepTask := s.sleepTask - {i}, sleepLock := s.sleepLock - {i})
  }
}
