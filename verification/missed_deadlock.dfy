/**
 The step cap of the cycle detector is not only a bound of the proof: there is a run that ends in a
 deadlock of 1,000,001 tasks which the detector has looked at and not reported, with 1024 workers, which is
 what the runtime allows, and at most 977 tasks on any stack. The main program spawns the tasks one by one.
 A worker runs them nested in each other, each task waiting for the next one, which its own thread then runs
 to help; when its stack is as high as it may get, the next worker takes the next task and the full one
 goes to sleep. The last task waits for the first.
 */
module MissedDeadlock {
  import opened Basics
  import opened LockTable
  import opened TaskPool
  import opened WaitGraph
  import opened Runtime
  import opened Invariants
  import opened UserSteps
  import opened Runs
  import opened Deadlock

  const MAIN_THREAD := Thread(false, [0], [], User)

  // No thread but the configured ones, and at most `depth` tasks on a stack.
  ghost predicate Shallow(s: State, workers: nat, depth: nat) {
    && |s.threads| <= workers + 1
    && forall j :: 0 <= j < |s.threads| ==> |s.threads[j].stack| <= depth
  }

  ghost predicate ShallowRun(workers: nat, depth: nat, run: seq<State>) {
    IsRun(workers, run) && forall k :: 0 <= k < |run| ==> Shallow(run[k], workers, depth)
  }

  // Reached by a run in which no state needs more workers or deeper stacks.
  ghost predicate Reached(workers: nat, depth: nat, s: State) {
    exists run: seq<State> :: ShallowRun(workers, depth, run) && run[|run| - 1] == s
  }

  lemma Start(workers: nat, depth: nat, s: State)
    requires s == Initial(workers) && depth > 0
    ensures Reached(workers, depth, s)
  {
    assert ShallowRun(workers, depth, [s]);
  }

  lemma OneStep(workers: nat, depth: nat, s: State, i: nat, a: Action)
    requires Reached(workers, depth, s) && CanStep(s, i, a) && Shallow(Step(s, i, a), workers, depth)
    ensures Reached(workers, depth, Step(s, i, a))
  {
    hide CanStep, Step, Shallow;
    var u := Step(s, i, a);
    var run: seq<State> :| ShallowRun(workers, depth, run) && run[|run| - 1] == s;
    var longer := run + [u];
    assert CanHappen(s, ThreadStep(i, a)) && u == After(s, ThreadStep(i, a));
    assert Next(s, u);
    forall k | 0 <= k < |longer| - 1 ensures Next(longer[k], longer[k + 1]) {
      if k < |run| - 1 {
        assert Next(run[k], run[k + 1]);
      }
    }
    assert ShallowRun(workers, depth, longer);
  }

  // ---------------------------------------------------------------- what each step does

  // Thread i is an awake worker of a pool that goes on; nobody owns a lock.
  ghost predicate Calm(s: State, i: nat) {
    && !s.fatal && s.ending.NotEnding? && s.sleepWork == {} && s.sleepLock == {} && i !in s.sleepTask
    && 0 < i < |s.threads| && s.threads[i].worker
    && s.pool.started && !s.pool.stopping
    && s.table.notified == {} && s.table.held == map[] && s.table.entries == 0
  }

  // u is s with another pool, other wait edges and another thread i.
  ghost predicate Becomes(s: State, u: State, pool: Pool, edges: map<nat, WaitEdge>, i: nat, th: Thread)
    requires i < |s.threads|
  {
    && u.threads == s.threads[i := th] && u.pool == pool && u.table == s.table.(edges := edges)
    && |u.loc| == |s.loc| && u.configured == s.configured && u.ending == s.ending && u.fatal == s.fatal
    && u.sleepWork == s.sleepWork && u.sleepTask == s.sleepTask && u.sleepLock == s.sleepLock
  }

  lemma BecomesShallow(s: State, u: State, pool: Pool, edges: map<nat, WaitEdge>, i: nat, th: Thread,
                       workers: nat, depth: nat)
    requires i < |s.threads| && Becomes(s, u, pool, edges, i, th)
    requires Shallow(s, workers, depth) && |th.stack| <= depth
    ensures Shallow(u, workers, depth)
  {
  }

  lemma FetchEffect(s: State, i: nat)
    requires Calm(s, i) && s.threads[i].pc.Fetch? && s.pool.queue != []
    ensures CanStep(s, i, Run)
    ensures Becomes(s, Step(s, i, Run), s.pool.(queue := s.pool.queue[1..]), s.table.edges, i,
                    s.threads[i].(pc := Claimed(s.pool.queue[0])))
  {
    assert Pop(s, i).threads == s.threads;
  }

  lemma BeginEffect(s: State, i: nat, task: nat, waits: seq<nat>, back: Pc)
    requires Calm(s, i) && ValidTask(s.pool, task) && !TaskAt(s.pool, task).cancelRequested
    ensures Becomes(s, BeginStep(s, i, task, waits, back), BeginRun(s.pool, task), s.table.edges, i,
                    Thread(true, s.threads[i].stack + [task], waits, User))
  {
  }

  lemma ClaimedEffect(s: State, i: nat, task: nat)
    requires Calm(s, i) && s.threads[i].pc == Claimed(task) && ValidTask(s.pool, task)
    requires !TaskAt(s.pool, task).cancelRequested
    ensures CanStep(s, i, Run)
    ensures Becomes(s, Step(s, i, Run), BeginRun(s.pool, task), s.table.edges, i,
                    Thread(true, s.threads[i].stack + [task], s.threads[i].waits, User))
  {
    BeginEffect(s, i, task, s.threads[i].waits, Fetch);
    hide BeginStep, BeginRun;
  }

  lemma HelpClaimedEffect(s: State, i: nat, h: nat, task: nat)
    requires Calm(s, i) && s.threads[i].stack != [] && s.threads[i].pc == HelpClaimed(h, task)
    requires ValidTask(s.pool, task) && !TaskAt(s.pool, task).cancelRequested
    ensures CanStep(s, i, Run)
    ensures Becomes(s, Step(s, i, Run), BeginRun(s.pool, task), s.table.edges, i,
                    Thread(true, s.threads[i].stack + [task], s.threads[i].waits + [h], User))
  {
    BeginEffect(s, i, task, s.threads[i].waits + [h], Helped(h, task));
    hide BeginStep, BeginRun;
  }

  // A new edge whose cycle, if any, the detector does not see.
  lemma NoteEffect(s: State, i: nat, target: nat, next: Pc)
    requires Calm(s, i) && s.threads[i].stack != []
    requires !CycleLocked(Noted(s.table, Cur(s.threads[i]), target), target, Cur(s.threads[i]))
    ensures Becomes(s, NoteStep(s, i, target, next), s.pool, s.table.edges[Cur(s.threads[i]) := OnTask(target)], i,
                    s.threads[i].(pc := next))
  {
    hide CycleLocked;
    var u := Noted(s.table, Cur(s.threads[i]), target);
    assert SetTable(s, u).sleepLock == {};
  }

  lemma WaitEffect(s: State, i: nat, task: nat)
    requires Calm(s, i) && s.threads[i].stack != [] && s.threads[i].pc.User? && ValidTask(s.pool, task)
    requires !CycleLocked(Noted(s.table, Cur(s.threads[i]), task), task, Cur(s.threads[i]))
    ensures CanStep(s, i, Action.Wait(task))
    ensures Becomes(s, Step(s, i, Action.Wait(task)), s.pool, s.table.edges[Cur(s.threads[i]) := OnTask(task)], i,
                    s.threads[i].(pc := LoopTop(task)))
  {
    NoteEffect(s, i, task, LoopTop(task));
    hide NoteStep, CycleLocked;
  }

  lemma PoppedEffect(s: State, i: nat, h: nat, task: nat)
    requires Calm(s, i) && s.threads[i].stack != [] && s.threads[i].pc == Popped(h, task)
    requires !CycleLocked(Noted(s.table, Cur(s.threads[i]), task), task, Cur(s.threads[i]))
    ensures CanStep(s, i, Run)
    ensures Becomes(s, Step(s, i, Run), s.pool, s.table.edges[Cur(s.threads[i]) := OnTask(task)], i,
                    s.threads[i].(pc := HelpClaimed(h, task)))
  {
    NoteEffect(s, i, task, HelpClaimed(h, task));
    hide NoteStep, CycleLocked;
  }

  lemma LoopEffect(s: State, i: nat, h: nat)
    requires Calm(s, i) && s.threads[i].stack != [] && s.threads[i].pc == LoopTop(h)
    ensures CanStep(s, i, Run)
    ensures Becomes(s, Step(s, i, Run), s.pool, s.table.edges, i, s.threads[i].(pc := HoldsNothing(h)))
  {
  }

  lemma HoldsEffect(s: State, i: nat, h: nat)
    requires Calm(s, i) && s.threads[i].stack != [] && s.threads[i].pc == HoldsNothing(h)
    ensures CanStep(s, i, Run)
    ensures Becomes(s, Step(s, i, Run), s.pool, s.table.edges, i, s.threads[i].(pc := Decided(h, true)))
  {
  }

  lemma HelpEffect(s: State, i: nat, h: nat)
    requires Calm(s, i) && s.threads[i].stack != [] && s.threads[i].pc == Decided(h, true)
    requires ValidTask(s.pool, h) && !IsFinished(TaskAt(s.pool, h).state) && s.pool.queue != []
    ensures CanStep(s, i, Run)
    ensures Becomes(s, Step(s, i, Run), s.pool.(queue := s.pool.queue[1..]), s.table.edges, i,
                    s.threads[i].(pc := Popped(h, s.pool.queue[0])))
  {
    assert Pop(s, i).threads == s.threads;
  }

  // The thread of a task that waits goes to sleep; no work is queued, so no worker is added.
  lemma SleepEffect(s: State, i: nat, h: nat)
    requires Calm(s, i) && s.threads[i].stack != [] && s.threads[i].pc == Decided(h, true)
    requires ValidTask(s.pool, h) && !IsFinished(TaskAt(s.pool, h).state) && s.pool.queue == []
    ensures CanStep(s, i, Run)
    ensures var u := Step(s, i, Run);
            && Becomes(s, u.(sleepTask := s.sleepTask), s.pool.(blockedWorkers := s.pool.blockedWorkers + 1),
                       s.table.edges, i, s.threads[i].(pc := TaskWait(h)))
            && u.sleepTask == s.sleepTask + {i}
  {
    var p := s.pool.(blockedWorkers := s.pool.blockedWorkers + 1);
    assert BlockBegin(s.pool, true) == p;
    assert SetPool(s, p).threads == s.threads;
  }

  lemma SpawnEffect(s: State, added: TaskRun)
    requires !s.fatal && s.ending.NotEnding? && s.sleepWork == {} && s.threads != [] && 0 !in s.sleepTask + s.sleepLock
    requires s.threads[0] == MAIN_THREAD && added == TaskRun(Pending, "", false, 0)
    requires s.pool.started && s.pool.idleWorkers == 0 && s.pool.blockedWorkers < Workers(s.pool)
    ensures CanStep(s, 0, Action.Spawn(0))
    ensures Step(s, 0, Action.Spawn(0))
            == s.(pool := s.pool.(tasks := s.pool.tasks + [added], queue := s.pool.queue + [|s.pool.tasks| + 1]),
                  loc := s.loc + [Queued])
  {
    var u := Step(s, 0, Action.Spawn(0));
    assert u.threads == s.threads;
    assert u.sleepWork == {};
  }

  // ---------------------------------------------------------------- some steps in a row

  lemma BecomesCalm(s: State, u: State, pool: Pool, edges: map<nat, WaitEdge>, i: nat, th: Thread)
    requires Calm(s, i) && Becomes(s, u, pool, edges, i, th)
    requires th.worker && pool.started && !pool.stopping
    ensures Calm(u, i)
  {
  }

  lemma BecomesTwice(s: State, u: State, v: State, pool: Pool, edges: map<nat, WaitEdge>, th: Thread,
                     pool2: Pool, edges2: map<nat, WaitEdge>, i: nat, th2: Thread)
    requires i < |s.threads| && Becomes(s, u, pool, edges, i, th) && Becomes(u, v, pool2, edges2, i, th2)
    ensures Becomes(s, v, pool2, edges2, i, th2)
  {
  }

  ghost predicate Good(workers: nat, depth: nat, s: State) {
    Reached(workers, depth, s) && Shallow(s, workers, depth)
  }

  // A step after which only thread i has changed, and its stack fits.
  lemma GoodStep(workers: nat, depth: nat, s: State, i: nat, a: Action, pool: Pool, edges: map<nat, WaitEdge>, th: Thread)
    requires Good(workers, depth, s) && i < |s.threads| && CanStep(s, i, a)
    requires Becomes(s, Step(s, i, a), pool, edges, i, th)
    requires |th.stack| <= depth
    ensures Good(workers, depth, Step(s, i, a))
  {
    hide CanStep, Step, Reached;
    BecomesShallow(s, Step(s, i, a), pool, edges, i, th, workers, depth);
    OneStep(workers, depth, s, i, a);
  }

  // The current task waits for a task that the detector does not see in a cycle, ...
  lemma WaitsFor(workers: nat, depth: nat, s: State, i: nat, h: nat) returns (u: State)
    requires Good(workers, depth, s) && Calm(s, i)
    requires s.threads[i].stack != [] && s.threads[i].pc.User? && ValidTask(s.pool, h)
    requires !CycleLocked(Noted(s.table, Cur(s.threads[i]), h), h, Cur(s.threads[i]))
    ensures Good(workers, depth, u) && Calm(u, i)
    ensures Becomes(s, u, s.pool, s.table.edges[Cur(s.threads[i]) := OnTask(h)], i, s.threads[i].(pc := LoopTop(h)))
  {
    hide Reached, CanStep, Step, CycleLocked, Noted;
    var th := s.threads[i].(pc := LoopTop(h));
    var edges := s.table.edges[Cur(s.threads[i]) := OnTask(h)];
    WaitEffect(s, i, h);
    u := Step(s, i, Action.Wait(h));
    hide Calm, Becomes, Shallow;
    StackFits(workers, depth, s, i);
    GoodStep(workers, depth, s, i, Action.Wait(h), s.pool, edges, th);
    CalmWorker(s, i);
    BecomesCalm(s, u, s.pool, edges, i, th);
  }

  lemma StackFits(workers: nat, depth: nat, s: State, i: nat)
    requires Good(workers, depth, s) && i < |s.threads|
    ensures |s.threads[i].stack| <= depth
  {
  }

  lemma CalmWorker(s: State, i: nat)
    requires Calm(s, i)
    ensures 0 < i < |s.threads| && s.threads[i].worker && s.pool.started && !s.pool.stopping
  {
  }

  // One section of a calm thread that changes nothing but its place and the queue.
  lemma MovesOn(workers: nat, depth: nat, s: State, i: nat, pool: Pool, pc: Pc) returns (u: State)
    requires Good(workers, depth, s) && Calm(s, i) && CanStep(s, i, Run)
    requires Becomes(s, Step(s, i, Run), pool, s.table.edges, i, s.threads[i].(pc := pc))
    requires pool.started && !pool.stopping
    ensures u == Step(s, i, Run) && Good(workers, depth, u) && Calm(u, i)
    ensures Becomes(s, u, pool, s.table.edges, i, s.threads[i].(pc := pc))
  {
    CalmWorker(s, i);
    hide Reached, CanStep, Step, Calm, Becomes, Shallow;
    u := Step(s, i, Run);
    StackFits(workers, depth, s, i);
    GoodStep(workers, depth, s, i, Run, pool, s.table.edges, s.threads[i].(pc := pc));
    BecomesCalm(s, u, pool, s.table.edges, i, s.threads[i].(pc := pc));
  }

  // ... finds that it holds no locks, so that its thread may help, ...
  lemma LooksForWork(workers: nat, depth: nat, s: State, i: nat, h: nat) returns (u: State)
    requires Good(workers, depth, s) && Calm(s, i) && s.threads[i].stack != [] && s.threads[i].pc == LoopTop(h)
    ensures Good(workers, depth, u) && Calm(u, i)
    ensures Becomes(s, u, s.pool, s.table.edges, i, s.threads[i].(pc := Decided(h, true)))
  {
    hide Good, CanStep, Step;
    LoopEffect(s, i, h);
    var s1 := MovesOn(workers, depth, s, i, s.pool, HoldsNothing(h));
    HoldsEffect(s1, i, h);
    u := MovesOn(workers, depth, s1, i, s1.pool, Decided(h, true));
    BecomesTwice(s, s1, u, s.pool, s.table.edges, s.threads[i].(pc := HoldsNothing(h)),
                 s1.pool, s1.table.edges, i, s1.threads[i].(pc := Decided(h, true)));
  }

  // A task that does not wait is not followed by the detector.
  lemma IdleTarget(t: Table, target: nat, me: nat)
    requires target !in t.edges && target != me
    ensures !CycleLocked(Noted(t, me, target), target, me)
  {
  }

  lemma EdgeIsThere(edges: map<nat, WaitEdge>, key: nat, e: WaitEdge)
    requires key in edges && edges[key] == e
    ensures edges[key := e] == edges
  {
  }

  // ... takes the awaited task from the queue, ...
  lemma TakesNext(workers: nat, depth: nat, s: State, i: nat, h: nat) returns (u: State)
    requires Good(workers, depth, s) && Calm(s, i) && s.threads[i].stack != [] && s.threads[i].pc == Decided(h, true)
    requires ValidTask(s.pool, h) && TaskAt(s.pool, h).state.Pending? && s.pool.queue == [h]
    requires Cur(s.threads[i]) in s.table.edges && s.table.edges[Cur(s.threads[i])] == OnTask(h)
    requires h !in s.table.edges && h != Cur(s.threads[i])
    ensures Good(workers, depth, u) && Calm(u, i)
    ensures Becomes(s, u, s.pool.(queue := []), s.table.edges, i, s.threads[i].(pc := HelpClaimed(h, h)))
  {
    hide Good, CanStep, Step, CycleLocked;
    HelpEffect(s, i, h);
    assert s.pool.queue[1..] == [];
    var s1 := MovesOn(workers, depth, s, i, s.pool.(queue := []), Popped(h, h));
    IdleTarget(s1.table, h, Cur(s1.threads[i]));
    PoppedEffect(s1, i, h, h);
    EdgeIsThere(s1.table.edges, Cur(s1.threads[i]), OnTask(h));
    u := MovesOn(workers, depth, s1, i, s1.pool, HelpClaimed(h, h));
    BecomesTwice(s, s1, u, s.pool.(queue := []), s.table.edges, s.threads[i].(pc := Popped(h, h)),
                 s1.pool, s1.table.edges, i, s1.threads[i].(pc := HelpClaimed(h, h)));
  }

  // ... and runs it on its own stack.
  lemma HelpsNext(workers: nat, depth: nat, s: State, i: nat, h: nat) returns (u: State)
    requires Good(workers, depth, s) && Calm(s, i) && s.threads[i].stack != [] && s.threads[i].pc == Decided(h, true)
    requires ValidTask(s.pool, h) && TaskAt(s.pool, h) == TaskRun(Pending, "", false, 0) && s.pool.queue == [h]
    requires Cur(s.threads[i]) in s.table.edges && s.table.edges[Cur(s.threads[i])] == OnTask(h)
    requires h !in s.table.edges && h != Cur(s.threads[i]) && |s.threads[i].stack| < depth
    ensures Good(workers, depth, u)
    ensures Becomes(s, u, BeginRun(s.pool.(queue := []), h), s.table.edges, i,
                    Thread(true, s.threads[i].stack + [h], s.threads[i].waits + [h], User))
  {
    hide Good, CanStep, Step, BeginRun;
    var s1 := TakesNext(workers, depth, s, i, h);
    HelpClaimedEffect(s1, i, h, h);
    u := Step(s1, i, Run);
    var th := Thread(true, s.threads[i].stack + [h], s.threads[i].waits + [h], User);
    GoodStep(workers, depth, s1, i, Run, BeginRun(s1.pool, h), s1.table.edges, th);
    BecomesTwice(s, s1, u, s.pool.(queue := []), s.table.edges, s.threads[i].(pc := HelpClaimed(h, h)),
                 BeginRun(s1.pool, h), s1.table.edges, i, th);
  }

  // A new worker takes the queued task and runs it.
  lemma NewWorkerBegins(workers: nat, depth: nat, s: State, i: nat, h: nat) returns (u: State)
    requires Good(workers, depth, s) && Calm(s, i) && s.threads[i] == NEW_WORKER && depth > 0
    requires ValidTask(s.pool, h) && TaskAt(s.pool, h) == TaskRun(Pending, "", false, 0) && s.pool.queue == [h]
    ensures Good(workers, depth, u)
    ensures Becomes(s, u, BeginRun(s.pool.(queue := []), h), s.table.edges, i, Thread(true, [h], [], User))
  {
    hide Good, CanStep, Step, BeginRun;
    FetchEffect(s, i);
    assert s.pool.queue[1..] == [];
    var s1 := MovesOn(workers, depth, s, i, s.pool.(queue := []), Claimed(h));
    ClaimedEffect(s1, i, h);
    u := Step(s1, i, Run);
    var th := Thread(true, [h], [], User);
    assert s1.threads[i].stack + [h] == [h];
    GoodStep(workers, depth, s1, i, Run, BeginRun(s1.pool, h), s1.table.edges, th);
    BecomesTwice(s, s1, u, s.pool.(queue := []), s.table.edges, s.threads[i].(pc := Claimed(h)),
                 BeginRun(s1.pool, h), s1.table.edges, i, th);
  }

  // The thread of a waiting task that finds no work goes to sleep.
  lemma FallsAsleep(workers: nat, depth: nat, s: State, i: nat, h: nat) returns (u: State)
    requires Good(workers, depth, s) && Calm(s, i) && s.threads[i].stack != [] && s.threads[i].pc == Decided(h, true)
    requires ValidTask(s.pool, h) && !IsFinished(TaskAt(s.pool, h).state) && s.pool.queue == []
    ensures Good(workers, depth, u) && u.sleepTask == s.sleepTask + {i}
    ensures Becomes(s, u.(sleepTask := s.sleepTask), s.pool.(blockedWorkers := s.pool.blockedWorkers + 1), s.table.edges,
                    i, s.threads[i].(pc := TaskWait(h)))
  {
    hide Reached, CanStep, Step;
    SleepEffect(s, i, h);
    u := Step(s, i, Run);
    OneStep(workers, depth, s, i, Run);
  }

  // ---------------------------------------------------------------- the chain grows

  const PENDING_TASK := TaskRun(Pending, "", false, 0)

  // Each of the tasks 1, ..., d - 1 waits for the next one.
  function Waiting(d: nat): map<nat, WaitEdge> {
    if d <= 1 then map[] else Waiting(d - 1)[d - 1 := OnTask(d)]
  }

  lemma {:induction false} WaitingIs(d: nat, k: nat)
    ensures k in Waiting(d) <==> 1 <= k < d
    ensures k in Waiting(d) ==> Waiting(d)[k] == OnTask(k + 1)
  {
    if d > 1 {
      WaitingIs(d - 1, k);
    }
  }

  ghost predicate RunsTop(th: Thread, top: nat, task: nat) {
    th.worker && th.pc.User? && |th.stack| == top && top > 0 && Cur(th) == task
  }

  // The first `full` workers sleep, the next one runs `top` nested tasks, the last one in compiled code, and
  // the others have not begun; every task but the last waits for the next one.
  ghost predicate Growing(s: State, workers: nat, full: nat, top: nat) {
    && !s.fatal && s.ending.NotEnding? && s.sleepWork == {} && s.sleepLock == {}
    && (forall j :: j in s.sleepTask ==> 0 < j <= full)
    && s.table.notified == {} && s.table.held == map[] && s.table.entries == 0
    && s.table.edges == Waiting(|s.pool.tasks|)
    && s.pool == Pool(s.pool.tasks, [], true, false, workers, 0, 0, full)
    && |s.threads| == workers + 1 && full < workers && s.threads[0] == MAIN_THREAD
    && |s.pool.tasks| > 0 && RunsTop(s.threads[full + 1], top, |s.pool.tasks|)
    && (forall j :: full + 1 < j <= workers ==> s.threads[j] == NEW_WORKER)
  }

  lemma SpawnsNext(workers: nat, depth: nat, s: State, full: nat, top: nat, added: TaskRun) returns (u: State)
    requires Good(workers, depth, s) && Growing(s, workers, full, top) && added == PENDING_TASK
    ensures Good(workers, depth, u) && Calm(u, full + 1) && (full + 2 <= workers ==> Calm(u, full + 2))
    ensures u == s.(pool := s.pool.(tasks := s.pool.tasks + [added], queue := [|s.pool.tasks| + 1]), loc := s.loc + [Queued])
  {
    hide CanStep, Step, Reached, Waiting;
    SpawnEffect(s, added);
    u := Step(s, 0, Action.Spawn(0));
    assert [] + [|s.pool.tasks| + 1] == [|s.pool.tasks| + 1];
    OneStep(workers, depth, s, 0, Action.Spawn(0));
  }

  // The newest task waits for the one just spawned.
  lemma WaitsForNewest(workers: nat, depth: nat, s: State, i: nat, k: nat, h: nat) returns (u: State)
    requires Good(workers, depth, s) && Calm(s, i) && k > 0 && h == k + 1 && s.table.edges == Waiting(k)
    requires s.threads[i].stack != [] && s.threads[i].pc.User? && Cur(s.threads[i]) == k && ValidTask(s.pool, h)
    ensures Good(workers, depth, u) && Calm(u, i)
    ensures Becomes(s, u, s.pool, Waiting(h), i, s.threads[i].(pc := Decided(h, true)))
  {
    WaitingIs(k, h);
    IdleTarget(s.table, h, k);
    hide Good, CycleLocked, Noted;
    var s1 := WaitsFor(workers, depth, s, i, h);
    u := LooksForWork(workers, depth, s1, i, h);
    BecomesTwice(s, s1, u, s.pool, s.table.edges[k := OnTask(h)], s.threads[i].(pc := LoopTop(h)),
                 s1.pool, s1.table.edges, i, s1.threads[i].(pc := Decided(h, true)));
    assert Waiting(h) == Waiting(k)[k := OnTask(h)];
  }

  lemma HelpsNewest(workers: nat, depth: nat, s: State, i: nat, k: nat, h: nat) returns (u: State)
    requires Good(workers, depth, s) && Calm(s, i) && k > 0 && h == k + 1 && s.table.edges == Waiting(k)
    requires s.threads[i].stack != [] && s.threads[i].pc.User? && Cur(s.threads[i]) == k
    requires ValidTask(s.pool, h) && TaskAt(s.pool, h) == PENDING_TASK && s.pool.queue == [h]
    requires |s.threads[i].stack| < depth
    ensures Good(workers, depth, u)
    ensures Becomes(s, u, BeginRun(s.pool.(queue := []), h), Waiting(h), i,
                    Thread(true, s.threads[i].stack + [h], s.threads[i].waits + [h], User))
  {
    hide Good, BeginRun;
    var s1 := WaitsForNewest(workers, depth, s, i, k, h);
    WaitingIs(h, k);
    WaitingIs(h, h);
    hide Waiting;
    u := HelpsNext(workers, depth, s1, i, h);
    BecomesTwice(s, s1, u, s.pool, Waiting(h), s.threads[i].(pc := Decided(h, true)), BeginRun(s.pool.(queue := []), h),
                 Waiting(h), i, Thread(true, s.threads[i].stack + [h], s.threads[i].waits + [h], User));
  }

  lemma GrowsDeeper(workers: nat, depth: nat, s: State, full: nat, top: nat) returns (u: State)
    requires Good(workers, depth, s) && Growing(s, workers, full, top) && top < depth
    ensures Good(workers, depth, u) && Growing(u, workers, full, top + 1) && |u.pool.tasks| == |s.pool.tasks| + 1
  {
    hide Good, Becomes, Waiting, Calm;
    var k := |s.pool.tasks|;
    var s1 := SpawnsNext(workers, depth, s, full, top, PENDING_TASK);
    u := HelpsNewest(workers, depth, s1, full + 1, k, k + 1);
    GrownDeeper(s, s1, u, workers, full, top);
  }

  lemma GrownDeeper(s: State, s1: State, u: State, workers: nat, full: nat, top: nat)
    requires Growing(s, workers, full, top)
    requires var h := |s.pool.tasks| + 1;
             && s1 == s.(pool := s.pool.(tasks := s.pool.tasks + [PENDING_TASK], queue := [h]), loc := s.loc + [Queued])
             && Becomes(s1, u, BeginRun(s1.pool.(queue := []), h), Waiting(h), full + 1,
                        Thread(true, s.threads[full + 1].stack + [h], s.threads[full + 1].waits + [h], User))
    ensures Growing(u, workers, full, top + 1) && |u.pool.tasks| == |s.pool.tasks| + 1
  {
    hide Waiting;
  }

  lemma NextWorkerGrows(workers: nat, depth: nat, s: State, full: nat, top: nat) returns (u: State)
    requires Good(workers, depth, s) && Growing(s, workers, full, top) && full + 1 < workers && depth > 0
    ensures Good(workers, depth, u) && Growing(u, workers, full + 1, 1) && |u.pool.tasks| == |s.pool.tasks| + 1
  {
    hide Good, BeginRun, Waiting;
    var k := |s.pool.tasks|;
    var h := k + 1;
    var i := full + 1;
    var s1 := SpawnsNext(workers, depth, s, full, top, PENDING_TASK);
    var s2 := NewWorkerBegins(workers, depth, s1, full + 2, h);
    BegunPool(s1.pool.(queue := []), h);
    var s3 := WaitsForNewest(workers, depth, s2, i, k, h);
    u := FallsAsleep(workers, depth, s3, i, h);
  }

  lemma BegunPool(p: Pool, h: nat)
    requires ValidTask(p, h) && TaskAt(p, h) == PENDING_TASK
    ensures var q := BeginRun(p, h);
            && q == p.(tasks := q.tasks) && |q.tasks| == |p.tasks| && TaskAt(q, h).state.Running?
  {
  }

  predicate Unstarted(p: Pool) {
    && p.tasks == [] && p.queue == [] && !p.started && !p.stopping
    && p.workerCount == p.extraWorkers == 0 && p.idleWorkers == p.blockedWorkers == 0
  }

  lemma NoPoolIs(none: Pool)
    requires none == NO_POOL
    ensures Unstarted(none)
  {
  }

  lemma FirstPool(none: Pool, pool: Pool, workers: nat, added: TaskRun)
    requires Unstarted(none) && workers > 0 && pool == SpawnTask(none, workers) && added == PENDING_TASK
    ensures Workers(none) == 0 && pool == Pool([added], [1], true, false, workers, 0, 0, 0)
  {
    assert [] + [1] == [1] && [] + [added] == [added];
  }

  ghost predicate Untouched(t: Table) {
    t.notified == {} && t.held == map[] && t.entries == 0 && t.edges == map[]
  }

  lemma EmptyIsUntouched(t: Table)
    requires t == EMPTY
    ensures Untouched(t)
  {
  }

  lemma FirstSpawnEffect(s: State, pool: Pool, main: Thread, worker: Thread, workers: nat)
    requires s.threads == [main] && main == MAIN_THREAD && worker == NEW_WORKER && s.sleepWork == {}
    requires !s.fatal && s.ending.NotEnding? && 0 !in s.sleepTask + s.sleepLock && Workers(s.pool) == 0
    requires SpawnTask(s.pool, s.configured) == pool && Workers(pool) == workers
    ensures CanStep(s, 0, Action.Spawn(0))
    ensures var u := Step(s, 0, Action.Spawn(0));
            && u == s.(pool := pool, threads := u.threads, loc := s.loc + [Queued])
            && |u.threads| == workers + 1 && u.threads[0] == main
            && forall j :: 0 < j <= workers ==> u.threads[j] == worker
  {
    hide SpawnTask, Workers;
    assert s.sleepWork - {0} == s.sleepWork;
  }

  ghost predicate AtStart(s: State, workers: nat, pool: Pool, main: Thread) {
    && s.threads == [main] && main == MAIN_THREAD && workers > 0
    && !s.fatal && s.ending.NotEnding? && s.sleepWork == {} && s.sleepTask == {} && s.sleepLock == {}
    && Untouched(s.table) && Workers(s.pool) == 0 && SpawnTask(s.pool, s.configured) == pool
    && pool == Pool(pool.tasks, [1], true, false, workers, 0, 0, 0) && |pool.tasks| == 1 && pool.tasks[0] == PENDING_TASK
  }

  lemma FirstSpawn(workers: nat, depth: nat, s: State, pool: Pool, main: Thread, worker: Thread) returns (u: State)
    requires Reached(workers, depth, s) && AtStart(s, workers, pool, main) && worker == NEW_WORKER && depth > 0
    ensures Good(workers, depth, u)
    ensures u == s.(pool := pool, threads := u.threads, loc := s.loc + [Queued])
    ensures |u.threads| == workers + 1 && u.threads[0] == main
    ensures forall j :: 0 < j <= workers ==> u.threads[j] == worker
  {
    hide CanStep, Step, Reached, SpawnTask;
    FirstSpawnEffect(s, pool, main, worker, workers);
    u := Step(s, 0, Action.Spawn(0));
    forall j | 0 <= j < |u.threads| ensures |u.threads[j].stack| <= depth {
    }
    OneStep(workers, depth, s, 0, Action.Spawn(0));
  }

  lemma FirstBegun(workers: nat, depth: nat, s: State, pool: Pool, main: Thread, worker: Thread) returns (u: State)
    requires Reached(workers, depth, s) && AtStart(s, workers, pool, main) && worker == NEW_WORKER && depth > 0
    ensures Good(workers, depth, u) && Growing(u, workers, 0, 1) && |u.pool.tasks| == 1
  {
    var s1 := FirstSpawn(workers, depth, s, pool, main, worker);
    hide Good, SpawnTask, BeginRun;
    u := NewWorkerBegins(workers, depth, s1, 1, 1);
    BegunPool(pool.(queue := []), 1);
  }

  lemma FreshIsAtStart(s: State, workers: nat, pool: Pool, main: Thread, t: Table, none: Pool, nobody: set<nat>)
    requires s == State(t, none, [main], [], nobody, nobody, nobody, NotEnding, workers, false) && nobody == {}
    requires Untouched(t) && Unstarted(none) && main == MAIN_THREAD && workers > 0 && pool == SpawnTask(none, workers)
    ensures AtStart(s, workers, pool, main)
  {
    FirstPool(none, pool, workers, PENDING_TASK);
    hide SpawnTask, Workers, Unstarted;
  }

  lemma FirstTask(workers: nat, depth: nat) returns (u: State)
    requires workers > 0 && depth > 0
    ensures Good(workers, depth, u) && Growing(u, workers, 0, 1) && |u.pool.tasks| == 1
  {
    hide Good, Growing, Reached, AtStart, SpawnTask, Untouched, Unstarted;
    var s := Initial(workers);
    EmptyIsUntouched(s.table);
    NoPoolIs(s.pool);
    var pool := SpawnTask(s.pool, workers);
    Start(workers, depth, s);
    FreshIsAtStart(s, workers, pool, MAIN_THREAD, s.table, s.pool, {});
    u := FirstBegun(workers, depth, s, pool, MAIN_THREAD, NEW_WORKER);
  }

  lemma ProductsKeepOrder(a: nat, b: nat, d: nat)
    requires a <= b
    ensures a * d <= b * d
  {
    assert (b - a) * d >= 0;
    assert b * d == a * d + (b - a) * d;
  }

  lemma RoomForNext(workers: nat, depth: nat, full: nat)
    requires full * depth + depth < workers * depth
    ensures full + 1 < workers
  {
    if workers <= full + 1 {
      assert (full + 1) * depth == full * depth + depth;
      ProductsKeepOrder(workers, full + 1, depth);
    }
  }

  // As long as workers times depth leaves room, the chain grows to any length.
  lemma {:induction false} AllGrown(workers: nat, depth: nat, n: nat) returns (s: State, full: nat, top: nat)
    requires 0 < n <= workers * depth
    ensures Good(workers, depth, s) && Growing(s, workers, full, top) && |s.pool.tasks| == n
    ensures n == full * depth + top && top <= depth
    decreases n
  {
    hide Good, Growing;
    if n == 1 {
      s := FirstTask(workers, depth);
      full, top := 0, 1;
    } else {
      var before, f, t := AllGrown(workers, depth, n - 1);
      if t < depth {
        s := GrowsDeeper(workers, depth, before, f, t);
        full, top := f, t + 1;
      } else {
        RoomForNext(workers, depth, f);
        s := NextWorkerGrows(workers, depth, before, f, t);
        full, top := f + 1, 1;
        assert (f + 1) * depth == f * depth + depth;
      }
    }
  }

  // ---------------------------------------------------------------- the last task waits for the first

  lemma {:induction false} ChainIter(t: Table, n: nat, k: nat, i: nat)
    requires k > 0 && k + i <= n && t.edges == Waiting(n)[n := OnTask(1)]
    ensures Iter(t, k, i) == Some(k + i)
    decreases i
  {
    if i > 0 {
      WaitingIs(n, k);
      ChainIter(t, n, k + 1, i - 1);
    }
  }

  lemma RingUnseen(t: Table, n: nat)
    requires n > CAP && t.edges == Waiting(n)[n := OnTask(1)]
    ensures !CycleLocked(t, 1, n) && !NoCycle(t) && CycleOf(t, n, n)
  {
    forall m: nat | m < CAP ensures Iter(t, 1, m) != Some(n) {
      ChainIter(t, n, 1, m);
    }
    WalkMisses(t, 1, n, CAP);
    ChainIter(t, n, 1, n - 1);
    assert Succ(t, n) == Some(1);
    assert Iter(t, n, n) == Iter(t, 1, n - 1);
    forall m: nat | 0 < m < n ensures Iter(t, n, m) != Some(n) {
      ChainIter(t, n, 1, m - 1);
    }
  }

  // Such a state is a deadlock: the tasks of the ring only wait for each other, for ever.
  lemma LongDeadlockIsReal(workers: nat, depth: nat, s: State, n: nat)
    requires Reached(workers, depth, s) && !s.fatal && CycleOf(s.table, n, n)
    requires forall k: nat :: k in s.table.edges ==> s.table.edges[k].OnTask?
    ensures Inv(s) && Deadlocked(s, n)
  {
    hide Inv;
    var run: seq<State> :| ShallowRun(workers, depth, run) && run[|run| - 1] == s;
    RunsKeepInv(workers, run, |run| - 1);
    CycleIsTrap(s, n, n);
  }

  ghost predicate Deadlocked(s: State, k: nat) {
    exists c: set<nat> :: k in c && Trapped(s, c)
  }

  // For every n above CAP that fits the workers and their stacks there is a run in which n tasks come to
  // wait for each other in a ring, and the detector, asked about the edge that closed it, has let the
  // program go on.
  lemma LongDeadlockIsReached(workers: nat, depth: nat, n: nat)
    requires CAP < n <= workers * depth
    ensures exists s: State :: Reached(workers, depth, s) && !s.fatal && |s.pool.tasks| == n && Deadlocked(s, n)
  {
    hide Reached;
    var s, full, top := AllGrown(workers, depth, n);
    RingUnseen(Noted(s.table, n, 1), n);
    hide CycleOf, NoCycle, CycleLocked, Waiting;
    var u := WaitsFor(workers, depth, s, full + 1, 1);
    assert u.table == Noted(s.table, n, 1);
    forall k: nat | k in u.table.edges ensures u.table.edges[k].OnTask? {
      WaitingIs(n, k);
    }
    LongDeadlockIsReal(workers, depth, u, n);
  }

  // The runtime allows 1024 workers; then no stack need be higher than 977 tasks.
  const MAX_WORKERS: nat := 1024

  lemma DeadlockWithinTheLimits()
    ensures exists s: State :: Reached(MAX_WORKERS, 977, s) && !s.fatal && |s.pool.tasks| == CAP + 1 && Deadlocked(s, CAP + 1)
  {
    LongDeadlockIsReached(MAX_WORKERS, 977, CAP + 1);
  }

  // ---------------------------------------------------------------- below the limits nothing is missed

  // An injection into the numbers below n.
  lemma {:induction false} InjectionFits(m: map<nat, nat>, n: nat)
    requires forall k :: k in m ==> m[k] < n
    requires forall j, k :: j in m && k in m && m[j] == m[k] ==> j == k
    ensures |m.Keys| <= n
    decreases n
  {
    if k: nat :| k in m && m[k] == n - 1 {
      var rest := m - {k};
      assert m.Keys == rest.Keys + {k};
      InjectionFits(rest, n - 1);
    } else if n > 0 {
      InjectionFits(m, n - 1);
    } else {
      assert m.Keys == {};
    }
  }

  lemma SamePlace(depth: nat, i: nat, d: nat, j: nat, e: nat)
    requires d < depth && e < depth && i * depth + d == j * depth + e
    ensures i == j && d == e
  {
    if i < j {
      assert (i + 1) * depth == i * depth + depth;
      ProductsKeepOrder(i + 1, j, depth);
    } else if j < i {
      assert (j + 1) * depth == j * depth + depth;
      ProductsKeepOrder(j + 1, i, depth);
    }
  }

  lemma PlaceFits(depth: nat, i: nat, d: nat, threads: nat)
    requires d < depth && i < threads
    ensures i * depth + d < threads * depth
  {
    ProductsKeepOrder(i + 1, threads, depth);
    assert (i + 1) * depth == i * depth + depth;
  }

  // A running task is known by its place on the stacks.
  function PlaceOf(s: State, k: nat, depth: nat): nat {
    if 1 <= k <= |s.loc| && s.loc[k - 1].OnStack? then s.loc[k - 1].thread * depth + s.loc[k - 1].depth else 0
  }

  lemma PlaceIsFrame(s: State, k: nat, depth: nat) returns (i: nat, d: nat)
    requires Inv(s) && Live(s, k)
    ensures HasFrame(s, i, d, k) && PlaceOf(s, k, depth) == i * depth + d
  {
    if k == 0 {
      assert ThreadOk(s, 0);
      i, d := 0, 0;
    } else {
      assert LocOk(s, k);
      i, d := s.loc[k - 1].thread, s.loc[k - 1].depth;
    }
  }

  lemma PlaceIsBelow(s: State, k: nat, workers: nat, depth: nat)
    requires Inv(s) && Shallow(s, workers, depth) && Live(s, k)
    ensures PlaceOf(s, k, depth) < (workers + 1) * depth
  {
    hide Inv, PlaceOf;
    var i, d := PlaceIsFrame(s, k, depth);
    PlaceFits(depth, i, d, workers + 1);
  }

  lemma PlacesDiffer(s: State, j: nat, k: nat, workers: nat, depth: nat)
    requires Inv(s) && Shallow(s, workers, depth) && Live(s, j) && Live(s, k)
    requires PlaceOf(s, j, depth) == PlaceOf(s, k, depth)
    ensures j == k
  {
    hide Inv, PlaceOf;
    var i, d := PlaceIsFrame(s, j, depth);
    var i2, d2 := PlaceIsFrame(s, k, depth);
    SamePlace(depth, i, d, i2, d2);
  }

  lemma WaitersAreLive(s: State, k: nat)
    requires Inv(s) && k in s.table.edges
    ensures Live(s, k)
  {
    hide ThreadsOk, TasksOk, RecordsOk, WorkersOk, EndingOk;
  }

  lemma EdgesFitStacks(s: State, workers: nat, depth: nat)
    requires Inv(s) && Shallow(s, workers, depth)
    ensures |s.table.edges| <= (workers + 1) * depth
  {
    hide Inv, Shallow, PlaceOf;
    var places := (workers + 1) * depth;
    var m := map k: nat | k in s.table.edges.Keys :: PlaceOf(s, k, depth);
    forall k | k in m ensures m[k] < places {
      WaitersAreLive(s, k);
      PlaceIsBelow(s, k, workers, depth);
    }
    forall j, k | j in m && k in m && m[j] == m[k] ensures j == k {
      WaitersAreLive(s, j);
      WaitersAreLive(s, k);
      PlacesDiffer(s, j, k, workers, depth);
    }
    assert m.Keys == s.table.edges.Keys;
    InjectionFits(m, places);
  }

  // The other side: as long as the threads, times the tasks on the highest stack, are at most CAP, no cycle
  // is too long for the detector, however many tasks there are.
  lemma {:induction false} ShallowRunsAreSafe(configured: nat, run: seq<State>, n: nat, workers: nat, depth: nat)
    requires IsRun(configured, run) && n < |run| && (workers + 1) * depth <= CAP
    requires forall k :: 0 <= k <= n ==> Shallow(run[k], workers, depth)
    ensures run[n].fatal || Safe(run[n])
    decreases n
  {
    hide Shallow, Inv, Acyclic, ShortCycles, Next;
    if n == 0 {
      InitialIsSafe(configured);
    } else {
      ShallowRunsAreSafe(configured, run, n - 1, workers, depth);
      assert Next(run[n - 1], run[n - 1 + 1]);
      RunsKeepInv(configured, run, n);
      if !run[n].fatal {
        EdgesFitStacks(run[n], workers, depth);
        FewEdgesAreShort(run[n].table);
      }
      StepIsSafe(run[n - 1], run[n]);
    }
  }
}
