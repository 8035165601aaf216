/**
 Whose generator a call of RND uses. The source finds it through a thread-local pointer to the running task,
 which run_task sets before the thunk and restores after it, also when tasks run nested on one stack. Here
 runs of the runtime carry these pointers and the generators: tl_current is shown to be the task whose
 code is running, and every run is projected onto the runs of RandomRuns.
 */
module GeneratorOwners {
  import opened Basics
  import opened LockTable
  import opened TaskPool
  import opened Runtime
  import opened Invariants
  import opened TaskSteps
  import opened UserSteps
  import opened Progress
  import opened Runs
  import opened Handover
  import R = RandomRuns
  import Rng

  // A task's generator, the values its calls have returned, and how it was spawned.
  datatype Own<G> = Own(gen: G, values: seq<real>, children: nat, path: R.Path)

  // `current` is tl_current of each thread (0 for null), `previous` the local variables of that name in the
  // activations of run_task on its stack; `own` maps 0 to the main program's generator.
  datatype Full<G> = Full(s: State, current: seq<nat>, previous: seq<seq<nat>>, own: map<nat, Own<G>>)

  // A step of the runtime, or a use of the random numbers by compiled code on some thread.
  datatype Happening = Section(e: Event) | Random(thread: nat, op: R.Op)

  // ---------------------------------------------------------------- the steps

  // The section that ends with the call of a thunk, and the one after a thunk and its clean-up.
  predicate CallsThunk(s: State, i: nat)
    requires i < |s.threads|
  {
    var pc := s.threads[i].pc;
    (pc.Claimed? || pc.HelpClaimed?) && ValidTask(s.pool, pc.task) && !TaskAt(s.pool, pc.task).cancelRequested
  }

  predicate LeavesThunk(s: State, i: nat)
    requires i < |s.threads|
  {
    s.threads[i].pc.Released?
  }

  ghost predicate Can<G>(f: Full<G>, h: Happening) {
    match h
    case Section(e) => CanHappen(f.s, e)
    case Random(i, op) =>
      !op.Spawn? && !f.s.fatal && i < |f.s.threads| && !Sleeping(f.s, i) && f.s.threads[i].pc.User?
  }

  // What the step needs to be defined; it holds in every run.
  ghost predicate Fits<G>(f: Full<G>) {
    && |f.current| == |f.previous| == |f.s.threads|
    && forall i :: 0 <= i < |f.current| ==>
         f.current[i] in f.own && (LeavesThunk(f.s, i) ==> f.previous[i] != [])
  }

  // current_rng() of thread i performs an operation.
  function Uses<G>(use: R.Use<G>, f: Full<G>, i: nat, op: R.Op): map<nat, Own<G>>
    requires i < |f.current| && f.current[i] in f.own
  {
    var o := f.own[f.current[i]];
    var r := use(o.gen, op);
    f.own[f.current[i] := Own(r.gen, R.Add(o.values, r.value), o.children + if r.child.Some? then 1 else 0, o.path)]
  }

  // SPAWN seeds the new task's generator from the caller's.
  function Spawns<G>(use: R.Use<G>, f: Full<G>, i: nat): map<nat, Own<G>>
    requires i < |f.current| && f.current[i] in f.own
  {
    var o := f.own[f.current[i]];
    var r := use(o.gen, R.Spawn);
    if r.child.None? then Uses(use, f, i, R.Spawn)
    else Uses(use, f, i, R.Spawn)[|f.s.pool.tasks| + 1 := Own(r.child.value, [], 0, R.Child(o.path, o.children))]
  }

  // New threads start with a null pointer and no activation of run_task.
  function Grown<T>(xs: seq<T>, n: nat, x: T): (r: seq<T>)
    ensures |r| == if n <= |xs| then |xs| else n
    ensures forall j :: 0 <= j < |r| ==> r[j] == if j < |xs| then xs[j] else x
  {
    if n <= |xs| then xs else xs + seq(n - |xs|, _ => x)
  }

  ghost function Then<G>(use: R.Use<G>, f: Full<G>, h: Happening): Full<G>
    requires Can(f, h) && Fits(f)
  {
    match h
    case Random(i, op) => f.(own := Uses(use, f, i, op))
    case Section(SpuriousWake(i)) => f.(s := After(f.s, SpuriousWake(i)))
    case Section(ThreadStep(i, a)) =>
      var u := After(f.s, ThreadStep(i, a));
      var current := Grown(f.current, |u.threads|, 0);
      var previous := Grown(f.previous, |u.threads|, []);
      if CallsThunk(f.s, i) then
        Full(u, current[i := f.s.threads[i].pc.task], previous[i := f.previous[i] + [f.current[i]]], f.own)
      else if LeavesThunk(f.s, i) then
        var n := |f.previous[i]| - 1;
        Full(u, current[i := f.previous[i][n]], previous[i := f.previous[i][..n]], f.own)
      else
        Full(u, current, previous, if f.s.threads[i].pc.User? && a.Spawn? then Spawns(use, f, i) else f.own)
  }

  ghost function Begins<G>(start: G, configured: nat): Full<G> {
    Full(Initial(configured), [0], [[]], map[0 := Own(start, [], 0, R.MAIN)])
  }

  ghost function PlayFull<G>(use: R.Use<G>, start: G, configured: nat, hs: seq<Happening>): Option<Full<G>>
    decreases |hs|
  {
    if hs == [] then Some(Begins(start, configured))
    else
      match PlayFull(use, start, configured, hs[..|hs| - 1])
      case None => None
      case Some(f) => if Can(f, hs[|hs| - 1]) && Fits(f) then Some(Then(use, f, hs[|hs| - 1])) else None
  }

  // ---------------------------------------------------------------- tl_current names the running task

  // What runs on a thread, the null pointer below the first task of a worker.
  function Frames(i: nat, stack: seq<nat>): seq<nat> {
    if i == 0 then stack else [0] + stack
  }

  predicate Points(frames: seq<nat>, current: nat, previous: seq<nat>) {
    frames != [] && current == frames[|frames| - 1] && previous == frames[..|frames| - 1]
  }

  ghost predicate ThreadTied<G>(f: Full<G>, i: nat)
    requires i < |f.s.threads| == |f.current| == |f.previous|
  {
    Points(Frames(i, f.s.threads[i].stack), f.current[i], f.previous[i])
  }

  ghost predicate Tied<G>(f: Full<G>) {
    && Inv(f.s)
    && |f.current| == |f.previous| == |f.s.threads|
    && (forall i :: 0 <= i < |f.s.threads| ==> ThreadTied(f, i))
    && (forall k: nat :: k in f.own <==> k <= |f.s.pool.tasks|)
  }

  lemma StackIsValid(s: State, i: nat, d: nat)
    requires Inv(s) && i < |s.threads| && d < |s.threads[i].stack|
    ensures s.threads[i].stack[d] <= |s.pool.tasks|
  {
    OneThread(s, i);
    assert (i == 0 && d == 0) || HasLoc(s, s.threads[i].stack[d], OnStack(i, d));
  }

  // The pointer of a thread in user code is the current task of its stack.
  lemma PointerIsCurrentTask<G>(f: Full<G>, i: nat)
    requires Tied(f) && i < |f.s.threads| && f.s.threads[i].pc.User?
    ensures f.s.threads[i].stack != [] && f.current[i] == Cur(f.s.threads[i])
  {
    OneThread(f.s, i);
    assert ThreadTied(f, i);
  }

  // A generator is used by one thread at a time: no two threads in user code have the same pointer.
  lemma GeneratorHasOneUser<G>(f: Full<G>, i: nat, j: nat)
    requires Tied(f) && i < |f.s.threads| && j < |f.s.threads| && i != j
    requires f.s.threads[i].pc.User? && f.s.threads[j].pc.User?
    ensures f.current[i] != f.current[j]
  {
    PointerIsCurrentTask(f, i);
    PointerIsCurrentTask(f, j);
    OneThread(f.s, i);
    OneThread(f.s, j);
    StacksDisjoint(f.s, i, j, |f.s.threads[j].stack| - 1);
  }

  lemma TiedFits<G>(f: Full<G>)
    requires Tied(f)
    ensures Fits(f)
  {
    forall i | 0 <= i < |f.current| ensures f.current[i] in f.own && (LeavesThunk(f.s, i) ==> f.previous[i] != []) {
      assert ThreadTied(f, i);
      OneThread(f.s, i);
      var stack := f.s.threads[i].stack;
      if stack != [] {
        StackIsValid(f.s, i, |stack| - 1);
      }
    }
  }

  lemma UserTasks(s: State, i: nat, a: Action)
    requires CanStep(s, i, a) && s.threads[i].pc.User?
    ensures |UserStep(s, i, a).pool.tasks| == |s.pool.tasks| + if a.Spawn? then 1 else 0
  {
    hide Enter, ReleaseAll, ReleaseReversed, PopExplicit, PopTo, Announced, Rec;
  }

  lemma BeginStack(s: State, i: nat, task: nat, waits: seq<nat>, back: Pc)
    requires i < |s.threads|
    ensures var u := BeginStep(s, i, task, waits, back);
            && FrameThreads(s, u, i)
            && u.threads[i].stack == s.threads[i].stack
               + if ValidTask(s.pool, task) && !TaskAt(s.pool, task).cancelRequested then [task] else []
  {
    assert s.threads[i].stack + [] == s.threads[i].stack;
  }

  lemma FinishStack(s: State, i: nat)
    requires Inv(s) && CanStep(s, i, Run) && LeavesThunk(s, i)
    ensures var u := RunStep(s, i);
            && FrameThreads(s, u, i) && s.threads[i].stack != []
            && u.threads[i].stack == s.threads[i].stack[..|s.threads[i].stack| - 1]
  {
    hide Inv;
    FinishIs(s, i, s.threads[i].pc.failure);
  }

  // What a step does to the stack of its thread; nothing happens to the others.
  lemma StepStack(s: State, i: nat, a: Action)
    requires Inv(s) && CanStep(s, i, a)
    ensures var u := Step(s, i, a);
            var stack := s.threads[i].stack;
            && FrameThreads(s, u, i)
            && (LeavesThunk(s, i) ==> stack != [])
            && u.threads[i].stack == (if CallsThunk(s, i) then stack + [s.threads[i].pc.task]
                                      else if LeavesThunk(s, i) then stack[..|stack| - 1] else stack)
            && |u.pool.tasks| == |s.pool.tasks| + (if s.threads[i].pc.User? && a.Spawn? then 1 else 0)
  {
    hide Inv, UserStep, FrameThreads, BeginStep;
    if s.threads[i].pc.User? {
      UserThreads(s, i, a);
      UserTasks(s, i, a);
    } else {
      SectionKeepsPool(s, i);
      var th := s.threads[i];
      match th.pc
      case Claimed(task) =>
        BeginStack(s, i, task, th.waits, Fetch);
        assert th.stack + [] == th.stack;
      case HelpClaimed(h, task) =>
        BeginStack(s, i, task, th.waits + [h], Helped(h, task));
        assert th.stack + [] == th.stack;
      case Released(_) => FinishStack(s, i);
      case _ =>
        hide RunStep;
        QuietStack(s, i);
    }
  }

  lemma NewThreadTied(n: nat)
    requires n > 0
    ensures Frames(n, NEW_WORKER.stack) == [0]
  {
  }

  // Calling a thunk and returning from it keep the pointers in step with the stack.
  lemma FramesPush(i: nat, stack: seq<nat>, task: nat)
    ensures Frames(i, stack + [task]) == Frames(i, stack) + [task]
  {
    assert [0] + (stack + [task]) == [0] + stack + [task];
  }

  lemma FramesPop(i: nat, stack: seq<nat>)
    requires stack != []
    ensures Frames(i, stack)[..|Frames(i, stack)| - 1] == Frames(i, stack[..|stack| - 1])
    ensures Frames(i, stack)[|Frames(i, stack)| - 1] == stack[|stack| - 1]
  {
  }

  // Exactly SPAWN makes a generator for a child.
  ghost predicate UseOk<G(!new)>(use: R.Use<G>) {
    forall g: G, op: R.Op :: use(g, op).child.Some? <==> op.Spawn?
  }

  lemma OtherTied<G>(use: R.Use<G>, f: Full<G>, i: nat, a: Action, j: nat)
    requires Tied(f) && Can(f, Section(ThreadStep(i, a))) && Fits(f)
    requires j != i && j < |After(f.s, ThreadStep(i, a)).threads|
    ensures var u := Then(use, f, Section(ThreadStep(i, a)));
            |u.current| == |u.previous| == |u.s.threads| && ThreadTied(u, j)
  {
    StepStack(f.s, i, a);
    hide Step, CanStep, Inv, Uses, Spawns, Grown, CallsThunk, Fits, Sleeping;
    var u := Then(use, f, Section(ThreadStep(i, a)));
    assert |u.current| == |u.previous| == |u.s.threads|;
    if j < |f.s.threads| {
      assert ThreadTied(f, j);
      assert u.s.threads[j] == f.s.threads[j];
    } else {
      assert u.s.threads[j] == NEW_WORKER;
      NewThreadTied(j);
    }
  }

  lemma PointsAfterCall(i: nat, stack: seq<nat>, current: nat, previous: seq<nat>, task: nat)
    requires Points(Frames(i, stack), current, previous)
    ensures Points(Frames(i, stack + [task]), task, previous + [current])
  {
    FramesPush(i, stack, task);
    var frames := Frames(i, stack);
    assert frames[..|frames| - 1] + [frames[|frames| - 1]] == frames;
    assert (frames + [task])[..|frames|] == frames;
  }

  lemma PointsAfterReturn(i: nat, stack: seq<nat>, current: nat, previous: seq<nat>)
    requires Points(Frames(i, stack), current, previous) && stack != [] && |Frames(i, stack)| > 1
    ensures previous != []
    ensures Points(Frames(i, stack[..|stack| - 1]), previous[|previous| - 1], previous[..|previous| - 1])
  {
    FramesPop(i, stack);
  }

  // The pointers of the acting thread after its step.
  lemma OwnPointers<G>(use: R.Use<G>, f: Full<G>, i: nat, a: Action)
    requires Can(f, Section(ThreadStep(i, a))) && Fits(f) && FrameThreads(f.s, Step(f.s, i, a), i)
    ensures var u := Then(use, f, Section(ThreadStep(i, a)));
            && u.s == Step(f.s, i, a) && |u.current| == |u.previous| == |u.s.threads| && i < |u.s.threads|
            && (CallsThunk(f.s, i) ==>
                  u.current[i] == f.s.threads[i].pc.task && u.previous[i] == f.previous[i] + [f.current[i]])
            && (LeavesThunk(f.s, i) ==>
                  u.current[i] == f.previous[i][|f.previous[i]| - 1]
                  && u.previous[i] == f.previous[i][..|f.previous[i]| - 1])
            && (!CallsThunk(f.s, i) && !LeavesThunk(f.s, i) ==>
                  u.current[i] == f.current[i] && u.previous[i] == f.previous[i])
  {
    hide Step, Uses, Spawns, Grown, Sleeping, MayCall;
  }

  lemma OwnTied<G>(use: R.Use<G>, f: Full<G>, i: nat, a: Action)
    requires Tied(f) && Can(f, Section(ThreadStep(i, a))) && Fits(f)
    ensures var u := Then(use, f, Section(ThreadStep(i, a)));
            |u.current| == |u.previous| == |u.s.threads| && i < |u.s.threads| && ThreadTied(u, i)
  {
    StepStack(f.s, i, a);
    OwnPointers(use, f, i, a);
    assert ThreadTied(f, i);
    if LeavesThunk(f.s, i) {
      StackBelow(f.s, i);
    }
    hide Step, CanStep, Inv, Then, CallsThunk, Fits, Tied, Can, Frames, FrameThreads;
    var stack := f.s.threads[i].stack;
    assert Points(Frames(i, stack), f.current[i], f.previous[i]);
    if CallsThunk(f.s, i) {
      PointsAfterCall(i, stack, f.current[i], f.previous[i], f.s.threads[i].pc.task);
    } else if LeavesThunk(f.s, i) {
      PointsAfterReturn(i, stack, f.current[i], f.previous[i]);
    }
  }

  // Below a task that has been begun there is always something to return to.
  lemma StackBelow(s: State, i: nat)
    requires Inv(s) && i < |s.threads| && LeavesThunk(s, i)
    ensures s.threads[i].stack != [] && |Frames(i, s.threads[i].stack)| > 1
  {
    OneThread(s, i);
  }

  lemma KeysAfter<G(!new)>(use: R.Use<G>, f: Full<G>, i: nat, a: Action)
    requires UseOk(use) && Tied(f) && Can(f, Section(ThreadStep(i, a))) && Fits(f)
    ensures var u := Then(use, f, Section(ThreadStep(i, a)));
            forall k: nat :: k in u.own <==> k <= |u.s.pool.tasks|
  {
    StepStack(f.s, i, a);
    hide Step, CanStep, Inv;
    assert use(f.own[f.current[i]].gen, R.Spawn).child.Some?;
  }

  lemma SectionKeepsTied<G(!new)>(use: R.Use<G>, f: Full<G>, i: nat, a: Action)
    requires UseOk(use) && Tied(f) && Can(f, Section(ThreadStep(i, a))) && Fits(f) && !Step(f.s, i, a).fatal
    ensures Tied(Then(use, f, Section(ThreadStep(i, a))))
  {
    var u := Then(use, f, Section(ThreadStep(i, a)));
    EventKeepsInv(f.s, ThreadStep(i, a));
    OwnTied(use, f, i, a);
    KeysAfter(use, f, i, a);
    forall j | 0 <= j < |u.s.threads| ensures ThreadTied(u, j) {
      if j != i {
        OtherTied(use, f, i, a, j);
      }
    }
    assert u.s == After(f.s, ThreadStep(i, a));
    hide Then, Inv, ThreadTied, After;
  }

  lemma StepKeepsTied<G(!new)>(use: R.Use<G>, f: Full<G>, h: Happening)
    requires UseOk(use) && Tied(f) && Can(f, h) && Fits(f) && !Then(use, f, h).s.fatal
    ensures Tied(Then(use, f, h))
  {
    match h
    case Section(ThreadStep(i, a)) => SectionKeepsTied(use, f, i, a);
    case Section(SpuriousWake(i)) =>
      EventKeepsInv(f.s, SpuriousWake(i));
      hide Inv;
      var u := Then(use, f, h);
      forall j | 0 <= j < |u.s.threads| ensures ThreadTied(u, j) {
        assert ThreadTied(f, j);
      }
    case Random(i, op) =>
      hide Inv;
      var u := Then(use, f, h);
      forall j | 0 <= j < |u.s.threads| ensures ThreadTied(u, j) {
        assert ThreadTied(f, j);
      }
  }

  lemma BeginsTied<G>(start: G, configured: nat)
    ensures Tied(Begins(start, configured))
  {
    InitialIsSafe(configured);
    hide Inv;
    assert ThreadTied(Begins(start, configured), 0);
  }

  lemma LiveBefore<G>(use: R.Use<G>, f: Full<G>, h: Happening)
    requires Can(f, h)
    ensures !f.s.fatal
  {
  }

  // In every run tl_current is the running task on each thread, as long as the program has not been stopped.
  lemma {:induction false} RunsAreTied<G(!new)>(use: R.Use<G>, start: G, configured: nat, hs: seq<Happening>)
    requires UseOk(use) && PlayFull(use, start, configured, hs).Some?
    requires !PlayFull(use, start, configured, hs).value.s.fatal
    ensures Tied(PlayFull(use, start, configured, hs).value)
    decreases |hs|
  {
    hide Tied, Can, Then, Fits;
    if hs == [] {
      BeginsTied(start, configured);
    } else {
      var f := PlayFull(use, start, configured, hs[..|hs| - 1]).value;
      LiveBefore(use, f, hs[|hs| - 1]);
      RunsAreTied(use, start, configured, hs[..|hs| - 1]);
      StepKeepsTied(use, f, hs[|hs| - 1]);
    }
  }

  // So no step of a run ever fails to be defined.
  lemma NothingIsMissing<G(!new)>(use: R.Use<G>, start: G, configured: nat, hs: seq<Happening>, h: Happening)
    requires UseOk(use) && PlayFull(use, start, configured, hs).Some?
    requires Can(PlayFull(use, start, configured, hs).value, h)
    ensures PlayFull(use, start, configured, hs + [h]).Some?
  {
    hide Tied, Can, Then, Fits;
    var f := PlayFull(use, start, configured, hs).value;
    LiveBefore(use, f, h);
    RunsAreTied(use, start, configured, hs);
    TiedFits(f);
    assert (hs + [h])[..|hs|] == hs;
  }

  // ---------------------------------------------------------------- every run is a run of RandomRuns

  // The use of a generator that a step makes, by the task whose code is running on its thread.
  function UseOf(s: State, h: Happening): Option<(nat, R.Op)> {
    match h
    case Random(i, op) => if i < |s.threads| && s.threads[i].stack != [] then Some((Cur(s.threads[i]), op)) else None
    case Section(ThreadStep(i, Spawn(_))) =>
      if i < |s.threads| && s.threads[i].stack != [] then Some((Cur(s.threads[i]), R.Spawn)) else None
    case _ => None
  }

  ghost function EventOf<G>(f: Full<G>, h: Happening): seq<R.Event> {
    var u := UseOf(f.s, h);
    if u.Some? && u.value.0 in f.own then [R.Event(f.own[u.value.0].path, u.value.1)] else []
  }

  ghost function Projected<G>(use: R.Use<G>, start: G, configured: nat, hs: seq<Happening>): seq<R.Event>
    requires PlayFull(use, start, configured, hs).Some?
    decreases |hs|
  {
    if hs == [] then []
    else
      var before := hs[..|hs| - 1];
      Projected(use, start, configured, before) + EventOf(PlayFull(use, start, configured, before).value, hs[|hs| - 1])
  }

  // Each task has the generator, the values and the children that RandomRuns says, under its own path.
  ghost predicate Mirrors<G>(f: Full<G>, w: R.World<G>) {
    && (forall k :: k in f.own ==> MirrorsTask(f, w, k))
    && (forall k, l :: k in f.own && l in f.own && f.own[k].path == f.own[l].path ==> k == l)
    && (forall p :: p in w ==> HasPath(f, p))
  }

  ghost predicate MirrorsTask<G>(f: Full<G>, w: R.World<G>, k: nat)
    requires k in f.own
  {
    var o := f.own[k];
    o.path in w && w[o.path].gen == o.gen && w[o.path].values == o.values && w[o.path].children == o.children
  }

  ghost predicate HasPath<G>(f: Full<G>, p: R.Path) {
    exists k :: k in f.own && f.own[k].path == p
  }

  lemma UseMirrored<G(!new)>(use: R.Use<G>, f: Full<G>, u: Full<G>, w: R.World<G>, i: nat, op: R.Op)
    requires UseOk(use) && Mirrors(f, w) && i < |f.current| && f.current[i] in f.own && !op.Spawn?
    requires u.own == Uses(use, f, i, op)
    ensures var e := R.Event(f.own[f.current[i]].path, op);
            e.task in w && Mirrors(u, R.Do(use, w, e))
  {
    var k := f.current[i];
    var e := R.Event(f.own[k].path, op);
    assert MirrorsTask(f, w, k);
    assert use(f.own[k].gen, op).child.None?;
    var v := R.Do(use, w, e);
    forall l | l in u.own ensures MirrorsTask(u, v, l) {
      assert MirrorsTask(f, w, l);
    }
    forall p | p in v ensures HasPath(u, p) {
      assert HasPath(f, p);
      var l :| l in f.own && f.own[l].path == p;
      assert u.own[l].path == p;
    }
  }

  // Task n is new, and of the others only task k has changed.
  lemma AddedMirrored<G>(f: Full<G>, u: Full<G>, w: R.World<G>, v: R.World<G>, k: nat, n: nat)
    requires Mirrors(f, w) && k in f.own && n !in f.own
    requires forall l :: l in u.own <==> l in f.own || l == n
    requires forall l :: l in f.own && l != k ==> u.own[l] == f.own[l]
    requires u.own[k].path == f.own[k].path && u.own[n].path !in w
    requires forall p :: p in v <==> p in w || p == u.own[n].path
    requires forall p :: p in w && p != f.own[k].path ==> v[p] == w[p]
    requires MirrorsTask(u, v, k) && MirrorsTask(u, v, n)
    ensures Mirrors(u, v)
  {
    forall l | l in u.own ensures MirrorsTask(u, v, l) {
      if l != n && l != k {
        assert MirrorsTask(f, w, l);
      }
    }
    forall l, m | l in u.own && m in u.own && u.own[l].path == u.own[m].path ensures l == m {
      assert l != n ==> MirrorsTask(f, w, l);
      assert m != n ==> MirrorsTask(f, w, m);
    }
    forall p | p in v ensures HasPath(u, p) {
      if p in w {
        assert HasPath(f, p);
        var l :| l in f.own && f.own[l].path == p;
        assert u.own[l].path == p;
      } else {
        assert u.own[n].path == p;
      }
    }
  }

  lemma SpawnMirrored<G(!new)>(use: R.Use<G>, start: G, f: Full<G>, u: Full<G>, w: R.World<G>, starts: map<R.Path, G>, i: nat)
    requires UseOk(use) && Mirrors(f, w) && R.Consistent(use, start, w, starts)
    requires i < |f.current| && f.current[i] in f.own && |f.s.pool.tasks| + 1 !in f.own
    requires u.own == Spawns(use, f, i)
    ensures var e := R.Event(f.own[f.current[i]].path, R.Spawn);
            e.task in w && Mirrors(u, R.Do(use, w, e))
  {
    var k := f.current[i];
    var o := f.own[k];
    assert MirrorsTask(f, w, k);
    assert use(o.gen, R.Spawn).child.Some?;
    R.FreshChild(use, start, w, starts, o.path);
    R.ChildHasParent(o.path, o.children);
    assert f.own[k].path in w && HasPath(f, o.path);
    hide R.Consistent, Mirrors, HasPath, UseOk;
    AddedMirrored(f, u, w, R.Do(use, w, R.Event(o.path, R.Spawn)), k, |f.s.pool.tasks| + 1);
  }

  lemma SameOwnMirrored<G>(f: Full<G>, u: Full<G>, w: R.World<G>)
    requires Mirrors(f, w) && u.own == f.own
    ensures Mirrors(u, w)
  {
    forall k | k in u.own ensures MirrorsTask(u, w, k) {
      assert MirrorsTask(f, w, k);
    }
    forall p | p in w ensures HasPath(u, p) {
      assert HasPath(f, p);
    }
  }

  // One step of a run is one event, or none, of the task whose code is running.
  lemma StepMirrored<G(!new)>(use: R.Use<G>, start: G, f: Full<G>, h: Happening, w: R.World<G>, starts: map<R.Path, G>)
    requires UseOk(use) && Tied(f) && Can(f, h) && Fits(f) && Mirrors(f, w) && R.Consistent(use, start, w, starts)
    ensures var es := EventOf(f, h);
            && |es| <= 1
            && (es == [] ==> Mirrors(Then(use, f, h), w))
            && (es != [] ==> es[0].task in w && Mirrors(Then(use, f, h), R.Do(use, w, es[0])))
  {
    hide Mirrors, R.Consistent, Uses, Spawns, UseOk;
    var u := Then(use, f, h);
    match h
    case Random(i, op) =>
      PointerIsCurrentTask(f, i);
      hide Tied;
      UseMirrored(use, f, u, w, i, op);
    case Section(ThreadStep(i, a)) =>
      if f.s.threads[i].pc.User? && a.Spawn? {
        PointerIsCurrentTask(f, i);
        assert |f.s.pool.tasks| + 1 !in f.own;
        hide Tied, After;
        SpawnMirrored(use, start, f, u, w, starts, i);
      } else {
        assert !a.Spawn?;
        hide Tied, After;
        SameOwnMirrored(f, u, w);
      }
    case Section(SpuriousWake(i)) => SameOwnMirrored(f, u, w);
  }

  lemma BeginsMirrored<G>(use: R.Use<G>, start: G, configured: nat)
    ensures R.Play(use, start, []) == Some(map[R.MAIN := R.Begin(start)])
    ensures Mirrors(Begins(start, configured), map[R.MAIN := R.Begin(start)])
  {
    var f := Begins(start, configured);
    assert f.own[0].path == R.MAIN;
    assert HasPath(f, R.MAIN);
  }

  lemma PlayOneMore<G>(use: R.Use<G>, start: G, events: seq<R.Event>, e: R.Event)
    requires R.Play(use, start, events).Some? && e.task in R.Play(use, start, events).value
    ensures R.Play(use, start, events + [e]) == Some(R.Do(use, R.Play(use, start, events).value, e))
  {
    assert (events + [e])[..|events|] == events;
  }

  // Every run of the runtime, with its nested tasks and its helpers, is a run of RandomRuns: each use of a
  // generator is the event of the task on top of the stack, and leaves that task's generator as it says.
  lemma {:induction false} RunsAreProjected<G(!new)>(use: R.Use<G>, start: G, configured: nat, hs: seq<Happening>)
    requires UseOk(use) && PlayFull(use, start, configured, hs).Some?
    ensures R.Play(use, start, Projected(use, start, configured, hs)).Some?
    ensures Mirrors(PlayFull(use, start, configured, hs).value, R.Play(use, start, Projected(use, start, configured, hs)).value)
    decreases |hs|
  {
    hide Tied, Can, Then, Fits, Mirrors, EventOf;
    if hs == [] {
      BeginsMirrored(use, start, configured);
    } else {
      var before := hs[..|hs| - 1];
      var h := hs[|hs| - 1];
      var f := PlayFull(use, start, configured, before).value;
      LiveBefore(use, f, h);
      RunsAreTied(use, start, configured, before);
      RunsAreProjected(use, start, configured, before);
      var events := Projected(use, start, configured, before);
      var starts := R.RunsAreConsistent(use, start, events);
      StepMirrored(use, start, f, h, R.Play(use, start, events).value, starts);
      var es := EventOf(f, h);
      if es == [] {
        assert events + es == events;
      } else {
        assert events + es == events + [es[0]];
        PlayOneMore(use, start, events, es[0]);
      }
    }
  }

  // Two runs in which each task, known by its spawn path, makes the same calls in the same order: whatever
  // threads run them and however they are nested, the same tasks exist and each has drawn the same values.
  lemma ThreadsDoNotMatter<G(!new)>(use: R.Use<G>, start: G, m: nat, hs1: seq<Happening>, n: nat, hs2: seq<Happening>, k: nat)
    requires UseOk(use) && PlayFull(use, start, m, hs1).Some? && PlayFull(use, start, n, hs2).Some?
    requires forall p: R.Path ::
               R.OpsOf(Projected(use, start, m, hs1), p) == R.OpsOf(Projected(use, start, n, hs2), p)
    requires k in PlayFull(use, start, m, hs1).value.own
    ensures exists l :: l in PlayFull(use, start, n, hs2).value.own
                        && PlayFull(use, start, n, hs2).value.own[l] == PlayFull(use, start, m, hs1).value.own[k]
  {
    var f1, f2 := PlayFull(use, start, m, hs1).value, PlayFull(use, start, n, hs2).value;
    RunsAreProjected(use, start, m, hs1);
    RunsAreProjected(use, start, n, hs2);
    R.ScheduleIsIrrelevant(use, start, Projected(use, start, m, hs1), Projected(use, start, n, hs2));
    var w := R.Play(use, start, Projected(use, start, m, hs1)).value;
    hide PlayFull, Projected;
    assert MirrorsTask(f1, w, k);
    assert HasPath(f2, f1.own[k].path);
    var l :| l in f2.own && f2.own[l].path == f1.own[k].path;
    assert MirrorsTask(f2, w, l);
  }

  // The source's calls return a generator for a new task exactly when they spawn one.
  lemma SourceGeneratorIsOk()
    ensures UseOk(R.UseRng)
  {
  }

  // For the generators of the source, the main program's seeded with the default seed.
  lemma RandomnessIgnoresTheThreads(start: Rng.Gen, m: nat, hs1: seq<Happening>, n: nat, hs2: seq<Happening>, k: nat)
    requires start == Rng.SeedGen(Rng.DEFAULT_SEED)
    requires PlayFull(R.UseRng, start, m, hs1).Some? && PlayFull(R.UseRng, start, n, hs2).Some?
    requires forall p: R.Path ::
               R.OpsOf(Projected(R.UseRng, start, m, hs1), p) == R.OpsOf(Projected(R.UseRng, start, n, hs2), p)
    requires k in PlayFull(R.UseRng, start, m, hs1).value.own
    ensures exists l :: l in PlayFull(R.UseRng, start, n, hs2).value.own
                        && PlayFull(R.UseRng, start, n, hs2).value.own[l] == PlayFull(R.UseRng, start, m, hs1).value.own[k]
  {
    hide PlayFull, Projected, UseOk, R.OpsOf;
    SourceGeneratorIsOk();
    ThreadsDoNotMatter(R.UseRng, start, m, hs1, n, hs2, k);
  }
}
