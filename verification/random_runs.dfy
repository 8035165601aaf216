/**
 Randomness does not depend on the schedule. A task is known by its spawn path: the main program is the
 empty path, and the k-th task spawned by task p is p + [k]. Each event is one use of a generator by its
 owner; a new task gets its generator from its parent's stream at SPAWN.

 What one use does to a generator is a parameter `use` of the argument; `UseRng` is the one of the source.
 */
module RandomRuns {
  import opened Basics
  import opened Rng

  type Path = seq<nat>

  // RND, RND(0), RND of a negative argument (with the seed it converts to), RANDOMIZE n, and SPAWN.
  datatype Op = Draw | Last | DrawSeeded(seed: Word) | Randomize(seed: Word) | Spawn

  datatype Outcome<G> = Outcome(gen: G, value: Option<real>, child: Option<G>)

  type Use<!G> = (G, Op) -> Outcome<G>

  function UseRng(g: Gen, op: Op): Outcome<Gen> {
    match op
    case Draw => var n := NextF64(g); Outcome(n, Some(n.last), None)
    case Last => Outcome(g, Some(g.last), None)
    case DrawSeeded(seed) => var n := NextF64(SeedGen(seed)); Outcome(n, Some(n.last), None)
    case Randomize(seed) => Outcome(SeedGen(seed), None, None)
    case Spawn => Outcome(g.(words := Advance(g.words)), None, Some(SeedGen(Output(g.words))))
  }

  // ---------------------------------------------------------------- interleaved runs

  datatype Task<G> = Task(gen: G, ops: seq<Op>, values: seq<real>, children: nat)

  type World<G> = map<Path, Task<G>>

  datatype Event = Event(task: Path, op: Op)

  const MAIN: Path := []

  function Child(p: Path, k: nat): Path {
    p + [k]
  }

  function Begin<G>(g: G): Task<G> {
    Task(g, [], [], 0)
  }

  function Add<T>(s: seq<T>, x: Option<T>): seq<T> {
    if x.Some? then s + [x.value] else s
  }

  function Did<G>(use: Use<G>, t: Task<G>, op: Op): Task<G> {
    var o := use(t.gen, op);
    Task(o.gen, t.ops + [op], Add(t.values, o.value), t.children + if o.child.Some? then 1 else 0)
  }

  function Do<G>(use: Use<G>, w: World<G>, e: Event): World<G>
    requires e.task in w
  {
    var t := w[e.task];
    var o := use(t.gen, e.op);
    var w1 := w[e.task := Did(use, t, e.op)];
    if o.child.Some? then w1[Child(e.task, t.children) := Begin(o.child.value)] else w1
  }

  // The world after a run; None when a task acts that has not been spawned.
  function Play<G>(use: Use<G>, start: G, events: seq<Event>): Option<World<G>>
    decreases |events|
  {
    if events == [] then Some(map[MAIN := Begin(start)])
    else
      match Play(use, start, events[..|events| - 1])
      case None => None
      case Some(w) =>
        if events[|events| - 1].task in w then Some(Do(use, w, events[|events| - 1])) else None
  }

  // What one task did in a run.
  function OpsOf(events: seq<Event>, p: Path): seq<Op>
    decreases |events|
  {
    if events == [] then []
    else
      var last := events[|events| - 1];
      OpsOf(events[..|events| - 1], p) + if last.task == p then [last.op] else []
  }

  // ---------------------------------------------------------------- a task on its own

  datatype Alone<G> = Alone(gen: G, values: seq<real>, children: seq<G>)

  // What a task computes from its starting generator and its own operations, with nobody else around.
  function Solo<G>(use: Use<G>, g: G, ops: seq<Op>): Alone<G>
    decreases |ops|
  {
    if ops == [] then Alone(g, [], [])
    else
      var a := Solo(use, g, ops[..|ops| - 1]);
      var o := use(a.gen, ops[|ops| - 1]);
      Alone(o.gen, Add(a.values, o.value), Add(a.children, o.child))
  }

  // Every task of the world has computed what it computes on its own, and each of its children started
  // with the generator drawn for it.
  ghost predicate SoloTask<G>(use: Use<G>, w: World<G>, starts: map<Path, G>, p: Path)
    requires p in w && p in starts
  {
    var a := Solo(use, starts[p], w[p].ops);
    && w[p].gen == a.gen && w[p].values == a.values && w[p].children == |a.children|
    && forall k: nat :: k < |a.children| ==>
         Child(p, k) in w && Child(p, k) in starts && starts[Child(p, k)] == a.children[k]
  }

  ghost predicate Spawned<G>(w: World<G>, p: Path) {
    p == MAIN || (p[..|p| - 1] in w && p[|p| - 1] < w[p[..|p| - 1]].children)
  }

  ghost predicate Consistent<G(!new)>(use: Use<G>, start: G, w: World<G>, starts: map<Path, G>) {
    && w.Keys == starts.Keys
    && MAIN in starts && starts[MAIN] == start
    && (forall p {:trigger SoloTask(use, w, starts, p)} :: p in w ==> SoloTask(use, w, starts, p))
    && (forall p {:trigger Spawned(w, p)} :: p in w ==> Spawned(w, p))
  }

  lemma SoloStep<G>(use: Use<G>, g: G, ops: seq<Op>, op: Op)
    ensures var a := Solo(use, g, ops);
            var o := use(a.gen, op);
            Solo(use, g, ops + [op]) == Alone(o.gen, Add(a.values, o.value), Add(a.children, o.child))
  {
    assert (ops + [op])[..|ops + [op]| - 1] == ops;
  }

  function NewStarts<G>(use: Use<G>, w: World<G>, starts: map<Path, G>, e: Event): map<Path, G>
    requires e.task in w
  {
    var o := use(w[e.task].gen, e.op);
    if o.child.Some? then starts[Child(e.task, w[e.task].children) := o.child.value] else starts
  }

  lemma ChildHasParent(p: Path, k: nat)
    ensures var c := Child(p, k);
            c != MAIN && c != p && c[..|c| - 1] == p && c[|c| - 1] == k
  {
  }

  lemma FreshChild<G(!new)>(use: Use<G>, start: G, w: World<G>, starts: map<Path, G>, p: Path)
    requires Consistent(use, start, w, starts) && p in w
    ensures Child(p, w[p].children) !in w
  {
    ChildHasParent(p, w[p].children);
    assert Child(p, w[p].children) in w ==> Spawned(w, Child(p, w[p].children));
  }

  lemma OtherTaskKept<G(!new)>(use: Use<G>, start: G, w: World<G>, starts: map<Path, G>, e: Event, p: Path)
    requires Consistent(use, start, w, starts) && e.task in w && p in w && p != e.task
    ensures p in Do(use, w, e) && p in NewStarts(use, w, starts, e)
    ensures SoloTask(use, Do(use, w, e), NewStarts(use, w, starts, e), p)
  {
    FreshChild(use, start, w, starts, e.task);
    assert SoloTask(use, w, starts, p);
  }

  lemma ActingTaskKept<G(!new)>(use: Use<G>, start: G, w: World<G>, starts: map<Path, G>, e: Event)
    requires Consistent(use, start, w, starts) && e.task in w
    ensures e.task in Do(use, w, e) && e.task in NewStarts(use, w, starts, e)
    ensures SoloTask(use, Do(use, w, e), NewStarts(use, w, starts, e), e.task)
  {
    var p := e.task;
    FreshChild(use, start, w, starts, p);
    ChildHasParent(p, w[p].children);
    assert SoloTask(use, w, starts, p);
    SoloStep(use, starts[p], w[p].ops, e.op);
  }

  lemma StepKeepsConsistent<G(!new)>(use: Use<G>, start: G, w: World<G>, starts: map<Path, G>, e: Event)
    requires Consistent(use, start, w, starts) && e.task in w
    ensures Consistent(use, start, Do(use, w, e), NewStarts(use, w, starts, e))
  {
    var u := Do(use, w, e);
    var s := NewStarts(use, w, starts, e);
    FreshChild(use, start, w, starts, e.task);
    ChildHasParent(e.task, w[e.task].children);
    forall p | p in u ensures SoloTask(use, u, s, p) {
      if p == e.task {
        ActingTaskKept(use, start, w, starts, e);
      } else if p in w {
        OtherTaskKept(use, start, w, starts, e, p);
      }
    }
    forall p | p in u ensures Spawned(u, p) {
      if p in w {
        assert Spawned(w, p);
      }
    }
  }

  lemma {:induction false} RunsAreConsistent<G(!new)>(use: Use<G>, start: G, events: seq<Event>)
    returns (starts: map<Path, G>)
    requires Play(use, start, events).Some?
    ensures Consistent(use, start, Play(use, start, events).value, starts)
    decreases |events|
  {
    if events == [] {
      starts := map[MAIN := start];
    } else {
      var before := events[..|events| - 1];
      var s := RunsAreConsistent(use, start, before);
      StepKeepsConsistent(use, start, Play(use, start, before).value, s, events[|events| - 1]);
      starts := NewStarts(use, Play(use, start, before).value, s, events[|events| - 1]);
    }
  }

  lemma {:induction false} OpsAreRecorded<G(!new)>(use: Use<G>, start: G, events: seq<Event>, p: Path)
    requires Play(use, start, events).Some?
    ensures var w := Play(use, start, events).value;
            if p in w then w[p].ops == OpsOf(events, p) else OpsOf(events, p) == []
    decreases |events|
  {
    if events != [] {
      var before := events[..|events| - 1];
      OpsAreRecorded(use, start, before, p);
      var starts := RunsAreConsistent(use, start, before);
      FreshChild(use, start, Play(use, start, before).value, starts, events[|events| - 1].task);
    }
  }

  // ---------------------------------------------------------------- two schedules

  ghost predicate SameOps<G>(w: World<G>, u: World<G>) {
    forall p :: p in w && p in u ==> w[p].ops == u[p].ops
  }

  // By induction over the spawn path: the task exists in both worlds, with the same start.
  lemma {:induction false} SameStart<G(!new)>(use: Use<G>, start: G, w: World<G>, s: map<Path, G>,
                                              u: World<G>, t: map<Path, G>, p: Path)
    requires Consistent(use, start, w, s) && Consistent(use, start, u, t) && SameOps(w, u) && p in w
    ensures p in u && s[p] == t[p]
    decreases |p|
  {
    if p != MAIN {
      var parent := p[..|p| - 1];
      assert Spawned(w, p);
      SameStart(use, start, w, s, u, t, parent);
      assert SoloTask(use, w, s, parent) && SoloTask(use, u, t, parent);
      assert Child(parent, p[|p| - 1]) == p;
    }
  }

  lemma SameTask<G(!new)>(use: Use<G>, start: G, w: World<G>, s: map<Path, G>, u: World<G>, t: map<Path, G>, p: Path)
    requires Consistent(use, start, w, s) && Consistent(use, start, u, t) && SameOps(w, u) && p in w
    ensures p in u && w[p] == u[p]
  {
    SameStart(use, start, w, s, u, t, p);
    assert SoloTask(use, w, s, p) && SoloTask(use, u, t, p);
  }

  lemma SameWorld<G(!new)>(use: Use<G>, start: G, w: World<G>, s: map<Path, G>, u: World<G>, t: map<Path, G>)
    requires Consistent(use, start, w, s) && Consistent(use, start, u, t) && SameOps(w, u)
    ensures w == u
  {
    forall p | p in w ensures p in u && w[p] == u[p] {
      SameTask(use, start, w, s, u, t, p);
    }
    forall p | p in u ensures p in w {
      SameTask(use, start, u, t, w, s, p);
    }
  }

  // Two interleavings of the same operations per task leave every task with the same random values and
  // the same generator.
  lemma ScheduleIsIrrelevant<G(!new)>(use: Use<G>, start: G, events1: seq<Event>, events2: seq<Event>)
    requires Play(use, start, events1).Some? && Play(use, start, events2).Some?
    requires forall p: Path :: OpsOf(events1, p) == OpsOf(events2, p)
    ensures Play(use, start, events1) == Play(use, start, events2)
  {
    var w, u := Play(use, start, events1).value, Play(use, start, events2).value;
    var s := RunsAreConsistent(use, start, events1);
    var t := RunsAreConsistent(use, start, events2);
    assert SameOps(w, u) by {
      forall p | p in w && p in u ensures w[p].ops == u[p].ops {
        OpsAreRecorded(use, start, events1, p);
        OpsAreRecorded(use, start, events2, p);
      }
    }
    SameWorld(use, start, w, s, u, t);
  }

  // For the generators of the source, the main program's seeded with the default seed.
  lemma RandomnessIgnoresTheSchedule(events1: seq<Event>, events2: seq<Event>)
    requires Play(UseRng, SeedGen(DEFAULT_SEED), events1).Some?
    requires Play(UseRng, SeedGen(DEFAULT_SEED), events2).Some?
    requires forall p: Path :: OpsOf(events1, p) == OpsOf(events2, p)
    ensures Play(UseRng, SeedGen(DEFAULT_SEED), events1) == Play(UseRng, SeedGen(DEFAULT_SEED), events2)
  {
    ScheduleIsIrrelevant(UseRng, SeedGen(DEFAULT_SEED), events1, events2);
  }

  // ---------------------------------------------------------------- what the source's calls do

  // SPAWN seeds the child's generator with the word that the parent's returns next.
  method SeedChild(parent: UxbRng, child: UxbRng)
    requires parent.Valid() && child.Valid() && parent != child && parent.s != child.s
    modifies parent.s, child, child.s
    ensures parent.Valid() && child.Valid()
    ensures parent.Value() == UseRng(old(parent.Value()), Spawn).gen
    ensures Some(child.Value()) == UseRng(old(parent.Value()), Spawn).child
  {
    var word := parent.Next();
    child.Seed(word);
  }

  // A draw answers with the leading bits of the next word and remembers the answer; SPAWN moves the stream
  // just as far, answers nothing and leaves what is remembered.
  lemma SpawnIsADiscardedDraw(g: Gen)
    ensures var d, o := UseRng(g, Draw), UseRng(g, Spawn);
            && d.value.Some? && d.child.None? && d.gen.last == d.value.value && LeadingBits(d.value.value, Output(g.words))
            && o.gen.words == d.gen.words && o.gen.last == g.last && o.value.None? && o.child.Some?
  {
    RandomIsUnitFraction(g);
    hide SeedGen, LeadingBits;
  }

  // The child's generator tells the word it was seeded with, so tasks spawned with different words, or by
  // parents whose streams stand at different words, start with different generators.
  lemma SpawnedTellsItsWord(g: Gen, h: Gen)
    requires UseRng(g, Spawn).child == UseRng(h, Spawn).child
    ensures Output(g.words) == Output(h.words) && g.words.b == h.words.b
  {
    hide SeedWords, Starred;
    SeedingIsInjective(Output(g.words), Output(h.words));
    StarredIsBijective(g.words.b);
    StarredIsBijective(h.words.b);
  }

  lemma {:induction false} SoloAppend<G>(use: Use<G>, g: G, a: seq<Op>, b: seq<Op>)
    ensures var x := Solo(use, g, a);
            var y := Solo(use, x.gen, b);
            Solo(use, g, a + b) == Alone(y.gen, x.values + y.values, x.children + y.children)
    decreases |b|
  {
    if b == [] {
      assert a + b == a;
    } else {
      SoloAppend(use, g, a, b[..|b| - 1]);
      assert (a + b)[..|a + b| - 1] == a + b[..|b| - 1];
    }
  }

  lemma SoloOne<G>(use: Use<G>, g: G, op: Op)
    ensures var o := use(g, op);
            Solo(use, g, [op]) == Alone(o.gen, Add([], o.value), Add([], o.child))
  {
    assert [op][..0] == [];
  }

  predicate Draws(op: Op) {
    op.Draw? || op.DrawSeeded?
  }

  predicate KeepsLast(op: Op) {
    op.Last? || op.Spawn?
  }

  lemma {:induction false} LastIsKept(g: Gen, quiet: seq<Op>)
    requires forall op :: op in quiet ==> KeepsLast(op)
    ensures Solo(UseRng, g, quiet).gen.last == g.last
    decreases |quiet|
  {
    hide Advance, SeedGen, Output, NextF64;
    if quiet != [] {
      LastIsKept(g, quiet[..|quiet| - 1]);
      assert KeepsLast(quiet[|quiet| - 1]);
    }
  }

  // RND(0) answers the number drawn latest, however many RND(0) and SPAWN came after it, and moves nothing.
  lemma LastRepeatsLatest(g: Gen, draw: Op, quiet: seq<Op>)
    requires Draws(draw) && forall op :: op in quiet ==> KeepsLast(op)
    ensures UseRng(g, draw).value.Some?
    ensures var at := Solo(UseRng, UseRng(g, draw).gen, quiet).gen;
            UseRng(at, Last) == Outcome(at, UseRng(g, draw).value, None)
  {
    LastIsKept(UseRng(g, draw).gen, quiet);
    hide Advance, SeedWords, Output;
  }

  // Before the first number is drawn RND(0) answers 0.
  lemma LastStartsAtZero(seed: Word, quiet: seq<Op>)
    requires forall op :: op in quiet ==> KeepsLast(op)
    ensures UseRng(Solo(UseRng, SeedGen(seed), quiet).gen, Last).value == Some(0.0)
  {
    LastIsKept(SeedGen(seed), quiet);
  }

  // After RANDOMIZE a task computes what it would compute from the seed alone, whatever went before.
  lemma RandomizeForgets(g: Gen, before: seq<Op>, seed: Word, after: seq<Op>)
    ensures var x, y, z := Solo(UseRng, g, before), Solo(UseRng, SeedGen(seed), after),
                           Solo(UseRng, g, before + [Randomize(seed)] + after);
            z == Alone(y.gen, x.values + y.values, x.children + y.children)
  {
    hide Advance, SeedWords, Output;
    var x := Solo(UseRng, g, before);
    SoloOne(UseRng, x.gen, Randomize(seed));
    SoloAppend(UseRng, g, before, [Randomize(seed)]);
    SoloAppend(UseRng, g, before + [Randomize(seed)], after);
    assert x.values + [] == x.values && x.children + [] == x.children;
  }

  // RND of a negative argument is RANDOMIZE with it followed by RND.
  lemma SeededDrawIsRandomizeAndDraw(g: Gen, seed: Word)
    ensures UseRng(g, DrawSeeded(seed)) == UseRng(UseRng(g, Randomize(seed)).gen, Draw)
    ensures UseRng(g, Randomize(seed)).value.None? && UseRng(g, Randomize(seed)).child.None?
  {
    hide Advance, SeedWords, Output;
  }
}
