/**
 The slots of runtime_ext/uxjsruntime/uxjsrt.c as a value: runtimes own contexts, contexts own results.
 Pointers are numbers that are never issued twice, one series per kind; `log` lists what was given back to
 QuickJS, in order.
 */
module JsTree {
  import opened Basics
  import opened Generations

  const MAX_RUNTIMES: nat := 16
  const MAX_CONTEXTS: nat := 64
  const MAX_RESULTS: nat := 1024
  const CYCLE: nat := 0x7FFF

  // `parent` is the index of the owning slot, -1 in a free one; a runtime's is its owner thread.
  datatype Slot = Slot(used: bool, generation: nat, pointer: nat, parent: int)

  datatype Freed = FreedValue(value: nat, context: nat) | FreedContext(pointer: nat, runtime: nat) | FreedRuntime(pointer: nat)

  datatype World = World(
    runtimes: seq<Slot>,
    contexts: seq<Slot>,
    results: seq<Slot>,
    log: seq<Freed>,
    nextRuntime: nat,
    nextContext: nat,
    nextValue: nat)

  const NEVER_USED := Slot(false, 0, 0, -1)

  // ---------------------------------------------------------------- handles

  function MakeHandle(generation: nat, index: nat): nat {
    generation * 0x1_0000 + (index + 1)
  }

  // The slot index that a handle names, if its slot is in use with the handle's generation.
  function Lookup(slots: seq<Slot>, handle: int): Option<nat> {
    if handle <= 0 || handle % 0x1_0000 == 0 then None
    else
      var index := handle % 0x1_0000 - 1;
      var generation := (handle / 0x1_0000) % 0x8000;
      if index >= |slots| || !slots[index].used || slots[index].generation != generation then None else Some(index)
  }

  // get_runtime, get_context and get_result; the first two insist on the owner thread.
  function GetRuntime(w: World, handle: int, thread: int): Option<nat> {
    match Lookup(w.runtimes, handle)
    case Some(i) => if w.runtimes[i].parent == thread then Some(i) else None
    case None => None
  }

  function GetContext(w: World, handle: int, thread: int): Option<nat> {
    match Lookup(w.contexts, handle)
    case Some(i) =>
      var r := w.contexts[i].parent;
      if 0 <= r < |w.runtimes| && w.runtimes[r].used && w.runtimes[r].parent == thread then Some(i) else None
    case None => None
  }

  function GetResult(w: World, handle: int, context: nat): Option<nat> {
    match Lookup(w.results, handle)
    case Some(i) => if w.results[i].parent == context then Some(i) else None
    case None => None
  }

  // A handle works on one thread only, and a result only with its own context.
  lemma HandleHasOneOwner(w: World, handle: int, thread: int, other: int, c: nat, d: nat)
    requires thread != other && c != d
    ensures GetRuntime(w, handle, thread).None? || GetRuntime(w, handle, other).None?
    ensures GetContext(w, handle, thread).None? || GetContext(w, handle, other).None?
    ensures GetResult(w, handle, c).None? || GetResult(w, handle, d).None?
  {
    hide Lookup;
  }

  lemma HandleRoundTrip(generation: nat, index: nat)
    requires 1 <= generation <= CYCLE && index < MAX_RESULTS
    ensures var h := MakeHandle(generation, index);
            0 < h < 0x8000_0000 && h % 0x1_0000 == index + 1 && (h / 0x1_0000) % 0x8000 == generation
  {
  }

  // ---------------------------------------------------------------- single slots

  // A fresh handle names its slot and did not name anything before.
  lemma TakenIsNamed(slots: seq<Slot>, i: nat, pointer: nat, parent: int)
    requires i < |slots| <= MAX_RESULTS && !slots[i].used && slots[i].generation <= CYCLE
    ensures var s := Taken(slots[i], pointer, parent);
            var h := MakeHandle(s.generation, i);
            h > 0 && Lookup(slots, h).None? && Lookup(slots[i := s], h) == Some(i)
  {
    HandleRoundTrip(NextOf(CYCLE, slots[i].generation), i);
  }

  function Taken(s: Slot, pointer: nat, parent: int): Slot {
    Slot(true, NextOf(CYCLE, s.generation), pointer, parent)
  }

  function Dropped(s: Slot): Slot {
    s.(used := false, generation := NextOf(CYCLE, s.generation), parent := -1)
  }

  predicate OwnedBy(slots: seq<Slot>, k: nat, owner: int) {
    k < |slots| && slots[k].used && slots[k].parent == owner
  }

  // Of the first n slots exactly those in use that belong to `owner` were dropped.
  ghost predicate DroppedOf(before: seq<Slot>, after: seq<Slot>, owner: int, n: nat) {
    && |after| == |before|
    && forall k: nat :: k < |before| ==>
         after[k] == if k < n && OwnedBy(before, k, owner) then Dropped(before[k]) else before[k]
  }

  // The result k belongs to one of the first n contexts, and that to the runtime r.
  predicate UnderRuntime(w: World, k: nat, r: nat, n: nat) {
    && k < |w.results| && w.results[k].used
    && 0 <= w.results[k].parent < n && OwnedBy(w.contexts, w.results[k].parent, r)
  }

  ghost predicate DroppedUnder(w: World, after: seq<Slot>, r: nat, n: nat) {
    && |after| == |w.results|
    && forall k: nat :: k < |after| ==>
         after[k] == if UnderRuntime(w, k, r, n) then Dropped(w.results[k]) else w.results[k]
  }

  // What the library does to one slot at a time; a value for which there is no slot is given back at once.
  datatype Move =
    | TakeRuntime(i: nat, thread: int)
    | TakeContext(i: nat, runtime: nat)
    | TakeResult(i: nat, context: nat)
    | RefuseResult(context: nat)
    | DropResult(i: nat)
    | DropContext(i: nat)
    | DropRuntime(i: nat)

  ghost predicate CanMove(w: World, m: Move) {
    match m
    case TakeRuntime(i, _) => i < |w.runtimes| && !w.runtimes[i].used
    case TakeContext(i, r) => i < |w.contexts| && !w.contexts[i].used && r < |w.runtimes| && w.runtimes[r].used
    case TakeResult(i, c) => i < |w.results| && !w.results[i].used && c < |w.contexts| && w.contexts[c].used
    case RefuseResult(c) =>
      && c < |w.contexts| && w.contexts[c].used
      && forall k :: 0 <= k < |w.results| ==> w.results[k].used
    case DropResult(i) =>
      i < |w.results| && w.results[i].used && 0 <= w.results[i].parent < |w.contexts|
    case DropContext(i) =>
      && i < |w.contexts| && w.contexts[i].used && 0 <= w.contexts[i].parent < |w.runtimes|
      && forall k :: 0 <= k < |w.results| && w.results[k].used ==> w.results[k].parent != i
    case DropRuntime(i) =>
      && i < |w.runtimes| && w.runtimes[i].used
      && forall k :: 0 <= k < |w.contexts| && w.contexts[k].used ==> w.contexts[k].parent != i
  }

  ghost function After(w: World, m: Move): World
    requires CanMove(w, m)
  {
    match m
    case TakeRuntime(i, t) =>
      w.(runtimes := w.runtimes[i := Taken(w.runtimes[i], w.nextRuntime, t)], nextRuntime := w.nextRuntime + 1)
    case TakeContext(i, r) =>
      w.(contexts := w.contexts[i := Taken(w.contexts[i], w.nextContext, r)], nextContext := w.nextContext + 1)
    case TakeResult(i, c) =>
      w.(results := w.results[i := Taken(w.results[i], w.nextValue, c)], nextValue := w.nextValue + 1)
    case RefuseResult(c) =>
      w.(log := w.log + [FreedValue(w.nextValue, w.contexts[c].pointer)], nextValue := w.nextValue + 1)
    case DropResult(i) =>
      var s := w.results[i];
      w.(results := w.results[i := Dropped(s)], log := w.log + [FreedValue(s.pointer, w.contexts[s.parent].pointer)])
    case DropContext(i) =>
      var s := w.contexts[i];
      w.(contexts := w.contexts[i := Dropped(s)], log := w.log + [FreedContext(s.pointer, w.runtimes[s.parent].pointer)])
    case DropRuntime(i) =>
      w.(runtimes := w.runtimes[i := Dropped(w.runtimes[i])], log := w.log + [FreedRuntime(w.runtimes[i].pointer)])
  }

  // ---------------------------------------------------------------- the tree and the log

  ghost predicate SlotsOk(slots: seq<Slot>, next: nat) {
    && (forall i :: 0 <= i < |slots| ==> slots[i].generation <= CYCLE
                                         && (slots[i].used ==> slots[i].generation >= 1 && slots[i].pointer < next))
    && (forall i, j :: 0 <= i < j < |slots| && slots[i].used && slots[j].used ==> slots[i].pointer != slots[j].pointer)
  }

  // A used result belongs to a used context, a used context to a used runtime.
  ghost predicate TreeOk(w: World) {
    && (forall i :: 0 <= i < |w.results| && w.results[i].used ==>
          0 <= w.results[i].parent < |w.contexts| && w.contexts[w.results[i].parent].used)
    && (forall i :: 0 <= i < |w.contexts| && w.contexts[i].used ==>
          0 <= w.contexts[i].parent < |w.runtimes| && w.runtimes[w.contexts[i].parent].used)
  }

  predicate IsLive(slots: seq<Slot>, pointer: nat) {
    exists i :: 0 <= i < |slots| && slots[i].used && slots[i].pointer == pointer
  }

  // Only what was issued has been freed, and nothing that is in use.
  ghost predicate FreedOk(w: World) {
    && (forall k :: 0 <= k < |w.log| ==>
          match w.log[k]
          case FreedValue(v, _) => v < w.nextValue && !IsLive(w.results, v)
          case FreedContext(c, _) => c < w.nextContext && !IsLive(w.contexts, c)
          case FreedRuntime(r) => r < w.nextRuntime && !IsLive(w.runtimes, r))
  }

  // Nothing is freed twice, and nothing after its owner.
  ghost predicate OrderOk(log: seq<Freed>) {
    forall j, k :: 0 <= j < k < |log| ==> Before(log[j], log[k])
  }

  predicate Before(a: Freed, b: Freed) {
    match a
    case FreedValue(v, _) => !(b.FreedValue? && b.value == v)
    case FreedContext(c, _) => !(b.FreedContext? && b.pointer == c) && !(b.FreedValue? && b.context == c)
    case FreedRuntime(r) => !(b.FreedRuntime? && b.pointer == r) && !(b.FreedContext? && b.runtime == r)
  }

  // Every stored value is still in its slot or has been freed.
  ghost predicate NothingLost(w: World) {
    forall v: nat :: v < w.nextValue ==> IsLive(w.results, v) || HasFreed(w.log, v)
  }

  predicate HasFreed(log: seq<Freed>, v: nat) {
    exists k :: 0 <= k < |log| && log[k].FreedValue? && log[k].value == v
  }

  ghost predicate WorldOk(w: World) {
    && |w.runtimes| == MAX_RUNTIMES && |w.contexts| == MAX_CONTEXTS && |w.results| == MAX_RESULTS
    && SlotsOk(w.runtimes, w.nextRuntime) && SlotsOk(w.contexts, w.nextContext) && SlotsOk(w.results, w.nextValue)
    && TreeOk(w) && FreedOk(w) && OrderOk(w.log) && NothingLost(w)
  }

  lemma TakenIsLive(slots: seq<Slot>, i: nat, next: nat, parent: int)
    requires i < |slots| && !slots[i].used && SlotsOk(slots, next)
    ensures var after := slots[i := Taken(slots[i], next, parent)];
            && SlotsOk(after, next + 1)
            && forall p: nat :: IsLive(after, p) <==> p == next || IsLive(slots, p)
  {
    var after := slots[i := Taken(slots[i], next, parent)];
    forall p: nat ensures IsLive(after, p) <==> p == next || IsLive(slots, p) {
      if IsLive(slots, p) {
        var k :| 0 <= k < |slots| && slots[k].used && slots[k].pointer == p;
        assert after[k].used;
      }
      if p == next {
        assert after[i].pointer == next;
      }
    }
  }

  lemma DroppedIsDead(slots: seq<Slot>, i: nat, next: nat)
    requires i < |slots| && slots[i].used && SlotsOk(slots, next)
    ensures var after := slots[i := Dropped(slots[i])];
            && SlotsOk(after, next)
            && forall p: nat :: IsLive(after, p) <==> p != slots[i].pointer && IsLive(slots, p)
  {
    var after := slots[i := Dropped(slots[i])];
    forall p: nat ensures IsLive(after, p) <==> p != slots[i].pointer && IsLive(slots, p) {
      if IsLive(slots, p) && p != slots[i].pointer {
        var k :| 0 <= k < |slots| && slots[k].used && slots[k].pointer == p;
        assert after[k].used;
      }
      if IsLive(after, p) {
        var k :| 0 <= k < |after| && after[k].used && after[k].pointer == p;
        assert slots[k].used;
      }
    }
  }

  // A take leaves the log alone.
  lemma TakeResultKeepsOk(w: World, i: nat, c: nat)
    requires WorldOk(w) && CanMove(w, TakeResult(i, c))
    ensures WorldOk(After(w, TakeResult(i, c)))
  {
    var u := After(w, TakeResult(i, c));
    TakenIsLive(w.results, i, w.nextValue, c);
    hide SlotsOk, IsLive;
    forall v: nat | v < u.nextValue ensures IsLive(u.results, v) || HasFreed(u.log, v) {
      assert v < w.nextValue ==> IsLive(w.results, v) || HasFreed(w.log, v);
    }
  }

  lemma TakeOwnerKeepsOk(w: World, m: Move)
    requires WorldOk(w) && CanMove(w, m) && (m.TakeRuntime? || m.TakeContext?)
    ensures WorldOk(After(w, m))
  {
    match m
    case TakeRuntime(i, t) => TakenIsLive(w.runtimes, i, w.nextRuntime, t);
    case TakeContext(i, r) => TakenIsLive(w.contexts, i, w.nextContext, r);
  }

  // A new entry at the end of the log.
  lemma Logged(log: seq<Freed>, entry: Freed)
    requires OrderOk(log) && forall k :: 0 <= k < |log| ==> Before(log[k], entry)
    ensures OrderOk(log + [entry])
    ensures forall v: nat :: HasFreed(log + [entry], v) <==> HasFreed(log, v) || (entry.FreedValue? && entry.value == v)
  {
    var after := log + [entry];
    forall v: nat ensures HasFreed(after, v) <==> HasFreed(log, v) || (entry.FreedValue? && entry.value == v) {
      if HasFreed(log, v) {
        var k :| 0 <= k < |log| && log[k].FreedValue? && log[k].value == v;
        assert after[k] == log[k];
      }
      if entry.FreedValue? && entry.value == v {
        assert after[|log|] == entry;
      }
    }
  }

  lemma LiveSlot(slots: seq<Slot>, i: nat)
    requires i < |slots| && slots[i].used
    ensures IsLive(slots, slots[i].pointer)
  {
  }

  lemma DropResultKeepsOk(w: World, i: nat)
    requires WorldOk(w) && CanMove(w, DropResult(i))
    ensures WorldOk(After(w, DropResult(i)))
  {
    var s := w.results[i];
    var u := After(w, DropResult(i));
    LiveSlot(w.results, i);
    LiveSlot(w.contexts, s.parent);
    DroppedIsDead(w.results, i, w.nextValue);
    Logged(w.log, u.log[|w.log|]);
    forall v: nat | v < u.nextValue ensures IsLive(u.results, v) || HasFreed(u.log, v) {
      assert IsLive(w.results, v) || HasFreed(w.log, v);
    }
  }

  lemma RefuseResultKeepsOk(w: World, c: nat)
    requires WorldOk(w) && CanMove(w, RefuseResult(c))
    ensures WorldOk(After(w, RefuseResult(c)))
  {
    var u := After(w, RefuseResult(c));
    LiveSlot(w.contexts, c);
    Logged(w.log, u.log[|w.log|]);
    forall v: nat | v < u.nextValue ensures IsLive(u.results, v) || HasFreed(u.log, v) {
      assert v < w.nextValue ==> IsLive(w.results, v) || HasFreed(w.log, v);
    }
  }

  lemma DropContextKeepsOk(w: World, i: nat)
    requires WorldOk(w) && CanMove(w, DropContext(i))
    ensures WorldOk(After(w, DropContext(i)))
  {
    var s := w.contexts[i];
    var u := After(w, DropContext(i));
    LiveSlot(w.contexts, i);
    LiveSlot(w.runtimes, s.parent);
    DroppedIsDead(w.contexts, i, w.nextContext);
    Logged(w.log, u.log[|w.log|]);
    forall v: nat | v < u.nextValue ensures IsLive(u.results, v) || HasFreed(u.log, v) {
      assert IsLive(w.results, v) || HasFreed(w.log, v);
    }
  }

  lemma DropRuntimeKeepsOk(w: World, i: nat)
    requires WorldOk(w) && CanMove(w, DropRuntime(i))
    ensures WorldOk(After(w, DropRuntime(i)))
  {
    var u := After(w, DropRuntime(i));
    LiveSlot(w.runtimes, i);
    DroppedIsDead(w.runtimes, i, w.nextRuntime);
    Logged(w.log, u.log[|w.log|]);
    forall v: nat | v < u.nextValue ensures IsLive(u.results, v) || HasFreed(u.log, v) {
      assert IsLive(w.results, v) || HasFreed(w.log, v);
    }
  }

  // Every move keeps the tree, frees at most one thing, never twice and never after its owner.
  lemma MoveKeepsOk(w: World, m: Move)
    requires WorldOk(w) && CanMove(w, m)
    ensures WorldOk(After(w, m))
  {
    hide WorldOk, After;
    match m
    case RefuseResult(c) => RefuseResultKeepsOk(w, c);
    case DropResult(i) => DropResultKeepsOk(w, i);
    case DropContext(i) => DropContextKeepsOk(w, i);
    case DropRuntime(i) => DropRuntimeKeepsOk(w, i);
    case TakeRuntime(_, _) => TakeOwnerKeepsOk(w, m);
    case TakeContext(_, _) => TakeOwnerKeepsOk(w, m);
    case TakeResult(i, c) => TakeResultKeepsOk(w, i, c);
  }

  lemma NewValueIsNotFreed(w: World)
    requires WorldOk(w)
    ensures !HasFreed(w.log, w.nextValue)
  {
  }

  // ---------------------------------------------------------------- runs

  ghost function Play(w: World, moves: seq<Move>): Option<World>
    decreases |moves|
  {
    if moves == [] then Some(w)
    else
      match Play(w, moves[..|moves| - 1])
      case None => None
      case Some(u) => if CanMove(u, moves[|moves| - 1]) then Some(After(u, moves[|moves| - 1])) else None
  }

  lemma PlayOneMore(w: World, moves: seq<Move>, m: Move)
    requires Play(w, moves).Some? && CanMove(Play(w, moves).value, m)
    ensures Play(w, moves + [m]) == Some(After(Play(w, moves).value, m))
  {
    assert (moves + [m])[..|moves + [m]| - 1] == moves;
  }

  lemma {:induction false} PlayAppend(w: World, a: seq<Move>, b: seq<Move>)
    requires Play(w, a).Some? && Play(Play(w, a).value, b).Some?
    ensures Play(w, a + b) == Play(Play(w, a).value, b)
    decreases |b|
  {
    hide After, CanMove;
    if b == [] {
      assert a + b == a;
    } else {
      assert (a + b)[..|a + b| - 1] == a + b[..|b| - 1];
      PlayAppend(w, a, b[..|b| - 1]);
    }
  }

  // In every run the tree is intact and the log in order.
  lemma {:induction false} RunsKeepOk(w: World, moves: seq<Move>)
    requires WorldOk(w) && Play(w, moves).Some?
    ensures WorldOk(Play(w, moves).value)
    decreases |moves|
  {
    hide WorldOk, After, CanMove;
    if moves != [] {
      RunsKeepOk(w, moves[..|moves| - 1]);
      MoveKeepsOk(Play(w, moves[..|moves| - 1]).value, moves[|moves| - 1]);
    }
  }

  // ---------------------------------------------------------------- stale handles

  datatype Kind = RuntimeSlot | ContextSlot | ResultSlot

  function SlotsOf(w: World, k: Kind): seq<Slot> {
    match k
    case RuntimeSlot => w.runtimes
    case ContextSlot => w.contexts
    case ResultSlot => w.results
  }

  function Takes(m: Move, k: Kind, i: nat): nat {
    match m
    case TakeRuntime(j, _) => if k.RuntimeSlot? && i == j then 1 else 0
    case TakeContext(j, _) => if k.ContextSlot? && i == j then 1 else 0
    case TakeResult(j, _) => if k.ResultSlot? && i == j then 1 else 0
    case _ => 0
  }

  function Drops(m: Move, k: Kind, i: nat): nat {
    match m
    case DropRuntime(j) => if k.RuntimeSlot? && i == j then 1 else 0
    case DropContext(j) => if k.ContextSlot? && i == j then 1 else 0
    case DropResult(j) => if k.ResultSlot? && i == j then 1 else 0
    case _ => 0
  }

  // How often a run hands out a slot.
  function Uses(moves: seq<Move>, k: Kind, i: nat): nat
    decreases |moves|
  {
    if moves == [] then 0 else Uses(moves[..|moves| - 1], k, i) + Takes(moves[|moves| - 1], k, i)
  }

  lemma MoveOnSlot(w: World, m: Move, k: Kind, i: nat)
    requires CanMove(w, m) && i < |SlotsOf(w, k)|
    ensures |SlotsOf(After(w, m), k)| == |SlotsOf(w, k)|
    ensures var s, t := SlotsOf(w, k)[i], SlotsOf(After(w, m), k)[i];
            && t.generation == Steps(CYCLE, s.generation, Takes(m, k, i) + Drops(m, k, i))
            && (if t.used then 1 else 0) == (if s.used then 1 else 0) + Takes(m, k, i) - Drops(m, k, i)
  {
  }

  // A slot that is free when the run begins has stepped its generation once per use and once per release.
  lemma {:induction false} GenerationAdvances(w: World, moves: seq<Move>, k: Kind, i: nat)
    requires Play(w, moves).Some? && i < |SlotsOf(w, k)| && !SlotsOf(w, k)[i].used
    ensures var u := Play(w, moves).value;
            && |SlotsOf(u, k)| == |SlotsOf(w, k)|
            && (SlotsOf(u, k)[i].used ==> Uses(moves, k, i) > 0)
            && SlotsOf(u, k)[i].generation
               == Steps(CYCLE, SlotsOf(w, k)[i].generation,
                        2 * Uses(moves, k, i) - if SlotsOf(u, k)[i].used then 1 else 0)
    decreases |moves|
  {
    hide After, CanMove;
    if moves != [] {
      var before := moves[..|moves| - 1];
      var m := moves[|moves| - 1];
      GenerationAdvances(w, before, k, i);
      var v := Play(w, before).value;
      MoveOnSlot(v, m, k, i);
      StepsAdd(CYCLE, SlotsOf(w, k)[i].generation,
               2 * Uses(before, k, i) - if SlotsOf(v, k)[i].used then 1 else 0, Takes(m, k, i) + Drops(m, k, i));
    }
  }

  // The cycle is odd, so two steps per use come round only when the uses do.
  lemma {:induction false} DoubleWraps(n: nat)
    ensures Wrapped(CYCLE, 2 * n) == 0 <==> Wrapped(CYCLE, n) == 0
  {
    if n >= CYCLE {
      DoubleWraps(n - CYCLE);
      assert Wrapped(CYCLE, 2 * n) == Wrapped(CYCLE, 2 * n - CYCLE) == Wrapped(CYCLE, 2 * n - CYCLE - CYCLE);
    } else if 2 * n >= CYCLE {
      assert Wrapped(CYCLE, 2 * n) == Wrapped(CYCLE, 2 * n - CYCLE) == 2 * n - CYCLE;
    }
  }

  // A handle whose slot was released is rejected for the slot's next 32766 uses; it names the slot again
  // exactly when the slot is in use after a multiple of 32767 uses.
  lemma StaleHandleIsRejected(w: World, moves: seq<Move>, k: Kind, i: nat, generation: nat)
    requires Play(w, moves).Some? && i < |SlotsOf(w, k)| <= MAX_RESULTS && 1 <= generation <= CYCLE
    requires !SlotsOf(w, k)[i].used && SlotsOf(w, k)[i].generation == NextOf(CYCLE, generation)
    ensures var u := Play(w, moves).value;
            var n := Uses(moves, k, i);
            var h := MakeHandle(generation, i);
            && (n < CYCLE ==> Lookup(SlotsOf(u, k), h).None?)
            && |SlotsOf(u, k)| == |SlotsOf(w, k)|
            && Lookup(SlotsOf(u, k), h) == if Wrapped(CYCLE, n) == 0 && SlotsOf(u, k)[i].used then Some(i) else None
  {
    hide Play, Uses, Steps;
    var u := Play(w, moves).value;
    var n := Uses(moves, k, i);
    GenerationAdvances(w, moves, k, i);
    HandleRoundTrip(generation, i);
    if SlotsOf(u, k)[i].used {
      OneStep(CYCLE, generation);
      StepsAdd(CYCLE, generation, 1, 2 * n - 1);
      SameGenerationIff(CYCLE, generation, 2 * n);
      DoubleWraps(n);
    }
  }

  // ---------------------------------------------------------------- result handles after their context

  // A slot that is in use when the run begins and is not handed out again is as it was, or free.
  lemma {:induction false} UnusedStays(w: World, moves: seq<Move>, i: nat)
    requires Play(w, moves).Some? && i < |w.results| && Uses(moves, ResultSlot, i) == 0
    ensures var u := Play(w, moves).value;
            |u.results| == |w.results| && (u.results[i] == w.results[i] || !u.results[i].used)
    decreases |moves|
  {
    if moves != [] {
      UnusedStays(w, moves[..|moves| - 1], i);
    }
  }

  // The drop of a context finds none of its results in use, so the slot of such a result has been released.
  lemma {:induction false} ReleasedBeforeContext(w: World, moves: seq<Move>, c: nat, i: nat, j: nat)
    requires Play(w, moves).Some? && i < |w.results| && Uses(moves, ResultSlot, i) == 0
    requires w.results[i].parent == c && j < |moves| && moves[j] == DropContext(c)
    ensures i < |Play(w, moves).value.results| && !Play(w, moves).value.results[i].used
    decreases |moves|
  {
    var n := |moves| - 1;
    UnusedStays(w, moves[..n], i);
    if j < n {
      assert moves[..n][j] == moves[j];
      ReleasedBeforeContext(w, moves[..n], c, i, j);
    }
  }

  // The generation of a slot that is in use when the run begins.
  lemma {:induction false} GenerationFromUse(w: World, moves: seq<Move>, k: Kind, i: nat)
    requires Play(w, moves).Some? && i < |SlotsOf(w, k)| && SlotsOf(w, k)[i].used
    ensures var u := Play(w, moves).value;
            && |SlotsOf(u, k)| == |SlotsOf(w, k)|
            && SlotsOf(u, k)[i].generation
               == Steps(CYCLE, SlotsOf(w, k)[i].generation, 2 * Uses(moves, k, i) + if SlotsOf(u, k)[i].used then 0 else 1)
    decreases |moves|
  {
    hide After, CanMove;
    if moves != [] {
      var before := moves[..|moves| - 1];
      var m := moves[|moves| - 1];
      GenerationFromUse(w, before, k, i);
      var v := Play(w, before).value;
      MoveOnSlot(v, m, k, i);
      StepsAdd(CYCLE, SlotsOf(w, k)[i].generation,
               2 * Uses(before, k, i) + if SlotsOf(v, k)[i].used then 0 else 1, Takes(m, k, i) + Drops(m, k, i));
    }
  }

  // A result handle outlives its context: after a run that gives the context back, whatever contexts have
  // taken its slot since, the handle is rejected while the result's slot has been handed out fewer than
  // 32767 times. It names a result of a context d again exactly when that slot belongs to d after a multiple
  // of 32767 uses.
  lemma FreedContextHasNoResults(w: World, moves: seq<Move>, c: nat, i: nat, j: nat, handle: int, d: nat)
    requires WorldOk(w) && Lookup(w.results, handle) == Some(i) && w.results[i].parent == c
    requires Play(w, moves).Some? && j < |moves| && moves[j] == DropContext(c)
    ensures var u := Play(w, moves).value;
            var n := Uses(moves, ResultSlot, i);
            && |u.results| == MAX_RESULTS
            && (n < CYCLE ==> GetResult(u, handle, d).None?)
            && (GetResult(u, handle, d).Some?
                <==> u.results[i].used && u.results[i].parent == d && Wrapped(CYCLE, n) == 0)
  {
    hide Play, Uses, Steps;
    var u := Play(w, moves).value;
    var n := Uses(moves, ResultSlot, i);
    GenerationFromUse(w, moves, ResultSlot, i);
    if n == 0 {
      ReleasedBeforeContext(w, moves, c, i, j);
    }
    if u.results[i].used {
      SameGenerationIff(CYCLE, w.results[i].generation, 2 * n);
      DoubleWraps(n);
    }
  }
}
