/**
 The three slot arrays of runtime_ext/uxjsruntime/uxjsrt.c and the functions that work on them in place.
 Every function is a sequence of the single moves of module JsTree, returned as `moves`. QuickJS itself is
 only present in `log` (what it was given back) and in the `next` fields (the pointers it hands out).
 */
module JsHost {
  import opened Basics
  import opened Generations
  import opened JsTree

  class Host {
    const runtimes: array<Slot>
    const contexts: array<Slot>
    const results: array<Slot>
    ghost var log: seq<Freed>
    var nextRuntime: nat
    var nextContext: nat
    var nextValue: nat

    ghost predicate Shape() {
      && runtimes.Length == MAX_RUNTIMES && contexts.Length == MAX_CONTEXTS && results.Length == MAX_RESULTS
      && runtimes != contexts && runtimes != results && contexts != results
    }

    ghost function Value(): World
      reads this, runtimes, contexts, results
    {
      World(runtimes[..], contexts[..], results[..], log, nextRuntime, nextContext, nextValue)
    }

    ghost predicate Valid()
      reads this, runtimes, contexts, results
    {
      Shape() && WorldOk(Value())
    }

    constructor ()
      ensures Valid() && fresh(runtimes) && fresh(contexts) && fresh(results) && log == []
    {
      runtimes := new Slot[MAX_RUNTIMES](_ => NEVER_USED);
      contexts := new Slot[MAX_CONTEXTS](_ => NEVER_USED);
      results := new Slot[MAX_RESULTS](_ => NEVER_USED);
      log, nextRuntime, nextContext, nextValue := [], 0, 0, 0;
    }

    // ------------------------------------------------------------ single moves

    // Fills a free slot; the new handle names it.
    method Fill(slots: array<Slot>, i: nat, pointer: nat, parent: int) returns (handle: nat)
      requires i < slots.Length
      modifies slots
      ensures slots[..] == old(slots[..])[i := Taken(old(slots[i]), pointer, parent)]
      ensures handle == MakeHandle(slots[i].generation, i)
    {
      var generation := NextOf(CYCLE, slots[i].generation);
      slots[i] := Slot(true, generation, pointer, parent);
      handle := MakeHandle(generation, i);
    }

    method Empty(slots: array<Slot>, i: nat)
      requires i < slots.Length
      modifies slots
      ensures slots[..] == old(slots[..])[i := Dropped(old(slots[i]))]
    {
      slots[i] := slots[i].(used := false, parent := -1);
      slots[i] := slots[i].(generation := NextOf(CYCLE, slots[i].generation));
      assert slots[..] == old(slots[..])[i := Dropped(old(slots[i]))];
    }

    method GiveBackResult(i: nat)
      requires Valid() && CanMove(Value(), DropResult(i))
      modifies results, `log
      ensures Valid() && Value() == After(old(Value()), DropResult(i))
      ensures results[..] == old(results[..])[i := Dropped(old(results[i]))]
    {
      hide WorldOk;
      MoveKeepsOk(Value(), DropResult(i));
      log := log + [FreedValue(results[i].pointer, contexts[results[i].parent].pointer)];
      Empty(results, i);
    }

    method GiveBackContext(i: nat)
      requires Valid() && CanMove(Value(), DropContext(i))
      modifies contexts, `log
      ensures Valid() && Value() == After(old(Value()), DropContext(i))
      ensures contexts[..] == old(contexts[..])[i := Dropped(old(contexts[i]))]
    {
      hide WorldOk;
      MoveKeepsOk(Value(), DropContext(i));
      log := log + [FreedContext(contexts[i].pointer, runtimes[contexts[i].parent].pointer)];
      Empty(contexts, i);
    }

    // ------------------------------------------------------------ creating

    // uxjs_runtime_create; `ok` says that JS_NewRuntime succeeds. It fails exactly when it does not, or
    // when all slots are taken.
    method RuntimeCreate(thread: int, ok: bool) returns (handle: nat, ghost moves: seq<Move>)
      requires Valid()
      modifies runtimes, `nextRuntime
      ensures Valid() && Play(old(Value()), moves) == Some(Value())
      ensures handle == 0 <==> !ok || forall k :: 0 <= k < MAX_RUNTIMES ==> old(runtimes[k].used)
      ensures handle == 0 ==> moves == []
      ensures handle != 0 ==> Lookup(old(runtimes[..]), handle).None? && GetRuntime(Value(), handle, thread).Some?
      ensures handle != 0 ==> var i := GetRuntime(Value(), handle, thread).value;
                moves == [TakeRuntime(i, thread)] && forall k :: 0 <= k < i ==> old(runtimes[k].used)
    {
      hide WorldOk;
      moves := [];
      var i := 0;
      while i < MAX_RUNTIMES
        invariant i <= MAX_RUNTIMES && forall k :: 0 <= k < i ==> runtimes[k].used
      {
        if !runtimes[i].used {
          if !ok {
            return 0, [];
          }
          GenerationBound(i);
          TakenIsNamed(runtimes[..], i, nextRuntime, thread);
          MoveKeepsOk(Value(), TakeRuntime(i, thread));
          PlayOneMore(Value(), [], TakeRuntime(i, thread));
          moves := [] + [TakeRuntime(i, thread)];
          handle := Fill(runtimes, i, nextRuntime, thread);
          nextRuntime := nextRuntime + 1;
          return;
        }
        i := i + 1;
      }
      return 0, [];
    }

    lemma GenerationBound(i: nat)
      requires Valid()
      ensures i < MAX_RUNTIMES ==> runtimes[i].generation <= CYCLE
      ensures i < MAX_CONTEXTS ==> contexts[i].generation <= CYCLE
      ensures i < MAX_RESULTS ==> results[i].generation <= CYCLE
    {
    }

    // uxjs_context_create.
    method ContextCreate(runtime: int, thread: int, ok: bool) returns (handle: nat, ghost moves: seq<Move>)
      requires Valid()
      modifies contexts, `nextContext
      ensures Valid() && Play(old(Value()), moves) == Some(Value())
      ensures handle == 0 <==> GetRuntime(old(Value()), runtime, thread).None? || !ok
                               || forall k :: 0 <= k < MAX_CONTEXTS ==> old(contexts[k].used)
      ensures handle == 0 ==> moves == []
      ensures handle != 0 ==> Lookup(old(contexts[..]), handle).None? && GetContext(Value(), handle, thread).Some?
      ensures handle != 0 ==> var i := GetContext(Value(), handle, thread).value;
                && moves == [TakeContext(i, GetRuntime(old(Value()), runtime, thread).value)]
                && forall k :: 0 <= k < i ==> old(contexts[k].used)
    {
      hide WorldOk;
      moves := [];
      var r := FindRuntime(runtime, thread);
      if r.None? {
        return 0, [];
      }
      var i := 0;
      while i < MAX_CONTEXTS
        invariant i <= MAX_CONTEXTS && forall k :: 0 <= k < i ==> contexts[k].used
      {
        if !contexts[i].used {
          if !ok {
            return 0, [];
          }
          GenerationBound(i);
          TakenIsNamed(contexts[..], i, nextContext, r.value);
          MoveKeepsOk(Value(), TakeContext(i, r.value));
          PlayOneMore(Value(), [], TakeContext(i, r.value));
          moves := [] + [TakeContext(i, r.value)];
          handle := Fill(contexts, i, nextContext, r.value);
          nextContext := nextContext + 1;
          return;
        }
        i := i + 1;
      }
      return 0, [];
    }

    // get_runtime and get_context on the arrays.
    method FindRuntime(handle: int, thread: int) returns (r: Option<nat>)
      requires Shape()
      ensures r == GetRuntime(Value(), handle, thread)
      ensures r.Some? ==> r.value < MAX_RUNTIMES && runtimes[r.value].used
    {
      if handle <= 0 || handle % 0x1_0000 == 0 {
        return None;
      }
      var i := handle % 0x1_0000 - 1;
      if i >= MAX_RUNTIMES || !runtimes[i].used || runtimes[i].generation != (handle / 0x1_0000) % 0x8000 {
        return None;
      }
      r := if runtimes[i].parent == thread then Some(i) else None;
    }

    method FindContext(handle: int, thread: int) returns (c: Option<nat>)
      requires Shape()
      ensures c == GetContext(Value(), handle, thread)
      ensures c.Some? ==> c.value < MAX_CONTEXTS && contexts[c.value].used
    {
      if handle <= 0 || handle % 0x1_0000 == 0 {
        return None;
      }
      var i := handle % 0x1_0000 - 1;
      if i >= MAX_CONTEXTS || !contexts[i].used || contexts[i].generation != (handle / 0x1_0000) % 0x8000 {
        return None;
      }
      var r := contexts[i].parent;
      if r < 0 || r >= MAX_RUNTIMES || !runtimes[r].used {
        return None;
      }
      c := if runtimes[r].parent == thread then Some(i) else None;
    }

    // alloc_result for a context that is in use; the value becomes the library's.
    method AllocResult(context: nat) returns (handle: nat, ghost moves: seq<Move>)
      requires Valid() && context < MAX_CONTEXTS && contexts[context].used
      modifies results, `nextValue
      ensures Valid() && Play(old(Value()), moves) == Some(Value())
      ensures handle == 0 <==> forall k :: 0 <= k < MAX_RESULTS ==> old(results[k].used)
      ensures handle == 0 ==> moves == []
      ensures handle != 0 ==> Lookup(old(results[..]), handle).None? && GetResult(Value(), handle, context).Some?
      ensures handle != 0 ==> var i := GetResult(Value(), handle, context).value;
                moves == [TakeResult(i, context)] && forall k :: 0 <= k < i ==> old(results[k].used)
    {
      hide WorldOk;
      moves := [];
      var i := 0;
      while i < MAX_RESULTS
        invariant i <= MAX_RESULTS && forall k :: 0 <= k < i ==> results[k].used
      {
        if !results[i].used {
          GenerationBound(i);
          TakenIsNamed(results[..], i, nextValue, context);
          MoveKeepsOk(Value(), TakeResult(i, context));
          PlayOneMore(Value(), [], TakeResult(i, context));
          moves := [] + [TakeResult(i, context)];
          handle := Fill(results, i, nextValue, context);
          nextValue := nextValue + 1;
          return;
        }
        i := i + 1;
      }
      return 0, [];
    }

    // The end of a call and of an awaited evaluation: the value gets a result slot, or is freed at once when
    // all of them are taken.
    method KeepResult(context: nat) returns (handle: nat, ghost moves: seq<Move>)
      requires Valid() && context < MAX_CONTEXTS && contexts[context].used
      modifies results, `nextValue, `log
      ensures Valid() && Play(old(Value()), moves) == Some(Value())
      ensures handle == 0 <==> forall k :: 0 <= k < MAX_RESULTS ==> old(results[k].used)
      ensures if handle == 0 then moves == [RefuseResult(context)]
              else Lookup(old(results[..]), handle).None? && GetResult(Value(), handle, context).Some?
                   && moves == [TakeResult(GetResult(Value(), handle, context).value, context)]
      ensures HasFreed(Value().log, old(nextValue)) <==> handle == 0
    {
      hide WorldOk;
      NewValueIsNotFreed(Value());
      handle, moves := AllocResult(context);
      if handle == 0 {
        MoveKeepsOk(Value(), RefuseResult(context));
        PlayOneMore(Value(), [], RefuseResult(context));
        moves := [] + [RefuseResult(context)];
        log := log + [FreedValue(nextValue, contexts[context].pointer)];
        nextValue := nextValue + 1;
        assert log[|log| - 1] == FreedValue(old(nextValue), contexts[context].pointer);
      }
    }

    // ------------------------------------------------------------ giving back

    // uxjs_result_free.
    method ResultFree(context: int, result: int, thread: int) returns (ok: bool, ghost moves: seq<Move>)
      requires Valid()
      modifies results, `log
      ensures Valid() && Play(old(Value()), moves) == Some(Value())
      ensures var c := GetContext(old(Value()), context, thread);
              && (ok <==> c.Some? && GetResult(old(Value()), result, c.value).Some?)
              && moves == if ok then [DropResult(GetResult(old(Value()), result, c.value).value)] else []
    {
      hide WorldOk;
      var c := FindContext(context, thread);
      if c.None? || result <= 0 || result % 0x1_0000 == 0 {
        return false, [];
      }
      var i := result % 0x1_0000 - 1;
      if i >= MAX_RESULTS || !results[i].used || results[i].generation != (result / 0x1_0000) % 0x8000
         || results[i].parent != c.value {
        return false, [];
      }
      PlayOneMore(Value(), [], DropResult(i));
      GiveBackResult(i);
      assert [] + [DropResult(i)] == [DropResult(i)];
      return true, [DropResult(i)];
    }

    // free_results_for_context.
    method FreeResultsForContext(c: nat) returns (ghost moves: seq<Move>)
      requires Valid() && c < MAX_CONTEXTS && contexts[c].used
      modifies results, `log
      ensures Valid() && Play(old(Value()), moves) == Some(Value())
      ensures forall k :: 0 <= k < MAX_RESULTS && results[k].used ==> results[k].parent != c
      ensures DroppedOf(old(results[..]), results[..], c, MAX_RESULTS)
    {
      hide WorldOk;
      moves := [];
      var i := 0;
      ghost var was := results[..];
      while i < MAX_RESULTS
        invariant i <= MAX_RESULTS && Valid() && Play(old(Value()), moves) == Some(Value())
        invariant forall k :: 0 <= k < i && results[k].used ==> results[k].parent != c
        invariant DroppedOf(was, results[..], c, i)
      {
        if results[i].used && results[i].parent == c {
          PlayOneMore(old(Value()), moves, DropResult(i));
          moves := moves + [DropResult(i)];
          GiveBackResult(i);
        }
        i := i + 1;
      }
    }

    // free_context_index: the results first, then the context itself.
    method FreeContextIndex(c: nat) returns (ghost moves: seq<Move>)
      requires Valid() && c < MAX_CONTEXTS
      modifies contexts, results, `log
      ensures Valid() && Play(old(Value()), moves) == Some(Value())
      ensures !contexts[c].used
      ensures if old(contexts[c].used) then
                && contexts[..] == old(contexts[..])[c := Dropped(old(contexts[c]))]
                && DroppedOf(old(results[..]), results[..], c, MAX_RESULTS)
              else moves == [] && Value() == old(Value())
    {
      hide WorldOk;
      moves := [];
      if !contexts[c].used {
        return;
      }
      moves := FreeResultsForContext(c);
      OwnerIsUsed(c);
      assert CanMove(Value(), DropContext(c));
      hide After, Play, CanMove, TreeOk;
      PlayOneMore(old(Value()), moves, DropContext(c));
      moves := moves + [DropContext(c)];
      GiveBackContext(c);
      assert forall k :: 0 <= k < MAX_CONTEXTS ==> contexts[k] == contexts[..][k];
    }

    lemma OwnerIsUsed(c: nat)
      requires Valid() && c < MAX_CONTEXTS && contexts[c].used
      ensures 0 <= contexts[c].parent < MAX_RUNTIMES && runtimes[contexts[c].parent].used
    {
    }

    // uxjs_context_free.
    method ContextFree(handle: int, thread: int) returns (ok: bool, ghost moves: seq<Move>)
      requires Valid()
      modifies contexts, results, `log
      ensures Valid() && Play(old(Value()), moves) == Some(Value())
      ensures ok <==> GetContext(old(Value()), handle, thread).Some?
      ensures !ok ==> moves == [] && Value() == old(Value())
      ensures ok ==> var c := GetContext(old(Value()), handle, thread).value;
                     && contexts[..] == old(contexts[..])[c := Dropped(old(contexts[..])[c])]
                     && DroppedOf(old(results[..]), results[..], c, MAX_RESULTS)
    {
      hide WorldOk;
      var c := FindContext(handle, thread);
      if c.None? {
        return false, [];
      }
      moves := FreeContextIndex(c.value);
      ok := true;
    }

    // uxjs_runtime_free: every context of the runtime with its results, then the runtime itself.
    method RuntimeFree(handle: int, thread: int) returns (ok: bool, ghost moves: seq<Move>)
      requires Valid()
      modifies runtimes, contexts, results, `log
      ensures Valid() && Play(old(Value()), moves) == Some(Value())
      ensures ok <==> GetRuntime(old(Value()), handle, thread).Some?
      ensures !ok ==> moves == [] && Value() == old(Value())
      ensures ok ==> var r := GetRuntime(old(Value()), handle, thread).value;
                     && runtimes[..] == old(runtimes[..])[r := Dropped(old(runtimes[..])[r])]
                     && DroppedOf(old(contexts[..]), contexts[..], r, MAX_CONTEXTS)
                     && DroppedUnder(old(Value()), results[..], r, MAX_CONTEXTS)
    {
      hide WorldOk;
      var found := FindRuntime(handle, thread);
      if found.None? {
        return false, [];
      }
      var r := found.value;
      moves := [];
      var i := 0;
      while i < MAX_CONTEXTS
        invariant i <= MAX_CONTEXTS && Valid() && Play(old(Value()), moves) == Some(Value())
        invariant runtimes[..] == old(runtimes[..])
        invariant forall k :: 0 <= k < i && contexts[k].used ==> contexts[k].parent != r
        invariant DroppedOf(old(contexts[..]), contexts[..], r, i)
        invariant DroppedUnder(old(Value()), results[..], r, i)
      {
        if contexts[i].used && contexts[i].parent == r {
          var more := FreeContextIndex(i);
          PlayAppend(old(Value()), moves, more);
          moves := moves + more;
        }
        i := i + 1;
      }
      PlayOneMore(old(Value()), moves, DropRuntime(r));
      MoveKeepsOk(Value(), DropRuntime(r));
      moves := moves + [DropRuntime(r)];
      log := log + [FreedRuntime(runtimes[r].pointer)];
      Empty(runtimes, r);
      ok := true;
    }
  }
}
