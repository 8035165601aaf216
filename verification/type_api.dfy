/**
 The descriptor and call objects of runtime_ext/uxcapi/uxcapi.c. `store` is the memory that holds the
 descriptors, `calls` the call objects; the ghost set `open` holds the descriptors whose creator has not
 freed its handle yet, and `rank` the time at which each descriptor was finalized.
 */
module TypeApi {
  import opened Basics
  import opened Descriptors

  // The descriptors that a call object holds: its return type and its STRUCT arguments.
  datatype Call = Call(result: Option<nat>, arguments: seq<Option<nat>>)

  ghost function HeldBy(calls: map<nat, Call>): map<nat, multiset<nat>> {
    map c | c in calls :: One(calls[c].result) + Named(calls[c].arguments)
  }

  // Everything that is held from outside: by creators and by call objects.
  ghost function HeldOutside(open: set<nat>, calls: map<nat, Call>): multiset<nat> {
    multiset(open) + Sum(HeldBy(calls))
  }

  // ... without what one call object holds.
  ghost function HeldBesides(open: set<nat>, calls: map<nat, Call>, c: nat): multiset<nat> {
    multiset(open) + Sum(HeldBy(calls) - {c})
  }

  // ... and without its return type only.
  ghost function HeldByOthers(open: set<nat>, calls: map<nat, Call>, c: nat): multiset<nat>
    requires c in calls
  {
    HeldBesides(open, calls, c) + Named(calls[c].arguments)
  }

  datatype SetReturn = Refused | Retained | FreedFirst

  lemma HandleAdded(open: set<nat>, calls: map<nat, Call>, d: nat)
    requires d !in open
    ensures HeldOutside(open + {d}, calls) == HeldOutside(open, calls) + multiset{d}
  {
    assert multiset(open + {d}) == multiset(open) + multiset{d};
  }

  lemma HandleTaken(open: set<nat>, calls: map<nat, Call>, x: Option<nat>)
    requires x.Some? ==> x.value in open
    ensures HeldOutside(open, calls) == HeldOutside(open - (if x.Some? then {x.value} else {}), calls) + One(x)
  {
    if x.Some? {
      assert open == open - {x.value} + {x.value};
      HandleAdded(open - {x.value}, calls, x.value);
    } else {
      assert open - {} == open;
    }
  }

  lemma CallSplit(open: set<nat>, calls: map<nat, Call>, c: nat)
    requires c in calls
    ensures HeldOutside(open, calls)
            == HeldBesides(open, calls, c) + One(calls[c].result) + Named(calls[c].arguments)
  {
    SumPick(HeldBy(calls), c);
  }

  lemma CallReplaced(open: set<nat>, calls: map<nat, Call>, c: nat, call: Call)
    ensures HeldOutside(open, calls[c := call]) == HeldBesides(open, calls, c) + One(call.result) + Named(call.arguments)
  {
    hide Sum, Named;
    CallSplit(open, calls[c := call], c);
    OthersUnchanged(calls, c, call);
  }

  lemma ResultReplaced(open: set<nat>, calls: map<nat, Call>, c: nat, x: Option<nat>)
    requires c in calls
    ensures HeldOutside(open, calls[c := calls[c].(result := x)]) == HeldByOthers(open, calls, c) + One(x)
  {
    hide Sum, Named;
    CallReplaced(open, calls, c, calls[c].(result := x));
  }

  lemma OthersUnchanged(calls: map<nat, Call>, c: nat, call: Call)
    ensures HeldBy(calls[c := call]) - {c} == HeldBy(calls) - {c}
  {
  }

  lemma CallRemoved(open: set<nat>, calls: map<nat, Call>, c: nat)
    ensures HeldOutside(open, calls - {c}) == HeldBesides(open, calls, c)
  {
    assert HeldBy(calls - {c}) == HeldBy(calls) - {c};
  }

  lemma CallAdded(open: set<nat>, calls: map<nat, Call>, c: nat)
    requires c !in calls
    ensures HeldOutside(open, calls[c := Call(None, [])]) == HeldOutside(open, calls)
  {
    hide Sum;
    CallReplaced(open, calls, c, Call(None, []));
    assert HeldBy(calls) - {c} == HeldBy(calls);
  }

  class TypeSystem {
    var store: Store
    var calls: map<nat, Call>
    var next: nat
    ghost var open: set<nat>
    ghost var rank: map<nat, nat>
    ghost var now: nat

    ghost function Roots(): multiset<nat>
      reads this
    {
      HeldOutside(open, calls)
    }

    ghost predicate Valid()
      reads this
    {
      && Settled(store, Roots(), rank, now)
      && (forall d :: d in store || d in calls || d in rank ==> d < next)
    }

    // What is allocated is what somebody can still reach.
    ghost predicate NoLeak()
      reads this
    {
      forall d: nat :: d in store <==> Reachable(store, Roots(), d)
    }

    lemma ValidMeansNoLeak()
      requires Valid()
      ensures NoLeak()
    {
      forall d: nat ensures d in store <==> Reachable(store, Roots(), d) {
        LiveIffReachable(store, Roots(), rank, now, d);
      }
    }

    lemma NestedStays(p: nat, d: nat)
      requires Valid() && p in store && Some(d) in store[p].fields
      ensures d in store
    {
      NestedIsAlive(store, Roots(), NOTHING, {}, p, d);
    }

    constructor ()
      ensures Valid() && store == map[] && calls == map[] && open == {}
    {
      store, calls, next, open, rank, now := map[], map[], 0, {}, map[], 0;
    }

    // ------------------------------------------------------------ retain and release

    // type_descriptor_release. `debt` are the references that the caller gives back, this one among them.
    method Release(d: nat, ghost roots: multiset<nat>, ghost debt: multiset<nat>, ghost dying: set<nat>)
      requires Releasing(store, roots, debt, dying) && d in debt
      modifies `store
      ensures Releasing(store, roots, debt - multiset{d}, dying)
      ensures Kept(old(store), store) && Total(store, debt - multiset{d}, dying) < Total(old(store), debt, dying)
      ensures d in old(store) && (d in store <==> old(store)[d].refs > 1)
      decreases Total(store, debt, dying), 0
    {
      DropOne(store, roots, debt, dying, d);
      if store[d].refs - 1 != 0 {
        store := store[d := store[d].(refs := store[d].refs - 1)];
        return;
      }
      DropLast(store, roots, debt, dying, d);
      DropLastShrinks(store, debt, dying, d);
      ghost var before := store;
      store := LastDropped(store, d);
      ReleaseFields(d, roots, debt - multiset{d}, dying);
      Freed(store, roots, debt - multiset{d}, dying, d);
      store := store - {d};
    }

    // The null check at its beginning.
    method ReleaseNullable(x: Option<nat>, ghost roots: multiset<nat>, ghost debt: multiset<nat>, ghost dying: set<nat>)
      requires Releasing(store, roots, debt + One(x), dying)
      modifies `store
      ensures Releasing(store, roots, debt, dying)
      ensures Kept(old(store), store) && Total(store, debt, dying) <= Total(old(store), debt + One(x), dying)
      decreases Total(store, debt + One(x), dying), 1
    {
      if x.Some? {
        Release(x.value, roots, debt + One(x), dying);
        assert debt + One(x) - multiset{x.value} == debt;
      } else {
        assert debt + One(x) == debt;
      }
    }

    // Its loop over the nested types of a descriptor that nobody refers to any more.
    method ReleaseFields(d: nat, ghost roots: multiset<nat>, ghost debt: multiset<nat>, ghost dying: set<nat>)
      requires d in store && d !in dying
      requires Releasing(store, roots, debt + Named(store[d].fields), dying + {d})
      modifies `store
      ensures Releasing(store, roots, debt, dying + {d}) && d in store && Kept(old(store), store)
      ensures Total(store, debt, dying + {d}) <= Total(old(store), debt + Named(old(store)[d].fields), dying + {d})
      decreases Total(store, debt + Named(store[d].fields), dying + {d}), 2
    {
      var fields := store[d].fields;
      ghost var start := Total(store, debt + Named(fields), dying + {d});
      var i := 0;
      assert fields[0..] == fields;
      while i < |fields|
        invariant i <= |fields| && Kept(old(store), store)
        invariant Releasing(store, roots, debt + Named(fields[i..]), dying + {d})
        invariant Total(store, debt + Named(fields[i..]), dying + {d}) <= start
      {
        NamedFirst(fields, i);
        ghost var rest := debt + Named(fields[i + 1..]);
        assert rest + One(fields[i]) == debt + Named(fields[i..]);
        ReleaseNullable(fields[i], roots, rest, dying + {d});
        i := i + 1;
      }
      assert debt + Named(fields[i..]) == debt;
    }

    // A holder outside gives up its reference.
    method GiveBack(x: Option<nat>, ghost before: multiset<nat>, ghost after: multiset<nat>)
      requires Settled(store, before, rank, now) && before == after + One(x)
      modifies `store
      ensures Settled(store, after, rank, now) && Kept(old(store), store)
      ensures forall d: nat :: d in store <==> Reachable(old(store), after, d)
    {
      hide Settled, Releasing, Ranked, Sum, Named, Kept, Reachable;
      ghost var start := store;
      OwedInstead(store, before, after, One(x), rank, now);
      ReleaseNullable(x, after, NOTHING, {});
      SettledAgain(start, store, after, rank, now);
      Survivors(start, store, after, rank, now);
    }

    // The loop of clear_argument_list.
    method GiveBackAll(items: seq<Option<nat>>, ghost before: multiset<nat>, ghost after: multiset<nat>)
      requires Settled(store, before, rank, now) && before == after + Named(items)
      modifies `store
      ensures Settled(store, after, rank, now) && Kept(old(store), store)
      ensures forall d: nat :: d in store <==> Reachable(old(store), after, d)
    {
      hide Settled, Reachable;
      var i := 0;
      assert items[0..] == items;
      while i < |items|
        invariant i <= |items| && Kept(old(store), store)
        invariant Settled(store, after + Named(items[i..]), rank, now)
      {
        NamedFirst(items, i);
        assert after + Named(items[i + 1..]) + One(items[i]) == after + Named(items[i..]);
        GiveBack(items[i], after + Named(items[i..]), after + Named(items[i + 1..]));
        i := i + 1;
      }
      assert after + Named(items[i..]) == after;
      Survivors(old(store), store, after, rank, now);
    }

    // type_descriptor_retain for a new holder outside.
    method Retain(d: nat, ghost roots: multiset<nat>)
      requires Settled(store, roots, rank, now) && d in store
      modifies `store
      ensures Settled(store, roots + multiset{d}, rank, now) && store.Keys == old(store).Keys && Kept(old(store), store)
    {
      hide Settled;
      SettledWithOneMore(store, roots, d, rank, now);
      store := store[d := store[d].(refs := store[d].refs + 1)];
    }

    // ------------------------------------------------------------ descriptors

    // uxcapi_type_struct_new and, with `isStruct` false, the end of uxcapi_type_union_new.
    method NewDescriptor(isStruct: bool) returns (d: nat)
      requires Valid()
      modifies this
      ensures Valid() && calls == old(calls) && d == old(next) && open == old(open) + {d}
      ensures store == old(store)[d := Desc(isStruct, !isStruct, [], 1)]
    {
      hide Settled, HeldOutside, HeldBesides, Named;
      d := next;
      var desc := Desc(isStruct, !isStruct, [], 1);
      HandlesAreOld(d);
      HandleAdded(open, calls, d);
      CreatedSettled(store, Roots(), d, desc, rank, now);
      store := store[d := desc];
      open := open + {d};
      if !isStruct {
        rank, now := rank[d := now], now + 1;
      }
      next := next + 1;
    }

    lemma HandlesAreOld(d: nat)
      requires Valid()
      ensures d in open ==> d in store && d < next
    {
      hide Settled;
      if d in open {
        assert Roots()[d] > 0;
        HolderIsAlive(store, Roots(), rank, now, d);
      }
    }

    // uxcapi_type_union_new.
    method UnionNew(size: nat, alignment: nat) returns (d: Option<nat>)
      requires Valid()
      modifies this
      ensures Valid() && calls == old(calls)
      ensures d.None? <==> size == 0 || alignment == 0
      ensures d.None? ==> store == old(store) && open == old(open)
      ensures d.Some? ==> d.value == old(next) && open == old(open) + {d.value}
                          && store == old(store)[d.value := Desc(false, true, [], 1)]
    {
      if size == 0 || alignment == 0 {
        return None;
      }
      var n := NewDescriptor(false);
      return Some(n);
    }

    // add_type_element: only a STRUCT that is not finalized takes fields.
    method AddElement(p: Option<nat>, field: Option<nat>) returns (ok: bool)
      requires Valid() && (p.Some? ==> p.value in store)
      requires field.Some? ==> field.value in store && store[field.value].finalized
      modifies `store
      ensures Valid()
      ensures ok <==> p.Some? && old(store)[p.value].isStruct && !old(store)[p.value].finalized
      ensures if ok then FieldStep(old(store), store, p.value, field) else store == old(store)
    {
      hide Settled;
      if p.None? || !store[p.value].isStruct {
        return false;
      }
      if store[p.value].finalized {
        return false;
      }
      ghost var before := store;
      store := store[p.value := store[p.value].(fields := store[p.value].fields + [field])];
      if field.Some? {
        store := store[field.value := store[field.value].(refs := store[field.value].refs + 1)];
      }
      FieldSettled(before, store, Roots(), p.value, field, rank, now);
      return true;
    }

    // uxcapi_type_add_field; `scalar` says that the kind is one of the scalar kinds.
    method AddField(p: Option<nat>, scalar: bool) returns (ok: bool)
      requires Valid() && (p.Some? ==> p.value in store)
      modifies `store
      ensures Valid()
      ensures ok <==> scalar && p.Some? && old(store)[p.value].isStruct && !old(store)[p.value].finalized
      ensures if ok then FieldStep(old(store), store, p.value, None) else store == old(store)
    {
      if !scalar {
        return false;
      }
      ok := AddElement(p, None);
    }

    // uxcapi_type_add_struct_field: only a finalized STRUCT can be nested.
    method AddStructField(p: Option<nat>, field: Option<nat>) returns (ok: bool)
      requires Valid() && (p.Some? ==> p.value in store) && (field.Some? ==> field.value in store)
      modifies `store
      ensures Valid() && store.Keys == old(store).Keys
      ensures ok <==> field.Some? && old(store)[field.value].isStruct && old(store)[field.value].finalized
                      && p.Some? && old(store)[p.value].isStruct && !old(store)[p.value].finalized
      ensures if ok then FieldStep(old(store), store, p.value, field) else store == old(store)
    {
      if field.None? || !store[field.value].isStruct || !store[field.value].finalized {
        return false;
      }
      ok := AddElement(p, field);
    }

    // uxcapi_type_finalize; `layoutOk` is the verdict of libffi and of the expected layout.
    method Finalize(x: Option<nat>, layoutOk: bool) returns (ok: bool)
      requires Valid() && (x.Some? ==> x.value in store)
      modifies `store, `rank, `now
      ensures Valid()
      ensures x.None? ==> !ok && store == old(store)
      ensures x.Some? ==>
                var before := old(store)[x.value];
                && (ok <==> if before.isStruct then before.fields != [] && (before.finalized || layoutOk) else before.finalized)
                && store == old(store)[x.value := before.(finalized := before.finalized || (ok && before.isStruct))]
    {
      hide Settled;
      if x.None? {
        return false;
      }
      var d := x.value;
      if !store[d].isStruct {
        return store[d].finalized;
      }
      if store[d].fields == [] {
        return false;
      }
      if store[d].finalized {
        return true;
      }
      if !layoutOk {
        return false;
      }
      FinalizedSettled(store, Roots(), d, rank, now);
      store := store[d := store[d].(finalized := true)];
      rank, now := rank[d := now], now + 1;
      return true;
    }

    // uxcapi_type_free: the creator gives up its handle, which it must still have.
    method TypeFree(x: Option<nat>)
      requires Valid() && (x.Some? ==> x.value in open)
      modifies `store, `open
      ensures Valid() && open == old(open) - (if x.Some? then {x.value} else {})
      ensures Kept(old(store), store) && forall d: nat :: d in store <==> Reachable(old(store), Roots(), d)
    {
      hide Settled, HeldOutside, HeldBesides, Kept, Reachable;
      HandleTaken(open, calls, x);
      ghost var before := Roots();
      open := open - (if x.Some? then {x.value} else {});
      ghost var start := store;
      GiveBack(x, before, Roots());
      KeptOnlyRemoves(start, store);
    }

    // ------------------------------------------------------------ calls

    // uxcapi_call_new, for a symbol that was found.
    method CallNew() returns (c: nat)
      requires Valid()
      modifies `calls, `next
      ensures Valid() && c == old(next) && calls == old(calls)[c := Call(None, [])]
    {
      hide Settled, HeldOutside, HeldBesides;
      c := next;
      CallAdded(open, calls, c);
      calls := calls[c := Call(None, [])];
      next := next + 1;
    }

    // uxcapi_call_free.
    method CallFree(c: nat)
      requires Valid() && c in calls
      modifies `store, `calls
      ensures Valid() && calls == old(calls) - {c}
      ensures Kept(old(store), store) && forall d: nat :: d in store <==> Reachable(old(store), Roots(), d)
    {
      hide Settled, HeldOutside, HeldBesides, Named, Kept, Reachable;
      ghost var start := store;
      CallSplit(open, calls, c);
      CallRemoved(open, calls, c);
      ghost var others := HeldBesides(open, calls, c);
      var call := calls[c];
      GiveBackAll(call.arguments, Roots(), others + One(call.result));
      ghost var mid := store;
      GiveBack(call.result, others + One(call.result), others);
      calls := calls - {c};
      KeptTrans(start, mid, store);
      KeptOnlyRemoves(start, store);
      Survivors(start, store, Roots(), rank, now);
    }

    // uxcapi_call_clear_arguments.
    method ClearArguments(c: nat)
      requires Valid() && c in calls
      modifies `store, `calls
      ensures Valid() && calls == old(calls)[c := old(calls)[c].(arguments := [])]
      ensures Kept(old(store), store) && forall d: nat :: d in store <==> Reachable(old(store), Roots(), d)
    {
      hide Settled, HeldOutside, HeldBesides, Reachable;
      CallSplit(open, calls, c);
      var call := calls[c];
      CallReplaced(open, calls, c, call.(arguments := []));
      GiveBackAll(call.arguments, Roots(), HeldBesides(open, calls, c) + One(call.result));
      calls := calls[c := call.(arguments := [])];
      assert Named(calls[c].arguments) == NOTHING;
      assert Roots() == HeldBesides(open, old(calls), c) + One(call.result);
    }

    // uxcapi_call_set_return_struct: the old return type is released before the new one is retained. When
    // nobody else reaches the new one it is freed in between, and the code goes on with freed memory; the
    // model stops there (`FreedFirst`), with nothing held as the return type.
    method SetReturnStruct(c: nat, x: Option<nat>) returns (r: SetReturn)
      requires Valid() && c in calls && (x.Some? ==> x.value in store)
      modifies `store, `calls
      ensures Valid() && Kept(old(store), store)
      ensures r.Refused? <==> !(x.Some? && old(store)[x.value].isStruct && old(store)[x.value].finalized)
      ensures r.Refused? ==> store == old(store) && calls == old(calls)
      ensures r.FreedFirst? <==> !r.Refused? && !Reachable(old(store), HeldByOthers(open, old(calls), c), x.value)
      ensures r.FreedFirst? ==> x.value !in store && calls == old(calls)[c := old(calls)[c].(result := None)]
      ensures r.Retained? ==> calls == old(calls)[c := old(calls)[c].(result := x)]
      ensures !r.Refused? ==> forall d: nat :: d in store <==> Reachable(old(store), HeldByOthers(open, old(calls), c), d)
    {
      hide Settled, HeldOutside, HeldByOthers, Reachable, Kept;
      if x.None? || !store[x.value].isStruct || !store[x.value].finalized {
        KeptSame(store);
        return Refused;
      }
      ghost var start := store;
      GiveBackResult(c);
      if x.value !in store {
        return FreedFirst;
      }
      ghost var mid := store;
      RetainResult(c, x.value);
      KeptTrans(start, mid, store);
      return Retained;
    }

    // The release at its beginning.
    method GiveBackResult(c: nat)
      requires Valid() && c in calls
      modifies `store, `calls
      ensures Valid() && Kept(old(store), store) && calls == old(calls)[c := old(calls)[c].(result := None)]
      ensures forall d: nat :: d in store <==> Reachable(old(store), HeldByOthers(open, old(calls), c), d)
    {
      hide Settled, HeldOutside, HeldByOthers, Reachable, Kept;
      var call := calls[c];
      ghost var start, rest := store, HeldByOthers(open, calls, c);
      ResultReplaced(open, calls, c, call.result);
      ResultReplaced(open, calls, c, None);
      assert calls[c := call.(result := call.result)] == calls;
      GiveBack(call.result, Roots(), rest);
      KeptOnlyRemoves(start, store);
      calls := calls[c := call.(result := None)];
      assert rest + NOTHING == rest;
    }

    // ... and the retain after it.
    method RetainResult(c: nat, d: nat)
      requires Valid() && c in calls && calls[c].result.None? && d in store
      modifies `store, `calls
      ensures Valid() && Kept(old(store), store) && store.Keys == old(store).Keys
      ensures calls == old(calls)[c := old(calls)[c].(result := Some(d))]
    {
      hide Settled, HeldOutside, HeldByOthers, Kept;
      var call := calls[c];
      ResultReplaced(open, calls, c, None);
      ResultReplaced(open, calls, c, Some(d));
      assert calls[c := call.(result := None)] == calls;
      ghost var rest := HeldByOthers(open, calls, c);
      assert rest + NOTHING == rest;
      Retain(d, Roots());
      calls := calls[c := call.(result := Some(d))];
    }

    // add_aggregate_argument; `sizeOk` says that the data has the size of the layout.
    method AddStructArgument(c: nat, x: Option<nat>, sizeOk: bool) returns (ok: bool)
      requires Valid() && c in calls && (x.Some? ==> x.value in store)
      modifies `store, `calls
      ensures Valid()
      ensures ok <==> x.Some? && old(store)[x.value].isStruct && old(store)[x.value].finalized && sizeOk
      ensures calls == if ok then old(calls)[c := old(calls)[c].(arguments := old(calls)[c].arguments + [x])] else old(calls)
      ensures Kept(old(store), store) && store.Keys == old(store).Keys
    {
      hide Settled, HeldOutside, HeldBesides, Named;
      if x.None? || !store[x.value].isStruct || !store[x.value].finalized || !sizeOk {
        return false;
      }
      var call := calls[c];
      CallSplit(open, calls, c);
      NamedOneMore(call.arguments, x);
      CallReplaced(open, calls, c, call.(arguments := call.arguments + [x]));
      ghost var before := Roots();
      calls := calls[c := call.(arguments := call.arguments + [x])];
      assert Roots() == before + multiset{x.value};
      Retain(x.value, before);
      return true;
    }
  }

  lemma Survivors(before: Store, after: Store, roots: multiset<nat>, rank: map<nat, nat>, now: nat)
    requires Settled(after, roots, rank, now) && Kept(before, after)
    ensures forall d: nat :: d in after <==> Reachable(before, roots, d)
  {
    hide Settled, Kept, Reachable;
    forall d: nat ensures d in after <==> Reachable(before, roots, d) {
      SurvivesIffReachable(before, after, roots, rank, now, d);
    }
  }

  lemma KeptOnlyRemoves(before: Store, after: Store)
    requires Kept(before, after)
    ensures after.Keys <= before.Keys
  {
  }

  lemma KeptSame(store: Store)
    ensures Kept(store, store)
  {
  }

  // A creator's own handle is enough to be safe.
  lemma OpenIsSafe(store: Store, open: set<nat>, calls: map<nat, Call>, c: nat, d: nat)
    requires d in open && c in calls
    ensures Reachable(store, HeldByOthers(open, calls, c), d)
  {
    assert Reaches(store, HeldByOthers(open, calls, c), d, 0);
  }

  // ---------------------------------------------------------------- the two ways to be freed first

  // A finalized STRUCT of one scalar field, its handle still open, and a call object.
  method Prepared() returns (t: TypeSystem, x: nat, c: nat)
    ensures fresh(t) && t.Valid() && c in t.calls && t.calls == map[c := Call(None, [])]
    ensures t.open == {x} && x in t.store && t.store[x].isStruct && t.store[x].finalized && x < t.next
  {
    hide Settled, HeldOutside, Reachable, Kept;
    t := new TypeSystem();
    x := t.NewDescriptor(true);
    var added := t.AddField(Some(x), true);
    var done := t.Finalize(Some(x), true);
    c := t.CallNew();
  }

  lemma Alone(calls: map<nat, Call>, c: nat)
    requires calls.Keys == {c} && calls[c].arguments == []
    ensures HeldByOthers({}, calls, c) == NOTHING
  {
    assert HeldBy(calls) - {c} == map[];
  }

  // The return type is set to the type that it already is, after its creator has freed its handle.
  method SameTypeAgain() returns (r: SetReturn)
    ensures r.FreedFirst?
  {
    hide Settled, Reachable, HeldOutside, HeldBesides, HeldByOthers;
    var t, x, c := Prepared();
    OpenIsSafe(t.store, t.open, t.calls, c, x);
    var first := t.SetReturnStruct(c, Some(x));
    t.TypeFree(Some(x));
    CallSplit(t.open, t.calls, c);
    HolderIsAlive(t.store, t.Roots(), t.rank, t.now, x);
    assert t.open == {};
    Alone(t.calls, c);
    NobodyHolds(t.store, HeldByOthers({}, t.calls, c), x);
    r := t.SetReturnStruct(c, Some(x));
  }

  // The return type is set to a type that only the old return type nests: the cascade frees it.
  method NestedInOldType() returns (r: SetReturn)
    ensures r.FreedFirst?
  {
    hide Settled, Reachable, HeldOutside, HeldBesides, HeldByOthers;
    var t, x, c := Prepared();
    var outer := t.NewDescriptor(true);
    var added := t.AddStructField(Some(outer), Some(x));
    var done := t.Finalize(Some(outer), true);
    OpenIsSafe(t.store, t.open, t.calls, c, outer);
    var first := t.SetReturnStruct(c, Some(outer));
    t.TypeFree(Some(outer));
    CallSplit(t.open, t.calls, c);
    HolderIsAlive(t.store, t.Roots(), t.rank, t.now, outer);
    t.TypeFree(Some(x));
    CallSplit(t.open, t.calls, c);
    HolderIsAlive(t.store, t.Roots(), t.rank, t.now, outer);
    t.NestedStays(outer, x);
    assert t.open == {};
    Alone(t.calls, c);
    NobodyHolds(t.store, HeldByOthers({}, t.calls, c), x);
    r := t.SetReturnStruct(c, Some(x));
  }
}
