/**
 Reference-counted type descriptors and who refers to them: the accounting behind
 type_descriptor_retain and type_descriptor_release in runtime_ext/uxcapi/uxcapi.c.

 A descriptor is known by a number that is never used twice (the source's address, with allocation taken
 to be fresh). Its fields are scalars (None) or nested STRUCTs (Some).
 */
module Descriptors {
  import opened Basics

  datatype Desc = Desc(isStruct: bool, finalized: bool, fields: seq<Option<nat>>, refs: int)

  type Store = map<nat, Desc>

  const NOTHING: multiset<nat> := multiset{}

  // ---------------------------------------------------------------- counting references

  function One(field: Option<nat>): multiset<nat> {
    if field.Some? then multiset{field.value} else multiset{}
  }

  function Named(items: seq<Option<nat>>): multiset<nat> {
    if items == [] then multiset{}
    else
      Named(items[..|items| - 1])
      + if items[|items| - 1].Some? then multiset{items[|items| - 1].value} else multiset{}
  }

  lemma NamedOneMore(items: seq<Option<nat>>, x: Option<nat>)
    ensures Named(items + [x]) == Named(items) + if x.Some? then multiset{x.value} else multiset{}
  {
    assert (items + [x])[..|items|] == items;
  }

  lemma {:induction false} NamedSplit(a: seq<Option<nat>>, b: seq<Option<nat>>)
    ensures Named(a + b) == Named(a) + Named(b)
    decreases |b|
  {
    if b == [] {
      assert a + b == a;
    } else {
      assert (a + b)[..|a + b| - 1] == a + b[..|b| - 1];
      NamedSplit(a, b[..|b| - 1]);
    }
  }

  lemma NamedFirst(items: seq<Option<nat>>, i: nat)
    requires i < |items|
    ensures Named(items[i..]) == One(items[i]) + Named(items[i + 1..])
  {
    assert items[i..] == [items[i]] + items[i + 1..];
    NamedSplit([items[i]], items[i + 1..]);
    assert Named([items[i]]) == Named([]) + if items[i].Some? then multiset{items[i].value} else multiset{};
  }

  lemma NamedIsMember(items: seq<Option<nat>>, d: nat)
    ensures d in Named(items) <==> Some(d) in items
  {
    if items != [] {
      NamedIsMember(items[..|items| - 1], d);
      assert items == items[..|items| - 1] + [items[|items| - 1]];
    }
  }

  // The references held by all entries of a table.
  ghost function Sum(m: map<nat, multiset<nat>>): multiset<nat>
    decreases |m|
  {
    if m.Keys == {} then multiset{}
    else
      var k :| k in m.Keys;
      m[k] + Sum(m - {k})
  }

  lemma SwapSummands(a: multiset<nat>, b: multiset<nat>, c: multiset<nat>)
    ensures a + (b + c) == b + (a + c)
  {
  }

  lemma SumPick(m: map<nat, multiset<nat>>, k: nat)
    requires k in m
    ensures Sum(m) == m[k] + Sum(m - {k})
    decreases |m|
  {
    var j :| j in m.Keys && Sum(m) == m[j] + Sum(m - {j});
    if j != k {
      var rest := m - {j, k};
      SumPick(m - {j}, k);
      SumPick(m - {k}, j);
      assert m - {j} - {k} == rest && m - {k} - {j} == rest;
      SwapSummands(m[j], m[k], Sum(rest));
    }
  }

  lemma SumUpdate(m: map<nat, multiset<nat>>, k: nat, v: multiset<nat>)
    ensures Sum(m[k := v]) == v + Sum(m - {k})
    ensures k !in m ==> Sum(m[k := v]) == v + Sum(m)
  {
    SumPick(m[k := v], k);
    assert m[k := v] - {k} == m - {k};
    if k !in m {
      assert m - {k} == m;
    }
  }

  lemma SumOneMore(a: map<nat, multiset<nat>>, b: map<nat, multiset<nat>>, p: nat, more: multiset<nat>)
    requires p in a && a.Keys == b.Keys && b[p] == a[p] + more
    requires forall k :: k in a && k != p ==> b[k] == a[k]
    ensures Sum(b) == more + Sum(a)
  {
    assert b - {p} == a - {p};
    SumPick(a, p);
    SumPick(b, p);
  }

  lemma {:induction false} SumHas(m: map<nat, multiset<nat>>, d: nat)
    ensures d in Sum(m) <==> exists k :: k in m && d in m[k]
    decreases |m|
  {
    if m.Keys != {} {
      var k :| k in m.Keys;
      SumPick(m, k);
      SumHas(m - {k}, d);
      assert d in Sum(m) <==> d in m[k] || d in Sum(m - {k});
      forall j | j in m && d in m[j] ensures d in Sum(m) {
        if j != k {
          assert j in m - {k} && (m - {k})[j] == m[j];
        }
      }
      if d in Sum(m - {k}) {
        var j :| j in m - {k} && d in (m - {k})[j];
        assert j in m && d in m[j];
      }
    }
  }

  // What the live descriptors nest; a descriptor that is being freed no longer counts.
  ghost function NestedIn(store: Store, dying: set<nat>): map<nat, multiset<nat>> {
    map k | k in store && k !in dying :: Named(store[k].fields)
  }

  // ---------------------------------------------------------------- the accounting

  // Every count is the number of holders outside (`roots`), of live descriptors that nest it, and of
  // references that a running release still has to give back (`debt`).
  ghost predicate Counted(store: Store, roots: multiset<nat>, debt: multiset<nat>, dying: set<nat>) {
    forall d: nat ::
      roots[d] + debt[d] + Sum(NestedIn(store, dying))[d] == if d in store && d !in dying then store[d].refs else 0
  }

  // A nested descriptor is a finalized STRUCT that was finalized before the one that nests it; `rank` is
  // the time of finalization, and what is not finalized may still nest anything finalized.
  ghost predicate Ranked(store: Store, dying: set<nat>, rank: map<nat, nat>, now: nat) {
    && (forall d :: d in store && d !in dying && store[d].finalized ==> d in rank && rank[d] < now)
    && (forall d, e :: d in store && d !in dying && Some(e) in store[d].fields ==>
          e in rank && rank[e] < (if store[d].finalized && d in rank then rank[d] else now))
    && (forall d :: d in store && !store[d].finalized ==> d !in rank)
  }

  ghost predicate Alive(store: Store, dying: set<nat>) {
    && dying <= store.Keys
    && (forall d :: d in store && d !in dying ==> store[d].refs >= 1)
    && (forall d :: d in dying ==> store[d].refs == 0)
  }

  // In the middle of a release.
  ghost predicate Releasing(store: Store, roots: multiset<nat>, debt: multiset<nat>, dying: set<nat>) {
    Counted(store, roots, debt, dying) && Alive(store, dying)
  }

  // Between two calls.
  ghost predicate Settled(store: Store, roots: multiset<nat>, rank: map<nat, nat>, now: nat) {
    Releasing(store, roots, NOTHING, {}) && Ranked(store, {}, rank, now)
  }

  lemma HeldIsAlive(store: Store, roots: multiset<nat>, debt: multiset<nat>, dying: set<nat>, d: nat)
    requires Releasing(store, roots, debt, dying) && d in roots + debt
    ensures d in store && d !in dying
  {
    assert roots[d] + debt[d] + Sum(NestedIn(store, dying))[d] > 0;
  }

  lemma NestedIsAlive(store: Store, roots: multiset<nat>, debt: multiset<nat>, dying: set<nat>, p: nat, d: nat)
    requires Releasing(store, roots, debt, dying) && p in store && p !in dying && Some(d) in store[p].fields
    ensures d in store && d !in dying
  {
    NamedIsMember(store[p].fields, d);
    assert d in NestedIn(store, dying)[p];
    SumHas(NestedIn(store, dying), d);
    assert roots[d] + debt[d] + Sum(NestedIn(store, dying))[d] > 0;
  }

  // ---------------------------------------------------------------- live means reachable

  ghost predicate Reaches(store: Store, roots: multiset<nat>, d: nat, n: nat)
    decreases n
  {
    if n == 0 then d in roots
    else exists p: nat :: Reaches(store, roots, p, n - 1) && p in store && Some(d) in store[p].fields
  }

  ghost predicate Reachable(store: Store, roots: multiset<nat>, d: nat) {
    exists n: nat :: Reaches(store, roots, d, n)
  }

  lemma {:induction false} ReachableIsAlive(store: Store, roots: multiset<nat>, d: nat, n: nat)
    requires Releasing(store, roots, NOTHING, {}) && Reaches(store, roots, d, n)
    ensures d in store
    decreases n
  {
    if n == 0 {
      HeldIsAlive(store, roots, NOTHING, {}, d);
    } else {
      var p: nat :| Reaches(store, roots, p, n - 1) && p in store && Some(d) in store[p].fields;
      NestedIsAlive(store, roots, NOTHING, {}, p, d);
    }
  }

  function Height(store: Store, rank: map<nat, nat>, now: nat, d: nat): nat {
    if d in store && store[d].finalized && d in rank && rank[d] < now then now - rank[d] else 0
  }

  // A live descriptor is held from outside or nested in a live one that was finalized later.
  lemma {:induction false} AliveIsReachable(store: Store, roots: multiset<nat>, rank: map<nat, nat>, now: nat, d: nat)
    requires Settled(store, roots, rank, now) && d in store
    ensures Reachable(store, roots, d)
    decreases Height(store, rank, now, d)
  {
    if d in roots {
      assert Reaches(store, roots, d, 0);
    } else {
      assert roots[d] + NOTHING[d] + Sum(NestedIn(store, {}))[d] == store[d].refs;
      SumHas(NestedIn(store, {}), d);
      var p :| p in NestedIn(store, {}) && d in NestedIn(store, {})[p];
      NamedIsMember(store[p].fields, d);
      ParentIsHigher(store, roots, rank, now, p, d);
      AliveIsReachable(store, roots, rank, now, p);
      var n: nat :| Reaches(store, roots, p, n);
      assert Reaches(store, roots, d, n + 1);
    }
  }

  lemma ParentIsHigher(store: Store, roots: multiset<nat>, rank: map<nat, nat>, now: nat, p: nat, d: nat)
    requires Settled(store, roots, rank, now) && p in store && d in store && Some(d) in store[p].fields
    ensures Height(store, rank, now, p) < Height(store, rank, now, d)
  {
  }

  // No leak and no early free: the allocated descriptors are exactly those that a holder can reach.
  lemma LiveIffReachable(store: Store, roots: multiset<nat>, rank: map<nat, nat>, now: nat, d: nat)
    requires Settled(store, roots, rank, now)
    ensures d in store <==> Reachable(store, roots, d)
  {
    if d in store {
      AliveIsReachable(store, roots, rank, now, d);
    }
    if n: nat :| Reaches(store, roots, d, n) {
      ReachableIsAlive(store, roots, d, n);
    }
  }

  // The nesting graph is a DAG: nesting strictly lowers the time of finalization.
  lemma NestingIsAcyclic(store: Store, roots: multiset<nat>, rank: map<nat, nat>, now: nat, path: seq<nat>)
    requires Settled(store, roots, rank, now) && |path| > 1
    requires forall i :: 0 <= i < |path| ==> path[i] in store
    requires forall i :: 0 <= i < |path| - 1 ==> Some(path[i + 1]) in store[path[i]].fields
    ensures path[0] != path[|path| - 1]
  {
    HeightRises(store, roots, rank, now, path);
  }

  lemma {:induction false} HeightRises(store: Store, roots: multiset<nat>, rank: map<nat, nat>, now: nat, path: seq<nat>)
    requires Settled(store, roots, rank, now) && |path| > 1
    requires forall i :: 0 <= i < |path| ==> path[i] in store
    requires forall i :: 0 <= i < |path| - 1 ==> Some(path[i + 1]) in store[path[i]].fields
    ensures Height(store, rank, now, path[0]) < Height(store, rank, now, path[|path| - 1])
    decreases |path|
  {
    var last := |path| - 1;
    ParentIsHigher(store, roots, rank, now, path[last - 1], path[last]);
    if |path| > 2 {
      HeightRises(store, roots, rank, now, path[..last]);
    }
  }

  // ---------------------------------------------------------------- what the operations do to the accounting

  // Apart from counts a release changes nothing, and it only removes descriptors.
  ghost predicate Kept(before: Store, after: Store) {
    && after.Keys <= before.Keys
    && forall d :: d in after ==> after[d] == before[d].(refs := after[d].refs)
  }

  lemma KeptKeepsRanked(before: Store, after: Store, rank: map<nat, nat>, now: nat)
    requires Ranked(before, {}, rank, now) && Kept(before, after)
    ensures Ranked(after, {}, rank, now)
  {
  }

  // What a series of releases leaves allocated is what the remaining holders could reach before it.
  lemma {:induction false} ReachableSurvives(before: Store, after: Store, roots: multiset<nat>, d: nat, n: nat)
    requires Releasing(after, roots, NOTHING, {}) && Kept(before, after) && Reaches(before, roots, d, n)
    ensures d in after
    decreases n
  {
    if n == 0 {
      HeldIsAlive(after, roots, NOTHING, {}, d);
    } else {
      var p: nat :| Reaches(before, roots, p, n - 1) && p in before && Some(d) in before[p].fields;
      ReachableSurvives(before, after, roots, p, n - 1);
      NestedIsAlive(after, roots, NOTHING, {}, p, d);
    }
  }

  lemma {:induction false} ReachesBefore(before: Store, after: Store, roots: multiset<nat>, d: nat, n: nat)
    requires Kept(before, after) && Reaches(after, roots, d, n)
    ensures Reaches(before, roots, d, n)
    decreases n
  {
    if n > 0 {
      var p: nat :| Reaches(after, roots, p, n - 1) && p in after && Some(d) in after[p].fields;
      ReachesBefore(before, after, roots, p, n - 1);
    }
  }

  lemma SurvivesIffReachable(before: Store, after: Store, roots: multiset<nat>, rank: map<nat, nat>, now: nat, d: nat)
    requires Settled(after, roots, rank, now) && Kept(before, after)
    ensures d in after <==> Reachable(before, roots, d)
  {
    if d in after {
      LiveIffReachable(after, roots, rank, now, d);
      var n: nat :| Reaches(after, roots, d, n);
      ReachesBefore(before, after, roots, d, n);
    }
    if n: nat :| Reaches(before, roots, d, n) {
      ReachableSurvives(before, after, roots, d, n);
    }
  }

  // Without a holder nothing is reachable.
  lemma {:induction false} NobodyReaches(store: Store, roots: multiset<nat>, d: nat, n: nat)
    requires roots == NOTHING
    ensures !Reaches(store, roots, d, n)
    decreases n
  {
    if n > 0 && Reaches(store, roots, d, n) {
      var p: nat :| Reaches(store, roots, p, n - 1) && p in store && Some(d) in store[p].fields;
      NobodyReaches(store, roots, p, n - 1);
    }
  }

  lemma NobodyHolds(store: Store, roots: multiset<nat>, d: nat)
    requires roots == NOTHING
    ensures !Reachable(store, roots, d)
  {
    forall n: nat ensures !Reaches(store, roots, d, n) {
      NobodyReaches(store, roots, d, n);
    }
  }

  lemma KeptTrans(a: Store, b: Store, c: Store)
    requires Kept(a, b) && Kept(b, c)
    ensures Kept(a, c)
  {
  }

  ghost function Total(store: Store, debt: multiset<nat>, dying: set<nat>): nat {
    |debt| + |Sum(NestedIn(store, dying))|
  }

  lemma SameNesting(a: Store, b: Store, dying: set<nat>)
    requires a.Keys == b.Keys && forall d :: d in a ==> a[d].fields == b[d].fields
    ensures NestedIn(a, dying) == NestedIn(b, dying)
  {
  }

  // How often x is counted after one d more or less.
  lemma OneMoreOf(m: multiset<nat>, d: nat, x: nat)
    ensures (m + multiset{d})[x] == m[x] + if x == d then 1 else 0
    ensures d in m ==> (m - multiset{d})[x] == m[x] - if x == d then 1 else 0
  {
  }

  lemma DropOneCounted(store: Store, after: Store, roots: multiset<nat>, debt: multiset<nat>, dying: set<nat>, d: nat)
    requires Counted(store, roots, debt, dying) && d in debt && d in store && d !in dying
    requires after == store[d := store[d].(refs := store[d].refs - 1)]
    ensures Counted(after, roots, debt - multiset{d}, dying)
  {
    SameNesting(store, after, dying);
    var sum := Sum(NestedIn(store, dying));
    assert Sum(NestedIn(after, dying)) == sum;
    forall x: nat
      ensures roots[x] + (debt - multiset{d})[x] + sum[x] == if x in after && x !in dying then after[x].refs else 0
    {
      OneMoreOf(debt, d, x);
      assert roots[x] + debt[x] + Sum(NestedIn(store, dying))[x] == if x in store && x !in dying then store[x].refs else 0;
    }
  }

  lemma DropOneShrinks(store: Store, after: Store, debt: multiset<nat>, dying: set<nat>, d: nat)
    requires d in debt && d in store && after == store[d := store[d].(refs := store[d].refs - 1)]
    ensures Total(after, debt - multiset{d}, dying) < Total(store, debt, dying)
  {
    SameNesting(store, after, dying);
  }

  // One reference is given back while others remain.
  lemma DropOne(store: Store, roots: multiset<nat>, debt: multiset<nat>, dying: set<nat>, d: nat)
    requires Releasing(store, roots, debt, dying) && d in debt
    ensures d in store && d !in dying
    ensures var after := store[d := store[d].(refs := store[d].refs - 1)];
            store[d].refs > 1 ==>
              && Releasing(after, roots, debt - multiset{d}, dying)
              && Total(after, debt - multiset{d}, dying) < Total(store, debt, dying)
  {
    HeldIsAlive(store, roots, debt, dying, d);
    var after := store[d := store[d].(refs := store[d].refs - 1)];
    hide Counted, Total;
    DropOneCounted(store, after, roots, debt, dying, d);
    DropOneShrinks(store, after, debt, dying, d);
  }

  function LastDropped(store: Store, d: nat): Store
    requires d in store
  {
    store[d := store[d].(refs := 0)]
  }

  lemma DyingNesting(store: Store, dying: set<nat>, d: nat)
    requires d in store && d !in dying
    ensures NestedIn(LastDropped(store, d), dying + {d}) == NestedIn(store, dying) - {d}
    ensures Sum(NestedIn(store, dying))
            == Named(store[d].fields) + Sum(NestedIn(LastDropped(store, d), dying + {d}))
  {
    assert NestedIn(LastDropped(store, d), dying + {d}) == NestedIn(store, dying) - {d};
    SumPick(NestedIn(store, dying), d);
  }

  lemma DropLastAlive(store: Store, dying: set<nat>, d: nat)
    requires Alive(store, dying) && d in store
    ensures Alive(LastDropped(store, d), dying + {d})
  {
  }

  lemma DropLastCounted(store: Store, roots: multiset<nat>, debt: multiset<nat>, dying: set<nat>, d: nat)
    requires Counted(store, roots, debt, dying) && d in debt && d in store && d !in dying && store[d].refs == 1
    ensures Counted(LastDropped(store, d), roots, debt - multiset{d} + Named(store[d].fields), dying + {d})
  {
    DyingNesting(store, dying, d);
    var after := LastDropped(store, d);
    var fields := Named(store[d].fields);
    var rest := Sum(NestedIn(after, dying + {d}));
    forall x: nat
      ensures roots[x] + (debt - multiset{d} + fields)[x] + rest[x]
              == if x in after && x !in dying + {d} then after[x].refs else 0
    {
      OneMoreOf(debt, d, x);
      assert roots[x] + debt[x] + (fields + rest)[x] == if x in store && x !in dying then store[x].refs else 0;
    }
  }

  // The last reference is given back: what the descriptor nests is now owed.
  lemma DropLast(store: Store, roots: multiset<nat>, debt: multiset<nat>, dying: set<nat>, d: nat)
    requires Releasing(store, roots, debt, dying) && d in debt && d in store && store[d].refs == 1
    ensures d !in dying
    ensures Releasing(LastDropped(store, d), roots, debt - multiset{d} + Named(store[d].fields), dying + {d})
  {
    HeldIsAlive(store, roots, debt, dying, d);
    hide Counted, Alive;
    DropLastAlive(store, dying, d);
    DropLastCounted(store, roots, debt, dying, d);
  }

  lemma DropLastShrinks(store: Store, debt: multiset<nat>, dying: set<nat>, d: nat)
    requires d in debt && d in store && d !in dying
    ensures Total(LastDropped(store, d), debt - multiset{d} + Named(store[d].fields), dying + {d}) < Total(store, debt, dying)
  {
    DyingNesting(store, dying, d);
  }

  // The memory of a dying descriptor goes.
  lemma Freed(store: Store, roots: multiset<nat>, debt: multiset<nat>, dying: set<nat>, d: nat)
    requires Releasing(store, roots, debt, dying + {d}) && d !in dying && d in store
    ensures Releasing(store - {d}, roots, debt, dying)
    ensures Total(store - {d}, debt, dying) == Total(store, debt, dying + {d})
  {
    assert NestedIn(store - {d}, dying) == NestedIn(store, dying + {d});
    forall x: nat
      ensures roots[x] + debt[x] + Sum(NestedIn(store - {d}, dying))[x]
              == if x in store - {d} && x !in dying then (store - {d})[x].refs else 0
    {
      assert roots[x] + debt[x] + Sum(NestedIn(store, dying + {d}))[x]
             == if x in store && x !in dying + {d} then store[x].refs else 0;
    }
  }

  lemma RetainedCounted(store: Store, after: Store, roots: multiset<nat>, debt: multiset<nat>, dying: set<nat>, d: nat)
    requires Counted(store, roots, debt, dying) && d in store && d !in dying
    requires after == store[d := store[d].(refs := store[d].refs + 1)]
    ensures Counted(after, roots + multiset{d}, debt, dying)
  {
    SameNesting(store, after, dying);
    var sum := Sum(NestedIn(store, dying));
    assert Sum(NestedIn(after, dying)) == sum;
    forall x: nat
      ensures (roots + multiset{d})[x] + debt[x] + sum[x] == if x in after && x !in dying then after[x].refs else 0
    {
      OneMoreOf(roots, d, x);
      assert roots[x] + debt[x] + Sum(NestedIn(store, dying))[x] == if x in store && x !in dying then store[x].refs else 0;
    }
  }

  // One more holder outside.
  lemma Retained(store: Store, roots: multiset<nat>, d: nat)
    requires Releasing(store, roots, NOTHING, {}) && d in store
    ensures var after := store[d := store[d].(refs := store[d].refs + 1)];
            Releasing(after, roots + multiset{d}, NOTHING, {}) && Kept(store, after)
  {
    hide Counted;
    RetainedCounted(store, store[d := store[d].(refs := store[d].refs + 1)], roots, NOTHING, {}, d);
  }

  function RefsOf(store: Store, x: nat): int {
    if x in store then store[x].refs else 0
  }

  // The books balance again when each side of them has moved by the same amount.
  lemma Rebalanced(a: Store, ra: multiset<nat>, b: Store, rb: multiset<nat>)
    requires Counted(a, ra, NOTHING, {})
    requires forall x: nat ::
               rb[x] + Sum(NestedIn(b, {}))[x] - RefsOf(b, x) == ra[x] + Sum(NestedIn(a, {}))[x] - RefsOf(a, x)
    ensures Counted(b, rb, NOTHING, {})
  {
    forall x: nat ensures rb[x] + NOTHING[x] + Sum(NestedIn(b, {}))[x] == if x in b && x !in {} then b[x].refs else 0 {
      assert ra[x] + NOTHING[x] + Sum(NestedIn(a, {}))[x] == if x in a && x !in {} then a[x].refs else 0;
      assert rb[x] + Sum(NestedIn(b, {}))[x] - RefsOf(b, x) == ra[x] + Sum(NestedIn(a, {}))[x] - RefsOf(a, x);
    }
  }

  // A new descriptor with its creator's handle.
  lemma Created(store: Store, roots: multiset<nat>, d: nat, desc: Desc)
    requires Releasing(store, roots, NOTHING, {}) && d !in store
    requires desc.fields == [] && desc.refs == 1
    ensures Releasing(store[d := desc], roots + multiset{d}, NOTHING, {})
  {
    CreatedCounted(store, roots, store[d := desc], d);
  }

  lemma CreatedCounted(store: Store, roots: multiset<nat>, after: Store, d: nat)
    requires Counted(store, roots, NOTHING, {}) && d !in store
    requires d in after && after[d].fields == [] && after[d].refs == 1 && after == store[d := after[d]]
    ensures Counted(after, roots + multiset{d}, NOTHING, {})
  {
    CreatedNesting(store, d, after[d]);
    Rebalanced(store, roots, after, roots + multiset{d});
  }

  lemma CreatedNesting(store: Store, d: nat, desc: Desc)
    requires d !in store && desc.fields == []
    ensures Sum(NestedIn(store[d := desc], {})) == Sum(NestedIn(store, {}))
  {
    var nested: map<nat, multiset<nat>> := NestedIn(store, {});
    assert NestedIn(store[d := desc], {}) == nested[d := NOTHING];
    SumUpdate(nested, d, NOTHING);
  }

  // One more field of p, which nests `field` if it is a STRUCT.
  ghost predicate FieldStep(a: Store, b: Store, p: nat, field: Option<nat>) {
    && p in a && b.Keys == a.Keys && (field.Some? ==> field.value in a)
    && forall d :: d in a ==>
         && b[d].isStruct == a[d].isStruct && b[d].finalized == a[d].finalized
         && b[d].fields == a[d].fields + (if d == p then [field] else [])
         && b[d].refs == a[d].refs + One(field)[d]
  }

  lemma FieldNesting(a: Store, b: Store, p: nat, field: Option<nat>)
    requires FieldStep(a, b, p, field)
    ensures Sum(NestedIn(b, {})) == One(field) + Sum(NestedIn(a, {}))
  {
    NamedOneMore(a[p].fields, field);
    forall d | d in a && d != p ensures b[d].fields == a[d].fields {
      assert a[d].fields + [] == a[d].fields;
    }
    SumOneMore(NestedIn(a, {}), NestedIn(b, {}), p, One(field));
  }

  lemma FieldAdded(a: Store, b: Store, roots: multiset<nat>, p: nat, field: Option<nat>)
    requires Releasing(a, roots, NOTHING, {}) && FieldStep(a, b, p, field)
    ensures Releasing(b, roots, NOTHING, {})
  {
    FieldNesting(a, b, p, field);
    forall x: nat
      ensures roots[x] + Sum(NestedIn(b, {}))[x] - RefsOf(b, x) == roots[x] + Sum(NestedIn(a, {}))[x] - RefsOf(a, x)
    {
      assert x !in a ==> One(field)[x] == 0;
    }
    Rebalanced(a, roots, b, roots);
  }

  lemma FieldKeepsRanked(a: Store, b: Store, p: nat, field: Option<nat>, rank: map<nat, nat>, now: nat)
    requires Ranked(a, {}, rank, now) && FieldStep(a, b, p, field) && !a[p].finalized
    requires field.Some? ==> a[field.value].finalized
    ensures Ranked(b, {}, rank, now)
  {
    forall d, e | d in b && Some(e) in b[d].fields
      ensures e in rank && rank[e] < (if b[d].finalized && d in rank then rank[d] else now)
    {
      if Some(e) in a[d].fields {
      } else {
        assert d == p && field == Some(e);
      }
    }
  }

  lemma FinalizedKeepsRanked(store: Store, d: nat, rank: map<nat, nat>, now: nat)
    requires Ranked(store, {}, rank, now) && d in store && !store[d].finalized
    ensures Ranked(store[d := store[d].(finalized := true)], {}, rank[d := now], now + 1)
  {
  }

  lemma SameCounts(a: Store, b: Store, roots: multiset<nat>)
    requires Releasing(a, roots, NOTHING, {}) && a.Keys == b.Keys
    requires forall d :: d in a ==> a[d].fields == b[d].fields && a[d].refs == b[d].refs
    ensures Releasing(b, roots, NOTHING, {})
  {
    SameNesting(a, b, {});
    forall x: nat ensures roots[x] + NOTHING[x] + Sum(NestedIn(b, {}))[x] == if x in b then b[x].refs else 0 {
      assert roots[x] + NOTHING[x] + Sum(NestedIn(a, {}))[x] == if x in a then a[x].refs else 0;
    }
  }

  // Handles given up by their holders become references to give back.
  lemma GivenUp(store: Store, roots: multiset<nat>, rest: multiset<nat>, owed: multiset<nat>)
    requires Releasing(store, roots, NOTHING, {}) && roots == rest + owed
    ensures Releasing(store, rest, owed, {})
  {
    forall x: nat
      ensures rest[x] + owed[x] + Sum(NestedIn(store, {}))[x] == if x in store then store[x].refs else 0
    {
      assert roots[x] + NOTHING[x] + Sum(NestedIn(store, {}))[x] == if x in store then store[x].refs else 0;
    }
  }

  // Releases done: what remains is in order for the holders that remain.
  lemma SettledAgain(before: Store, after: Store, roots: multiset<nat>, rank: map<nat, nat>, now: nat)
    requires Ranked(before, {}, rank, now) && Kept(before, after) && Releasing(after, roots, NOTHING, {})
    ensures Settled(after, roots, rank, now)
  {
    hide Ranked, Kept, Releasing;
    KeptKeepsRanked(before, after, rank, now);
  }

  lemma HolderIsAlive(store: Store, roots: multiset<nat>, rank: map<nat, nat>, now: nat, d: nat)
    requires Settled(store, roots, rank, now) && d in roots
    ensures d in store
  {
    HeldIsAlive(store, roots, NOTHING, {}, d);
  }

  lemma OwedInstead(store: Store, before: multiset<nat>, after: multiset<nat>, owed: multiset<nat>,
                    rank: map<nat, nat>, now: nat)
    requires Settled(store, before, rank, now) && before == after + owed
    ensures Releasing(store, after, NOTHING + owed, {}) && Ranked(store, {}, rank, now)
  {
    hide Ranked, Releasing;
    GivenUp(store, before, after, owed);
    assert NOTHING + owed == owed;
  }

  lemma SettledWithOneMore(store: Store, roots: multiset<nat>, d: nat, rank: map<nat, nat>, now: nat)
    requires Settled(store, roots, rank, now) && d in store
    ensures Settled(store[d := store[d].(refs := store[d].refs + 1)], roots + multiset{d}, rank, now)
  {
    hide Ranked, Kept, Releasing;
    Retained(store, roots, d);
    KeptKeepsRanked(store, store[d := store[d].(refs := store[d].refs + 1)], rank, now);
  }

  lemma CreatedKeepsRanked(store: Store, d: nat, desc: Desc, rank: map<nat, nat>, now: nat)
    requires Ranked(store, {}, rank, now) && d !in store && d !in rank && desc.fields == []
    ensures !desc.finalized ==> Ranked(store[d := desc], {}, rank, now)
    ensures desc.finalized ==> Ranked(store[d := desc], {}, rank[d := now], now + 1)
  {
  }

  lemma CreatedSettled(store: Store, roots: multiset<nat>, d: nat, desc: Desc, rank: map<nat, nat>, now: nat)
    requires Settled(store, roots, rank, now) && d !in store && d !in rank
    requires desc.fields == [] && desc.refs == 1
    ensures !desc.finalized ==> Settled(store[d := desc], roots + multiset{d}, rank, now)
    ensures desc.finalized ==> Settled(store[d := desc], roots + multiset{d}, rank[d := now], now + 1)
  {
    hide Ranked, Releasing;
    CreatedKeepsRanked(store, d, desc, rank, now);
    Created(store, roots, d, desc);
  }

  lemma FieldSettled(a: Store, b: Store, roots: multiset<nat>, p: nat, field: Option<nat>, rank: map<nat, nat>, now: nat)
    requires Settled(a, roots, rank, now) && FieldStep(a, b, p, field) && !a[p].finalized
    requires field.Some? ==> a[field.value].finalized
    ensures Settled(b, roots, rank, now)
  {
    hide Ranked, Releasing;
    FieldAdded(a, b, roots, p, field);
    FieldKeepsRanked(a, b, p, field, rank, now);
  }

  lemma FinalizedSettled(store: Store, roots: multiset<nat>, d: nat, rank: map<nat, nat>, now: nat)
    requires Settled(store, roots, rank, now) && d in store && !store[d].finalized
    ensures Settled(store[d := store[d].(finalized := true)], roots, rank[d := now], now + 1)
  {
    hide Ranked, Releasing;
    SameCounts(store, store[d := store[d].(finalized := true)], roots);
    FinalizedKeepsRanked(store, d, rank, now);
  }
}
