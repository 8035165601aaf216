/**
 The wait-for graph of the lock table and its cycle detector (cycle_locked in
 native/uxb_runtime/uxb_runtime_sync.cpp).

 A task has at most one wait edge, to a lock or to a task; a lock edge leads on to the owner of that
 lock at the moment of the walk. So the graph is a partial function `Succ`, and it changes both when an
 edge is written and when a lock changes hands.
 */
module WaitGraph {
  import opened Basics
  import opened LockTable

  // MAX_STEPS of the loop in cycle_locked.
  const CAP: nat := 1000000

  function EdgeTarget(t: Table, e: WaitEdge): Option<nat> {
    match e
    case OnTask(k) => Some(k)
    case OnLock(id) => if Owner(t, id) >= 0 then Some(Owner(t, id)) else None
  }

  // The task that `key` waits for, if any.
  function Succ(t: Table, key: nat): Option<nat> {
    if key in t.edges then EdgeTarget(t, t.edges[key]) else None
  }

  // The task reached from `key` after n steps.
  function Iter(t: Table, key: nat, n: nat): Option<nat>
    decreases n
  {
    if n == 0 then Some(key)
    else
      match Succ(t, key)
      case None => None
      case Some(k) => Iter(t, k, n - 1)
  }

  ghost predicate Reaches(t: Table, from: nat, to: nat) {
    exists n: nat :: Iter(t, from, n) == Some(to)
  }

  // No task waits, directly or through others, for itself.
  ghost predicate NoCycle(t: Table) {
    forall k: nat, n: nat :: n > 0 ==> Iter(t, k, n) != Some(k)
  }

  // Every walk along wait edges comes to an end.
  ghost predicate Ends(t: Table, key: nat, n: nat)
    decreases n
  {
    match Succ(t, key)
    case None => true
    case Some(k) => n > 0 && Ends(t, k, n - 1)
  }

  ghost predicate Finite(t: Table, key: nat) {
    exists n: nat :: Ends(t, key, n)
  }

  ghost predicate Acyclic(t: Table) {
    forall k: nat :: Finite(t, k)
  }

  // cycle_locked as a value: does the walk from `from` meet `me` within `steps` rounds?
  function Walk(t: Table, from: nat, me: nat, steps: nat): bool
    decreases steps
  {
    if steps == 0 then false
    else if from == me then true
    else
      match Succ(t, from)
      case None => false
      case Some(k) => Walk(t, k, me, steps - 1)
  }

  function CycleLocked(t: Table, from: nat, me: nat): bool {
    Walk(t, from, me, CAP)
  }

  // ---------------------------------------------------------------- walks

  lemma {:induction false} WalkFinds(t: Table, from: nat, me: nat, steps: nat, n: nat)
    requires n < steps && Iter(t, from, n) == Some(me)
    ensures Walk(t, from, me, steps)
    decreases n
  {
    if from != me {
      WalkFinds(t, Succ(t, from).value, me, steps - 1, n - 1);
    }
  }

  lemma {:induction false} WalkMisses(t: Table, from: nat, me: nat, steps: nat)
    requires forall n: nat :: n < steps ==> Iter(t, from, n) != Some(me)
    ensures !Walk(t, from, me, steps)
    decreases steps
  {
    if steps > 0 {
      var none: nat := 0;
      assert Iter(t, from, none) != Some(me);
      if Succ(t, from).Some? {
        forall n: nat | n < steps - 1 ensures Iter(t, Succ(t, from).value, n) != Some(me) {
          assert Iter(t, from, n + 1) != Some(me);
        }
        WalkMisses(t, Succ(t, from).value, me, steps - 1);
      }
    }
  }

  lemma {:induction false} IterAppend(t: Table, k: nat, m: nat, n: nat)
    requires Iter(t, k, m).Some?
    ensures Iter(t, k, m + n) == Iter(t, Iter(t, k, m).value, n)
    decreases m
  {
    if m > 0 {
      IterAppend(t, Succ(t, k).value, m - 1, n);
    }
  }

  lemma {:induction false} EndsMonotone(t: Table, k: nat, m: nat, n: nat)
    requires m <= n && Ends(t, k, m)
    ensures Ends(t, k, n)
    decreases m
  {
    if Succ(t, k).Some? {
      EndsMonotone(t, Succ(t, k).value, m - 1, n - 1);
    }
  }

  lemma {:induction false} EndedWalkIsOver(t: Table, k: nat, n: nat, m: nat)
    requires Ends(t, k, n) && m > n
    ensures Iter(t, k, m) == None
    decreases n
  {
    if Succ(t, k).Some? {
      EndedWalkIsOver(t, Succ(t, k).value, n - 1, m - 1);
    }
  }

  lemma {:induction false} CycleNeverEnds(t: Table, k: nat, n: nat, rounds: nat)
    requires n > 0 && Iter(t, k, n) == Some(k)
    ensures exists m: nat :: m >= rounds && Iter(t, k, m) == Some(k)
    decreases rounds
  {
    if rounds == 0 {
      assert Iter(t, k, n) == Some(k);
    } else {
      CycleNeverEnds(t, k, n, rounds - 1);
      var m: nat :| m >= rounds - 1 && Iter(t, k, m) == Some(k);
      IterAppend(t, k, m, n);
      assert Iter(t, k, m + n) == Some(k);
    }
  }

  // ---------------------------------------------------------------- counting

  lemma SubsetCardinality(a: set<nat>, b: set<nat>)
    requires a <= b
    ensures |a| <= |b|
  {
    assert b == a + (b - a);
  }

  // ---------------------------------------------------------------- acyclic means: no cycle

  lemma AcyclicHasNoCycle(t: Table)
    requires Acyclic(t)
    ensures NoCycle(t)
  {
    forall k: nat, n: nat | n > 0 && Iter(t, k, n) == Some(k) ensures false {
      assert Finite(t, k);
      var d: nat :| Ends(t, k, d);
      CycleNeverEnds(t, k, n, d + 1);
      var m: nat :| m >= d + 1 && Iter(t, k, m) == Some(k);
      EndedWalkIsOver(t, k, d, m);
    }
  }

  ghost predicate LeadsTo(t: Table, x: nat, k: nat) {
    exists n: nat :: n > 0 && Iter(t, x, n) == Some(k)
  }

  // A walk that has left the tasks of `seen` behind it, all of which lead to where it stands.
  lemma {:induction false} WalkRunsOut(t: Table, k: nat, seen: set<nat>)
    requires NoCycle(t) && seen <= t.edges.Keys
    requires forall x :: x in seen ==> LeadsTo(t, x, k)
    ensures Finite(t, k)
    decreases |t.edges.Keys| - |seen|
  {
    if k !in t.edges || Succ(t, k).None? {
      assert Ends(t, k, 0);
    } else {
      assert k !in seen;
      var s := Succ(t, k).value;
      forall x | x in seen + {k} ensures LeadsTo(t, x, s) {
        if x in seen {
          var n: nat :| n > 0 && Iter(t, x, n) == Some(k);
          IterAppend(t, x, n, 1);
          assert Iter(t, k, 1) == Some(s);
          assert n + 1 > 0 && Iter(t, x, n + 1) == Some(s);
        } else {
          assert 1 > 0 && Iter(t, k, 1) == Some(s);
        }
      }
      SubsetCardinality(seen + {k}, t.edges.Keys);
      WalkRunsOut(t, s, seen + {k});
      var n: nat :| Ends(t, s, n);
      assert Ends(t, k, n + 1);
    }
  }

  lemma AcyclicIffNoCycle(t: Table)
    ensures Acyclic(t) <==> NoCycle(t)
  {
    if Acyclic(t) {
      AcyclicHasNoCycle(t);
    }
    if NoCycle(t) {
      forall k: nat ensures Finite(t, k) {
        WalkRunsOut(t, k, {});
      }
    }
  }

  // ---------------------------------------------------------------- how sections change the graph

  // In u a walk follows t, or it stops, or it steps to a task that does not wait.
  ghost predicate Truncates(t: Table, u: Table) {
    forall k: nat ::
      || Succ(u, k) == Succ(t, k)
      || Succ(u, k).None?
      || Succ(u, Succ(u, k).value).None?
  }

  lemma {:induction false} TruncatedWalkEnds(t: Table, u: Table, k: nat, n: nat)
    requires Truncates(t, u) && Ends(t, k, n)
    ensures Ends(u, k, n + 1)
    decreases n
  {
    if Succ(u, k).Some? && Succ(u, k) == Succ(t, k) {
      TruncatedWalkEnds(t, u, Succ(t, k).value, n - 1);
    }
  }

  lemma TruncationKeepsAcyclic(t: Table, u: Table)
    requires Acyclic(t) && Truncates(t, u)
    ensures Acyclic(u)
  {
    forall k: nat ensures Finite(u, k) {
      assert Finite(t, k);
      var n: nat :| Ends(t, k, n);
      TruncatedWalkEnds(t, u, k, n);
    }
  }

  lemma RemovingEdgeKeepsAcyclic(t: Table, key: nat)
    requires Acyclic(t)
    ensures Acyclic(t.(edges := t.edges - {key}))
  {
    TruncationKeepsAcyclic(t, t.(edges := t.edges - {key}));
  }

  lemma ReachesThroughSucc(t: Table, k: nat, s: nat, me: nat)
    requires Succ(t, k) == Some(s) && Reaches(t, s, me)
    ensures Reaches(t, k, me)
  {
    var m: nat :| Iter(t, s, m) == Some(me);
    assert Iter(t, k, m + 1) == Some(me);
  }

  lemma {:induction false} AvoidingWalkIsSame(t: Table, u: Table, me: nat, k: nat, n: nat)
    requires forall x: nat :: x != me ==> Succ(u, x) == Succ(t, x)
    requires !Reaches(t, k, me) && Ends(t, k, n)
    ensures Ends(u, k, n)
    decreases n
  {
    assert k != me by {
      var none: nat := 0;
      assert Iter(t, k, none) == Some(k);
    }
    if Succ(t, k).Some? {
      var s := Succ(t, k).value;
      if Reaches(t, s, me) {
        ReachesThroughSucc(t, k, s, me);
        assert false;
      }
      AvoidingWalkIsSame(t, u, me, s, n - 1);
    }
  }

  lemma {:induction false} WalkThroughNewEdge(t: Table, u: Table, me: nat, x: nat, k: nat, n: nat, m: nat)
    requires forall y: nat :: y != me ==> Succ(u, y) == Succ(t, y)
    requires Succ(u, me) == Some(x) && Ends(u, x, m) && Ends(t, k, n)
    ensures Ends(u, k, n + m + 1)
    decreases n
  {
    if k == me {
      EndsMonotone(u, x, m, n + m);
    } else if Succ(t, k).Some? {
      WalkThroughNewEdge(t, u, me, x, Succ(t, k).value, n - 1, m);
    }
  }

  // An edge to a task from which the waiter cannot be reached closes no cycle.
  lemma SafeEdgeKeepsAcyclic(t: Table, me: nat, e: WaitEdge, x: nat)
    requires Acyclic(t) && me !in t.edges
    requires EdgeTarget(t, e) == Some(x) && !Reaches(t, x, me)
    ensures Acyclic(t.(edges := t.edges[me := e]))
  {
    var u := t.(edges := t.edges[me := e]);
    assert Finite(t, x);
    var m: nat :| Ends(t, x, m);
    AvoidingWalkIsSame(t, u, me, x, m);
    forall k: nat ensures Finite(u, k) {
      assert Finite(t, k);
      var n: nat :| Ends(t, k, n);
      WalkThroughNewEdge(t, u, me, x, k, n, m);
    }
  }

  // Up to the waiter itself a walk does not notice the new edge.
  lemma {:induction false} WalkBeforeNewEdge(t: Table, u: Table, me: nat, k: nat, n: nat)
    requires forall y: nat :: y != me ==> Succ(u, y) == Succ(t, y)
    requires Iter(t, k, n) == Some(me)
    ensures exists m: nat :: m <= n && Iter(u, k, m) == Some(me)
    decreases n
  {
    if k == me {
      var none: nat := 0;
      assert none <= n && Iter(u, k, none) == Some(me);
    } else {
      var s := Succ(t, k).value;
      WalkBeforeNewEdge(t, u, me, s, n - 1);
      var m: nat :| m <= n - 1 && Iter(u, s, m) == Some(me);
      assert m + 1 <= n && Iter(u, k, m + 1) == Some(me);
    }
  }

  lemma DetectorClearsEdge(t: Table, me: nat, e: WaitEdge, x: nat)
    requires Acyclic(t) && me !in t.edges && EdgeTarget(t, e) == Some(x)
    requires !Reaches(t, x, me)
    ensures var u := t.(edges := t.edges[me := e]);
            !CycleLocked(u, x, me) && NoCycle(u) && Acyclic(u)
  {
    var u := t.(edges := t.edges[me := e]);
    SafeEdgeKeepsAcyclic(t, me, e, x);
    AcyclicHasNoCycle(u);
    forall n: nat | n < CAP ensures Iter(u, x, n) != Some(me) {
      assert Iter(u, me, n + 1) == Iter(u, x, n);
    }
    WalkMisses(u, x, me, CAP);
  }

  // The walk finds a task exactly when it is fewer than CAP steps away, whatever the graph looks like.
  lemma DetectorSeesNear(u: Table, x: nat, me: nat)
    ensures CycleLocked(u, x, me) <==> exists n: nat :: n < CAP && Iter(u, x, n) == Some(me)
  {
    if n: nat :| n < CAP && Iter(u, x, n) == Some(me) {
      WalkFinds(u, x, me, CAP, n);
    } else {
      WalkMisses(u, x, me, CAP);
    }
  }

  // `me` lies on a cycle of exactly n tasks.
  ghost predicate CycleOf(t: Table, me: nat, n: nat) {
    && n > 0 && Iter(t, me, n) == Some(me)
    && forall m: nat :: 0 < m < n ==> Iter(t, me, m) != Some(me)
  }

  lemma {:induction false} ShortestCycle(t: Table, me: nat, n: nat) returns (least: nat)
    requires n > 0 && Iter(t, me, n) == Some(me)
    ensures least <= n && CycleOf(t, me, least)
    decreases n
  {
    least := n;
    if m: nat :| 0 < m < n && Iter(t, me, m) == Some(me) {
      least := ShortestCycle(t, me, m);
    }
  }

  // The verdict of cycle_locked on a new edge me -> e in an acyclic graph of any size. It never reports
  // falsely; an edge that it clears leaves the graph acyclic or closes a cycle of more than CAP tasks; a
  // cycle of n tasks is reported exactly when n <= CAP.
  lemma DetectorVerdict(t: Table, me: nat, e: WaitEdge, x: nat)
    requires Acyclic(t) && EdgeTarget(t, e) == Some(x)
    ensures var u := t.(edges := t.edges[me := e]);
            && (CycleLocked(u, x, me) ==> !NoCycle(u))
            && (NoCycle(u) ==> !CycleLocked(u, x, me) && Acyclic(u))
            && (!NoCycle(u) ==> exists n: nat :: CycleOf(u, me, n))
            && (forall n: nat :: CycleOf(u, me, n) ==> !NoCycle(u) && (CycleLocked(u, x, me) <==> n <= CAP))
  {
    var u := t.(edges := t.edges[me := e]);
    var t0 := t.(edges := t.edges - {me});
    RemovingEdgeKeepsAcyclic(t, me);
    assert t0.edges[me := e] == t.edges[me := e];
    assert Succ(u, me) == Some(x);
    if Reaches(t0, x, me) {
      var n: nat :| Iter(t0, x, n) == Some(me);
      WalkBeforeNewEdge(t0, u, me, x, n);
      var m: nat :| m <= n && Iter(u, x, m) == Some(me);
      assert Iter(u, me, m + 1) == Some(me);
      var least := ShortestCycle(u, me, m + 1);
      assert CycleOf(u, me, least);
    } else {
      DetectorClearsEdge(t0, me, e, x);
    }
    forall n: nat | CycleOf(u, me, n) ensures !NoCycle(u) && (CycleLocked(u, x, me) <==> n <= CAP) {
      CycleVerdict(u, me, x, n);
    }
  }

  lemma CycleVerdict(u: Table, me: nat, x: nat, n: nat)
    requires Succ(u, me) == Some(x) && CycleOf(u, me, n)
    ensures !NoCycle(u) && (CycleLocked(u, x, me) <==> n <= CAP)
  {
    var last: nat := n - 1;
    assert Iter(u, me, n) == Iter(u, x, last);
    assert !NoCycle(u);
    if n <= CAP {
      WalkFinds(u, x, me, CAP, last);
    } else {
      forall m: nat | m < CAP ensures Iter(u, x, m) != Some(me) {
        assert Iter(u, me, m + 1) == Iter(u, x, m);
      }
      WalkMisses(u, x, me, CAP);
    }
  }

  // The verdict on a new edge is right exactly when the edge closes no cycle or one of at most CAP tasks.
  lemma DetectorIsRightIff(t: Table, me: nat, e: WaitEdge, x: nat)
    requires Acyclic(t) && EdgeTarget(t, e) == Some(x)
    ensures var u := t.(edges := t.edges[me := e]);
            (CycleLocked(u, x, me) <==> !NoCycle(u))
            <==> NoCycle(u) || exists n: nat :: n <= CAP && CycleOf(u, me, n)
  {
    DetectorVerdict(t, me, e, x);
    var u := t.(edges := t.edges[me := e]);
    if !NoCycle(u) {
      var n: nat :| CycleOf(u, me, n);
      assert CycleLocked(u, x, me) <==> n <= CAP;
      if CycleLocked(u, x, me) {
        assert n <= CAP && CycleOf(u, me, n);
      } else {
        forall m: nat ensures !(m <= CAP && CycleOf(u, me, m)) {
        }
      }
    }
  }

  // No task is on a cycle of more than CAP tasks.
  ghost predicate ShortCycles(t: Table) {
    forall k: nat, n: nat :: CycleOf(t, k, n) ==> n <= CAP
  }

  // An edge that has been cleared keeps the graph acyclic unless it has closed a longer cycle.
  lemma ClearedEdgeIsSafe(t: Table, me: nat, e: WaitEdge, x: nat)
    requires Acyclic(t) && EdgeTarget(t, e) == Some(x)
    requires var u := t.(edges := t.edges[me := e]); !CycleLocked(u, x, me) && ShortCycles(u)
    ensures Acyclic(t.(edges := t.edges[me := e]))
  {
    DetectorVerdict(t, me, e, x);
  }

  lemma SameSteps(t: Table, u: Table, k: nat, n: nat)
    requires forall x: nat :: Succ(t, x) == Succ(u, x)
    ensures Iter(t, k, n) == Iter(u, k, n)
    decreases n
  {
    if n > 0 && Succ(t, k).Some? {
      SameSteps(t, u, Succ(t, k).value, n - 1);
    }
  }

  lemma SameShortCycles(t: Table, u: Table)
    requires ShortCycles(t) && forall x: nat :: Succ(t, x) == Succ(u, x)
    ensures ShortCycles(u)
  {
    forall k: nat, n: nat | CycleOf(u, k, n) ensures n <= CAP {
      SameSteps(t, u, k, n);
      forall m: nat | 0 < m < n ensures Iter(t, k, m) != Some(k) {
        SameSteps(t, u, k, m);
        assert Iter(u, k, m) != Some(k);
      }
      assert CycleOf(t, k, n);
    }
  }

  // The tasks met in the first n steps of a walk.
  ghost function Passed(t: Table, k: nat, n: nat): set<nat> {
    set m: nat | m < n && Iter(t, k, m).Some? :: Iter(t, k, m).value
  }

  lemma PassedOneMore(t: Table, k: nat, n: nat, more: nat, x: nat)
    requires more == n + 1 && Iter(t, k, n) == Some(x)
    ensures Passed(t, k, more) == Passed(t, k, n) + {x}
  {
    hide Iter;
    assert x in Passed(t, k, more);
    forall y: nat | y in Passed(t, k, more) ensures y in Passed(t, k, n) + {x} {
      var m: nat :| m < more && Iter(t, k, m) == Some(y);
      if m < n {
        assert y in Passed(t, k, n);
      }
    }
  }

  lemma NotMetTwice(t: Table, k: nat, n: nat, i: nat, j: nat)
    requires CycleOf(t, k, n) && j < i < n && Iter(t, k, i).Some?
    ensures Iter(t, k, j) != Iter(t, k, i)
  {
    if Iter(t, k, j) == Iter(t, k, i) {
      IterAppend(t, k, i, n - i);
      IterAppend(t, k, j, n - i);
    }
  }

  // On a cycle they are all different, and all of them wait.
  lemma {:induction false} PassedCounts(t: Table, k: nat, n: nat, m: nat)
    requires CycleOf(t, k, n) && m <= n
    ensures |Passed(t, k, m)| == m && Passed(t, k, m) <= t.edges.Keys
    decreases m
  {
    if m > 0 {
      var last: nat := m - 1;
      PassedCounts(t, k, n, last);
      StillWalking(t, k, n, last);
      var x := Iter(t, k, last).value;
      PassedOneMore(t, k, last, m, x);
      forall j: nat | j < last ensures Iter(t, k, j) != Some(x) {
        NotMetTwice(t, k, n, last, j);
      }
      assert x !in Passed(t, k, last);
    }
  }

  lemma {:induction false} StillWalking(t: Table, k: nat, n: nat, m: nat)
    requires n > m && Iter(t, k, n).Some?
    ensures Iter(t, k, m).Some? && Iter(t, k, m).value in t.edges
    decreases m
  {
    if m > 0 {
      StillWalking(t, Succ(t, k).value, n - 1, m - 1);
    }
  }

  // A cycle has no more tasks than there are edges.
  lemma FewEdgesAreShort(t: Table)
    requires |t.edges| <= CAP
    ensures ShortCycles(t)
  {
    forall k: nat, n: nat | CycleOf(t, k, n) ensures n <= CAP {
      PassedCounts(t, k, n, n);
      SubsetCardinality(Passed(t, k, n), t.edges.Keys);
    }
  }

  // So in a graph of at most CAP edges it reports exactly the edges that close a cycle, and otherwise the
  // graph stays acyclic.
  lemma DetectorIsExact(t: Table, me: nat, e: WaitEdge, x: nat)
    requires Acyclic(t) && EdgeTarget(t, e) == Some(x)
    requires |t.edges[me := e]| <= CAP
    ensures var u := t.(edges := t.edges[me := e]);
            && (CycleLocked(u, x, me) <==> !NoCycle(u))
            && (!CycleLocked(u, x, me) ==> Acyclic(u))
  {
    var u := t.(edges := t.edges[me := e]);
    FewEdgesAreShort(u);
    DetectorVerdict(t, me, e, x);
  }

  // ---------------------------------------------------------------- the step cap

  function Below(n: nat): set<nat> {
    if n == 0 then {} else Below(n - 1) + {n - 1}
  }

  lemma {:induction false} BelowIsInterval(n: nat)
    ensures |Below(n)| == n && forall k: nat :: k in Below(n) <==> k < n
  {
    if n > 0 {
      BelowIsInterval(n - 1);
    }
  }

  // Tasks 0, 1, ..., n, each waiting for the next one; the last waits for task 0.
  function Ring(n: nat): Table {
    var tasks := Below(n + 1);
    EMPTY.(edges := map k: nat | k in tasks :: OnTask(if k == n then 0 else k + 1))
  }

  lemma {:induction false} RingIter(n: nat, k: nat, i: nat)
    requires k + i <= n
    ensures Iter(Ring(n), k, i) == Some(k + i)
    decreases i
  {
    BelowIsInterval(n + 1);
    if i > 0 {
      RingIter(n, k + 1, i - 1);
    }
  }

  lemma {:induction false} RingWalk(n: nat, k: nat, steps: nat)
    requires k <= n
    ensures Walk(Ring(n), k, n, steps) <==> n - k < steps
    decreases steps
  {
    BelowIsInterval(n + 1);
    if steps > 0 && k < n {
      RingWalk(n, k + 1, steps - 1);
    }
  }

  // A ring of n + 1 waiting tasks is a cycle that a walk of n rounds does not see.
  lemma RingIsMissed(n: nat, u: Table)
    requires u == Ring(n)
    ensures |u.edges| == n + 1 && !NoCycle(u)
    ensures !Walk(u, 0, n, n)
  {
    RingWalk(n, 0, n);
    RingIter(n, 0, n);
    BelowIsInterval(n + 1);
    assert u.edges.Keys == Below(n + 1);
    assert Succ(u, n) == Some(0);
    IterAppend(u, 0, n, 1);
    assert Iter(u, n, 1) == Iter(u, 0, 0);
    assert Iter(u, 0, n + 1) == Some(0);
  }

  // The bound of DetectorIsExact cannot be raised: a ring of CAP + 1 waiting tasks goes unreported.
  lemma LongerRingIsMissed()
    ensures exists u: Table, me: nat ::
              |u.edges| == CAP + 1 && me in u.edges && !NoCycle(u)
              && EdgeTarget(u, u.edges[me]) == Some(0) && !CycleLocked(u, 0, me)
  {
    var n: nat := CAP;
    var u := Ring(n);
    RingIsMissed(n, u);
    BelowIsInterval(n + 1);
    RingClosesAt(n, u);
  }

  lemma RingClosesAt(n: nat, u: Table)
    requires u == Ring(n)
    ensures n in u.edges && EdgeTarget(u, u.edges[n]) == Some(0)
  {
    BelowIsInterval(n + 1);
  }
}
