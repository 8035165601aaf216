/**
 Graphs as an edge list, walks and distances: what runtime_ext/uxgraph/uxgraph_igraph.c is about.
 */
module GraphWalks {

  // `both` says that edges may be walked in either direction.
  datatype Net = Net(size: nat, edges: seq<(nat, nat)>, both: bool)

  ghost predicate WellFormed(g: Net) {
    forall e :: 0 <= e < |g.edges| ==> g.edges[e].0 < g.size && g.edges[e].1 < g.size
  }

  predicate Links(edge: (nat, nat), v: nat, u: nat, both: bool) {
    (edge.0 == v && edge.1 == u) || (both && edge.1 == v && edge.0 == u)
  }

  ghost predicate LinkedBefore(g: Net, v: nat, u: nat, count: nat)
    requires count <= |g.edges|
  {
    exists e :: 0 <= e < count && Links(g.edges[e], v, u, g.both)
  }

  ghost predicate Adjacent(g: Net, v: nat, u: nat) {
    LinkedBefore(g, v, u, |g.edges|)
  }

  // There is a walk of n edges from s to u.
  ghost predicate Walk(g: Net, s: nat, u: nat, n: nat)
    decreases n
  {
    if n == 0 then s == u && s < g.size
    else exists w: nat :: Walk(g, s, w, n - 1) && Adjacent(g, w, u)
  }

  ghost predicate Connected(g: Net, s: nat, u: nat) {
    exists n: nat :: Walk(g, s, u, n)
  }

  // d is the length of a shortest walk, or -1 when there is none.
  ghost predicate IsDistance(g: Net, s: nat, u: nat, d: int) {
    if d < 0 then d == -1 && !Connected(g, s, u)
    else Walk(g, s, u, d) && forall n: nat :: Walk(g, s, u, n) ==> d <= n
  }

  // The answer to a question about any two numbers: -1 also when one of them is no vertex.
  ghost predicate Answers(g: Net, source: int, target: int, d: int) {
    if 0 <= source < g.size && 0 <= target < g.size then IsDistance(g, source, target, d) else d == -1
  }

  lemma DistanceIsUnique(g: Net, s: nat, u: nat, d: int, e: int)
    requires IsDistance(g, s, u, d) && IsDistance(g, s, u, e)
    ensures d == e
  {
  }

  lemma WalkExtends(g: Net, s: nat, w: nat, u: nat, n: nat)
    requires Walk(g, s, w, n) && Adjacent(g, w, u)
    ensures Walk(g, s, u, n + 1)
  {
    assert Walk(g, s, w, n + 1 - 1) && Adjacent(g, w, u);
  }

  // ---------------------------------------------------------------- breadth-first search

  ghost predicate Found(dist: seq<int>, u: nat) {
    u < |dist| && dist[u] >= 0
  }

  // The queue holds every vertex that was found, once, in the order of its distance; what was found is
  // really that far away.
  ghost predicate QueueOk(g: Net, s: nat, dist: seq<int>, q: seq<nat>) {
    |dist| == g.size && Listed(dist, q) && Measured(g, s, dist)
  }

  // The queue lists the found vertices once, nearest first.
  ghost predicate Listed(dist: seq<int>, q: seq<nat>) {
    && (forall i, j :: 0 <= i < j < |q| ==> q[i] != q[j])
    && (forall i :: 0 <= i < |q| ==> Found(dist, q[i]))
    && (forall u: nat :: Found(dist, u) ==> u in q)
    && (forall i, j :: 0 <= i <= j < |q| ==> dist[q[i]] <= dist[q[j]])
  }

  // Every distance is -1 or the length of a walk.
  ghost predicate Measured(g: Net, s: nat, dist: seq<int>) {
    && (forall u: nat :: u < |dist| ==> dist[u] == -1 || (dist[u] >= 0 && Walk(g, s, u, dist[u])))
    && Found(dist, s) && dist[s] == 0
  }

  // The neighbours of v over the first `count` edges have been found, at most one step further.
  ghost predicate Explored(g: Net, dist: seq<int>, v: nat, count: nat)
    requires count <= |g.edges|
  {
    v < |dist| && forall u: nat :: LinkedBefore(g, v, u, count) ==> Found(dist, u) && dist[u] <= dist[v] + 1
  }

  // Before the queue is read at `head`: what lies before it is explored, and the last vertex found is at
  // most one step further than the next one.
  ghost predicate HeadOk(g: Net, dist: seq<int>, q: seq<nat>, head: nat) {
    && head <= |q|
    && (forall i :: 0 <= i < |q| ==> q[i] < |dist|)
    && (forall i :: 0 <= i < head ==> Explored(g, dist, q[i], |g.edges|))
    && (head < |q| ==> dist[q[|q| - 1]] <= dist[q[head]] + 1)
  }

  lemma DistinctFit(q: seq<nat>, n: nat)
    requires forall i, j :: 0 <= i < j < |q| ==> q[i] != q[j]
    requires forall i :: 0 <= i < |q| ==> q[i] < n
    ensures |q| <= n
  {
    var s := Elements(q);
    DistinctCount(q);
    Interval(n);
    assert s <= UpTo(n);
    assert UpTo(n) == s + (UpTo(n) - s);
  }

  function Elements(q: seq<nat>): set<nat> {
    set i | 0 <= i < |q| :: q[i]
  }

  lemma DistinctCount(q: seq<nat>)
    requires forall i, j :: 0 <= i < j < |q| ==> q[i] != q[j]
    ensures |Elements(q)| == |q|
  {
    if q == [] {
      assert Elements(q) == {};
    } else {
      var n := |q| - 1;
      DistinctCount(q[..n]);
      assert Elements(q) == Elements(q[..n]) + {q[n]};
    }
  }

  function UpTo(n: nat): set<nat> {
    if n == 0 then {} else UpTo(n - 1) + {n - 1}
  }

  lemma Interval(n: nat)
    ensures |UpTo(n)| == n && forall k: nat :: k in UpTo(n) <==> k < n
  {
    if n > 0 {
      Interval(n - 1);
    }
  }

  // A vertex that is not yet found leaves room in the queue for it.
  lemma RoomForOneMore(g: Net, s: nat, dist: seq<int>, q: seq<nat>, u: nat)
    requires QueueOk(g, s, dist, q) && u < g.size && !Found(dist, u)
    ensures |q| < g.size
  {
    var longer := q + [u];
    forall i, j | 0 <= i < j < |longer| ensures longer[i] != longer[j] {
      assert Found(dist, q[i]);
    }
    forall i | 0 <= i < |longer| ensures longer[i] < g.size {
    }
    DistinctFit(longer, g.size);
  }

  // What has been found for a vertex at the head of the queue, or before it, cannot be improved.
  lemma {:induction false} NothingIsNearer(g: Net, s: nat, dist: seq<int>, q: seq<nat>, head: nat, u: nat, n: nat)
    requires WellFormed(g) && QueueOk(g, s, dist, q) && HeadOk(g, dist, q, head)
    requires Walk(g, s, u, n) && (head < |q| ==> n <= dist[q[head]])
    ensures Found(dist, u) && dist[u] <= n
    decreases n
  {
    if n > 0 {
      var w: nat :| Walk(g, s, w, n - 1) && Adjacent(g, w, u);
      NothingIsNearer(g, s, dist, q, head, w, n - 1);
      var i :| 0 <= i < |q| && q[i] == w;
      assert i < head;
      assert Explored(g, dist, q[i], |g.edges|);
    }
  }

  // When the queue is empty every distance is final.
  lemma SearchIsComplete(g: Net, s: nat, dist: seq<int>, q: seq<nat>, u: nat)
    requires WellFormed(g) && QueueOk(g, s, dist, q) && HeadOk(g, dist, q, |q|) && u < g.size
    ensures IsDistance(g, s, u, dist[u])
  {
    forall n: nat | Walk(g, s, u, n) ensures Found(dist, u) && dist[u] <= n {
      NothingIsNearer(g, s, dist, q, |q|, u, n);
    }
  }

  // The search starts with the source alone.
  lemma SearchStarts(g: Net, s: nat, dist: seq<int>)
    requires WellFormed(g) && s < g.size && |dist| == g.size && dist[s] == 0
    requires forall u: nat :: u < |dist| && u != s ==> dist[u] == -1
    ensures InOrder(g, s, Search(dist, [s]), 0)
  {
    assert Walk(g, s, s, 0);
    assert [s][0] == s;
  }

  // When the target is at the head its distance is final, although the search stops early.
  lemma TargetIsFinal(g: Net, s: nat, dist: seq<int>, q: seq<nat>, head: nat)
    requires WellFormed(g) && QueueOk(g, s, dist, q) && HeadOk(g, dist, q, head) && head < |q|
    ensures IsDistance(g, s, q[head], dist[q[head]])
  {
    var u := q[head];
    forall n: nat | Walk(g, s, u, n) ensures dist[u] <= n {
      if n < dist[u] {
        NothingIsNearer(g, s, dist, q, head, u, n);
      }
    }
  }

  // ---------------------------------------------------------------- one edge of the inner loop

  // The vertex that edge e leads to from v, or -1.
  function Other(edge: (nat, nat), v: nat, both: bool): (u: int)
    ensures forall x: nat :: Links(edge, v, x, both) <==> u == x
  {
    if edge.0 == v then edge.1 else if both && edge.1 == v then edge.0 else -1
  }

  lemma AlreadyFound(g: Net, s: nat, dist: seq<int>, q: seq<nat>, h: nat, e: nat)
    requires QueueOk(g, s, dist, q) && HeadOk(g, dist, q, h) && h < |q| && e < |g.edges|
    requires Explored(g, dist, q[h], e)
    requires var u := Other(g.edges[e], q[h], g.both); u < 0 || Found(dist, u)
    ensures Explored(g, dist, q[h], e + 1)
  {
    var v := q[h];
    forall x: nat | LinkedBefore(g, v, x, e + 1) ensures Found(dist, x) && dist[x] <= dist[v] + 1 {
      if !LinkedBefore(g, v, x, e) {
        var i :| 0 <= i < e + 1 && Links(g.edges[i], v, x, g.both);
        assert i == e;
        var j :| 0 <= j < |q| && q[j] == x;
      }
    }
  }

  datatype Search = Search(dist: seq<int>, queue: seq<nat>)

  // At the outer loop, before the queue is read at `head`.
  ghost predicate InOrder(g: Net, s: nat, st: Search, head: nat) {
    WellFormed(g) && QueueOk(g, s, st.dist, st.queue) && HeadOk(g, st.dist, st.queue, head)
  }

  // In the inner loop: the first e edges at the head of the queue have been looked at.
  ghost predicate AtEdge(g: Net, s: nat, st: Search, h: nat, e: nat) {
    InOrder(g, s, st, h) && h < |st.queue| && e <= |g.edges| && Explored(g, st.dist, st.queue[h], e)
  }

  // The edge leads to a vertex that has not been found yet.
  ghost predicate LeadsToNew(g: Net, s: nat, dist: seq<int>, q: seq<nat>, h: nat, e: nat, u: nat) {
    && QueueOk(g, s, dist, q) && HeadOk(g, dist, q, h) && h < |q| && e < |g.edges|
    && u == Other(g.edges[e], q[h], g.both) && u < |dist| && !Found(dist, u)
  }

  lemma DiscoveredIsListed(dist: seq<int>, q: seq<nat>, u: nat, d: int)
    requires Listed(dist, q) && u < |dist| && !Found(dist, u) && d >= 0
    requires forall i :: 0 <= i < |q| ==> Found(dist, q[i]) && dist[q[i]] <= d
    ensures Listed(dist[u := d], q + [u])
  {
    var after := dist[u := d];
    var longer := q + [u];
    forall i | 0 <= i < |q| ensures longer[i] != u && after[longer[i]] == dist[q[i]] {
      assert Found(dist, q[i]);
    }
    forall x: nat | Found(after, x) ensures x in longer {
      assert x == u || Found(dist, x);
      assert longer[|q|] == u;
    }
  }

  lemma DiscoveredInOrder(g: Net, s: nat, dist: seq<int>, q: seq<nat>, h: nat, e: nat, u: nat)
    requires LeadsToNew(g, s, dist, q, h, e, u)
    ensures var after := dist[u := dist[q[h]] + 1];
            QueueOk(g, s, after, q + [u])
  {
    hide Explored, Walk;
    var v := q[h];
    assert Adjacent(g, v, u) by {
      assert Links(g.edges[e], v, u, g.both);
    }
    WalkExtends(g, s, v, u, dist[v]);
    hide Adjacent;
    DiscoveredIsListed(dist, q, u, dist[v] + 1);
    hide Listed;
  }

  lemma DiscoveredBehindHead(g: Net, s: nat, dist: seq<int>, q: seq<nat>, h: nat, e: nat, u: nat)
    requires LeadsToNew(g, s, dist, q, h, e, u)
    ensures var after := dist[u := dist[q[h]] + 1];
            HeadOk(g, after, q + [u], h)
  {
    var v := q[h];
    var after := dist[u := dist[v] + 1];
    var longer := q + [u];
    forall i | 0 <= i < h ensures Explored(g, after, longer[i], |g.edges|) {
      StillExplored(g, dist, q[i], |g.edges|, u, dist[v] + 1);
    }
    assert Found(dist, v);
  }

  lemma Discovered(g: Net, s: nat, dist: seq<int>, q: seq<nat>, h: nat, e: nat, u: nat)
    requires LeadsToNew(g, s, dist, q, h, e, u) && Explored(g, dist, q[h], e)
    ensures |q| < g.size
    ensures var after := dist[u := dist[q[h]] + 1];
            QueueOk(g, s, after, q + [u]) && HeadOk(g, after, q + [u], h) && Explored(g, after, q[h], e + 1)
  {
    RoomForOneMore(g, s, dist, q, u);
    DiscoveredInOrder(g, s, dist, q, h, e, u);
    DiscoveredBehindHead(g, s, dist, q, h, e, u);
    NewlyFound(g, s, dist, q, h, e, u);
  }

  lemma StillExplored(g: Net, dist: seq<int>, v: nat, count: nat, u: nat, d: int)
    requires count <= |g.edges| && Explored(g, dist, v, count) && u < |dist| && !Found(dist, u) && Found(dist, v) && d >= 0
    ensures Explored(g, dist[u := d], v, count)
  {
    var after := dist[u := d];
    forall x: nat | LinkedBefore(g, v, x, count) ensures Found(after, x) && after[x] <= after[v] + 1 {
      assert Found(dist, x);
    }
  }

  lemma NewlyFound(g: Net, s: nat, dist: seq<int>, q: seq<nat>, h: nat, e: nat, u: nat)
    requires QueueOk(g, s, dist, q) && HeadOk(g, dist, q, h) && h < |q| && e < |g.edges|
    requires u == Other(g.edges[e], q[h], g.both) && u < |dist| && !Found(dist, u)
    requires Explored(g, dist, q[h], e)
    ensures var after := dist[u := dist[q[h]] + 1];
            Explored(g, after, q[h], e + 1)
  {
    var v := q[h];
    var after := dist[u := dist[v] + 1];
    StillExplored(g, dist, v, e, u, dist[v] + 1);
    forall x: nat | LinkedBefore(g, v, x, e + 1) ensures Found(after, x) && after[x] <= after[v] + 1 {
      if !LinkedBefore(g, v, x, e) {
        var i :| 0 <= i < e + 1 && Links(g.edges[i], v, x, g.both);
        assert i == e;
      }
    }
  }

  // What one edge does to the search at the head of the queue ...
  function Look(g: Net, st: Search, h: nat, e: nat): Search {
    if h < |st.queue| && e < |g.edges| && st.queue[h] < |st.dist| then
      var v := st.queue[h];
      var u := Other(g.edges[e], v, g.both);
      if 0 <= u < |st.dist| && st.dist[u] < 0 then Search(st.dist[u := st.dist[v] + 1], st.queue + [u]) else st
    else st
  }

  // ... and what the first `count` edges do.
  function LookUpTo(g: Net, st: Search, h: nat, count: nat): Search {
    if count == 0 then st else Look(g, LookUpTo(g, st, h, count - 1), h, count - 1)
  }

  lemma LookKeepsOrder(g: Net, s: nat, st: Search, h: nat, e: nat)
    requires AtEdge(g, s, st, h, e) && e < |g.edges|
    ensures AtEdge(g, s, Look(g, st, h, e), h, e + 1)
  {
    hide HeadOk, Explored, LinkedBefore;
    var u := Other(g.edges[e], st.queue[h], g.both);
    assert u < |st.dist| && st.queue[h] < |st.dist|;
    hide QueueOk, Found, Other;
    if u >= 0 && st.dist[u] < 0 {
      Discovered(g, s, st.dist, st.queue, h, e, u);
    } else {
      AlreadyFound(g, s, st.dist, st.queue, h, e);
    }
  }

  lemma OneMoreEdge(g: Net, s: nat, st: Search, next: Search, h: nat, count: nat)
    requires 0 < count <= |g.edges| && AtEdge(g, s, st, h, count - 1) && next == Look(g, st, h, count - 1)
    ensures AtEdge(g, s, next, h, count)
  {
    LookKeepsOrder(g, s, st, h, count - 1);
  }

  lemma LookHasRoom(g: Net, s: nat, st: Search, h: nat, e: nat)
    requires AtEdge(g, s, st, h, e) && e < |g.edges|
    ensures Look(g, st, h, e) == st || |st.queue| < g.size
  {
    var u := Other(g.edges[e], st.queue[h], g.both);
    if u >= 0 && st.dist[u] < 0 {
      RoomForOneMore(g, s, st.dist, st.queue, u);
    }
  }

  lemma {:induction false} LookUpToKeepsOrder(g: Net, s: nat, st: Search, h: nat, count: nat)
    requires AtEdge(g, s, st, h, 0) && count <= |g.edges|
    ensures AtEdge(g, s, LookUpTo(g, st, h, count), h, count)
  {
    if count > 0 {
      LookUpToKeepsOrder(g, s, st, h, count - 1);
      OneMoreEdge(g, s, LookUpTo(g, st, h, count - 1), LookUpTo(g, st, h, count), h, count);
    }
  }

  lemma {:induction false} LookingAppends(g: Net, st: Search, h: nat, count: nat)
    ensures st.queue <= LookUpTo(g, st, h, count).queue && |LookUpTo(g, st, h, count).dist| == |st.dist|
  {
    if count > 0 {
      LookingAppends(g, st, h, count - 1);
    }
  }

  // The arrays are large enough for what the next edge finds.
  ghost predicate HasRoom(g: Net, st: Search, h: nat, e: nat) {
    var now := LookUpTo(g, st, h, e);
    Look(g, now, h, e) == now || |now.queue| < g.size
  }

  lemma AlwaysRoom(g: Net, s: nat, st: Search, h: nat)
    requires AtEdge(g, s, st, h, 0)
    ensures forall e: nat :: e < |g.edges| ==> HasRoom(g, st, h, e)
  {
    forall e: nat | e < |g.edges| ensures HasRoom(g, st, h, e) {
      LookUpToKeepsOrder(g, s, st, h, e);
      LookHasRoom(g, s, LookUpTo(g, st, h, e), h, e);
    }
  }

  // All edges at the head done: the next vertex is read.
  lemma RoundKeepsOrder(g: Net, s: nat, st: Search, h: nat)
    requires InOrder(g, s, st, h) && h < |st.queue|
    ensures InOrder(g, s, LookUpTo(g, st, h, |g.edges|), h + 1)
    ensures forall e: nat :: e < |g.edges| ==> HasRoom(g, st, h, e)
  {
    AlwaysRoom(g, s, st, h);
    LookUpToKeepsOrder(g, s, st, h, |g.edges|);
    var next := LookUpTo(g, st, h, |g.edges|);
    HeadMoves(g, s, next.dist, next.queue, h);
  }

  // After the vertex at the head has been explored the next one is read.
  lemma HeadMoves(g: Net, s: nat, dist: seq<int>, q: seq<nat>, h: nat)
    requires QueueOk(g, s, dist, q) && HeadOk(g, dist, q, h) && h < |q|
    requires Explored(g, dist, q[h], |g.edges|)
    ensures HeadOk(g, dist, q, h + 1)
  {
  }
}
