/**
 The graph object of runtime_ext/uxgraph/uxgraph_igraph.c: two edge arrays that grow by doubling, and
 breadth-first search over them. Allocation succeeds; vertex numbers are ints of the caller.
 */
module Graph {
  import opened GraphWalks

  class UxGraph {
    var directed: bool
    var vertices: nat
    var edgeCount: nat
    var from: array<nat>
    var to: array<nat>

    ghost predicate Valid()
      reads this, from, to
    {
      && from.Length == to.Length && edgeCount <= from.Length && from != to
      && forall e :: 0 <= e < edgeCount ==> from[e] < vertices && to[e] < vertices
    }

    ghost function Edges(): (s: seq<(nat, nat)>)
      requires Valid()
      reads this, from, to
    {
      seq(edgeCount, e requires 0 <= e < edgeCount && Valid() reads this, from, to => (from[e], to[e]))
    }

    ghost function Value(weak: bool): Net
      requires Valid()
      reads this, from, to
    {
      Net(vertices, Edges(), !directed || weak)
    }

    predicate IsVertex(v: int)
      reads this
    {
      0 <= v < vertices
    }

    constructor (count: int, isDirected: bool)
      ensures Valid() && fresh(from) && fresh(to)
      ensures Edges() == [] && directed == isDirected && vertices == if count < 0 then 0 else count
    {
      directed, vertices, edgeCount := isDirected, if count < 0 then 0 else count, 0;
      from, to := new nat[0], new nat[0];
    }

    method ReserveEdges(need: nat)
      requires Valid()
      modifies this`from, this`to
      ensures Valid() && Edges() == old(Edges()) && need <= from.Length
      ensures from == old(from) || (fresh(from) && fresh(to))
      ensures to == old(to) || (fresh(from) && fresh(to))
    {
      if need <= from.Length {
        return;
      }
      var capacity := if from.Length > 0 then from.Length * 2 else 16;
      while capacity < need
        invariant capacity > from.Length
      {
        capacity := capacity * 2;
      }
      var newFrom, newTo := new nat[capacity], new nat[capacity];
      for e := 0 to edgeCount
        invariant Valid() && Edges() == old(Edges()) && from == old(from) && to == old(to)
        invariant forall i :: 0 <= i < e ==> newFrom[i] == from[i] && newTo[i] == to[i]
      {
        newFrom[e], newTo[e] := from[e], to[e];
      }
      from, to := newFrom, newTo;
      assert Edges() == old(Edges());
    }

    // uxgraph_add_edge: edges between existing vertices are appended, others are refused.
    method AddEdge(a: int, b: int) returns (ok: bool)
      requires Valid()
      modifies this, from, to
      ensures Valid() && vertices == old(vertices) && directed == old(directed)
      ensures ok == (old(IsVertex(a)) && old(IsVertex(b)))
      ensures Edges() == if ok then old(Edges()) + [(a, b)] else old(Edges())
    {
      if !IsVertex(a) || !IsVertex(b) {
        return false;
      }
      ReserveEdges(edgeCount + 1);
      from[edgeCount] := a;
      to[edgeCount] := b;
      edgeCount := edgeCount + 1;
      assert Edges() == old(Edges()) + [(a, b)];
      return true;
    }

    // One edge in the inner loop of uxg_bfs_distance, at the vertex v = q[head].
    method VisitEdge(e: nat, v: nat, weak: bool, dist: array<int>, q: array<nat>, ghost head: nat, tail: nat)
      returns (newTail: nat)
      requires Valid() && q != from && q != to && dist.Length == vertices
      requires e < edgeCount && head < tail <= q.Length && q[head] == v < vertices
      requires Look(Value(weak), Search(dist[..], q[..tail]), head, e).queue == q[..tail] || tail < q.Length
      modifies dist, q
      ensures Valid() && Value(weak) == old(Value(weak))
      ensures tail <= newTail <= q.Length
      ensures Search(dist[..], q[..newTail]) == Look(Value(weak), old(Search(dist[..], q[..tail])), head, e)
    {
      ghost var g, st := Value(weak), Search(dist[..], q[..tail]);
      assert g.edges[e] == (from[e], to[e]);
      var u := -1;
      if from[e] == v {
        u := to[e];
      } else if (!directed || weak) && to[e] == v {
        u := from[e];
      }
      assert u == Other(g.edges[e], v, g.both);
      newTail := tail;
      if u >= 0 && dist[u] < 0 {
        assert Look(g, st, head, e).queue == st.queue + [u];
        dist[u] := dist[v] + 1;
        q[newTail] := u;
        newTail := newTail + 1;
        assert q[..newTail] == st.queue + [u];
      }
    }

    // The inner loop over all edges.
    method Explore(v: nat, weak: bool, dist: array<int>, q: array<nat>, ghost head: nat, tail: nat)
      returns (newTail: nat)
      requires Valid() && q != from && q != to && dist.Length == q.Length == vertices
      requires head < tail <= q.Length && q[head] == v < vertices
      requires forall e: nat :: e < edgeCount ==> HasRoom(Value(weak), Search(dist[..], q[..tail]), head, e)
      modifies dist, q
      ensures Valid() && Value(weak) == old(Value(weak))
      ensures tail <= newTail <= q.Length
      ensures Search(dist[..], q[..newTail])
              == LookUpTo(Value(weak), old(Search(dist[..], q[..tail])), head, |Edges()|)
    {
      newTail := tail;
      ghost var g, st := Value(weak), Search(dist[..], q[..tail]);
      for e := 0 to edgeCount
        invariant Valid() && Value(weak) == g
        invariant tail <= newTail <= q.Length
        invariant Search(dist[..], q[..newTail]) == LookUpTo(g, st, head, e)
      {
        assert HasRoom(g, st, head, e);
        LookingAppends(g, st, head, e);
        assert q[..newTail][head] == v;
        newTail := VisitEdge(e, v, weak, dist, q, head, newTail);
      }
    }

    // The outer loop of uxg_bfs_distance: until the queue is empty or the target is at its head.
    method RunQueue(source: nat, target: int, weak: bool, dist: array<int>, q: array<nat>) returns (early: bool)
      requires Valid() && q != from && q != to && dist.Length == q.Length == vertices
      requires source < vertices && q[0] == source
      requires forall u: nat :: u < vertices ==> dist[u] == if u == source then 0 else -1
      modifies dist, q
      ensures Valid() && Value(weak) == old(Value(weak))
      ensures early ==> 0 <= target < vertices && IsDistance(Value(weak), source, target, dist[target])
      ensures !early ==> forall u: nat :: u < vertices ==> IsDistance(Value(weak), source, u, dist[u])
    {
      ghost var g := Value(weak);
      var head, tail := 0, 1;
      ghost var st := Search(dist[..], q[..tail]);
      SearchStarts(g, source, dist[..]);
      assert q[..1] == [source];
      while head < tail
        invariant Valid() && Value(weak) == g
        invariant head <= tail <= q.Length
        invariant st == Search(dist[..], q[..tail]) && InOrder(g, source, st, head)
        decreases vertices - head
      {
        var v := q[head];
        assert st.queue[head] == v;
        if target >= 0 && v == target {
          TargetIsFinal(g, source, st.dist, st.queue, head);
          return true;
        }
        RoundKeepsOrder(g, source, st, head);
        tail := Explore(v, weak, dist, q, head, tail);
        st := LookUpTo(g, st, head, |g.edges|);
        head := head + 1;
      }
      forall u: nat | u < vertices ensures IsDistance(g, source, u, dist[u]) {
        SearchIsComplete(g, source, st.dist, st.queue, u);
      }
      return false;
    }

    // uxg_bfs_distance, with `dist` as the array that the source allocates and copies to dist_out.
    method BfsDistance(source: int, target: int, weak: bool) returns (d: int, dist: array<int>)
      requires Valid()
      ensures fresh(dist)
      ensures !IsVertex(source) || (target >= 0 && !IsVertex(target)) ==> d == -1
      ensures IsVertex(source) && IsVertex(target) ==> IsDistance(Value(weak), source, target, d)
      ensures IsVertex(source) && target < 0 ==> d == 0
      ensures IsVertex(source) && target < 0 ==>
                dist.Length == vertices
                && forall u: nat :: u < vertices ==> IsDistance(Value(weak), source, u, dist[u])
    {
      dist := new int[vertices](_ => -1);
      if !IsVertex(source) || (target >= 0 && !IsVertex(target)) {
        return -1, dist;
      }
      var q := new nat[vertices];
      q[0] := source;
      dist[source] := 0;
      var _ := RunQueue(source, target, weak, dist, q);
      d := if target >= 0 then dist[target] else 0;
    }

    // uxgraph_shortest_distance. With a negative target and a valid source it answers 0 instead of -1.
    method ShortestDistance(source: int, target: int) returns (d: int)
      requires Valid()
      ensures IsVertex(source) && IsVertex(target) ==> IsDistance(Value(false), source, target, d)
      ensures !IsVertex(source) || target >= vertices ==> d == -1
      ensures Answers(Value(false), source, target, d) <==> !(IsVertex(source) && target < 0)
      ensures IsVertex(source) && target < 0 ==> d == 0
    {
      var dist;
      d, dist := BfsDistance(source, target, false);
    }

    // uxgraph_path_exists.
    method PathExists(source: int, target: int) returns (r: bool)
      requires Valid()
      ensures IsVertex(source) && IsVertex(target) ==> (r <==> Connected(Value(false), source, target))
      ensures !IsVertex(source) || target >= vertices ==> !r
      ensures IsVertex(source) && target < 0 ==> r
    {
      var d := ShortestDistance(source, target);
      r := d >= 0;
    }

    // uxgraph_bfs_distances: the distance of every vertex, or no vector for an invalid source.
    method BfsDistances(source: int) returns (v: array?<int>)
      requires Valid()
      ensures v == null <==> !IsVertex(source)
      ensures v != null ==> v.Length == vertices && forall u: nat :: u < vertices ==> IsDistance(Value(false), source, u, v[u])
    {
      if !IsVertex(source) {
        return null;
      }
      var d;
      d, v := BfsDistance(source, -1, false);
    }
  }
}
