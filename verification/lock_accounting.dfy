/**
 What the critical sections of the lock table keep: the accounting of owners, depths, held counts and
 explicit stacks, the all-or-nothing rule of SYNC_ENTER, and who may change an owner.
 */
module LockAccounting {
  import opened LockTable

  // ---------------------------------------------------------------- the order of locks

  lemma InsertKeeps(x: nat, s: seq<nat>)
    requires Increasing(s)
    ensures Increasing(Insert(x, s))
    ensures forall y :: y in Insert(x, s) <==> y == x || y in s
  {
    if s == [] || x < s[0] {
    } else if x == s[0] {
    } else {
      InsertKeeps(x, s[1..]);
      var r := Insert(x, s[1..]);
      assert forall y :: y in s <==> y == s[0] || y in s[1..];
      forall i, j | 0 <= i < j < |[s[0]] + r| ensures ([s[0]] + r)[i] < ([s[0]] + r)[j] {
        assert r[j - 1] in r;
      }
    }
  }

  lemma {:induction false} OrderedIsSortedAndComplete(ids: seq<nat>)
    ensures Increasing(Ordered(ids))
    ensures forall y :: y in Ordered(ids) <==> y in ids
  {
    if ids != [] {
      var n := |ids| - 1;
      OrderedIsSortedAndComplete(ids[..n]);
      InsertKeeps(ids[n], Ordered(ids[..n]));
      assert ids == ids[..n] + [ids[n]];
    }
  }

  // ---------------------------------------------------------------- owners

  predicate Ours(owner: int, key: nat) {
    owner == -1 || owner == key
  }

  // The step of a section that runs for `key`: edges stay, only locks that are free or owned by `key`
  // change hands, and every lock that becomes free was announced to its waiters.
  ghost predicate Moves(t: Table, u: Table, key: nat) {
    && t.edges == u.edges
    && t.notified <= u.notified
    && (forall id: nat :: Rec(u, id) == Rec(t, id)
                          || (Ours(Owner(t, id), key) && Ours(Owner(u, id), key)))
    && (forall id: nat :: Owner(t, id) >= 0 && Owner(u, id) < 0 ==> id in u.notified)
  }

  lemma MovesTrans(t: Table, u: Table, v: Table, key: nat)
    requires Moves(t, u, key) && Moves(u, v, key)
    ensures Moves(t, v, key)
  {
    forall id: nat | Owner(t, id) >= 0 && Owner(v, id) < 0 ensures id in v.notified {
      assert Owner(u, id) >= 0 || id in u.notified;
    }
  }

  lemma SameLocksMove(t: Table, t1: Table, u: Table, u1: Table, key: nat)
    requires Moves(t1, u, key)
    requires t.locks == t1.locks && t.edges == t1.edges && t.notified == t1.notified
    requires u.locks == u1.locks && u.edges == u1.edges && u.notified == u1.notified
    ensures Moves(t, u1, key)
  {
    forall id: nat ensures Rec(t, id) == Rec(t1, id) && Rec(u, id) == Rec(u1, id) {
    }
  }

  lemma FlatAppend(ss: seq<seq<nat>>, entry: seq<nat>)
    ensures Flat(ss + [entry]) == Flat(ss) + entry
  {
    assert (ss + [entry])[..|ss|] == ss;
  }

  lemma CountAppend(a: seq<nat>, b: seq<nat>, id: nat)
    ensures Count(a + b, id) == Count(a, id) + Count(b, id)
  {
    if b == [] {
      assert a + b == a;
    } else {
      assert (a + b)[..|a + b| - 1] == a + b[..|b| - 1];
      CountAppend(a, b[..|b| - 1], id);
    }
  }

  lemma CountIsMembership(s: seq<nat>, id: nat)
    ensures Count(s, id) > 0 <==> id in s
  {
    if s != [] {
      CountIsMembership(s[..|s| - 1], id);
      assert s == s[..|s| - 1] + [s[|s| - 1]];
    }
  }

  // ---------------------------------------------------------------- one lock

  // Two sets that differ at most in one element.
  lemma SetsAgreeBut(a: set<nat>, b: set<nat>, id: nat)
    requires forall i: nat :: i != id ==> (i in a <==> i in b)
    ensures (id in a <==> id in b) ==> a == b
    ensures id in a && id !in b ==> |a| == |b| + 1
    ensures id !in a && id in b ==> |a| == |b| - 1
  {
    if id in a <==> id in b {
      assert forall i: nat :: i in a <==> i in b;
    } else if id in a {
      assert forall i: nat :: i in a <==> i in b + {id};
      assert a == b + {id};
    } else {
      assert forall i: nat :: i in b <==> i in a + {id};
      assert b == a + {id};
    }
  }

  // When one lock at most changes its owner, so does each task's holding of that lock only.
  lemma OwnedSetsAgree(t: Table, u: Table, k: nat, id: nat)
    requires forall i: nat :: i != id ==> Owner(u, i) == Owner(t, i)
    ensures |OwnedBy(u, k)| - |OwnedBy(t, k)|
            == (if Owner(u, id) == k then 1 else 0) - (if Owner(t, id) == k then 1 else 0)
  {
    forall i: nat | i != id ensures i in OwnedBy(u, k) <==> i in OwnedBy(t, k) {
      assert Owner(u, i) == Owner(t, i);
    }
    assert id in OwnedBy(u, k) <==> Owner(u, id) == k;
    assert id in OwnedBy(t, k) <==> Owner(t, id) == k;
    SetsAgreeBut(OwnedBy(u, k), OwnedBy(t, k), id);
  }

  lemma HeldAfterGain(t: Table, u: Table, key: nat, id: nat)
    requires HeldOk(t)
    requires Owner(t, id) < 0 && Owner(u, id) == key
    requires forall i: nat :: i != id ==> Owner(u, i) == Owner(t, i)
    requires u.held == t.held[key := HeldCount(t, key) + 1]
    ensures HeldOk(u)
  {
    forall k: nat ensures HeldCount(u, k) == |OwnedBy(u, k)| {
      assert HeldCount(t, k) == |OwnedBy(t, k)|;
      OwnedSetsAgree(t, u, k, id);
    }
  }

  lemma HeldAfterLoss(t: Table, u: Table, key: nat, id: nat)
    requires HeldOk(t)
    requires Owner(t, id) == key && Owner(u, id) < 0
    requires forall i: nat :: i != id ==> Owner(u, i) == Owner(t, i)
    requires u.held == DropOne(t.held, key)
    ensures HeldOk(u)
  {
    forall k: nat ensures HeldCount(u, k) == |OwnedBy(u, k)| {
      assert HeldCount(t, k) == |OwnedBy(t, k)|;
      OwnedSetsAgree(t, u, k, id);
    }
  }

  lemma HeldUnchanged(t: Table, u: Table)
    requires HeldOk(t)
    requires forall i: nat :: Owner(u, i) == Owner(t, i)
    requires u.held == t.held
    ensures HeldOk(u)
  {
    forall k: nat ensures HeldCount(u, k) == |OwnedBy(u, k)| {
      assert HeldCount(t, k) == |OwnedBy(t, k)|;
      OwnedSetsAgree(t, u, k, 0);
    }
  }

  lemma AcquireKeepsUses(t: Table, key: nat, id: nat, explicitly: bool, pending: seq<nat>)
    requires ExplicitOk(t, key, pending) && RecOk(Rec(t, id))
    requires TryAcquire(t, key, id, explicitly).Got?
    ensures ExplicitOk(TryAcquire(t, key, id, explicitly).t, key, if explicitly then pending + [id] else pending)
  {
    var u := TryAcquire(t, key, id, explicitly).t;
    var p := if explicitly then pending + [id] else pending;
    assert u.stacks == t.stacks && forall i: nat :: i != id ==> Rec(u, i) == Rec(t, i);
    assert Owner(u, id) == key && (Owner(t, id) == key || Owner(t, id) == -1);
    assert Rec(u, id).explicitDepth
        == (if Owner(t, id) == key then Rec(t, id).explicitDepth else 0) + if explicitly then 1 else 0;
    hide Flat, Rec, TryAcquire;
    forall k: nat, i: nat
      ensures Uses(u, k, i, key, p) == if Owner(u, i) == k then Rec(u, i).explicitDepth else 0
    {
      assert Uses(t, k, i, key, pending) == if Owner(t, i) == k then Rec(t, i).explicitDepth else 0;
      assert Owner(t, i) == Rec(t, i).owner && Owner(u, i) == Rec(u, i).owner;
      CountAppend(pending, [id], i);
      assert Count([id], i) == if i == id then 1 else 0;
    }
  }

  lemma AcquireKeepsMid(t: Table, key: nat, id: nat, explicitly: bool, pending: seq<nat>)
    requires MidOk(t, key, pending)
    requires TryAcquire(t, key, id, explicitly).Got?
    ensures var u := TryAcquire(t, key, id, explicitly).t;
            MidOk(u, key, if explicitly then pending + [id] else pending) && Moves(t, u, key)
  {
    hide ExplicitOk, HeldOk;
    var u := TryAcquire(t, key, id, explicitly).t;
    assert RecOk(Rec(t, id));
    AcquireKeepsUses(t, key, id, explicitly, pending);
    if Rec(t, id).owner == key {
      HeldUnchanged(t, u);
    } else {
      HeldAfterGain(t, u, key, id);
    }
  }

  lemma ReleaseKeepsUses(t: Table, key: nat, id: nat, explicitly: bool, pending: seq<nat>)
    requires ExplicitOk(t, key, pending) && RecOk(Rec(t, id))
    requires Release(t, key, id, explicitly).Ok?
    requires explicitly ==> pending != [] && pending[|pending| - 1] == id
    ensures ExplicitOk(Release(t, key, id, explicitly).t, key,
                       if explicitly then pending[..|pending| - 1] else pending)
  {
    var u := Release(t, key, id, explicitly).t;
    var p := if explicitly then pending[..|pending| - 1] else pending;
    assert u.stacks == t.stacks && forall i: nat :: i != id ==> Rec(u, i) == Rec(t, i);
    hide Flat;
    forall k: nat, i: nat
      ensures Uses(u, k, i, key, p) == if Owner(u, i) == k then Rec(u, i).explicitDepth else 0
    {
      assert Uses(t, k, i, key, pending) == if Owner(t, i) == k then Rec(t, i).explicitDepth else 0;
      if explicitly {
        assert pending == p + [id];
        CountAppend(p, [id], i);
        assert Count([id], i) == if i == id then 1 else 0;
      }
    }
  }

  lemma ReleaseKeepsMid(t: Table, key: nat, id: nat, explicitly: bool, pending: seq<nat>)
    requires MidOk(t, key, pending)
    requires Release(t, key, id, explicitly).Ok?
    requires explicitly ==> pending != [] && pending[|pending| - 1] == id
    ensures var u := Release(t, key, id, explicitly).t;
            MidOk(u, key, if explicitly then pending[..|pending| - 1] else pending) && Moves(t, u, key)
  {
    hide ExplicitOk, HeldOk;
    var u := Release(t, key, id, explicitly).t;
    assert RecOk(t.locks[id]);
    ReleaseKeepsUses(t, key, id, explicitly, pending);
    if Owner(u, id) == key {
      HeldUnchanged(t, u);
    } else {
      HeldAfterLoss(t, u, key, id);
    }
  }

  // ---------------------------------------------------------------- releasing several locks

  lemma SplitLast(base: seq<nat>, ids: seq<nat>)
    requires ids != []
    ensures base + ids == (base + ids[..|ids| - 1]) + [ids[|ids| - 1]]
  {
  }

  lemma {:induction false} ReleaseReversedKeepsMid(t: Table, key: nat, ids: seq<nat>, explicitly: bool, base: seq<nat>)
    requires MidOk(t, key, if explicitly then base + ids else base)
    ensures var r := ReleaseReversed(t, key, ids, explicitly);
            && (explicitly ==> r.Ok?)
            && (r.Ok? ==> MidOk(r.t, key, base) && Moves(t, r.t, key))
    decreases |ids|
  {
    if ids == [] {
      assert base + ids == base;
    } else {
      var n := |ids| - 1;
      if explicitly {
        SplitLast(base, ids);
        CountIsMembership(base + ids, ids[n]);
        assert Uses(t, key, ids[n], key, base + ids) > 0;
      }
      var r := Release(t, key, ids[n], explicitly);
      if r.Ok? {
        ReleaseKeepsMid(t, key, ids[n], explicitly, if explicitly then base + ids else base);
        assert explicitly ==> (base + ids)[..|base + ids| - 1] == base + ids[..n];
        ReleaseReversedKeepsMid(r.t, key, ids[..n], explicitly, base);
        var last := ReleaseReversed(r.t, key, ids[..n], explicitly);
        if last.Ok? {
          MovesTrans(t, r.t, last.t, key);
        }
      }
    }
  }

  // ---------------------------------------------------------------- the stacks

  lemma TotalPick(keys: set<nat>, m: map<nat, seq<seq<nat>>>, k: nat)
    requires keys <= m.Keys && k in keys
    ensures Total(keys, m) == |m[k]| + Total(keys - {k}, m)
    decreases |keys|
  {
    var j :| j in keys && Total(keys, m) == |m[j]| + Total(keys - {j}, m);
    if j != k {
      TotalPick(keys - {j}, m, k);
      TotalPick(keys - {k}, m, j);
      assert keys - {j} - {k} == keys - {k} - {j};
    }
  }

  lemma TotalFrame(keys: set<nat>, m: map<nat, seq<seq<nat>>>, n: map<nat, seq<seq<nat>>>)
    requires keys <= m.Keys && keys <= n.Keys
    requires forall k :: k in keys ==> m[k] == n[k]
    ensures Total(keys, m) == Total(keys, n)
    decreases |keys|
  {
    if keys != {} {
      var j :| j in keys;
      TotalPick(keys, m, j);
      TotalPick(keys, n, j);
      TotalFrame(keys - {j}, m, n);
    }
  }

  lemma TotalUpdate(m: map<nat, seq<seq<nat>>>, k: nat, v: seq<seq<nat>>)
    ensures var n := m[k := v];
            Total(n.Keys, n) == Total(m.Keys, m) + |v| - (if k in m then |m[k]| else 0)
  {
    var n := m[k := v];
    TotalPick(n.Keys, n, k);
    TotalFrame(m.Keys - {k}, m, n);
    assert n.Keys - {k} == m.Keys - {k};
    if k in m {
      TotalPick(m.Keys, m, k);
    } else {
      assert m.Keys - {k} == m.Keys;
    }
  }

  lemma TotalRemove(m: map<nat, seq<seq<nat>>>, k: nat)
    requires k in m
    ensures Total((m - {k}).Keys, m - {k}) == Total(m.Keys, m) - |m[k]|
  {
    TotalPick(m.Keys, m, k);
    TotalFrame(m.Keys - {k}, m, m - {k});
    assert (m - {k}).Keys == m.Keys - {k};
  }

  lemma PushKeepsUses(t: Table, key: nat, entry: seq<nat>)
    requires ExplicitOk(t, key, entry)
    ensures ExplicitOk(Push(t, key, entry), 0, [])
  {
    hide Flat;
    var u := Push(t, key, entry);
    FlatAppend(StackOf(t, key), entry);
    forall k: nat, id: nat
      ensures Uses(u, k, id, 0, []) == if Owner(u, id) == k then Rec(u, id).explicitDepth else 0
    {
      assert Uses(t, k, id, key, entry) == if Owner(t, id) == k then Rec(t, id).explicitDepth else 0;
      CountAppend(Flat(StackOf(t, key)), entry, id);
      assert k != key ==> StackOf(u, k) == StackOf(t, k);
    }
  }

  lemma PushKeepsOk(t: Table, key: nat, entry: seq<nat>)
    requires MidOk(t, key, entry) && StacksOk(t)
    ensures TableOk(Push(t, key, entry)) && Moves(t, Push(t, key, entry), key)
  {
    PushKeepsUses(t, key, entry);
    HeldUnchanged(t, Push(t, key, entry));
    TotalUpdate(t.stacks, key, StackOf(t, key) + [entry]);
    hide ExplicitOk, HeldOk, Total;
  }

  // Taking the last entry off the stack leaves its locks pending ...
  lemma PopStarts(t: Table, key: nat, rest: seq<seq<nat>>, entry: seq<nat>)
    requires TableOk(t) && StackOf(t, key) == rest + [entry]
    ensures MidOk(t.(stacks := t.stacks[key := rest], entries := t.entries - 1), key, [] + entry)
  {
    var mid := t.(stacks := t.stacks[key := rest], entries := t.entries - 1);
    HeldUnchanged(t, mid);
    FlatAppend(rest, entry);
    assert [] + entry == entry;
    forall k: nat, id: nat
      ensures Uses(mid, k, id, key, entry) == if Owner(mid, id) == k then Rec(mid, id).explicitDepth else 0
    {
      assert Uses(t, k, id, 0, []) == if Owner(t, id) == k then Rec(t, id).explicitDepth else 0;
      CountAppend(Flat(rest), entry, id);
    }
  }

  // ... and once they are released an empty stack is forgotten.
  lemma PopEnds(u: Table, key: nat)
    requires MidOk(u, key, []) && key in u.stacks
    requires forall k :: k in u.stacks && k != key ==> u.stacks[k] != []
    requires u.entries == Total(u.stacks.Keys, u.stacks)
    ensures TableOk(if u.stacks[key] == [] then u.(stacks := u.stacks - {key}) else u)
  {
    var v := if u.stacks[key] == [] then u.(stacks := u.stacks - {key}) else u;
    HeldUnchanged(u, v);
    if u.stacks[key] == [] {
      TotalRemove(u.stacks, key);
    }
    forall k: nat, id: nat
      ensures Uses(v, k, id, 0, []) == if Owner(v, id) == k then Rec(v, id).explicitDepth else 0
    {
      assert Uses(u, k, id, key, []) == if Owner(u, id) == k then Rec(u, id).explicitDepth else 0;
      assert StackOf(v, k) == StackOf(u, k);
    }
  }

  // Popping the last LOCK entry is never an internal error, and the accounting holds again.
  lemma PopKeepsOk(t: Table, key: nat)
    requires TableOk(t)
    ensures var r := PopExplicit(t, key);
            r.Ok? && TableOk(r.t) && Moves(t, r.t, key)
  {
    var st := StackOf(t, key);
    if st != [] {
      var rest := st[..|st| - 1];
      var entry := st[|st| - 1];
      var mid := t.(stacks := t.stacks[key := rest], entries := t.entries - 1);
      assert st == rest + [entry];
      PopStarts(t, key, rest, entry);
      ReleaseReversedKeepsMid(mid, key, entry, true, []);
      ReleaseKeepsStacks(mid, key, entry, true);
      TotalUpdate(t.stacks, key, rest);
      var done := ReleaseReversed(mid, key, entry, true).t;
      PopEnds(done, key);
      SameLocksMove(t, mid, done, PopExplicit(t, key).t, key);
    }
  }

  lemma {:induction false} PopToKeepsOk(t: Table, key: nat, mark: int)
    requires TableOk(t)
    ensures var r := PopTo(t, key, mark);
            && r.Ok? && TableOk(r.t) && Moves(t, r.t, key)
            && StackOf(r.t, key) == StackOf(t, key)[..Least(|StackOf(t, key)|, mark)]
            && (forall k: nat :: k != key ==> StackOf(r.t, k) == StackOf(t, k))
    decreases |StackOf(t, key)|
  {
    if |StackOf(t, key)| <= mark || StackOf(t, key) == [] {
    } else {
      PopKeepsOk(t, key);
      PopShortens(t, key);
      var u := PopExplicit(t, key).t;
      PopToKeepsOk(u, key, mark);
      MovesTrans(t, u, PopTo(u, key, mark).t, key);
    }
  }

  function Least(size: nat, mark: int): (n: nat)
    ensures n <= size
  {
    if mark <= 0 then 0 else if mark < size then mark else size
  }

  lemma SweepFrees(t: Table, key: nat)
    ensures forall id: nat :: Rec(Sweep(t, key), id) == if Owner(t, id) == key then FREE else Rec(t, id)
  {
  }

  lemma SweepKeepsUses(t: Table, key: nat)
    requires ExplicitOk(t, 0, []) && StackOf(t, key) == []
    ensures ExplicitOk(Sweep(t, key), 0, [])
  {
    SweepFrees(t, key);
    var u := Sweep(t, key);
    assert u.stacks == t.stacks;
    hide Sweep, Rec, Flat, Count;
    forall k: nat, id: nat
      ensures Uses(u, k, id, 0, []) == if Owner(u, id) == k then Rec(u, id).explicitDepth else 0
    {
      assert Uses(t, k, id, 0, []) == if Owner(t, id) == k then Rec(t, id).explicitDepth else 0;
      assert Uses(u, k, id, 0, []) == Uses(t, k, id, 0, []);
      StackSaysNone(t, key, id);
    }
  }

  lemma StackSaysNone(t: Table, key: nat, id: nat)
    requires StackOf(t, key) == []
    ensures Uses(t, key, id, 0, []) == 0
  {
  }

  lemma SweepKeepsOk(t: Table, key: nat)
    requires TableOk(t) && StackOf(t, key) == []
    ensures TableOk(Sweep(t, key)) && Moves(t, Sweep(t, key).(edges := t.edges), key)
    ensures forall id: nat :: Owner(Sweep(t, key), id) != key
  {
    hide ExplicitOk, HeldOk, Total;
    SweepFrees(t, key);
    SweepKeepsHeld(t, key);
    SweepKeepsUses(t, key);
  }

  // sync_release_all ends, never reports an internal error, and leaves the task without locks, LOCK
  // entries, held count and wait edge; the locks of all other tasks stay as they were.
  lemma ReleaseAllReleasesAll(t: Table, key: nat)
    requires TableOk(t)
    ensures var r := ReleaseAll(t, key);
            && r.Ok? && TableOk(r.t)
            && (forall id: nat :: Owner(r.t, id) != key)
            && StackOf(r.t, key) == [] && key !in r.t.held && r.t.edges == t.edges - {key}
            && Moves(t, r.t.(edges := t.edges), key)
            && (forall k: nat :: k != key ==> StackOf(r.t, k) == StackOf(t, k))
  {
    PopToKeepsOk(t, key, 0);
    var u := PopTo(t, key, 0).t;
    SweepKeepsOk(u, key);
    MovesTrans(t, u, Sweep(u, key).(edges := u.edges), key);
  }

  lemma SweepKeepsHeld(t: Table, key: nat)
    requires HeldOk(t)
    ensures HeldOk(Sweep(t, key))
  {
    var u := Sweep(t, key);
    forall k: nat ensures HeldCount(u, k) == |OwnedBy(u, k)| {
      assert HeldCount(t, k) == |OwnedBy(t, k)|;
      if k == key {
        forall id: nat ensures id !in OwnedBy(u, k) {
        }
        assert OwnedBy(u, k) == {};
      } else {
        forall id: nat ensures id in OwnedBy(u, k) <==> id in OwnedBy(t, k) {
        }
        assert OwnedBy(u, k) == OwnedBy(t, k);
      }
    }
  }

  // ---------------------------------------------------------------- SYNC_ENTER

  // Nothing that a task can observe of its own or another task's holdings differs.
  ghost predicate SameHolds(t: Table, u: Table) {
    && (forall id: nat :: Rec(u, id) == Rec(t, id))
    && u.held == t.held && u.stacks == t.stacks && u.entries == t.entries && u.edges == t.edges
  }

  lemma SameHoldsKeepsOk(t: Table, u: Table)
    requires TableOk(t) && SameHolds(t, u)
    ensures TableOk(u)
  {
    forall id: nat | id in u.locks ensures RecOk(u.locks[id]) {
      assert Rec(u, id) == Rec(t, id);
    }
    forall id: nat ensures Owner(u, id) == Owner(t, id) {
      assert Rec(u, id) == Rec(t, id);
    }
    HeldUnchanged(t, u);
    forall k: nat, id: nat
      ensures Uses(u, k, id, 0, []) == if Owner(u, id) == k then Rec(u, id).explicitDepth else 0
    {
      assert Uses(t, k, id, 0, []) == if Owner(t, id) == k then Rec(t, id).explicitDepth else 0;
      assert Rec(u, id) == Rec(t, id);
    }
  }

  lemma ReleaseUndoesAcquire(t: Table, key: nat, id: nat, explicitly: bool, u: Table)
    requires RecOk(Rec(t, id)) && forall k :: k in t.held ==> t.held[k] >= 1
    requires TryAcquire(t, key, id, explicitly).Got?
    requires SameHolds(TryAcquire(t, key, id, explicitly).t, u)
    ensures var r := Release(u, key, id, explicitly);
            r.Ok? && SameHolds(t, r.t)
  {
    var a := TryAcquire(t, key, id, explicitly).t;
    assert Rec(u, id) == Rec(a, id);
    var r := Release(u, key, id, explicitly);
    assert r.Ok?;
    forall i: nat ensures Rec(r.t, i) == Rec(t, i) {
      assert Rec(u, i) == Rec(a, i);
    }
    if Rec(t, id).owner != key {
      assert a.held == t.held[key := HeldCount(t, key) + 1];
      assert r.t.held == t.held;
    }
  }

  lemma {:induction false} ReleaseFirst(t: Table, key: nat, x: nat, ids: seq<nat>, explicitly: bool)
    requires ReleaseReversed(t, key, ids, explicitly).Ok?
    ensures ReleaseReversed(t, key, [x] + ids, explicitly)
            == Release(ReleaseReversed(t, key, ids, explicitly).t, key, x, explicitly)
    decreases |ids|
  {
    var all := [x] + ids;
    if ids == [] {
      assert all[..|all| - 1] == [];
    } else {
      assert all[..|all| - 1] == [x] + ids[..|ids| - 1];
      var r := Release(t, key, ids[|ids| - 1], explicitly);
      ReleaseFirst(r.t, key, x, ids[..|ids| - 1], explicitly);
    }
  }

  lemma ForeignLockKept(t: Table, u: Table, key: nat, id: nat)
    requires Moves(t, u, key) && Owner(u, id) >= 0 && Owner(u, id) != key
    ensures Owner(u, id) == Owner(t, id)
  {
    assert Rec(u, id) == Rec(t, id) || (Ours(Owner(t, id), key) && Ours(Owner(u, id), key));
  }

  lemma UndoFirst(t: Table, first: Table, stopped: Table, key: nat, id: nat, ids: seq<nat>, explicitly: bool)
    requires RecOk(Rec(t, id)) && forall k :: k in t.held ==> t.held[k] >= 1
    requires TryAcquire(t, key, id, explicitly) == Got(first)
    requires ReleaseReversed(stopped, key, ids, explicitly).Ok?
    requires SameHolds(first, ReleaseReversed(stopped, key, ids, explicitly).t)
    ensures var r := ReleaseReversed(stopped, key, [id] + ids, explicitly);
            r.Ok? && SameHolds(t, r.t)
  {
    hide TryAcquire, Release, ReleaseReversed, SameHolds, Rec, RecOk;
    ReleaseFirst(stopped, key, id, ids, explicitly);
    ReleaseUndoesAcquire(t, key, id, explicitly, ReleaseReversed(stopped, key, ids, explicitly).t);
  }

  lemma MidFacts(t: Table, key: nat, pending: seq<nat>, id: nat)
    requires MidOk(t, key, pending)
    ensures RecOk(Rec(t, id)) && forall k :: k in t.held ==> t.held[k] >= 1
  {
  }

  lemma AcquireFirst(t: Table, key: nat, ids: seq<nat>, i: nat, explicitly: bool)
    requires i <= |ids| && Acquire(t, key, ids, i, explicitly).Stopped?
    ensures i < |ids|
    ensures match TryAcquire(t, key, ids[i], explicitly)
            case Got(u) => Acquire(t, key, ids, i, explicitly) == Acquire(u, key, ids, i + 1, explicitly)
            case _ =>
              && Acquire(t, key, ids, i, explicitly) == Stopped(t, i)
              && Owner(t, ids[i]) >= 0 && Owner(t, ids[i]) != key
              && ReleaseReversed(t, key, ids[i..i], explicitly) == Ok(t) && SameHolds(t, t)
  {
  }

  // A stopped attempt, undone in reverse order, is the state it started from.
  lemma {:induction false} StoppedAttemptUndone(t: Table, key: nat, ids: seq<nat>, i: nat, explicitly: bool, pending: seq<nat>)
    requires i <= |ids| && MidOk(t, key, pending)
    requires Acquire(t, key, ids, i, explicitly).Stopped?
    ensures var a := Acquire(t, key, ids, i, explicitly);
            && i <= a.at < |ids|
            && Owner(t, ids[a.at]) >= 0 && Owner(t, ids[a.at]) != key
            && var r := ReleaseReversed(a.t, key, ids[i..a.at], explicitly);
               r.Ok? && SameHolds(t, r.t)
    decreases |ids| - i
  {
    AcquireFirst(t, key, ids, i, explicitly);
    hide Acquire, TryAcquire, ReleaseReversed, SameHolds, Rec, RecOk, Moves;
    var first := TryAcquire(t, key, ids[i], explicitly);
    if first.Got? {
      AcquireKeepsMid(t, key, ids[i], explicitly, pending);
      MidFacts(t, key, pending, ids[i]);
      hide MidOk;
      StoppedAttemptUndone(first.t, key, ids, i + 1, explicitly, if explicitly then pending + [ids[i]] else pending);
      var a := Acquire(first.t, key, ids, i + 1, explicitly);
      UndoFirst(t, first.t, a.t, key, ids[i], ids[i + 1..a.at], explicitly);
      assert ids[i..a.at] == [ids[i]] + ids[i + 1..a.at];
      ForeignLockKept(t, first.t, key, ids[a.at]);
    }
  }

  // All or nothing: when SYNC_ENTER has to wait, every owner, depth and held count, every LOCK entry
  // and every wait edge is what it was at the call, and the lock it waits for belongs to another task.
  lemma BlockedEnterIsNoOp(t: Table, key: nat, ids: seq<nat>, explicitly: bool)
    requires TableOk(t)
    requires Enter(t, key, ids, explicitly).Blocked?
    ensures var r := Enter(t, key, ids, explicitly);
            && SameHolds(t, r.t) && TableOk(r.t)
            && r.on in ids && Owner(t, r.on) >= 0 && Owner(t, r.on) != key
  {
    MidForAnyTask(t, 0, key);
    StoppedAttemptUndone(t, key, ids, 0, explicitly, []);
    var a := Acquire(t, key, ids, 0, explicitly);
    assert ids[0..a.at] == ids[..a.at];
    SameHoldsKeepsOk(t, Enter(t, key, ids, explicitly).t);
  }

  lemma MidForAnyTask(t: Table, who: nat, key: nat)
    requires MidOk(t, who, [])
    ensures MidOk(t, key, [])
  {
    forall k: nat, id: nat
      ensures Uses(t, k, id, key, []) == if Owner(t, id) == k then Rec(t, id).explicitDepth else 0
    {
      assert Uses(t, k, id, who, []) == if Owner(t, id) == k then Rec(t, id).explicitDepth else 0;
    }
  }

  lemma EnterIsNeverInternalError(t: Table, key: nat, ids: seq<nat>, explicitly: bool)
    requires TableOk(t)
    ensures !Enter(t, key, ids, explicitly).InternalError?
  {
    MidForAnyTask(t, 0, key);
    var a := Acquire(t, key, ids, 0, explicitly);
    if a.Stopped? {
      StoppedAttemptUndone(t, key, ids, 0, explicitly, []);
      assert ids[0..a.at] == ids[..a.at];
    }
  }

  // The record of a lock after its owner-to-be has entered once more.
  function Deeper(r: LockRec, key: nat, explicitly: bool): LockRec {
    if explicitly then r.(owner := key, explicitDepth := r.explicitDepth + 1)
    else r.(owner := key, autoDepth := r.autoDepth + 1)
  }

  // Whether `key` may take the lock without waiting or being diagnosed.
  predicate Takable(r: LockRec, key: nat, explicitly: bool) {
    r.owner == -1 || (r.owner == key && (explicitly ==> r.explicitDepth == 0))
  }

  lemma {:induction false} AcquireIffTakable(t: Table, key: nat, ids: seq<nat>, i: nat, explicitly: bool)
    requires i <= |ids| && Increasing(ids)
    requires forall id: nat :: RecOk(Rec(t, id))
    ensures Acquire(t, key, ids, i, explicitly).All?
            <==> forall j :: i <= j < |ids| ==> Takable(Rec(t, ids[j]), key, explicitly)
    decreases |ids| - i
  {
    if i < |ids| {
      assert RecOk(Rec(t, ids[i]));
      var first := TryAcquire(t, key, ids[i], explicitly);
      assert first.Got? <==> Takable(Rec(t, ids[i]), key, explicitly);
      if first.Got? {
        forall id: nat ensures RecOk(Rec(first.t, id)) {
          assert RecOk(Rec(t, id));
        }
        forall j | i < j < |ids| ensures Rec(first.t, ids[j]) == Rec(t, ids[j]) {
          assert ids[i] < ids[j];
        }
        AcquireIffTakable(first.t, key, ids, i + 1, explicitly);
      }
    }
  }

  lemma {:induction false} AcquireKeepsMids(t: Table, key: nat, ids: seq<nat>, i: nat, explicitly: bool, pending: seq<nat>)
    requires i <= |ids| && MidOk(t, key, pending)
    ensures var a := Acquire(t, key, ids, i, explicitly);
            a.All? ==>
              && MidOk(a.t, key, if explicitly then pending + ids[i..] else pending)
              && Moves(t, a.t, key) && a.t.stacks == t.stacks && a.t.entries == t.entries
    decreases |ids| - i
  {
    if i == |ids| {
      assert pending + ids[i..] == pending;
    } else {
      var first := TryAcquire(t, key, ids[i], explicitly);
      if first.Got? {
        var p := if explicitly then pending + [ids[i]] else pending;
        AcquireKeepsMid(t, key, ids[i], explicitly, pending);
        AcquireKeepsMids(first.t, key, ids, i + 1, explicitly, p);
        var a := Acquire(first.t, key, ids, i + 1, explicitly);
        if a.All? {
          assert pending + ids[i..] == pending + [ids[i]] + ids[i + 1..];
          MovesTrans(t, first.t, a.t, key);
        }
      }
    }
  }

  lemma {:induction false} AcquireDeepens(t: Table, key: nat, ids: seq<nat>, i: nat, explicitly: bool, id: nat)
    requires i <= |ids| && Increasing(ids)
    requires forall x: nat :: RecOk(Rec(t, x))
    requires Acquire(t, key, ids, i, explicitly).All?
    ensures Rec(Acquire(t, key, ids, i, explicitly).t, id)
            == if id in ids[i..] then Deeper(Rec(t, id), key, explicitly) else Rec(t, id)
    decreases |ids| - i
  {
    if i < |ids| {
      assert RecOk(Rec(t, ids[i]));
      var first := TryAcquire(t, key, ids[i], explicitly);
      forall x: nat ensures RecOk(Rec(first.t, x)) {
        assert RecOk(Rec(t, x));
      }
      AcquireDeepens(first.t, key, ids, i + 1, explicitly, id);
      assert ids[i..] == [ids[i]] + ids[i + 1..];
      assert ids[i] !in ids[i + 1..];
    }
  }

  // SYNC_ENTER succeeds at once exactly when every lock of the statement can be taken; it then owns
  // all of them, one level deeper, and no other lock record has changed.
  lemma EnterTakesAllOrNone(t: Table, key: nat, ids: seq<nat>, explicitly: bool)
    requires TableOk(t) && Increasing(ids)
    ensures var r := Enter(t, key, ids, explicitly);
            && (r.Entered? <==> forall j :: 0 <= j < |ids| ==> Takable(Rec(t, ids[j]), key, explicitly))
            && (r.Entered? ==>
                  forall id: nat :: Rec(r.t, id) == (if id in ids then Deeper(Rec(t, id), key, explicitly) else Rec(t, id)))
  {
    EnterIsNeverInternalError(t, key, ids, explicitly);
    forall id: nat ensures RecOk(Rec(t, id)) {
    }
    AcquireIffTakable(t, key, ids, 0, explicitly);
    var a := Acquire(t, key, ids, 0, explicitly);
    assert ids[0..] == ids;
    if a.All? {
      var u := Enter(t, key, ids, explicitly).t;
      forall id: nat ensures Rec(u, id) == if id in ids then Deeper(Rec(t, id), key, explicitly) else Rec(t, id) {
        AcquireDeepens(t, key, ids, 0, explicitly, id);
        assert u.locks == a.t.locks;
      }
    }
  }

  // The accounting after a successful SYNC_ENTER; a LOCK statement has pushed one entry.
  lemma EnterKeepsOk(t: Table, key: nat, ids: seq<nat>, explicitly: bool)
    requires TableOk(t)
    requires Enter(t, key, ids, explicitly).Entered?
    ensures var u := Enter(t, key, ids, explicitly).t;
            && TableOk(u) && Moves(t, u, key)
            && StackOf(u, key) == StackOf(t, key) + (if explicitly then [ids] else [])
            && (forall k: nat :: k != key ==> StackOf(u, k) == StackOf(t, k))
  {
    MidForAnyTask(t, 0, key);
    AcquireKeepsMids(t, key, ids, 0, explicitly, []);
    var a := Acquire(t, key, ids, 0, explicitly);
    assert [] + ids[0..] == ids;
    if explicitly {
      PushKeepsOk(a.t, key, ids);
      SameLocksMove(t, t, a.t, Push(a.t, key, ids), key);
    } else {
      MidForAnyTask(a.t, key, 0);
    }
  }

  // SYNC_LEAVE of a statement keeps the accounting as well (when it does not report an internal error).
  lemma LeaveKeepsOk(t: Table, key: nat, ids: seq<nat>)
    requires TableOk(t)
    requires ReleaseReversed(t, key, ids, false).Ok?
    ensures var u := ReleaseReversed(t, key, ids, false).t;
            TableOk(u) && Moves(t, u, key) && u.stacks == t.stacks
  {
    MidForAnyTask(t, 0, key);
    ReleaseReversedKeepsMid(t, key, ids, false, []);
    ReleaseKeepsStacks(t, key, ids, false);
    MidForAnyTask(ReleaseReversed(t, key, ids, false).t, key, 0);
  }
}
