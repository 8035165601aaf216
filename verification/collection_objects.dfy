/**
 The collection objects as the two libraries keep them: a hash table with its order list
 (runtime_ext/uxcollections/uxcollections_glib.c) and key and value vectors
 (native/uxb_runtime/uxb_runtime_mir.cpp), worked on in place.
 */
module CollectionObjects {
  import opened Basics
  import opened Collections

  lemma {:induction false} SelfUpdate<V>(h: Hash<V>, keys: seq<Key>)
    requires forall k :: k in keys ==> k in h.table
    ensures SetAll(h, h, keys) == h
    decreases |keys|
  {
    if keys != [] {
      SelfUpdate(h, keys[..|keys| - 1]);
    }
  }

  lemma OneMoreSelected<V>(keys: seq<Key>, i: nat, table: map<Key, V>, wanted: bool)
    requires i < |keys|
    ensures Where(keys[..i + 1], table, wanted)
            == Where(keys[..i], table, wanted) + if (keys[i] in table) == wanted then [keys[i]] else []
  {
    assert keys[..i + 1][..i] == keys[..i];
  }

  lemma SetAllOneMore<V>(dst: Hash<V>, src: Hash<V>, keys: seq<Key>, k: Key)
    requires k in src.table && forall x :: x in keys ==> x in src.table
    ensures SetAll(dst, src, keys + [k]) == HashSet(SetAll(dst, src, keys), k, src.table[k])
  {
    assert (keys + [k])[..|keys|] == keys;
  }

  // dst after the first i keys of a list have been looked at.
  ghost function SelectedUpTo<V>(dst: Hash<V>, keys: seq<Key>, table: map<Key, V>, wanted: bool, v: V, i: nat): Hash<V>
    requires i <= |keys|
  {
    SetAll(dst, Members(keys, v), Where(keys[..i], table, wanted))
  }

  lemma SelectedOneMore<V>(dst: Hash<V>, keys: seq<Key>, table: map<Key, V>, wanted: bool, v: V, i: nat)
    requires i < |keys|
    ensures SelectedUpTo(dst, keys, table, wanted, v, i + 1)
            == if (keys[i] in table) == wanted then HashSet(SelectedUpTo(dst, keys, table, wanted, v, i), keys[i], v)
               else SelectedUpTo(dst, keys, table, wanted, v, i)
  {
    hide HashSet;
    var before := Where(keys[..i], table, wanted);
    OneMoreSelected(keys, i, table, wanted);
    hide Where;
    if (keys[i] in table) == wanted {
      SetAllOneMore(dst, Members(keys, v), before, keys[i]);
    } else {
      assert before + [] == before;
    }
  }

  lemma SelectedEnds<V>(dst: Hash<V>, keys: seq<Key>, table: map<Key, V>, wanted: bool, v: V)
    ensures SelectedUpTo(dst, keys, table, wanted, v, 0) == dst
    ensures SelectedUpTo(dst, keys, table, wanted, v, |keys|) == SetAll(dst, Members(keys, v), Where(keys, table, wanted))
  {
    assert keys[..0] == [] && keys[..|keys|] == keys;
  }

  class OrderedHash<V> {
    var table: map<Key, V>
    var orderedKeys: seq<Key>

    ghost function Value(): Hash<V>
      reads this
    {
      Hash(table, orderedKeys)
    }

    ghost predicate Valid()
      reads this
    {
      HashOk(Value())
    }

    constructor ()
      ensures Valid() && Value() == Hash(map[], [])
    {
      table, orderedKeys := map[], [];
    }

    // ohash_set.
    method Set(k: Key, v: V)
      requires Valid()
      modifies this
      ensures Valid() && Value() == HashSet(old(Value()), k, v)
    {
      HashSetKeepsOk(Value(), k, v);
      if k !in table {
        orderedKeys := orderedKeys + [k];
      }
      table := table[k := v];
    }

    // ohash_remove: the loop stops at the one entry of the order list.
    method Remove(k: Key) returns (removed: bool)
      requires Valid()
      modifies this
      ensures Valid() && Value() == HashRemove(old(Value()), k)
      ensures removed <==> k in old(table)
    {
      HashRemoveKeepsOk(Value(), k);
      if k !in table {
        return false;
      }
      table := table - {k};
      var i := 0;
      WithoutIsErase(orderedKeys, k);
      ghost var at := IndexIn(orderedKeys, k);
      assert at >= 0;
      hide IndexIn, Without, HashOk;
      while i < |orderedKeys|
        invariant i <= at && orderedKeys == old(orderedKeys)
        invariant table == old(table) - {k}
      {
        assert i < at ==> orderedKeys[i] == orderedKeys[..at][i];
        if orderedKeys[i] == k {
          orderedKeys := orderedKeys[..i] + orderedKeys[i + 1..];
          break;
        }
        i := i + 1;
      }
      return true;
    }

    // uxc_dict_set_* and uxc_set_add: the key is a C string.
    method SetText(k: Key, v: V)
      requires Valid()
      modifies this
      ensures Valid() && Value() == HashSet(old(Value()), CString(k), v)
    {
      Set(CString(k), v);
    }

    // uxc_dict_remove and uxc_set_remove.
    method RemoveText(k: Key) returns (removed: bool)
      requires Valid()
      modifies this
      ensures Valid() && Value() == HashRemove(old(Value()), CString(k))
      ensures removed <==> CString(k) in old(table)
    {
      removed := Remove(CString(k));
    }

    // ohash_key_at.
    method KeyAt(index: int) returns (k: Option<Key>)
      ensures k == if 0 <= index < |orderedKeys| then Some(orderedKeys[index]) else None
    {
      k := if 0 <= index < |orderedKeys| then Some(orderedKeys[index]) else None;
    }

    // uxc_dict_update; the source may be the dictionary itself.
    method Update(src: OrderedHash<V>)
      requires Valid() && src.Valid()
      modifies this
      ensures Valid() && Value() == SetAll(old(Value()), old(src.Value()), old(src.orderedKeys))
    {
      ghost var mine, theirs := Value(), src.Value();
      var i := 0;
      while i < |src.orderedKeys|
        invariant i <= |theirs.order| && src.Value() == theirs && Valid()
        invariant Value() == SetAll(mine, theirs, theirs.order[..i])
      {
        var k := src.orderedKeys[i];
        assert theirs.order[..i + 1][..i] == theirs.order[..i];
        Set(k, src.table[k]);
        i := i + 1;
        if src == this {
          SelfUpdate(mine, theirs.order[..i]);
        }
      }
      assert theirs.order[..i] == theirs.order;
    }

    // uxc_dict_merge.
    static method Merged(a: OrderedHash<V>, b: OrderedHash<V>) returns (out: OrderedHash<V>)
      requires a.Valid() && b.Valid()
      ensures fresh(out) && out.Valid()
      ensures out.Value() == Merge(a.Value(), b.Value())
      ensures out.table == a.table + b.table && out.orderedKeys == a.orderedKeys + NewKeys(b.orderedKeys, a.table)
    {
      MergeIsOrderedUnion(a.Value(), b.Value());
      out := new OrderedHash<V>();
      out.Update(a);
      out.Update(b);
    }

    // The loop of the set operations: the members of src that are (or are not) in `other` are added.
    method AddWhere(src: OrderedHash<V>, other: OrderedHash<V>, wanted: bool, none: V)
      requires Valid() && this != src && this != other
      modifies this
      ensures Valid()
      ensures var keys := Where(src.orderedKeys, other.table, wanted);
              Value() == SetAll(old(Value()), Members(src.orderedKeys, none), keys)
    {
      ghost var mine := Value();
      SelectedEnds(mine, src.orderedKeys, other.table, wanted, none);
      hide Where, SetAll, HashOk, Members, HashSet, SelectedUpTo;
      var i := 0;
      while i < |src.orderedKeys|
        invariant i <= |src.orderedKeys| && Valid()
        invariant Value() == SelectedUpTo(mine, src.orderedKeys, other.table, wanted, none, i)
      {
        SelectedOneMore(mine, src.orderedKeys, other.table, wanted, none, i);
        var k := src.orderedKeys[i];
        if (k in other.table) == wanted {
          Set(k, none);
        }
        i := i + 1;
      }
    }

    // uxc_set_intersect: the members of a that are in b, in the order of a.
    static method Intersection(a: OrderedHash<V>, b: OrderedHash<V>, none: V) returns (out: OrderedHash<V>)
      requires a.Valid() && b.Valid()
      ensures fresh(out) && out.Valid()
      ensures out.orderedKeys == Where(a.orderedKeys, b.table, true)
      ensures out.table.Keys == a.table.Keys * b.table.Keys
    {
      out := new OrderedHash<V>();
      out.AddWhere(a, b, true, none);
      WhereIsSelection(a.orderedKeys, b.table, true);
      AddingNewMembers(Hash(map[], []), Members(a.orderedKeys, none), Where(a.orderedKeys, b.table, true));
    }

    // uxc_set_difference: the members of a that are not in b, in the order of a.
    static method Difference(a: OrderedHash<V>, b: OrderedHash<V>, none: V) returns (out: OrderedHash<V>)
      requires a.Valid() && b.Valid()
      ensures fresh(out) && out.Valid()
      ensures out.orderedKeys == Where(a.orderedKeys, b.table, false)
      ensures out.table.Keys == a.table.Keys - b.table.Keys
    {
      hide Where, SetAll;
      out := new OrderedHash<V>();
      out.AddWhere(a, b, false, none);
      WhereIsSelection(a.orderedKeys, b.table, false);
      AddingNewMembers(Hash(map[], []), Members(a.orderedKeys, none), Where(a.orderedKeys, b.table, false));
      assert forall k :: k in out.table.Keys <==> k in a.table.Keys - b.table.Keys;
    }

    // uxc_set_symmetric_difference: what only a has, in the order of a, then what only b has.
    static method SymmetricDifference(a: OrderedHash<V>, b: OrderedHash<V>, none: V) returns (out: OrderedHash<V>)
      requires a.Valid() && b.Valid()
      ensures fresh(out) && out.Valid()
      ensures out.orderedKeys == Where(a.orderedKeys, b.table, false) + Where(b.orderedKeys, a.table, false)
      ensures out.table.Keys == (a.table.Keys - b.table.Keys) + (b.table.Keys - a.table.Keys)
    {
      out := Difference(a, b, none);
      ghost var first := out.Value();
      out.AddWhere(b, a, false, none);
      WhereIsSelection(b.orderedKeys, a.table, false);
      AddingNewMembers(first, Members(b.orderedKeys, none), Where(b.orderedKeys, a.table, false));
    }

    // uxc_set_is_superset_of.
    method IsSupersetOf(b: OrderedHash<V>) returns (r: bool)
      requires Valid() && b.Valid()
      ensures r <==> b.table.Keys <= table.Keys
    {
      var i := 0;
      while i < |b.orderedKeys|
        invariant i <= |b.orderedKeys| && forall j :: 0 <= j < i ==> b.orderedKeys[j] in table
      {
        if b.orderedKeys[i] !in table {
          assert b.orderedKeys[i] in b.table.Keys;
          return false;
        }
        i := i + 1;
      }
      return true;
    }

    // uxc_set_equals.
    method Equals(b: OrderedHash<V>) returns (r: bool)
      requires Valid() && b.Valid()
      ensures r <==> table.Keys == b.table.Keys
    {
      SetEqualsIsEquality(Value(), b.Value());
      assert |table| == |table.Keys| && |b.table| == |b.table.Keys|;
      if |table| != |b.table| {
        return false;
      }
      r := IsSupersetOf(b);
    }

    // uxc_set_pop, with its 4096-byte buffer.
    method Pop() returns (k: Key)
      requires Valid()
      modifies this
      ensures Valid() && Value() == SetPop(old(Value()))
      ensures old(orderedKeys) == [] ==> k == ""
      ensures old(orderedKeys) != [] ==> k <= old(orderedKeys[0]) && (k == old(orderedKeys[0]) || |k| == 4095)
    {
      if orderedKeys == [] {
        return "";
      }
      k := Shortened(orderedKeys[0]);
      var _ := Remove(k);
    }
  }

  class VectorCollection<V> {
    var keys: seq<Key>
    var values: seq<V>

    ghost function Value(): Vectors<V>
      reads this
    {
      Vectors(keys, values)
    }

    ghost predicate Valid()
      reads this
    {
      Parallel(Value())
    }

    constructor ()
      ensures Valid() && Value() == Vectors([], [])
    {
      keys, values := [], [];
    }

    // collection_key_index.
    method KeyIndex(k: Key) returns (i: int)
      ensures i == IndexIn(keys, k)
    {
      i := 0;
      while i < |keys|
        invariant 0 <= i <= |keys| && k !in keys[..i]
      {
        if keys[i] == k {
          return i;
        }
        i := i + 1;
      }
      return -1;
    }

    // __uxb_rt_dict_set (and, for a SET, __uxb_rt_set_add).
    method Set(k: Key, v: V)
      requires Valid()
      modifies this
      ensures Valid() && Value() == VectorSet(old(Value()), k, v)
    {
      var i := KeyIndex(k);
      if i >= 0 {
        values := values[i := v];
      } else {
        keys := keys + [k];
        values := values + [v];
      }
    }

    // __uxb_rt_set_remove.
    method Remove(k: Key)
      requires Valid()
      modifies this
      ensures Valid() && Value() == VectorRemove(old(Value()), k)
    {
      var i := KeyIndex(k);
      if i >= 0 {
        keys := keys[..i] + keys[i + 1..];
        values := values[..i] + values[i + 1..];
      }
    }
  }

  // ---------------------------------------------------------------- uxc_deque_rotate

  // The last `shift` elements come first.
  function TailFirst<T>(items: seq<T>, shift: nat): (r: seq<T>)
    requires shift <= |items|
    ensures |r| == |items|
  {
    items[|items| - shift..] + items[..|items| - shift]
  }

  // Every element moves n places towards the tail, round the end; a negative n moves it to the head.
  function Rotated<T>(items: seq<T>, n: int): (r: seq<T>)
    ensures |r| == |items|
  {
    if items == [] then [] else TailFirst(items, n % |items|)
  }

  lemma TailFirstAt<T>(items: seq<T>, shift: nat, i: nat)
    requires i < |items| && shift < |items|
    ensures TailFirst(items, shift)[if i + shift < |items| then i + shift else i + shift - |items|] == items[i]
  {
  }

  // The element at i goes to i + n, modulo the length.
  lemma RotatedAt<T>(items: seq<T>, n: int, i: nat)
    requires i < |items|
    ensures Rotated(items, n)[(i + n) % |items|] == items[i]
  {
    var len := |items|;
    var shift := n % len;
    TailFirstAt(items, shift, i);
    hide TailFirst;
    Remainder(i + n, if i + shift < len then i + shift else i + shift - len, n / len + if i + shift < len then 0 else 1, len);
  }

  lemma Far(d: int, len: nat)
    requires d != 0 && len > 0
    ensures d * len >= len || d * len + len <= 0
  {
    var e: int := if d > 0 then d - 1 else -d - 1;
    assert e * len >= 0;
  }

  lemma Remainder(x: int, r: int, q: int, len: nat)
    requires len > 0 && 0 <= r < len && x == q * len + r
    ensures x % len == r
  {
    var d := q - x / len;
    assert d * len == x % len - r by {
      assert x == (x / len) * len + x % len;
      assert (q - x / len) * len == q * len - (x / len) * len;
    }
    if d != 0 {
      Far(d, len);
    }
  }

  // The remainder of a negated number.
  lemma NegatedRemainder(n: int, len: nat)
    requires len > 0
    ensures (-n) % len == if n % len == 0 then 0 else len - n % len
  {
    var m := n % len;
    Remainder(-n, if m == 0 then 0 else len - m, -(n / len) - if m == 0 then 0 else 1, len);
  }

  lemma TailFirstTwice<T>(items: seq<T>, a: nat, b: nat)
    requires a <= |items| && b == |items| - a
    ensures TailFirst(TailFirst(items, a), b) == items
  {
  }

  lemma TailFirstNone<T>(items: seq<T>)
    ensures TailFirst(items, 0) == items
  {
  }

  // The rotation by -n undoes the rotation by n.
  lemma RotateBack<T>(items: seq<T>, n: int)
    ensures Rotated(Rotated(items, n), -n) == items
  {
    if items != [] {
      var shift := n % |items|;
      NegatedRemainder(n, |items|);
      TailFirstNone(items);
      TailFirstTwice(items, shift, |items| - shift);
      hide TailFirst;
    }
  }

  lemma OneFurther<T>(items: seq<T>, i: nat)
    requires i < |items|
    ensures var s := TailFirst(items, i);
            [s[|items| - 1]] + s[..|items| - 1] == TailFirst(items, i + 1)
  {
  }

  class Deque<T> {
    var items: seq<T>

    // The remainder truncates towards zero and is made non-negative; then the tail moves to the head.
    method Rotate(n: int)
      modifies this
      ensures items == Rotated(old(items), n)
    {
      var len := |items|;
      if len == 0 {
        return;
      }
      TailFirstNone(items);
      NegatedRemainder(-n, len);
      hide TailFirst;
      var shift := if n >= 0 then n % len else -((-n) % len);
      if shift < 0 {
        shift := shift + len;
      }
      assert shift == n % len;
      for i := 0 to shift
        invariant items == TailFirst(old(items), i)
      {
        OneFurther(old(items), i);
        var v := items[len - 1];
        items := [v] + items[..len - 1];
      }
    }
  }
}
