/**
 Two ordered collections, one meaning: the hash table with an order list of
 runtime_ext/uxcollections/uxcollections_glib.c, and the vectors of
 native/uxb_runtime/uxb_runtime_mir.cpp. GLib's table is a finite map; a SET is a DICT whose values do not
 matter.
 */
module Collections {
  import opened Basics

  type Key = string

  // ---------------------------------------------------------------- the hash with its order list

  datatype Hash<V> = Hash(table: map<Key, V>, order: seq<Key>)

  ghost predicate Distinct(keys: seq<Key>) {
    forall i, j :: 0 <= i < j < |keys| ==> keys[i] != keys[j]
  }

  // The order list is a duplicate-free listing of the keys.
  ghost predicate HashOk<V>(h: Hash<V>) {
    Distinct(h.order) && forall k :: k in h.table <==> k in h.order
  }

  function HashSet<V>(h: Hash<V>, k: Key, v: V): Hash<V> {
    Hash(h.table[k := v], if k in h.table then h.order else h.order + [k])
  }

  // The list without the first occurrence of a key.
  function Without(keys: seq<Key>, k: Key): seq<Key> {
    if keys == [] then [] else if keys[0] == k then keys[1..] else [keys[0]] + Without(keys[1..], k)
  }

  function HashRemove<V>(h: Hash<V>, k: Key): Hash<V> {
    if k in h.table then Hash(h.table - {k}, Without(h.order, k)) else h
  }

  lemma {:induction false} WithoutIsRest(keys: seq<Key>, k: Key)
    requires Distinct(keys)
    ensures Distinct(Without(keys, k))
    ensures forall x :: x in Without(keys, k) <==> x in keys && x != k
  {
    if keys != [] {
      assert keys == [keys[0]] + keys[1..];
      if keys[0] != k {
        WithoutIsRest(keys[1..], k);
        var rest := Without(keys[1..], k);
        assert keys[0] !in keys[1..];
        assert forall i :: 0 <= i < |rest| ==> rest[i] in rest;
      }
    }
  }

  lemma HashSetKeepsOk<V>(h: Hash<V>, k: Key, v: V)
    requires HashOk(h)
    ensures HashOk(HashSet(h, k, v))
  {
  }

  lemma HashRemoveKeepsOk<V>(h: Hash<V>, k: Key)
    requires HashOk(h)
    ensures HashOk(HashRemove(h, k))
  {
    WithoutIsRest(h.order, k);
  }

  // ---------------------------------------------------------------- the vectors

  // `values` runs parallel to `keys`.
  datatype Vectors<V> = Vectors(keys: seq<Key>, values: seq<V>)

  function IndexIn(keys: seq<Key>, k: Key): (r: int)
    ensures -1 <= r < |keys| && (r >= 0 <==> k in keys)
    ensures r >= 0 ==> keys[r] == k && k !in keys[..r]
  {
    if keys == [] then -1
    else if keys[0] == k then 0
    else
      var r := IndexIn(keys[1..], k);
      assert keys == [keys[0]] + keys[1..];
      if r < 0 then -1
      else
        assert keys[..r + 1] == [keys[0]] + keys[1..][..r];
        r + 1
  }

  predicate Parallel<V>(c: Vectors<V>) {
    |c.keys| == |c.values|
  }

  function VectorSet<V>(c: Vectors<V>, k: Key, v: V): Vectors<V>
    requires Parallel(c)
  {
    var i := IndexIn(c.keys, k);
    if i >= 0 then Vectors(c.keys, c.values[i := v]) else Vectors(c.keys + [k], c.values + [v])
  }

  function VectorRemove<V>(c: Vectors<V>, k: Key): Vectors<V>
    requires Parallel(c)
  {
    var i := IndexIn(c.keys, k);
    if i >= 0 then Vectors(c.keys[..i] + c.keys[i + 1..], c.values[..i] + c.values[i + 1..]) else c
  }

  // ---------------------------------------------------------------- they mean the same

  // Same keys in the same order, with the same values.
  ghost predicate SameMeaning<V>(h: Hash<V>, c: Vectors<V>) {
    && HashOk(h) && Parallel(c) && h.order == c.keys
    && forall i :: 0 <= i < |c.keys| ==> c.keys[i] in h.table && h.table[c.keys[i]] == c.values[i]
  }

  lemma SetKeepsMeaning<V>(h: Hash<V>, c: Vectors<V>, k: Key, v: V)
    requires SameMeaning(h, c)
    ensures SameMeaning(HashSet(h, k, v), VectorSet(c, k, v))
  {
    HashSetKeepsOk(h, k, v);
  }

  lemma {:induction false} WithoutAt(keys: seq<Key>, k: Key, i: nat)
    requires i < |keys| && keys[i] == k && forall j :: 0 <= j < i ==> keys[j] != k
    ensures Without(keys, k) == keys[..i] + keys[i + 1..]
  {
    if i == 0 {
      assert keys[..0] + keys[1..] == keys[1..];
    } else {
      var rest := keys[1..];
      WithoutAt(rest, k, i - 1);
      assert keys[..i] + keys[i + 1..] == [keys[0]] + (rest[..i - 1] + rest[i..]);
    }
  }

  lemma {:induction false} WithoutAbsent(keys: seq<Key>, k: Key)
    requires forall j :: 0 <= j < |keys| ==> keys[j] != k
    ensures Without(keys, k) == keys
  {
    if keys != [] {
      WithoutAbsent(keys[1..], k);
      assert keys == [keys[0]] + keys[1..];
    }
  }

  // Unlinking a key from the list is erasing it at the index that a linear search finds.
  lemma WithoutIsErase(keys: seq<Key>, k: Key)
    ensures var i := IndexIn(keys, k);
            Without(keys, k) == if i >= 0 then keys[..i] + keys[i + 1..] else keys
  {
    hide Without;
    var i := IndexIn(keys, k);
    hide IndexIn;
    if i >= 0 {
      assert forall j :: 0 <= j < i ==> keys[..i][j] != k;
      WithoutAt(keys, k, i);
    } else {
      WithoutAbsent(keys, k);
    }
  }

  lemma ErasedValues<V>(h: Hash<V>, c: Vectors<V>, k: Key, i: nat)
    requires Distinct(c.keys) && Parallel(c) && i < |c.keys| && c.keys[i] == k
    requires forall j :: 0 <= j < |c.keys| ==> c.keys[j] in h.table && h.table[c.keys[j]] == c.values[j]
    ensures var keys, values := c.keys[..i] + c.keys[i + 1..], c.values[..i] + c.values[i + 1..];
            forall j :: 0 <= j < |keys| ==> keys[j] in h.table - {k} && (h.table - {k})[keys[j]] == values[j]
  {
    var keys, values := c.keys[..i] + c.keys[i + 1..], c.values[..i] + c.values[i + 1..];
    forall j | 0 <= j < |keys| ensures keys[j] in h.table - {k} && (h.table - {k})[keys[j]] == values[j] {
      var was := if j < i then j else j + 1;
      assert keys[j] == c.keys[was] && values[j] == c.values[was];
    }
  }

  lemma ErasedMeaning<V>(h: Hash<V>, c: Vectors<V>, k: Key, i: nat)
    requires SameMeaning(h, c) && i < |c.keys| && c.keys[i] == k && k in h.table
    requires Without(h.order, k) == c.keys[..i] + c.keys[i + 1..]
    ensures SameMeaning(HashRemove(h, k), Vectors(c.keys[..i] + c.keys[i + 1..], c.values[..i] + c.values[i + 1..]))
  {
    HashRemoveKeepsOk(h, k);
    ErasedValues(h, c, k, i);
    hide Without, Distinct, HashOk;
  }

  lemma RemoveKeepsMeaning<V>(h: Hash<V>, c: Vectors<V>, k: Key)
    requires SameMeaning(h, c)
    ensures SameMeaning(HashRemove(h, k), VectorRemove(c, k))
  {
    WithoutIsErase(h.order, k);
    assert k in h.table <==> k in c.keys;
    assert Parallel(c) && h.order == c.keys;
    var i := IndexIn(c.keys, k);
    hide Without, Distinct, IndexIn, SameMeaning;
    if i >= 0 {
      ErasedMeaning(h, c, k, i);
    }
  }

  // ---------------------------------------------------------------- texts with zero bytes

  // What a text is to a library that takes it as a C string: what stands before its first zero byte.
  function CString(s: string): (r: string)
    ensures r <= s && '\0' !in r
    ensures r == s <==> '\0' !in s
  {
    if s == "" || s[0] == '\0' then ""
    else
      assert s == [s[0]] + s[1..];
      [s[0]] + CString(s[1..])
  }

  // The values of a DICT; a SET stores Null. A number is known by its 64 bits.
  datatype Value = Null | I64(bits: nat) | F64(bits: nat) | Str(text: string)

  function Stored(v: Value): Value {
    if v.Str? then Str(CString(v.text)) else v
  }

  datatype Op = Set(key: Key, value: Value) | Remove(key: Key) | Clear

  // uxc_dict_set_*, uxc_set_add, uxc_dict_remove and uxc_set_remove take C strings ...
  function HashDo(h: Hash<Value>, op: Op): Hash<Value> {
    match op
    case Set(k, v) => HashSet(h, CString(k), Stored(v))
    case Remove(k) => HashRemove(h, CString(k))
    case Clear => Hash(map[], [])
  }

  // ... and the native calls take the whole text.
  function VectorDo(c: Vectors<Value>, op: Op): (r: Vectors<Value>)
    requires Parallel(c)
    ensures Parallel(r)
  {
    match op
    case Set(k, v) => VectorSet(c, k, v)
    case Remove(k) => VectorRemove(c, k)
    case Clear => Vectors([], [])
  }

  function HashRun(h: Hash<Value>, ops: seq<Op>): Hash<Value>
    decreases |ops|
  {
    if ops == [] then h else HashDo(HashRun(h, ops[..|ops| - 1]), ops[|ops| - 1])
  }

  function VectorRun(c: Vectors<Value>, ops: seq<Op>): (r: Vectors<Value>)
    requires Parallel(c)
    ensures Parallel(r)
    decreases |ops|
  {
    if ops == [] then c else VectorDo(VectorRun(c, ops[..|ops| - 1]), ops[|ops| - 1])
  }

  predicate ZeroFree(s: string) {
    '\0' !in s
  }

  predicate ZeroFreeOp(op: Op) {
    match op
    case Set(k, v) => ZeroFree(k) && (v.Str? ==> ZeroFree(v.text))
    case Remove(k) => ZeroFree(k)
    case Clear => true
  }

  lemma ZeroFreeStepKeepsMeaning(h: Hash<Value>, c: Vectors<Value>, op: Op)
    requires SameMeaning(h, c) && ZeroFreeOp(op)
    ensures SameMeaning(HashDo(h, op), VectorDo(c, op))
  {
    match op
    case Set(k, v) => SetKeepsMeaning(h, c, k, v);
    case Remove(k) => RemoveKeepsMeaning(h, c, k);
    case Clear =>
  }

  // Any sequence of additions, overwrites, removals and clears without a zero byte enumerates the same keys
  // in the same order with the same values in both implementations.
  lemma {:induction false} RunsMeanTheSame(h: Hash<Value>, c: Vectors<Value>, ops: seq<Op>)
    requires SameMeaning(h, c) && forall i :: 0 <= i < |ops| ==> ZeroFreeOp(ops[i])
    ensures SameMeaning(HashRun(h, ops), VectorRun(c, ops))
    decreases |ops|
  {
    assert Parallel(c);
    hide SameMeaning, HashDo, VectorDo;
    if ops != [] {
      RunsMeanTheSame(h, c, ops[..|ops| - 1]);
      ZeroFreeStepKeepsMeaning(HashRun(h, ops[..|ops| - 1]), VectorRun(c, ops[..|ops| - 1]), ops[|ops| - 1]);
    }
  }

  // What the hash can hold: keys and texts without a zero byte.
  ghost predicate OfCStrings(h: Hash<Value>) {
    && (forall k :: k in h.order ==> ZeroFree(k))
    && (forall k :: k in h.table ==> Stored(h.table[k]) == h.table[k])
  }

  lemma StoredOnce(v: Value)
    ensures Stored(Stored(v)) == Stored(v)
  {
  }

  lemma HashDoKeepsCStrings(h: Hash<Value>, op: Op)
    requires HashOk(h) && OfCStrings(h)
    ensures HashOk(HashDo(h, op)) && OfCStrings(HashDo(h, op))
  {
    match op
    case Set(k, v) =>
      HashSetKeepsOk(h, CString(k), Stored(v));
      StoredOnce(v);
    case Remove(k) =>
      HashRemoveKeepsOk(h, CString(k));
      WithoutIsRest(h.order, CString(k));
    case Clear =>
  }

  // Whether an operation means the same to both: a removal may name a text with a zero byte as long as
  // nothing is stored under what stands before it.
  predicate MeansTheSame(c: Vectors<Value>, op: Op) {
    ZeroFreeOp(op) || (op.Remove? && CString(op.key) !in c.keys)
  }

  lemma StoredIsSame(v: Value)
    ensures Stored(v) == v <==> (v.Str? ==> ZeroFree(v.text))
  {
  }

  lemma SetMeaningIff(h: Hash<Value>, c: Vectors<Value>, k: Key, v: Value)
    requires SameMeaning(h, c) && OfCStrings(h)
    ensures SameMeaning(HashDo(h, Set(k, v)), VectorDo(c, Set(k, v))) <==> ZeroFreeOp(Set(k, v))
  {
    var u, d := HashDo(h, Set(k, v)), VectorDo(c, Set(k, v));
    HashDoKeepsCStrings(h, Set(k, v));
    StoredIsSame(v);
    SetIsFound(c, k, v);
    if ZeroFreeOp(Set(k, v)) {
      ZeroFreeStepKeepsMeaning(h, c, Set(k, v));
    } else {
      hide HashDo, VectorDo, Stored;
      var i :| 0 <= i < |d.keys| && d.keys[i] == k && d.values[i] == v;
      assert u.order == d.keys ==> k in u.order;
      assert k in u.order ==> ZeroFree(k);
      assert k in u.table ==> Stored(u.table[k]) == u.table[k];
    }
  }

  lemma SetIsFound(c: Vectors<Value>, k: Key, v: Value)
    requires Parallel(c)
    ensures var d := VectorDo(c, Set(k, v));
            exists i :: 0 <= i < |d.keys| && d.keys[i] == k && d.values[i] == v
  {
    var d := VectorDo(c, Set(k, v));
    var i := IndexIn(c.keys, k);
    var at := if i >= 0 then i else |c.keys|;
    assert d.keys[at] == k && d.values[at] == v;
  }

  lemma RemoveMeaningIff(h: Hash<Value>, c: Vectors<Value>, k: Key)
    requires SameMeaning(h, c) && OfCStrings(h)
    ensures SameMeaning(HashDo(h, Remove(k)), VectorDo(c, Remove(k))) <==> MeansTheSame(c, Remove(k))
  {
    if ZeroFree(k) {
      ZeroFreeStepKeepsMeaning(h, c, Remove(k));
    } else {
      assert k !in c.keys;
      assert VectorDo(c, Remove(k)) == c;
      assert CString(k) in h.table <==> CString(k) in c.keys;
      if CString(k) in h.table {
        WithoutIsRest(h.order, CString(k));
        hide Without;
        assert CString(k) !in HashDo(h, Remove(k)).order;
      }
    }
  }

  // One operation keeps the two in step exactly if it means the same to both.
  lemma StepMeaningIff(h: Hash<Value>, c: Vectors<Value>, op: Op)
    requires SameMeaning(h, c) && OfCStrings(h)
    ensures SameMeaning(HashDo(h, op), VectorDo(c, op)) <==> MeansTheSame(c, op)
  {
    match op
    case Set(k, v) => SetMeaningIff(h, c, k, v);
    case Remove(k) => RemoveMeaningIff(h, c, k);
    case Clear =>
  }

  lemma {:induction false} HashRunKeepsCStrings(h: Hash<Value>, ops: seq<Op>)
    requires HashOk(h) && OfCStrings(h)
    ensures HashOk(HashRun(h, ops)) && OfCStrings(HashRun(h, ops))
    decreases |ops|
  {
    hide HashOk, OfCStrings, HashDo;
    if ops != [] {
      HashRunKeepsCStrings(h, ops[..|ops| - 1]);
      HashDoKeepsCStrings(HashRun(h, ops[..|ops| - 1]), ops[|ops| - 1]);
    }
  }

  ghost predicate InStep(h: Hash<Value>, c: Vectors<Value>, ops: seq<Op>, n: nat)
    requires Parallel(c) && n <= |ops|
  {
    SameMeaning(HashRun(h, ops[..n]), VectorRun(c, ops[..n]))
  }

  ghost predicate OpMeansTheSame(c: Vectors<Value>, ops: seq<Op>, n: nat)
    requires Parallel(c) && n < |ops|
  {
    MeansTheSame(VectorRun(c, ops[..n]), ops[n])
  }

  lemma OneMoreInStep(h: Hash<Value>, c: Vectors<Value>, ops: seq<Op>, n: nat)
    requires SameMeaning(h, c) && OfCStrings(h) && n < |ops| && InStep(h, c, ops, n)
    ensures InStep(h, c, ops, n + 1) <==> OpMeansTheSame(c, ops, n)
  {
    assert ops[..n + 1][..n] == ops[..n];
    HashRunKeepsCStrings(h, ops[..n]);
    hide HashDo, VectorDo, MeansTheSame, OfCStrings;
    StepMeaningIff(HashRun(h, ops[..n]), VectorRun(c, ops[..n]), ops[n]);
  }

  ghost predicate AlwaysInStep(h: Hash<Value>, c: Vectors<Value>, ops: seq<Op>, n: nat)
    requires Parallel(c) && n <= |ops|
  {
    forall m: nat :: m <= n ==> InStep(h, c, ops, m)
  }

  ghost predicate AllMeanTheSame(c: Vectors<Value>, ops: seq<Op>, n: nat)
    requires Parallel(c) && n <= |ops|
  {
    forall m: nat :: m < n ==> OpMeansTheSame(c, ops, m)
  }

  lemma OneMoreStep(h: Hash<Value>, c: Vectors<Value>, ops: seq<Op>, n: nat)
    requires Parallel(c) && n < |ops|
    ensures AlwaysInStep(h, c, ops, n + 1) <==> AlwaysInStep(h, c, ops, n) && InStep(h, c, ops, n + 1)
    ensures AllMeanTheSame(c, ops, n + 1) <==> AllMeanTheSame(c, ops, n) && OpMeansTheSame(c, ops, n)
    ensures AlwaysInStep(h, c, ops, n) ==> InStep(h, c, ops, n)
  {
    hide InStep, OpMeansTheSame, Parallel;
  }

  // The two are in step after every operation of a list exactly if every operation means the same to both
  // where it is executed.
  lemma {:induction false} AlwaysInStepIff(h: Hash<Value>, c: Vectors<Value>, ops: seq<Op>, n: nat)
    requires SameMeaning(h, c) && OfCStrings(h) && n <= |ops|
    ensures AlwaysInStep(h, c, ops, n) <==> AllMeanTheSame(c, ops, n)
    decreases n
  {
    if n == 0 {
      StartsInStep(h, c, ops);
    } else {
      assert Parallel(c);
      hide InStep, OpMeansTheSame, SameMeaning, OfCStrings, Parallel, AlwaysInStep, AllMeanTheSame;
      var last: nat := n - 1;
      AlwaysInStepIff(h, c, ops, last);
      OneMoreStep(h, c, ops, last);
      if InStep(h, c, ops, last) {
        OneMoreInStep(h, c, ops, last);
      }
    }
  }

  lemma StartsInStep(h: Hash<Value>, c: Vectors<Value>, ops: seq<Op>)
    requires SameMeaning(h, c)
    ensures InStep(h, c, ops, 0)
  {
    assert ops[..0] == [];
  }

  // The native DICT has no removal. Since the last clear, has every key been without a zero byte?
  predicate KeysAreZeroFree(ops: seq<Op>)
    decreases |ops|
  {
    ops == [] || ops[|ops| - 1].Clear? || (KeysAreZeroFree(ops[..|ops| - 1]) && ZeroFree(ops[|ops| - 1].key))
  }

  lemma {:induction false} ZeroKeyStays(c: Vectors<Value>, ops: seq<Op>)
    requires Parallel(c) && !KeysAreZeroFree(ops) && forall i :: 0 <= i < |ops| ==> !ops[i].Remove?
    ensures exists k :: k in VectorRun(c, ops).keys && !ZeroFree(k)
    decreases |ops|
  {
    var n := |ops| - 1;
    var before := VectorRun(c, ops[..n]);
    var k, v := ops[n].key, ops[n].value;
    SetIsFound(before, k, v);
    if KeysAreZeroFree(ops[..n]) {
      assert k in VectorRun(c, ops).keys;
    } else {
      ZeroKeyStays(c, ops[..n]);
      var x :| x in before.keys && !ZeroFree(x);
      assert x in VectorSet(before, k, v).keys;
    }
  }

  // Dictionaries that are filled with zero-free values hold the same exactly if no key set since the last
  // clear has a zero byte.
  lemma DictsAgreeIff(h: Hash<Value>, c: Vectors<Value>, ops: seq<Op>)
    requires SameMeaning(h, c) && OfCStrings(h)
    requires forall i :: 0 <= i < |ops| ==> !ops[i].Remove? && (ops[i].Set? ==> Stored(ops[i].value) == ops[i].value)
    ensures SameMeaning(HashRun(h, ops), VectorRun(c, ops)) <==> KeysAreZeroFree(ops)
  {
    if KeysAreZeroFree(ops) {
      DictsAgree(h, c, ops);
    } else {
      HashRunKeepsCStrings(h, ops);
      ZeroKeyStays(c, ops);
      var k :| k in VectorRun(c, ops).keys && !ZeroFree(k);
      hide HashRun, VectorRun;
      assert k !in HashRun(h, ops).order;
    }
  }

  lemma {:induction false} DictsAgree(h: Hash<Value>, c: Vectors<Value>, ops: seq<Op>)
    requires SameMeaning(h, c) && KeysAreZeroFree(ops)
    requires forall i :: 0 <= i < |ops| ==> !ops[i].Remove? && (ops[i].Set? ==> Stored(ops[i].value) == ops[i].value)
    ensures SameMeaning(HashRun(h, ops), VectorRun(c, ops))
    decreases |ops|
  {
    if ops != [] && !ops[|ops| - 1].Clear? {
      var n := |ops| - 1;
      DictsAgree(h, c, ops[..n]);
      StoredIsSame(ops[n].value);
      ZeroFreeStepKeepsMeaning(HashRun(h, ops[..n]), VectorRun(c, ops[..n]), ops[n]);
    }
  }

  lemma SameCStringCollides(k: Key, l: Key, v: Value, w: Value)
    requires k != l && CString(k) == CString(l)
    ensures VectorRun(Vectors([], []), [Set(k, v), Set(l, w)]).keys == [k, l]
    ensures HashRun(Hash(map[], []), [Set(k, v), Set(l, w)]).order == [CString(k)]
  {
    hide CString, Stored;
    var ops := [Set(k, v), Set(l, w)];
    var none: Hash<Value>, empty: Vectors<Value> := Hash(map[], []), Vectors([], []);
    assert ops[..1] == [ops[0]] && ops[..1][..0] == [];
    assert HashRun(none, ops[..1]) == HashDo(none, ops[0]) && VectorRun(empty, ops[..1]) == VectorDo(empty, ops[0]);
  }

  // Two keys that differ after a zero byte: two entries in the vectors, one in the hash.
  lemma ZeroByteKeysCollide(v: Value, w: Value)
    ensures var ops := [Set("a\0b", v), Set("a\0c", w)];
            && VectorRun(Vectors([], []), ops).keys == ["a\0b", "a\0c"]
            && HashRun(Hash(map[], []), ops).order == ["a"]
  {
    var k, l := "a\0b", "a\0c";
    CutAtZero(k, 1);
    CutAtZero(l, 1);
    assert k[..1] == "a" && l[..1] == "a";
    assert k[2] != l[2];
    hide CString, HashRun, VectorRun;
    SameCStringCollides(k, l, v, w);
  }

  lemma {:induction false} CutAtZero(s: string, n: nat)
    requires n < |s| && s[n] == '\0' && '\0' !in s[..n]
    ensures CString(s) == s[..n]
    decreases n
  {
    if n > 0 {
      assert s[0] == s[..n][0];
      assert s[1..][..n - 1] == s[..n][1..];
      CutAtZero(s[1..], n - 1);
    }
  }

  // ---------------------------------------------------------------- operations on two collections

  // The loop shared by clone, update, merge and the set operations: the listed entries are set one by one.
  function SetAll<V>(dst: Hash<V>, src: Hash<V>, keys: seq<Key>): Hash<V>
    requires forall k :: k in keys ==> k in src.table
    decreases |keys|
  {
    if keys == [] then dst
    else HashSet(SetAll(dst, src, keys[..|keys| - 1]), keys[|keys| - 1], src.table[keys[|keys| - 1]])
  }

  // The keys of a list that a table has (`wanted`) or does not have.
  function Where<V>(keys: seq<Key>, table: map<Key, V>, wanted: bool): (r: seq<Key>)
    ensures forall k :: k in r ==> k in keys && (k in table) == wanted
  {
    if keys == [] then []
    else
      var last := keys[|keys| - 1];
      Where(keys[..|keys| - 1], table, wanted) + if (last in table) == wanted then [last] else []
  }

  function NewKeys<V>(keys: seq<Key>, table: map<Key, V>): seq<Key> {
    Where(keys, table, false)
  }

  // What the loop has built from dst after the listed entries of src.
  ghost predicate Built<V>(dst: Hash<V>, src: Hash<V>, keys: seq<Key>, r: Hash<V>)
    requires forall k :: k in keys ==> k in src.table
  {
    && HashOk(r)
    && r.order == dst.order + NewKeys(keys, dst.table)
    && (forall k :: k in r.table <==> k in dst.table || k in keys)
    && (forall k :: k in r.table ==> r.table[k] == if k in keys then src.table[k] else dst.table[k])
  }

  lemma NewKeysOneMore<V>(keys: seq<Key>, table: map<Key, V>, k: Key)
    ensures NewKeys(keys + [k], table) == NewKeys(keys, table) + if k in table then [] else [k]
  {
    assert (keys + [k])[..|keys|] == keys;
  }

  lemma BuiltOneMore<V>(dst: Hash<V>, src: Hash<V>, keys: seq<Key>, k: Key, r: Hash<V>)
    requires k in src.table && k !in keys && (forall x :: x in keys ==> x in src.table)
    requires Built(dst, src, keys, r)
    ensures Built(dst, src, keys + [k], HashSet(r, k, src.table[k]))
  {
    hide HashOk, NewKeys;
    var after := HashSet(r, k, src.table[k]);
    HashSetKeepsOk(r, k, src.table[k]);
    NewKeysOneMore(keys, dst.table, k);
    assert k in r.table <==> k in dst.table;
    assert after.order == dst.order + NewKeys(keys + [k], dst.table);
    forall x ensures x in keys + [k] <==> x in keys || x == k {
    }
  }

  lemma NothingBuilt<V>(dst: Hash<V>, src: Hash<V>, keys: seq<Key>)
    requires HashOk(dst) && keys == []
    ensures Built(dst, src, keys, dst)
  {
    assert dst.order + [] == dst.order;
  }

  lemma DistinctLast(keys: seq<Key>)
    requires Distinct(keys) && keys != []
    ensures Distinct(keys[..|keys| - 1]) && keys[|keys| - 1] !in keys[..|keys| - 1]
  {
  }

  lemma {:induction false} SetAllAppendsNew<V>(dst: Hash<V>, src: Hash<V>, keys: seq<Key>)
    requires HashOk(dst) && Distinct(keys) && forall k :: k in keys ==> k in src.table
    ensures Built(dst, src, keys, SetAll(dst, src, keys))
    decreases |keys|
  {
    hide Built, HashSet, HashOk, Distinct;
    if keys == [] {
      NothingBuilt(dst, src, keys);
    } else {
      var n := |keys| - 1;
      DistinctLast(keys);
      SetAllAppendsNew(dst, src, keys[..n]);
      BuiltOneMore(dst, src, keys[..n], keys[n], SetAll(dst, src, keys[..n]));
      assert keys == keys[..n] + [keys[n]];
    }
  }

  // uxc_dict_merge: a's keys in a's order, then b's new keys in b's order, b's values winning.
  function Merge<V>(a: Hash<V>, b: Hash<V>): Hash<V>
    requires HashOk(a) && HashOk(b)
  {
    SetAll(SetAll(Hash(map[], []), a, a.order), b, b.order)
  }

  lemma {:induction false} NothingWanted<V>(keys: seq<Key>, table: map<Key, V>)
    requires forall k :: k in keys ==> k !in table
    ensures NewKeys(keys, table) == keys
    decreases |keys|
  {
    if keys != [] {
      var n := |keys| - 1;
      assert keys == keys[..n] + [keys[n]];
      NothingWanted(keys[..n], table);
    }
  }

  lemma SameEntries<V>(m: map<Key, V>, n: map<Key, V>)
    requires forall k :: k in m <==> k in n
    requires forall k :: k in m && k in n ==> m[k] == n[k]
    ensures m == n
  {
  }

  lemma BuiltFromNothing<V>(none: Hash<V>, a: Hash<V>, r: Hash<V>)
    requires none.table == map[] && none.order == [] && HashOk(a) && Built(none, a, a.order, r)
    ensures r == a
  {
    NothingWanted(a.order, none.table);
    hide NewKeys, Distinct;
    assert r.order == [] + a.order;
    SameEntries(r.table, a.table);
  }

  lemma CloneIsSame<V>(a: Hash<V>)
    requires HashOk(a)
    ensures SetAll(Hash(map[], []), a, a.order) == a
  {
    hide SetAll, Built;
    var none: Hash<V> := Hash(map[], []);
    SetAllAppendsNew(none, a, a.order);
    BuiltFromNothing(none, a, SetAll(none, a, a.order));
  }

  lemma MergeIsOrderedUnion<V>(a: Hash<V>, b: Hash<V>)
    requires HashOk(a) && HashOk(b)
    ensures var r := Merge(a, b);
            HashOk(r) && r.order == a.order + NewKeys(b.order, a.table) && r.table == a.table + b.table
  {
    hide SetAll, NewKeys;
    CloneIsSame(a);
    SetAllAppendsNew(a, b, b.order);
  }

  lemma {:induction false} WhereIsSelection<V>(keys: seq<Key>, table: map<Key, V>, wanted: bool)
    requires Distinct(keys)
    ensures Distinct(Where(keys, table, wanted))
    ensures forall k :: k in Where(keys, table, wanted) <==> k in keys && (k in table) == wanted
  {
    if keys != [] {
      var n := |keys| - 1;
      WhereIsSelection(keys[..n], table, wanted);
      assert keys == keys[..n] + [keys[n]];
      assert keys[n] !in Where(keys[..n], table, wanted);
      hide Where;
      var rest := Where(keys[..n], table, wanted);
      assert forall i :: 0 <= i < |rest| ==> rest[i] in rest;
    }
  }

  // A SET with these members, all stored with the same (null) value.
  function Members<V>(keys: seq<Key>, v: V): Hash<V> {
    Hash(map k | k in keys :: v, keys)
  }

  // Adding members that a set does not have appends them in their order.
  lemma AddingNewMembers<V>(dst: Hash<V>, src: Hash<V>, keys: seq<Key>)
    requires HashOk(dst) && Distinct(keys)
    requires forall k :: k in keys ==> k in src.table && k !in dst.table
    ensures var r := SetAll(dst, src, keys);
            HashOk(r) && r.order == dst.order + keys && forall k :: k in r.table <==> k in dst.table || k in keys
  {
    hide SetAll, HashOk;
    SetAllAppendsNew(dst, src, keys);
    NothingWanted(keys, dst.table);
  }

  // uxc_set_equals: as many members, and a superset.
  predicate SetEquals<V>(a: Hash<V>, b: Hash<V>) {
    |a.table| == |b.table| && forall i :: 0 <= i < |b.order| ==> b.order[i] in a.table
  }

  lemma SetEqualsIsEquality<V>(a: Hash<V>, b: Hash<V>)
    requires HashOk(a) && HashOk(b)
    ensures SetEquals(a, b) <==> a.table.Keys == b.table.Keys
  {
    assert |a.table| == |a.table.Keys| && |b.table| == |b.table.Keys|;
    if SetEquals(a, b) {
      forall k | k in b.table ensures k in a.table {
        var i :| 0 <= i < |b.order| && b.order[i] == k;
      }
      if a.table.Keys != b.table.Keys {
        SubsetIsSmaller(b.table.Keys, a.table.Keys);
      }
    }
    assert forall i :: 0 <= i < |b.order| ==> b.order[i] in b.table.Keys;
  }

  lemma SubsetIsSmaller(a: set<Key>, b: set<Key>)
    requires a <= b && a != b
    ensures |a| < |b|
  {
    assert b == a + (b - a);
    assert b - a != {};
  }

  // uxc_dict_equals.
  predicate DictEquals<V(==)>(a: Hash<V>, b: Hash<V>) {
    && |a.table| == |b.table|
    && forall i :: 0 <= i < |a.order| ==>
         a.order[i] in b.table && a.order[i] in a.table && a.table[a.order[i]] == b.table[a.order[i]]
  }

  lemma DictEqualsIsEquality<V>(a: Hash<V>, b: Hash<V>)
    requires HashOk(a) && HashOk(b)
    ensures DictEquals(a, b) <==> a.table == b.table
  {
    assert |a.table| == |a.table.Keys| && |b.table| == |b.table.Keys|;
    if DictEquals(a, b) {
      forall k | k in a.table ensures k in b.table && a.table[k] == b.table[k] {
        var i :| 0 <= i < |a.order| && a.order[i] == k;
      }
      if a.table.Keys != b.table.Keys {
        SubsetIsSmaller(a.table.Keys, b.table.Keys);
      }
    }
  }

  // ---------------------------------------------------------------- uxc_set_pop

  const BUFFER: nat := 4095

  function Shortened(k: Key): Key {
    if |k| <= BUFFER then k else k[..BUFFER]
  }

  // The first member goes through a buffer of 4096 bytes before it is removed.
  function SetPop<V>(h: Hash<V>): Hash<V> {
    if h.order == [] then h else HashRemove(h, Shortened(h.order[0]))
  }

  // So the first member is removed exactly when it fits into the buffer; a longer one stays, and the
  // member that equals its first 4095 bytes is removed instead, if there is one.
  lemma SetPopRemovesFirstIff<V>(h: Hash<V>)
    requires HashOk(h) && h.order != []
    ensures SetPop(h).order == h.order[1..] <==> |h.order[0]| <= 4095
    ensures |h.order[0]| > 4095 ==>
              h.order[0] in SetPop(h).table && SetPop(h).table == h.table - {h.order[0][..4095]}
  {
    var k := h.order[0];
    WithoutIsRest(h.order, Shortened(k));
    assert h.order == [k] + h.order[1..];
    if |k| > BUFFER {
      assert Shortened(k) != k;
      assert k in SetPop(h).order;
      assert k !in h.order[1..];
    }
  }
}
