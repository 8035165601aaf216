/**
 The table of pointer handles in runtime_ext/uxffi/uxffi.c: 32-bit tokens made of a tag, a 14-bit
 generation and a 16-bit slot index, and a cyclic scan for a free slot. The bit fields of a token do not
 overlap, so they are written as sums, quotients and remainders. Pointers are numbers, None is null.
 */
module FfiHandles {
  import opened Basics
  import opened Generations

  const CAPACITY: nat := 65535
  const TAG: nat := 0x4000_0000
  const CYCLE: nat := 0x3FFF

  // ---------------------------------------------------------------- tokens

  function MakeToken(index: nat, generation: nat): nat {
    TAG + (generation % 0x4000) * 0x1_0000 + index % 0x1_0000
  }

  datatype Ref = Ref(index: nat, generation: nat)

  function DecodeToken(value: nat): Option<Ref> {
    if value / 0x1_0000_0000 != 0 then None
    else if value / 0x4000_0000 != 1 then None
    else
      var index := value % 0x1_0000;
      var generation := (value / 0x1_0000) % 0x4000;
      if index == 0 || index >= CAPACITY || generation == 0 then None else Some(Ref(index, generation))
  }

  predicate IsRef(r: Ref) {
    1 <= r.index < CAPACITY && 1 <= r.generation <= CYCLE
  }

  // Encoding and decoding are inverse to each other on the tokens that can be handed out.
  lemma TokenRoundTrip(r: Ref)
    requires IsRef(r)
    ensures DecodeToken(MakeToken(r.index, r.generation)) == Some(r)
    ensures 0 < MakeToken(r.index, r.generation) < 0x8000_0000
  {
    var token := MakeToken(r.index, r.generation);
    assert token == (0x4000 + r.generation) * 0x1_0000 + r.index;
    assert token % 0x1_0000 == r.index && token / 0x1_0000 == 0x4000 + r.generation;
  }

  lemma DecodedIsMade(value: nat)
    requires DecodeToken(value).Some?
    ensures var r := DecodeToken(value).value;
            IsRef(r) && MakeToken(r.index, r.generation) == value
  {
    var r := DecodeToken(value).value;
    var high := value / 0x1_0000;
    assert value == high * 0x1_0000 + r.index;
    assert high / 0x4000 == 1 && high == 0x4000 + r.generation;
  }

  // ---------------------------------------------------------------- the table as a value

  datatype Entry = Entry(ptr: Option<nat>, owned: bool, generation: nat)

  datatype Table = Table(entries: seq<Entry>, next: nat)

  predicate ValidTable(t: Table) {
    && |t.entries| == CAPACITY && 1 <= t.next < CAPACITY
    && forall i :: 0 <= i < CAPACITY ==> t.entries[i].generation <= CYCLE
                                         && (t.entries[i].ptr.Some? ==> t.entries[i].generation > 0)
  }

  function NextIndex(i: nat): nat {
    if i + 1 >= CAPACITY then 1 else i + 1
  }

  // The cyclic scan: the first free slot in at most `attempts` looks.
  function Scan(t: Table, index: nat, attempts: nat): (r: Option<nat>)
    requires ValidTable(t) && 1 <= index < CAPACITY
    ensures r.Some? ==> 1 <= r.value < CAPACITY && t.entries[r.value].ptr.None?
    decreases attempts
  {
    if attempts == 0 then None
    else if t.entries[index].ptr.None? then Some(index)
    else Scan(t, NextIndex(index), attempts - 1)
  }

  datatype Stored = Stored(table: Table, token: nat)

  function StoreAt(t: Table, i: nat, ptr: nat, owned: bool): Stored
    requires ValidTable(t) && 1 <= i < CAPACITY
  {
    var generation := NextOf(CYCLE, t.entries[i].generation);
    Stored(Table(t.entries[i := Entry(Some(ptr), owned, generation)], NextIndex(i)), MakeToken(i, generation))
  }

  function StoreHandle(t: Table, ptr: Option<nat>, owned: bool): Stored
    requires ValidTable(t)
  {
    if ptr.None? then Stored(t, 0)
    else
      match Scan(t, t.next, CAPACITY - 1)
      case None => Stored(t, 0)
      case Some(i) => StoreAt(t, i, ptr.value, owned)
  }

  // The pointer of a live token.
  function Resolve(t: Table, token: nat): Option<nat>
    requires ValidTable(t)
  {
    match DecodeToken(token)
    case None => None
    case Some(r) => if t.entries[r.index].generation == r.generation then t.entries[r.index].ptr else None
  }

  function ReleaseHandle(t: Table, token: nat): Table
    requires ValidTable(t)
  {
    if Resolve(t, token).None? then t
    else
      var i := DecodeToken(token).value.index;
      t.(entries := t.entries[i := t.entries[i].(ptr := None, owned := false)])
  }

  function ClearHandles(t: Table): Table
    requires ValidTable(t)
  {
    Table(seq(CAPACITY, i requires 0 <= i < CAPACITY =>
            if i == 0 then t.entries[i] else t.entries[i].(ptr := None, owned := false)), 1)
  }

  // classify_pointer_arg; `committed` says that the value is the address of committed memory.
  datatype Class = Raw | Token | Stale

  function Classify(t: Table, value: nat, committed: bool): Class
    requires ValidTable(t)
  {
    match DecodeToken(value)
    case None => Raw
    case Some(r) =>
      if Resolve(t, value).Some? then Token
      else if committed then Raw
      else if t.entries[r.index].generation != 0 then Stale
      else Raw
  }

  // ---------------------------------------------------------------- the scan visits every slot once

  predicate AllOccupied(t: Table)
    requires ValidTable(t)
  {
    forall i :: 1 <= i < CAPACITY ==> t.entries[i].ptr.Some?
  }

  // Where the scan looks after k steps.
  function Place(start: nat, k: nat): nat
    requires 1 <= start < CAPACITY && k < CAPACITY - 1
  {
    if start + k < CAPACITY then start + k else start + k - (CAPACITY - 1)
  }

  lemma {:induction false} ScanCovers(t: Table, start: nat, k: nat, attempts: nat)
    requires ValidTable(t) && 1 <= start < CAPACITY && k + attempts <= CAPACITY - 1 && k < CAPACITY - 1
    ensures var r := Scan(t, Place(start, k), attempts);
            match r
            case Some(i) => 1 <= i < CAPACITY && t.entries[i].ptr.None?
            case None => forall j :: k <= j < k + attempts ==> t.entries[Place(start, j)].ptr.Some?
    decreases attempts
  {
    if attempts > 0 && t.entries[Place(start, k)].ptr.Some? && k + 1 < CAPACITY - 1 {
      assert NextIndex(Place(start, k)) == Place(start, k + 1);
      ScanCovers(t, start, k + 1, attempts - 1);
    }
  }

  lemma ScanFindsFreeSlot(t: Table)
    requires ValidTable(t)
    ensures match Scan(t, t.next, CAPACITY - 1)
            case Some(i) => 1 <= i < CAPACITY && t.entries[i].ptr.None?
            case None => AllOccupied(t)
  {
    assert Place(t.next, 0) == t.next;
    ScanCovers(t, t.next, 0, CAPACITY - 1);
    if Scan(t, t.next, CAPACITY - 1).None? {
      forall i | 1 <= i < CAPACITY ensures t.entries[i].ptr.Some? {
        var j := if i >= t.next then i - t.next else i + (CAPACITY - 1) - t.next;
        assert Place(t.next, j) == i;
      }
    }
  }

  // Storing a pointer fails exactly when all 65534 slots are occupied; otherwise the new token is not
  // zero, names the pointer, and every other token keeps its meaning.
  lemma StoreSucceedsUnlessFull(t: Table, ptr: nat, owned: bool)
    requires ValidTable(t)
    ensures var r := StoreHandle(t, Some(ptr), owned);
            && ValidTable(r.table)
            && (r.token == 0 <==> AllOccupied(t))
            && (r.token == 0 ==> r.table == t)
            && (r.token != 0 ==> Resolve(t, r.token).None? && Resolve(r.table, r.token) == Some(ptr))
            && forall other: nat :: other != r.token ==> Resolve(r.table, other) == Resolve(t, other)
  {
    ScanFindsFreeSlot(t);
    var r := StoreHandle(t, Some(ptr), owned);
    if Scan(t, t.next, CAPACITY - 1).Some? {
      var i := Scan(t, t.next, CAPACITY - 1).value;
      StoreAtIsSound(t, i, ptr, owned);
    }
  }

  lemma StoreAtIsSound(t: Table, i: nat, ptr: nat, owned: bool)
    requires ValidTable(t) && 1 <= i < CAPACITY && t.entries[i].ptr.None?
    ensures var r := StoreAt(t, i, ptr, owned);
            && ValidTable(r.table) && r.token != 0
            && Resolve(t, r.token).None? && Resolve(r.table, r.token) == Some(ptr)
            && forall other: nat :: other != r.token ==> Resolve(r.table, other) == Resolve(t, other)
  {
    var generation := NextOf(CYCLE, t.entries[i].generation);
    TokenRoundTrip(Ref(i, generation));
    var r := StoreAt(t, i, ptr, owned);
    forall other: nat | other != r.token ensures Resolve(r.table, other) == Resolve(t, other) {
      if DecodeToken(other).Some? {
        DecodedIsMade(other);
      }
    }
  }

  // Releasing a token ends it and no other one; a token that is not live is left alone.
  lemma ReleaseEndsOneToken(t: Table, token: nat)
    requires ValidTable(t)
    ensures ValidTable(ReleaseHandle(t, token)) && Resolve(ReleaseHandle(t, token), token).None?
    ensures forall other: nat :: other != token ==> Resolve(ReleaseHandle(t, token), other) == Resolve(t, other)
  {
    forall other: nat | other != token ensures Resolve(ReleaseHandle(t, token), other) == Resolve(t, other) {
      if DecodeToken(other).Some? && Resolve(t, token).Some? {
        DecodedIsMade(other);
        DecodedIsMade(token);
      }
    }
  }

  // ---------------------------------------------------------------- stale tokens over a run

  datatype Op = Store(ptr: Option<nat>, owned: bool) | Release(token: nat) | Clear

  function Apply(t: Table, op: Op): Table
    requires ValidTable(t)
  {
    match op
    case Store(ptr, owned) => StoreHandle(t, ptr, owned).table
    case Release(token) => ReleaseHandle(t, token)
    case Clear => ClearHandles(t)
  }

  // The slot that an operation hands out.
  function HandsOut(t: Table, op: Op): Option<nat>
    requires ValidTable(t)
  {
    if op.Store? && op.ptr.Some? then Scan(t, t.next, CAPACITY - 1) else None
  }

  lemma ApplyKeepsValid(t: Table, op: Op, i: nat)
    requires ValidTable(t) && 1 <= i < CAPACITY
    ensures ValidTable(Apply(t, op))
    ensures var u := Apply(t, op);
            if HandsOut(t, op) == Some(i)
            then u.entries[i].generation == NextOf(CYCLE, t.entries[i].generation)
            else u.entries[i].generation == t.entries[i].generation
                 && (t.entries[i].ptr.None? ==> u.entries[i].ptr.None?)
  {
    ScanFindsFreeSlot(t);
    match op
    case Store(ptr, owned) =>
      if ptr.Some? {
        StoreSucceedsUnlessFull(t, ptr.value, owned);
      }
    case Release(token) =>
      ReleaseEndsOneToken(t, token);
      if DecodeToken(token).Some? {
        DecodedIsMade(token);
      }
    case Clear =>
  }

  function Run(t: Table, ops: seq<Op>): Option<Table>
    decreases |ops|
  {
    if ops == [] then Some(t)
    else
      match Run(t, ops[..|ops| - 1])
      case None => None
      case Some(u) => if ValidTable(u) then Some(Apply(u, ops[|ops| - 1])) else None
  }

  // How often the run hands out slot i.
  function Reuses(t: Table, ops: seq<Op>, i: nat): nat
    decreases |ops|
  {
    if ops == [] then 0
    else
      var before := Run(t, ops[..|ops| - 1]);
      Reuses(t, ops[..|ops| - 1], i)
      + if before.Some? && ValidTable(before.value) && HandsOut(before.value, ops[|ops| - 1]) == Some(i) then 1 else 0
  }

  lemma {:induction false} GenerationCountsReuses(t: Table, ops: seq<Op>, i: nat)
    requires ValidTable(t) && 1 <= i < CAPACITY
    ensures Run(t, ops).Some? && ValidTable(Run(t, ops).value)
    ensures var e := Run(t, ops).value.entries[i];
            && e.generation == Steps(CYCLE, t.entries[i].generation, Reuses(t, ops, i))
            && (t.entries[i].ptr.None? && Reuses(t, ops, i) == 0 ==> e.ptr.None?)
    decreases |ops|
  {
    hide Apply, HandsOut, ValidTable;
    if ops != [] {
      GenerationCountsReuses(t, ops[..|ops| - 1], i);
      ApplyKeepsValid(Run(t, ops[..|ops| - 1]).value, ops[|ops| - 1], i);
    }
  }

  // A released token is rejected through the next 16382 uses of its slot. The bound is sharp: when the
  // slot has been handed out a multiple of 16383 times the generation is the old one again, and then the
  // token is live exactly if the slot is.
  lemma StaleTokenIsRejected(t: Table, token: nat, ops: seq<Op>)
    requires ValidTable(t) && DecodeToken(token).Some?
    requires var r := DecodeToken(token).value;
             t.entries[r.index].generation == r.generation && t.entries[r.index].ptr.None?
    ensures Run(t, ops).Some? && ValidTable(Run(t, ops).value)
    ensures var r := DecodeToken(token).value;
            var n := Reuses(t, ops, r.index);
            var u := Run(t, ops).value;
            && (n < CYCLE ==> Resolve(u, token).None?)
            && Resolve(u, token) == if Wrapped(CYCLE, n) == 0 then u.entries[r.index].ptr else None
  {
    hide ValidTable, Reuses, Run, Steps;
    DecodedIsMade(token);
    var r := DecodeToken(token).value;
    var n := Reuses(t, ops, r.index);
    GenerationCountsReuses(t, ops, r.index);
    SameGenerationIff(CYCLE, r.generation, n);
  }

  // ---------------------------------------------------------------- live tokens over a run

  // The operations that end a token.
  predicate EndsToken(op: Op, token: nat) {
    op.Clear? || (op.Release? && op.token == token)
  }

  lemma ApplyKeepsToken(t: Table, op: Op, token: nat)
    requires ValidTable(t) && Resolve(t, token).Some?
    ensures ValidTable(Apply(t, op))
    ensures Resolve(Apply(t, op), token) == if EndsToken(op, token) then None else Resolve(t, token)
  {
    match op
    case Store(ptr, owned) =>
      if ptr.Some? {
        StoreSucceedsUnlessFull(t, ptr.value, owned);
      }
    case Release(other) => ReleaseEndsOneToken(t, other);
    case Clear => DecodedIsMade(token);
  }

  lemma RunIsValid(t: Table, ops: seq<Op>)
    requires ValidTable(t)
    ensures Run(t, ops).Some? && ValidTable(Run(t, ops).value)
  {
    GenerationCountsReuses(t, ops, 1);
  }

  // In every run a live token keeps naming the pointer it was issued for until it is released or the table
  // is cleared.
  lemma {:induction false} LiveTokenKeepsItsPointer(t: Table, token: nat, ops: seq<Op>)
    requires ValidTable(t) && Resolve(t, token).Some?
    requires forall i :: 0 <= i < |ops| ==> !EndsToken(ops[i], token)
    ensures Run(t, ops).Some? && ValidTable(Run(t, ops).value)
    ensures Resolve(Run(t, ops).value, token) == Resolve(t, token)
    decreases |ops|
  {
    hide Apply, Resolve, ValidTable, EndsToken;
    if ops != [] {
      LiveTokenKeepsItsPointer(t, token, ops[..|ops| - 1]);
      ApplyKeepsToken(Run(t, ops[..|ops| - 1]).value, ops[|ops| - 1], token);
    }
  }

  // The token that the operation i of a run hands out, 0 for none.
  ghost function Issued(t: Table, ops: seq<Op>, i: nat): nat
    requires ValidTable(t) && i < |ops|
  {
    RunIsValid(t, ops[..i]);
    if ops[i].Store? then StoreHandle(Run(t, ops[..i]).value, ops[i].ptr, ops[i].owned).token else 0
  }

  lemma RunOneMore(t: Table, ops: seq<Op>, i: nat)
    requires ValidTable(t) && i < |ops|
    ensures Run(t, ops[..i]).Some? && ValidTable(Run(t, ops[..i]).value)
    ensures Run(t, ops[..i + 1]) == Some(Apply(Run(t, ops[..i]).value, ops[i]))
  {
    RunIsValid(t, ops[..i]);
    assert ops[..i + 1][..i] == ops[..i];
  }

  lemma {:induction false} RunInTwo(t: Table, a: seq<Op>, b: seq<Op>)
    requires ValidTable(t)
    ensures Run(t, a).Some? && ValidTable(Run(t, a).value) && Run(t, a + b) == Run(Run(t, a).value, b)
    decreases |b|
  {
    hide Apply, ValidTable;
    RunIsValid(t, a);
    if b == [] {
      assert a + b == a;
    } else {
      assert (a + b)[..|a + b| - 1] == a + b[..|b| - 1];
      RunInTwo(t, a, b[..|b| - 1]);
    }
  }

  lemma IssueStep(t: Table, ops: seq<Op>, i: nat)
    requires ValidTable(t) && i < |ops| && Issued(t, ops, i) != 0
    ensures ops[i].Store? && ops[i].ptr.Some?
    ensures Run(t, ops[..i]).Some? && ValidTable(Run(t, ops[..i]).value)
    ensures Run(t, ops[..i + 1]).Some? && ValidTable(Run(t, ops[..i + 1]).value)
    ensures Resolve(Run(t, ops[..i]).value, Issued(t, ops, i)).None?
    ensures Resolve(Run(t, ops[..i + 1]).value, Issued(t, ops, i)) == ops[i].ptr
  {
    RunOneMore(t, ops, i);
    RunIsValid(t, ops[..i + 1]);
    hide Run, Resolve, ValidTable;
    StoreSucceedsUnlessFull(Run(t, ops[..i]).value, ops[i].ptr.value, ops[i].owned);
  }

  // A token that is issued names its pointer at the end of the run unless something has ended it since.
  lemma IssuedTokenIsLive(t: Table, ops: seq<Op>, i: nat, n: nat)
    requires ValidTable(t) && i < n <= |ops| && Issued(t, ops, i) != 0
    requires forall k :: i < k < n ==> !EndsToken(ops[k], Issued(t, ops, i))
    ensures Run(t, ops[..n]).Some? && ValidTable(Run(t, ops[..n]).value)
    ensures ops[i].Store? && ops[i].ptr.Some? && Resolve(Run(t, ops[..n]).value, Issued(t, ops, i)) == ops[i].ptr
  {
    hide Run, Resolve, ValidTable, Issued, EndsToken;
    var token := Issued(t, ops, i);
    IssueStep(t, ops, i);
    var rest := ops[i + 1..n];
    assert ops[..n] == ops[..i + 1] + rest;
    RunInTwo(t, ops[..i + 1], rest);
    forall k | 0 <= k < |rest| ensures !EndsToken(rest[k], token) {
      assert rest[k] == ops[i + 1 + k];
    }
    LiveTokenKeepsItsPointer(Run(t, ops[..i + 1]).value, token, rest);
  }

  // Tokens that are live together are different, however many have been issued.
  lemma LiveTokensAreDistinct(t: Table, ops: seq<Op>, i: nat, j: nat)
    requires ValidTable(t) && i < j < |ops| && Issued(t, ops, i) != 0 && Issued(t, ops, j) != 0
    requires forall k :: i < k < j ==> !EndsToken(ops[k], Issued(t, ops, i))
    ensures Issued(t, ops, i) != Issued(t, ops, j)
  {
    hide Run, Resolve, ValidTable, Issued, EndsToken;
    IssuedTokenIsLive(t, ops, i, j);
    IssueStep(t, ops, j);
  }

  // A PTR argument that holds a live token is taken for the token; one that holds a released token is
  // reported as stale through the next 16382 uses of the slot, unless memory lies at that address.
  lemma ReleasedTokenIsStale(t: Table, token: nat, ops: seq<Op>, committed: bool)
    requires ValidTable(t) && DecodeToken(token).Some?
    requires var r := DecodeToken(token).value;
             t.entries[r.index].generation == r.generation && t.entries[r.index].ptr.None?
    ensures Run(t, ops).Some? && ValidTable(Run(t, ops).value)
    ensures var r := DecodeToken(token).value;
            var u := Run(t, ops).value;
            && (Classify(u, token, committed).Token? <==> Resolve(u, token).Some?)
            && (Reuses(t, ops, r.index) < CYCLE ==>
                  Classify(u, token, committed) == if committed then Raw else Stale)
  {
    hide Resolve, Reuses;
    var r := DecodeToken(token).value;
    DecodedIsMade(token);
    StaleTokenIsRejected(t, token, ops);
    GenerationCountsReuses(t, ops, r.index);
    SameGenerationIff(CYCLE, r.generation, Reuses(t, ops, r.index));
  }

  // ---------------------------------------------------------------- the scan

  // The scan takes the first free slot from its start on.
  lemma {:induction false} ScanTakesFirst(t: Table, start: nat, k: nat, attempts: nat, i: nat)
    requires ValidTable(t) && 1 <= start < CAPACITY && k + attempts <= CAPACITY - 1 && k < CAPACITY - 1
    requires Scan(t, Place(start, k), attempts) == Some(i)
    ensures exists n: nat :: n < k + attempts && k <= n && Place(start, n) == i
                             && forall j :: k <= j < n ==> t.entries[Place(start, j)].ptr.Some?
    decreases attempts
  {
    if t.entries[Place(start, k)].ptr.Some? {
      assert NextIndex(Place(start, k)) == if k + 1 < CAPACITY - 1 then Place(start, k + 1) else start;
      if k + 1 < CAPACITY - 1 {
        ScanTakesFirst(t, start, k + 1, attempts - 1, i);
        var n: nat :| n < k + attempts && k + 1 <= n && Place(start, n) == i
                      && forall j :: k + 1 <= j < n ==> t.entries[Place(start, j)].ptr.Some?;
        assert n < k + attempts && k <= n && Place(start, n) == i;
      }
    } else {
      assert k < k + attempts && Place(start, k) == i;
    }
  }

  // A scan that comes back to the slot before its first one has passed all others.
  lemma OneTurn(i: nat, n: nat, j: nat) returns (k: nat)
    requires 1 <= i < CAPACITY && n < CAPACITY - 1 && Place(NextIndex(i), n) == i
    requires 1 <= j < CAPACITY && j != i
    ensures k < n && Place(NextIndex(i), k) == j
  {
    var start := NextIndex(i);
    k := if j >= start then j - start else j + (CAPACITY - 1) - start;
  }

  lemma TokenNamesSlot(t: Table, i: nat, ptr: nat, owned: bool)
    requires ValidTable(t) && 1 <= i < CAPACITY && t.entries[i].ptr.None?
    ensures StoreAt(t, i, ptr, owned).token % 0x1_0000 == i && DecodeToken(StoreAt(t, i, ptr, owned).token).Some?
  {
    TokenRoundTrip(Ref(i, NextOf(CYCLE, t.entries[i].generation)));
  }

  // The next scan starts right behind the slot that was handed out last: when its token is released at once,
  // the slot is not handed out again while any other one is free.
  lemma ReleasedSlotIsReusedLast(t: Table, ptr: nat, owned: bool, other: nat, otherOwned: bool)
    requires ValidTable(t) && StoreHandle(t, Some(ptr), owned).token != 0
    ensures var r := StoreHandle(t, Some(ptr), owned);
            ValidTable(r.table) && ValidTable(ReleaseHandle(r.table, r.token))
            && var u := StoreHandle(ReleaseHandle(r.table, r.token), Some(other), otherOwned);
               u.token != 0
               && (u.token % 0x1_0000 == r.token % 0x1_0000 ==>
                     forall j :: 1 <= j < CAPACITY && j != r.token % 0x1_0000 ==> t.entries[j].ptr.Some?)
  {
    ScanFindsFreeSlot(t);
    StoreSucceedsUnlessFull(t, ptr, owned);
    var i := Scan(t, t.next, CAPACITY - 1).value;
    TokenNamesSlot(t, i, ptr, owned);
    var r := StoreAt(t, i, ptr, owned);
    ReleaseEndsOneToken(r.table, r.token);
    var s := ReleaseHandle(r.table, r.token);
    assert s.next == NextIndex(i) && s.entries[i].ptr.None?;
    assert forall j :: 0 <= j < CAPACITY && j != i ==> s.entries[j] == t.entries[j];
    StoreSucceedsUnlessFull(s, other, otherOwned);
    ScanFindsFreeSlot(s);
    hide Scan, ValidTable, MakeToken;
    var k := Scan(s, s.next, CAPACITY - 1).value;
    TokenNamesSlot(s, k, other, otherOwned);
    if k == i {
      RescanPassesAll(s, i);
    }
  }

  lemma RescanPassesAll(t: Table, i: nat)
    requires ValidTable(t) && 1 <= i < CAPACITY && t.next == NextIndex(i) && Scan(t, t.next, CAPACITY - 1) == Some(i)
    ensures forall j :: 1 <= j < CAPACITY && j != i ==> t.entries[j].ptr.Some?
  {
    assert Place(t.next, 0) == t.next;
    ScanTakesFirst(t, t.next, 0, CAPACITY - 1, i);
    hide ValidTable, Scan;
    var n: nat :| n < CAPACITY - 1 && Place(t.next, n) == i
                  && forall j :: 0 <= j < n ==> t.entries[Place(t.next, j)].ptr.Some?;
    forall j: nat | 1 <= j < CAPACITY && j != i ensures t.entries[j].ptr.Some? {
      var k := OneTurn(i, n, j);
      assert t.entries[Place(t.next, k)].ptr.Some?;
    }
  }

  // After a clear the slots are handed out from the first one on.
  lemma ClearStartsOver(t: Table, ptr: nat, owned: bool)
    requires ValidTable(t)
    ensures ValidTable(ClearHandles(t)) && StoreHandle(ClearHandles(t), Some(ptr), owned).token % 0x1_0000 == 1
  {
    var u := ClearHandles(t);
    assert u.entries[1].ptr.None? && Scan(u, 1, CAPACITY - 1) == Some(1);
    TokenNamesSlot(u, 1, ptr, owned);
  }

  // ---------------------------------------------------------------- what is freed

  // The pointers that the slots 1, ..., n - 1 own.
  function OwnedPointers(entries: seq<Entry>, n: nat): seq<nat>
    requires n <= |entries|
  {
    if n <= 1 then []
    else
      var e := entries[n - 1];
      OwnedPointers(entries, n - 1) + if e.ptr.Some? && e.owned then [e.ptr.value] else []
  }

  predicate Owns(entries: seq<Entry>, i: nat, p: nat) {
    1 <= i < |entries| && entries[i].owned && entries[i].ptr == Some(p)
  }

  ghost function OwnersBelow(entries: seq<Entry>, n: nat, p: nat): set<nat> {
    set i: nat | i < n && Owns(entries, i, p)
  }

  lemma OneMoreOwner(entries: seq<Entry>, last: nat, p: nat)
    ensures |OwnersBelow(entries, last + 1, p)| == |OwnersBelow(entries, last, p)| + if Owns(entries, last, p) then 1 else 0
  {
    assert OwnersBelow(entries, last + 1, p)
        == OwnersBelow(entries, last, p) + if Owns(entries, last, p) then {last} else {};
  }

  lemma CountAdded(s: seq<nat>, x: nat, p: nat)
    ensures multiset(s + [x])[p] == multiset(s)[p] + if x == p then 1 else 0
  {
    assert multiset(s + [x]) == multiset(s) + multiset{x};
  }

  lemma CountOneMore(entries: seq<Entry>, last: nat, p: nat)
    requires 1 <= last < |entries|
    ensures multiset(OwnedPointers(entries, last + 1))[p]
            == multiset(OwnedPointers(entries, last))[p] + if Owns(entries, last, p) then 1 else 0
  {
    var e := entries[last];
    var before := OwnedPointers(entries, last);
    assert OwnedPointers(entries, last + 1) == before + if e.ptr.Some? && e.owned then [e.ptr.value] else [];
    assert Owns(entries, last, p) <==> e.owned && e.ptr == Some(p);
    hide OwnedPointers, Owns;
    if e.ptr.Some? && e.owned {
      CountAdded(before, e.ptr.value, p);
    } else {
      assert before + [] == before;
    }
  }

  lemma NobodyBelow(entries: seq<Entry>, n: nat, p: nat)
    requires n <= 1 && n <= |entries|
    ensures multiset(OwnedPointers(entries, n))[p] == 0 && |OwnersBelow(entries, n, p)| == 0
  {
    assert OwnersBelow(entries, n, p) == {};
  }

  // A pointer is freed once for every slot that owns it.
  lemma {:induction false} FreedForEachOwner(entries: seq<Entry>, n: nat, p: nat)
    requires n <= |entries|
    ensures multiset(OwnedPointers(entries, n))[p] == |OwnersBelow(entries, n, p)|
  {
    hide OwnersBelow, OwnedPointers, Owns;
    if n <= 1 {
      NobodyBelow(entries, n, p);
    } else {
      var last: nat := n - 1;
      FreedForEachOwner(entries, last, p);
      OneMoreOwner(entries, last, p);
      CountOneMore(entries, last, p);
    }
  }

  // What an operation frees, and whether it makes the table the owner of p.
  function FreedBy(t: Table, op: Op): seq<nat>
    requires ValidTable(t)
  {
    match op
    case Store(_, _) => []
    case Release(token) =>
      if Resolve(t, token).Some? && t.entries[DecodeToken(token).value.index].owned then [Resolve(t, token).value] else []
    case Clear => OwnedPointers(t.entries, CAPACITY)
  }

  function GivenBy(t: Table, op: Op, p: nat): nat
    requires ValidTable(t)
  {
    if op == Op.Store(Some(p), true) && StoreHandle(t, op.ptr, op.owned).token != 0 then 1 else 0
  }

  ghost function TimesFreed(t: Table, ops: seq<Op>, p: nat): nat
    requires ValidTable(t)
    decreases |ops|
  {
    if ops == [] then 0
    else
      RunIsValid(t, ops[..|ops| - 1]);
      TimesFreed(t, ops[..|ops| - 1], p) + multiset(FreedBy(Run(t, ops[..|ops| - 1]).value, ops[|ops| - 1]))[p]
  }

  ghost function TimesGiven(t: Table, ops: seq<Op>, p: nat): nat
    requires ValidTable(t)
    decreases |ops|
  {
    if ops == [] then 0
    else
      RunIsValid(t, ops[..|ops| - 1]);
      TimesGiven(t, ops[..|ops| - 1], p) + GivenBy(Run(t, ops[..|ops| - 1]).value, ops[|ops| - 1], p)
  }

  ghost function OwnersOf(t: Table, p: nat): nat {
    |OwnersBelow(t.entries, |t.entries|, p)|
  }

  lemma OwnsAfter(entries: seq<Entry>, i: nat, e: Entry, k: nat, p: nat)
    requires 1 <= i < |entries|
    ensures Owns(entries[i := e], k, p) <==> if k == i then e.owned && e.ptr == Some(p) else Owns(entries, k, p)
  {
  }

  lemma {:induction false} EntryChanged(entries: seq<Entry>, i: nat, e: Entry, n: nat, p: nat)
    requires 1 <= i < |entries| && n <= |entries|
    ensures multiset(OwnedPointers(entries[i := e], n))[p] + (if i < n && Owns(entries, i, p) then 1 else 0)
            == multiset(OwnedPointers(entries, n))[p] + if i < n && e.owned && e.ptr == Some(p) then 1 else 0
  {
    hide OwnersBelow, OwnedPointers, Owns;
    if n <= 1 {
      NobodyBelow(entries, n, p);
      NobodyBelow(entries[i := e], n, p);
    } else {
      var last: nat := n - 1;
      EntryChanged(entries, i, e, last, p);
      OwnsAfter(entries, i, e, last, p);
      CountOneMore(entries, last, p);
      CountOneMore(entries[i := e], last, p);
    }
  }

  lemma SlotChanged(t: Table, i: nat, e: Entry, next: nat, p: nat)
    requires ValidTable(t) && 1 <= i < CAPACITY
    ensures OwnersOf(Table(t.entries[i := e], next), p) + (if Owns(t.entries, i, p) then 1 else 0)
            == OwnersOf(t, p) + if e.owned && e.ptr == Some(p) then 1 else 0
  {
    assert |t.entries| == CAPACITY;
    hide ValidTable, OwnersBelow, OwnedPointers, Owns;
    EntryChanged(t.entries, i, e, CAPACITY, p);
    FreedForEachOwner(t.entries, CAPACITY, p);
    FreedForEachOwner(t.entries[i := e], CAPACITY, p);
  }

  lemma StoreOwns(t: Table, ptr: Option<nat>, owned: bool, p: nat)
    requires ValidTable(t)
    ensures OwnersOf(StoreHandle(t, ptr, owned).table, p) == OwnersOf(t, p) + GivenBy(t, Op.Store(ptr, owned), p)
  {
    if ptr.Some? {
      ScanFindsFreeSlot(t);
      StoreSucceedsUnlessFull(t, ptr.value, owned);
      if Scan(t, t.next, CAPACITY - 1).Some? {
        var i := Scan(t, t.next, CAPACITY - 1).value;
        SlotChanged(t, i, StoreAt(t, i, ptr.value, owned).table.entries[i], NextIndex(i), p);
      }
    }
  }

  lemma ReleaseOwns(t: Table, token: nat, p: nat)
    requires ValidTable(t)
    ensures OwnersOf(ReleaseHandle(t, token), p) + multiset(FreedBy(t, Op.Release(token)))[p] == OwnersOf(t, p)
  {
    if Resolve(t, token).Some? {
      DecodedIsMade(token);
      var i := DecodeToken(token).value.index;
      SlotChanged(t, i, t.entries[i].(ptr := None, owned := false), t.next, p);
    }
  }

  lemma ClearOwns(t: Table, p: nat)
    requires ValidTable(t)
    ensures OwnersOf(ClearHandles(t), p) == 0 && multiset(FreedBy(t, Clear))[p] == OwnersOf(t, p)
  {
    FreedForEachOwner(t.entries, CAPACITY, p);
    assert OwnersBelow(ClearHandles(t).entries, CAPACITY, p) == {};
  }

  // Over every run a pointer is freed as often as the table was made its owner, less once for every slot
  // that still owns it: nothing owned leaks, nothing is freed twice, and nothing that was lent is freed.
  lemma {:induction false} OwnedIsFreedOnce(t: Table, ops: seq<Op>, p: nat)
    requires ValidTable(t)
    ensures Run(t, ops).Some? && ValidTable(Run(t, ops).value)
    ensures TimesFreed(t, ops, p) + OwnersOf(Run(t, ops).value, p) == TimesGiven(t, ops, p) + OwnersOf(t, p)
    decreases |ops|
  {
    hide ValidTable, OwnersOf, Apply, FreedBy, GivenBy;
    RunIsValid(t, ops);
    if ops != [] {
      var before := ops[..|ops| - 1];
      OwnedIsFreedOnce(t, before, p);
      StepOwns(Run(t, before).value, ops[|ops| - 1], p);
    }
  }

  lemma StepOwns(t: Table, op: Op, p: nat)
    requires ValidTable(t)
    ensures multiset(FreedBy(t, op))[p] + OwnersOf(Apply(t, op), p) == GivenBy(t, op, p) + OwnersOf(t, p)
  {
    hide ValidTable, OwnersOf, StoreHandle, ReleaseHandle, ClearHandles;
    match op
    case Store(ptr, owned) => StoreOwns(t, ptr, owned, p);
    case Release(token) => ReleaseOwns(t, token, p);
    case Clear => ClearOwns(t, p);
  }

  // ---------------------------------------------------------------- addresses that were never tokens

  // A number whose slot has never been handed out is an ordinary address.
  lemma NeverIssuedIsRaw(t: Table, ops: seq<Op>, value: nat, committed: bool)
    requires ValidTable(t) && forall i :: 0 <= i < CAPACITY ==> t.entries[i] == Entry(None, false, 0)
    requires DecodeToken(value).Some? ==> Reuses(t, ops, DecodeToken(value).value.index) == 0
    ensures Run(t, ops).Some? && ValidTable(Run(t, ops).value)
    ensures Classify(Run(t, ops).value, value, committed) == Raw
  {
    hide ValidTable, Run, Reuses;
    RunIsValid(t, ops);
    if DecodeToken(value).Some? {
      DecodedIsMade(value);
      GenerationCountsReuses(t, ops, DecodeToken(value).value.index);
    }
  }

  // ---------------------------------------------------------------- the table as the library keeps it

  class HandleTable {
    const handles: array<Entry>
    var nextHandle: nat

    ghost predicate Valid()
      reads this, handles
    {
      ValidTable(Value())
    }

    ghost function Value(): Table
      reads this, handles
    {
      Table(handles[..], nextHandle)
    }

    constructor ()
      ensures Valid() && fresh(handles)
      ensures forall i :: 0 <= i < CAPACITY ==> handles[i] == Entry(None, false, 0)
    {
      handles := new Entry[CAPACITY](_ => Entry(None, false, 0));
      nextHandle := 1;
    }

    // store_handle.
    method Store(ptr: Option<nat>, owned: bool) returns (token: nat)
      requires Valid()
      modifies this, handles
      ensures Valid()
      ensures Stored(Value(), token) == StoreHandle(old(Value()), ptr, owned)
    {
      if ptr.None? {
        return 0;
      }
      ghost var t := Value();
      var attempts := 0;
      ScanFindsFreeSlot(t);
      while attempts < CAPACITY - 1
        invariant attempts <= CAPACITY - 1 && handles[..] == t.entries && 1 <= nextHandle < CAPACITY
        invariant attempts < CAPACITY - 1 ==> nextHandle == Place(t.next, attempts)
        invariant attempts == CAPACITY - 1 ==> nextHandle == t.next
        invariant Scan(t, nextHandle, CAPACITY - 1 - attempts) == Scan(t, t.next, CAPACITY - 1)
      {
        var index := nextHandle;
        nextHandle := nextHandle + 1;
        if nextHandle >= CAPACITY {
          nextHandle := 1;
        }
        if handles[index].ptr.None? {
          var generation := NextOf(CYCLE, handles[index].generation);
          handles[index] := Entry(ptr, owned, generation);
          assert handles[..] == t.entries[index := Entry(ptr, owned, generation)];
          return MakeToken(index, generation);
        }
        attempts := attempts + 1;
      }
      return 0;
    }

    // uxffi_release_handle; an owned pointer is freed, exactly when it is given up.
    method Release(token: nat) returns (released: bool, freed: Option<nat>)
      requires Valid()
      modifies handles
      ensures Valid() && Value() == ReleaseHandle(old(Value()), token)
      ensures released <==> Resolve(old(Value()), token).Some?
      ensures freed == if released && old(handles[DecodeToken(token).value.index].owned)
                       then Resolve(old(Value()), token) else None
      ensures FreedBy(old(Value()), Op.Release(token)) == if freed.Some? then [freed.value] else []
    {
      ReleaseEndsOneToken(Value(), token);
      var r := DecodeToken(token);
      if r.None? {
        return false, None;
      }
      var index := r.value.index;
      if handles[index].ptr.None? || handles[index].generation != r.value.generation {
        return false, None;
      }
      freed := if handles[index].owned then handles[index].ptr else None;
      handles[index] := handles[index].(ptr := None, owned := false);
      assert handles[..] == old(handles[..])[index := old(handles[index]).(ptr := None, owned := false)];
      return true, freed;
    }

    // uxffi_clear_handles; the owned pointers of all slots are freed, each slot's once.
    method Clear() returns (freed: seq<nat>)
      requires Valid()
      modifies this, handles
      ensures Valid() && Value() == ClearHandles(old(Value()))
      ensures freed == FreedBy(old(Value()), Op.Clear)
    {
      freed := [];
      for i := 1 to CAPACITY
        invariant nextHandle == old(nextHandle) && freed == OwnedPointers(old(handles[..]), i)
        invariant forall k :: 1 <= k < i ==> handles[k] == old(handles[k]).(ptr := None, owned := false)
        invariant forall k :: (k == 0 || i <= k < CAPACITY) ==> handles[k] == old(handles[k])
      {
        if handles[i].ptr.Some? && handles[i].owned {
          freed := freed + [handles[i].ptr.value];
        }
        handles[i] := handles[i].(ptr := None, owned := false);
      }
      nextHandle := 1;
      assert handles[..] == ClearHandles(old(Value())).entries;
    }
  }
}
