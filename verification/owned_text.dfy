/**
 Owned STRING copies and the ring of temporary texts in native/uxb_runtime/uxb_runtime_mir.cpp. Pointers
 and slot addresses are numbers, 0 is null; texts may contain zero bytes. Literals and foreign C strings
 lie outside the heap and keep their text. One thread is modelled, so there is one ring.
 */
module OwnedText {
  import opened Basics

  const RING: nat := 32

  type Pointer = nat

  // The owner of a copy, and its length.
  datatype Owned = Owned(owner: Pointer, length: nat)

  // An entry of the ring: where its text lies at the moment.
  datatype Temp = Temp(address: Pointer, text: string)

  datatype Memory = Memory(
    slots: map<Pointer, Pointer>,
    heap: map<Pointer, string>,
    registry: map<Pointer, Owned>,
    ring: seq<Temp>,
    held: nat,
    outside: map<Pointer, string>)

  // ---------------------------------------------------------------- reading a text

  function RingIndex(ring: seq<Temp>, p: Pointer): (r: Option<nat>)
    ensures r.Some? ==> r.value < |ring| && ring[r.value].address == p
    ensures r.None? ==> forall i :: 0 <= i < |ring| ==> ring[i].address != p
    decreases |ring|
  {
    if ring == [] then None
    else
      match RingIndex(ring[..|ring| - 1], p)
      case Some(i) => Some(i)
      case None => if ring[|ring| - 1].address == p then Some(|ring| - 1) else None
  }

  // text_or_empty: null, then the ring, then the registered copies, then literals and C strings.
  function Text(m: Memory, p: Pointer): string {
    var held := RingIndex(m.ring, p);
    if p == 0 then ""
    else if held.Some? then m.ring[held.value].text
    else if p in m.registry && p in m.heap then m.heap[p]
    else if p in m.outside then m.outside[p]
    else ""
  }

  function SlotText(m: Memory, slot: Pointer): string {
    if slot in m.slots then Text(m, m.slots[slot]) else ""
  }

  // ---------------------------------------------------------------- the operations

  // __uxb_rt_str_store(slot, src); `copy` is what malloc returns.
  function Store(m: Memory, slot: Pointer, src: Pointer, copy: Pointer): Memory {
    var was := if slot in m.slots then m.slots[slot] else 0;
    if src != 0 && src == was && OwnedBy(m, was, slot) then m
    else
      var text := Text(m, src);
      var freed := if was != 0 && OwnedBy(m, was, slot) then {was} else {};
      m.(heap := (m.heap - freed)[copy := text],
         registry := (m.registry - freed)[copy := Owned(slot, |text|)],
         slots := m.slots[slot := copy])
  }

  predicate OwnedBy(m: Memory, p: Pointer, slot: Pointer) {
    p in m.registry && m.registry[p].owner == slot
  }

  // __uxb_rt_str_release(slot).
  function Release(m: Memory, slot: Pointer): Memory {
    if slot !in m.slots || m.slots[slot] == 0 || !OwnedBy(m, m.slots[slot], slot) then m
    else
      var was := m.slots[slot];
      m.(heap := m.heap - {was}, registry := m.registry - {was}, slots := m.slots[slot := 0])
  }

  // hold_text(text); `address` is where the entry's text lies afterwards.
  function Hold(m: Memory, text: string, address: Pointer): Memory
    requires |m.ring| == RING
  {
    m.(ring := m.ring[m.held % RING := Temp(address, text)], held := m.held + 1)
  }

  // ---------------------------------------------------------------- what always holds

  // The registered texts are exactly the heap copies, each with its length and with one owner, the slot
  // that points to it.
  ghost predicate RegistryOk(m: Memory) {
    && m.registry.Keys == m.heap.Keys
    && forall p :: p in m.registry ==>
         && p != 0 && |m.heap[p]| == m.registry[p].length
         && m.registry[p].owner in m.slots && m.slots[m.registry[p].owner] == p
  }

  // A slot never points to another slot's copy.
  ghost predicate SlotsOk(m: Memory) {
    forall s :: s in m.slots && m.slots[s] in m.heap ==> OwnedBy(m, m.slots[s], s)
  }

  // Live texts lie at different places.
  ghost predicate Apart(m: Memory) {
    && |m.ring| == RING
    && (forall i, j :: 0 <= i < j < RING ==> m.ring[i].address != m.ring[j].address)
    && (forall i :: 0 <= i < RING ==> m.ring[i].address != 0
                                      && m.ring[i].address !in m.heap && m.ring[i].address !in m.outside)
    && m.heap.Keys !! m.outside.Keys && 0 !in m.outside
  }

  ghost predicate MemoryOk(m: Memory) {
    RegistryOk(m) && SlotsOk(m) && Apart(m)
  }

  // malloc returns memory that nothing lives in and no slot points to.
  ghost predicate IsFresh(m: Memory, p: Pointer) {
    && p != 0 && p !in m.heap && p !in m.outside
    && (forall i :: 0 <= i < |m.ring| ==> m.ring[i].address != p)
    && (forall s :: s in m.slots ==> m.slots[s] != p)
  }

  lemma StoreKeepsOk(m: Memory, slot: Pointer, src: Pointer, copy: Pointer)
    requires MemoryOk(m) && IsFresh(m, copy)
    ensures MemoryOk(Store(m, slot, src, copy))
  {
  }

  lemma ReleaseKeepsOk(m: Memory, slot: Pointer)
    requires MemoryOk(m)
    ensures MemoryOk(Release(m, slot))
  {
  }

  // Where a ring text may lie after the entry is overwritten.
  ghost predicate MayHoldAt(m: Memory, address: Pointer)
    requires |m.ring| == RING
  {
    && address != 0 && address !in m.heap && address !in m.outside
    && forall i :: 0 <= i < RING && i != m.held % RING ==> m.ring[i].address != address
  }

  lemma HoldKeepsOk(m: Memory, text: string, address: Pointer)
    requires MemoryOk(m) && MayHoldAt(m, address)
    ensures MemoryOk(Hold(m, text, address))
  {
  }

  // ---------------------------------------------------------------- what a store means

  lemma SameRingSameText(m: Memory, u: Memory, p: Pointer)
    requires u.ring == m.ring && u.outside == m.outside
    requires p in m.registry && p in m.heap <==> p in u.registry && p in u.heap
    requires p in m.heap && p in u.heap ==> m.heap[p] == u.heap[p]
    ensures Text(u, p) == Text(m, p)
  {
  }

  // After a store the slot reads back exactly the source's text, zero bytes included, and every other slot
  // reads what it read before.
  lemma StoreCopiesText(m: Memory, slot: Pointer, src: Pointer, copy: Pointer, other: Pointer)
    requires MemoryOk(m) && IsFresh(m, copy)
    ensures var u := Store(m, slot, src, copy);
            && SlotText(u, slot) == Text(m, src)
            && (other != slot ==> SlotText(u, other) == SlotText(m, other))
  {
    var u := Store(m, slot, src, copy);
    if u != m {
      assert RingIndex(u.ring, copy).None?;
      if other != slot && other in m.slots {
        OtherSlotKept(m, u, slot, other, copy);
      }
    }
  }

  lemma OtherSlotKept(m: Memory, u: Memory, slot: Pointer, other: Pointer, copy: Pointer)
    requires MemoryOk(m) && IsFresh(m, copy) && other != slot && other in m.slots
    requires u.ring == m.ring && u.outside == m.outside && slot in u.slots && u.slots == m.slots[slot := u.slots[slot]]
    requires forall p :: p != copy && !OwnedBy(m, p, slot) ==>
               (p in u.heap <==> p in m.heap) && (p in u.registry <==> p in m.registry)
               && (p in m.heap && p in u.heap ==> u.heap[p] == m.heap[p])
    ensures SlotText(u, other) == SlotText(m, other)
  {
    var p := m.slots[other];
    if p in m.heap {
      assert OwnedBy(m, p, other);
    }
    SameRingSameText(m, u, p);
  }

  // A literal or a C string reads as it is, wherever it was before: nothing else lies at its address.
  lemma TextsAreReadWhereTheyLie(m: Memory, p: Pointer)
    requires MemoryOk(m)
    ensures p in m.outside ==> Text(m, p) == m.outside[p]
    ensures p in m.heap ==> Text(m, p) == m.heap[p]
    ensures p !in m.outside && p !in m.heap && (forall i :: 0 <= i < RING ==> m.ring[i].address != p) ==> Text(m, p) == ""
  {
  }

  // Assigning a STRING to itself copies nothing.
  lemma SelfStoreKeepsCopy(m: Memory, slot: Pointer, copy: Pointer)
    requires MemoryOk(m) && slot in m.slots && m.slots[slot] in m.heap
    ensures Store(m, slot, m.slots[slot], copy) == m
  {
  }

  // Releasing a slot frees its own copy, if it has one, and no text that another slot reads.
  lemma ReleaseFreesOwnCopy(m: Memory, slot: Pointer, other: Pointer)
    requires MemoryOk(m)
    ensures var u := Release(m, slot);
            && (u == m <==> slot !in m.slots || m.slots[slot] !in m.heap)
            && (u != m ==> SlotText(u, slot) == "" && u.heap.Keys == m.heap.Keys - {m.slots[slot]})
            && (other != slot ==> SlotText(u, other) == SlotText(m, other))
  {
    var u := Release(m, slot);
    assert slot in m.slots && m.slots[slot] in m.heap ==> u.slots[slot] == 0 && m.slots[slot] != 0;
    if u != m && other != slot && other in m.slots {
      var p := m.slots[other];
      if p in m.heap {
        assert OwnedBy(m, p, other);
      }
      SameRingSameText(m, u, p);
    }
  }

  // ---------------------------------------------------------------- runs

  datatype Op = StoreOp(slot: Pointer, src: Pointer, copy: Pointer) | ReleaseOp(slot: Pointer) | HoldOp(text: string, address: Pointer)

  ghost predicate CanDo(m: Memory, op: Op) {
    match op
    case StoreOp(_, _, copy) => IsFresh(m, copy)
    case ReleaseOp(_) => true
    case HoldOp(_, address) => |m.ring| == RING && MayHoldAt(m, address)
  }

  ghost function Do(m: Memory, op: Op): Memory
    requires CanDo(m, op)
  {
    match op
    case StoreOp(slot, src, copy) => Store(m, slot, src, copy)
    case ReleaseOp(slot) => Release(m, slot)
    case HoldOp(text, address) => Hold(m, text, address)
  }

  ghost predicate IsRun(run: seq<Memory>, ops: seq<Op>) {
    && |run| == |ops| + 1
    && forall k :: 0 <= k < |ops| ==> CanDo(run[k], ops[k]) && run[k + 1] == Do(run[k], ops[k])
  }

  // No run leaks a copy, frees one twice or leaves a slot with another slot's copy.
  lemma {:induction false} RunsKeepOk(run: seq<Memory>, ops: seq<Op>, n: nat)
    requires IsRun(run, ops) && MemoryOk(run[0]) && n < |run|
    ensures MemoryOk(run[n])
    decreases n
  {
    hide MemoryOk;
    if n > 0 {
      RunsKeepOk(run, ops, n - 1);
      assert run[n - 1 + 1] == Do(run[n - 1], ops[n - 1]);
      match ops[n - 1]
      case StoreOp(slot, src, copy) => StoreKeepsOk(run[n - 1], slot, src, copy);
      case ReleaseOp(slot) => ReleaseKeepsOk(run[n - 1], slot);
      case HoldOp(text, address) => HoldKeepsOk(run[n - 1], text, address);
    }
  }

  ghost function Owners(m: Memory, ps: set<Pointer>): set<Pointer>
    requires ps <= m.registry.Keys
  {
    set p | p in ps :: m.registry[p].owner
  }

  lemma {:induction false} OwnersAreAsMany(m: Memory, ps: set<Pointer>)
    requires RegistryOk(m) && ps <= m.registry.Keys
    ensures |Owners(m, ps)| == |ps| && Owners(m, ps) <= m.slots.Keys
  {
    if ps != {} {
      var p :| p in ps;
      OwnersAreAsMany(m, ps - {p});
      assert m.registry[p].owner !in Owners(m, ps - {p});
      assert Owners(m, ps) == Owners(m, ps - {p}) + {m.registry[p].owner};
    }
  }

  lemma {:induction false} SmallerSet(a: set<Pointer>, b: set<Pointer>)
    requires a <= b
    ensures |a| <= |b|
  {
    if a != {} {
      var p :| p in a;
      SmallerSet(a - {p}, b - {p});
    }
  }

  // Nothing leaks: in every run there are never more heap copies than slots.
  lemma CopiesNeverOutnumberSlots(run: seq<Memory>, ops: seq<Op>, n: nat)
    requires IsRun(run, ops) && MemoryOk(run[0]) && n < |run|
    ensures |run[n].heap.Keys| <= |run[n].slots.Keys|
  {
    RunsKeepOk(run, ops, n);
    OwnersAreAsMany(run[n], run[n].registry.Keys);
    SmallerSet(Owners(run[n], run[n].registry.Keys), run[n].slots.Keys);
  }

  function Holds(ops: seq<Op>): nat
    decreases |ops|
  {
    if ops == [] then 0 else Holds(ops[..|ops| - 1]) + if ops[|ops| - 1].HoldOp? then 1 else 0
  }

  // How many calls of hold_text ago the entry i was written: 1 for the newest.
  ghost predicate Aged(m: Memory, i: nat, age: nat) {
    1 <= age <= RING && i < RING && m.held >= age && i == (m.held - age) % RING
  }

  lemma OneHoldLater(m: Memory, i: nat, age: nat, text: string, address: Pointer)
    requires |m.ring| == RING && Aged(m, i, age) && age < RING
    ensures var u := Hold(m, text, address);
            Aged(u, i, age + 1) && u.ring[i] == m.ring[i]
  {
    assert m.held % RING != (m.held - age) % RING;
  }

  // What one operation does to an entry that is at most 31 calls old.
  lemma StepKeepsEntry(m: Memory, op: Op, i: nat, age: nat)
    requires CanDo(m, op) && |m.ring| == RING && Aged(m, i, age) && (op.HoldOp? ==> age < RING)
    ensures var u := Do(m, op);
            |u.ring| == RING && u.ring[i] == m.ring[i] && Aged(u, i, age + if op.HoldOp? then 1 else 0)
  {
    match op
    case StoreOp(_, _, _) =>
    case ReleaseOp(_) =>
    case HoldOp(text, address) => OneHoldLater(m, i, age, text, address);
  }

  lemma {:induction false} EntryIsKept(run: seq<Memory>, ops: seq<Op>, n: nat, i: nat)
    requires IsRun(run, ops) && |run[0].ring| == RING && n < |run|
    requires Aged(run[0], i, 1) && Holds(ops[..n]) < RING
    ensures |run[n].ring| == RING && Aged(run[n], i, 1 + Holds(ops[..n])) && run[n].ring[i] == run[0].ring[i]
    decreases n
  {
    hide CanDo, Do;
    if n > 0 {
      assert ops[..n][..n - 1] == ops[..n - 1];
      EntryIsKept(run, ops, n - 1, i);
      assert run[n - 1 + 1] == Do(run[n - 1], ops[n - 1]);
      StepKeepsEntry(run[n - 1], ops[n - 1], i, 1 + Holds(ops[..n - 1]));
    }
  }

  lemma RingLookup(m: Memory, i: nat)
    requires Apart(m) && i < RING
    ensures Text(m, m.ring[i].address) == m.ring[i].text
  {
    assert RingIndex(m.ring, m.ring[i].address).Some?;
  }

  // A text in the ring is read back unchanged through its old address during the next 31 calls of
  // hold_text, whatever is stored and released meanwhile.
  lemma RingTextSurvives(run: seq<Memory>, ops: seq<Op>, n: nat, i: nat)
    requires IsRun(run, ops) && MemoryOk(run[0]) && n < |run|
    requires Aged(run[0], i, 1) && Holds(ops[..n]) < RING
    ensures Text(run[n], run[0].ring[i].address) == run[0].ring[i].text
  {
    hide IsRun, Text;
    assert |run[0].ring| == RING;
    assert i < RING;
    RunsKeepOk(run, ops, n);
    EntryIsKept(run, ops, n, i);
    RingLookup(run[n], i);
  }

  // The 32nd call takes the entry: the bound is exact.
  lemma RingTextIsOverwritten(m: Memory, i: nat, text: string, address: Pointer)
    requires |m.ring| == RING && Aged(m, i, RING)
    ensures Hold(m, text, address).ring[i] == Temp(address, text)
  {
  }

  // ---------------------------------------------------------------- the source's own form

  // The order the code works in, the copy first, gives the same memory.
  lemma StoreInSteps(m: Memory, slot: Pointer, src: Pointer, copy: Pointer)
    ensures var was := if slot in m.slots then m.slots[slot] else 0;
            copy != was && !(src != 0 && src == was && was in m.registry && m.registry[was].owner == slot) ==>
              Store(m, slot, src, copy) ==
              if was != 0 && was in m.registry && m.registry[was].owner == slot
              then m.(heap := m.heap[copy := Text(m, src)] - {was},
                      registry := (m.registry - {was})[copy := Owned(slot, |Text(m, src)|)],
                      slots := m.slots[slot := copy])
              else m.(heap := m.heap[copy := Text(m, src)],
                      registry := m.registry[copy := Owned(slot, |Text(m, src)|)],
                      slots := m.slots[slot := copy])
  {
    hide Text;
    var was := if slot in m.slots then m.slots[slot] else 0;
    var text := Text(m, src);
    assert copy != was ==> (m.heap - {was})[copy := text] == m.heap[copy := text] - {was};
    assert m.heap - {} == m.heap && m.registry - {} == m.registry;
  }

  // The thread's ring array and its index, the registry table, the slots and the heap.
  class TextStore {
    var slots: map<Pointer, Pointer>
    var heap: map<Pointer, string>
    var registry: map<Pointer, Owned>
    const textRing: array<Temp>
    var textRingIndex: nat
    var outside: map<Pointer, string>

    ghost predicate Valid()
      reads this
    {
      textRing.Length == RING
    }

    ghost function View(): Memory
      reads this, textRing
      requires Valid()
    {
      Memory(slots, heap, registry, textRing[..], textRingIndex, outside)
    }

    // text_or_empty: the loop over the ring, then the two tables.
    method TextOrEmpty(value: Pointer) returns (text: string)
      requires Valid() && Apart(View()) && registry.Keys == heap.Keys
      ensures text == Text(View(), value)
    {
      if value == 0 {
        return "";
      }
      for k := 0 to textRing.Length
        invariant forall j :: 0 <= j < k ==> textRing[j].address != value
      {
        if textRing[k].address == value {
          RingLookup(View(), k);
          return textRing[k].text;
        }
      }
      if value in registry {
        text := heap[value][..];
      } else if value in outside {
        text := outside[value];
      } else {
        text := "";
      }
    }

    method HoldText(text: string, address: Pointer)
      requires Valid() && MayHoldAt(View(), address)
      modifies this`textRingIndex, textRing
      ensures Valid() && View() == Hold(old(View()), text, address)
    {
      textRing[textRingIndex % textRing.Length] := Temp(address, text);
      textRingIndex := textRingIndex + 1;
    }

    // __uxb_rt_str_store.
    method StrStore(slot: Pointer, src: Pointer, copy: Pointer)
      requires Valid() && MemoryOk(View()) && IsFresh(View(), copy)
      modifies this`slots, this`heap, this`registry
      ensures Valid() && View() == Store(old(View()), slot, src, copy)
    {
      var was := if slot in slots then slots[slot] else 0;
      if src != 0 && src == was && was in registry && registry[was].owner == slot {
        return;
      }
      assert copy != was && Apart(View()) && registry.Keys == heap.Keys;
      hide MemoryOk, IsFresh, Apart, Text;
      StoreInSteps(View(), slot, src, copy);
      hide Store, OwnedBy;
      var snapshot := TextOrEmpty(src);
      heap := heap[copy := snapshot];
      if was != 0 && was in registry && registry[was].owner == slot {
        heap := heap - {was};
        registry := registry - {was};
      }
      registry := registry[copy := Owned(slot, |snapshot|)];
      slots := slots[slot := copy];
    }

    // __uxb_rt_str_release.
    method StrRelease(slot: Pointer) returns (released: bool)
      requires Valid() && MemoryOk(View())
      modifies this`slots, this`heap, this`registry
      ensures Valid() && View() == Release(old(View()), slot)
      ensures released <==> View() != old(View())
    {
      if slot !in slots || slots[slot] == 0 || slots[slot] !in registry || registry[slots[slot]].owner != slot {
        return false;
      }
      heap := heap - {slots[slot]};
      registry := registry - {slots[slot]};
      slots := slots[slot := 0];
      released := true;
    }
  }
}
