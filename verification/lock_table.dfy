/**
 The lock table of native/uxb_runtime/uxb_runtime_sync.cpp as a value, with one function per
 critical section of its mutex.

 A lock is owned by a task: key 0 is the main program, a positive key is a task id. A lock taken by a
 statement (`explicitly == false`) is re-entrant; a lock taken by LOCK (`explicitly == true`) is not.
 `notified` records the condition variables on which the section called `notify_all`.
 */
module LockTable {

  datatype LockRec = LockRec(owner: int, autoDepth: nat, explicitDepth: nat)

  datatype WaitEdge = OnLock(id: nat) | OnTask(key: nat)

  datatype Table = Table(
    locks: map<nat, LockRec>,
    edges: map<nat, WaitEdge>,
    held: map<nat, int>,
    stacks: map<nat, seq<seq<nat>>>,
    entries: int,
    notified: set<nat>)

  const FREE := LockRec(-1, 0, 0)

  const EMPTY := Table(map[], map[], map[], map[], 0, {})

  // A lock that was never looked up behaves like a free one.
  function Rec(t: Table, id: nat): LockRec {
    if id in t.locks then t.locks[id] else FREE
  }

  function Owner(t: Table, id: nat): int {
    Rec(t, id).owner
  }

  function HeldCount(t: Table, key: nat): int {
    if key in t.held then t.held[key] else 0
  }

  function StackOf(t: Table, key: nat): seq<seq<nat>> {
    if key in t.stacks then t.stacks[key] else []
  }

  // ---------------------------------------------------------------- single locks

  datatype Acquired = Got(t: Table) | Busy | SelfDeadlock

  function TryAcquire(t: Table, key: nat, id: nat, explicitly: bool): Acquired {
    var r := Rec(t, id);
    if r.owner == key then
      if !explicitly then
        Got(t.(locks := t.locks[id := r.(autoDepth := r.autoDepth + 1)]))
      else if r.explicitDepth > 0 then
        SelfDeadlock
      else
        Got(t.(locks := t.locks[id := r.(explicitDepth := r.explicitDepth + 1)]))
    else if r.owner >= 0 then
      Busy
    else
      var taken := if explicitly then r.(owner := key, explicitDepth := 1) else r.(owner := key, autoDepth := 1);
      Got(t.(locks := t.locks[id := taken], held := t.held[key := HeldCount(t, key) + 1]))
  }

  datatype Released = Ok(t: Table) | NotOwner

  function DropOne(held: map<nat, int>, key: nat): map<nat, int> {
    if key !in held then held
    else if held[key] - 1 <= 0 then held - {key}
    else held[key := held[key] - 1]
  }

  function Release(t: Table, key: nat, id: nat, explicitly: bool): Released {
    if id !in t.locks || t.locks[id].owner != key then NotOwner
    else
      var r := t.locks[id];
      var left := if explicitly then r.(explicitDepth := if r.explicitDepth > 0 then r.explicitDepth - 1 else 0)
                  else r.(autoDepth := if r.autoDepth > 0 then r.autoDepth - 1 else 0);
      if left.autoDepth == 0 && left.explicitDepth == 0 then
        Ok(t.(locks := t.locks[id := left.(owner := -1)],
              held := DropOne(t.held, key),
              notified := t.notified + {id}))
      else
        Ok(t.(locks := t.locks[id := left]))
  }

  // ---------------------------------------------------------------- several locks

  // The sorted, duplicate-free list in which a statement takes its locks.
  function Insert(x: nat, s: seq<nat>): seq<nat> {
    if s == [] || x < s[0] then [x] + s
    else if x == s[0] then s
    else [s[0]] + Insert(x, s[1..])
  }

  function Ordered(ids: seq<nat>): seq<nat> {
    if ids == [] then [] else Insert(ids[|ids| - 1], Ordered(ids[..|ids| - 1]))
  }

  predicate Increasing(s: seq<nat>) {
    forall i, j :: 0 <= i < j < |s| ==> s[i] < s[j]
  }

  datatype Attempt = All(t: Table) | Stopped(t: Table, at: nat) | Fatal

  // Takes ids[i..] one after the other and stops at the first one another task owns.
  function Acquire(t: Table, key: nat, ids: seq<nat>, i: nat, explicitly: bool): Attempt
    requires i <= |ids|
    decreases |ids| - i
  {
    if i == |ids| then All(t)
    else
      match TryAcquire(t, key, ids[i], explicitly)
      case Got(t1) => Acquire(t1, key, ids, i + 1, explicitly)
      case Busy => Stopped(t, i)
      case SelfDeadlock => Fatal
  }

  function ReleaseReversed(t: Table, key: nat, ids: seq<nat>, explicitly: bool): Released
    decreases |ids|
  {
    if ids == [] then Ok(t)
    else
      match Release(t, key, ids[|ids| - 1], explicitly)
      case Ok(t1) => ReleaseReversed(t1, key, ids[..|ids| - 1], explicitly)
      case NotOwner => NotOwner
  }

  datatype Outcome = Entered(t: Table) | Blocked(t: Table, on: nat) | SelfDeadlocked | InternalError

  // One round of the retry loop of SYNC_ENTER: all the locks, or none and the id to wait for.
  function Enter(t: Table, key: nat, ids: seq<nat>, explicitly: bool): Outcome {
    match Acquire(t, key, ids, 0, explicitly)
    case All(t1) => Entered(if explicitly then Push(t1, key, ids) else t1)
    case Fatal => SelfDeadlocked
    case Stopped(t1, n) =>
      if n >= |ids| then InternalError
      else
        match ReleaseReversed(t1, key, ids[..n], explicitly)
        case Ok(t2) => Blocked(t2, ids[n])
        case NotOwner => InternalError
  }

  function Push(t: Table, key: nat, entry: seq<nat>): Table {
    t.(stacks := t.stacks[key := StackOf(t, key) + [entry]], entries := t.entries + 1)
  }

  // ---------------------------------------------------------------- the explicit stack

  function PopExplicit(t: Table, key: nat): Released {
    var st := StackOf(t, key);
    if st == [] then Ok(t)
    else
      var rest := st[..|st| - 1];
      match ReleaseReversed(t.(stacks := t.stacks[key := rest], entries := t.entries - 1), key, st[|st| - 1], true)
      case Ok(t1) => Ok(if rest == [] then t1.(stacks := t1.stacks - {key}) else t1)
      case NotOwner => NotOwner
  }

  lemma ReleaseKeepsStacks(t: Table, key: nat, ids: seq<nat>, explicitly: bool)
    ensures var r := ReleaseReversed(t, key, ids, explicitly);
            r.Ok? ==> r.t.stacks == t.stacks && r.t.entries == t.entries && r.t.edges == t.edges
                      && t.notified <= r.t.notified
    decreases |ids|
  {
    if ids != [] {
      var r := Release(t, key, ids[|ids| - 1], explicitly);
      if r.Ok? {
        ReleaseKeepsStacks(r.t, key, ids[..|ids| - 1], explicitly);
      }
    }
  }

  lemma PopShortens(t: Table, key: nat)
    requires StackOf(t, key) != []
    ensures var r := PopExplicit(t, key);
            r.Ok? ==> StackOf(r.t, key) == StackOf(t, key)[..|StackOf(t, key)| - 1]
                      && r.t.edges == t.edges && t.notified <= r.t.notified
                      && (forall k :: k != key ==> StackOf(r.t, k) == StackOf(t, k))
  {
    var st := StackOf(t, key);
    var rest := st[..|st| - 1];
    ReleaseKeepsStacks(t.(stacks := t.stacks[key := rest], entries := t.entries - 1), key, st[|st| - 1], true);
  }

  // lock_release_to and the loop of sync_release_all (mark 0): pop until at most `mark` entries are left.
  function PopTo(t: Table, key: nat, mark: int): Released
    decreases |StackOf(t, key)|
  {
    if |StackOf(t, key)| <= mark || StackOf(t, key) == [] then Ok(t)
    else
      match PopExplicit(t, key)
      case Ok(t1) => PopShortens(t, key); PopTo(t1, key, mark)
      case NotOwner => NotOwner
  }

  function OwnedBy(t: Table, key: nat): set<nat> {
    set id | id in t.locks && t.locks[id].owner == key
  }

  // The tail of sync_release_all: whatever the task still owns becomes free, and its edge goes.
  function Sweep(t: Table, key: nat): Table {
    t.(locks := map id | id in t.locks :: if t.locks[id].owner == key then FREE else t.locks[id],
       held := t.held - {key},
       edges := t.edges - {key},
       notified := t.notified + OwnedBy(t, key))
  }

  function ReleaseAll(t: Table, key: nat): Released {
    match PopTo(t, key, 0)
    case Ok(t1) => Ok(Sweep(t1, key))
    case NotOwner => NotOwner
  }

  // ---------------------------------------------------------------- accounting

  ghost predicate RecOk(r: LockRec) {
    r.owner >= -1 && r.explicitDepth <= 1 && (r.owner >= 0 <==> r.autoDepth + r.explicitDepth > 0)
  }

  ghost predicate HeldOk(t: Table) {
    && (forall k :: k in t.held ==> t.held[k] >= 1)
    && (forall k: nat :: HeldCount(t, k) == |OwnedBy(t, k)|)
  }

  function Flat(ss: seq<seq<nat>>): seq<nat> {
    if ss == [] then [] else Flat(ss[..|ss| - 1]) + ss[|ss| - 1]
  }

  function Count(s: seq<nat>, id: nat): nat {
    if s == [] then 0 else (if s[|s| - 1] == id then 1 else 0) + Count(s[..|s| - 1], id)
  }

  // How often LOCK entries of `key` name `id`; `pending` are locks that the running section has taken
  // but not yet pushed (or popped but not yet released) for task `who`.
  ghost function Uses(t: Table, key: nat, id: nat, who: nat, pending: seq<nat>): nat {
    Count(Flat(StackOf(t, key)), id) + if key == who then Count(pending, id) else 0
  }

  ghost predicate ExplicitOk(t: Table, who: nat, pending: seq<nat>) {
    forall k: nat, id: nat ::
      Uses(t, k, id, who, pending) == if Owner(t, id) == k then Rec(t, id).explicitDepth else 0
  }

  ghost function Total(keys: set<nat>, m: map<nat, seq<seq<nat>>>): nat
    requires keys <= m.Keys
  {
    if keys == {} then 0
    else
      var k :| k in keys;
      |m[k]| + Total(keys - {k}, m)
  }

  ghost predicate StacksOk(t: Table) {
    && (forall k :: k in t.stacks ==> t.stacks[k] != [])
    && t.entries == Total(t.stacks.Keys, t.stacks)
  }

  // Between two locks of one section.
  ghost predicate MidOk(t: Table, who: nat, pending: seq<nat>) {
    && (forall id :: id in t.locks ==> RecOk(t.locks[id]))
    && HeldOk(t)
    && ExplicitOk(t, who, pending)
  }

  ghost predicate TableOk(t: Table) {
    MidOk(t, 0, []) && StacksOk(t)
  }
}
