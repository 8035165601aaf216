/**
 The lock table as the object that native/uxb_runtime/uxb_runtime_sync.cpp keeps: each method is one
 function of that file, works on the fields in place, and is proved against the value-level sections of
 module LockTable. A method that reports a fatal diagnosis ends the program, so it promises nothing about
 the table it leaves behind.
 */
module LockManager {
  import opened Basics
  import opened LockTable
  import opened LockAccounting
  import opened WaitGraph
  import opened PoolSteps

  datatype Take = Taken | InUse | TakenTwice

  datatype Round = Inside | MustWait(on: nat) | TwiceDiagnosed | NotOwnerDiagnosed

  const MUTEX_BASE: nat := 0x1_0000_0000

  // The first lock that the walk of cycle_locked meets, for the message of the diagnosis.
  function FirstLock(t: Table, from: nat, me: nat, steps: nat): Option<nat>
    decreases steps
  {
    if steps == 0 || from == me || from !in t.edges then None
    else
      match t.edges[from]
      case OnLock(id) => Some(id)
      case OnTask(k) => FirstLock(t, k, me, steps - 1)
  }

  class SyncState {
    var locks: map<nat, LockRec>
    var edges: map<nat, WaitEdge>
    var heldCount: map<nat, int>
    var explicitStack: map<nat, seq<seq<nat>>>
    var explicitEntries: int
    var mutexNext: nat
    var notified: set<nat>

    ghost function Value(): Table
      reads this
    {
      Table(locks, edges, heldCount, explicitStack, explicitEntries, notified)
    }

    constructor ()
      ensures Value() == EMPTY && mutexNext == 0
    {
      locks, edges, heldCount := map[], map[], map[];
      explicitStack, explicitEntries, mutexNext, notified := map[], 0, 0, {};
    }

    method TryAcquire(key: nat, id: nat, explicitly: bool) returns (r: Take)
      modifies `locks, `heldCount
      ensures match LockTable.TryAcquire(old(Value()), key, id, explicitly)
              case Got(t) => r == Taken && Value() == t
              case Busy => r == InUse && Value() == old(Value())
              case SelfDeadlock => r == TakenTwice
    {
      if id !in locks {
        locks := locks[id := FREE];
      }
      var rec := locks[id];
      if rec.owner == key {
        if explicitly {
          if rec.explicitDepth > 0 {
            return TakenTwice;
          }
          rec := rec.(explicitDepth := rec.explicitDepth + 1);
        } else {
          rec := rec.(autoDepth := rec.autoDepth + 1);
        }
        locks := locks[id := rec];
        return Taken;
      }
      if rec.owner >= 0 {
        return InUse;
      }
      rec := rec.(owner := key);
      rec := if explicitly then rec.(explicitDepth := 1) else rec.(autoDepth := 1);
      locks := locks[id := rec];
      heldCount := heldCount[key := (if key in heldCount then heldCount[key] else 0) + 1];
      return Taken;
    }

    // release_locked; `ok` is false for its internal error.
    method ReleaseOne(key: nat, id: nat, explicitly: bool) returns (ok: bool)
      modifies `locks, `heldCount, `notified
      ensures match Release(old(Value()), key, id, explicitly)
              case Ok(t) => ok && Value() == t
              case NotOwner => !ok
    {
      if id !in locks || locks[id].owner != key {
        return false;
      }
      var rec := locks[id];
      if explicitly {
        if rec.explicitDepth > 0 {
          rec := rec.(explicitDepth := rec.explicitDepth - 1);
        }
      } else if rec.autoDepth > 0 {
        rec := rec.(autoDepth := rec.autoDepth - 1);
      }
      if rec.autoDepth == 0 && rec.explicitDepth == 0 {
        rec := rec.(owner := -1);
        if key in heldCount {
          var left := heldCount[key] - 1;
          heldCount := if left <= 0 then heldCount - {key} else heldCount[key := left];
        }
        notified := notified + {id};
      }
      locks := locks[id := rec];
      return true;
    }

    // The reversed loop over the ids taken by a call.
    method ReleaseMany(key: nat, ids: seq<nat>, explicitly: bool) returns (ok: bool)
      modifies `locks, `heldCount, `notified
      ensures match ReleaseReversed(old(Value()), key, ids, explicitly)
              case Ok(t) => ok && Value() == t
              case NotOwner => !ok
    {
      var n := |ids|;
      assert ids[..n] == ids;
      while n > 0
        invariant n <= |ids|
        invariant ReleaseReversed(Value(), key, ids[..n], explicitly)
                  == ReleaseReversed(old(Value()), key, ids, explicitly)
      {
        assert ids[..n][..n - 1] == ids[..n - 1];
        n := n - 1;
        ok := ReleaseOne(key, ids[n], explicitly);
        if !ok {
          return;
        }
      }
      return true;
    }

    // One round of the loop in __uxb_rt_sync_enter: take the locks in order, or give back what was taken.
    method EnterRound(key: nat, targets: seq<nat>, explicitly: bool) returns (r: Round)
      modifies this
      ensures mutexNext == old(mutexNext)
      ensures match Enter(old(Value()), key, targets, explicitly)
              case Entered(t) => r == Inside && Value() == t
              case Blocked(t, on) => r == MustWait(on) && Value() == t
              case SelfDeadlocked => r == TwiceDiagnosed
              case InternalError => r == NotOwnerDiagnosed
    {
      var taken: seq<nat> := [];
      var n := 0;
      while n < |targets|
        invariant n <= |targets| && taken == targets[..n]
        invariant mutexNext == old(mutexNext) && explicitStack == old(explicitStack)
        invariant explicitEntries == old(explicitEntries)
        invariant Acquire(Value(), key, targets, n, explicitly) == Acquire(old(Value()), key, targets, 0, explicitly)
      {
        var took := TryAcquire(key, targets[n], explicitly);
        if took == TakenTwice {
          return TwiceDiagnosed;
        }
        if took == InUse {
          assert Acquire(Value(), key, targets, n, explicitly) == Stopped(Value(), n);
          var ok := ReleaseMany(key, taken, explicitly);
          return if ok then MustWait(targets[n]) else NotOwnerDiagnosed;
        }
        taken := taken + [targets[n]];
        n := n + 1;
      }
      assert targets[..n] == targets;
      if explicitly {
        explicitStack := explicitStack[key := (if key in explicitStack then explicitStack[key] else []) + [taken]];
        explicitEntries := explicitEntries + 1;
      }
      return Inside;
    }

    method PopExplicitEntry(key: nat) returns (ok: bool)
      modifies this
      ensures mutexNext == old(mutexNext)
      ensures match PopExplicit(old(Value()), key)
              case Ok(t) => ok && Value() == t
              case NotOwner => !ok
    {
      if key !in explicitStack || explicitStack[key] == [] {
        return true;
      }
      var stack := explicitStack[key];
      var entry := stack[|stack| - 1];
      stack := stack[..|stack| - 1];
      explicitStack := explicitStack[key := stack];
      explicitEntries := explicitEntries - 1;
      ok := ReleaseMany(key, entry, true);
      if !ok {
        return;
      }
      if stack == [] {
        explicitStack := explicitStack - {key};
      }
    }

    // __uxb_rt_sync_leave: mode 1 pops the last LOCK entry, mode 0 releases the statement's locks.
    method Leave(key: nat, ids: seq<nat>, explicitly: bool) returns (ok: bool)
      modifies this
      ensures mutexNext == old(mutexNext)
      ensures ids == [] ==> ok && Value() == old(Value())
      ensures ids != [] ==>
                match (if explicitly then PopExplicit(old(Value()), key)
                       else ReleaseReversed(old(Value()), key, Ordered(ids), false))
                case Ok(t) => ok && Value() == t
                case NotOwner => !ok
    {
      if ids == [] {
        return true;
      }
      if explicitly {
        ok := PopExplicitEntry(key);
      } else {
        ok := ReleaseMany(key, Ordered(ids), false);
      }
    }

    method Mark(key: nat) returns (n: nat)
      ensures n == |StackOf(Value(), key)|
    {
      n := if key in explicitStack then |explicitStack[key]| else 0;
    }

    // __uxb_rt_lock_release_to; a mark below zero pops every entry.
    method ReleaseTo(key: nat, mark: int) returns (ok: bool)
      modifies this
      ensures mutexNext == old(mutexNext)
      ensures match PopTo(old(Value()), key, mark)
              case Ok(t) => ok && Value() == t
              case NotOwner => !ok
    {
      while key in explicitStack && explicitStack[key] != [] && |explicitStack[key]| > mark
        invariant mutexNext == old(mutexNext)
        invariant PopTo(Value(), key, mark) == PopTo(old(Value()), key, mark)
        decreases |StackOf(Value(), key)|
      {
        PopShortens(Value(), key);
        ok := PopExplicitEntry(key);
        if !ok {
          return;
        }
      }
      return true;
    }

    // The first loop of sync_release_all. It ends because no task is mapped to an empty stack.
    method PopAll(key: nat)
      requires TableOk(Value())
      modifies this
      ensures mutexNext == old(mutexNext)
      ensures PopTo(old(Value()), key, 0) == LockTable.Ok(Value())
      ensures key !in explicitStack
    {
      while key in explicitStack
        invariant TableOk(Value()) && mutexNext == old(mutexNext)
        invariant PopTo(Value(), key, 0) == PopTo(old(Value()), key, 0)
        decreases |StackOf(Value(), key)|
      {
        PopShortens(Value(), key);
        PopKeepsOk(Value(), key);
        var _ := PopExplicitEntry(key);
      }
    }

    // The second loop: every lock that the task still owns becomes free.
    method FreeAll(key: nat)
      modifies `locks, `notified
      ensures locks == Sweep(old(Value()), key).locks
      ensures notified == old(notified) + OwnedBy(old(Value()), key)
    {
      var todo := locks.Keys;
      while todo != {}
        invariant todo <= locks.Keys == old(locks).Keys
        invariant forall id :: id in todo ==> locks[id] == old(locks)[id]
        invariant forall id :: id in locks && id !in todo ==>
                    locks[id] == if old(locks)[id].owner == key then FREE else old(locks)[id]
        invariant notified == old(notified) + (OwnedBy(old(Value()), key) - todo)
        decreases |todo|
      {
        var id :| id in todo;
        if locks[id].owner == key {
          locks := locks[id := FREE];
          notified := notified + {id};
        }
        todo := todo - {id};
      }
    }

    // sync_release_all.
    method ReleaseEverything(key: nat)
      requires TableOk(Value())
      modifies this
      ensures mutexNext == old(mutexNext)
      ensures ReleaseAll(old(Value()), key) == LockTable.Ok(Value())
    {
      hide TableOk, PopTo, OwnedBy;
      PopAll(key);
      ghost var popped := Value();
      FreeAll(key);
      heldCount := heldCount - {key};
      edges := edges - {key};
      assert Value() == Sweep(popped, key);
    }

    // cycle_locked with its step counter; `lockOut` is the first lock on the way.
    method CycleLocked(from: nat, me: nat) returns (found: bool, lockOut: Option<nat>)
      ensures found == WaitGraph.CycleLocked(Value(), from, me)
      ensures found ==> lockOut == FirstLock(Value(), from, me, CAP)
    {
      lockOut := None;
      var cur := from;
      var steps := 0;
      while steps < CAP
        invariant steps <= CAP
        invariant Walk(Value(), cur, me, CAP - steps) == Walk(Value(), from, me, CAP)
        invariant lockOut.None? ==> FirstLock(Value(), cur, me, CAP - steps) == FirstLock(Value(), from, me, CAP)
        invariant lockOut.Some? ==> lockOut == FirstLock(Value(), from, me, CAP)
      {
        if cur == me {
          return true, lockOut;
        }
        if cur !in edges {
          return false, lockOut;
        }
        match edges[cur] {
          case OnLock(id) =>
            if lockOut.None? {
              lockOut := Some(id);
            }
            if id !in locks || locks[id].owner < 0 {
              return false, lockOut;
            }
            cur := locks[id].owner;
          case OnTask(k) =>
            cur := k;
        }
        steps := steps + 1;
      }
      return false, lockOut;
    }

    // wait_free_locked up to the wait: nothing to wait for, or the edge is written and checked.
    method BeginWait(key: nat, id: nat) returns (waits: bool, cycle: bool)
      modifies `locks, `edges
      ensures var owner := old(Owner(Value(), id));
              && (waits <==> owner >= 0 && owner != key)
              && (waits ==> Value() == old(Value()).(edges := old(edges)[key := OnLock(id)])
                            && cycle == WaitGraph.CycleLocked(Value(), owner, key))
              && (!waits ==> !cycle && edges == old(edges) && forall x: nat :: Rec(Value(), x) == old(Rec(Value(), x)))
    {
      if id !in locks {
        locks := locks[id := FREE];
      }
      if locks[id].owner < 0 || locks[id].owner == key {
        return false, false;
      }
      edges := edges[key := OnLock(id)];
      waits := true;
      var lockOut;
      cycle, lockOut := CycleLocked(locks[id].owner, key);
    }

    // sync_note_wait_task; `cycle` means LOCK_DEADLOCK or TASK_WAIT_CYCLE and the end of the program.
    method NoteWaitTask(key: nat, target: nat) returns (cycle: bool, lockOut: Option<nat>)
      modifies `edges
      ensures Value() == old(Value()).(edges := old(edges)[key := OnTask(target)])
      ensures cycle == WaitGraph.CycleLocked(Value(), target, key)
      ensures cycle ==> lockOut == FirstLock(Value(), target, key, CAP)
    {
      edges := edges[key := OnTask(target)];
      cycle, lockOut := CycleLocked(target, key);
    }

    method ClearWait(key: nat)
      modifies `edges
      ensures Value() == old(Value()).(edges := old(edges) - {key})
    {
      edges := edges - {key};
    }

    method HoldsAny(key: nat) returns (r: bool)
      requires TableOk(Value())
      ensures r <==> exists id: nat :: Owner(Value(), id) == key
    {
      r := key in heldCount;
      HoldsAnyIsExact(Value(), key);
    }

    method ExplicitTotal() returns (n: int)
      requires TableOk(Value())
      ensures n == Total(explicitStack.Keys, explicitStack)
    {
      n := explicitEntries;
    }

    // __uxb_rt_mutex_new: ids above every compiler-assigned one, never twice the same.
    method NewMutex() returns (id: nat)
      modifies `mutexNext
      ensures mutexNext == old(mutexNext) + 1
      ensures MUTEX_BASE + old(mutexNext) < id == MUTEX_BASE + mutexNext
      ensures id > 0x1_0000_0000
    {
      mutexNext := mutexNext + 1;
      id := MUTEX_BASE + mutexNext;
    }
  }

  // The first n edges of the walk are from waiting tasks other than `me` to tasks.
  ghost predicate TasksOnly(t: Table, from: nat, me: nat, n: nat) {
    forall m: nat :: m < n ==> Meets(t, Iter(t, from, m), me) && t.edges[Iter(t, from, m).value].OnTask?
  }

  predicate Meets(t: Table, k: Option<nat>, me: nat) {
    k.Some? && k.value != me && k.value in t.edges
  }

  lemma OneTaskFirst(t: Table, from: nat, next: nat, me: nat, n: nat)
    requires from != me && from in t.edges && t.edges[from] == OnTask(next) && TasksOnly(t, next, me, n)
    ensures TasksOnly(t, from, me, n + 1)
  {
    forall m: nat | m < n + 1 ensures Meets(t, Iter(t, from, m), me) && t.edges[Iter(t, from, m).value].OnTask? {
      if m > 0 {
        assert Iter(t, from, m) == Iter(t, next, m - 1);
      }
    }
  }

  // The name in the diagnosis is the first lock that a task on the walk waits for: up to it there are only
  // waits for tasks. A cycle is diagnosed without a lock exactly if only tasks wait for tasks.
  lemma {:induction false} FirstLockIsFirst(t: Table, from: nat, me: nat, steps: nat)
    requires WaitGraph.Walk(t, from, me, steps)
    ensures match FirstLock(t, from, me, steps)
            case Some(id) =>
              exists n: nat :: n < steps && TasksOnly(t, from, me, n)
                               && Meets(t, Iter(t, from, n), me) && t.edges[Iter(t, from, n).value] == OnLock(id)
            case None => exists n: nat :: n < steps && TasksOnly(t, from, me, n) && Iter(t, from, n) == Some(me)
    decreases steps
  {
    var none: nat := 0;
    assert TasksOnly(t, from, me, none) && Iter(t, from, none) == Some(from);
    if from != me && t.edges[from].OnTask? {
      var next := t.edges[from].key;
      FirstLockIsFirst(t, next, me, steps - 1);
      match FirstLock(t, next, me, steps - 1)
      case Some(id) =>
        var n: nat :| n < steps - 1 && TasksOnly(t, next, me, n)
                      && Meets(t, Iter(t, next, n), me) && t.edges[Iter(t, next, n).value] == OnLock(id);
        OneTaskFirst(t, from, next, me, n);
        assert Iter(t, from, n + 1) == Iter(t, next, n);
      case None =>
        var n: nat :| n < steps - 1 && TasksOnly(t, next, me, n) && Iter(t, next, n) == Some(me);
        OneTaskFirst(t, from, next, me, n);
        assert Iter(t, from, n + 1) == Iter(t, next, n);
    }
  }
}
