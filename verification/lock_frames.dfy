/**
 Whom a step can touch: the lock records of a task are changed by its own steps only.
 */
module LockFrames {
  import opened Basics
  import opened LockTable
  import opened LockAccounting
  import opened TaskPool
  import opened WaitGraph
  import opened Runtime
  import opened Invariants
  import opened LockSteps
  import opened Progress

  // Only free locks and locks of the task that steps change, and nobody else gets one; the LOCK entries of
  // all other tasks stay.
  ghost predicate OthersKeepLocks(s: State, u: State, i: nat)
    requires i < |s.threads|
  {
    && (forall id: nat ::
          || Rec(u.table, id) == Rec(s.table, id)
          || (Mine(s, i, Owner(s.table, id)) && Mine(s, i, Owner(u.table, id))))
    && (forall k: nat :: !MyKey(s, i, k) ==> StackOf(u.table, k) == StackOf(s.table, k))
  }

  ghost predicate SameLocks(t: Table, u: Table) {
    (forall id: nat :: Rec(u, id) == Rec(t, id)) && u.stacks == t.stacks
  }

  lemma MovesKeepLocks(s: State, u: State, i: nat, t0: Table, t: Table)
    requires i < |s.threads| && s.threads[i].stack != []
    requires Moves(t0, t, Cur(s.threads[i])) && t0.locks == s.table.locks && t0.stacks == s.table.stacks
    requires t.locks == u.table.locks && t.stacks == u.table.stacks
    requires forall k: nat :: k != Cur(s.threads[i]) ==> StackOf(t, k) == StackOf(t0, k)
    ensures OthersKeepLocks(s, u, i)
  {
    forall id: nat
      ensures || Rec(u.table, id) == Rec(s.table, id)
              || (Mine(s, i, Owner(s.table, id)) && Mine(s, i, Owner(u.table, id)))
    {
      assert Rec(u.table, id) == Rec(t, id) && Rec(s.table, id) == Rec(t0, id);
    }
    forall k: nat | !MyKey(s, i, k) ensures StackOf(u.table, k) == StackOf(s.table, k) {
      assert StackOf(u.table, k) == StackOf(t, k) && StackOf(s.table, k) == StackOf(t0, k);
    }
  }

  lemma EnteredKeepsLocks(s: State, t: Table, i: nat, ids: seq<nat>, explicitly: bool)
    requires TableOk(t) && i < |s.threads| && s.threads[i].stack != []
    requires t == s.table.(edges := t.edges) && Enter(t, Cur(s.threads[i]), ids, explicitly).Entered?
    ensures OthersKeepLocks(s, EnterStep(s.(table := t), i, ids, explicitly), i)
  {
    hide Enter, TableOk, Rec, StackOf, Moves, OthersKeepLocks;
    var key := Cur(s.threads[i]);
    var r := Enter(t, key, ids, explicitly);
    EnterKeepsOk(t, key, ids, explicitly);
    MovesKeepLocks(s, EnterStep(s.(table := t), i, ids, explicitly), i, t, r.t);
  }

  lemma LocksAsTheyWere(t: Table, u: Table)
    requires u.locks == t.locks && u.stacks == t.stacks
    ensures SameLocks(t, u)
  {
  }

  lemma LocksAfterUndo(t: Table, undone: Table, u: Table)
    requires SameHolds(t, undone) && u.locks == undone.locks && u.stacks == undone.stacks
    ensures SameLocks(t, u)
  {
    forall id: nat ensures Rec(u, id) == Rec(t, id) {
      assert Rec(undone, id) == Rec(t, id);
    }
  }

  lemma BlockedKeepsLocks(s: State, t: Table, i: nat, ids: seq<nat>, explicitly: bool)
    requires TableOk(t) && i < |s.threads| && s.threads[i].stack != []
    requires t == s.table.(edges := t.edges) && Enter(t, Cur(s.threads[i]), ids, explicitly).Blocked?
    ensures SameLocks(t, EnterStep(s.(table := t), i, ids, explicitly).table)
  {
    hide Enter, TableOk, Rec, Owner, SameHolds, SameLocks, CycleLocked;
    var key := Cur(s.threads[i]);
    var r := Enter(t, key, ids, explicitly);
    var u := EnterStep(s.(table := t), i, ids, explicitly);
    BlockedEnterIsNoOp(t, key, ids, explicitly);
    if u.table == t {
      LocksAsTheyWere(t, u.table);
    } else {
      LocksAfterUndo(t, r.t, u.table);
    }
  }

  lemma EnterKeepsLocks(s: State, t: Table, i: nat, ids: seq<nat>, explicitly: bool)
    requires TableOk(s.table) && i < |s.threads| && s.threads[i].stack != []
    requires t == s.table.(edges := t.edges)
    ensures OthersKeepLocks(s, EnterStep(s.(table := t), i, ids, explicitly), i)
    ensures Enter(t, Cur(s.threads[i]), ids, explicitly).Entered?
            || SameLocks(s.table, EnterStep(s.(table := t), i, ids, explicitly).table)
  {
    hide Enter, TableOk, CycleLocked, OthersKeepLocks;
    EdgesKeepTableOk(s.table, t);
    var u := EnterStep(s.(table := t), i, ids, explicitly);
    var r := Enter(t, Cur(s.threads[i]), ids, explicitly);
    if r.Entered? {
      EnteredKeepsLocks(s, t, i, ids, explicitly);
    } else {
      if r.Blocked? {
        BlockedKeepsLocks(s, t, i, ids, explicitly);
      } else {
        LocksAsTheyWere(t, u.table);
      }
      hide SameLocks;
      SameLocksFromTable(s.table, t, u.table);
      NothingIsTouched(s, u, i);
    }
  }

  lemma NothingIsTouched(s: State, u: State, i: nat)
    requires i < |s.threads| && SameLocks(s.table, u.table)
    ensures OthersKeepLocks(s, u, i)
  {
    forall k: nat ensures StackOf(u.table, k) == StackOf(s.table, k) {
    }
  }

  lemma SameLocksFromTable(t0: Table, t: Table, u: Table)
    requires SameLocks(t, u) && t0.locks == t.locks && t0.stacks == t.stacks
    ensures SameLocks(t0, u)
  {
    forall id: nat ensures Rec(u, id) == Rec(t0, id) {
      assert Rec(u, id) == Rec(t, id);
    }
  }

  lemma WokenKeepsLocks(s: State, i: nat)
    requires TableOk(s.table) && CanStep(s, i, Run) && s.threads[i].pc.LockWoken?
    ensures OthersKeepLocks(s, RunStep(s, i), i)
  {
    hide TableOk, EnterStep, OthersKeepLocks, SameLocks, Enter;
    var pc := s.threads[i].pc;
    EnterKeepsLocks(s, s.table.(edges := s.table.edges - {Cur(s.threads[i])}), i, pc.ids, pc.explicitly);
  }

  lemma ReturnedKeepsLocks(s: State, i: nat)
    requires TableOk(s.table) && CanStep(s, i, Run) && s.threads[i].pc.Returned?
    ensures OthersKeepLocks(s, RunStep(s, i), i)
  {
    hide TableOk, ReleaseAll, Rec, StackOf, OthersKeepLocks, Moves;
    var key := Cur(s.threads[i]);
    ReleaseAllReleasesAll(s.table, key);
    var t := ReleaseAll(s.table, key).t.(edges := s.table.edges);
    SameStacks(ReleaseAll(s.table, key).t, t);
    MovesKeepLocks(s, RunStep(s, i), i, s.table, t);
  }

  lemma SameStacks(t: Table, u: Table)
    requires u.stacks == t.stacks
    ensures forall k: nat :: StackOf(u, k) == StackOf(t, k)
  {
  }

  lemma RunKeepsLocks(s: State, i: nat)
    requires TableOk(s.table) && CanStep(s, i, Run) && !s.threads[i].pc.User?
    ensures OthersKeepLocks(s, RunStep(s, i), i)
  {
    if s.threads[i].pc.LockWoken? {
      WokenKeepsLocks(s, i);
    } else if s.threads[i].pc.Returned? {
      ReturnedKeepsLocks(s, i);
    } else {
      QuietLocks(s, i);
      hide RunStep, CanStep;
      LocksAsTheyWere(s.table, RunStep(s, i).table);
      NothingIsTouched(s, RunStep(s, i), i);
    }
  }

  lemma QuietLocks(s: State, i: nat)
    requires CanStep(s, i, Run) && !s.threads[i].pc.User? && !s.threads[i].pc.LockWoken? && !s.threads[i].pc.Returned?
    ensures RunStep(s, i).table.locks == s.table.locks && RunStep(s, i).table.stacks == s.table.stacks
  {
  }

  lemma UserKeepsLocks(s: State, i: nat, a: Action)
    requires TableOk(s.table) && CanStep(s, i, a) && s.threads[i].pc.User?
    ensures OthersKeepLocks(s, UserStep(s, i, a), i)
  {
    var key := Cur(s.threads[i]);
    var u := UserStep(s, i, a);
    match a
    case SyncEnter(ids, ex) =>
      assert s.(table := s.table) == s;
      EnterKeepsLocks(s, s.table, i, Ordered(ids), ex);
    case SyncLeave(ids) =>
      if ReleaseReversed(s.table, key, Ordered(ids), false).Ok? {
        LeaveKeepsOk(s.table, key, Ordered(ids));
        MovesKeepLocks(s, u, i, s.table, ReleaseReversed(s.table, key, Ordered(ids), false).t);
      }
    case Unlock =>
      PopKeepsOk(s.table, key);
      if StackOf(s.table, key) != [] {
        PopShortens(s.table, key);
      }
      MovesKeepLocks(s, u, i, s.table, PopExplicit(s.table, key).t);
    case ReleaseTo(mark) =>
      PopToKeepsOk(s.table, key, mark);
      MovesKeepLocks(s, u, i, s.table, PopTo(s.table, key, mark).t);
    case Shutdown(_) =>
      ReleaseAllReleasesAll(s.table, key);
      MovesKeepLocks(s, u, i, s.table, ReleaseAll(s.table, key).t.(edges := s.table.edges));
    case _ =>
  }

  lemma StepKeepsOthers(s: State, i: nat, a: Action)
    requires Inv(s) && CanStep(s, i, a)
    ensures FrameThreads(s, Step(s, i, a), i) && OthersKeepLocks(s, Step(s, i, a), i)
  {
    if s.threads[i].pc.User? {
      UserThreads(s, i, a);
      UserKeepsLocks(s, i, a);
    } else {
      RunThreads(s, i);
      RunKeepsLocks(s, i);
    }
  }
}
