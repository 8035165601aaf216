/**
 LOCK and UNLOCK over a run: the LOCK entries of a task are a stack, UNLOCK and the unwinding to a mark cut
 it, and the stack alone says how deep the task holds each lock explicitly.
 */
module LockScopes {
  import opened Basics
  import opened LockTable
  import opened LockAccounting
  import opened TaskPool
  import opened Runtime
  import opened Invariants
  import opened UserSteps
  import opened Runs
  import opened MutualExclusion
  import opened SyncEnters

  // The task has the LOCK entries `entries`, its explicit depth of each lock is the number of times they name
  // it, its other depth is as before, and it owns a lock exactly while one of them is not zero.
  ghost predicate HoldsFor(t: Table, u: Table, key: nat, entries: seq<seq<nat>>) {
    && StackOf(u, key) == entries
    && forall id: nat :: HoldsOne(t, u, key, entries, id)
  }

  ghost predicate HoldsOne(t: Table, u: Table, key: nat, entries: seq<seq<nat>>, id: nat) {
    var r := Held(u, key, id);
    && r.explicitDepth == Count(Flat(entries), id)
    && r.autoDepth == Held(t, key, id).autoDepth
    && (r.owner == key <==> r.autoDepth + r.explicitDepth > 0)
  }

  lemma EntriesCount(t: Table, key: nat, id: nat)
    requires TableOk(t)
    ensures Held(t, key, id).explicitDepth == Count(Flat(StackOf(t, key)), id)
    ensures Held(t, key, id).owner == key <==> Held(t, key, id).autoDepth + Held(t, key, id).explicitDepth > 0
  {
    assert Uses(t, key, id, 0, []) == if Owner(t, id) == key then Rec(t, id).explicitDepth else 0;
    assert RecOk(Rec(t, id));
    hide Flat, Count;
    NoPending(id);
  }

  lemma NoPending(id: nat)
    ensures Count([], id) == 0
  {
  }

  lemma SameAutoHolds(t: Table, u: Table, key: nat, entries: seq<seq<nat>>)
    requires TableOk(u) && SameAuto(t, u) && StackOf(u, key) == entries
    requires forall id: nat :: RecOk(Rec(t, id))
    ensures HoldsFor(t, u, key, entries)
  {
    forall id: nat ensures HoldsOne(t, u, key, entries, id) {
      EntriesCount(u, key, id);
      assert RecOk(Rec(t, id)) && RecOk(Rec(u, id));
    }
  }

  lemma PopHolds(t: Table, key: nat)
    requires TableOk(t)
    ensures var r := PopExplicit(t, key);
            var st := StackOf(t, key);
            r.Ok? && HoldsFor(t, r.t, key, if st == [] then [] else st[..|st| - 1])
  {
    PopKeepsOk(t, key);
    PopKeepsAuto(t, key);
    if StackOf(t, key) != [] {
      PopShortens(t, key);
    }
    RecordsAreOk(t);
    hide TableOk, PopExplicit, HoldsFor;
    var st := StackOf(t, key);
    SameAutoHolds(t, PopExplicit(t, key).t, key, if st == [] then [] else st[..|st| - 1]);
  }

  lemma RecordsAreOk(t: Table)
    requires TableOk(t)
    ensures forall id: nat :: RecOk(Rec(t, id))
  {
  }

  lemma PopToHolds(t: Table, key: nat, mark: int)
    requires TableOk(t)
    ensures var r := PopTo(t, key, mark);
            r.Ok? && HoldsFor(t, r.t, key, StackOf(t, key)[..Least(|StackOf(t, key)|, mark)])
  {
    PopToKeepsOk(t, key, mark);
    PopToKeepsAuto(t, key, mark);
    RecordsAreOk(t);
    hide TableOk, PopTo, HoldsFor;
    SameAutoHolds(t, PopTo(t, key, mark).t, key, StackOf(t, key)[..Least(|StackOf(t, key)|, mark)]);
  }

  lemma HoldsAnnounced(t: Table, r: Table, u: Table, key: nat, entries: seq<seq<nat>>)
    requires HoldsFor(t, r, key, entries) && u.locks == r.locks && u.stacks == r.stacks
    ensures HoldsFor(t, u, key, entries)
  {
    forall id: nat ensures HoldsOne(t, u, key, entries, id) {
      assert HoldsOne(t, r, key, entries, id);
      assert Rec(u, id) == Rec(r, id);
    }
  }

  // In every run UNLOCK gives back exactly the locks of the last LOCK that is still open, or does nothing if
  // there is none, and never ends the program.
  lemma UnlockEndsLastLock(configured: nat, run: seq<State>, n: nat, i: nat)
    requires Arrived(configured, run, n) && n + 1 < |run| && CanStep(run[n], i, Unlock) && run[n].threads[i].pc.User?
    requires run[n + 1] == Step(run[n], i, Unlock)
    ensures !run[n + 1].fatal
    ensures var key := Cur(run[n].threads[i]);
            var st := StackOf(run[n].table, key);
            HoldsFor(run[n].table, run[n + 1].table, key, if st == [] then [] else st[..|st| - 1])
  {
    RunsKeepInv(configured, run, n);
    hide IsRun, ThreadsOk, TasksOk, RecordsOk, WorkersOk, EndingOk;
    var t, key := run[n].table, Cur(run[n].threads[i]);
    var st := StackOf(t, key);
    PopHolds(t, key);
    hide LocksOk, HoldsFor, PopExplicit, Announced;
    HoldsAnnounced(t, PopExplicit(t, key).t, run[n + 1].table, key, if st == [] then [] else st[..|st| - 1]);
  }

  // Leaving a routine gives back the locks of every LOCK opened since its mark, and no others.
  lemma ReleaseToEndsLaterLocks(configured: nat, run: seq<State>, n: nat, i: nat, mark: int)
    requires Arrived(configured, run, n) && n + 1 < |run| && CanStep(run[n], i, ReleaseTo(mark)) && run[n].threads[i].pc.User?
    requires run[n + 1] == Step(run[n], i, ReleaseTo(mark))
    ensures !run[n + 1].fatal
    ensures var key := Cur(run[n].threads[i]);
            var st := StackOf(run[n].table, key);
            HoldsFor(run[n].table, run[n + 1].table, key,
                     if mark <= 0 then [] else if mark < |st| then st[..mark] else st)
  {
    RunsKeepInv(configured, run, n);
    hide IsRun, ThreadsOk, TasksOk, RecordsOk, WorkersOk, EndingOk;
    var t, key := run[n].table, Cur(run[n].threads[i]);
    PopToHolds(t, key, mark);
    hide LocksOk, HoldsFor, PopTo, Announced;
    HoldsAnnounced(t, PopTo(t, key, mark).t, run[n + 1].table, key, StackOf(t, key)[..Least(|StackOf(t, key)|, mark)]);
  }

  // A task that has finished, or has not begun, owns no lock: run_task gives back whatever its thunk has left.
  lemma OnlyRunningTasksOwn(configured: nat, run: seq<State>, n: nat, task: nat)
    requires Arrived(configured, run, n) && ValidTask(run[n].pool, task)
    ensures TaskAt(run[n].pool, task).state.Running? || OwnsNothing(run[n].table, task)
  {
    RunsKeepInv(configured, run, n);
    var s := run[n];
    hide IsRun, ThreadsOk, RecordsOk, WorkersOk, EndingOk, TableOk;
    assert LocOk(s, task);
    if !TaskAt(s.pool, task).state.Running? {
      forall id: nat ensures Owner(s.table, id) != task {
        assert Owner(s.table, id) >= 0 ==> Live(s, Owner(s.table, id));
      }
    }
  }
}
