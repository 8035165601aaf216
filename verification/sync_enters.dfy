/**
 SYNC_ENTER over a run: from its call, through every wait and every new attempt, to its return. Whatever
 other threads do in between, the call takes all its locks at once when it returns and holds nothing more
 than before until then.
 */
module SyncEnters {
  import opened Basics
  import opened LockTable
  import opened LockAccounting
  import opened TaskPool
  import opened WaitGraph
  import opened Runtime
  import opened Invariants
  import opened LockSteps
  import opened UserSteps
  import opened Runs
  import opened Progress
  import opened LockFrames

  // What a task holds of a lock.
  function Held(t: Table, key: nat, id: nat): LockRec {
    if Owner(t, id) == key then Rec(t, id) else FREE
  }

  // The task owns the same locks, equally deep, with the same held count and the same LOCK entries.
  ghost predicate SameHoldings(t: Table, u: Table, key: nat) {
    && (forall id: nat :: Held(u, key, id) == Held(t, key, id))
    && HeldCount(u, key) == HeldCount(t, key)
    && StackOf(u, key) == StackOf(t, key)
  }

  // It owns each lock of `ids` one level deeper, and otherwise what it owned before.
  ghost predicate Gained(t: Table, u: Table, key: nat, ids: seq<nat>, explicitly: bool) {
    && (forall id: nat ::
          Held(u, key, id) == if id in ids then Deeper(Held(t, key, id), key, explicitly) else Held(t, key, id))
    && StackOf(u, key) == StackOf(t, key) + (if explicitly then [ids] else [])
  }

  predicate WaitsForLock(th: Thread) {
    th.pc.LockNoted? || th.pc.LockWait? || th.pc.LockWoken?
  }

  predicate Entering(th: Thread, from: Thread, ids: seq<nat>, explicitly: bool) {
    && th == from.(pc := th.pc) && WaitsForLock(th) && th.pc.ids == ids && th.pc.explicitly == explicitly
  }

  // ---------------------------------------------------------------- holdings

  lemma SameOwnersSameCount(t: Table, u: Table, key: nat)
    requires HeldOk(t) && HeldOk(u) && forall id: nat :: Held(u, key, id) == Held(t, key, id)
    ensures HeldCount(u, key) == HeldCount(t, key)
  {
    forall id: nat ensures id in OwnedBy(u, key) <==> id in OwnedBy(t, key) {
      assert Held(u, key, id) == Held(t, key, id);
      assert id in OwnedBy(u, key) <==> Owner(u, id) == key;
      assert id in OwnedBy(t, key) <==> Owner(t, id) == key;
    }
    assert OwnedBy(u, key) == OwnedBy(t, key);
  }

  lemma SameLocksSameHoldings(t: Table, u: Table, key: nat)
    requires HeldOk(t) && HeldOk(u) && SameLocks(t, u)
    ensures SameHoldings(t, u, key)
  {
    forall id: nat ensures Held(u, key, id) == Held(t, key, id) {
      assert Rec(u, id) == Rec(t, id);
    }
    SameOwnersSameCount(t, u, key);
  }

  lemma OthersSameHoldings(s: State, u: State, j: nat, key: nat)
    requires HeldOk(s.table) && HeldOk(u.table)
    requires j < |s.threads| && OthersKeepLocks(s, u, j) && !MyKey(s, j, key)
    ensures SameHoldings(s.table, u.table, key)
  {
    forall id: nat ensures Held(u.table, key, id) == Held(s.table, key, id) {
      assert Rec(u.table, id) == Rec(s.table, id)
             || (Mine(s, j, Owner(s.table, id)) && Mine(s, j, Owner(u.table, id)));
    }
    SameOwnersSameCount(s.table, u.table, key);
  }

  // A lock that can be taken is held already or free.
  lemma TakenIsDeeper(r: LockRec, key: nat, explicitly: bool)
    requires RecOk(r) && Takable(r, key, explicitly)
    ensures r == if r.owner == key then r else FREE
  {
  }

  lemma EnteredGains(t: Table, u: Table, key: nat, ids: seq<nat>, explicitly: bool)
    requires TableOk(t) && Increasing(ids) && Enter(t, key, ids, explicitly) == Entered(u)
    ensures Gained(t, u, key, ids, explicitly)
  {
    EnterTakesAllOrNone(t, key, ids, explicitly);
    EnterKeepsOk(t, key, ids, explicitly);
    hide Enter;
    forall id: nat
      ensures Held(u, key, id) == if id in ids then Deeper(Held(t, key, id), key, explicitly) else Held(t, key, id)
    {
      if id in ids {
        var j :| 0 <= j < |ids| && ids[j] == id;
        assert Takable(Rec(t, ids[j]), key, explicitly);
        assert RecOk(Rec(t, id));
        TakenIsDeeper(Rec(t, id), key, explicitly);
      }
    }
  }

  // ---------------------------------------------------------------- one attempt

  // An attempt waits on with everything as it was, or has taken all locks, or ends the program.
  ghost predicate Attempted(s: State, u: State, i: nat, ids: seq<nat>, explicitly: bool)
    requires i < |s.threads| && s.threads[i].stack != []
  {
    && i < |u.threads|
    && (|| (Entering(u.threads[i], s.threads[i], ids, explicitly) && SameLocks(s.table, u.table))
        || (u.threads[i] == s.threads[i].(pc := User)
            && Gained(s.table, u.table, Cur(s.threads[i]), ids, explicitly)))
  }

  lemma GainedFrom(t0: Table, t: Table, r: Table, u: Table, key: nat, ids: seq<nat>, explicitly: bool)
    requires Gained(t, r, key, ids, explicitly)
    requires t.locks == t0.locks && t.stacks == t0.stacks && u.locks == r.locks && u.stacks == r.stacks
    ensures Gained(t0, u, key, ids, explicitly)
  {
    forall id: nat
      ensures Held(u, key, id) == if id in ids then Deeper(Held(t0, key, id), key, explicitly) else Held(t0, key, id)
    {
      assert Held(r, key, id) == if id in ids then Deeper(Held(t, key, id), key, explicitly) else Held(t, key, id);
    }
  }

  lemma AttemptWaits(s: State, t: Table, i: nat, ids: seq<nat>, explicitly: bool)
    requires i < |s.threads| && s.threads[i].stack != [] && t == s.table.(edges := t.edges)
    requires !Enter(t, Cur(s.threads[i]), ids, explicitly).Entered?
    ensures var u := EnterStep(s.(table := t), i, ids, explicitly);
            u.fatal || (i < |u.threads| && Entering(u.threads[i], s.threads[i], ids, explicitly))
  {
    hide Enter, CycleLocked, Owner, Announced;
  }

  lemma AttemptIs(s: State, t: Table, i: nat, ids: seq<nat>, explicitly: bool)
    requires TableOk(s.table) && i < |s.threads| && s.threads[i].stack != [] && t == s.table.(edges := t.edges)
    requires Increasing(ids)
    ensures var u := EnterStep(s.(table := t), i, ids, explicitly);
            u.fatal || Attempted(s, u, i, ids, explicitly)
  {
    hide TableOk, Enter, CycleLocked, Owner, SameLocks, Gained, Increasing, OthersKeepLocks;
    var key := Cur(s.threads[i]);
    var u := EnterStep(s.(table := t), i, ids, explicitly);
    EdgesKeepTableOk(s.table, t);
    EnterKeepsLocks(s, t, i, ids, explicitly);
    var r := Enter(t, key, ids, explicitly);
    if r.Entered? {
      EnteredGains(t, r.t, key, ids, explicitly);
      GainedFrom(s.table, t, r.t, u.table, key, ids, explicitly);
    } else {
      AttemptWaits(s, t, i, ids, explicitly);
    }
  }

  // ---------------------------------------------------------------- the call and the steps after it

  ghost predicate Calls(s: State, u: State, i: nat, asked: seq<nat>, explicitly: bool) {
    && CanStep(s, i, SyncEnter(asked, explicitly)) && s.threads[i].pc.User?
    && u == Step(s, i, SyncEnter(asked, explicitly))
  }

  lemma CallIsAttempt(s: State, u: State, i: nat, asked: seq<nat>, explicitly: bool)
    requires TableOk(s.table) && Calls(s, u, i, asked, explicitly)
    ensures u.fatal || Attempted(s, u, i, Ordered(asked), explicitly)
  {
    hide TableOk, EnterStep, Attempted, Ordered;
    OrderedIsSortedAndComplete(asked);
    assert s.(table := s.table) == s;
    AttemptIs(s, s.table, i, Ordered(asked), explicitly);
  }

  lemma OwnStep(s: State, i: nat, ids: seq<nat>, explicitly: bool)
    requires TableOk(s.table) && Increasing(ids) && CanStep(s, i, Run)
    requires Entering(s.threads[i], s.threads[i], ids, explicitly)
    ensures var u := RunStep(s, i);
            u.fatal || Attempted(s, u, i, ids, explicitly)
  {
    hide TableOk, EnterStep, Attempted, Increasing;
    if s.threads[i].pc.LockWoken? {
      AttemptIs(s, s.table.(edges := s.table.edges - {Cur(s.threads[i])}), i, ids, explicitly);
    } else {
      SleepStep(s, i, ids, explicitly);
    }
  }

  lemma SleepStep(s: State, i: nat, ids: seq<nat>, explicitly: bool)
    requires CanStep(s, i, Run) && !s.threads[i].pc.LockWoken?
    requires Entering(s.threads[i], s.threads[i], ids, explicitly)
    ensures Attempted(s, RunStep(s, i), i, ids, explicitly)
  {
    LocksAsTheyWere(s.table, RunStep(s, i).table);
    hide SameLocks, Gained;
  }

  lemma IncreasingInEnter(s: State, i: nat)
    requires ThreadsOk(s) && i < |s.threads| && WaitsForLock(s.threads[i])
    ensures s.threads[i].stack != [] && Increasing(s.threads[i].pc.ids)
  {
    assert ThreadOk(s, i);
  }

  // The thread waits on, still holding what it held, or has returned with all the locks.
  ghost predicate Goes(s: State, u: State, i: nat, ids: seq<nat>, explicitly: bool)
    requires i < |s.threads| && s.threads[i].stack != []
  {
    && i < |u.threads|
    && var key := Cur(s.threads[i]);
       if WaitsForLock(u.threads[i]) then
         Entering(u.threads[i], s.threads[i], ids, explicitly) && SameHoldings(s.table, u.table, key)
       else
         u.threads[i] == s.threads[i].(pc := User) && Gained(s.table, u.table, key, ids, explicitly)
  }

  lemma AttemptGoes(s: State, u: State, i: nat, ids: seq<nat>, explicitly: bool)
    requires i < |s.threads| && s.threads[i].stack != [] && Attempted(s, u, i, ids, explicitly)
    requires HeldOk(s.table) && HeldOk(u.table)
    ensures Goes(s, u, i, ids, explicitly)
  {
    hide SameHoldings, Gained, SameLocks;
    if WaitsForLock(u.threads[i]) {
      SameLocksSameHoldings(s.table, u.table, Cur(s.threads[i]));
    }
  }

  lemma OtherStepGoes(s: State, j: nat, a: Action, i: nat, ids: seq<nat>, explicitly: bool)
    requires Inv(s) && CanStep(s, j, a) && Inv(Step(s, j, a)) && i < |s.threads| && i != j
    requires s.threads[i].stack != [] && Entering(s.threads[i], s.threads[i], ids, explicitly)
    ensures Goes(s, Step(s, j, a), i, ids, explicitly)
  {
    var u := Step(s, j, a);
    StepKeepsOthers(s, j, a);
    hide Step, CanStep, OthersKeepLocks;
    OneThread(s, i);
    OneThread(s, j);
    hide ThreadsOk, TasksOk, RecordsOk, WorkersOk, EndingOk, SuspendedOk, PcOk, SleepOk, SameHoldings;
    StacksDisjoint(s, j, i, |s.threads[i].stack| - 1);
    OthersSameHoldings(s, u, j, Cur(s.threads[i]));
  }

  lemma OwnStepGoes(s: State, i: nat, a: Action, ids: seq<nat>, explicitly: bool)
    requires Inv(s) && CanStep(s, i, a) && !Step(s, i, a).fatal && Inv(Step(s, i, a))
    requires s.threads[i].stack != [] && Entering(s.threads[i], s.threads[i], ids, explicitly)
    ensures Goes(s, Step(s, i, a), i, ids, explicitly)
  {
    hide RunStep, Goes, Attempted, ThreadsOk, TasksOk, RecordsOk, WorkersOk, EndingOk;
    IncreasingInEnter(s, i);
    OwnStep(s, i, ids, explicitly);
    AttemptGoes(s, Step(s, i, a), i, ids, explicitly);
  }

  lemma SameGoes(s: State, u: State, i: nat, ids: seq<nat>, explicitly: bool)
    requires u.threads == s.threads && u.table == s.table && i < |s.threads| && s.threads[i].stack != []
    requires Entering(s.threads[i], s.threads[i], ids, explicitly)
    ensures Goes(s, u, i, ids, explicitly)
  {
  }

  lemma NextGoes(s: State, u: State, i: nat, ids: seq<nat>, explicitly: bool)
    requires Inv(s) && Inv(u) && !u.fatal && Next(s, u) && i < |s.threads|
    requires s.threads[i].stack != [] && Entering(s.threads[i], s.threads[i], ids, explicitly)
    ensures Goes(s, u, i, ids, explicitly)
  {
    hide Inv, Goes, CanStep, Step, Entering, Sleeping;
    var e :| CanHappen(s, e) && u == After(s, e);
    match e
    case ThreadStep(j, a) =>
      if j == i {
        OwnStepGoes(s, i, a, ids, explicitly);
      } else {
        OtherStepGoes(s, j, a, i, ids, explicitly);
      }
    case SpuriousWake(_) => SameGoes(s, u, i, ids, explicitly);
  }

  // ---------------------------------------------------------------- over a run

  // From after state m up to state n the thread waits in SYNC_ENTER.
  ghost predicate WaitsThrough(run: seq<State>, m: nat, n: nat, i: nat)
    requires n < |run|
  {
    forall k :: m < k <= n ==> i < |run[k].threads| && WaitsForLock(run[k].threads[i])
  }

  ghost predicate CalledAt(run: seq<State>, m: nat, i: nat, asked: seq<nat>, explicitly: bool) {
    m + 1 < |run| && Calls(run[m], run[m + 1], i, asked, explicitly)
  }

  lemma GoesOn(configured: nat, run: seq<State>, k: nat)
    requires IsRun(configured, run) && k + 1 < |run| && !run[k + 1].fatal
    ensures Next(run[k], run[k + 1]) && !run[k].fatal && Inv(run[k]) && Inv(run[k + 1])
  {
    hide Inv, Step, MayCall;
    assert Next(run[k], run[k + 1]);
    RunsKeepInv(configured, run, k);
    RunsKeepInv(configured, run, k + 1);
  }

  lemma CallGoes(configured: nat, run: seq<State>, m: nat, i: nat, asked: seq<nat>, explicitly: bool)
    requires IsRun(configured, run) && CalledAt(run, m, i, asked, explicitly) && !run[m + 1].fatal
    ensures i < |run[m].threads| && run[m].threads[i].stack != []
    ensures Goes(run[m], run[m + 1], i, Ordered(asked), explicitly)
  {
    hide IsRun, Next, ThreadsOk, TasksOk, RecordsOk, WorkersOk, EndingOk, Attempted, Goes;
    GoesOn(configured, run, m);
    CallIsAttempt(run[m], run[m + 1], i, asked, explicitly);
    AttemptGoes(run[m], run[m + 1], i, Ordered(asked), explicitly);
  }

  // While it waits the task keeps exactly the locks, depths, count and LOCK entries that it had when it
  // called SYNC_ENTER, whatever the other threads do.
  lemma {:induction false} WaitingChangesNothing(configured: nat, run: seq<State>, m: nat, n: nat, i: nat,
                                                 asked: seq<nat>, explicitly: bool)
    requires IsRun(configured, run) && m < n < |run| && !run[n].fatal
    requires CalledAt(run, m, i, asked, explicitly) && WaitsThrough(run, m, n, i)
    ensures i < |run[m].threads| && run[m].threads[i].stack != []
    ensures Entering(run[n].threads[i], run[m].threads[i], Ordered(asked), explicitly)
    ensures SameHoldings(run[m].table, run[n].table, Cur(run[m].threads[i]))
    decreases n
  {
    hide IsRun, Next, Inv, SameHoldings, Gained, Calls;
    if n == m + 1 {
      CallGoes(configured, run, m, i, asked, explicitly);
    } else {
      GoesOn(configured, run, n - 1);
      WaitingChangesNothing(configured, run, m, n - 1, i, asked, explicitly);
      NextGoes(run[n - 1], run[n], i, Ordered(asked), explicitly);
      HoldingsCarry(run[m].table, run[n - 1].table, run[n].table, Cur(run[m].threads[i]));
    }
  }

  lemma HoldingsCarry(t: Table, u: Table, v: Table, key: nat)
    requires SameHoldings(t, u, key) && SameHoldings(u, v, key)
    ensures SameHoldings(t, v, key)
  {
    forall id: nat ensures Held(v, key, id) == Held(t, key, id) {
      assert Held(u, key, id) == Held(t, key, id);
    }
  }

  lemma GainCarries(t: Table, u: Table, v: Table, key: nat, ids: seq<nat>, explicitly: bool)
    requires SameHoldings(t, u, key) && Gained(u, v, key, ids, explicitly)
    ensures Gained(t, v, key, ids, explicitly)
  {
    forall id: nat
      ensures Held(v, key, id) == if id in ids then Deeper(Held(t, key, id), key, explicitly) else Held(t, key, id)
    {
      assert Held(u, key, id) == Held(t, key, id);
    }
  }

  // In particular a task that enters holding nothing holds nothing while it waits.
  lemma WaitingEmptyHanded(configured: nat, run: seq<State>, m: nat, n: nat, i: nat, asked: seq<nat>, explicitly: bool)
    requires IsRun(configured, run) && m < n < |run| && !run[n].fatal
    requires CalledAt(run, m, i, asked, explicitly) && WaitsThrough(run, m, n, i)
    requires i < |run[m].threads| && run[m].threads[i].stack != []
    requires OwnsNothing(run[m].table, Cur(run[m].threads[i]))
    ensures OwnsNothing(run[n].table, Cur(run[m].threads[i]))
  {
    hide IsRun, CalledAt, WaitsThrough;
    WaitingChangesNothing(configured, run, m, n, i, asked, explicitly);
    var key := Cur(run[m].threads[i]);
    forall id: nat ensures Owner(run[n].table, id) != key {
      assert Held(run[n].table, key, id) == Held(run[m].table, key, id);
      assert Owner(run[m].table, id) != key;
    }
  }

  // When the call returns, after any number of waits and new attempts, each lock that was asked for is
  // owned exactly one level deeper than at the call, and of every other lock the task holds what it held:
  // for its caller SYNC_ENTER is one indivisible step.
  lemma EnteringIsAtomic(configured: nat, run: seq<State>, m: nat, n: nat, i: nat, asked: seq<nat>, explicitly: bool)
    requires IsRun(configured, run) && m < n < |run| && !run[n].fatal
    requires CalledAt(run, m, i, asked, explicitly) && WaitsThrough(run, m, n - 1, i)
    requires i < |run[n].threads| && !WaitsForLock(run[n].threads[i])
    ensures i < |run[m].threads| && run[m].threads[i].stack != []
    ensures run[n].threads[i] == run[m].threads[i]
    ensures Gained(run[m].table, run[n].table, Cur(run[m].threads[i]), Ordered(asked), explicitly)
  {
    hide IsRun, Next, Inv, SameHoldings, Gained, Calls;
    if n == m + 1 {
      CallGoes(configured, run, m, i, asked, explicitly);
    } else {
      GoesOn(configured, run, n - 1);
      WaitingChangesNothing(configured, run, m, n - 1, i, asked, explicitly);
      NextGoes(run[n - 1], run[n], i, Ordered(asked), explicitly);
      GainCarries(run[m].table, run[n - 1].table, run[n].table, Cur(run[m].threads[i]), Ordered(asked), explicitly);
    }
    CallerIsUser(run, m, i, asked, explicitly);
  }

  lemma CallerIsUser(run: seq<State>, m: nat, i: nat, asked: seq<nat>, explicitly: bool)
    requires CalledAt(run, m, i, asked, explicitly)
    ensures i < |run[m].threads| && run[m].threads[i].pc.User?
  {
    hide Step;
  }
}
