/**
 The runtime never keeps busy by itself: in every schedule of its sections control comes back to
 compiled code, or the program is stopped by a diagnosis.
 */
module Handover {
  import opened Basics
  import opened LockTable
  import opened LockAccounting
  import opened TaskPool
  import opened WaitGraph
  import opened Runtime
  import opened Invariants
  import opened LockSteps
  import opened PoolSteps
  import opened TaskSteps
  import opened UserSteps
  import opened AcyclicSteps
  import opened Runs
  import opened Progress
  import opened Deadlock
  import opened Histories

  // ---------------------------------------------------------------- a measure of the work left

  function Weight(l: Loc): nat {
    match l
    case Queued => 3
    case ClaimedBy(_) => 2
    case OnStack(_, _) => 1
    case Finished => 0
  }

  function Sum(ns: seq<nat>): nat {
    if ns == [] then 0 else Sum(ns[..|ns| - 1]) + ns[|ns| - 1]
  }

  function WorkLeft(s: State): nat {
    Sum(seq(|s.loc|, k requires 0 <= k < |s.loc| => Weight(s.loc[k])))
  }

  predicate Fetches(s: State, i: nat) {
    i < |s.threads| && s.threads[i].pc.Fetch?
  }

  // Whether queued work still lacks a worker on its way to it.
  ghost function Unserved(s: State): nat {
    if s.pool.queue != [] && !(exists i: nat :: Fetches(s, i)) then 1 else 0
  }

  function Releases(th: Thread): nat {
    if th.pc.Returned? then 1 else 0
  }

  function ReleasesLeft(s: State): nat {
    Sum(seq(|s.threads|, i requires 0 <= i < |s.threads| => Releases(s.threads[i])))
  }

  // How far a thread is from its next sleep or from compiled code.
  function Rank(s: State, i: nat): nat
    requires i < |s.threads|
  {
    var th := s.threads[i];
    match th.pc
    case Fetch => 2
    case Idle => if i in s.sleepWork then 0 else 1
    case LockNoted(_, _, id) => if MayHave(s, th, id) then 7 else 4
    case LockWait(_, _, id) => if i in s.sleepLock then 0 else if MayHave(s, th, id) then 6 else 3
    case LockWoken(_, _) => 5
    case TaskWait(_) => if i in s.sleepTask then 0 else 5
    case Helped(_, _) => 5
    case LoopTop(_) => 4
    case HoldsNothing(_) => 3
    case Decided(_, _) => 2
    case WaitOver(_) => 1
    case Popped(_, _) => 2
    case HelpClaimed(_, _) => 1
    case _ => 0
  }

  function Ranks(s: State): nat {
    Sum(seq(|s.threads|, i requires 0 <= i < |s.threads| => Rank(s, i)))
  }

  ghost predicate Less(u: State, s: State) {
    || WorkLeft(u) < WorkLeft(s)
    || (WorkLeft(u) == WorkLeft(s)
        && (|| Unserved(u) < Unserved(s)
            || (Unserved(u) == Unserved(s)
                && (|| ReleasesLeft(u) < ReleasesLeft(s)
                    || (ReleasesLeft(u) == ReleasesLeft(s) && Ranks(u) < Ranks(s))))))
  }

  // ---------------------------------------------------------------- sums

  lemma {:induction false} SumAtMost(a: seq<nat>, b: seq<nat>)
    requires |a| == |b| && forall k :: 0 <= k < |a| ==> b[k] <= a[k]
    ensures Sum(b) <= Sum(a)
    decreases |a|
  {
    if a != [] {
      SumAtMost(a[..|a| - 1], b[..|b| - 1]);
    }
  }

  lemma {:induction false} SumLess(a: seq<nat>, b: seq<nat>, i: nat)
    requires |a| == |b| && forall k :: 0 <= k < |a| ==> b[k] <= a[k]
    requires i < |a| && b[i] < a[i]
    ensures Sum(b) < Sum(a)
    decreases |a|
  {
    if i == |a| - 1 {
      SumAtMost(a[..|a| - 1], b[..|b| - 1]);
    } else {
      SumLess(a[..|a| - 1], b[..|b| - 1], i);
    }
  }

  // ---------------------------------------------------------------- steps by what they use up

  lemma WorkDone(s: State, u: State, task: nat)
    requires 1 <= task <= |s.loc| && |u.loc| == |s.loc|
    requires u.loc == s.loc[task - 1 := u.loc[task - 1]] && Weight(u.loc[task - 1]) < Weight(s.loc[task - 1])
    ensures Less(u, s)
  {
    SumLess(seq(|s.loc|, k requires 0 <= k < |s.loc| => Weight(s.loc[k])),
            seq(|u.loc|, k requires 0 <= k < |u.loc| => Weight(u.loc[k])), task - 1);
  }

  // No work is moved and no worker is needed in addition.
  ghost predicate SameWork(s: State, u: State, i: nat)
    requires i < |s.threads|
  {
    && u.loc == s.loc && u.pool.queue == s.pool.queue && FrameThreads(s, u, i)
    && (s.pool.queue != [] ==> !s.threads[i].pc.Fetch?)
  }

  lemma SameUnserved(s: State, u: State, i: nat)
    requires i < |s.threads| && SameWork(s, u, i)
    ensures Unserved(u) <= Unserved(s)
    ensures |u.threads| > |s.threads| && s.pool.queue != [] && (forall j: nat :: !Fetches(s, j)) ==> Unserved(u) < Unserved(s)
  {
    if s.pool.queue != [] {
      if j: nat :| Fetches(s, j) {
        assert Fetches(u, j);
      }
      if |u.threads| > |s.threads| {
        assert u.threads[|s.threads|] == NEW_WORKER;
        assert Fetches(u, |s.threads|);
      }
    }
  }

  lemma ReleaseDone(s: State, u: State, i: nat)
    requires i < |s.threads| && SameWork(s, u, i) && |u.threads| == |s.threads|
    requires s.threads[i].pc.Returned? && u.threads[i].pc.Released?
    ensures Less(u, s)
  {
    SameUnserved(s, u, i);
    SumLess(seq(|s.threads|, j requires 0 <= j < |s.threads| => Releases(s.threads[j])),
            seq(|u.threads|, j requires 0 <= j < |u.threads| => Releases(u.threads[j])), i);
  }

  // Other threads are not woken, and no lock becomes free.
  ghost predicate NoWake(s: State, u: State, i: nat)
    requires i < |s.threads|
  {
    && (forall j: nat :: j != i ==> (j in u.sleepWork <==> j in s.sleepWork))
    && (forall j: nat :: j != i ==> (j in u.sleepTask <==> j in s.sleepTask))
    && (forall j: nat :: j != i ==> (j in u.sleepLock <==> j in s.sleepLock))
    && (forall id: nat :: Owner(u.table, id) < 0 ==> Owner(s.table, id) < 0)
    && (forall id: nat, k: nat :: Owner(u.table, id) == k && Owner(s.table, id) != k ==> MyKey(s, i, k))
  }

  // The thread has only come nearer to its next wait or call.
  ghost predicate LessRank(s: State, u: State, i: nat) {
    && i < |s.threads| && SameWork(s, u, i) && |u.threads| == |s.threads|
    && !s.threads[i].pc.Returned? && !u.threads[i].pc.Returned?
    && NoWake(s, u, i) && Rank(u, i) < Rank(s, i)
  }

  lemma RankDone(s: State, u: State, i: nat)
    requires ThreadsOk(s) && LessRank(s, u, i)
    ensures Less(u, s)
  {
    hide ThreadOk;
    SameUnserved(s, u, i);
    SumAtMost(seq(|s.threads|, j requires 0 <= j < |s.threads| => Releases(s.threads[j])),
              seq(|u.threads|, j requires 0 <= j < |u.threads| => Releases(u.threads[j])));
    forall j | 0 <= j < |s.threads| && j != i ensures Rank(u, j) <= Rank(s, j) {
      OtherRank(s, u, i, j);
    }
    SumLess(seq(|s.threads|, j requires 0 <= j < |s.threads| => Rank(s, j)),
            seq(|u.threads|, j requires 0 <= j < |u.threads| => Rank(u, j)), i);
  }

  lemma OtherRank(s: State, u: State, i: nat, j: nat)
    requires i < |s.threads| && j < |s.threads| && j != i && ThreadOk(s, i) && ThreadOk(s, j)
    requires FrameThreads(s, u, i) && NoWake(s, u, i)
    ensures Rank(u, j) <= Rank(s, j)
  {
    var th := s.threads[j];
    if th.stack != [] {
      StacksDisjoint(s, i, j, |th.stack| - 1);
    }
  }

  lemma WorkerAdded(s: State, u: State, i: nat)
    requires i < |s.threads| && SameWork(s, u, i) && |u.threads| > |s.threads|
    requires s.pool.queue != [] && forall j: nat :: !Fetches(s, j)
    ensures Less(u, s)
  {
    SameUnserved(s, u, i);
  }

  // ---------------------------------------------------------------- every section uses something up

  lemma PopLess(s: State, u: State, i: nat)
    requires TasksOk(s) && s.pool.queue != []
    requires u.loc == s.loc[s.pool.queue[0] - 1 := ClaimedBy(i)]
    requires 1 <= s.pool.queue[0] <= |s.loc|
    ensures Less(u, s)
  {
    assert HasLoc(s, s.pool.queue[0], Queued);
    WorkDone(s, u, s.pool.queue[0]);
  }

  lemma PopsFront(s: State, i: nat)
    requires CanStep(s, i, Run) && (s.threads[i].pc.Fetch? || s.threads[i].pc.Idle?)
    requires s.pool.queue != [] && 1 <= s.pool.queue[0] <= |s.loc|
    ensures RunStep(s, i).loc == s.loc[s.pool.queue[0] - 1 := ClaimedBy(i)]
  {
  }

  lemma FindsNothing(s: State, i: nat)
    requires CanStep(s, i, Run) && (s.threads[i].pc.Fetch? || s.threads[i].pc.Idle?) && s.pool.queue == []
    ensures LessRank(s, RunStep(s, i), i)
  {
  }

  lemma FetchLess(s: State, i: nat)
    requires Inv(s) && CanStep(s, i, Run) && (s.threads[i].pc.Fetch? || s.threads[i].pc.Idle?)
    ensures Less(RunStep(s, i), s)
  {
    hide ThreadsOk, RecordsOk, LocksOk, WorkersOk, EndingOk, RunStep, CanStep, Less, LessRank;
    var u := RunStep(s, i);
    if s.pool.queue != [] {
      assert HasLoc(s, s.pool.queue[0], Queued);
      PopsFront(s, i);
      PopLess(s, u, i);
    } else {
      FindsNothing(s, i);
      RankDone(s, u, i);
    }
  }

  lemma BeginLess(s: State, i: nat)
    requires Inv(s) && CanStep(s, i, Run) && (s.threads[i].pc.Claimed? || s.threads[i].pc.HelpClaimed?)
    ensures Less(RunStep(s, i), s)
  {
    hide RecordsOk, LocksOk, WorkersOk, EndingOk;
    OneThread(s, i);
    hide ThreadsOk, ShapeOk, SuspendedOk, SleepOk, Less;
    var task := s.threads[i].pc.task;
    assert LocOk(s, task);
    WorkDone(s, RunStep(s, i), task);
  }

  lemma FinishLess(s: State, i: nat)
    requires Inv(s) && CanStep(s, i, Run) && s.threads[i].pc.Released?
    ensures Less(RunStep(s, i), s)
  {
    FinishingTask(s, i, s.threads[i].pc.failure);
    FinishIs(s, i, s.threads[i].pc.failure);
    WorkDone(s, RunStep(s, i), Cur(s.threads[i]));
  }

  lemma ReturnEffect(s: State, i: nat)
    requires CanStep(s, i, Run) && s.threads[i].pc.Returned? && ReleaseAll(s.table, Cur(s.threads[i])).Ok?
    ensures var u := RunStep(s, i);
            SameWork(s, u, i) && |u.threads| == |s.threads| && u.threads[i].pc.Released?
  {
    hide ReleaseAll, Announced;
  }

  lemma ReturnLess(s: State, i: nat)
    requires Inv(s) && CanStep(s, i, Run) && s.threads[i].pc.Returned?
    ensures Less(RunStep(s, i), s)
  {
    hide ThreadsOk, TasksOk, RecordsOk, WorkersOk, EndingOk;
    ReleaseAllReleasesAll(s.table, Cur(s.threads[i]));
    hide LocksOk, TableOk, ReleaseAll, Moves, Less, SameWork;
    ReturnEffect(s, i);
    hide RunStep;
    ReleaseDone(s, RunStep(s, i), i);
  }

  // The thread goes to wait; a worker may have been added.
  ghost predicate GoesToWait(s: State, u: State, i: nat)
    requires i < |s.threads|
  {
    && SameWork(s, u, i) && NoWake(s, u, i) && !u.threads[i].pc.Returned?
    && |s.threads| <= |u.threads|
    && (|u.threads| > |s.threads| ==> BlockBegin(s.pool, s.threads[i].worker).extraWorkers > s.pool.extraWorkers)
    && (|u.threads| == |s.threads| ==> Rank(u, i) < Rank(s, i))
  }

  lemma LockWaitEffect(s: State, i: nat)
    requires CanStep(s, i, Run) && PcOk(s, i) && s.threads[i].pc.LockNoted?
    ensures GoesToWait(s, RunStep(s, i), i)
  {
  }

  lemma TaskWaitEffect(s: State, i: nat)
    requires CanStep(s, i, Run) && s.threads[i].pc.Decided? && RunStep(s, i).threads[i].pc.TaskWait?
    ensures GoesToWait(s, RunStep(s, i), i)
  {
    hide Owner;
  }

  // Going to wait: a compensation worker starts, or the thread is nearer to its sleep.
  lemma BlockLess(s: State, i: nat)
    requires Inv(s) && CanStep(s, i, Run)
    requires s.threads[i].pc.LockNoted?
             || (s.threads[i].pc.Decided? && RunStep(s, i).threads[i].pc.TaskWait?)
    ensures Less(RunStep(s, i), s)
  {
    var u := RunStep(s, i);
    assert ThreadOk(s, i);
    if s.threads[i].pc.LockNoted? {
      LockWaitEffect(s, i);
    } else {
      TaskWaitEffect(s, i);
    }
    hide RunStep, NoWake, SameWork, Rank, Less;
    if |u.threads| > |s.threads| {
      AllWorkersBlocked(s, i);
      WorkerAdded(s, u, i);
    } else {
      RankDone(s, u, i);
    }
  }

  // A worker is only added when every worker is blocked, this one included.
  lemma AllWorkersBlocked(s: State, i: nat)
    requires Inv(s) && i < |s.threads| && !IsBlocked(s.threads[i])
    requires s.threads[i].pc.LockNoted? || s.threads[i].pc.Decided?
    requires BlockBegin(s.pool, s.threads[i].worker).extraWorkers > s.pool.extraWorkers
    ensures s.pool.queue != [] && forall j: nat :: !Fetches(s, j)
  {
    if j: nat :| Fetches(s, j) {
      UnblockedWorkers(s, i, j);
    }
  }

  lemma UnblockedWorkers(s: State, i: nat, j: nat)
    requires ThreadsOk(s) && i < |s.threads| && !IsBlocked(s.threads[i]) && !s.threads[i].pc.Fetch? && Fetches(s, j)
    ensures |BlockedSet(s)| + (if s.threads[i].worker then 1 else 0) + 2 <= |s.threads|
  {
    var n := |s.threads| - 1;
    IndicesAre(n);
    assert ThreadOk(s, i) && ThreadOk(s, j);
    var busy := BlockedSet(s) + (if s.threads[i].worker then {i} else {});
    forall x: nat | x in busy ensures x in Indices(n) - {j} {
      assert ThreadOk(s, x);
    }
    SubsetSize(busy, Indices(n) - {j});
    assert i !in BlockedSet(s);
    assert |busy| == |BlockedSet(s)| + (if s.threads[i].worker then 1 else 0);
  }

  lemma WokenLess(s: State, i: nat)
    requires Inv(s) && CanStep(s, i, Run) && s.threads[i].pc.LockWoken?
    ensures RunStep(s, i).fatal || Less(RunStep(s, i), s)
  {
    var pc := s.threads[i].pc;
    var key := Cur(s.threads[i]);
    var t := s.table.(edges := s.table.edges - {key});
    EdgesKeepTableOk(s.table, t);
    if !RunStep(s, i).fatal {
      EnterRank(s, t, i);
      EnterWakesNobody(s, t, i, pc.ids, pc.explicitly);
      RankDone(s, RunStep(s, i), i);
    }
  }

  lemma EnterRank(s: State, t: Table, i: nat)
    requires i < |s.threads| && s.threads[i].pc.LockWoken? && s.threads[i].stack != []
    requires TableOk(t)
    requires !EnterStep(s.(table := t), i, s.threads[i].pc.ids, s.threads[i].pc.explicitly).fatal
    ensures var u := EnterStep(s.(table := t), i, s.threads[i].pc.ids, s.threads[i].pc.explicitly);
            SameWork(s, u, i) && |u.threads| == |s.threads| && !u.threads[i].pc.Returned? && Rank(u, i) < Rank(s, i)
  {
    hide Enter, CycleLocked, TableOk, Announced;
    var pc := s.threads[i].pc;
    var key := Cur(s.threads[i]);
    if Enter(t, key, pc.ids, pc.explicitly).Blocked? {
      BlockedTable(t, key, pc.ids, pc.explicitly);
    }
  }

  // ---------------------------------------------------------------- SYNC_ENTER announces no lock that has waiters

  lemma {:induction false} AcquireAnnouncesNothing(t: Table, key: nat, ids: seq<nat>, i: nat, explicitly: bool)
    requires i <= |ids|
    ensures var a := Acquire(t, key, ids, i, explicitly);
            !a.Fatal? ==> a.t.notified == t.notified
    decreases |ids| - i
  {
    if i < |ids| {
      var first := TryAcquire(t, key, ids[i], explicitly);
      if first.Got? {
        AcquireAnnouncesNothing(first.t, key, ids, i + 1, explicitly);
      }
    }
  }

  ghost predicate AnnouncedAreFree(t: Table) {
    forall id: nat :: id in t.notified ==> Owner(t, id) < 0
  }

  lemma ReleaseAnnouncesOne(t: Table, key: nat, id: nat, explicitly: bool)
    requires AnnouncedAreFree(t) && Release(t, key, id, explicitly).Ok?
    ensures AnnouncedAreFree(Release(t, key, id, explicitly).t)
  {
    var u := Release(t, key, id, explicitly).t;
    forall x: nat | x in u.notified ensures Owner(u, x) < 0 {
      if x != id {
        assert Rec(u, x) == Rec(t, x);
      }
    }
  }

  lemma {:induction false} ReleaseAnnouncesFree(t: Table, key: nat, ids: seq<nat>, explicitly: bool)
    requires AnnouncedAreFree(t)
    ensures var r := ReleaseReversed(t, key, ids, explicitly);
            r.Ok? ==> AnnouncedAreFree(r.t)
    decreases |ids|
  {
    hide AnnouncedAreFree, Release;
    if ids != [] {
      var r := Release(t, key, ids[|ids| - 1], explicitly);
      if r.Ok? {
        ReleaseAnnouncesOne(t, key, ids[|ids| - 1], explicitly);
        ReleaseAnnouncesFree(r.t, key, ids[..|ids| - 1], explicitly);
      }
    }
  }

  // A blocked round leaves all owners as they were and announces only free locks; a successful one
  // announces nothing and only gives locks to its own task.
  lemma EnterAnnounces(t: Table, key: nat, ids: seq<nat>, explicitly: bool)
    requires TableOk(t) && t.notified == {}
    ensures var r := Enter(t, key, ids, explicitly);
            && (r.Blocked? ==>
                  && (forall id: nat :: Owner(r.t, id) == Owner(t, id))
                  && AnnouncedAreFree(r.t))
            && (r.Entered? ==>
                  && r.t.notified == {}
                  && (forall id: nat :: Owner(r.t, id) == Owner(t, id) || (Owner(t, id) < 0 && Owner(r.t, id) == key)))
  {
    AcquireAnnouncesNothing(t, key, ids, 0, explicitly);
    var r := Enter(t, key, ids, explicitly);
    if r.Blocked? {
      var a := Acquire(t, key, ids, 0, explicitly);
      BlockedEnterIsNoOp(t, key, ids, explicitly);
      forall id: nat ensures Owner(r.t, id) == Owner(t, id) {
        assert Rec(r.t, id) == Rec(t, id);
      }
      ReleaseAnnouncesFree(a.t, key, ids[..a.at], explicitly);
      assert ReleaseReversed(a.t, key, ids[..a.at], explicitly) == LockTable.Ok(r.t);
    } else if r.Entered? {
      EnterKeepsOk(t, key, ids, explicitly);
      forall id: nat ensures Owner(r.t, id) == Owner(t, id) || (Owner(t, id) < 0 && Owner(r.t, id) == key) {
        assert Rec(r.t, id) == Rec(t, id) || (Ours(Owner(t, id), key) && Ours(Owner(r.t, id), key));
      }
    }
  }

  lemma EnterWakesNobody(s: State, t: Table, i: nat, ids: seq<nat>, explicitly: bool)
    requires ThreadsOk(s) && TableOk(t) && t.notified == {} && i < |s.threads| && s.threads[i].stack != []
    requires forall id: nat :: Owner(t, id) == Owner(s.table, id)
    requires !EnterStep(s.(table := t), i, ids, explicitly).fatal
    ensures NoWake(s, EnterStep(s.(table := t), i, ids, explicitly), i)
  {
    var key := Cur(s.threads[i]);
    var u := EnterStep(s.(table := t), i, ids, explicitly);
    var r := Enter(t, key, ids, explicitly);
    EnterAnnounces(t, key, ids, explicitly);
    if r.Blocked? {
      NobodyAnnounced(s, r.t);
    }
    forall id: nat ensures Owner(u.table, id) == Owner(r.t, id) {
    }
  }

  // Nobody sleeps for a lock that is free.
  lemma NobodyAnnounced(s: State, t: Table)
    requires ThreadsOk(s)
    requires forall id: nat :: Owner(t, id) == Owner(s.table, id)
    requires AnnouncedAreFree(t)
    ensures forall j: nat :: j in s.sleepLock ==> !Announced(s, t, j)
  {
    forall j: nat | j in s.sleepLock ensures !Announced(s, t, j) {
      assert ThreadOk(s, j);
      assert Owner(t, s.threads[j].pc.id) == Owner(s.table, s.threads[j].pc.id);
    }
  }

  // ---------------------------------------------------------------- the theorem

  lemma LooksAgain(s: State, i: nat)
    requires i < |s.threads| && PcOk(s, i) && CanStep(s, i, Run)
    requires var pc := s.threads[i].pc;
             pc.LockWait? || pc.TaskWait? || pc.LoopTop? || pc.HoldsNothing?
    ensures LessRank(s, RunStep(s, i), i)
  {
  }

  lemma WaitLess(s: State, i: nat)
    requires Inv(s) && CanStep(s, i, Run)
    requires var pc := s.threads[i].pc;
             pc.LockWait? || pc.TaskWait? || pc.LoopTop? || pc.HoldsNothing?
    ensures Less(RunStep(s, i), s)
  {
    hide ThreadsOk, TasksOk, RecordsOk, LocksOk, WorkersOk, EndingOk, RunStep, LessRank, Less;
    OneThread(s, i);
    LooksAgain(s, i);
    RankDone(s, RunStep(s, i), i);
  }

  lemma DecidedLess(s: State, i: nat)
    requires Inv(s) && CanStep(s, i, Run) && s.threads[i].pc.Decided?
    ensures Less(RunStep(s, i), s)
  {
    hide ThreadsOk, RecordsOk, LocksOk, EndingOk;
    var h := s.threads[i].pc.handle;
    OneThread(s, i);
    if IsFinished(TaskAt(s.pool, h).state) {
      RankDone(s, RunStep(s, i), i);
    } else if s.threads[i].pc.mayHelp && s.pool.queue != [] {
      assert HasLoc(s, s.pool.queue[0], Queued);
      PopLess(s, RunStep(s, i), i);
    } else {
      BlockLess(s, i);
    }
  }

  lemma EdgeEffect(s: State, i: nat)
    requires s.table.notified == {} && CanStep(s, i, Run)
    requires s.threads[i].pc.Popped? || s.threads[i].pc.Helped? || s.threads[i].pc.WaitOver?
    ensures var u := RunStep(s, i);
            u.fatal || (&& u.table.locks == s.table.locks && |u.threads| == |s.threads| && SameWork(s, u, i)
                        && u.sleepWork == s.sleepWork && u.sleepTask == s.sleepTask && u.sleepLock == s.sleepLock
                        && !u.threads[i].pc.Returned? && Rank(u, i) < Rank(s, i))
  {
  }

  lemma EdgeLess(s: State, i: nat)
    requires Inv(s) && CanStep(s, i, Run)
    requires s.threads[i].pc.Popped? || s.threads[i].pc.Helped? || s.threads[i].pc.WaitOver?
    ensures RunStep(s, i).fatal || Less(RunStep(s, i), s)
  {
    hide ThreadsOk, TasksOk, RecordsOk, WorkersOk, EndingOk;
    EdgeEffect(s, i);
    hide RunStep, CanStep, Rank, SameWork, Less;
    var u := RunStep(s, i);
    if !u.fatal {
      forall id: nat ensures Owner(u.table, id) == Owner(s.table, id) {
      }
      RankDone(s, u, i);
    }
  }

  // Every section that the runtime executes on its own account uses up some of the work left.
  lemma RunLess(s: State, i: nat)
    requires Inv(s) && CanStep(s, i, Run) && !s.threads[i].pc.User?
    ensures RunStep(s, i).fatal || Less(RunStep(s, i), s)
  {
    match s.threads[i].pc
    case Fetch => FetchLess(s, i);
    case Idle => FetchLess(s, i);
    case Claimed(_) => BeginLess(s, i);
    case LockNoted(_, _, _) => BlockLess(s, i);
    case LockWait(_, _, _) => WaitLess(s, i);
    case LockWoken(_, _) => WokenLess(s, i);
    case LoopTop(_) => WaitLess(s, i);
    case HoldsNothing(_) => WaitLess(s, i);
    case Decided(_, _) => DecidedLess(s, i);
    case TaskWait(_) => WaitLess(s, i);
    case Popped(_, _) => EdgeLess(s, i);
    case HelpClaimed(_, _) => BeginLess(s, i);
    case Helped(_, _) => EdgeLess(s, i);
    case WaitOver(_) => EdgeLess(s, i);
    case Returned(_) => ReturnLess(s, i);
    case Released(_) => FinishLess(s, i);
  }

  predicate RuntimeCanStep(s: State, i: nat) {
    CanStep(s, i, Run) && !s.threads[i].pc.User?
  }

  ghost predicate RuntimeNext(s: State, u: State) {
    exists i: nat :: RuntimeCanStep(s, i) && u == RunStep(s, i)
  }

  predicate InCompiledCode(s: State, i: nat) {
    i < |s.threads| && s.threads[i].pc.User?
  }

  // What a run of such sections keeps until it is over.
  ghost predicate Going(s: State) {
    Safe(s) && !s.fatal && !s.pool.stopping && !s.threads[0].pc.Exited?
  }

  lemma RunTaskKeepsPool(s: State, i: nat)
    requires RuntimeCanStep(s, i)
    requires s.threads[i].pc.Claimed? || s.threads[i].pc.HelpClaimed? || s.threads[i].pc.Released?
    ensures var u := RunStep(s, i);
            |u.pool.tasks| == |s.pool.tasks| && u.pool.stopping == s.pool.stopping
  {
  }

  lemma QuietStopping(s: State, i: nat)
    requires RuntimeCanStep(s, i)
    requires !s.threads[i].pc.Claimed? && !s.threads[i].pc.HelpClaimed? && !s.threads[i].pc.Released?
    ensures RunStep(s, i).pool.stopping == s.pool.stopping
  {
    BlockKeepsStopping(s.pool, s.threads[i].worker);
    hide Enter, ReleaseAll, Owner, CycleLocked, Announced, BlockBegin, BlockEnd;
  }

  lemma BlockKeepsStopping(p: Pool, isWorker: bool)
    ensures BlockBegin(p, isWorker).stopping == p.stopping && BlockEnd(p, isWorker).stopping == p.stopping
  {
  }

  lemma SectionKeepsPool(s: State, i: nat)
    requires RuntimeCanStep(s, i)
    ensures var u := RunStep(s, i);
            |u.pool.tasks| == |s.pool.tasks| && u.pool.stopping == s.pool.stopping
  {
    var pc := s.threads[i].pc;
    if pc.Claimed? || pc.HelpClaimed? || pc.Released? {
      RunTaskKeepsPool(s, i);
    } else {
      QuietRun(s, i);
      QuietStopping(s, i);
    }
  }

  // The main thread does not end in a section of the runtime.
  lemma SectionKeepsMain(s: State, i: nat)
    requires RuntimeCanStep(s, i) && ThreadOk(s, 0)
    ensures RunStep(s, i).threads != [] && RunStep(s, i).threads[0].pc.Exited? ==> s.threads[0].pc.Exited?
  {
    RunThreads(s, i);
    if i == 0 {
      MainIsNoWorker(s);
    }
  }

  lemma MainIsNoWorker(s: State)
    requires RuntimeCanStep(s, 0) && ThreadOk(s, 0)
    ensures RunStep(s, 0).threads != [] && !RunStep(s, 0).threads[0].pc.Exited?
  {
    hide Enter, ReleaseAll, ReleaseReversed, PopExplicit, PopTo, CycleLocked, Announced, Rec;
  }

  lemma SectionIsNext(s: State, u: State, i: nat)
    requires RuntimeCanStep(s, i) && u == RunStep(s, i)
    ensures Next(s, u)
  {
    assert CanHappen(s, ThreadStep(i, Run)) && u == After(s, ThreadStep(i, Run));
  }

  lemma MainGoesOn(s: State, u: State, i: nat)
    requires Inv(s) && Inv(u) && RuntimeCanStep(s, i) && u == RunStep(s, i) && !s.threads[0].pc.Exited?
    ensures !u.threads[0].pc.Exited?
  {
    hide RunStep, RuntimeCanStep, TasksOk, RecordsOk, LocksOk, WorkersOk, EndingOk, ThreadOk;
    OneThread(s, 0);
    SectionKeepsMain(s, i);
  }

  lemma SectionKeepsGoing(s: State, u: State)
    requires Going(s) && RuntimeNext(s, u) && (u.fatal || ShortCycles(u.table))
    ensures |u.pool.tasks| == |s.pool.tasks|
    ensures u.fatal || (Going(u) && Less(u, s))
  {
    var i: nat :| RuntimeCanStep(s, i) && u == RunStep(s, i);
    hide RunStep, RuntimeCanStep, Less, Next, Inv, Acyclic, ShortCycles;
    SectionKeepsPool(s, i);
    SectionIsNext(s, u, i);
    StepIsSafe(s, u);
    if !u.fatal {
      HasMain(s);
      HasMain(u);
      MainGoesOn(s, u, i);
      SectionLess(s, i);
    }
  }

  lemma SectionLess(s: State, i: nat)
    requires Inv(s) && RuntimeCanStep(s, i)
    ensures RunStep(s, i).fatal || Less(RunStep(s, i), s)
  {
    hide Inv, RunStep, Less;
    RunLess(s, i);
  }

  lemma HasMain(s: State)
    requires Inv(s)
    ensures s.threads != []
  {
  }

  // A spurious wake-up of a sleeping thread.
  ghost predicate WakeNext(s: State, u: State) {
    exists i: nat :: CanHappen(s, SpuriousWake(i)) && u == After(s, SpuriousWake(i))
  }

  lemma WakeKeepsGoing(s: State, u: State)
    requires Going(s) && WakeNext(s, u)
    ensures Going(u) && |u.pool.tasks| == |s.pool.tasks|
  {
    var i: nat :| CanHappen(s, SpuriousWake(i)) && u == After(s, SpuriousWake(i));
    EventKeepsInv(s, SpuriousWake(i));
    hide Inv, Acyclic;
    assert u.table == s.table;
  }

  // A schedule of the runtime's own sections and of spurious wake-ups: it goes on as long as a section can
  // be executed.
  ghost predicate Schedule(f: nat -> State) {
    forall n: nat :: ScheduleStep(f, n)
  }

  ghost predicate ScheduleStep(f: nat -> State, n: nat) {
    RuntimeNext(f(n), f(n + 1)) || WokenAt(f, n) || AtRest(f(n))
  }

  ghost predicate WokenAt(f: nat -> State, n: nat) {
    WakeNext(f(n), f(n + 1))
  }

  // From state n on no cycle arises that is too long for the detector; fewer than CAP tasks are enough.
  ghost predicate ShortFrom(f: nat -> State, n: nat) {
    |f(n).pool.tasks| + 1 <= CAP || forall k: nat :: k >= n ==> ShortCycles(f(k).table)
  }

  lemma SectionIsShort(f: nat -> State, n: nat)
    requires Inv(f(n)) && RuntimeNext(f(n), f(n + 1)) && ShortFrom(f, n)
    ensures f(n + 1).fatal || ShortCycles(f(n + 1).table)
  {
    var s, u := f(n), f(n + 1);
    var i: nat :| RuntimeCanStep(s, i) && u == RunStep(s, i);
    hide RunStep, RuntimeCanStep, Next;
    SectionKeepsPool(s, i);
    SectionIsNext(s, u, i);
    NextKeepsInv(s, u);
    hide Inv, ShortCycles;
    if !u.fatal && |s.pool.tasks| + 1 <= CAP {
      EdgesAtMostTasks(u);
      FewEdgesAreShort(u.table);
    }
  }

  // No section of the runtime's own is enabled: every thread is in compiled code, asleep or at its end.
  ghost predicate AtRest(s: State) {
    !(exists i: nat :: RuntimeCanStep(s, i))
  }

  ghost predicate HandedOver(s: State) {
    s.fatal || (AtRest(s) && exists i: nat :: InCompiledCode(s, i))
  }

  // However its sections are scheduled, after finitely many of them the runtime has none left to execute
  // and some thread is in compiled code, or the program has been stopped with a diagnosis. Any number of
  // spurious wake-ups may come in between, but not an endless series: from state `quiet` on there are none.
  lemma {:induction false} ScheduleHandsOver(f: nat -> State, n: nat, quiet: nat)
    requires Schedule(f) && Going(f(n)) && ShortFrom(f, n)
    requires forall k: nat :: k >= quiet ==> !WokenAt(f, k)
    ensures exists m: nat :: n <= m && HandedOver(f(m))
    decreases if n < quiet then quiet - n else 0, WorkLeft(f(n)), Unserved(f(n)), ReleasesLeft(f(n)), Ranks(f(n))
  {
    hide HandedOver, RuntimeNext, WakeNext, AtRest, Safe;
    assert ScheduleStep(f, n);
    if RuntimeNext(f(n), f(n + 1)) {
      GoingIsInv(f(n));
      SectionIsShort(f, n);
      SectionKeepsGoing(f(n), f(n + 1));
      if f(n + 1).fatal {
        StoppedIsHandedOver(f(n + 1));
        assert n <= n + 1 && HandedOver(f(n + 1));
      } else {
        ScheduleHandsOver(f, n + 1, quiet);
        var m: nat :| n + 1 <= m && HandedOver(f(m));
        assert n <= m && HandedOver(f(m));
      }
    } else if WokenAt(f, n) {
      WakeKeepsGoing(f(n), f(n + 1));
      ScheduleHandsOver(f, n + 1, quiet);
      var m: nat :| n + 1 <= m && HandedOver(f(m));
      assert n <= m && HandedOver(f(m));
    } else {
      StuckMeansCompiledCode(f(n));
      assert n <= n && HandedOver(f(n));
    }
  }

  lemma GoingIsInv(s: State)
    requires Going(s)
    ensures Inv(s)
  {
    hide Inv, Acyclic;
  }

  lemma StoppedIsHandedOver(s: State)
    requires s.fatal
    ensures HandedOver(s)
  {
  }

  lemma StuckMeansCompiledCode(s: State)
    requires Going(s) && AtRest(s)
    ensures HandedOver(s)
  {
    SomeoneAlwaysCanMove(s);
    var i: nat :| CanMove(s, i);
    assert ThreadOk(s, i);
    assert RuntimeCanStep(s, i) || InCompiledCode(s, i);
  }
}
