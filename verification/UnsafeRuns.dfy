/** Runs of the operator in which a lock is taken from its users, and what becomes of them. */
module UnsafeRuns {
  import opened Prelude
  import opened Objects
  import opened MutexMaps
  import opened Reconcile
  import opened MicroSteps
  import opened Workers
  import opened Slices
  import opened Serial
  import opened Concurrent
  import Runs

  /** Where a run on events of real replica sets gets to; `cleans` allows cleanups of the cache. */
  datatype Setting = Setting(c: Config, owner: Id -> string, s: State, n: nat, cleans: bool)

  ghost predicate MoveOk(e: Setting, m: Move) {
    (m.Take? ==> EventTask(e.c, e.owner, m.t)) && (m.CleanCache? ==> e.cleans)
  }

  /** A run of `n` moves gets there. */
  ghost predicate LeadsIn(e: Setting, y: Sys, n: nat)
    decreases n, 1
  {
    if n == 0 then y == Begin(e.s, e.n) else LeadsBy(e, y, n - 1)
  }

  /** A run of `n` moves and one more gets there. */
  ghost predicate LeadsBy(e: Setting, y: Sys, n: nat)
    decreases n, 2
  {
    exists x, m :: LeadsIn(e, x, n) && Enabled(x, m) && MoveOk(e, m) && y == After(x, m)
  }

  ghost predicate Leads(e: Setting, y: Sys) {
    exists n: nat :: LeadsIn(e, y, n)
  }

  lemma Then(e: Setting, y: Sys, m: Move) returns (y': Sys)
    requires Leads(e, y) && Enabled(y, m) && MoveOk(e, m)
    ensures Leads(e, y') && y' == After(y, m)
  {
    y' := After(y, m);
    var n: nat :| LeadsIn(e, y, n);
    assert LeadsBy(e, y', n);
    assert LeadsIn(e, y', n + 1);
  }

  lemma LastMove(e: Setting, y: Sys, n: nat) returns (x: Sys, m: Move)
    requires n > 0 && LeadsIn(e, y, n)
    ensures LeadsIn(e, x, n - 1) && Enabled(x, m) && MoveOk(e, m) && y == After(x, m)
  {
    assert LeadsBy(e, y, n - 1);
    x, m :| LeadsIn(e, x, n - 1) && Enabled(x, m) && MoveOk(e, m) && y == After(x, m);
  }

  /** The moves of a run on events. */
  ghost predicate OnEvents(e: Setting, moves: seq<Move>) {
    forall i | 0 <= i < |moves| :: MoveOk(e, moves[i])
  }

  lemma OneMore(trace: seq<Sys>, moves: seq<Move>, m: Move)
    requires Steps(trace, moves) && Enabled(trace[|moves|], m)
    ensures Steps(trace + [After(trace[|moves|], m)], moves + [m])
  {
  }

  /** Where events lead is the end of a run of the operator on events. */
  lemma {:induction false} RunTo(e: Setting, y: Sys, n: nat) returns (trace: seq<Sys>, moves: seq<Move>)
    requires LeadsIn(e, y, n)
    ensures Steps(trace, moves) && trace[0] == Begin(e.s, e.n) && trace[|moves|] == y && OnEvents(e, moves)
    decreases n
  {
    if n == 0 {
      trace, moves := [y], [];
    } else {
      var x, m := LastMove(e, y, n);
      trace, moves := RunTo(e, x, n - 1);
      OneMore(trace, moves, m);
      trace, moves := trace + [y], moves + [m];
    }
  }

  lemma RunOnEvents(e: Setting, y: Sys) returns (trace: seq<Sys>, moves: seq<Move>)
    requires Leads(e, y) && !e.cleans
    ensures EventRun(e.c, e.owner, e.s, e.n, trace, moves) && trace[|moves|] == y
  {
    var n: nat :| LeadsIn(e, y, n);
    trace, moves := RunTo(e, y, n);
    assert forall i | 0 <= i < |moves| :: MoveOk(e, moves[i]);
  }

  /**
   * Tasks of events, all of one deployment. They are of different replica sets: the queue never hands
   * out one replica set to two workers at once.
   */
  ghost predicate SameDeployment(e: Setting, ts: seq<Task>) {
    && |ts| > 0
    && (forall i | 0 <= i < |ts| :: EventTask(e.c, e.owner, ts[i]) && ts[i].key == ts[0].key)
    && (forall i, j | 0 <= i < j < |ts| :: ts[i].replica != ts[j].replica)
  }

  /** The event deletes the filter of its deployment. */
  ghost predicate DeletingTask(s: State, t: Task) {
    Wanted(t, Lookup(s.active, t.key)) && t.entry.grpcPort == 0
  }

  lemma DeletesIsDeleting(c: Config, s: State, rs: ReplicaSet, f: Faults)
    ensures DeletingTask(s, TaskOf(c, rs, f)) <==> Deletes(s, rs)
  {
  }

  /** The lock of the deployment as its first user holds it, and without its name. */
  function Held(key: string): Locks {
    Locks(map[key := 0], map[0 := 0], 1)
  }

  const ORPHAN: Locks := Locks(map[], map[0 := 0], 1)

  ghost function Asks(ts: seq<Task>, n: nat): seq<Worker>
    requires n <= |ts|
  {
    seq(|ts|, i requires 0 <= i < |ts| => if i < n then Asking(ts[i]) else Idle)
  }

  /** Every worker has taken an event. */
  lemma {:induction false} AllTake(e: Setting, ts: seq<Task>, n: nat)
    requires SameDeployment(e, ts) && e.n == |ts| && n <= |ts|
    ensures Leads(e, Sys(e.s, UNUSED, Asks(ts, n)))
  {
    if n == 0 {
      assert Begin(e.s, e.n).workers == Asks(ts, 0);
      assert LeadsIn(e, Begin(e.s, e.n), 0);
    } else {
      AllTake(e, ts, n - 1);
      var _ := Then(e, Sys(e.s, UNUSED, Asks(ts, n - 1)), Take(n - 1, ts[n - 1]));
      assert Asks(ts, n - 1)[n - 1 := Asking(ts[n - 1])] == Asks(ts, n);
    }
  }

  /** The first worker has the lock. */
  lemma FirstHolds(e: Setting, ts: seq<Task>) returns (y: Sys)
    requires SameDeployment(e, ts) && e.n == |ts|
    ensures Leads(e, y)
    ensures y.state == e.s && y.locks == Held(ts[0].key) && |y.workers| == |ts| && y.workers[0] == Running(ts[0], Decide, false)
    ensures forall i | 0 < i < |ts| :: y.workers[i] == Asking(ts[i])
  {
    AllTake(e, ts, |ts|);
    y := Then(e, Sys(e.s, UNUSED, Asks(ts, |ts|)), TryLock(0));
  }

  /** One action of a worker. */
  lemma Works(e: Setting, y: Sys, w: nat, t: Task, g: Stage) returns (y': Sys)
    requires Leads(e, y) && |y.workers| > w && y.workers[w] == Running(t, g, false) && g != Done && g != LockRemove
    ensures y' == Sys(Micro(y.state, t, g).0, y.locks, y.workers[w := Running(t, Micro(y.state, t, g).1, false)])
    ensures Leads(e, y')
  {
    y' := Then(e, y, Work(w));
  }

  /** The stages of a deletion, and what they leave of the cache. */
  lemma Deleting(s: State, t: Task)
    ensures DeletingTask(s, t) ==> Micro(s, t, Decide) == (s, FltDelete)
    ensures Micro(s, t, FltDelete).1 == (if t.faults.deleteFilter then CacheDelete else GaugeDec)
    ensures Micro(s, t, GaugeDec).1 == CacheDelete
    ensures Micro(s, t, CacheDelete).1 == LockRemove && t.key !in Micro(s, t, CacheDelete).0.active
    ensures Micro(s, t, LockRemove) == (s, Done)
  {
  }

  /** From the decision to where the cache entry goes, whether the API deletes the filter or not. */
  lemma FirstDecides(e: Setting, y: Sys, t: Task) returns (y': Sys)
    requires Leads(e, y) && |y.workers| > 0 && y.workers[0] == Running(t, Decide, false) && DeletingTask(y.state, t)
    ensures Leads(e, y') && y'.locks == y.locks && y'.workers == y.workers[0 := Running(t, CacheDelete, false)]
  {
    Deleting(y.state, t);
    y' := Works(e, y, 0, t, Decide);
    y' := Works(e, y', 0, t, FltDelete);
    if !t.faults.deleteFilter {
      Deleting(y'.state, t);
      y' := Works(e, y', 0, t, GaugeDec);
    }
  }

  /** The first worker deletes: from the decision to the removed lock. */
  lemma FirstDeletes(e: Setting, y: Sys, t: Task) returns (y': Sys)
    requires Leads(e, y) && |y.workers| > 0 && y.workers[0] == Running(t, Decide, false) && DeletingTask(y.state, t)
    ensures Leads(e, y') && y'.workers == y.workers[0 := Running(t, Done, true)]
    ensures y'.locks == Removed(y.locks, t.key) && t.key !in y'.state.active
  {
    y' := FirstDecides(e, y, t);
    Deleting(y'.state, t);
    y' := Works(e, y', 0, t, CacheDelete);
    Deleting(y'.state, t);
    y' := Then(e, y', Work(0));
  }

  /** A held mutex without a name stays held, and who waits for it waits. */
  ghost predicate Orphaned(y: Sys, w: nat, t: Task, m: nat) {
    && w < |y.workers| && y.workers[w] == Waiting(t, m)
    && m in y.locks.holder && m < y.locks.next && forall n | n in y.locks.names :: y.locks.names[n] != m
  }

  lemma {:induction false} OrphanedForGood(trace: seq<Sys>, moves: seq<Move>, w: nat, t: Task, m: nat, i: nat)
    requires Steps(trace, moves) && i <= |moves| && Orphaned(trace[0], w, t, m)
    ensures Orphaned(trace[i], w, t, m)
  {
    if i > 0 {
      OrphanedForGood(trace, moves, w, t, m, i - 1);
    }
  }

  /** In every continuation the worker waits. */
  ghost predicate WaitsForGood(y: Sys, w: nat, t: Task) {
    forall trace: seq<Sys>, moves: seq<Move>, i: nat | Steps(trace, moves) && trace[0] == y && i <= |moves| ::
      |trace[i].workers| > w && trace[i].workers[w].Waiting? && trace[i].workers[w].t == t
  }

  lemma StaysWaiting(y: Sys, w: nat, t: Task, m: nat)
    requires Orphaned(y, w, t, m)
    ensures WaitsForGood(y, w, t)
  {
    forall trace: seq<Sys>, moves: seq<Move>, i: nat | Steps(trace, moves) && trace[0] == y && i <= |moves|
      ensures |trace[i].workers| > w && trace[i].workers[w] == Waiting(t, m)
    {
      OrphanedForGood(trace, moves, w, t, m, i);
    }
  }

  /**
   * An event without a port, while another event of its deployment waits for the lock: the deleting
   * worker removes the lock and is through, and the other waits in every continuation.
   */
  lemma DeleteUnderWaiter(e: Setting, ts: seq<Task>) returns (y: Sys)
    requires SameDeployment(e, ts) && |ts| == 2 == e.n && DeletingTask(e.s, ts[0])
    ensures Leads(e, y) && y.workers == [Idle, Waiting(ts[1], 0)] && WaitsForGood(y, 1, ts[1])
  {
    y := FirstHolds(e, ts);
    y := Then(e, y, TryLock(1));
    y := FirstDeletes(e, y, ts[0]);
    y := Then(e, y, Release(0));
    assert Orphaned(y, 1, ts[1], 0);
    StaysWaiting(y, 1, ts[1], 0);
  }

  /** A second worker gets the lock that was removed, before the first unlocks it for a third. */
  lemma OthersEnter(e: Setting, y: Sys, t0: Task, t1: Task, t2: Task) returns (y': Sys)
    requires Leads(e, y) && y.workers == [Running(t0, Done, true), Asking(t1), Asking(t2)] && y.locks == ORPHAN
    requires t0.key == t1.key == t2.key
    ensures Leads(e, y') && y'.workers == [Idle, Running(t1, Decide, false), Running(t2, Decide, false)]
    ensures y'.state == y.state && y'.locks.names == map[t1.key := 1] && 1 in y'.locks.holder
  {
    y' := Then(e, y, TryLock(1));
    y' := Then(e, y', Release(0));
    y' := Then(e, y', TryLock(2));
    y' := Then(e, y', WakeUp(2));
  }

  /**
   * An event without a port, and two more of its deployment that ask for the lock between its removal
   * and the unlock: the unlock lets the third in beside the second.
   */
  lemma LockBeforeUnlock(e: Setting, ts: seq<Task>) returns (y: Sys)
    requires SameDeployment(e, ts) && |ts| == 3 == e.n && DeletingTask(e.s, ts[0])
    ensures Leads(e, y)
    ensures y.workers == [Idle, Running(ts[1], Decide, false), Running(ts[2], Decide, false)]
    ensures y.locks.names == map[ts[0].key := 1] && 1 in y.locks.holder && ts[0].key !in y.state.active
  {
    y := FirstHolds(e, ts);
    y := FirstDeletes(e, y, ts[0]);
    assert y.locks.names == map[];
    y := OthersEnter(e, y, ts[0], ts[1], ts[2]);
  }

  lemma SecondPasses(e: Setting, y: Sys, t: Task, v: Worker) returns (y': Sys)
    requires Leads(e, y) && y.workers == [Idle, Running(t, Decide, false), v]
    requires t.key in y.locks.names && y.locks.names[t.key] in y.locks.holder
    requires t.entry.grpcPort == 0 && t.key !in y.state.active
    ensures Leads(e, y') && y'.workers == [Idle, Idle, v] && UnlockFatal(y'.locks, t.key)
  {
    y' := Works(e, y, 1, t, Decide);
    assert Micro(y.state, t, Decide) == (y.state, Done);
    y' := Then(e, y', Release(1));
  }

  /** When the second is through, having nothing to delete any more, the third's own unlock is fatal. */
  lemma FatalUnlock(e: Setting, ts: seq<Task>) returns (y: Sys)
    requires SameDeployment(e, ts) && |ts| == 3 == e.n && DeletingTask(e.s, ts[0]) && ts[1].entry.grpcPort == 0
    ensures Leads(e, y)
    ensures y.workers == [Idle, Idle, Running(ts[2], Decide, false)] && UnlockFatal(y.locks, ts[0].key)
  {
    y := LockBeforeUnlock(e, ts);
    y := SecondPasses(e, y, ts[1], Running(ts[2], Decide, false));
  }

  /** A cleanup of the deployment takes no lock: the next event joins the one in the section. */
  lemma CleanupUnderHolder(e: Setting, ts: seq<Task>) returns (y: Sys)
    requires SameDeployment(e, ts) && |ts| == 2 == e.n && e.cleans
    ensures Leads(e, y) && y.state == e.s.(active := e.s.active - {ts[0].key})
    ensures y.workers == [Running(ts[0], Decide, false), Running(ts[1], Decide, false)]
  {
    var key := ts[0].key;
    y := FirstHolds(e, ts);
    y := Then(e, y, CleanCache(key));
    y := Then(e, y, CleanLock(key));
    y := Then(e, y, TryLock(1));
  }

  // ---- Cleanups of the cache ----

  /** A lone worker goes on to where it stores its entry. */
  lemma {:induction false} ToStore(e: Setting, y: Sys, t: Task, g: Stage) returns (y': Sys)
    requires Leads(e, y) && y.workers == [Running(t, g, false)] && g != Decide
    requires t.key in Finish(Without(y.state, t.key), t, g).active
    ensures Leads(e, y') && y'.workers == [Running(t, CacheStore, false)]
    decreases Rank(g)
  {
    if g == CacheStore {
      y' := y;
    } else {
      NoStoreLeft(y.state, t, g);
      PeelBlind(y.state, t, g);
      MicroRank(y.state, t, g);
      y' := Works(e, y, 0, t, g);
      y' := ToStore(e, y', t, Micro(y.state, t, g).1);
    }
  }

  lemma NoStoreLeft(s: State, t: Task, g: Stage)
    requires t.key in Finish(Without(s, t.key), t, g).active
    ensures g != Done && g != CacheDelete && g != LockRemove
  {
    if g == CacheDelete {
      FinishForget(Without(s, t.key), t);
    } else if g == LockRemove {
      Peel(Without(s, t.key), t, LockRemove);
    }
  }

  lemma StoreAhead(c: Config, s: State, rs: ReplicaSet, f: Faults)
    requires Upserts(c, s, rs, f)
    ensures var t := TaskOf(c, rs, f); Micro(s, t, Decide) == (s, SvcCreate) && t.key in Finish(Without(s, t.key), t, SvcCreate).active
  {
    var t := TaskOf(c, rs, f);
    FinishIsNext(c, s, rs, f);
    FinishWanted(s, t);
    FinishCleaned(s, t, SvcCreate);
  }

  /** A lone worker upserts, up to the moment where it stores its entry. */
  lemma BeforeStore(e: Setting, rs: ReplicaSet, f: Faults) returns (y: Sys)
    requires e.n == 1 && EventTask(e.c, e.owner, TaskOf(e.c, rs, f)) && Upserts(e.c, e.s, rs, f)
    ensures Leads(e, y) && y.workers == [Running(TaskOf(e.c, rs, f), CacheStore, false)]
  {
    var t := TaskOf(e.c, rs, f);
    StoreAhead(e.c, e.s, rs, f);
    y := FirstHolds(e, [t]);
    y := Works(e, y, 0, t, Decide);
    y := ToStore(e, y, t, SvcCreate);
  }

  /** A cleanup of the deployment then comes to nothing: the worker stores its entry after it. */
  lemma CleanedThenStored(e: Setting, y: Sys, t: Task) returns (y': Sys)
    requires Leads(e, y) && y.workers == [Running(t, CacheStore, false)] && e.cleans
    ensures Leads(e, y') && y'.workers == [Idle] && Lookup(y'.state.active, t.key) == Some(t.entry)
  {
    y' := Then(e, y, CleanCache(t.key));
    y' := Then(e, y', CleanLock(t.key));
    y' := Works(e, y', 0, t, CacheStore);
    y' := Then(e, y', Release(0));
  }

  /**
   * A deployment is deleted while its upsert is under way: the cleanup comes before the entry is
   * stored, so the entry outlives the deployment. If the deployment comes back under its name, events
   * of a lower revision are ignored, however many there are.
   */
  lemma CleanupBeforeStore(e: Setting, rs: ReplicaSet, f: Faults) returns (y: Sys)
    requires e.n == 1 && e.cleans && EventTask(e.c, e.owner, TaskOf(e.c, rs, f)) && Upserts(e.c, e.s, rs, f)
    ensures Leads(e, y) && y.workers == [Idle] && Lookup(y.state.active, DeployKey(rs)) == Some(NewActiveEntry(rs))
    ensures Runs.ProperKey(DeployKey(rs)) ==>
      forall acts | Runs.AllWellFormed(acts) && OlderEvents(acts, DeployKey(rs), DeployRevision(rs)) ::
        Lookup(Runs.Run(e.c, y.state, acts).active, DeployKey(rs)) == Some(NewActiveEntry(rs))
  {
    var t, key := TaskOf(e.c, rs, f), DeployKey(rs);
    y := BeforeStore(e, rs, f);
    y := CleanedThenStored(e, y, t);
    forall acts | Runs.ProperKey(key) && Runs.AllWellFormed(acts) && OlderEvents(acts, key, DeployRevision(rs))
      ensures Lookup(Runs.Run(e.c, y.state, acts).active, key) == Some(NewActiveEntry(rs))
    {
      Runs.ReplaysSilent(e.c, y.state, acts, key);
    }
  }

  /** All that is said of the deployment are events of lower revisions. */
  ghost predicate OlderEvents(acts: seq<Runs.Action>, key: string, revision: int) {
    forall a | a in acts && Runs.ActsOn(a, key) :: a.Event? && DeployRevision(a.rs) < revision
  }
}
