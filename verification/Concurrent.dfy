/** Concurrent runs of the operator on real events: serial runs of whole steps, and what follows. */
module Concurrent {
  import opened Prelude
  import opened Objects
  import L = Locking
  import opened Reconcile
  import opened MicroSteps
  import opened Workers
  import opened Slices
  import opened Serial
  import Runs

  /** `owner` tells whose replica set a name is: a name has one deployment. */
  ghost predicate EventTask(c: Config, owner: Id -> string, t: Task) {
    && t == TaskOf(c, t.rs, t.faults)
    && GetDeployment(t.rs.owners).Some?
    && owner(t.replica) == t.key
  }

  ghost function HomeOf(owner: Id -> string): Home {
    Home(KeyOfFilter, owner)
  }

  /** A run of `n` workers from the state `s` on events, without a cleanup of the cache in between. */
  ghost predicate EventRun(c: Config, owner: Id -> string, s: State, n: nat, trace: seq<Sys>, moves: seq<Move>) {
    && Steps(trace, moves) && trace[0] == Begin(s, n)
    && forall i | 0 <= i < |moves| :: (moves[i].Take? ==> EventTask(c, owner, moves[i].t)) && !moves[i].CleanCache?
  }

  lemma TasksAtHome(c: Config, owner: Id -> string, s: State, n: nat, trace: seq<Sys>, moves: seq<Move>)
    requires EventRun(c, owner, s, n, trace, moves)
    ensures TasksTaken(HomeOf(owner), moves)
  {
    forall i | 0 <= i < |moves|
      ensures TaskTaken(HomeOf(owner), moves[i])
    {
      if moves[i].Take? {
        FilterNamesOneDeployment(moves[i].t.rs);
      }
    }
  }

  ghost predicate EntryValid(c: Config, owner: Id -> string, e: Entry) {
    e.Whole? && EventTask(c, owner, e.t)
  }

  ghost predicate WorkerValid(c: Config, owner: Id -> string, w: Worker) {
    !w.Idle? ==> EventTask(c, owner, w.t)
  }

  lemma {:induction false} HistoryValid(c: Config, owner: Id -> string, s: State, n: nat, trace: seq<Sys>, moves: seq<Move>, i: nat)
    requires EventRun(c, owner, s, n, trace, moves) && i <= |moves|
    ensures forall w | 0 <= w < |trace[i].workers| :: WorkerValid(c, owner, trace[i].workers[w])
    ensures forall e | e in History(trace, moves, i) :: EntryValid(c, owner, e)
  {
    if i > 0 {
      HistoryValid(c, owner, s, n, trace, moves, i - 1);
      var y, m := trace[i - 1], moves[i - 1];
      forall w | 0 <= w < |trace[i].workers|
        ensures WorkerValid(c, owner, trace[i].workers[w])
      {
        assert WorkerValid(c, owner, y.workers[w]);
      }
      if Starts(y, m) {
        assert WorkerValid(c, owner, y.workers[m.w]);
        StartedAs(History(trace, moves, i - 1), y, m);
      }
    }
  }

  /** The events of a history, in its order. */
  ghost function EventsOf(hist: seq<Entry>): seq<Runs.Action>
    requires forall e | e in hist :: e.Whole?
  {
    seq(|hist|, i requires 0 <= i < |hist| => assert hist[i] in hist; Runs.Event(hist[i].t.rs, hist[i].t.faults))
  }

  lemma {:induction false} SerialIsRun(c: Config, owner: Id -> string, s: State, hist: seq<Entry>)
    requires forall e | e in hist :: e.Whole? && EntryValid(c, owner, e)
    ensures SerialRun(s, hist) == Runs.Run(c, s, EventsOf(hist))
  {
    if hist != [] {
      var n := |hist| - 1;
      assert hist[n] in hist;
      SerialIsRun(c, owner, s, hist[..n]);
      assert EventsOf(hist)[..n] == EventsOf(hist[..n]);
      FinishIsNext(c, SerialRun(s, hist[..n]), hist[n].t.rs, hist[n].t.faults);
    }
  }

  /** The events that got their lock among the first `i` moves, in that order. */
  ghost function Acquired(c: Config, owner: Id -> string, s: State, n: nat, trace: seq<Sys>, moves: seq<Move>, i: nat): seq<Runs.Action>
    requires EventRun(c, owner, s, n, trace, moves) && i <= |moves|
  {
    HistoryValid(c, owner, s, n, trace, moves, i);
    EventsOf(History(trace, moves, i))
  }

  /**
   * Concurrent reconciliation is serial reconciliation: any number of workers, any interleaving of
   * their calls, deletions of filters included, any failures, as long as no lock is taken away from
   * its users. Whenever nobody is inside a section, the state is that of the serial run of the events.
   */
  lemma ConcurrentIsSerial(c: Config, owner: Id -> string, s: State, n: nat, trace: seq<Sys>, moves: seq<Move>, i: nat)
    requires EventRun(c, owner, s, n, trace, moves) && AllSafe(trace, moves)
    requires i <= |moves| && NobodyBusy(trace[i])
    ensures trace[i].state == Runs.Run(c, s, Acquired(c, owner, s, n, trace, moves, i))
  {
    TasksAtHome(c, owner, s, n, trace, moves);
    Serializable(HomeOf(owner), s, n, trace, moves, i);
    HistoryValid(c, owner, s, n, trace, moves, i);
    SerialIsRun(c, owner, s, History(trace, moves, i));
  }

  /**
   * No two updates of one deployment run at once, and none ends in a fatal unlock: in every state of
   * every run that takes the lock of this deployment from none of its users, whatever happens to the
   * locks of the others, cleanups of caches and locks included.
   */
  lemma ConcurrentExclusion(s: State, n: nat, trace: seq<Sys>, moves: seq<Move>, key: string, i: nat, v: nat, w: nat)
    requires Steps(trace, moves) && trace[0] == Begin(s, n) && AllSafeFor(trace, moves, key) && i <= |moves|
    requires v < |trace[i].workers| && w < |trace[i].workers| && v != w
    ensures !(RunsAt(trace[i].workers[v], key) && RunsAt(trace[i].workers[w], key))
    ensures RunsAt(trace[i].workers[v], key) && trace[i].workers[v].g == Done ==> Enabled(trace[i], Release(v))
  {
    KeyInvAlong(s, n, trace, moves, key, i);
    if RunsAt(trace[i].workers[v], key) {
      OneAtKey(trace[i], key, v);
      assert !RunsAt(trace[i].workers[w], key);
    }
  }

  /**
   * Concurrent runs from an agreeing start leave cache and cluster agreed, with the gauge right,
   * whenever nobody is inside a section, if the deletes of the run succeed.
   */
  lemma ConcurrentAgreement(c: Config, owner: Id -> string, s: State, n: nat, trace: seq<Sys>, moves: seq<Move>, i: nat)
    requires EventRun(c, owner, s, n, trace, moves) && AllSafe(trace, moves)
    requires i <= |moves| && NobodyBusy(trace[i])
    requires Runs.Agree(s) && s.gauge == |s.filters|
    requires var acts := Acquired(c, owner, s, n, trace, moves, i);
      Runs.AllWellFormed(acts) && Runs.DeletesSucceed(c, s, acts)
    ensures var y := trace[i].state; Runs.Agree(y) && y.gauge == |y.filters| == |y.active|
  {
    var acts := Acquired(c, owner, s, n, trace, moves, i);
    ConcurrentIsSerial(c, owner, s, n, trace, moves, i);
    Runs.AgreeAlways(c, s, acts);
    Runs.GaugeConserved(c, s, acts);
  }

  /**
   * One deployment in a concurrent run: as long as its own lock is taken from none of its users, its
   * cache entry and its filter are those of the serial run whenever nobody runs at it, whatever
   * happens to the locks of the others.
   */
  lemma ConcurrentIsSerialAt(c: Config, owner: Id -> string, s: State, n: nat, trace: seq<Sys>, moves: seq<Move>, i: nat, key: string)
    requires EventRun(c, owner, s, n, trace, moves) && AllSafeFor(trace, moves, key)
    requires i <= |moves| && NobodyRuns(trace[i], key)
    ensures AgreeOn(HomeOf(owner), key, trace[i].state, Runs.Run(c, s, Acquired(c, owner, s, n, trace, moves, i)))
  {
    TasksAtHome(c, owner, s, n, trace, moves);
    SerializableAt(HomeOf(owner), s, n, trace, moves, key, i);
    HistoryValid(c, owner, s, n, trace, moves, i);
    SerialIsRun(c, owner, s, History(trace, moves, i));
  }

  /**
   * The newest event wins in concurrent runs too: whenever nobody runs at a deployment that began
   * without an entry, it has that of the last eligible event, in the order in which the events got
   * their lock, among those of the highest revision.
   */
  lemma ConcurrentNewestWins(c: Config, owner: Id -> string, s: State, n: nat, trace: seq<Sys>, moves: seq<Move>, i: nat, key: string)
    requires EventRun(c, owner, s, n, trace, moves) && AllSafeFor(trace, moves, key)
    requires i <= |moves| && NobodyRuns(trace[i], key) && key !in s.active
    requires forall a | a in Acquired(c, owner, s, n, trace, moves, i) :: Runs.AsksForFilter(a, key)
    ensures var acts := Acquired(c, owner, s, n, trace, moves, i);
      && (key in trace[i].state.active <==> exists j | 0 <= j < |acts| :: Runs.Eligible(c, s, acts, key, j))
      && (forall j | 0 <= j < |acts| && Runs.Newest(c, s, acts, key, j) ::
            Lookup(trace[i].state.active, key) == Some(NewActiveEntry(acts[j].rs)))
  {
    ConcurrentIsSerialAt(c, owner, s, n, trace, moves, i, key);
    Runs.NewestWins(c, s, Acquired(c, owner, s, n, trace, moves, i), key);
  }

  /** A run that never removes this lock: no cleanup of the deployment, and no event that deletes its filter. */
  ghost predicate NeverRemoves(trace: seq<Sys>, moves: seq<Move>, key: string) {
    Steps(trace, moves) &&
    forall i | 0 <= i < |moves| ::
      moves[i] != CleanLock(key) && (moves[i].Work? && RunsAt(trace[i].workers[moves[i].w], key) ==> trace[i].workers[moves[i].w].g != LockRemove)
  }

  /** Runs that never remove a deployment's lock take it from none of its users, whatever they remove elsewhere. */
  lemma {:induction false} NoRemovalIsSafe(s: State, n: nat, trace: seq<Sys>, moves: seq<Move>, key: string, i: nat)
    requires NeverRemoves(trace, moves, key) && trace[0] == Begin(s, n) && i <= |moves|
    ensures forall w | 0 <= w < |trace[i].workers| && RunsAt(trace[i].workers[w], key) :: !trace[i].workers[w].removed
    ensures i < |moves| ==> SafeFor(trace[i], moves[i], key)
  {
    if i > 0 {
      NoRemovalIsSafe(s, n, trace, moves, key, i - 1);
    }
    if i < |moves| {
      var h := HallOf(trace[i]);
      forall v | 0 <= v < |h.phases|
        ensures h.phases[v] != L.Leaving(key)
        ensures L.At(h.phases[v], key) && trace[i].workers[v].Running? ==> RunsAt(trace[i].workers[v], key)
      {
        assert h.phases[v] == PhaseOf(trace[i].workers[v]);
      }
    }
  }

  /** With no lock removed at all a run is safe as the lemmas above ask for. */
  lemma NoRemovalsAreSafe(s: State, n: nat, trace: seq<Sys>, moves: seq<Move>)
    requires Steps(trace, moves) && trace[0] == Begin(s, n)
    requires forall key :: NeverRemoves(trace, moves, key)
    ensures AllSafe(trace, moves)
  {
    forall i | 0 <= i < |moves|
      ensures Safe(trace[i], moves[i])
    {
      forall key
        ensures SafeFor(trace[i], moves[i], key)
      {
        assert NeverRemoves(trace, moves, key);
        NoRemovalIsSafe(s, n, trace, moves, key, i);
      }
      SafeForAll(trace[i], moves[i]);
    }
  }

  lemma SafeForAll(y: Sys, m: Move)
    requires Enabled(y, m) && forall key :: SafeFor(y, m, key)
    ensures Safe(y, m)
  {
    var h := HallOf(y);
    var key := match m
      case Take(_, t) => t.key
      case TryLock(w) => y.workers[w].t.key
      case WakeUp(w) => y.workers[w].t.key
      case Work(w) => y.workers[w].t.key
      case Release(w) => y.workers[w].t.key
      case CleanCache(k) => k
      case CleanLock(k) => k;
    assert SafeFor(y, m, key);
  }
}
