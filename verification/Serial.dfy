/** Serializability: an interleaved run leaves what its steps leave one after another. */
module Serial {
  import opened Prelude
  import opened MutexMaps
  import L = Locking
  import opened Reconcile
  import opened MicroSteps
  import opened Workers
  import opened Slices

  ghost predicate TasksGood(home: Home, y: Sys) {
    forall w | 0 <= w < |y.workers| && !y.workers[w].Idle? :: GoodTask(home, y.workers[w].t)
  }

  ghost predicate TaskTaken(home: Home, m: Move) {
    m.Take? ==> GoodTask(home, m.t)
  }

  /** What the worker would leave if it were alone from here on. */
  ghost function Completed(s: State, w: Worker): State
    requires w.Running?
  {
    Finish(s, w.t, w.g)
  }

  /**
   * The serial state `a` is what the worker running at the deployment makes of it once it is
   * through, and what the deployment holds already when nobody runs there.
   */
  ghost predicate InStep(home: Home, s: State, workers: seq<Worker>, a: State, k: string) {
    && (forall w | 0 <= w < |workers| && RunsAt(workers[w], k) :: AgreeOn(home, k, Completed(s, workers[w]), a))
    && ((forall w | 0 <= w < |workers| :: !RunsAt(workers[w], k)) ==> AgreeOn(home, k, s, a))
  }

  // ---- Where a cleanup of the cache belongs ----

  /** A cleanup now counts as before the worker's step: nothing is read yet, or the entry is still to be stored. */
  ghost predicate Early(s: State, w: Worker) {
    w.Running? && (w.g == Decide || w.t.key in Finish(Without(s, w.t.key), w.t, w.g).active)
  }

  ghost predicate EarlyAt(y: Sys, k: string) {
    exists w | 0 <= w < |y.workers| :: RunsAt(y.workers[w], k) && Early(y.state, y.workers[w])
  }

  /**
   * The history: a worker's step takes its place when it gets the lock; a cleanup comes right before
   * the step in progress at its deployment if it is early for it, and at the end if not.
   */
  ghost function Record(hist: seq<Entry>, y: Sys, m: Move): seq<Entry>
    requires Enabled(y, m)
  {
    match m
    case TryLock(w) => if y.workers[w].t.key in y.locks.names then hist else hist + [Whole(y.workers[w].t)]
    case WakeUp(w) => hist + [Whole(y.workers[w].t)]
    case CleanCache(k) => if EarlyAt(y, k) then InsertClean(hist, k) else hist + [Cleaned(k)]
    case _ => hist
  }

  /** Past the decision an action does not look at the cache. */
  lemma ActBlind(s: State, t: Task, g: Stage)
    requires g != Done && g != Decide
    ensures Act(Look(Without(s, t.key), t), t, g) == Act(Look(s, t), t, g) && Act(Look(s, t), t, g).1 != Decide
    ensures Act(Look(s, t), t, g).0.PutEntry? ==> g == CacheStore
    ensures Act(Look(s, t), t, g).0.DropEntry? ==> g == CacheDelete
  {
  }

  lemma ApplyBlind(s: State, t: Task, e: Edit)
    ensures e.PutEntry? || e.DropEntry? ==> Apply(Without(s, t.key), t, e) == Apply(s, t, e)
    ensures !e.PutEntry? && !e.DropEntry? ==>
      Apply(Without(s, t.key), t, e) == Without(Apply(s, t, e), t.key) && Apply(s, t, e).active == s.active
  {
  }

  lemma FinishStore(s: State, t: Task)
    ensures Finish(s, t, CacheStore) == Apply(s, t, PutEntry)
  {
    Peel(s, t, CacheStore);
  }

  lemma PeelBlind(s: State, t: Task, g: Stage)
    requires g != Done && g != Decide && g != CacheStore && g != CacheDelete
    ensures var (s', g') := Micro(s, t, g);
      && Finish(s, t, g) == Finish(s', t, g') && Finish(Without(s, t.key), t, g) == Finish(Without(s', t.key), t, g')
      && s'.active == s.active && g' != Decide
  {
    ActBlind(s, t, g);
    ApplyBlind(s, t, Act(Look(s, t), t, g).0);
    Peel(s, t, g);
    Peel(Without(s, t.key), t, g);
  }

  /**
   * Past the decision a cleanup is either overwritten by the entry that is stored, or takes what is
   * left in the end.
   */
  lemma {:induction false} FinishCleaned(s: State, t: Task, g: Stage)
    requires g != Decide
    ensures var r, r' := Finish(s, t, g), Finish(Without(s, t.key), t, g);
      if t.key in r'.active then r' == r && r.active[t.key] == t.entry
      else r' == Without(r, t.key) && (t.key in r.active ==> t.key in s.active && r.active[t.key] == s.active[t.key])
    decreases Rank(g)
  {
    if g == CacheStore {
      FinishStore(s, t);
      FinishStore(Without(s, t.key), t);
    } else if g == CacheDelete {
      FinishForget(s, t);
      FinishForget(Without(s, t.key), t);
    } else if g != Done {
      MicroRank(s, t, g);
      PeelBlind(s, t, g);
      FinishCleaned(Micro(s, t, g).0, t, Micro(s, t, g).1);
    }
  }

  lemma FinishWanted(b: State, t: Task)
    requires Wanted(t, Lookup(b.active, t.key)) && t.entry.grpcPort != 0
    ensures Finish(b, t, Decide) == Finish(b, t, SvcCreate)
  {
    Peel(b, t, Decide);
  }

  /** An upsert that goes through does the same without the entry that was there. */
  lemma UpsertAnyway(b: State, t: Task)
    requires Wanted(t, Lookup(b.active, t.key)) && t.entry.grpcPort != 0
    requires Lookup(Finish(b, t, Decide).active, t.key) == Some(t.entry)
    ensures Finish(Without(b, t.key), t, Decide) == Finish(b, t, Decide)
  {
    FinishWanted(b, t);
    FinishWanted(Without(b, t.key), t);
    FinishCleaned(b, t, SvcCreate);
  }

  /** Being early depends on the worker's own deployment only. */
  lemma EarlySame(home: Home, s: State, s': State, w: Worker)
    requires w.Running? && GoodTask(home, w.t) && AgreeOn(home, w.t.key, s, s')
    ensures Early(s, w) <==> Early(s', w)
  {
    AgreeWithout(home, w.t.key, s, s');
    FinishSame(home, Without(s, w.t.key), Without(s', w.t.key), w.t, w.g);
  }

  lemma EarlyCarried(s: State, t: Task, g: Stage)
    requires g != Done && g != Decide
    ensures t.key in Finish(Without(Micro(s, t, g).0, t.key), t, Micro(s, t, g).1).active ==>
      t.key in Finish(Without(s, t.key), t, g).active
  {
    if g == CacheStore {
      FinishStore(Without(s, t.key), t);
    } else if g == CacheDelete {
      Peel(Without(Micro(s, t, g).0, t.key), t, LockRemove);
    } else {
      PeelBlind(s, t, g);
    }
  }

  /** Who is early after an action was early before it, and has decided on an upsert. */
  lemma EarlyBefore(s: State, t: Task, g: Stage, removed: bool, removed': bool)
    requires g != Done
    requires Early(Micro(s, t, g).0, Running(t, Micro(s, t, g).1, removed'))
    ensures Early(s, Running(t, g, removed)) && Micro(s, t, g).1 != Decide
    ensures g == Decide ==> Micro(s, t, g).0 == s && Wanted(t, Lookup(s.active, t.key)) && t.entry.grpcPort != 0
  {
    if g == Decide {
      FinishDelete(Without(s, t.key), t);
    } else {
      ActBlind(s, t, g);
      EarlyCarried(s, t, g);
    }
  }

  // ---- One deployment ----

  /**
   * The worker's step is the last entry of its deployment. Before the decision nothing has been
   * touched since; an early one past the decision upserts, and decided so on what was there.
   */
  ghost predicate PlacedIn(home: Home, s0: State, s: State, h: seq<Entry>, w: Worker)
    requires w.Running?
  {
    && h != [] && h[|h| - 1] == Whole(w.t)
    && var b := SerialRun(s0, h[..|h| - 1]);
       if w.g == Decide then AgreeOn(home, w.t.key, s, b) else Wanted(w.t, Lookup(b.active, w.t.key)) && w.t.entry.grpcPort != 0
  }

  ghost predicate Placed(home: Home, s0: State, s: State, workers: seq<Worker>, h: seq<Entry>, k: string) {
    forall w | 0 <= w < |workers| && RunsAt(workers[w], k) && Early(s, workers[w]) :: PlacedIn(home, s0, s, h, workers[w])
  }

  /** The deployment's own entries, and the state and the workers, are in step. */
  ghost predicate KeyLink(home: Home, s0: State, s: State, workers: seq<Worker>, h: seq<Entry>, k: string) {
    InStep(home, s, workers, SerialRun(s0, h), k) && Placed(home, s0, s, workers, h, k)
  }

  ghost predicate RunnersGood(home: Home, workers: seq<Worker>) {
    forall v | 0 <= v < |workers| && workers[v].Running? :: GoodTask(home, workers[v].t)
  }

  ghost predicate AloneAt(workers: seq<Worker>, w: nat, key: string) {
    forall v | 0 <= v < |workers| && v != w :: !RunsAt(workers[v], key)
  }

  lemma Kept(home: Home, s: State, s': State, w: Worker)
    requires w.Running? && GoodTask(home, w.t) && AgreeOn(home, w.t.key, s', s)
    ensures AgreeOn(home, w.t.key, Completed(s', w), Completed(s, w))
    ensures Completed(s', w).gauge - s'.gauge == Completed(s, w).gauge - s.gauge
    ensures Early(s', w) <==> Early(s, w)
  {
    FinishSame(home, s', s, w.t, w.g);
    EarlySame(home, s', s, w);
  }

  /** What happens at other deployments, and to workers that do not run here, changes nothing. */
  lemma Elsewhere(home: Home, s0: State, s: State, s': State, workers: seq<Worker>, workers': seq<Worker>, h: seq<Entry>, k: string)
    requires KeyLink(home, s0, s, workers, h, k) && AgreeOn(home, k, s', s) && RunnersGood(home, workers)
    requires |workers'| == |workers|
    requires forall v | 0 <= v < |workers| :: workers'[v] == workers[v] || (!RunsAt(workers[v], k) && !RunsAt(workers'[v], k))
    ensures KeyLink(home, s0, s', workers', h, k)
  {
    var a := SerialRun(s0, h);
    forall v | 0 <= v < |workers'| && RunsAt(workers'[v], k)
      ensures AgreeOn(home, k, Completed(s', workers'[v]), a)
      ensures Early(s', workers'[v]) ==> PlacedIn(home, s0, s', h, workers'[v])
    {
      assert RunsAt(workers[v], k);
      Kept(home, s, s', workers[v]);
      AgreeTransitive(home, k, Completed(s', workers[v]), Completed(s, workers[v]), a);
      if Early(s, workers[v]) && workers[v].g == Decide {
        AgreeTransitive(home, k, s', s, SerialRun(s0, h[..|h| - 1]));
      }
    }
    if forall v | 0 <= v < |workers'| :: !RunsAt(workers'[v], k) {
      forall v | 0 <= v < |workers|
        ensures !RunsAt(workers[v], k)
      {
        assert !RunsAt(workers'[v], k);
      }
      AgreeTransitive(home, k, s', s, a);
    }
  }

  /** With one worker running here, the link is what holds of that worker. */
  lemma LinkOfOne(home: Home, s0: State, s: State, workers: seq<Worker>, h: seq<Entry>, w: nat, k: string)
    requires w < |workers| && RunsAt(workers[w], k) && AloneAt(workers, w, k)
    requires AgreeOn(home, k, Completed(s, workers[w]), SerialRun(s0, h))
    requires Early(s, workers[w]) ==> PlacedIn(home, s0, s, h, workers[w])
    ensures KeyLink(home, s0, s, workers, h, k)
  {
  }

  /** A worker gets the lock of a deployment nobody runs at: its whole step enters the history. */
  lemma StartAt(home: Home, s0: State, s: State, workers: seq<Worker>, h: seq<Entry>, w: nat, t: Task)
    requires w < |workers| && GoodTask(home, t) && KeyLink(home, s0, s, workers, h, t.key)
    requires forall v | 0 <= v < |workers| :: !RunsAt(workers[v], t.key)
    ensures KeyLink(home, s0, s, workers[w := Running(t, Decide, false)], h + [Whole(t)], t.key)
  {
    SerialSnoc(s0, h, Whole(t));
    FinishSame(home, s, SerialRun(s0, h), t, Decide);
    assert (h + [Whole(t)])[..|h|] == h;
    LinkOfOne(home, s0, s, workers[w := Running(t, Decide, false)], h + [Whole(t)], w, t.key);
  }

  /** A running worker acts: what it will leave in the end does not change. */
  lemma WorkAt(home: Home, s0: State, s: State, workers: seq<Worker>, h: seq<Entry>, w: nat, removed: bool)
    requires w < |workers| && workers[w].Running? && workers[w].g != Done && AloneAt(workers, w, workers[w].t.key)
    requires KeyLink(home, s0, s, workers, h, workers[w].t.key)
    ensures var t, (s', g') := workers[w].t, Micro(s, workers[w].t, workers[w].g);
      KeyLink(home, s0, s', workers[w := Running(t, g', removed)], h, t.key)
  {
    var t, g := workers[w].t, workers[w].g;
    var (s', g') := Micro(s, t, g);
    var p := Running(t, g', removed);
    Peel(s, t, g);
    assert RunsAt(workers[w], t.key);
    if Early(s', p) {
      EarlyBefore(s, t, g, workers[w].removed, removed);
      assert PlacedIn(home, s0, s, h, workers[w]);
    }
    LinkOfOne(home, s0, s', workers[w := p], h, w, t.key);
  }

  /** A worker that is through leaves: what it would leave is there. */
  lemma EndAt(home: Home, s0: State, s: State, workers: seq<Worker>, h: seq<Entry>, w: nat)
    requires w < |workers| && workers[w].Running? && workers[w].g == Done && AloneAt(workers, w, workers[w].t.key)
    requires KeyLink(home, s0, s, workers, h, workers[w].t.key)
    ensures KeyLink(home, s0, s, workers[w := Idle], h, workers[w].t.key)
  {
    assert Completed(s, workers[w]) == s && RunsAt(workers[w], workers[w].t.key);
  }

  // ---- Cleanups ----

  /** Past the decision, with the step in the serial state `a`, a cleanup may come after the step exactly if it is late. */
  lemma CleanAfterIff(home: Home, s: State, a: State, w: Worker)
    requires w.Running? && w.g != Decide && AgreeOn(home, w.t.key, Completed(s, w), a)
    ensures AgreeOn(home, w.t.key, Completed(Without(s, w.t.key), w), Without(a, w.t.key)) <==> !Early(s, w)
  {
    FinishCleaned(s, w.t, w.g);
    AgreeWithout(home, w.t.key, Completed(s, w), a);
  }

  lemma WithoutTwice(s: State, k: string)
    ensures Without(Without(s, k), k) == Without(s, k)
  {
  }

  /** Nobody runs at the deployment: the cleanup comes last. */
  lemma CleanNobody(home: Home, s0: State, s: State, workers: seq<Worker>, h: seq<Entry>, k: string)
    requires KeyLink(home, s0, s, workers, h, k) && forall v | 0 <= v < |workers| :: !RunsAt(workers[v], k)
    ensures KeyLink(home, s0, Without(s, k), workers, h + [Cleaned(k)], k)
  {
    SerialSnoc(s0, h, Cleaned(k));
    AgreeWithout(home, k, s, SerialRun(s0, h));
  }

  /** The step in progress stores no entry any more: the cleanup comes after it. */
  lemma CleanLate(home: Home, s0: State, s: State, workers: seq<Worker>, h: seq<Entry>, w: nat, k: string)
    requires w < |workers| && RunsAt(workers[w], k) && !Early(s, workers[w]) && AloneAt(workers, w, k)
    requires KeyLink(home, s0, s, workers, h, k)
    ensures KeyLink(home, s0, Without(s, k), workers, h + [Cleaned(k)], k)
  {
    CleanAfterIff(home, s, SerialRun(s0, h), workers[w]);
    SerialSnoc(s0, h, Cleaned(k));
    WithoutTwice(s, k);
    LinkOfOne(home, s0, Without(s, k), workers, h + [Cleaned(k)], w, k);
  }

  /** The step in progress has read nothing, or will store its entry: the cleanup comes before it. */
  lemma CleanEarly(home: Home, s0: State, s: State, workers: seq<Worker>, h: seq<Entry>, w: nat, k: string)
    requires w < |workers| && RunsAt(workers[w], k) && Early(s, workers[w]) && AloneAt(workers, w, k)
    requires KeyLink(home, s0, s, workers, h, k) && RunnersGood(home, workers)
    ensures KeyLink(home, s0, Without(s, k), workers, CleanBeforeLast(h, k), k)
  {
    assert PlacedIn(home, s0, s, h, workers[w]);
    var init, p, h' := h[..|h| - 1], workers[w], CleanBeforeLast(h, k);
    var b := SerialRun(s0, init);
    CleanBefore(s0, h, p.t);
    if p.g == Decide {
      AgreeWithout(home, k, s, b);
      FinishSame(home, Without(s, k), Without(b, k), p.t, Decide);
    } else {
      FinishCleaned(s, p.t, p.g);
      UpsertAnyway(b, p.t);
    }
    WithoutTwice(s, k);
    LinkOfOne(home, s0, Without(s, k), workers, h', w, k);
  }

  lemma CleanBefore(s0: State, h: seq<Entry>, t: Task)
    requires h != [] && h[|h| - 1] == Whole(t)
    ensures var b, h' := SerialRun(s0, h[..|h| - 1]), CleanBeforeLast(h, t.key);
      && SerialRun(s0, h) == Finish(b, t, Decide)
      && h' != [] && h'[|h'| - 1] == Whole(t) && SerialRun(s0, h'[..|h'| - 1]) == Without(b, t.key)
      && SerialRun(s0, h') == Finish(Without(b, t.key), t, Decide)
  {
    var init := h[..|h| - 1];
    RunInserted(s0, init, t.key, Whole(t));
    SerialSnoc(s0, init, Cleaned(t.key));
    assert CleanBeforeLast(h, t.key)[..|h|] == init + [Cleaned(t.key)];
  }

  // ---- One move ----

  /** The worker of the move gets its lock. */
  ghost predicate Starts(y: Sys, m: Move) {
    Enabled(y, m) && (m.WakeUp? || (m.TryLock? && y.workers[m.w].t.key !in y.locks.names))
  }

  /** Whoever gets a lock finds nobody running at its deployment. */
  lemma NobodyBeside(y: Sys, m: Move, k: string)
    requires Starts(y, m) && y.workers[m.w].t.key == k && SafeFor(y, m, k) && KeyInv(y, k)
    ensures NobodyRuns(y, k)
  {
    KeyInvStep(y, m, k);
    OneAtKey(After(y, m), k, m.w);
    forall v | 0 <= v < |y.workers|
      ensures !RunsAt(y.workers[v], k)
    {
      assert v != m.w ==> !RunsAt(After(y, m).workers[v], k);
    }
  }

  lemma StartedAs(hist: seq<Entry>, y: Sys, m: Move)
    requires Starts(y, m)
    ensures After(y, m).state == y.state && After(y, m).workers == y.workers[m.w := Running(y.workers[m.w].t, Decide, false)]
    ensures Record(hist, y, m) == hist + [Whole(y.workers[m.w].t)]
  {
  }

  /** What the move adds to the entries of one deployment. */
  lemma OnlyRecorded(hist: seq<Entry>, y: Sys, m: Move, k: string)
    requires Enabled(y, m)
    ensures Only(Record(hist, y, m), k) ==
      if Starts(y, m) && y.workers[m.w].t.key == k then Only(hist, k) + [Whole(y.workers[m.w].t)]
      else if m == CleanCache(k) then if EarlyAt(y, k) then CleanBeforeLast(Only(hist, k), k) else Only(hist, k) + [Cleaned(k)]
      else Only(hist, k)
  {
    if Starts(y, m) {
      OnlySnoc(hist, Whole(y.workers[m.w].t), k);
    } else if m.CleanCache? {
      OnlySnoc(hist, Cleaned(m.key), k);
      OnlyInserted(hist, m.key, k);
    }
  }

  lemma RecordGood(home: Home, hist: seq<Entry>, y: Sys, m: Move)
    requires Enabled(y, m) && HistGood(home, hist) && TasksGood(home, y)
    ensures HistGood(home, Record(hist, y, m))
  {
    if m.CleanCache? {
      InsertedGood(home, hist, m.key);
    }
  }

  /** The move is about this deployment. */
  ghost predicate About(y: Sys, m: Move, k: string) {
    Enabled(y, m) && (m == CleanCache(k) || ((Starts(y, m) || m.Work? || m.Release?) && y.workers[m.w].t.key == k))
  }

  lemma StateElsewhere(home: Home, y: Sys, m: Move, k: string)
    requires Enabled(y, m) && TasksGood(home, y) && !About(y, m, k)
    ensures AgreeOn(home, k, After(y, m).state, y.state)
  {
    AgreeReflexive(home, k, y.state);
    if m.Work? {
      var t, g := y.workers[m.w].t, y.workers[m.w].g;
      ApplyFrame(home, y.state, t, Act(Look(y.state, t), t, g).0, k);
    }
  }

  lemma WorkersElsewhere(y: Sys, m: Move, k: string)
    requires Enabled(y, m) && !About(y, m, k)
    ensures var ws, ws' := y.workers, After(y, m).workers;
      |ws'| == |ws| && forall v | 0 <= v < |ws| :: ws'[v] == ws[v] || (!RunsAt(ws[v], k) && !RunsAt(ws'[v], k))
  {
  }

  lemma LinkElsewhere(home: Home, s0: State, y: Sys, m: Move, h: seq<Entry>, k: string)
    requires Enabled(y, m) && TasksGood(home, y) && KeyLink(home, s0, y.state, y.workers, h, k) && !About(y, m, k)
    ensures KeyLink(home, s0, After(y, m).state, After(y, m).workers, h, k)
  {
    StateElsewhere(home, y, m, k);
    WorkersElsewhere(y, m, k);
    Elsewhere(home, s0, y.state, After(y, m).state, y.workers, After(y, m).workers, h, k);
  }

  /** With one worker running there, a cleanup is early exactly if it is for this one. */
  lemma EarlyForOne(y: Sys, w: nat, k: string)
    requires w < |y.workers| && RunsAt(y.workers[w], k) && AloneAt(y.workers, w, k)
    ensures EarlyAt(y, k) <==> Early(y.state, y.workers[w])
  {
  }

  /** A cleanup of this deployment. */
  lemma LinkCleaned(home: Home, s0: State, y: Sys, h: seq<Entry>, k: string)
    requires KeyInv(y, k) && TasksGood(home, y) && KeyLink(home, s0, y.state, y.workers, h, k)
    ensures KeyLink(home, s0, Without(y.state, k), y.workers, if EarlyAt(y, k) then CleanBeforeLast(h, k) else h + [Cleaned(k)], k)
  {
    if w :| 0 <= w < |y.workers| && RunsAt(y.workers[w], k) {
      OneAtKey(y, k, w);
      EarlyForOne(y, w, k);
      if Early(y.state, y.workers[w]) {
        CleanEarly(home, s0, y.state, y.workers, h, w, k);
      } else {
        CleanLate(home, s0, y.state, y.workers, h, w, k);
      }
    } else {
      CleanNobody(home, s0, y.state, y.workers, h, k);
    }
  }

  /** Every move keeps a deployment linked to its entries, whatever it does to the locks of the others. */
  lemma KeyLinkStep(home: Home, s0: State, y: Sys, m: Move, hist: seq<Entry>, k: string)
    requires KeyInv(y, k) && TasksGood(home, y) && TaskTaken(home, m) && SafeFor(y, m, k)
    requires KeyLink(home, s0, y.state, y.workers, Only(hist, k), k)
    ensures KeyLink(home, s0, After(y, m).state, After(y, m).workers, Only(Record(hist, y, m), k), k)
  {
    OnlyRecorded(hist, y, m, k);
    if m == CleanCache(k) {
      LinkCleaned(home, s0, y, Only(hist, k), k);
    } else if !About(y, m, k) {
      LinkElsewhere(home, s0, y, m, Only(hist, k), k);
    } else if Starts(y, m) {
      NobodyBeside(y, m, k);
      StartedAs(hist, y, m);
      StartAt(home, s0, y.state, y.workers, Only(hist, k), m.w, y.workers[m.w].t);
    } else {
      OneAtKey(y, k, m.w);
      if m.Work? {
        WorkAt(home, s0, y.state, y.workers, Only(hist, k), m.w, y.workers[m.w].removed || y.workers[m.w].g == LockRemove);
      } else {
        EndAt(home, s0, y.state, y.workers, Only(hist, k), m.w);
      }
    }
  }

  // ---- The gauge ----

  /** What the worker still adds to the gauge. */
  ghost function Owed(s: State, w: Worker): int {
    if w.Running? then Completed(s, w).gauge - s.gauge else 0
  }

  ghost function Debts(s: State, workers: seq<Worker>): seq<int> {
    seq(|workers|, i requires 0 <= i < |workers| => Owed(s, workers[i]))
  }

  /** The gauge is what it is in the serial run but for what is still owed. */
  ghost predicate GaugeLink(s0: State, s: State, workers: seq<Worker>, hist: seq<Entry>) {
    SerialRun(s0, hist).gauge == s.gauge + Sum(Debts(s, workers))
  }

  /** One worker and its deployment change; what the others owe does not. */
  lemma OneDebt(home: Home, s: State, s': State, workers: seq<Worker>, w: nat, p: Worker)
    requires w < |workers| && RunnersGood(home, workers)
    requires forall v | 0 <= v < |workers| && v != w && workers[v].Running? :: AgreeOn(home, workers[v].t.key, s', s)
    ensures Sum(Debts(s', workers[w := p])) == Sum(Debts(s, workers)) - Owed(s, workers[w]) + Owed(s', p)
  {
    forall v | 0 <= v < |workers| && v != w
      ensures Owed(s', workers[v]) == Owed(s, workers[v])
    {
      if workers[v].Running? {
        Kept(home, s, s', workers[v]);
      }
    }
    assert Debts(s', workers[w := p]) == Debts(s, workers)[w := Owed(s', p)];
    SumUpdate(Debts(s, workers), w, Owed(s', p));
  }

  lemma StartOwes(home: Home, s0: State, s: State, workers: seq<Worker>, hist: seq<Entry>, w: nat, t: Task)
    requires w < |workers| && !workers[w].Running? && GoodTask(home, t) && RunnersGood(home, workers) && HistGood(home, hist)
    requires AgreeOn(home, t.key, s, SerialRun(s0, Only(hist, t.key))) && GaugeLink(s0, s, workers, hist)
    ensures GaugeLink(s0, s, workers[w := Running(t, Decide, false)], hist + [Whole(t)])
  {
    var a := SerialRun(s0, hist);
    Slice(home, s0, hist, t.key);
    AgreeSymmetric(home, t.key, a, SerialRun(s0, Only(hist, t.key)));
    AgreeTransitive(home, t.key, s, SerialRun(s0, Only(hist, t.key)), a);
    FinishSame(home, s, a, t, Decide);
    SerialSnoc(s0, hist, Whole(t));
    forall v | 0 <= v < |workers| && workers[v].Running?
      ensures AgreeOn(home, workers[v].t.key, s, s)
    {
      AgreeReflexive(home, workers[v].t.key, s);
    }
    OneDebt(home, s, s, workers, w, Running(t, Decide, false));
  }

  lemma WorkOwes(home: Home, s0: State, s: State, workers: seq<Worker>, hist: seq<Entry>, w: nat, removed: bool)
    requires w < |workers| && workers[w].Running? && workers[w].g != Done && AloneAt(workers, w, workers[w].t.key)
    requires RunnersGood(home, workers) && GaugeLink(s0, s, workers, hist)
    ensures var t, (s', g') := workers[w].t, Micro(s, workers[w].t, workers[w].g);
      GaugeLink(s0, s', workers[w := Running(t, g', removed)], hist)
  {
    var t, g := workers[w].t, workers[w].g;
    var (e, g') := Act(Look(s, t), t, g);
    Peel(s, t, g);
    forall v | 0 <= v < |workers| && v != w && workers[v].Running?
      ensures AgreeOn(home, workers[v].t.key, Apply(s, t, e), s)
    {
      assert !RunsAt(workers[v], t.key);
      ApplyFrame(home, s, t, e, workers[v].t.key);
    }
    OneDebt(home, s, Apply(s, t, e), workers, w, Running(t, g', removed));
  }

  lemma CleanDebts(home: Home, s: State, workers: seq<Worker>, w: nat, k: string)
    requires w < |workers| && RunsAt(workers[w], k) && AloneAt(workers, w, k) && RunnersGood(home, workers)
    ensures Sum(Debts(Without(s, k), workers)) == Sum(Debts(s, workers)) - Owed(s, workers[w]) + Owed(Without(s, k), workers[w])
  {
    forall v | 0 <= v < |workers| && v != w && workers[v].Running?
      ensures AgreeOn(home, workers[v].t.key, Without(s, k), s)
    {
      assert !RunsAt(workers[v], k);
    }
    OneDebt(home, s, Without(s, k), workers, w, workers[w]);
    assert workers[w := workers[w]] == workers;
  }

  /** A cleanup while a worker runs: what it owes changes by as much as the serial run. */
  lemma CleanOwes(home: Home, s0: State, s: State, workers: seq<Worker>, hist: seq<Entry>, w: nat, k: string)
    requires w < |workers| && RunsAt(workers[w], k) && AloneAt(workers, w, k)
    requires RunnersGood(home, workers) && HistGood(home, hist)
    requires KeyLink(home, s0, s, workers, Only(hist, k), k) && GaugeLink(s0, s, workers, hist)
    ensures GaugeLink(s0, Without(s, k), workers, if Early(s, workers[w]) then InsertClean(hist, k) else hist + [Cleaned(k)])
  {
    CleanDebts(home, s, workers, w, k);
    if Early(s, workers[w]) {
      EarlyOwes(home, s0, s, workers, Only(hist, k), w, k);
      GaugeInserted(home, s0, hist, k, workers[w].t);
    } else {
      LateOwes(s, workers[w], k);
      SerialSnoc(s0, hist, Cleaned(k));
    }
  }

  lemma LateOwes(s: State, p: Worker, k: string)
    requires RunsAt(p, k) && !Early(s, p)
    ensures Owed(Without(s, k), p) == Owed(s, p)
  {
    FinishCleaned(s, p.t, p.g);
  }

  lemma EarlyOwes(home: Home, s0: State, s: State, workers: seq<Worker>, h: seq<Entry>, w: nat, k: string)
    requires w < |workers| && RunsAt(workers[w], k) && Early(s, workers[w]) && RunnersGood(home, workers)
    requires KeyLink(home, s0, s, workers, h, k)
    ensures h != [] && h[|h| - 1] == Whole(workers[w].t)
    ensures var b, p := SerialRun(s0, h[..|h| - 1]), workers[w];
      Owed(Without(s, k), p) - Owed(s, p) == Gain(Without(b, k), p.t) - Gain(b, p.t)
  {
    var p := workers[w];
    assert PlacedIn(home, s0, s, h, p);
    var b := SerialRun(s0, h[..|h| - 1]);
    if p.g == Decide {
      InsertedLast(home, s, b, p.t);
    } else {
      CleanBefore(s0, h, p.t);
      FinishCleaned(s, p.t, p.g);
      UpsertAnyway(b, p.t);
    }
  }

  lemma CleanOwesNobody(home: Home, s0: State, s: State, workers: seq<Worker>, hist: seq<Entry>, k: string)
    requires (forall v | 0 <= v < |workers| :: !RunsAt(workers[v], k)) && RunnersGood(home, workers)
    requires GaugeLink(s0, s, workers, hist)
    ensures GaugeLink(s0, Without(s, k), workers, hist + [Cleaned(k)])
  {
    forall v | 0 <= v < |workers|
      ensures Owed(Without(s, k), workers[v]) == Owed(s, workers[v])
    {
      if workers[v].Running? {
        assert AgreeOn(home, workers[v].t.key, Without(s, k), s);
        Kept(home, s, Without(s, k), workers[v]);
      }
    }
    assert Debts(Without(s, k), workers) == Debts(s, workers);
    SerialSnoc(s0, hist, Cleaned(k));
  }

  // ---- All deployments ----

  ghost predicate Shape(home: Home, y: Sys) {
    && L.LockInv(HallOf(y))
    && (forall w | 0 <= w < |y.workers| :: StageOk(y.workers[w]))
    && TasksGood(home, y)
  }

  /** State and workers are linked to the history on every deployment, and on the gauge. */
  ghost predicate Linked(home: Home, s0: State, y: Sys, hist: seq<Entry>) {
    && HistGood(home, hist)
    && (forall k :: KeyLink(home, s0, y.state, y.workers, Only(hist, k), k))
    && GaugeLink(s0, y.state, y.workers, hist)
  }

  lemma ShapeStep(home: Home, y: Sys, m: Move)
    requires Shape(home, y) && Safe(y, m) && TaskTaken(home, m)
    ensures Shape(home, After(y, m))
  {
    HallStep(y, m);
    if LockMove(y, m).Some? {
      L.InvStep(HallOf(y), LockMove(y, m).value);
    }
  }

  /** What holds for all deployments holds for one. */
  lemma ShapeKey(home: Home, y: Sys, m: Move, k: string)
    requires Shape(home, y) && Safe(y, m)
    ensures KeyInv(y, k) && SafeFor(y, m, k)
  {
    L.InvOfName(HallOf(y), k);
  }

  lemma NothingOwed(s0: State, y: Sys, m: Move, hist: seq<Entry>)
    requires Enabled(y, m) && !Starts(y, m) && !m.Work? && !m.CleanCache? && GaugeLink(s0, y.state, y.workers, hist)
    ensures Record(hist, y, m) == hist && GaugeLink(s0, After(y, m).state, After(y, m).workers, hist)
  {
    assert Debts(y.state, After(y, m).workers) == Debts(y.state, y.workers);
  }

  lemma GaugeCleaned(home: Home, s0: State, y: Sys, hist: seq<Entry>, k: string)
    requires KeyInv(y, k) && TasksGood(home, y) && HistGood(home, hist)
    requires KeyLink(home, s0, y.state, y.workers, Only(hist, k), k) && GaugeLink(s0, y.state, y.workers, hist)
    ensures GaugeLink(s0, Without(y.state, k), y.workers, if EarlyAt(y, k) then InsertClean(hist, k) else hist + [Cleaned(k)])
  {
    if w :| 0 <= w < |y.workers| && RunsAt(y.workers[w], k) {
      OneAtKey(y, k, w);
      EarlyForOne(y, w, k);
      CleanOwes(home, s0, y.state, y.workers, hist, w, k);
    } else {
      CleanOwesNobody(home, s0, y.state, y.workers, hist, k);
    }
  }

  lemma GaugeStarted(home: Home, s0: State, y: Sys, m: Move, hist: seq<Entry>)
    requires Starts(y, m) && TasksGood(home, y) && HistGood(home, hist) && GaugeLink(s0, y.state, y.workers, hist)
    requires var k := y.workers[m.w].t.key;
      KeyInv(y, k) && SafeFor(y, m, k) && KeyLink(home, s0, y.state, y.workers, Only(hist, k), k)
    ensures GaugeLink(s0, After(y, m).state, After(y, m).workers, Record(hist, y, m))
  {
    NobodyBeside(y, m, y.workers[m.w].t.key);
    StartedAs(hist, y, m);
    StartOwes(home, s0, y.state, y.workers, hist, m.w, y.workers[m.w].t);
  }

  lemma GaugeStep(home: Home, s0: State, y: Sys, m: Move, hist: seq<Entry>, k: string)
    requires Enabled(y, m) && TasksGood(home, y) && HistGood(home, hist) && GaugeLink(s0, y.state, y.workers, hist)
    requires KeyInv(y, k) && SafeFor(y, m, k) && KeyLink(home, s0, y.state, y.workers, Only(hist, k), k)
    requires k == if m.CleanCache? then m.key else if Starts(y, m) || m.Work? then y.workers[m.w].t.key else k
    ensures GaugeLink(s0, After(y, m).state, After(y, m).workers, Record(hist, y, m))
  {
    if Starts(y, m) {
      GaugeStarted(home, s0, y, m, hist);
    } else if m.Work? {
      OneAtKey(y, k, m.w);
      WorkOwes(home, s0, y.state, y.workers, hist, m.w, y.workers[m.w].removed || y.workers[m.w].g == LockRemove);
    } else if m.CleanCache? {
      GaugeCleaned(home, s0, y, hist, k);
    } else {
      NothingOwed(s0, y, m, hist);
    }
  }

  lemma LinkedStep(home: Home, s0: State, y: Sys, m: Move, hist: seq<Entry>)
    requires Shape(home, y) && Safe(y, m) && TaskTaken(home, m) && Linked(home, s0, y, hist)
    ensures Linked(home, s0, After(y, m), Record(hist, y, m))
  {
    RecordGood(home, hist, y, m);
    forall k
      ensures KeyLink(home, s0, After(y, m).state, After(y, m).workers, Only(Record(hist, y, m), k), k)
    {
      ShapeKey(home, y, m, k);
      KeyLinkStep(home, s0, y, m, hist, k);
    }
    var k := if m.CleanCache? then m.key else if Starts(y, m) || m.Work? then y.workers[m.w].t.key else "";
    ShapeKey(home, y, m, k);
    GaugeStep(home, s0, y, m, hist, k);
  }

  // ---- Runs ----

  ghost predicate Steps(trace: seq<Sys>, moves: seq<Move>) {
    && |trace| == |moves| + 1
    && forall i | 0 <= i < |moves| :: Enabled(trace[i], moves[i]) && trace[i + 1] == After(trace[i], moves[i])
  }

  ghost predicate AllSafe(trace: seq<Sys>, moves: seq<Move>) {
    |trace| == |moves| + 1 && forall i | 0 <= i < |moves| :: Safe(trace[i], moves[i])
  }

  /** No move of the run takes the lock of this deployment from its users; those of others may be taken. */
  ghost predicate AllSafeFor(trace: seq<Sys>, moves: seq<Move>, key: string) {
    |trace| == |moves| + 1 && forall i | 0 <= i < |moves| :: SafeFor(trace[i], moves[i], key)
  }

  ghost predicate TasksTaken(home: Home, moves: seq<Move>) {
    forall i | 0 <= i < |moves| :: TaskTaken(home, moves[i])
  }

  ghost function Begin(s: State, workers: nat): Sys {
    Sys(s, UNUSED, seq(workers, _ => Idle))
  }

  lemma {:induction false} KeyInvAlong(s: State, workers: nat, trace: seq<Sys>, moves: seq<Move>, key: string, i: nat)
    requires Steps(trace, moves) && AllSafeFor(trace, moves, key) && trace[0] == Begin(s, workers) && i <= |moves|
    ensures KeyInv(trace[i], key)
  {
    if i > 0 {
      KeyInvAlong(s, workers, trace, moves, key, i - 1);
      KeyInvStep(trace[i - 1], moves[i - 1], key);
    }
  }

  /**
   * The serial history of the first `i` moves: whole steps in the order in which they got their lock,
   * and the cleanups in between.
   */
  ghost function History(trace: seq<Sys>, moves: seq<Move>, i: nat): seq<Entry>
    requires Steps(trace, moves) && i <= |moves|
  {
    if i == 0 then [] else Record(History(trace, moves, i - 1), trace[i - 1], moves[i - 1])
  }

  ghost predicate NobodyBusy(y: Sys) {
    forall w | 0 <= w < |y.workers| :: !y.workers[w].Running?
  }

  lemma BeginLinked(home: Home, s: State, workers: nat, k: string)
    ensures var y := Begin(s, workers); KeyLink(home, s, y.state, y.workers, Only([], k), k) && TasksGood(home, y)
  {
    AgreeReflexive(home, k, s);
  }

  lemma LinkedBegin(home: Home, s: State, workers: nat)
    ensures var y := Begin(s, workers); Shape(home, y) && Linked(home, s, y, [])
  {
    var y := Begin(s, workers);
    SumZero(Debts(s, y.workers));
    forall k
      ensures KeyLink(home, s, y.state, y.workers, Only([], k), k)
    {
      BeginLinked(home, s, workers, k);
    }
  }

  lemma {:induction false} LinkedAlong(home: Home, s: State, workers: nat, trace: seq<Sys>, moves: seq<Move>, i: nat)
    requires Steps(trace, moves) && AllSafe(trace, moves) && TasksTaken(home, moves) && trace[0] == Begin(s, workers)
    requires i <= |moves|
    ensures Shape(home, trace[i]) && Linked(home, s, trace[i], History(trace, moves, i))
  {
    if i == 0 {
      LinkedBegin(home, s, workers);
    } else {
      LinkedAlong(home, s, workers, trace, moves, i - 1);
      ShapeStep(home, trace[i - 1], moves[i - 1]);
      LinkedStep(home, s, trace[i - 1], moves[i - 1], History(trace, moves, i - 1));
    }
  }

  lemma AgreesWithHistory(home: Home, s0: State, y: Sys, hist: seq<Entry>, k: string)
    requires HistGood(home, hist) && KeyLink(home, s0, y.state, y.workers, Only(hist, k), k) && NobodyRuns(y, k)
    ensures AgreeOn(home, k, y.state, SerialRun(s0, hist))
  {
    Slice(home, s0, hist, k);
    AgreeSymmetric(home, k, SerialRun(s0, hist), SerialRun(s0, Only(hist, k)));
    AgreeTransitive(home, k, y.state, SerialRun(s0, Only(hist, k)), SerialRun(s0, hist));
  }

  /**
   * Serializability: for any number of workers and any interleaving of their actions and of cleanups
   * of the cache that takes no lock away from its users, whenever no worker is inside a section,
   * cache, cluster and gauge are what whole steps leave, one after another in the order of lock
   * acquisition, with each cleanup before or after the step that it fell into.
   */
  lemma Serializable(home: Home, s: State, workers: nat, trace: seq<Sys>, moves: seq<Move>, i: nat)
    requires Steps(trace, moves) && AllSafe(trace, moves) && TasksTaken(home, moves) && trace[0] == Begin(s, workers)
    requires i <= |moves| && NobodyBusy(trace[i])
    ensures trace[i].state == SerialRun(s, History(trace, moves, i))
  {
    LinkedAlong(home, s, workers, trace, moves, i);
    var y, hist := trace[i], History(trace, moves, i);
    SumZero(Debts(y.state, y.workers));
    forall k
      ensures AgreeOn(home, k, y.state, SerialRun(s, hist))
    {
      AgreesWithHistory(home, s, y, hist, k);
    }
    AgreeOnEverything(home, y.state, SerialRun(s, hist));
  }

  lemma {:induction false} GoodAlong(home: Home, s: State, workers: nat, trace: seq<Sys>, moves: seq<Move>, i: nat)
    requires Steps(trace, moves) && TasksTaken(home, moves) && trace[0] == Begin(s, workers) && i <= |moves|
    ensures TasksGood(home, trace[i]) && HistGood(home, History(trace, moves, i))
  {
    if i > 0 {
      GoodAlong(home, s, workers, trace, moves, i - 1);
      assert TaskTaken(home, moves[i - 1]);
      RecordGood(home, History(trace, moves, i - 1), trace[i - 1], moves[i - 1]);
    }
  }

  lemma {:induction false} KeyLinkAlong(home: Home, s: State, workers: nat, trace: seq<Sys>, moves: seq<Move>, k: string, i: nat)
    requires Steps(trace, moves) && AllSafeFor(trace, moves, k) && TasksTaken(home, moves) && trace[0] == Begin(s, workers)
    requires i <= |moves|
    ensures KeyLink(home, s, trace[i].state, trace[i].workers, Only(History(trace, moves, i), k), k)
  {
    if i == 0 {
      BeginLinked(home, s, workers, k);
    } else {
      KeyLinkAlong(home, s, workers, trace, moves, k, i - 1);
      KeyInvAlong(s, workers, trace, moves, k, i - 1);
      GoodAlong(home, s, workers, trace, moves, i - 1);
      assert TaskTaken(home, moves[i - 1]) && SafeFor(trace[i - 1], moves[i - 1], k);
      KeyLinkStep(home, s, trace[i - 1], moves[i - 1], History(trace, moves, i - 1), k);
    }
  }

  /**
   * Serializability of one deployment: as long as its own lock is taken from none of its users, then
   * whatever is done to the locks of other deployments, whoever runs there, and whenever its cache
   * entry is cleaned up, its entry, filter and temporary resources are those of the serial run
   * whenever nobody runs at it.
   */
  lemma SerializableAt(home: Home, s: State, workers: nat, trace: seq<Sys>, moves: seq<Move>, k: string, i: nat)
    requires Steps(trace, moves) && AllSafeFor(trace, moves, k) && TasksTaken(home, moves) && trace[0] == Begin(s, workers)
    requires i <= |moves| && NobodyRuns(trace[i], k)
    ensures AgreeOn(home, k, trace[i].state, SerialRun(s, History(trace, moves, i)))
  {
    KeyLinkAlong(home, s, workers, trace, moves, k, i);
    GoodAlong(home, s, workers, trace, moves, i);
    AgreesWithHistory(home, s, trace[i], History(trace, moves, i), k);
  }

  // ---- The order of the history ----

  /** The steps of a history, without the cleanups. */
  ghost function StepsOf(hist: seq<Entry>): seq<Task> {
    if hist == [] then []
    else StepsOf(hist[..|hist| - 1]) + if hist[|hist| - 1].Whole? then [hist[|hist| - 1].t] else []
  }

  lemma StepsSnoc(hist: seq<Entry>, e: Entry)
    ensures StepsOf(hist + [e]) == StepsOf(hist) + if e.Whole? then [e.t] else []
  {
    assert (hist + [e])[..|hist|] == hist;
  }

  lemma {:induction false} StepsInserted(hist: seq<Entry>, k: string)
    ensures StepsOf(InsertClean(hist, k)) == StepsOf(hist)
  {
    if hist == [] {
      StepsSnoc([], Cleaned(k));
      assert [] + [Cleaned(k)] == [Cleaned(k)];
    } else {
      var n := |hist| - 1;
      if At(hist[n]) == k {
        StepsSnoc(hist[..n], Cleaned(k));
        StepsSnoc(hist[..n] + [Cleaned(k)], hist[n]);
        assert hist[..n] + [Cleaned(k), hist[n]] == hist[..n] + [Cleaned(k)] + [hist[n]];
      } else {
        StepsInserted(hist[..n], k);
        StepsSnoc(InsertClean(hist[..n], k), hist[n]);
      }
    }
  }

  /** The tasks that got their lock, in that order. */
  ghost function LockOrder(trace: seq<Sys>, moves: seq<Move>, i: nat): seq<Task>
    requires Steps(trace, moves) && i <= |moves|
  {
    if i == 0 then []
    else LockOrder(trace, moves, i - 1) + if Starts(trace[i - 1], moves[i - 1]) then [trace[i - 1].workers[moves[i - 1].w].t] else []
  }

  lemma StepsRecorded(hist: seq<Entry>, y: Sys, m: Move)
    requires Enabled(y, m)
    ensures StepsOf(Record(hist, y, m)) == StepsOf(hist) + if Starts(y, m) then [y.workers[m.w].t] else []
  {
    if Starts(y, m) {
      StepsSnoc(hist, Whole(y.workers[m.w].t));
    } else if m.CleanCache? {
      StepsSnoc(hist, Cleaned(m.key));
      StepsInserted(hist, m.key);
    }
  }

  /** The steps of the history are those that got their lock, in the order in which they got it. */
  lemma {:induction false} HistoryOrder(trace: seq<Sys>, moves: seq<Move>, i: nat)
    requires Steps(trace, moves) && i <= |moves|
    ensures StepsOf(History(trace, moves, i)) == LockOrder(trace, moves, i)
  {
    if i > 0 {
      HistoryOrder(trace, moves, i - 1);
      StepsRecorded(History(trace, moves, i - 1), trace[i - 1], moves[i - 1]);
    }
  }
}
