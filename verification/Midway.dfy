/** In the middle of a section: what holds of the cluster whenever a worker is about to act, not only when all are through. */
module Midway {
  import opened Prelude
  import opened Objects
  import opened Reconcile
  import opened MicroSteps
  import opened Workers
  import opened Slices
  import opened Serial

  /** The temporary resources are there, as this event created or took them over. */
  ghost predicate TempsThere(s: State, t: Task) {
    Lookup(s.services, t.replica) == Some(t.service) && (t.useIngress ==> Lookup(s.ingresses, t.replica) == Some(t.ingress))
  }

  ghost predicate TempsGone(s: State, t: Task) {
    && (t.replica in s.services ==> t.faults.deleteService)
    && (t.useIngress && t.replica in s.ingresses ==> t.faults.deleteIngress)
  }

  ghost predicate Written(s: State, t: Task) {
    t.reflected.Some? && Lookup(s.filters, t.filter) == t.reflected
  }

  ghost predicate FilterGone(s: State, t: Task) {
    t.filter in s.filters ==> t.faults.deleteFilter
  }

  /** What a worker can rely on before each of its actions. */
  ghost predicate StageHolds(s: State, t: Task, g: Stage) {
    match g
    case IngCreate => Lookup(s.services, t.replica) == Some(t.service)
    case IngGet => Lookup(s.services, t.replica) == Some(t.service)
    case IngUpdate => Lookup(s.services, t.replica) == Some(t.service)
    case Reflect => TempsThere(s, t)
    case FltCreate => TempsThere(s, t) && t.reflected.Some?
    case FltGet => TempsThere(s, t) && t.reflected.Some?
    case FltUpdate => TempsThere(s, t) && t.reflected.Some?
    case GaugeInc => TempsThere(s, t) && Written(s, t)
    case IngDelete(ok) => t.useIngress && TempsThere(s, t) && (ok ==> Written(s, t))
    case SvcDelete(ok) =>
      && Lookup(s.services, t.replica) == Some(t.service)
      && (ok ==> Written(s, t) && (t.useIngress && t.replica in s.ingresses ==> t.faults.deleteIngress))
    case CacheStore => Written(s, t) && TempsGone(s, t)
    case GaugeDec => t.filter !in s.filters
    case CacheDelete => FilterGone(s, t)
    case LockRemove => FilterGone(s, t) && t.key !in s.active
    case _ => true
  }

  lemma BeforeQuery(s: State, t: Task, g: Stage)
    requires g.Decide? || g.SvcCreate? || g.SvcGet? || g.SvcUpdate? || g.IngCreate? || g.IngGet? || g.IngUpdate?
    requires StageHolds(s, t, g)
    ensures StageHolds(Micro(s, t, g).0, t, Micro(s, t, g).1)
  {
  }

  lemma FromQuery(s: State, t: Task, g: Stage)
    requires g.Reflect? || g.FltCreate? || g.FltGet? || g.FltUpdate? || g.GaugeInc?
    requires StageHolds(s, t, g)
    ensures StageHolds(Micro(s, t, g).0, t, Micro(s, t, g).1)
  {
  }

  lemma Clearing(s: State, t: Task, g: Stage)
    requires g.IngDelete? || g.SvcDelete? || g.CacheStore? || g.FltDelete? || g.GaugeDec? || g.CacheDelete? || g.LockRemove?
    requires StageHolds(s, t, g)
    ensures StageHolds(Micro(s, t, g).0, t, Micro(s, t, g).1)
  {
  }

  lemma StageStep(s: State, t: Task, g: Stage)
    requires g != Done && StageHolds(s, t, g)
    ensures StageHolds(Micro(s, t, g).0, t, Micro(s, t, g).1)
  {
    if g.Reflect? || g.FltCreate? || g.FltGet? || g.FltUpdate? || g.GaugeInc? {
      FromQuery(s, t, g);
    } else if g.Decide? || g.SvcCreate? || g.SvcGet? || g.SvcUpdate? || g.IngCreate? || g.IngGet? || g.IngUpdate? {
      BeforeQuery(s, t, g);
    } else {
      Clearing(s, t, g);
    }
  }

  /** It rests on the worker's own deployment, and a cleanup does not disturb it. */
  lemma StageSame(home: Home, s: State, s': State, t: Task, g: Stage)
    requires GoodTask(home, t) && StageHolds(s, t, g)
    requires AgreeOn(home, t.key, s', s) || s' == Without(s, t.key)
    ensures StageHolds(s', t, g)
  {
    if AgreeOn(home, t.key, s', s) {
      assert SameFilter(s', s, t.filter) && SameReplica(s', s, t.replica);
    }
  }

  ghost predicate StagesHold(y: Sys, k: string) {
    forall w | 0 <= w < |y.workers| && RunsAt(y.workers[w], k) :: StageHolds(y.state, y.workers[w].t, y.workers[w].g)
  }

  lemma StagesElsewhere(home: Home, y: Sys, m: Move, k: string)
    requires Enabled(y, m) && TasksGood(home, y) && StagesHold(y, k) && (!About(y, m, k) || m == CleanCache(k))
    ensures StagesHold(After(y, m), k)
  {
    if m != CleanCache(k) {
      StateElsewhere(home, y, m, k);
      WorkersElsewhere(y, m, k);
    }
    forall w | 0 <= w < |y.workers| && RunsAt(After(y, m).workers[w], k)
      ensures StageHolds(After(y, m).state, After(y, m).workers[w].t, After(y, m).workers[w].g)
    {
      assert RunsAt(y.workers[w], k);
      StageSame(home, y.state, After(y, m).state, y.workers[w].t, y.workers[w].g);
    }
  }

  lemma StagesStep(home: Home, y: Sys, m: Move, k: string)
    requires KeyInv(y, k) && TasksGood(home, y) && SafeFor(y, m, k) && StagesHold(y, k)
    ensures StagesHold(After(y, m), k)
  {
    if !About(y, m, k) || m == CleanCache(k) {
      StagesElsewhere(home, y, m, k);
    } else if Starts(y, m) {
      NobodyBeside(y, m, k);
    } else {
      OneAtKey(y, k, m.w);
      if m.Work? {
        StageStep(y.state, y.workers[m.w].t, y.workers[m.w].g);
      }
    }
  }

  /**
   * In every state of every run that takes the deployment's lock from none of its users: whoever asks
   * the reflection server has its Service, and its Ingress, in place; whoever stores a cache entry has
   * the filter written and the temporary resources deleted, unless that was refused; whoever drops an
   * entry has the filter deleted, unless that was refused.
   */
  lemma {:induction false} SectionsInOrder(home: Home, s: State, n: nat, trace: seq<Sys>, moves: seq<Move>, k: string, i: nat)
    requires Steps(trace, moves) && AllSafeFor(trace, moves, k) && TasksTaken(home, moves) && trace[0] == Begin(s, n) && i <= |moves|
    ensures StagesHold(trace[i], k)
  {
    if i > 0 {
      SectionsInOrder(home, s, n, trace, moves, k, i - 1);
      KeyInvAlong(s, n, trace, moves, k, i - 1);
      GoodAlong(home, s, n, trace, moves, i - 1);
      StagesStep(home, trace[i - 1], moves[i - 1], k);
    }
  }

  // ---- A cached deployment has its filter at every moment ----

  /** The worker has deleted the filter and is about to drop the entry. */
  ghost predicate Dropping(w: Worker, k: string) {
    RunsAt(w, k) && (w.g == GaugeDec || w.g == CacheDelete)
  }

  ghost predicate SomebodyDrops(y: Sys, k: string) {
    exists w | 0 <= w < |y.workers| :: Dropping(y.workers[w], k)
  }

  /** The deployment is not cached, or its filter is there, or a worker is between the delete and the cache. */
  ghost predicate CoveredAt(y: Sys, k: string, id: Id) {
    k in y.state.active ==> id in y.state.filters || SomebodyDrops(y, k)
  }

  /** The tasks of the deployment are about this filter. */
  ghost predicate AboutFilter(t: Task, k: string, id: Id) {
    t.key == k ==> t.filter == id
  }

  ghost predicate WorkersAbout(y: Sys, k: string, id: Id) {
    forall w | 0 <= w < |y.workers| && !y.workers[w].Idle? :: AboutFilter(y.workers[w].t, k, id)
  }

  lemma CoveredElsewhere(home: Home, y: Sys, m: Move, k: string, id: Id)
    requires Enabled(y, m) && TasksGood(home, y) && CoveredAt(y, k, id) && home.ofFilter(id) == k && !About(y, m, k)
    ensures CoveredAt(After(y, m), k, id)
  {
    StateElsewhere(home, y, m, k);
    WorkersElsewhere(y, m, k);
    assert SameFilter(After(y, m).state, y.state, id);
    if w :| 0 <= w < |y.workers| && Dropping(y.workers[w], k) {
      assert Dropping(After(y, m).workers[w], k);
    }
  }

  lemma CoveredWork(y: Sys, w: nat, k: string, id: Id)
    requires Enabled(y, Work(w)) && RunsAt(y.workers[w], k) && y.workers[w].t.filter == id && CoveredAt(y, k, id)
    requires StageHolds(y.state, y.workers[w].t, y.workers[w].g)
    requires forall v | 0 <= v < |y.workers| && v != w :: !RunsAt(y.workers[v], k)
    ensures CoveredAt(After(y, Work(w)), k, id)
  {
    var t, g := y.workers[w].t, y.workers[w].g;
    var (s', g') := Micro(y.state, t, g);
    DropsOrCovers(y.state, t, g);
    assert After(y, Work(w)).workers[w].g == g' && RunsAt(After(y, Work(w)).workers[w], k);
    assert SomebodyDrops(y, k) ==> Dropping(y.workers[w], k);
    if g' == GaugeDec || g' == CacheDelete {
      assert Dropping(After(y, Work(w)).workers[w], k);
    }
  }

  /** An action of the deployment's worker leaves it covered. */
  lemma DropsOrCovers(s: State, t: Task, g: Stage)
    requires g != Done && StageHolds(s, t, g)
    requires t.key in s.active ==> t.filter in s.filters || g == GaugeDec || g == CacheDelete
    ensures var (s', g') := Micro(s, t, g); t.key in s'.active ==> t.filter in s'.filters || g' == GaugeDec || g' == CacheDelete
  {
  }

  lemma CoveredStep(home: Home, y: Sys, m: Move, k: string, id: Id)
    requires KeyInv(y, k) && TasksGood(home, y) && SafeFor(y, m, k) && StagesHold(y, k)
    requires WorkersAbout(y, k, id) && CoveredAt(y, k, id) && home.ofFilter(id) == k
    ensures CoveredAt(After(y, m), k, id)
  {
    if !About(y, m, k) {
      CoveredElsewhere(home, y, m, k, id);
    } else if Starts(y, m) {
      NobodyBeside(y, m, k);
    } else if m.Work? {
      OneAtKey(y, k, m.w);
      CoveredWork(y, m.w, k, id);
    } else if m.Release? {
      OneAtKey(y, k, m.w);
    }
  }

  /**
   * In every state of every such run, whatever fails and whenever it is cleaned up: a cached deployment
   * has its filter, except between the delete of the filter and the removal of the entry by one worker.
   */
  lemma {:induction false} CoveredMidway(home: Home, s: State, n: nat, trace: seq<Sys>, moves: seq<Move>, k: string, id: Id, i: nat)
    requires Steps(trace, moves) && AllSafeFor(trace, moves, k) && TasksTaken(home, moves) && trace[0] == Begin(s, n) && i <= |moves|
    requires home.ofFilter(id) == k && (k in s.active ==> id in s.filters)
    requires forall j | 0 <= j < |moves| && moves[j].Take? :: AboutFilter(moves[j].t, k, id)
    ensures CoveredAt(trace[i], k, id) && WorkersAbout(trace[i], k, id)
  {
    if i > 0 {
      CoveredMidway(home, s, n, trace, moves, k, id, i - 1);
      KeyInvAlong(s, n, trace, moves, k, i - 1);
      GoodAlong(home, s, n, trace, moves, i - 1);
      SectionsInOrder(home, s, n, trace, moves, k, i - 1);
      CoveredStep(home, trace[i - 1], moves[i - 1], k, id);
    }
  }
}
