/** Any number of workers, their actions interleaved at will: concurrent runs are serial runs. */
module Workers {
  import opened Prelude
  import opened Objects
  import opened MutexMaps
  import L = Locking
  import opened Reconcile
  import opened MicroSteps

  /** What one worker is at: `next` from the event in hand to the unlock. */
  datatype Worker =
    | Idle
    | Asking(t: Task)
    | Waiting(t: Task, mutex: nat)
    | Running(t: Task, g: Stage, removed: bool)

  datatype Sys = Sys(state: State, locks: Locks, workers: seq<Worker>)

  datatype Move =
    | Take(w: nat, t: Task)
    | TryLock(w: nat)
    | WakeUp(w: nat)
    | Work(w: nat)
    | Release(w: nat)
    | CleanCache(key: string)
    | CleanLock(key: string)

  function PhaseOf(w: Worker): L.Phase {
    match w
    case Idle => L.Outside
    case Asking(_) => L.Outside
    case Waiting(t, m) => L.Blocked(t.key, m)
    case Running(t, _, removed) => if removed then L.Leaving(t.key) else L.Inside(t.key)
  }

  function HallOf(y: Sys): L.Hall {
    L.Hall(y.locks, seq(|y.workers|, i requires 0 <= i < |y.workers| => PhaseOf(y.workers[i])))
  }

  ghost predicate Enabled(y: Sys, m: Move) {
    match m
    case Take(w, _) => w < |y.workers| && y.workers[w].Idle?
    case TryLock(w) => w < |y.workers| && y.workers[w].Asking?
    case WakeUp(w) => w < |y.workers| && y.workers[w].Waiting? && y.workers[w].mutex !in y.locks.holder
    case Work(w) => w < |y.workers| && y.workers[w].Running? && y.workers[w].g != Done
    case Release(w) => w < |y.workers| && y.workers[w].Running? && y.workers[w].g == Done && !UnlockFatal(y.locks, y.workers[w].t.key)
    case CleanCache(_) => true
    case CleanLock(_) => true
  }

  ghost function After(y: Sys, m: Move): Sys
    requires Enabled(y, m)
  {
    match m
    case Take(w, t) => y.(workers := y.workers[w := Asking(t)])
    case TryLock(w) =>
      var t := y.workers[w].t;
      if t.key in y.locks.names then y.(workers := y.workers[w := Waiting(t, y.locks.names[t.key])])
      else Sys(y.state, Stored(y.locks, w, t.key), y.workers[w := Running(t, Decide, false)])
    case WakeUp(w) =>
      Sys(y.state, Acquired(y.locks, w, y.workers[w].mutex), y.workers[w := Running(y.workers[w].t, Decide, false)])
    case Work(w) =>
      var Running(t, g, removed) := y.workers[w];
      var (s, g') := Micro(y.state, t, g);
      Sys(s, if g == LockRemove then Removed(y.locks, t.key) else y.locks, y.workers[w := Running(t, g', removed || g == LockRemove)])
    case Release(w) => Sys(y.state, Released(y.locks, y.workers[w].t.key), y.workers[w := Idle])
    case CleanCache(key) => y.(state := y.state.(active := y.state.active - {key}))
    case CleanLock(key) => y.(locks := Removed(y.locks, key))
  }

  ghost predicate RunsAt(w: Worker, key: string) {
    w.Running? && w.t.key == key
  }

  ghost predicate NobodyRuns(y: Sys, key: string) {
    forall v | 0 <= v < |y.workers| :: !RunsAt(y.workers[v], key)
  }

  /** The action on the lock map that a move contains. */
  ghost function LockMove(y: Sys, m: Move): Option<L.Move>
    requires Enabled(y, m)
  {
    match m
    case Take(_, _) => None
    case TryLock(w) => Some(L.Try(w, y.workers[w].t.key))
    case WakeUp(w) => Some(L.Wake(w))
    case Work(w) => if y.workers[w].g == LockRemove then Some(L.Drop(w)) else None
    case Release(w) => Some(L.Exit(w))
    case CleanCache(_) => None
    case CleanLock(key) => Some(L.Purge(key))
  }

  /** A move that takes no lock away from its users. */
  ghost predicate Safe(y: Sys, m: Move) {
    Enabled(y, m) && (LockMove(y, m).Some? ==> L.Safe(HallOf(y), LockMove(y, m).value))
  }

  /** A removal comes once, before the last action. */
  ghost predicate StageOk(w: Worker) {
    w.Running? && w.removed ==> w.g == Done
  }

  lemma HallStep(y: Sys, m: Move)
    requires Enabled(y, m) && forall w | 0 <= w < |y.workers| :: StageOk(y.workers[w])
    ensures var lm := LockMove(y, m);
      if lm.None? then HallOf(After(y, m)) == HallOf(y)
      else L.Enabled(HallOf(y), lm.value) && HallOf(After(y, m)) == L.After(HallOf(y), lm.value)
    ensures forall w | 0 <= w < |y.workers| :: StageOk(After(y, m).workers[w])
  {
    var h, t := HallOf(y), HallOf(After(y, m));
    match m
    case Take(w, _) => assert t.phases == h.phases;
    case TryLock(w) => assert t.phases == L.After(h, L.Try(w, y.workers[w].t.key)).phases;
    case WakeUp(w) => assert t.phases == L.After(h, L.Wake(w)).phases;
    case Work(w) =>
      assert StageOk(y.workers[w]);
      if y.workers[w].g == LockRemove {
        assert t.phases == L.After(h, L.Drop(w)).phases;
      } else {
        assert t.phases == h.phases;
      }
    case Release(w) => assert t.phases == L.After(h, L.Exit(w)).phases;
    case CleanCache(_) =>
    case CleanLock(_) =>
  }

  /** The locks are in order for one deployment, whatever was done to the others. */
  ghost predicate KeyInv(y: Sys, key: string) {
    L.NameInv(HallOf(y), key) && forall w | 0 <= w < |y.workers| :: StageOk(y.workers[w])
  }

  /** The move takes the lock of this deployment from none of its users. */
  ghost predicate SafeFor(y: Sys, m: Move, key: string) {
    Enabled(y, m) &&
    (LockMove(y, m).Some? && L.Concerns(HallOf(y), LockMove(y, m).value, key) ==> L.Safe(HallOf(y), LockMove(y, m).value))
  }

  lemma KeyInvStep(y: Sys, m: Move, key: string)
    requires KeyInv(y, key) && SafeFor(y, m, key)
    ensures KeyInv(After(y, m), key)
  {
    HallStep(y, m);
    if LockMove(y, m).Some? {
      L.NameInvStep(HallOf(y), LockMove(y, m).value, key);
    }
  }

  /** One worker runs at the deployment, and its unlock will not be fatal. */
  lemma OneAtKey(y: Sys, key: string, v: nat)
    requires KeyInv(y, key) && v < |y.workers| && RunsAt(y.workers[v], key)
    ensures forall w | 0 <= w < |y.workers| && w != v :: !RunsAt(y.workers[w], key)
    ensures !UnlockFatal(y.locks, key)
  {
    var h := HallOf(y);
    assert h.phases[v] == PhaseOf(y.workers[v]);
    L.NameExcludes(h, key);
    L.ReleasesOwn(h, v);
    forall w | 0 <= w < |y.workers| && w != v
      ensures !RunsAt(y.workers[w], key)
    {
      assert h.phases[w] == PhaseOf(y.workers[w]);
      assert !(L.InSection(h.phases[v], key) && L.InSection(h.phases[w], key));
    }
  }

  // ---- What belongs to a deployment ----

  /** The deployment that a filter name and that a replica set name belong to. */
  datatype Home = Home(ofFilter: Id -> string, ofReplica: Id -> string)

  ghost predicate GoodTask(home: Home, t: Task) {
    home.ofFilter(t.filter) == t.key && home.ofReplica(t.replica) == t.key
  }

  ghost predicate SameFilter(s: State, t: State, id: Id) {
    Lookup(s.filters, id) == Lookup(t.filters, id)
  }

  ghost predicate SameReplica(s: State, t: State, id: Id) {
    Lookup(s.services, id) == Lookup(t.services, id) && Lookup(s.ingresses, id) == Lookup(t.ingresses, id)
  }

  /** The two states hold the same for one deployment. */
  ghost predicate AgreeOn(home: Home, k: string, s: State, t: State) {
    && Lookup(s.active, k) == Lookup(t.active, k)
    && (forall id | home.ofFilter(id) == k :: SameFilter(s, t, id))
    && (forall id | home.ofReplica(id) == k :: SameReplica(s, t, id))
  }

  lemma AgreeOnEverything(home: Home, s: State, t: State)
    requires s.gauge == t.gauge && forall k :: AgreeOn(home, k, s, t)
    ensures s == t
  {
    forall k
      ensures Lookup(s.active, k) == Lookup(t.active, k)
    {
      assert AgreeOn(home, k, s, t);
    }
    forall id
      ensures SameFilter(s, t, id) && SameReplica(s, t, id)
    {
      assert AgreeOn(home, home.ofFilter(id), s, t);
      assert AgreeOn(home, home.ofReplica(id), s, t);
    }
    assert forall id :: SameFilter(s, t, id) ==> Lookup(s.filters, id) == Lookup(t.filters, id);
    assert forall id :: SameReplica(s, t, id) ==> Lookup(s.services, id) == Lookup(t.services, id);
    assert forall id :: SameReplica(s, t, id) ==> Lookup(s.ingresses, id) == Lookup(t.ingresses, id);
    SameMaps(s.active, t.active);
    SameMaps(s.filters, t.filters);
    SameMaps(s.services, t.services);
    SameMaps(s.ingresses, t.ingresses);
  }

  lemma SameMaps<K, V>(m: map<K, V>, m': map<K, V>)
    requires forall k :: Lookup(m, k) == Lookup(m', k)
    ensures m == m'
  {
    assert forall k :: k in m <==> Lookup(m, k).Some?;
    assert forall k :: k in m' <==> Lookup(m', k).Some?;
  }

  /** A change leaves the other deployments alone. */
  lemma ApplyFrame(home: Home, s: State, t: Task, e: Edit, k: string)
    requires GoodTask(home, t) && k != t.key
    ensures AgreeOn(home, k, Apply(s, t, e), s)
  {
  }

  /** A change does the same to states that hold the same for its deployment. */
  lemma ApplySame(home: Home, s: State, s': State, t: Task, e: Edit)
    requires GoodTask(home, t) && AgreeOn(home, t.key, s, s')
    ensures AgreeOn(home, t.key, Apply(s, t, e), Apply(s', t, e))
    ensures Apply(s, t, e).gauge - s.gauge == Apply(s', t, e).gauge - s'.gauge
  {
    var r, r' := Apply(s, t, e), Apply(s', t, e);
    forall id | home.ofReplica(id) == t.key
      ensures SameReplica(r, r', id)
    {
      assert SameReplica(s, s', id);
    }
    forall id | home.ofFilter(id) == t.key
      ensures SameFilter(r, r', id)
    {
      assert SameFilter(s, s', id);
    }
  }

  /** An action sees nothing of the other deployments. */
  lemma LookSame(home: Home, s: State, s': State, t: Task)
    requires GoodTask(home, t) && AgreeOn(home, t.key, s, s')
    ensures Look(s, t) == Look(s', t)
  {
    assert SameFilter(s, s', t.filter) && SameReplica(s, s', t.replica);
  }

  lemma {:induction false} FinishFrame(home: Home, s: State, t: Task, g: Stage, k: string)
    requires GoodTask(home, t) && k != t.key
    ensures AgreeOn(home, k, Finish(s, t, g), s)
    decreases Rank(g)
  {
    if g != Done {
      var (e, g') := Act(Look(s, t), t, g);
      MicroRank(s, t, g);
      Peel(s, t, g);
      FinishFrame(home, Apply(s, t, e), t, g', k);
      ApplyFrame(home, s, t, e, k);
      AgreeTransitive(home, k, Finish(s, t, g), Apply(s, t, e), s);
    }
  }

  lemma AgreeTransitive(home: Home, k: string, r: State, s: State, t: State)
    requires AgreeOn(home, k, r, s) && AgreeOn(home, k, s, t)
    ensures AgreeOn(home, k, r, t)
  {
    forall id | home.ofFilter(id) == k
      ensures SameFilter(r, t, id)
    {
      assert SameFilter(r, s, id) && SameFilter(s, t, id);
    }
    forall id | home.ofReplica(id) == k
      ensures SameReplica(r, t, id)
    {
      assert SameReplica(r, s, id) && SameReplica(s, t, id);
    }
  }

  lemma AgreeSymmetric(home: Home, k: string, s: State, t: State)
    requires AgreeOn(home, k, s, t)
    ensures AgreeOn(home, k, t, s)
  {
    forall id | home.ofFilter(id) == k
      ensures SameFilter(t, s, id)
    {
      assert SameFilter(s, t, id);
    }
    forall id | home.ofReplica(id) == k
      ensures SameReplica(t, s, id)
    {
      assert SameReplica(s, t, id);
    }
  }

  /** What is left of a step does the same from states that hold the same for its deployment. */
  lemma {:induction false} FinishSame(home: Home, s: State, s': State, t: Task, g: Stage)
    requires GoodTask(home, t) && AgreeOn(home, t.key, s, s')
    ensures AgreeOn(home, t.key, Finish(s, t, g), Finish(s', t, g))
    ensures Finish(s, t, g).gauge - s.gauge == Finish(s', t, g).gauge - s'.gauge
    decreases Rank(g)
  {
    if g != Done {
      LookSame(home, s, s', t);
      var (e, g') := Act(Look(s, t), t, g);
      MicroRank(s, t, g);
      Peel(s, t, g);
      Peel(s', t, g);
      ApplySame(home, s, s', t, e);
      FinishSame(home, Apply(s, t, e), Apply(s', t, e), t, g');
    }
  }
}
