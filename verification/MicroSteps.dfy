/** One reconcile step cut into its separate actions on cache, cluster and gauge. */
module MicroSteps {
  import opened Prelude
  import opened Objects
  import opened Reconcile

  /** What a worker has to do, read off the event once. */
  datatype Task = Task(
    rs: ReplicaSet, faults: Faults,
    key: string, replica: Id, filter: Id,
    ready: bool, entry: ActiveEntry,
    service: TempService, useIngress: bool, ingress: TempIngress,
    reflected: Option<EnvoyFilter>)

  ghost function TaskOf(c: Config, rs: ReplicaSet, f: Faults): Task {
    Task(rs, f, DeployKey(rs), ResourceId(rs), FilterId(rs), rs.readyReplicas != 0, NewActiveEntry(rs),
         NewService(rs), c.useIngress, NewIngress(rs), Reflected(c, rs, f))
  }

  /** The next action of a worker that holds the lock. */
  datatype Stage =
    | Decide
    | SvcCreate | SvcGet | SvcUpdate
    | IngCreate | IngGet | IngUpdate
    | Reflect
    | FltCreate | FltGet | FltUpdate | GaugeInc
    | IngDelete(ok: bool) | SvcDelete(ok: bool)
    | CacheStore
    | FltDelete | GaugeDec | CacheDelete | LockRemove
    | Done

  function Rank(g: Stage): nat {
    match g
    case Decide => 16 case SvcCreate => 15 case SvcGet => 14 case SvcUpdate => 13
    case IngCreate => 12 case IngGet => 11 case IngUpdate => 10
    case Reflect => 9 case FltCreate => 8 case FltGet => 7 case FltUpdate => 6 case GaugeInc => 5
    case IngDelete(_) => 4 case SvcDelete(_) => 3 case CacheStore => 2
    case FltDelete => 4 case GaugeDec => 3 case CacheDelete => 2 case LockRemove => 1
    case Done => 0
  }

  function AfterService(t: Task): Stage {
    if t.useIngress then IngCreate else Reflect
  }

  /** The deferred deletions, innermost first. */
  function Unwind(t: Task, ok: bool): Stage {
    if t.useIngress then IngDelete(ok) else SvcDelete(ok)
  }

  /** What a worker's calls can tell it: the cache entry, and which of its resources are there. */
  datatype Seen = Seen(cached: Option<ActiveEntry>, filter: bool, service: bool, ingress: bool)

  function Look(s: State, t: Task): Seen {
    Seen(Lookup(s.active, t.key), t.filter in s.filters, t.replica in s.services, t.replica in s.ingresses)
  }

  predicate Wanted(t: Task, cached: Option<ActiveEntry>) {
    t.ready &&
    match cached
    case Some(e) => t.entry.revision != 0 && t.entry.revision >= e.revision && e != t.entry
    case None => t.entry.grpcPort != 0
  }

  /** What one action changes. */
  datatype Edit =
    | Keep
    | PutService | DropService
    | PutIngress | DropIngress
    | PutFilter | DropFilter
    | Gauge(change: int)
    | PutEntry | DropEntry

  /** One action, from what it sees: its change and the action to follow. A fault makes no change. */
  function Act(v: Seen, t: Task, g: Stage): (Edit, Stage)
    requires g != Done
  {
    var f := t.faults;
    match g
    case Decide => (Keep, if !Wanted(t, v.cached) then Done else if t.entry.grpcPort == 0 then FltDelete else SvcCreate)
    case SvcCreate => if f.service.create then (Keep, Done) else if v.service then (Keep, SvcGet) else (PutService, AfterService(t))
    case SvcGet => (Keep, if f.service.get || !v.service then Done else SvcUpdate)
    case SvcUpdate => if f.service.update || !v.service then (Keep, Done) else (PutService, AfterService(t))
    case IngCreate => if f.ingress.create then (Keep, SvcDelete(false)) else if v.ingress then (Keep, IngGet) else (PutIngress, Reflect)
    case IngGet => (Keep, if f.ingress.get || !v.ingress then SvcDelete(false) else IngUpdate)
    case IngUpdate => if f.ingress.update || !v.ingress then (Keep, SvcDelete(false)) else (PutIngress, Reflect)
    case Reflect => (Keep, if t.reflected.None? || f.encode then Unwind(t, false) else FltCreate)
    case FltCreate => if f.filter.create then (Keep, Unwind(t, false)) else if v.filter then (Keep, FltGet) else (PutFilter, GaugeInc)
    case FltGet => (Keep, if f.filter.get || !v.filter then Unwind(t, false) else FltUpdate)
    case FltUpdate => if f.filter.update || !v.filter then (Keep, Unwind(t, false)) else (PutFilter, Unwind(t, true))
    case GaugeInc => (Gauge(1), Unwind(t, true))
    case IngDelete(ok) => (if f.deleteIngress then Keep else DropIngress, SvcDelete(ok))
    case SvcDelete(ok) => (if f.deleteService then Keep else DropService, if ok then CacheStore else Done)
    case CacheStore => (PutEntry, Done)
    case FltDelete => if f.deleteFilter then (Keep, CacheDelete) else (DropFilter, GaugeDec)
    case GaugeDec => (Gauge(-1), CacheDelete)
    case CacheDelete => (DropEntry, LockRemove)
    case LockRemove => (Keep, Done)
  }

  function Apply(s: State, t: Task, e: Edit): State {
    match e
    case Keep => s
    case PutService => s.(services := s.services[t.replica := t.service])
    case DropService => s.(services := s.services - {t.replica})
    case PutIngress => s.(ingresses := s.ingresses[t.replica := t.ingress])
    case DropIngress => s.(ingresses := s.ingresses - {t.replica})
    case PutFilter => if t.reflected.Some? then s.(filters := s.filters[t.filter := t.reflected.value]) else s
    case DropFilter => s.(filters := s.filters - {t.filter})
    case Gauge(n) => s.(gauge := s.gauge + n)
    case PutEntry => s.(active := s.active[t.key := t.entry])
    case DropEntry => s.(active := s.active - {t.key})
  }

  /** One action: the state after it and the action to follow. */
  function Micro(s: State, t: Task, g: Stage): (State, Stage)
    requires g != Done
  {
    var (e, g') := Act(Look(s, t), t, g);
    (Apply(s, t, e), g')
  }

  lemma MicroRank(s: State, t: Task, g: Stage)
    requires g != Done
    ensures Rank(Micro(s, t, g).1) < Rank(g)
  {
  }

  /** What is left to do, done without interruption. */
  function Finish(s: State, t: Task, g: Stage): State
    decreases Rank(g)
  {
    if g == Done then s
    else
      MicroRank(s, t, g);
      Finish(Micro(s, t, g).0, t, Micro(s, t, g).1)
  }

  // ---- The actions in a row are the whole step ----

  lemma Peel(s: State, t: Task, g: Stage)
    requires g != Done
    ensures Finish(s, t, g) == Finish(Micro(s, t, g).0, t, Micro(s, t, g).1)
  {
  }

  /** `rest` gives the same before and after one action. */
  ghost predicate Through(rest: (State, Stage) -> State, s: State, t: Task, g: Stage)
    requires g != Done
  {
    rest(s, g) == rest(Micro(s, t, g).0, Micro(s, t, g).1)
  }

  lemma ServiceChain(rest: (State, Stage) -> State, s: State, t: Task)
    requires Through(rest, s, t, SvcCreate) && Through(rest, s, t, SvcGet) && Through(rest, s, t, SvcUpdate)
    ensures rest(s, SvcCreate) ==
      if Writes(s.services, t.replica, t.faults.service)
      then rest(s.(services := s.services[t.replica := t.service]), AfterService(t)) else rest(s, Done)
  {
  }

  lemma FinishService(s: State, t: Task)
    ensures Finish(s, t, SvcCreate) ==
      if Writes(s.services, t.replica, t.faults.service)
      then Finish(s.(services := s.services[t.replica := t.service]), t, AfterService(t)) else s
  {
    Peel(s, t, SvcCreate);
    Peel(s, t, SvcGet);
    Peel(s, t, SvcUpdate);
    ServiceChain((s', g) => Finish(s', t, g), s, t);
  }

  lemma IngressChain(rest: (State, Stage) -> State, s: State, t: Task)
    requires Through(rest, s, t, IngCreate) && Through(rest, s, t, IngGet) && Through(rest, s, t, IngUpdate)
    ensures rest(s, IngCreate) ==
      if Writes(s.ingresses, t.replica, t.faults.ingress)
      then rest(s.(ingresses := s.ingresses[t.replica := t.ingress]), Reflect) else rest(s, SvcDelete(false))
  {
  }

  lemma FinishIngress(s: State, t: Task)
    ensures Finish(s, t, IngCreate) ==
      if Writes(s.ingresses, t.replica, t.faults.ingress)
      then Finish(s.(ingresses := s.ingresses[t.replica := t.ingress]), t, Reflect) else Finish(s, t, SvcDelete(false))
  {
    Peel(s, t, IngCreate);
    Peel(s, t, IngGet);
    Peel(s, t, IngUpdate);
    IngressChain((s', g) => Finish(s', t, g), s, t);
  }

  predicate FilterWritten(s: State, t: Task) {
    t.reflected.Some? && !t.faults.encode && Writes(s.filters, t.filter, t.faults.filter)
  }

  function WithFilter(s: State, t: Task): State {
    if FilterWritten(s, t) then
      s.(filters := s.filters[t.filter := t.reflected.value], gauge := if t.filter in s.filters then s.gauge else s.gauge + 1)
    else s
  }

  lemma FilterChain(rest: (State, Stage) -> State, s: State, t: Task)
    requires Through(rest, s, t, Reflect) && Through(rest, s, t, FltCreate) && Through(rest, s, t, FltGet) && Through(rest, s, t, FltUpdate)
    requires t.reflected.Some? ==> Through(rest, s.(filters := s.filters[t.filter := t.reflected.value]), t, GaugeInc)
    ensures rest(s, Reflect) == rest(WithFilter(s, t), Unwind(t, FilterWritten(s, t)))
  {
  }

  lemma FinishFilter(s: State, t: Task)
    ensures Finish(s, t, Reflect) == Finish(WithFilter(s, t), t, Unwind(t, FilterWritten(s, t)))
  {
    Peel(s, t, Reflect);
    Peel(s, t, FltCreate);
    Peel(s, t, FltGet);
    Peel(s, t, FltUpdate);
    if t.reflected.Some? {
      Peel(s.(filters := s.filters[t.filter := t.reflected.value]), t, GaugeInc);
    }
    FilterChain((s', g) => Finish(s', t, g), s, t);
  }

  /** The deletions, and the cache entry when the filter was written. */
  function Unwound(s: State, t: Task, ok: bool, ingress: bool): State {
    s.(
      services := if t.faults.deleteService then s.services else s.services - {t.replica},
      ingresses := if !ingress || t.faults.deleteIngress then s.ingresses else s.ingresses - {t.replica},
      active := if ok then s.active[t.key := t.entry] else s.active)
  }

  lemma UnwindChain(rest: (State, Stage) -> State, s: State, t: Task, ok: bool)
    requires var s1 := if t.faults.deleteService then s else Apply(s, t, DropService);
      && Through(rest, s, t, SvcDelete(ok))
      && Through(rest, s1, t, CacheStore)
      && rest(s1, Done) == s1 && rest(Apply(s1, t, PutEntry), Done) == Apply(s1, t, PutEntry)
    ensures rest(s, SvcDelete(ok)) == Unwound(s, t, ok, false)
  {
  }

  lemma FinishUnwind(s: State, t: Task, ok: bool)
    ensures Finish(s, t, SvcDelete(ok)) == Unwound(s, t, ok, false)
  {
    Peel(s, t, SvcDelete(ok));
    Peel(if t.faults.deleteService then s else Apply(s, t, DropService), t, CacheStore);
    UnwindChain((s', g) => Finish(s', t, g), s, t, ok);
  }

  lemma FinishUnwindIngress(s: State, t: Task, ok: bool)
    ensures Finish(s, t, IngDelete(ok)) == Unwound(s, t, ok, true)
  {
    Peel(s, t, IngDelete(ok));
    FinishUnwind(if t.faults.deleteIngress then s else Apply(s, t, DropIngress), t, ok);
  }

  /** What a processed event without a port leaves. */
  function Dismissed(s: State, t: Task): State {
    s.(
      filters := if t.faults.deleteFilter then s.filters else s.filters - {t.filter},
      gauge := if t.faults.deleteFilter then s.gauge else s.gauge - 1,
      active := s.active - {t.key})
  }

  lemma FinishForget(s: State, t: Task)
    ensures Finish(s, t, CacheDelete) == Apply(s, t, DropEntry)
  {
    Peel(s, t, CacheDelete);
    Peel(Apply(s, t, DropEntry), t, LockRemove);
  }

  lemma DeleteChain(rest: (State, Stage) -> State, s: State, t: Task)
    requires var s1 := Apply(s, t, DropFilter);
      && Through(rest, s, t, FltDelete) && Through(rest, s1, t, GaugeDec)
      && rest(s, CacheDelete) == Apply(s, t, DropEntry)
      && rest(Apply(s1, t, Gauge(-1)), CacheDelete) == Apply(Apply(s1, t, Gauge(-1)), t, DropEntry)
    ensures rest(s, FltDelete) == Dismissed(s, t)
  {
  }

  lemma FinishDelete(s: State, t: Task)
    ensures Finish(s, t, FltDelete) == Dismissed(s, t)
  {
    var s1 := Apply(s, t, DropFilter);
    Peel(s, t, FltDelete);
    Peel(s1, t, GaugeDec);
    FinishForget(s, t);
    FinishForget(Apply(s1, t, Gauge(-1)), t);
    DeleteChain((s', g) => Finish(s', t, g), s, t);
  }

  /** What a processed event with a port leaves. */
  function Upserted(s: State, t: Task): State {
    if !Writes(s.services, t.replica, t.faults.service) then s
    else
      var s1 := s.(services := s.services[t.replica := t.service]);
      if !t.useIngress then Unwound(WithFilter(s1, t), t, FilterWritten(s1, t), false)
      else if !Writes(s.ingresses, t.replica, t.faults.ingress) then Unwound(s1, t, false, false)
      else
        var s2 := s1.(ingresses := s1.ingresses[t.replica := t.ingress]);
        Unwound(WithFilter(s2, t), t, FilterWritten(s2, t), true)
  }

  lemma FinishUpsert(s: State, t: Task)
    ensures Finish(s, t, SvcCreate) == Upserted(s, t)
  {
    FinishService(s, t);
    var s1 := s.(services := s.services[t.replica := t.service]);
    if !t.useIngress {
      FinishFilter(s1, t);
      FinishUnwind(WithFilter(s1, t), t, FilterWritten(s1, t));
    } else {
      FinishIngress(s1, t);
      FinishUnwind(s1, t, false);
      var s2 := s1.(ingresses := s1.ingresses[t.replica := t.ingress]);
      FinishFilter(s2, t);
      FinishUnwindIngress(WithFilter(s2, t), t, FilterWritten(s2, t));
    }
  }

  lemma UpsertedIs(c: Config, s: State, rs: ReplicaSet, f: Faults)
    ensures Upserted(s, TaskOf(c, rs, f)) == AfterUpsert(c, s, rs, f).(
      active := if UpsertOk(c, s, rs, f) then s.active[DeployKey(rs) := NewActiveEntry(rs)] else s.active)
  {
    MapAddRemove(s.services, ResourceId(rs), NewService(rs));
    MapAddRemove(s.ingresses, ResourceId(rs), NewIngress(rs));
  }

  /** The whole step of a task at once. */
  function WholeStep(s: State, t: Task): State {
    if !Wanted(t, Lookup(s.active, t.key)) then s
    else if t.entry.grpcPort == 0 then Dismissed(s, t)
    else Upserted(s, t)
  }

  lemma FinishIsWhole(s: State, t: Task)
    ensures Finish(s, t, Decide) == WholeStep(s, t)
  {
    Peel(s, t, Decide);
    FinishUpsert(s, t);
    FinishDelete(s, t);
  }

  lemma WholeIsNext(c: Config, s: State, rs: ReplicaSet, f: Faults)
    ensures WholeStep(s, TaskOf(c, rs, f)) == Next(c, s, rs, f)
  {
    UpsertedIs(c, s, rs, f);
  }

  /** The separate actions of one worker, nobody interfering, do exactly what the whole step does. */
  lemma FinishIsNext(c: Config, s: State, rs: ReplicaSet, f: Faults)
    ensures Finish(s, TaskOf(c, rs, f), Decide) == Next(c, s, rs, f)
  {
    FinishIsWhole(s, TaskOf(c, rs, f));
    WholeIsNext(c, s, rs, f);
  }
}
