/** Runs of whole reconcile steps: what every reachable state keeps. */
module Runs {
  import opened Prelude
  import opened Objects
  import opened Reconcile
  import Ledgers

  /**
   * A step of the system: an event that a worker processes, or a deployment deleted by a user,
   * whose filter the cluster collects while the operator drops the cache entry.
   */
  datatype Action = Event(rs: ReplicaSet, faults: Faults) | Deleted(key: string)

  ghost function Step(c: Config, s: State, a: Action): State {
    match a
    case Event(rs, f) => Next(c, s, rs, f)
    case Deleted(key) => s.(active := s.active - {key}, filters := s.filters - {FilterIdOf(key)})
  }

  ghost function Run(c: Config, s: State, acts: seq<Action>): State {
    if acts == [] then s else Step(c, Run(c, s, acts[..|acts| - 1]), acts[|acts| - 1])
  }

  /** The state before the i-th action. */
  ghost function At(c: Config, s: State, acts: seq<Action>, i: nat): State
    requires i <= |acts|
  {
    Run(c, s, acts[..i])
  }

  ghost predicate ActsOn(a: Action, key: string) {
    match a
    case Event(rs, _) => DeployKey(rs) == key
    case Deleted(k) => k == key
  }

  /** A filter shows the port and the revision of its cache entry. */
  ghost predicate Shows(e: ActiveEntry, f: EnvoyFilter) {
    FilterPort(f) == e.grpcPort && FilterRevision(f) == e.revision
  }

  /** Deployment keys, filter names, and the way between them. */
  ghost function Naming(): Ledgers.Scheme<string, ActiveEntry, Id, EnvoyFilter> {
    Ledgers.Scheme(FilterIdOf, KeyOfFilter, FilterKey, Shows)
  }

  /** A key that names the filter it is named by. */
  ghost predicate ProperKey(key: string) {
    Ledgers.Proper(Naming(), key)
  }

  /** Every cached deployment has its filter, with the cached port and revision. */
  ghost predicate Covered(s: State) {
    Ledgers.Covered(Naming(), s.active, s.filters)
  }

  /** Cache and cluster agree: there is also no filter without a cache entry. */
  ghost predicate Agree(s: State) {
    Ledgers.Agree(Naming(), s.active, s.filters)
  }

  ghost predicate WellFormed(a: Action) {
    match a
    case Event(rs, _) => WellNamed(rs)
    case Deleted(key) => ProperKey(key)
  }

  ghost predicate AllWellFormed(acts: seq<Action>) {
    forall a | a in acts :: WellFormed(a)
  }

  lemma WellNamedProper(rs: ReplicaSet)
    requires WellNamed(rs)
    ensures FilterIdOf(DeployKey(rs)) == FilterId(rs) && ProperKey(DeployKey(rs))
  {
    KeyNamesOneFilter(rs);
    FilterNamesOneDeployment(rs);
  }

  ghost function EffectOf(c: Config, s: State, rs: ReplicaSet, f: Faults): Ledgers.Effect<ActiveEntry, EnvoyFilter> {
    if Deletes(s, rs) then (if f.deleteFilter then Ledgers.Forgot else Ledgers.Dropped)
    else if Upserts(c, s, rs, f) then Ledgers.Wrote(NewActiveEntry(rs), Reflected(c, rs, f).value)
    else Ledgers.Nothing
  }

  /** `t` is `s` after the effect on one key and its filter. */
  ghost predicate Takes(s: State, t: State, key: string, id: Id, e: Ledgers.Effect<ActiveEntry, EnvoyFilter>) {
    Ledgers.Takes(s.active, s.filters, s.gauge, t.active, t.filters, t.gauge, key, id, e)
  }

  lemma StepTakes(c: Config, s: State, rs: ReplicaSet, f: Faults)
    ensures Takes(s, Next(c, s, rs, f), DeployKey(rs), FilterId(rs), EffectOf(c, s, rs, f))
  {
  }

  lemma WrittenShows(c: Config, s: State, rs: ReplicaSet, f: Faults)
    ensures var e := EffectOf(c, s, rs, f); e.Wrote? ==> FilterKey(e.object') == DeployKey(rs) && Shows(e.entry, e.object')
  {
    if Upserts(c, s, rs, f) {
      ListedEntry(rs, f.reflect(PathPrefix(c, rs)).value.protoset, Reflected(c, rs, f).value.services, c.version);
    }
  }

  /** A step changes cache and filter of its own deployment only. */
  lemma StepFrame(c: Config, s: State, a: Action, key: string)
    requires WellFormed(a) && ProperKey(key) && !ActsOn(a, key)
    ensures Lookup(Step(c, s, a).active, key) == Lookup(s.active, key)
    ensures Lookup(Step(c, s, a).filters, FilterIdOf(key)) == Lookup(s.filters, FilterIdOf(key))
  {
    if a.Event? {
      WellNamedProper(a.rs);
      StepTakes(c, s, a.rs, a.faults);
    }
  }

  /**
   * Whatever fails, a cached deployment has its filter, and the gauge follows the number of filters.
   * The one step of the operator that breaks agreement is a delete that the API refuses.
   */
  lemma KeptByStep(c: Config, s: State, rs: ReplicaSet, f: Faults)
    requires WellNamed(rs) && Covered(s)
    ensures var t := Next(c, s, rs, f);
      && Covered(t)
      && t.gauge - |t.filters| == s.gauge - |s.filters|
      && (Agree(s) ==> (Agree(t) <==> !(Deletes(s, rs) && f.deleteFilter)))
  {
    WellNamedProper(rs);
    StepTakes(c, s, rs, f);
    WrittenShows(c, s, rs, f);
    KeptByEffect(s, Next(c, s, rs, f), DeployKey(rs), EffectOf(c, s, rs, f));
  }

  lemma KeptByEffect(s: State, t: State, key: string, e: Ledgers.Effect<ActiveEntry, EnvoyFilter>)
    requires Covered(s) && ProperKey(key) && Takes(s, t, key, FilterIdOf(key), e)
    requires e.Wrote? ==> FilterKey(e.object') == key && Shows(e.entry, e.object')
    ensures Covered(t) && t.gauge - |t.filters| == s.gauge - |s.filters|
    ensures Agree(s) ==> (Agree(t) <==> !e.Forgot?)
  {
    Ledgers.EffectKeeps(Naming(), s.active, s.filters, s.gauge, t.active, t.filters, t.gauge, key, e);
    Ledgers.EffectCounts(s.active, s.filters, s.gauge, t.active, t.filters, t.gauge, key, FilterIdOf(key), e);
  }

  /** No step of the run is a delete that the API refuses. */
  ghost predicate DeletesSucceed(c: Config, s: State, acts: seq<Action>) {
    forall i | 0 <= i < |acts| && acts[i].Event? :: !(Deletes(At(c, s, acts, i), acts[i].rs) && acts[i].faults.deleteFilter)
  }

  lemma PrefixFacts(c: Config, s: State, acts: seq<Action>)
    requires acts != [] && AllWellFormed(acts)
    ensures var first := acts[..|acts| - 1];
      && AllWellFormed(first) && WellFormed(acts[|acts| - 1])
      && (forall i | 0 <= i <= |first| :: At(c, s, first, i) == At(c, s, acts, i))
      && (DeletesSucceed(c, s, acts) ==> DeletesSucceed(c, s, first))
  {
    var first := acts[..|acts| - 1];
    assert acts[|acts| - 1] in acts;
    forall i | 0 <= i <= |first|
      ensures At(c, s, first, i) == At(c, s, acts, i)
    {
      assert first[..i] == acts[..i];
    }
  }

  /**
   * Cache and cluster agree in every reachable state of a run whose deletes succeed,
   * whatever upserts fail and whatever deployments are deleted in between.
   */
  lemma {:induction false} AgreeAlways(c: Config, s: State, acts: seq<Action>)
    requires AllWellFormed(acts) && Agree(s) && DeletesSucceed(c, s, acts)
    ensures Agree(Run(c, s, acts))
  {
    if acts != [] {
      var n := |acts| - 1;
      PrefixFacts(c, s, acts);
      AgreeAlways(c, s, acts[..n]);
      var t := At(c, s, acts, n);
      match acts[n]
      case Event(rs, f) => KeptByStep(c, t, rs, f);
      case Deleted(key) => Ledgers.Removed(Naming(), t.active, t.filters, key);
    }
  }

  /** In every run, whatever fails, every cached deployment has its filter. */
  lemma {:induction false} CoveredAlways(c: Config, s: State, acts: seq<Action>)
    requires AllWellFormed(acts) && Covered(s)
    ensures Covered(Run(c, s, acts))
  {
    if acts != [] {
      var n := |acts| - 1;
      PrefixFacts(c, s, acts);
      CoveredAlways(c, s, acts[..n]);
      var t := Run(c, s, acts[..n]);
      match acts[n]
      case Event(rs, f) => KeptByStep(c, t, rs, f);
      case Deleted(key) => Ledgers.Removed(Naming(), t.active, t.filters, key);
    }
  }

  /**
   * Agreement along the whole run comes to one thing: cache and cluster agree in every state if and
   * only if the API refuses no delete.
   */
  lemma AgreeIffNoRefusal(c: Config, s: State, acts: seq<Action>)
    requires AllWellFormed(acts) && Agree(s)
    ensures (forall i | 0 <= i <= |acts| :: Agree(At(c, s, acts, i))) <==> DeletesSucceed(c, s, acts)
  {
    if DeletesSucceed(c, s, acts) {
      forall i | 0 <= i <= |acts|
        ensures Agree(At(c, s, acts, i))
      {
        forall j | 0 <= j <= i
          ensures At(c, s, acts[..i], j) == At(c, s, acts, j)
        {
          assert acts[..i][..j] == acts[..j];
        }
        AgreeAlways(c, s, acts[..i]);
      }
    }
    if forall i | 0 <= i <= |acts| :: Agree(At(c, s, acts, i)) {
      forall i | 0 <= i < |acts| && acts[i].Event?
        ensures !(Deletes(At(c, s, acts, i), acts[i].rs) && acts[i].faults.deleteFilter)
      {
        assert acts[i] in acts && Agree(At(c, s, acts, i)) && Agree(At(c, s, acts, i + 1));
        RunNext(c, s, acts, i);
        KeptByStep(c, At(c, s, acts, i), acts[i].rs, acts[i].faults);
      }
    }
  }

  /** The events of the deployment name no port, and it is not deleted. */
  ghost predicate NoPortAgain(acts: seq<Action>, key: string) {
    forall a | a in acts && ActsOn(a, key) :: a.Event? && GrpcPort(a.rs) == 0
  }

  /** Without a cache entry no event without a port touches the filter, whatever fails. */
  lemma {:induction false} OrphanFilterStays(c: Config, s: State, acts: seq<Action>, key: string)
    requires AllWellFormed(acts) && ProperKey(key) && key !in s.active && NoPortAgain(acts, key)
    ensures key !in Run(c, s, acts).active
    ensures Lookup(Run(c, s, acts).filters, FilterIdOf(key)) == Lookup(s.filters, FilterIdOf(key))
  {
    if acts != [] {
      var n := |acts| - 1;
      PrefixFacts(c, s, acts);
      assert acts[n] in acts && NoPortAgain(acts[..n], key);
      OrphanFilterStays(c, s, acts[..n], key);
      if !ActsOn(acts[n], key) {
        StepFrame(c, Run(c, s, acts[..n]), acts[n], key);
      }
    }
  }

  /**
   * A refused delete is final: as long as the deployment names no port again and is not deleted, its
   * filter stays, re-deliveries of the deleting event included, and cache and cluster never agree.
   */
  lemma RefusedDeleteIsFinal(c: Config, s: State, rs: ReplicaSet, f: Faults, acts: seq<Action>)
    requires WellNamed(rs) && Covered(s) && Deletes(s, rs) && f.deleteFilter
    requires AllWellFormed(acts) && NoPortAgain(acts, DeployKey(rs))
    ensures FilterId(rs) in s.filters
    ensures var t := Run(c, Next(c, s, rs, f), acts);
      && Lookup(t.filters, FilterId(rs)) == Some(s.filters[FilterId(rs)])
      && DeployKey(rs) !in t.active && !Agree(t)
  {
    WellNamedProper(rs);
    StepTakes(c, s, rs, f);
    OrphanFilterStays(c, Next(c, s, rs, f), acts, DeployKey(rs));
    assert FilterKey(s.filters[FilterIdOf(DeployKey(rs))]) == DeployKey(rs);
  }

  // ---- Owners ----

  /** Every filter is owned by the deployment that it is named after. */
  ghost predicate Owned(s: State) {
    forall id | id in s.filters :: s.filters[id].owner.kind == "Deployment" && id.name == s.filters[id].owner.name + "-transflect"
  }

  lemma {:induction false} OwnedAlways(c: Config, s: State, acts: seq<Action>)
    requires Owned(s) && AllWellFormed(acts)
    ensures Owned(Run(c, s, acts))
  {
    if acts != [] {
      var n := |acts| - 1;
      PrefixFacts(c, s, acts);
      OwnedAlways(c, s, acts[..n]);
      if acts[n].Event? {
        OwnedStep(c, Run(c, s, acts[..n]), acts[n].rs, acts[n].faults);
      }
    }
  }

  lemma OwnedStep(c: Config, s: State, rs: ReplicaSet, f: Faults)
    requires Owned(s) && WellNamed(rs)
    ensures Owned(Next(c, s, rs, f))
  {
    StepTakes(c, s, rs, f);
    if Upserts(c, s, rs, f) {
      var r := Reflected(c, rs, f).value;
      FilterIs(rs, r.protoset, r.services, c.version);
      DeploymentIsFirst(rs.owners);
    }
  }

  /** Deleting a deployment takes exactly the filters that it owns, and its cache entry. */
  lemma DeletedIsOwned(c: Config, s: State, namespace: string, name: string)
    requires Owned(s) && '/' !in namespace && '/' !in name
    ensures var t := Step(c, s, Deleted(MetaNamespaceKey(namespace, name)));
      && t.active == s.active - {MetaNamespaceKey(namespace, name)}
      && forall id | id in s.filters ::
        id !in t.filters <==> id.namespace == namespace && s.filters[id].owner == OwnerRef("Deployment", name)
  {
    var rs := ReplicaSet(namespace, "", [OwnerRef("Deployment", name)], 1, map[]);
    KeyNamesOneFilter(rs);
    forall id | id in s.filters
      ensures id == Id(namespace, name + "-transflect") <==> id.namespace == namespace && s.filters[id].owner == OwnerRef("Deployment", name)
    {
      var owner := s.filters[id].owner;
      assert (owner.name + "-transflect")[..|owner.name|] == owner.name;
      assert (name + "-transflect")[..|name|] == name;
    }
  }

  // ---- The gauge ----

  /** How many filters the cluster collected because their deployment was deleted. */
  ghost function Garbage(c: Config, s: State, acts: seq<Action>): nat {
    if acts == [] then 0
    else
      var n := |acts| - 1;
      Garbage(c, s, acts[..n]) +
      if acts[n].Deleted? && FilterIdOf(acts[n].key) in At(c, s, acts, n).filters then 1 else 0
  }

  /**
   * In every run, with any failures: the gauge is the number of filters plus the number of filters
   * that went with their deployment, for which it is never lowered.
   */
  lemma {:induction false} GaugeLaw(c: Config, s: State, acts: seq<Action>)
    requires AllWellFormed(acts) && Covered(s)
    ensures var t := Run(c, s, acts); t.gauge - |t.filters| == s.gauge - |s.filters| + Garbage(c, s, acts)
  {
    if acts != [] {
      var n := |acts| - 1;
      PrefixFacts(c, s, acts);
      GaugeLaw(c, s, acts[..n]);
      CoveredAlways(c, s, acts[..n]);
      CountStep(c, At(c, s, acts, n), acts[n]);
    }
  }

  lemma CountStep(c: Config, s: State, a: Action)
    requires WellFormed(a) && Covered(s)
    ensures var t := Step(c, s, a);
      t.gauge - |t.filters| == s.gauge - |s.filters| + if a.Deleted? && FilterIdOf(a.key) in s.filters then 1 else 0
  {
    match a
    case Event(rs, f) => KeptByStep(c, s, rs, f);
    case Deleted(key) => Ledgers.RemovalSize(s.filters, FilterIdOf(key));
  }

  /** Conservation: without deleted deployments and refused deletes, gauge, cache and cluster count the same. */
  lemma GaugeConserved(c: Config, s: State, acts: seq<Action>)
    requires AllWellFormed(acts) && Agree(s) && s.gauge == |s.filters| && DeletesSucceed(c, s, acts)
    ensures var t := Run(c, s, acts);
      |t.active| == |t.filters| && (t.gauge == |t.filters| <==> Garbage(c, s, acts) == 0)
    ensures (forall a | a in acts :: a.Event?) ==> Run(c, s, acts).gauge == |Run(c, s, acts).filters|
  {
    GaugeLaw(c, s, acts);
    AgreeAlways(c, s, acts);
    Ledgers.Counts(Naming(), Run(c, s, acts).active, Run(c, s, acts).filters);
    if forall a | a in acts :: a.Event? {
      NoGarbage(c, s, acts);
    }
  }

  lemma {:induction false} NoGarbage(c: Config, s: State, acts: seq<Action>)
    requires forall a | a in acts :: a.Event?
    ensures Garbage(c, s, acts) == 0
  {
    if acts != [] {
      NoGarbage(c, s, acts[..|acts| - 1]);
      assert acts[|acts| - 1] in acts;
    }
  }

  // ---- Temporary resources ----

  /** The event may have left its temporary resource behind. */
  ghost predicate Blamed(a: Action, id: Id, service: bool) {
    a.Event? && ResourceId(a.rs) == id && if service then a.faults.deleteService else a.faults.deleteIngress
  }

  ghost predicate Touched(a: Action, id: Id) {
    a.Event? && ResourceId(a.rs) == id
  }

  lemma StepLeaves(c: Config, s: State, a: Action, id: Id)
    ensures var t := Step(c, s, a);
      && (id in t.services && Lookup(s.services, id) != Some(t.services[id]) ==> Blamed(a, id, true))
      && (id in t.ingresses && Lookup(s.ingresses, id) != Some(t.ingresses[id]) ==> Blamed(a, id, false))
      && (id !in t.services && id in s.services ==> Touched(a, id))
      && (id !in t.ingresses && id in s.ingresses ==> Touched(a, id))
  {
    if a.Event? {
      TemporariesBracketed(c, s, a.rs, a.faults);
    }
  }

  /**
   * In every run, whatever fails: a Service or Ingress that is there afterwards was there before,
   * unchanged, unless an event of its replica set had its deletion refused; and one that is
   * missing afterwards had an event of its replica set.
   */
  lemma {:induction false} TemporariesGone(c: Config, s: State, acts: seq<Action>, id: Id)
    ensures var t := Run(c, s, acts);
      && (id in t.services && Lookup(s.services, id) != Some(t.services[id]) ==> exists a | a in acts :: Blamed(a, id, true))
      && (id in t.ingresses && Lookup(s.ingresses, id) != Some(t.ingresses[id]) ==> exists a | a in acts :: Blamed(a, id, false))
      && (id !in t.services && id in s.services ==> exists a | a in acts :: Touched(a, id))
      && (id !in t.ingresses && id in s.ingresses ==> exists a | a in acts :: Touched(a, id))
  {
    if acts != [] {
      var n := |acts| - 1;
      assert acts[n] in acts && forall a | a in acts[..n] :: a in acts;
      TemporariesGone(c, s, acts[..n], id);
      StepLeaves(c, Run(c, s, acts[..n]), acts[n], id);
    }
  }

  // ---- Revisions ----

  lemma RevisionStep(c: Config, s: State, a: Action, key: string)
    requires key in s.active && key in Step(c, s, a).active
    ensures Step(c, s, a).active[key].revision >= s.active[key].revision
  {
  }

  /** A cached revision does not go back before the entry is gone. */
  lemma {:induction false} RevisionsNeverGoBack(c: Config, s: State, acts: seq<Action>, key: string)
    requires key in s.active
    ensures (exists i | 0 <= i <= |acts| :: key !in At(c, s, acts, i).active)
            || (key in Run(c, s, acts).active && Run(c, s, acts).active[key].revision >= s.active[key].revision)
  {
    if acts != [] {
      var n := |acts| - 1;
      RevisionsNeverGoBack(c, s, acts[..n], key);
      if i :| 0 <= i <= n && key !in At(c, s, acts[..n], i).active {
        assert acts[..n][..i] == acts[..i];
        assert key !in At(c, s, acts, i).active;
      } else {
        assert acts[..|acts|] == acts;
        if key !in Run(c, s, acts).active {
          assert key !in At(c, s, acts, |acts|).active;
        } else {
          RevisionStep(c, Run(c, s, acts[..n]), acts[n], key);
        }
      }
    }
  }

  /** A cached entry has a key and a port. */
  ghost predicate Stored(s: State) {
    forall k | k in s.active :: k != "" && s.active[k].grpcPort > 0
  }

  lemma {:induction false} StoredAlways(c: Config, s: State, acts: seq<Action>)
    requires Stored(s) && forall a | a in acts && a.Event? :: DeployKey(a.rs) != ""
    ensures Stored(Run(c, s, acts))
  {
    if acts != [] {
      var n := |acts| - 1;
      assert acts[n] in acts && forall a | a in acts[..n] :: a in acts;
      StoredAlways(c, s, acts[..n]);
      if acts[n].Event? {
        StepTakes(c, Run(c, s, acts[..n]), acts[n].rs, acts[n].faults);
      }
    }
  }

  /**
   * What the removal of an entry forgets is its revision: after a delete, refused or not, the next
   * ready event of the deployment with a port is upserted whatever its revision, and if the upsert
   * goes through the filter and the entry of that revision are back.
   */
  lemma DeletedComesBack(c: Config, s: State, rs: ReplicaSet, f: Faults, old': ReplicaSet, f': Faults)
    requires WellNamed(rs) && WellNamed(old') && DeployKey(old') == DeployKey(rs)
    requires Deletes(s, rs) && old'.readyReplicas != 0 && GrpcPort(old') != 0
    ensures var t := Next(c, s, rs, f);
      && ShouldProcess(t.active, old')
      && (UpsertOk(c, t, old', f') ==>
            var u := Next(c, t, old', f');
            && Lookup(u.active, DeployKey(rs)) == Some(NewActiveEntry(old'))
            && Lookup(u.filters, FilterId(rs)) == Some(Reflected(c, old', f').value))
  {
    WellNamedProper(rs);
    WellNamedProper(old');
    StepTakes(c, s, rs, f);
    StepTakes(c, Next(c, s, rs, f), old', f');
  }

  // ---- Replays ----

  /** An event that tells a cached deployment nothing new: the same again, or an older revision. */
  ghost predicate Stale(e: ActiveEntry, rs: ReplicaSet) {
    NewActiveEntry(rs) == e || DeployRevision(rs) < e.revision
  }

  /** An event of a cached deployment is ignored exactly when it is stale, unreadable or not ready. */
  lemma IgnoredIff(c: Config, s: State, rs: ReplicaSet)
    requires DeployKey(rs) in s.active
    ensures !ShouldProcess(s.active, rs) <==>
            Stale(s.active[DeployKey(rs)], rs) || DeployRevision(rs) == 0 || rs.readyReplicas == 0
  {
  }

  /**
   * A changed annotation is noticed: an event of the cached revision is processed exactly if the port
   * or one of the exclude, include and prefix texts differs from those of the event that was stored.
   */
  lemma ChangeNoticed(active: map<string, ActiveEntry>, stored: ReplicaSet, rs: ReplicaSet)
    requires Lookup(active, DeployKey(stored)) == Some(NewActiveEntry(stored)) && DeployKey(rs) == DeployKey(stored)
    requires rs.readyReplicas != 0 && DeployRevision(rs) == DeployRevision(stored) != 0
    ensures var a, b := stored.annotations, rs.annotations;
      ShouldProcess(active, rs) <==>
        || GrpcPort(rs) != GrpcPort(stored)
        || Annotation(b, "transflect.cash.squareup.com/exclude-grpc-services") != Annotation(a, "transflect.cash.squareup.com/exclude-grpc-services")
        || Annotation(b, "transflect.cash.squareup.com/include-grpc-services") != Annotation(a, "transflect.cash.squareup.com/include-grpc-services")
        || Annotation(b, "transflect.cash.squareup.com/http-path-prefix") != Annotation(a, "transflect.cash.squareup.com/http-path-prefix")
  {
    EntryTakes(stored);
    EntryTakes(rs);
  }

  /** So it is after every upsert, with any events of other deployments and stale ones of this one in between. */
  lemma ChangeNoticedLater(c: Config, s: State, stored: ReplicaSet, f: Faults, acts: seq<Action>, rs: ReplicaSet)
    requires WellNamed(stored) && Upserts(c, s, stored, f) && AllWellFormed(acts)
    requires forall a | a in acts && ActsOn(a, DeployKey(stored)) :: a.Event? && Stale(NewActiveEntry(stored), a.rs)
    requires DeployKey(rs) == DeployKey(stored) && rs.readyReplicas != 0 && DeployRevision(rs) == DeployRevision(stored) != 0
    ensures var a, b := stored.annotations, rs.annotations;
      ShouldProcess(Run(c, Next(c, s, stored, f), acts).active, rs) <==>
        || GrpcPort(rs) != GrpcPort(stored)
        || Annotation(b, "transflect.cash.squareup.com/exclude-grpc-services") != Annotation(a, "transflect.cash.squareup.com/exclude-grpc-services")
        || Annotation(b, "transflect.cash.squareup.com/include-grpc-services") != Annotation(a, "transflect.cash.squareup.com/include-grpc-services")
        || Annotation(b, "transflect.cash.squareup.com/http-path-prefix") != Annotation(a, "transflect.cash.squareup.com/http-path-prefix")
  {
    WellNamedProper(stored);
    ReplaysSilent(c, Next(c, s, stored, f), acts, DeployKey(stored));
    ChangeNoticed(Run(c, Next(c, s, stored, f), acts).active, stored, rs);
  }

  /**
   * Re-deliveries and older revisions change neither the cache entry nor the filter of their
   * deployment, however the events of other deployments fall between them.
   */
  lemma {:induction false} ReplaysSilent(c: Config, s: State, acts: seq<Action>, key: string)
    requires AllWellFormed(acts) && ProperKey(key) && key in s.active
    requires forall a | a in acts && ActsOn(a, key) :: a.Event? && Stale(s.active[key], a.rs)
    ensures Lookup(Run(c, s, acts).active, key) == Some(s.active[key])
    ensures Lookup(Run(c, s, acts).filters, FilterIdOf(key)) == Lookup(s.filters, FilterIdOf(key))
    ensures (forall a | a in acts :: ActsOn(a, key)) ==> Run(c, s, acts) == s
  {
    if acts != [] {
      var n := |acts| - 1;
      PrefixFacts(c, s, acts);
      ReplaysSilent(c, s, acts[..n], key);
      var t := Run(c, s, acts[..n]);
      assert acts[n] in acts;
      if ActsOn(acts[n], key) {
        IgnoredIff(c, t, acts[n].rs);
      } else {
        StepFrame(c, t, acts[n], key);
      }
    }
  }

  /** An upsert puts the event's entry into the cache, so its replays are silent from then on. */
  lemma UpsertThenSilent(c: Config, s: State, rs: ReplicaSet, f: Faults, acts: seq<Action>)
    requires WellNamed(rs) && Upserts(c, s, rs, f) && AllWellFormed(acts)
    requires forall a | a in acts :: a.Event? && DeployKey(a.rs) == DeployKey(rs)
    requires forall a | a in acts :: a.rs == rs || DeployRevision(a.rs) < DeployRevision(rs)
    ensures Run(c, Next(c, s, rs, f), acts) == Next(c, s, rs, f)
  {
    WellNamedProper(rs);
    ReplaysSilent(c, Next(c, s, rs, f), acts, DeployKey(rs));
  }

  // ---- The newest event wins ----

  /** The i-th action is an event of the deployment whose upsert, if it is tried, goes through. */
  ghost predicate Eligible(c: Config, s: State, acts: seq<Action>, key: string, i: nat)
    requires i < |acts|
  {
    && acts[i].Event? && DeployKey(acts[i].rs) == key && acts[i].rs.readyReplicas != 0
    && UpsertOk(c, At(c, s, acts, i), acts[i].rs, acts[i].faults)
  }

  /** Of the eligible events, the last of the highest revision. */
  ghost predicate Newest(c: Config, s: State, acts: seq<Action>, key: string, i: nat)
    requires i < |acts|
  {
    && Eligible(c, s, acts, key, i)
    && forall j | 0 <= j < |acts| && Eligible(c, s, acts, key, j) ::
      var r, r' := DeployRevision(acts[i].rs), DeployRevision(acts[j].rs);
      r' < r || (r' == r && j <= i)
  }

  /** Events that ask for a filter, and no deletion of the deployment. */
  ghost predicate AsksForFilter(a: Action, key: string) {
    ActsOn(a, key) ==> a.Event? && GrpcPort(a.rs) != 0 && DeployRevision(a.rs) > 0
  }

  ghost function Offer(c: Config, s: State, acts: seq<Action>, key: string, i: nat): Option<ActiveEntry>
    requires i < |acts|
  {
    if Eligible(c, s, acts, key, i) then Some(NewActiveEntry(acts[i].rs)) else None
  }

  /** The cache slot of a deployment takes an eligible entry unless it holds a newer one. */
  lemma SlotStep(c: Config, s: State, a: Action, key: string)
    requires AsksForFilter(a, key)
    ensures var slot, after := Lookup(s.active, key), Lookup(Step(c, s, a).active, key);
      if a.Event? && DeployKey(a.rs) == key && a.rs.readyReplicas != 0 && UpsertOk(c, s, a.rs, a.faults)
         && (slot.None? || DeployRevision(a.rs) >= slot.value.revision)
      then after == Some(NewActiveEntry(a.rs)) else after == slot
  {
  }

  lemma RunNext(c: Config, s: State, acts: seq<Action>, i: nat)
    requires i < |acts|
    ensures At(c, s, acts, i + 1) == Step(c, At(c, s, acts, i), acts[i])
  {
    assert acts[..i + 1][..i] == acts[..i];
  }

  /**
   * Starting without an entry, the cached entry is that of the last among the events of the highest
   * revision, whatever the order and repetition, whatever fails, whatever other deployments do.
   */
  lemma NewestWins(c: Config, s: State, acts: seq<Action>, key: string)
    requires key !in s.active
    requires forall a | a in acts :: AsksForFilter(a, key)
    ensures key in Run(c, s, acts).active <==> exists i | 0 <= i < |acts| :: Eligible(c, s, acts, key, i)
    ensures forall i | 0 <= i < |acts| && Newest(c, s, acts, key, i) ::
      Lookup(Run(c, s, acts).active, key) == Some(NewActiveEntry(acts[i].rs))
    ensures key in Run(c, s, acts).active ==> exists i | 0 <= i < |acts| :: Newest(c, s, acts, key, i)
  {
    var slot, offered := SlotTrace(c, s, acts, key);
    var rank := (e: ActiveEntry) => e.revision;
    Ledgers.BestStays(slot, offered, rank, |acts|);
    assert forall i | 0 <= i < |acts| :: offered[i].Some? <==> Eligible(c, s, acts, key, i);
    NewestIsBest(c, s, acts, key, offered, rank);
  }

  /** The slot before each action and what each action offers it. */
  lemma SlotTrace(c: Config, s: State, acts: seq<Action>, key: string)
    returns (slot: seq<Option<ActiveEntry>>, offered: seq<Option<ActiveEntry>>)
    requires forall a | a in acts :: AsksForFilter(a, key)
    ensures Ledgers.Overwrites(slot, offered, (e: ActiveEntry) => e.revision)
    ensures |offered| == |acts| && slot[0] == Lookup(s.active, key) && slot[|acts|] == Lookup(Run(c, s, acts).active, key)
    ensures forall i | 0 <= i < |acts| :: offered[i] == Offer(c, s, acts, key, i)
  {
    var n := |acts|;
    slot := seq(n + 1, i requires 0 <= i <= n => Lookup(At(c, s, acts, i).active, key));
    offered := seq(n, i requires 0 <= i < n => Offer(c, s, acts, key, i));
    forall i | 0 <= i < n
      ensures slot[i + 1] ==
        if offered[i].Some? && (slot[i].None? || offered[i].value.revision >= slot[i].value.revision) then offered[i] else slot[i]
    {
      assert acts[i] in acts;
      RunNext(c, s, acts, i);
      SlotStep(c, At(c, s, acts, i), acts[i], key);
    }
    assert acts[..n] == acts;
  }

  lemma NewestIsBest(c: Config, s: State, acts: seq<Action>, key: string, offered: seq<Option<ActiveEntry>>, rank: ActiveEntry -> int)
    requires |offered| == |acts| && forall i | 0 <= i < |acts| :: offered[i] == Offer(c, s, acts, key, i)
    requires forall e :: rank(e) == e.revision
    ensures forall i | 0 <= i < |acts| :: Newest(c, s, acts, key, i) <==> Ledgers.Best(offered, rank, |acts|, i)
  {
    forall i | 0 <= i < |acts|
      ensures Eligible(c, s, acts, key, i) <==> offered[i].Some?
      ensures offered[i].Some? ==> rank(offered[i].value) == DeployRevision(acts[i].rs)
    {
    }
  }
}
