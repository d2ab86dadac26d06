/** What one reconcile step does to cache and cluster, in closed form, and what follows for one step. */
module Reconcile {
  import opened Prelude
  import opened Descriptors
  import opened ServiceFilter
  import opened Objects

  datatype TempService = TempService(port: int)
  datatype TempIngress = TempIngress(host: string, backend: string, port: int)

  datatype Config = Config(useIngress: bool, httpPathPrefix: string, version: string)

  /** What the reflection query brings back. */
  datatype Reflection = Reflection(protoset: seq<FileRecord>, services: seq<string>)

  /** For each call of a create-get-update sequence, whether it fails for a reason outside the model. */
  datatype WriteFaults = WriteFaults(create: bool, get: bool, update: bool)

  /**
   * The outcome of every call a step may make. A failed call has no effect; `reflect` gives the
   * outcome of the query for the path prefix it is asked with.
   */
  datatype Faults = Faults(
    service: WriteFaults, deleteService: bool,
    ingress: WriteFaults, deleteIngress: bool,
    reflect: string -> Option<Reflection>,
    encode: bool,
    filter: WriteFaults, deleteFilter: bool)

  /** The operator's cache and gauge with the resources of the cluster. */
  datatype State = State(
    active: map<string, ActiveEntry>,
    filters: map<Id, EnvoyFilter>,
    services: map<Id, TempService>,
    ingresses: map<Id, TempIngress>,
    gauge: int)

  function NewService(rs: ReplicaSet): TempService {
    TempService(GrpcPort(rs))
  }

  function NewIngress(rs: ReplicaSet): TempIngress {
    TempIngress(rs.name + ".local", rs.name, GrpcPort(rs))
  }

  /** Whether create, or else get and update, puts the resource into the cluster. */
  predicate Writes<T>(items: map<Id, T>, id: Id, f: WriteFaults) {
    !f.create && (id in items ==> !f.get && !f.update)
  }

  function PathPrefix(c: Config, rs: ReplicaSet): string {
    var own := Annotation(rs.annotations, PREFIX);
    if own == "" then c.httpPathPrefix else own
  }

  /** The services that go into the filter; None when the query fails or the selection panics. */
  ghost function Reflected(c: Config, rs: ReplicaSet, f: Faults): Option<EnvoyFilter> {
    match f.reflect(PathPrefix(c, rs))
    case None => None
    case Some(r) =>
      match Filtered(r.services, Annotation(rs.annotations, EXCLUDE), Annotation(rs.annotations, INCLUDE))
      case None => None
      case Some(services) => Some(NewEnvoyFilter(rs, r.protoset, services, c.version))
  }

  predicate ServiceTaken(s: State, rs: ReplicaSet, f: Faults) {
    Writes(s.services, ResourceId(rs), f.service)
  }

  predicate IngressTaken(c: Config, s: State, rs: ReplicaSet, f: Faults) {
    ServiceTaken(s, rs, f) && c.useIngress && Writes(s.ingresses, ResourceId(rs), f.ingress)
  }

  ghost predicate UpsertOk(c: Config, s: State, rs: ReplicaSet, f: Faults) {
    && ServiceTaken(s, rs, f)
    && (c.useIngress ==> IngressTaken(c, s, rs, f))
    && Reflected(c, rs, f).Some?
    && !f.encode
    && Writes(s.filters, FilterId(rs), f.filter)
  }

  /** A temporary resource after its use: gone, unless its deletion failed. */
  function Dropped<T>(items: map<Id, T>, id: Id, x: T, taken: bool, fault: bool): map<Id, T> {
    if !taken then items else if fault then items[id := x] else items - {id}
  }

  lemma MapAddRemove<T>(m: map<Id, T>, i: Id, x: T)
    ensures m[i := x] - {i} == m - {i}
  {
  }

  ghost function AfterUpsert(c: Config, s: State, rs: ReplicaSet, f: Faults): State {
    var id := ResourceId(rs);
    var ok := UpsertOk(c, s, rs, f);
    State(
      s.active,
      if ok then s.filters[FilterId(rs) := Reflected(c, rs, f).value] else s.filters,
      Dropped(s.services, id, NewService(rs), ServiceTaken(s, rs, f), f.deleteService),
      Dropped(s.ingresses, id, NewIngress(rs), IngressTaken(c, s, rs, f), f.deleteIngress),
      if ok && FilterId(rs) !in s.filters then s.gauge + 1 else s.gauge)
  }

  /** A delete that fails leaves filter and gauge; one that finds nothing still lowers the gauge. */
  function AfterDelete(s: State, rs: ReplicaSet, f: Faults): State {
    if f.deleteFilter then s else s.(filters := s.filters - {FilterId(rs)}, gauge := s.gauge - 1)
  }

  predicate ShouldProcess(active: map<string, ActiveEntry>, rs: ReplicaSet) {
    var key := DeployKey(rs);
    && rs.readyReplicas != 0
    && if key in active then
         DeployRevision(rs) != 0 && DeployRevision(rs) >= active[key].revision && active[key] != NewActiveEntry(rs)
       else
         GrpcPort(rs) != 0
  }

  predicate Deletes(s: State, rs: ReplicaSet) {
    ShouldProcess(s.active, rs) && GrpcPort(rs) == 0
  }

  ghost predicate Upserts(c: Config, s: State, rs: ReplicaSet, f: Faults) {
    ShouldProcess(s.active, rs) && GrpcPort(rs) != 0 && UpsertOk(c, s, rs, f)
  }

  /** One event, processed from lock to unlock. */
  ghost function Next(c: Config, s: State, rs: ReplicaSet, f: Faults): State {
    var key := DeployKey(rs);
    if !ShouldProcess(s.active, rs) then s
    else if GrpcPort(rs) == 0 then AfterDelete(s, rs, f).(active := s.active - {key})
    else if UpsertOk(c, s, rs, f) then AfterUpsert(c, s, rs, f).(active := s.active[key := NewActiveEntry(rs)])
    else AfterUpsert(c, s, rs, f)
  }

  /**
   * Temporary resources are bracketed: whatever calls fail, what is there afterwards was there
   * before, with the same content, unless a delete failed on a resource that had been taken; and
   * the only resource that can be missing is the one of this replica set, when it was taken over.
   */
  lemma TemporariesBracketed(c: Config, s: State, rs: ReplicaSet, f: Faults)
    ensures var t, id := AfterUpsert(c, s, rs, f), ResourceId(rs);
      && (forall x | x in t.services && (x != id || !f.deleteService) :: x in s.services && t.services[x] == s.services[x])
      && (forall x | x in s.services && x != id :: x in t.services)
      && (forall x | x in t.ingresses && (x != id || !f.deleteIngress) :: x in s.ingresses && t.ingresses[x] == s.ingresses[x])
      && (forall x | x in s.ingresses && x != id :: x in t.ingresses)
      && (ServiceTaken(s, rs, f) ==> (id in t.services <==> f.deleteService))
      && (IngressTaken(c, s, rs, f) ==> (id in t.ingresses <==> f.deleteIngress))
      && (!ServiceTaken(s, rs, f) ==> t.services == s.services && t.ingresses == s.ingresses)
    ensures !UpsertOk(c, s, rs, f) ==> AfterUpsert(c, s, rs, f).filters == s.filters
  {
  }

  /** A delete that is not refused lowers the gauge, also for a filter that is not there; a refused one does nothing. */
  lemma DeleteCounts(s: State, rs: ReplicaSet, f: Faults)
    ensures AfterDelete(s, rs, f).gauge == s.gauge - if f.deleteFilter then 0 else 1
    ensures FilterId(rs) in AfterDelete(s, rs, f).filters <==> f.deleteFilter && FilterId(rs) in s.filters
    ensures forall id | id != FilterId(rs) :: Lookup(AfterDelete(s, rs, f).filters, id) == Lookup(s.filters, id)
    ensures AfterDelete(s, rs, f).active == s.active
  {
  }

  /** An event of a deployment that is not cached is processed exactly if it is ready and names a port. */
  lemma UncachedIff(active: map<string, ActiveEntry>, rs: ReplicaSet)
    requires DeployKey(rs) !in active
    ensures ShouldProcess(active, rs) <==> rs.readyReplicas != 0 && GrpcPort(rs) != 0
  {
  }

  /** The Service carries the port of the event; the Ingress leads to the Service of the same name, at that port. */
  lemma TemporariesLead(rs: ReplicaSet)
    ensures ResourceId(rs) == Id(rs.namespace, rs.name)
    ensures NewService(rs).port == NewIngress(rs).port == GrpcPort(rs)
    ensures NewIngress(rs).backend == ResourceId(rs).name && NewIngress(rs).host == rs.name + ".local"
  {
  }

  /** The prefix a server is queried with: the replica set's own, and only without one the operator's. */
  lemma OwnPrefixDecides(c: Config, rs: ReplicaSet, f: Faults)
    ensures var own := Annotation(rs.annotations, "transflect.cash.squareup.com/http-path-prefix");
      var answer := f.reflect(if own != "" then own else c.httpPathPrefix);
      && (answer.None? ==> Reflected(c, rs, f).None?)
      && (Reflected(c, rs, f).Some? ==> answer.Some? && Reflected(c, rs, f).value.protoset == answer.value.protoset)
  {
  }

  /** What an upsert needs: every call that it makes, in the order in which it makes them. */
  lemma UpsertNeeds(c: Config, s: State, rs: ReplicaSet, f: Faults)
    ensures var own := Annotation(rs.annotations, "transflect.cash.squareup.com/http-path-prefix");
      var answer := f.reflect(if own != "" then own else c.httpPathPrefix);
      UpsertOk(c, s, rs, f) <==>
        && !f.service.create && (ResourceId(rs) in s.services ==> !f.service.get && !f.service.update)
        && (c.useIngress ==> !f.ingress.create && (ResourceId(rs) in s.ingresses ==> !f.ingress.get && !f.ingress.update))
        && answer.Some?
        && Filtered(answer.value.services,
             Annotation(rs.annotations, "transflect.cash.squareup.com/exclude-grpc-services"),
             Annotation(rs.annotations, "transflect.cash.squareup.com/include-grpc-services")).Some?
        && !f.encode
        && !f.filter.create && (FilterId(rs) in s.filters ==> !f.filter.get && !f.filter.update)
  {
  }
}
