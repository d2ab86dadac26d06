/** The operator as an object: cache, gauge and locks in its fields, the cluster behind API calls. */
module Operators {
  import opened Prelude
  import opened ServiceFilter
  import opened Objects
  import opened MutexMaps
  import opened Reconcile

  datatype ApiError = NoError | AlreadyExists | NotFound | Unavailable

  /** One kind of cluster resource behind its API; a call that `fails` has no effect. */
  class Resources<T> {
    var items: map<Id, T>

    constructor (items: map<Id, T>)
      ensures this.items == items
    {
      this.items := items;
    }

    method Create(id: Id, x: T, fails: bool) returns (e: ApiError)
      modifies this
      ensures e == if fails then Unavailable else if id in old(items) then AlreadyExists else NoError
      ensures items == if e.NoError? then old(items)[id := x] else old(items)
    {
      if fails {
        return Unavailable;
      }
      if id in items {
        return AlreadyExists;
      }
      items := items[id := x];
      return NoError;
    }

    method Get(id: Id, fails: bool) returns (e: ApiError)
      ensures e == if fails then Unavailable else if id in items then NoError else NotFound
    {
      e := if fails then Unavailable else if id in items then NoError else NotFound;
    }

    method Update(id: Id, x: T, fails: bool) returns (e: ApiError)
      modifies this
      ensures e == if fails then Unavailable else if id in old(items) then NoError else NotFound
      ensures items == if e.NoError? then old(items)[id := x] else old(items)
    {
      e := Get(id, fails);
      if e.NoError? {
        items := items[id := x];
      }
    }

    method Delete(id: Id, fails: bool) returns (e: ApiError)
      modifies this
      ensures e == if fails then Unavailable else if id in old(items) then NoError else NotFound
      ensures items == if e.NoError? then old(items) - {id} else old(items)
    {
      e := Get(id, fails);
      if e.NoError? {
        items := items - {id};
      }
    }

    /** Create, or get and update what is there already. */
    method CreateOrUpdate(id: Id, x: T, f: WriteFaults) returns (ok: bool, created: bool)
      modifies this
      ensures ok <==> Writes(old(items), id, f)
      ensures items == if ok then old(items)[id := x] else old(items)
      ensures created <==> ok && id !in old(items)
    {
      var e := Create(id, x, f.create);
      if e.NoError? {
        return true, true;
      }
      if !e.AlreadyExists? {
        return false, false;
      }
      e := Get(id, f.get);
      if !e.NoError? {
        return false, false;
      }
      e := Update(id, x, f.update);
      return e.NoError?, false;
    }
  }

  class Operator {
    const config: Config
    const filters: Resources<EnvoyFilter>
    const services: Resources<TempService>
    const ingresses: Resources<TempIngress>
    const locker: MutexMap
    var activeState: map<string, ActiveEntry>
    var filtersGauge: int

    constructor (config: Config, filters: Resources<EnvoyFilter>, services: Resources<TempService>, ingresses: Resources<TempIngress>, locker: MutexMap)
      requires filters as object != services as object && filters as object != ingresses as object && services as object != ingresses as object
      ensures Valid()
      ensures View() == State(map[], filters.items, services.items, ingresses.items, 0)
    {
      this.config, this.filters, this.services, this.ingresses, this.locker := config, filters, services, ingresses, locker;
      activeState, filtersGauge := map[], 0;
    }

    /** The three kinds of resources are kept apart. */
    ghost predicate Valid() {
      && filters as object != services as object
      && filters as object != ingresses as object
      && services as object != ingresses as object
    }

    ghost function View(): State
      reads this, filters, services, ingresses
    {
      State(activeState, filters.items, services.items, ingresses.items, filtersGauge)
    }

    method CreateService(rs: ReplicaSet, f: Faults) returns (ok: bool)
      requires Valid()
      modifies services
      ensures ok <==> ServiceTaken(old(View()), rs, f)
      ensures View() == if ok then old(View()).(services := old(services.items)[ResourceId(rs) := NewService(rs)]) else old(View())
    {
      var created;
      ok, created := services.CreateOrUpdate(ResourceId(rs), NewService(rs), f.service);
    }

    method CreateIngress(rs: ReplicaSet, f: Faults) returns (ok: bool)
      requires Valid()
      modifies ingresses
      ensures ok <==> Writes(old(ingresses.items), ResourceId(rs), f.ingress)
      ensures View() == if ok then old(View()).(ingresses := old(ingresses.items)[ResourceId(rs) := NewIngress(rs)]) else old(View())
    {
      var created;
      ok, created := ingresses.CreateOrUpdate(ResourceId(rs), NewIngress(rs), f.ingress);
    }

    method UpsertEnvoyFilter(filter: EnvoyFilter, rs: ReplicaSet, f: Faults) returns (ok: bool)
      requires Valid()
      modifies filters, this`filtersGauge
      ensures ok <==> !f.encode && Writes(old(filters.items), FilterId(rs), f.filter)
      ensures View() == old(View()).(
        filters := if ok then old(filters.items)[FilterId(rs) := filter] else old(filters.items),
        gauge := if ok && FilterId(rs) !in old(filters.items) then old(filtersGauge) + 1 else old(filtersGauge))
    {
      if f.encode {
        return false;
      }
      var created;
      ok, created := filters.CreateOrUpdate(FilterId(rs), filter, f.filter);
      if created {
        filtersGauge := filtersGauge + 1;
      }
    }

    /** The query and the filter, between the creation of the temporary resources and their deletion. */
    method QueryAndWrite(rs: ReplicaSet, f: Faults) returns (ok: bool)
      requires Valid()
      modifies filters, this`filtersGauge
      ensures ok <==> Reflected(config, rs, f).Some? && !f.encode && Writes(old(filters.items), FilterId(rs), f.filter)
      ensures View() == old(View()).(
        filters := if ok then old(filters.items)[FilterId(rs) := Reflected(config, rs, f).value] else old(filters.items),
        gauge := if ok && FilterId(rs) !in old(filters.items) then old(filtersGauge) + 1 else old(filtersGauge))
    {
      var prefix := Annotation(rs.annotations, PREFIX);
      if prefix == "" {
        prefix := config.httpPathPrefix;
      }
      var answer := f.reflect(prefix);
      if answer.None? {
        return false;
      }
      var selected := FilterGRPCServices(answer.value.services, Annotation(rs.annotations, EXCLUDE), Annotation(rs.annotations, INCLUDE));
      if selected.None? {
        return false;
      }
      ok := UpsertEnvoyFilter(NewEnvoyFilter(rs, answer.value.protoset, selected.value, config.version), rs, f);
    }

    /** The deferred deletions run on every way out, a panic included. */
    method UpsertFilter(rs: ReplicaSet, f: Faults) returns (ok: bool)
      requires Valid()
      modifies filters, services, ingresses, this`filtersGauge
      ensures ok <==> UpsertOk(config, old(View()), rs, f)
      ensures View() == AfterUpsert(config, old(View()), rs, f)
    {
      ok := CreateService(rs, f);
      if !ok {
        return;
      }
      if config.useIngress {
        ok := UseIngress(rs, f);
      } else {
        ok := QueryAndWrite(rs, f);
      }
      MapAddRemove(old(services.items), ResourceId(rs), NewService(rs));
      var _ := services.Delete(ResourceId(rs), f.deleteService);
    }

    method UseIngress(rs: ReplicaSet, f: Faults) returns (ok: bool)
      requires Valid()
      modifies filters, ingresses, this`filtersGauge
      ensures ok <==>
        && Writes(old(ingresses.items), ResourceId(rs), f.ingress)
        && Reflected(config, rs, f).Some? && !f.encode && Writes(old(filters.items), FilterId(rs), f.filter)
      ensures View() == old(View()).(
        filters := if ok then old(filters.items)[FilterId(rs) := Reflected(config, rs, f).value] else old(filters.items),
        ingresses := Dropped(old(ingresses.items), ResourceId(rs), NewIngress(rs),
          Writes(old(ingresses.items), ResourceId(rs), f.ingress), f.deleteIngress),
        gauge := if ok && FilterId(rs) !in old(filters.items) then old(filtersGauge) + 1 else old(filtersGauge))
    {
      ok := CreateIngress(rs, f);
      if ok {
        ok := QueryAndWrite(rs, f);
        MapAddRemove(old(ingresses.items), ResourceId(rs), NewIngress(rs));
        var _ := ingresses.Delete(ResourceId(rs), f.deleteIngress);
      }
    }

    method DeleteFilter(rs: ReplicaSet, f: Faults)
      requires Valid()
      modifies filters, this`filtersGauge
      ensures View() == AfterDelete(old(View()), rs, f)
    {
      var e := filters.Delete(FilterId(rs), f.deleteFilter);
      if !e.NoError? && !e.NotFound? {
        return;
      }
      filtersGauge := filtersGauge - 1;
    }

    method ShouldProcessReplicaset(rs: ReplicaSet, deployKey: string) returns (r: bool)
      requires deployKey == DeployKey(rs)
      ensures r <==> ShouldProcess(activeState, rs)
    {
      if rs.readyReplicas == 0 {
        return false;
      }
      var port := GrpcPort(rs);
      var existing := deployKey in activeState;
      if existing {
        var active := activeState[deployKey];
        var revision := DeployRevision(rs);
        if revision == 0 {
          return false;
        }
        if revision < active.revision {
          return false;
        }
        if active == NewActiveEntry(rs) {
          return false;
        }
      }
      if !existing && port == 0 {
        return false;
      }
      return true;
    }

    /** The lock entry goes while its mutex is still held. */
    method ProcessReplicaset(rs: ReplicaSet, deployKey: string, f: Faults)
      requires Valid() && deployKey == DeployKey(rs) && ShouldProcess(activeState, rs)
      modifies this, filters, services, ingresses, locker
      ensures View() == Next(config, old(View()), rs, f)
      ensures locker.View() == if Deletes(old(View()), rs) then Removed(old(locker.View()), deployKey) else old(locker.View())
    {
      if GrpcPort(rs) == 0 {
        DeleteFilter(rs, f);
        activeState := activeState - {deployKey};
        locker.Remove(deployKey);
        return;
      }
      var ok := UpsertFilter(rs, f);
      if !ok {
        return;
      }
      activeState := activeState[deployKey := NewActiveEntry(rs)];
    }

    /** One event, by a worker that no other worker gets in the way of. */
    method ProcessNext(w: nat, rs: ReplicaSet, f: Faults)
      requires Valid() && Free(locker.View(), DeployKey(rs))
      modifies this, filters, services, ingresses, locker
      ensures View() == Next(config, old(View()), rs, f)
      ensures Free(locker.View(), DeployKey(rs))
      ensures locker.View() == Passed(old(locker.View()), w, DeployKey(rs), Deletes(old(View()), rs))
    {
      var deployKey := DeployKey(rs);
      locker.Lock(w, deployKey);
      var process := ShouldProcessReplicaset(rs, deployKey);
      if process {
        ProcessReplicaset(rs, deployKey, f);
      }
      locker.Unlock(deployKey);
    }

    method CleanupDeployment(namespace: string, name: string)
      modifies this`activeState, locker
      ensures activeState == old(activeState) - {MetaNamespaceKey(namespace, name)}
      ensures locker.View() == Removed(old(locker.View()), MetaNamespaceKey(namespace, name))
    {
      var key := MetaNamespaceKey(namespace, name);
      activeState := activeState - {key};
      locker.Remove(key);
    }

    /**
     * Lists the filters until a call succeeds, at most twelve times, and reads the one page it
     * brings: the continue token is never advanced.
     */
    method SyncActive(lists: nat -> Option<seq<EnvoyFilter>>) returns (ok: bool)
      modifies this
      ensures ok <==> exists i | 0 <= i < LIST_CALLS :: lists(i).Some?
      ensures ok ==> exists i | 0 <= i < LIST_CALLS ::
        && lists(i).Some? && (forall j | 0 <= j < i :: lists(j).None?)
        && activeState == old(activeState) + Merged(EntriesOf(lists(i).value))
        && filtersGauge == Readables(EntriesOf(lists(i).value))
      ensures !ok ==> activeState == old(activeState) && filtersGauge == old(filtersGauge)
    {
      var attempt := 0;
      while true
        invariant attempt < LIST_CALLS && forall j | 0 <= j < attempt :: lists(j).None?
        invariant activeState == old(activeState) && filtersGauge == old(filtersGauge)
        decreases LIST_CALLS - attempt
      {
        var list := lists(attempt);
        if list.None? {
          if attempt > 10 {
            return false;
          }
          attempt := attempt + 1;
          continue;
        }
        SyncPage(list.value);
        return true;
      }
    }

    /** One page of listed filters into cache and gauge; filters that cannot be read are skipped. */
    method SyncPage(page: seq<EnvoyFilter>)
      modifies this
      ensures activeState == old(activeState) + Merged(EntriesOf(page))
      ensures filtersGauge == Readables(EntriesOf(page))
    {
      ghost var was, entries := activeState, EntriesOf(page);
      var activeCnt := 0;
      for i := 0 to |page|
        invariant activeState == was + Merged(entries[..i])
        invariant activeCnt == Readables(entries[..i])
      {
        assert entries[..i + 1][..i] == entries[..i];
        var entry := GetActiveEntry(page[i]);
        if entry.None? {
          continue;
        }
        activeState := activeState[entry.value.0 := entry.value.1];
        activeCnt := activeCnt + 1;
      }
      assert entries[..|page|] == entries;
      filtersGauge := activeCnt;
    }
  }

  /** After the twelfth failure in a row the list call is given up. */
  const LIST_CALLS: nat := 12

  function EntriesOf(page: seq<EnvoyFilter>): seq<Option<(string, ActiveEntry)>> {
    seq(|page|, i requires 0 <= i < |page| => GetActiveEntry(page[i]))
  }

  /** The cache that listed entries make; of two entries with one key the later counts. */
  function Merged(entries: seq<Option<(string, ActiveEntry)>>): map<string, ActiveEntry> {
    if entries == [] then map[]
    else
      var rest := Merged(entries[..|entries| - 1]);
      match entries[|entries| - 1]
      case None => rest
      case Some(e) => rest[e.0 := e.1]
  }

  function Readables(entries: seq<Option<(string, ActiveEntry)>>): nat {
    if entries == [] then 0
    else Readables(entries[..|entries| - 1]) + if entries[|entries| - 1].Some? then 1 else 0
  }

  ghost predicate HasKey(e: Option<(string, ActiveEntry)>, k: string) {
    e.Some? && e.value.0 == k
  }

  /** The last entry of the key. */
  ghost predicate LastWith(entries: seq<Option<(string, ActiveEntry)>>, i: nat, k: string) {
    i < |entries| && HasKey(entries[i], k) && forall j | i < j < |entries| :: !HasKey(entries[j], k)
  }

  /** Of several listed entries with one key the last counts. */
  lemma {:induction false} MergedLast(entries: seq<Option<(string, ActiveEntry)>>, k: string, i: nat)
    requires LastWith(entries, i, k)
    ensures Lookup(Merged(entries), k) == Some(entries[i].value.1)
  {
    var n := |entries| - 1;
    if i < n {
      assert !HasKey(entries[n], k) && LastWith(entries[..n], i, k);
      MergedLast(entries[..n], k, i);
    }
  }

  /** A key that no listed entry has is not in the cache. */
  lemma {:induction false} MergedNone(entries: seq<Option<(string, ActiveEntry)>>, k: string)
    requires forall j | 0 <= j < |entries| :: !HasKey(entries[j], k)
    ensures k !in Merged(entries)
  {
    if entries != [] {
      var n := |entries| - 1;
      assert !HasKey(entries[n], k);
      MergedNone(entries[..n], k);
    }
  }
}
