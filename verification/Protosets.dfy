/** From the server to the filter: what a collection brings back is what every written filter holds. */
module Protosets {
  import opened Prelude
  import opened Descriptors
  import opened Servers
  import opened Collector
  import G = Gathering
  import opened ServiceFilter
  import opened Objects
  import opened Reconcile
  import Runs

  /** The query of an upsert: the collection, its files as values. */
  method Reflect(server: Server, prefix: string) returns (r: Option<Reflection>)
    requires NoTableCycle(server, prefix)
    ensures r.Some? <==> server.services.Some? && G.Gather(server, server.services.value, prefix).Success?
    ensures r.Some? ==> Answered(server, prefix, r.value)
  {
    var set' := GetFileDescriptorSet(server, prefix);
    if set'.Failure? {
      return None;
    }
    var protoset := AsValues(set'.value.0);
    r := Some(Reflection(protoset, set'.value.1));
  }

  method AsValues(list: seq<FileDescriptor>) returns (r: seq<FileRecord>)
    ensures r == RecordsOf(list)
  {
    r := [];
    for i := 0 to |list|
      invariant |r| == i && forall k | 0 <= k < i :: r[k] == list[k].Record()
    {
      r := r + [list[i].Record()];
    }
  }

  /** The outcome of a collection from this server, asked with the prefix. */
  ghost predicate Answered(server: Server, prefix: string, r: Reflection) {
    server.services == Some(r.services) && Collected(server, prefix, r.services, r.protoset)
  }

  /** The queries of an event go to this server. */
  ghost predicate Asked(f: Faults, server: Server) {
    forall prefix | f.reflect(prefix).Some? :: Answered(server, prefix, f.reflect(prefix).value)
  }

  /** Each event with the server behind its replica set. */
  ghost predicate Behind(acts: seq<Runs.Action>, servers: seq<Server>) {
    |servers| == |acts| && forall i | 0 <= i < |acts| && acts[i].Event? :: Asked(acts[i].faults, servers[i])
  }

  /**
   * The filter is the one this event writes: the files collected from its server with its prefix, and
   * of that server's services those that its annotations select.
   */
  ghost predicate WrittenBy(c: Config, a: Runs.Action, server: Server, id: Id, filter: EnvoyFilter) {
    && a.Event? && FilterId(a.rs) == id && server.services.Some?
    && Collected(server, PathPrefix(c, a.rs), server.services.value, filter.protoset)
    && Filtered(server.services.value, Annotation(a.rs.annotations, EXCLUDE), Annotation(a.rs.annotations, INCLUDE)) == Some(filter.services)
    && filter == NewEnvoyFilter(a.rs, filter.protoset, filter.services, c.version)
  }

  ghost predicate Traced(c: Config, s: State, acts: seq<Runs.Action>, servers: seq<Server>, id: Id, filter: EnvoyFilter)
    requires |servers| == |acts|
  {
    Lookup(s.filters, id) == Some(filter) || exists i | 0 <= i < |acts| :: WrittenBy(c, acts[i], servers[i], id, filter)
  }

  lemma UpsertWrites(c: Config, rs: ReplicaSet, f: Faults, server: Server)
    requires Asked(f, server) && Reflected(c, rs, f).Some?
    ensures WrittenBy(c, Runs.Event(rs, f), server, FilterId(rs), Reflected(c, rs, f).value)
  {
    assert Answered(server, PathPrefix(c, rs), f.reflect(PathPrefix(c, rs)).value);
  }

  lemma StepWrites(c: Config, s: State, a: Runs.Action, server: Server, id: Id)
    requires (a.Event? ==> Asked(a.faults, server)) && id in Runs.Step(c, s, a).filters
    ensures var filter := Runs.Step(c, s, a).filters[id];
      Lookup(s.filters, id) == Some(filter) || WrittenBy(c, a, server, id, filter)
  {
    if a.Event? {
      Runs.StepTakes(c, s, a.rs, a.faults);
      if Upserts(c, s, a.rs, a.faults) {
        UpsertWrites(c, a.rs, a.faults, server);
      }
    }
  }

  lemma TracedLonger(c: Config, s: State, acts: seq<Runs.Action>, servers: seq<Server>, n: nat, id: Id, filter: EnvoyFilter)
    requires n <= |acts| == |servers| && Traced(c, s, acts[..n], servers[..n], id, filter)
    ensures Traced(c, s, acts, servers, id, filter)
  {
    if i :| 0 <= i < n && WrittenBy(c, acts[..n][i], servers[..n][i], id, filter) {
      assert WrittenBy(c, acts[i], servers[i], id, filter);
    }
  }

  /**
   * From the server to the filter: after any run every filter is the unchanged one of the start, or
   * was written by an event of the run from what its own server was collected for, with its own prefix
   * and its own selection of services.
   */
  lemma {:induction false} FiltersTraced(c: Config, s: State, acts: seq<Runs.Action>, servers: seq<Server>, id: Id)
    requires Behind(acts, servers) && id in Runs.Run(c, s, acts).filters
    ensures Traced(c, s, acts, servers, id, Runs.Run(c, s, acts).filters[id])
  {
    if acts != [] {
      var n := |acts| - 1;
      var t, filter := Runs.Run(c, s, acts[..n]), Runs.Run(c, s, acts).filters[id];
      StepWrites(c, t, acts[n], servers[n], id);
      if Lookup(t.filters, id) == Some(filter) {
        FiltersTraced(c, s, acts[..n], servers[..n], id);
        TracedLonger(c, s, acts, servers, n, id, filter);
      }
    }
  }

  /**
   * What that says of the files: in imports-first order, none twice, every file of the services'
   * answers there as it was first sent with its rules spelled out, every import there unless it was
   * asked for and answered by files of other names.
   */
  ghost predicate OrderedAndRuled(server: Server, prefix: string, list: seq<FileRecord>)
    requires server.services.Some?
  {
    var roots := SymbolNames(server, server.services.value);
    && InOrder(list)
    && roots <= RecordNames(list)
    && (forall f | f in list && f.name in roots :: ServiceFile(server, prefix, server.services.value, f))
    && (forall f | f in list && f.name !in roots :: ImportedFile(server, f))
    && forall i, d | 0 <= i < |list| && d in list[i].dependency :: Earlier(list, i, d) || AnsweredWithout(server, d)
  }

  /** The files and the services of a written filter, in terms of its server and of the annotations by their names. */
  lemma WrittenIsOrdered(c: Config, a: Runs.Action, server: Server, id: Id, filter: EnvoyFilter)
    requires WrittenBy(c, a, server, id, filter)
    ensures var own := Annotation(a.rs.annotations, "transflect.cash.squareup.com/http-path-prefix");
      OrderedAndRuled(server, if own != "" then own else c.httpPathPrefix, filter.protoset)
    ensures
      var excluding := Annotation(a.rs.annotations, "transflect.cash.squareup.com/exclude-grpc-services");
      var including := Annotation(a.rs.annotations, "transflect.cash.squareup.com/include-grpc-services");
      var services := server.services.value;
      && (excluding == "" && including == "" ==> filter.services == services)
      && (excluding != "" ==> Selected(services, filter.services, s => s !in Entries(excluding)))
      && (excluding == "" && including != "" ==> Selected(services, filter.services, s => s in Entries(including)))
  {
    CollectedIs(server, PathPrefix(c, a.rs), filter.protoset);
    SelectionIs(server.services.value, Annotation(a.rs.annotations, EXCLUDE), Annotation(a.rs.annotations, INCLUDE), filter.services);
  }

  lemma CollectedIs(server: Server, prefix: string, list: seq<FileRecord>)
    requires server.services.Some? && Collected(server, prefix, server.services.value, list)
    ensures OrderedAndRuled(server, prefix, list)
  {
    forall f | f in list
      ensures if f.name in SymbolNames(server, server.services.value) then ServiceFile(server, prefix, server.services.value, f) else ImportedFile(server, f)
    {
      assert WellCollected(server, prefix, server.services.value, list, f);
    }
  }
}
