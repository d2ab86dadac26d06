/** File descriptors as the reflection server sends them, and the HTTP rules put on their methods. */
module Descriptors {
  import opened Prelude

  /** The part of google/api/http.proto's HttpRule that is written or looked at. */
  datatype HttpRule = HttpRule(verb: string, path: string, body: string)
  datatype Method = Method(name: string, rule: Option<HttpRule>)
  datatype Service = Service(name: string, methods: seq<Method>)

  /** A decoded FileDescriptorProto as a value. */
  datatype FileRecord = FileRecord(name: string, pkg: string, dependency: seq<string>, services: seq<Service>)

  /** A FileDescriptorProto in memory: only its method options are ever changed. */
  class FileDescriptor {
    const name: string
    const pkg: string
    const dependency: seq<string>
    var services: seq<Service>

    constructor (r: FileRecord)
      ensures Record() == r
      ensures name == r.name && dependency == r.dependency
    {
      name, pkg, dependency, services := r.name, r.pkg, r.dependency, r.services;
    }

    function Record(): FileRecord
      reads this
    {
      FileRecord(name, pkg, dependency, services)
    }
  }

  /** The generated path "<prefix>/<pkg>.<service>/<method>". */
  function HttpPath(prefix: string, pkg: string, service: string, m: string): string {
    prefix + "/" + pkg + "." + service + "/" + m
  }

  function AnnotatedMethod(prefix: string, pkg: string, service: string, m: Method): Method {
    if m.rule.Some? then m
    else m.(rule := Some(HttpRule("POST", HttpPath(prefix, pkg, service, m.name), "*")))
  }

  function AnnotatedService(prefix: string, pkg: string, s: Service): Service {
    s.(methods := seq(|s.methods|, j requires 0 <= j < |s.methods| => AnnotatedMethod(prefix, pkg, s.name, s.methods[j])))
  }

  function Annotated(prefix: string, r: FileRecord): FileRecord {
    r.(services := seq(|r.services|, i requires 0 <= i < |r.services| => AnnotatedService(prefix, r.pkg, r.services[i])))
  }

  /** Gives every method without an HTTP rule a generated one, in place. */
  method AnnotateHTTPRule(fd: FileDescriptor, prefix: string)
    modifies fd`services
    ensures fd.Record() == Annotated(prefix, old(fd.Record()))
  {
    ghost var was := fd.services;
    ghost var goal := Annotated(prefix, fd.Record()).services;
    for i := 0 to |fd.services|
      invariant |fd.services| == |was|
      invariant forall k | 0 <= k < i :: fd.services[k] == goal[k]
      invariant forall k | i <= k < |was| :: fd.services[k] == was[k]
    {
      var service := fd.services[i];
      ghost var before := fd.services;
      for j := 0 to |service.methods|
        invariant |fd.services| == |was|
        invariant forall k | 0 <= k < |was| && k != i :: fd.services[k] == before[k]
        invariant fd.services[i].name == service.name && |fd.services[i].methods| == |service.methods|
        invariant forall k | 0 <= k < j :: fd.services[i].methods[k] == AnnotatedMethod(prefix, fd.pkg, service.name, service.methods[k])
        invariant forall k | j <= k < |service.methods| :: fd.services[i].methods[k] == service.methods[k]
      {
        var m := fd.services[i].methods[j];
        if m.rule.Some? {
          continue;
        }
        var path := prefix + "/" + fd.pkg + "." + service.name + "/" + m.name;
        var ruled := m.(rule := Some(HttpRule("POST", path, "*")));
        fd.services := fd.services[i := Service(service.name, fd.services[i].methods[j := ruled])];
      }
      assert fd.services[i].methods == goal[i].methods;
    }
    assert fd.services == goal;
  }

  ghost predicate AllRuled(r: FileRecord) {
    forall i, j | 0 <= i < |r.services| && 0 <= j < |r.services[i].methods| :: r.services[i].methods[j].rule.Some?
  }

  /** Same file, services and methods; a rule that was there is still the same rule. */
  ghost predicate OnlyAddsRules(r: FileRecord, r': FileRecord) {
    r'.name == r.name && r'.pkg == r.pkg && r'.dependency == r.dependency && |r'.services| == |r.services| &&
    forall i | 0 <= i < |r.services| ::
      r'.services[i].name == r.services[i].name && |r'.services[i].methods| == |r.services[i].methods| &&
      forall j | 0 <= j < |r.services[i].methods| ::
        r'.services[i].methods[j].name == r.services[i].methods[j].name &&
        (r.services[i].methods[j].rule.Some? ==> r'.services[i].methods[j].rule == r.services[i].methods[j].rule)
  }

  lemma AnnotationComplete(prefix: string, r: FileRecord)
    ensures AllRuled(Annotated(prefix, r))
    ensures OnlyAddsRules(r, Annotated(prefix, r))
  {
  }

  /**
   * `f` is `r` with a rule on every method: the one that was there, or POST with the whole message as
   * the body, below the prefix at the package, service and method.
   */
  ghost predicate RuledAs(prefix: string, r: FileRecord, f: FileRecord) {
    f.name == r.name && f.pkg == r.pkg && f.dependency == r.dependency && |f.services| == |r.services| &&
    forall i | 0 <= i < |r.services| ::
      f.services[i].name == r.services[i].name && |f.services[i].methods| == |r.services[i].methods| &&
      forall j | 0 <= j < |r.services[i].methods| ::
        var before, after := r.services[i].methods[j], f.services[i].methods[j];
        after.name == before.name &&
        after.rule == if before.rule.Some? then before.rule
          else Some(HttpRule("POST", prefix + "/" + r.pkg + "." + r.services[i].name + "/" + before.name, "*"))
  }

  lemma AnnotationIs(prefix: string, r: FileRecord)
    ensures RuledAs(prefix, r, Annotated(prefix, r)) && AllRuled(Annotated(prefix, r))
  {
  }

  /** Annotating changes nothing exactly when every method has a rule already, whatever the prefix. */
  lemma AnnotationFixpoint(prefix: string, r: FileRecord)
    ensures Annotated(prefix, r) == r <==> AllRuled(r)
  {
    var r' := Annotated(prefix, r);
    if AllRuled(r) {
      forall i | 0 <= i < |r.services|
        ensures r'.services[i] == r.services[i]
      {
        assert r'.services[i].methods == r.services[i].methods;
      }
      assert r'.services == r.services;
    } else {
      var i, j :| 0 <= i < |r.services| && 0 <= j < |r.services[i].methods| && r.services[i].methods[j].rule.None?;
      assert r'.services[i].methods[j].rule.Some?;
    }
  }

  /** A second pass, with the same or any other prefix, is silent. */
  lemma AnnotationIdempotent(first: string, second: string, r: FileRecord)
    ensures Annotated(second, Annotated(first, r)) == Annotated(first, r)
  {
    AnnotationComplete(first, r);
    AnnotationFixpoint(second, Annotated(first, r));
  }

  /** For one prefix a generated path names one package, service and method. */
  lemma PathsDistinct(prefix: string, pkg: string, service: string, m: string, pkg': string, service': string, m': string)
    requires '.' !in service && '.' !in service' && '/' !in m && '/' !in m'
    ensures HttpPath(prefix, pkg, service, m) == HttpPath(prefix, pkg', service', m')
      <==> pkg == pkg' && service == service' && m == m'
  {
    if HttpPath(prefix, pkg, service, m) == HttpPath(prefix, pkg', service', m') {
      var head, head' := prefix + "/" + pkg + "." + service, prefix + "/" + pkg' + "." + service';
      SplitAtLast(head, m, head', m', '/');
      SplitAtLast(prefix + "/" + pkg, service, prefix + "/" + pkg', service', '.');
      assert pkg == (prefix + "/" + pkg)[|prefix| + 1..];
      assert pkg' == (prefix + "/" + pkg')[|prefix| + 1..];
    }
  }

  /** Both name conditions are needed: a dotted service or a slashed method gives two readings of one path. */
  lemma PathsCollide()
    ensures HttpPath("", "a", "b.c", "m") == HttpPath("", "a.b", "c", "m")
    ensures HttpPath("", "p", "s", "b.t/m") == HttpPath("", "p.s/b", "t", "m")
  {
    calc {
      HttpPath("", "a", "b.c", "m");
      "/a.b.c/m";
      HttpPath("", "a.b", "c", "m");
    }
    calc {
      HttpPath("", "p", "s", "b.t/m");
      "/p.s/b.t/m";
      HttpPath("", "p.s/b", "t", "m");
    }
  }
}
