/** Replica sets, EnvoyFilters and cache entries, and the names that tie them to a deployment. */
module Objects {
  import opened Prelude
  import opened Descriptors

  const EXCLUDE := "transflect.cash.squareup.com/exclude-grpc-services"
  const INCLUDE := "transflect.cash.squareup.com/include-grpc-services"
  const PREFIX := "transflect.cash.squareup.com/http-path-prefix"
  const PORT := "transflect.cash.squareup.com/port"
  const DEPLOYMENT := "transflect.cash.squareup.com/deployment"
  const REPLICASET := "transflect.cash.squareup.com/replicaset"
  const VERSION := "transflect.cash.squareup.com/version"
  const REVISION := "deployment.kubernetes.io/revision"
  const SUFFIX := "-transflect"

  type Annotations = map<string, string>

  datatype OwnerRef = OwnerRef(kind: string, name: string)

  datatype ReplicaSet = ReplicaSet(
    namespace: string,
    name: string,
    owners: seq<OwnerRef>,
    readyReplicas: int,
    annotations: Annotations)

  /** Namespace and name of a cluster resource. */
  datatype Id = Id(namespace: string, name: string)

  datatype ActiveEntry = ActiveEntry(revision: int, grpcPort: int, excluding: string, including: string, prefix: string)

  datatype EnvoyFilter = EnvoyFilter(
    annotations: Annotations,
    owner: OwnerRef,
    protoset: seq<FileRecord>,
    services: seq<string>)

  function Annotation(a: Annotations, key: string): string {
    if key in a then a[key] else ""
  }

  function Digits(s: string): Option<int> {
    if s == "" then Some(0)
    else
      var last := s[|s| - 1];
      match Digits(s[..|s| - 1])
      case Some(n) => if '0' <= last <= '9' then Some(10 * n + (last as int - '0' as int)) else None
      case None => None
  }

  /** Go's strconv.Atoi: an optional sign, decimal digits, and a value that fits 64 bits. */
  function Atoi(s: string): Option<int> {
    var signed := s != "" && (s[0] == '+' || s[0] == '-');
    var digits := if signed then s[1..] else s;
    if digits == "" then None
    else
      match Digits(digits)
      case None => None
      case Some(n) =>
        var i := if signed && s[0] == '-' then -n else n;
        if -0x8000_0000_0000_0000 <= i < 0x8000_0000_0000_0000 then Some(i) else None
  }

  function GrpcPortStr(s: string): (port: int)
    ensures 0 <= port <= 65535
  {
    match Atoi(s)
    case Some(i) => if i < 0 || i > 65535 then 0 else i
    case None => 0
  }

  function DeployRevisionStr(s: string): (revision: int)
    ensures revision >= 0
  {
    match Atoi(s)
    case Some(i) => if i < 0 then 0 else i
    case None => 0
  }

  predicate AllDigits(s: string) {
    forall i | 0 <= i < |s| :: '0' <= s[i] <= '9'
  }

  /** Digits, at least one, after at most one sign. */
  predicate Numeral(s: string) {
    (s != "" && AllDigits(s)) || (|s| > 1 && (s[0] == '+' || s[0] == '-') && AllDigits(s[1..]))
  }

  /** The usual way to write a number. */
  function Decimal(n: nat): string {
    (if n < 10 then "" else Decimal(n / 10)) + [(n % 10 + '0' as int) as char]
  }

  lemma {:induction false} DigitsAre(s: string)
    ensures Digits(s).Some? <==> AllDigits(s)
    ensures Digits(s).Some? ==> Digits(s).value >= 0
  {
    if s != "" {
      var init := s[..|s| - 1];
      DigitsAre(init);
      assert s == init + [s[|s| - 1]];
    }
  }

  lemma {:induction false} DigitsOfDecimal(n: nat)
    ensures Digits(Decimal(n)) == Some(n) && AllDigits(Decimal(n)) && Decimal(n) != ""
  {
    var d, init := Decimal(n), if n < 10 then "" else Decimal(n / 10);
    if n >= 10 {
      DigitsOfDecimal(n / 10);
    }
    assert d[..|d| - 1] == init && d[|d| - 1] == (n % 10 + '0' as int) as char;
  }

  /** A leading zero changes nothing. */
  lemma {:induction false} LeadingZero(s: string)
    ensures Digits("0" + s) == Digits(s)
  {
    var z := "0" + s;
    if s == "" {
      assert z[..|z| - 1] == "";
    } else {
      assert z[..|z| - 1] == "0" + s[..|s| - 1] && z[|z| - 1] == s[|s| - 1];
      LeadingZero(s[..|s| - 1]);
    }
  }

  lemma AtoiOfDigits(d: string, n: nat)
    requires d != "" && '0' <= d[0] <= '9' && Digits(d) == Some(n)
    ensures Atoi(d) == Atoi("+" + d) == if n < 0x8000_0000_0000_0000 then Some(n) else None
    ensures Atoi("-" + d).Some? ==> Atoi("-" + d).value + n == 0
  {
    assert ("+" + d)[1..] == d && ("-" + d)[1..] == d;
  }

  /** A number written down is read back, as far as it is in range, and is 0 beyond. */
  lemma NumeralKept(n: nat)
    ensures GrpcPortStr(Decimal(n)) == GrpcPortStr("+" + Decimal(n)) == if n <= 65535 then n else 0
    ensures DeployRevisionStr(Decimal(n)) == DeployRevisionStr("+" + Decimal(n)) == if n < 0x8000_0000_0000_0000 then n else 0
    ensures GrpcPortStr("-" + Decimal(n)) == DeployRevisionStr("-" + Decimal(n)) == 0
  {
    DigitsOfDecimal(n);
    AtoiOfDigits(Decimal(n), n);
  }

  /** Exactly the numerals of a value in range are read, as their value; every other text gives 0. */
  lemma ReadExactly(s: string)
    ensures GrpcPortStr(s) != 0 <==> Numeral(s) && Atoi(s).Some? && 0 < Atoi(s).value <= 65535
    ensures DeployRevisionStr(s) != 0 <==> Numeral(s) && Atoi(s).Some? && 0 < Atoi(s).value
    ensures GrpcPortStr(s) != 0 ==> Atoi(s) == Some(GrpcPortStr(s))
    ensures DeployRevisionStr(s) != 0 ==> Atoi(s) == Some(DeployRevisionStr(s))
  {
    DigitsAre(s);
    if s != "" {
      DigitsAre(s[1..]);
    }
  }

  function GrpcPort(rs: ReplicaSet): int {
    GrpcPortStr(Annotation(rs.annotations, PORT))
  }

  function DeployRevision(rs: ReplicaSet): int {
    DeployRevisionStr(Annotation(rs.annotations, REVISION))
  }

  /** The first owner that is a deployment. */
  function GetDeployment(owners: seq<OwnerRef>): Option<OwnerRef> {
    if owners == [] then None
    else if owners[0].kind == "Deployment" then Some(owners[0])
    else GetDeployment(owners[1..])
  }

  /** The cache key of a deployment, and the form in which an EnvoyFilter remembers it. */
  function KeyOf(namespace: string, deployment: string): string {
    if namespace == "" then deployment else namespace + "/" + deployment
  }

  function GetDeploymentKey(rs: ReplicaSet): Option<string> {
    match GetDeployment(rs.owners)
    case Some(d) => Some(KeyOf(rs.namespace, d.name))
    case None => None
  }

  /** `deployKey, _ := getDeploymentKey(rs)`: the empty text without a deployment. */
  function DeployKey(rs: ReplicaSet): string {
    match GetDeploymentKey(rs)
    case Some(key) => key
    case None => ""
  }

  function ResourceId(rs: ReplicaSet): Id {
    Id(rs.namespace, rs.name)
  }

  function EnvoyFilterName(rs: ReplicaSet): string {
    (match GetDeployment(rs.owners) case Some(d) => d.name case None => rs.name) + SUFFIX
  }

  function EnvoyFilterOwner(rs: ReplicaSet): OwnerRef {
    match GetDeployment(rs.owners)
    case Some(d) => d
    case None => OwnerRef("Replicaset", rs.name)
  }

  function FilterId(rs: ReplicaSet): Id {
    Id(rs.namespace, EnvoyFilterName(rs))
  }

  function NewEnvoyFilter(rs: ReplicaSet, protoset: seq<FileRecord>, services: seq<string>, version: string): EnvoyFilter {
    EnvoyFilter(
      map[
        VERSION := version,
        REPLICASET := rs.name,
        DEPLOYMENT := DeployKey(rs),
        PORT := Annotation(rs.annotations, PORT),
        REVISION := Annotation(rs.annotations, REVISION)
      ],
      EnvoyFilterOwner(rs), protoset, services)
  }

  function NewActiveEntry(rs: ReplicaSet): ActiveEntry {
    ActiveEntry(
      DeployRevision(rs), GrpcPort(rs),
      Annotation(rs.annotations, EXCLUDE), Annotation(rs.annotations, INCLUDE), Annotation(rs.annotations, PREFIX))
  }

  function FilterPort(filter: EnvoyFilter): int {
    GrpcPortStr(Annotation(filter.annotations, PORT))
  }

  function FilterRevision(filter: EnvoyFilter): int {
    DeployRevisionStr(Annotation(filter.annotations, REVISION))
  }

  function FilterKey(filter: EnvoyFilter): string {
    Annotation(filter.annotations, DEPLOYMENT)
  }

  /** The entry that a listed filter stands for; None when one of its annotations is unusable. */
  function GetActiveEntry(filter: EnvoyFilter): Option<(string, ActiveEntry)> {
    if FilterKey(filter) == "" || FilterPort(filter) == 0 || FilterRevision(filter) == 0 then None
    else Some((FilterKey(filter), ActiveEntry(FilterRevision(filter), FilterPort(filter), "", "", "")))
  }

  lemma AnnotationKeysDiffer()
    ensures |{VERSION, REPLICASET, DEPLOYMENT, PORT, REVISION}| == 5
  {
    assert VERSION[29] == 'v' && REPLICASET[29] == 'r' && DEPLOYMENT[29] == 'd' && PORT[29] == 'p';
    assert REVISION[0] == 'd' && VERSION[0] == REPLICASET[0] == DEPLOYMENT[0] == PORT[0] == 't';
  }

  /**
   * Port, revision and deployment survive the way through an EnvoyFilter;
   * the include, exclude and prefix annotations do not.
   */
  lemma ListedEntry(rs: ReplicaSet, protoset: seq<FileRecord>, services: seq<string>, version: string)
    ensures var f := NewEnvoyFilter(rs, protoset, services, version);
      && FilterKey(f) == DeployKey(rs) && FilterPort(f) == GrpcPort(rs) && FilterRevision(f) == DeployRevision(rs)
      && (GetActiveEntry(f).Some? <==> DeployKey(rs) != "" && GrpcPort(rs) != 0 && DeployRevision(rs) != 0)
      && (GetActiveEntry(f).Some? ==>
            GetActiveEntry(f).value == (DeployKey(rs), NewActiveEntry(rs).(excluding := "", including := "", prefix := "")))
  {
    AnnotationKeysDiffer();
  }

  /** The deployment is the first owner of that kind. */
  lemma {:induction false} DeploymentIsFirst(owners: seq<OwnerRef>)
    ensures GetDeployment(owners).None? <==> forall i | 0 <= i < |owners| :: owners[i].kind != "Deployment"
    ensures GetDeployment(owners).Some? ==> exists i | 0 <= i < |owners| ::
      owners[i] == GetDeployment(owners).value && owners[i].kind == "Deployment" && forall j | 0 <= j < i :: owners[j].kind != "Deployment"
  {
    if owners != [] && owners[0].kind != "Deployment" {
      var rest := owners[1..];
      DeploymentIsFirst(rest);
      assert forall i | 0 <= i < |rest| :: owners[i + 1] == rest[i];
      if GetDeployment(rest).Some? {
        var i :| 0 <= i < |rest| && rest[i] == GetDeployment(rest).value && rest[i].kind == "Deployment" && forall j | 0 <= j < i :: rest[j].kind != "Deployment";
        assert owners[i + 1] == GetDeployment(owners).value && forall j | 0 <= j < i + 1 :: owners[j].kind != "Deployment";
      }
    }
  }

  /** What the filter of a replica set is called, who owns it, and what it is annotated with. */
  lemma FilterIs(rs: ReplicaSet, protoset: seq<FileRecord>, services: seq<string>, version: string)
    ensures var f, d := NewEnvoyFilter(rs, protoset, services, version), GetDeployment(rs.owners);
      && f.protoset == protoset && f.services == services
      && FilterId(rs) == Id(rs.namespace, (if d.Some? then d.value.name else rs.name) + "-transflect")
      && f.owner == (if d.Some? then d.value else OwnerRef("Replicaset", rs.name))
      && f.annotations["transflect.cash.squareup.com/deployment"] == DeployKey(rs)
      && (d.Some? ==> DeployKey(rs) == (if rs.namespace == "" then d.value.name else rs.namespace + "/" + d.value.name))
      && f.annotations["transflect.cash.squareup.com/version"] == version
      && f.annotations["transflect.cash.squareup.com/replicaset"] == rs.name
      && f.annotations["transflect.cash.squareup.com/port"] == Annotation(rs.annotations, "transflect.cash.squareup.com/port")
      && f.annotations["deployment.kubernetes.io/revision"] == Annotation(rs.annotations, "deployment.kubernetes.io/revision")
      && |f.annotations| == 5
  {
    AnnotationKeysDiffer();
    var f := NewEnvoyFilter(rs, protoset, services, version);
    assert f.annotations.Keys == {VERSION, REPLICASET, DEPLOYMENT, PORT, REVISION};
  }

  /** What an entry remembers of its replica set: each of the five annotations that matter, by its name. */
  lemma EntryTakes(rs: ReplicaSet)
    ensures NewActiveEntry(rs) == ActiveEntry(
      DeployRevisionStr(Annotation(rs.annotations, "deployment.kubernetes.io/revision")),
      GrpcPortStr(Annotation(rs.annotations, "transflect.cash.squareup.com/port")),
      Annotation(rs.annotations, "transflect.cash.squareup.com/exclude-grpc-services"),
      Annotation(rs.annotations, "transflect.cash.squareup.com/include-grpc-services"),
      Annotation(rs.annotations, "transflect.cash.squareup.com/http-path-prefix"))
    ensures GrpcPort(rs) == NewActiveEntry(rs).grpcPort && DeployRevision(rs) == NewActiveEntry(rs).revision
  {
  }

  /** The key under which the cleanup of a deleted deployment looks: namespace and name, as the client library writes them. */
  function MetaNamespaceKey(namespace: string, name: string): string {
    if namespace == "" then name else namespace + "/" + name
  }

  /** It is the key of all replica sets of that deployment. */
  lemma CleanupFindsEntry(rs: ReplicaSet)
    requires GetDeployment(rs.owners).Some?
    ensures MetaNamespaceKey(rs.namespace, GetDeployment(rs.owners).value.name) == DeployKey(rs)
  {
  }

  /** The deployment key that a filter name stands for. */
  function KeyOfFilter(id: Id): string {
    var n := |id.name| - |SUFFIX|;
    KeyOf(id.namespace, if n >= 0 && id.name[n..] == SUFFIX then id.name[..n] else id.name)
  }

  function FirstSlash(s: string): nat {
    if s == "" || s[0] == '/' then 0 else 1 + FirstSlash(s[1..])
  }

  lemma {:induction false} FirstSlashOf(a: string, b: string)
    requires '/' !in a
    ensures FirstSlash(a + "/" + b) == |a|
    ensures FirstSlash(a) == |a|
  {
    if a != "" {
      assert (a + "/" + b)[1..] == a[1..] + "/" + b;
      FirstSlashOf(a[1..], b);
    }
  }

  /** The filter name that a deployment key stands for. */
  function FilterIdOf(key: string): Id {
    var n := FirstSlash(key);
    if n < |key| then Id(key[..n], key[n + 1..] + SUFFIX) else Id("", key + SUFFIX)
  }

  /** Two replica sets with the same filter have the same deployment: lock names cover filter names. */
  lemma FilterNamesOneDeployment(rs: ReplicaSet)
    requires GetDeployment(rs.owners).Some?
    ensures KeyOfFilter(FilterId(rs)) == DeployKey(rs)
  {
    var d := GetDeployment(rs.owners).value.name;
    assert (d + SUFFIX)[|d|..] == SUFFIX && (d + SUFFIX)[..|d|] == d;
  }

  /** Names as Kubernetes allows them: no slash. */
  ghost predicate WellNamed(rs: ReplicaSet) {
    GetDeployment(rs.owners).Some? && '/' !in rs.namespace && '/' !in GetDeployment(rs.owners).value.name
  }

  /** The key of a deployment determines its filter. */
  lemma KeyNamesOneFilter(rs: ReplicaSet)
    requires WellNamed(rs)
    ensures FilterIdOf(DeployKey(rs)) == FilterId(rs)
  {
    var d := GetDeployment(rs.owners).value.name;
    if rs.namespace == "" {
      FirstSlashOf(d, "");
    } else {
      FirstSlashOf(rs.namespace, d);
      var key := rs.namespace + "/" + d;
      assert key[..|rs.namespace|] == rs.namespace && key[|rs.namespace| + 1..] == d;
    }
  }
}
