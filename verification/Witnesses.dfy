/** Runs from the empty cluster in which something promised does not hold: the conditions met elsewhere are needed. */
module Witnesses {
  import opened Prelude
  import opened Objects
  import opened Reconcile
  import opened MicroSteps
  import opened Workers
  import opened Concurrent
  import opened Runs
  import opened Restart
  import U = UnsafeRuns

  const EMPTY: State := State(map[], map[], map[], map[], 0)

  /** Deployments with names of different lengths. */
  function Name(i: nat): string {
    seq(i + 1, _ => 'a')
  }

  /** A ready replica set of the i-th deployment. */
  function Rollout(i: nat, revision: string, port: string): ReplicaSet {
    ReplicaSet("ns", Name(i) + "-" + revision, [OwnerRef("Deployment", Name(i))], 1, map[PORT := port, REVISION := revision])
  }

  /** The first revision names a port, the second none. */
  function First(i: nat): ReplicaSet {
    Rollout(i, "1", "80")
  }

  function Second(i: nat): ReplicaSet {
    Rollout(i, "2", "")
  }

  function KeyAt(i: nat): string {
    "ns" + "/" + Name(i)
  }

  /** Every call succeeds; the query brings one service. */
  function Smooth(): Faults {
    var ok := WriteFaults(false, false, false);
    Faults(ok, false, ok, false, _ => Some(Reflection([], ["s"])), false, ok, false)
  }

  lemma KeyIs(i: nat, revision: string, port: string)
    ensures WellNamed(Rollout(i, revision, port)) && DeployKey(Rollout(i, revision, port)) == KeyAt(i)
    ensures Rollout(i, revision, port).readyReplicas == 1
  {
  }

  lemma AnnotationsAre(i: nat, revision: string, port: string)
    ensures var a := Rollout(i, revision, port).annotations;
      Annotation(a, PORT) == port && Annotation(a, REVISION) == revision
      && Annotation(a, EXCLUDE) == Annotation(a, INCLUDE) == Annotation(a, PREFIX) == ""
  {
    assert PORT[0] != REVISION[0];
    assert EXCLUDE[0] != REVISION[0] && EXCLUDE[29] == 'e' != PORT[29];
    assert INCLUDE[0] != REVISION[0] && INCLUDE[29] == 'i' != PORT[29];
    assert PREFIX[0] != REVISION[0] && PREFIX[29] == 'h' != PORT[29];
  }

  lemma NumeralOf(text: string, n: nat)
    requires text == Decimal(n) && n <= 65535
    ensures GrpcPortStr(text) == n && DeployRevisionStr(text) == n
  {
    NumeralKept(n);
  }

  lemma NumbersAre()
    ensures GrpcPortStr("80") == 80 && GrpcPortStr("") == 0 && DeployRevisionStr("1") == 1 && DeployRevisionStr("2") == 2
  {
    assert Decimal(8) == "8";
    NumeralOf("80", 80);
    NumeralOf("1", 1);
    NumeralOf("2", 2);
    ReadExactly("");
  }

  lemma SmoothUpserts(c: Config, s: State, i: nat)
    ensures UpsertOk(c, s, First(i), Smooth())
  {
    AnnotationsAre(i, "1", "80");
  }

  /** An event that brings a deployment up, and one that takes it down: all that the runs below rest on. */
  ghost predicate Up(rs: ReplicaSet, key: string) {
    WellNamed(rs) && DeployKey(rs) == key && rs.readyReplicas != 0 && DeployRevision(rs) == 1 && GrpcPort(rs) == 80
  }

  ghost predicate Down(rs: ReplicaSet, key: string) {
    WellNamed(rs) && DeployKey(rs) == key && rs.readyReplicas != 0 && DeployRevision(rs) == 2 && GrpcPort(rs) == 0
  }

  lemma RolloutIs(i: nat)
    ensures Up(First(i), KeyAt(i)) && Down(Second(i), KeyAt(i))
  {
    KeyIs(i, "1", "80");
    KeyIs(i, "2", "");
    AnnotationsAre(i, "1", "80");
    AnnotationsAre(i, "2", "");
    NumbersAre();
  }

  lemma ComesUp(c: Config, s: State, rs: ReplicaSet, f: Faults, key: string)
    requires Up(rs, key) && UpsertOk(c, s, rs, f) && key !in s.active
    ensures var t := Next(c, s, rs, f);
      && t.active == s.active[key := NewActiveEntry(rs)] && NewActiveEntry(rs).revision == 1 && NewActiveEntry(rs).grpcPort == 80
      && t.filters.Keys == s.filters.Keys + {FilterIdOf(key)}
      && t.gauge == if FilterIdOf(key) in s.filters then s.gauge else s.gauge + 1
  {
    WellNamedProper(rs);
  }

  /** After the event that brought it up, one without a port deletes. */
  lemma GoesDown(c: Config, s: State, up: ReplicaSet, f: Faults, down: ReplicaSet, key: string)
    requires Up(up, key) && Down(down, key) && UpsertOk(c, s, up, f) && key !in s.active
    ensures Deletes(Next(c, s, up, f), down)
  {
    ComesUp(c, s, up, f, key);
  }

  lemma RunOfTwo(c: Config, s: State, a: Action, b: Action)
    ensures At(c, s, [a, b], 0) == s
    ensures At(c, s, [a, b], 1) == Run(c, s, [a]) == Step(c, s, a)
    ensures Run(c, s, [a, b]) == Step(c, Step(c, s, a), b)
  {
    assert [a, b][..0] == [] && [a, b][..1] == [a] && [a][..0] == [];
  }

  lemma RefusedAt(c: Config, s: State, up: ReplicaSet, f: Faults, down: ReplicaSet, f': Faults, key: string)
    requires Agree(s) && key !in s.active
    requires Up(up, key) && Down(down, key) && UpsertOk(c, s, up, f) && f'.deleteFilter
    ensures Deletes(Next(c, s, up, f), down) && !Agree(Next(c, Next(c, s, up, f), down, f'))
  {
    GoesDown(c, s, up, f, down, key);
    ComesUp(c, s, up, f, key);
    KeptByStep(c, s, up, f);
    KeptByStep(c, Next(c, s, up, f), down, f');
  }

  /** A run from the empty cluster after which cache and cluster disagree: the API refuses one delete. */
  lemma RefusedDelete(c: Config) returns (acts: seq<Action>)
    ensures AllWellFormed(acts) && Agree(EMPTY) && !DeletesSucceed(c, EMPTY, acts)
    ensures !Agree(Run(c, EMPTY, acts))
  {
    RolloutIs(0);
    SmoothUpserts(c, EMPTY, 0);
    var up, down, refused := First(0), Second(0), Smooth().(deleteFilter := true);
    RefusedAt(c, EMPTY, up, Smooth(), down, refused, KeyAt(0));
    RunOfTwo(c, EMPTY, Event(up, Smooth()), Event(down, refused));
    acts := [Event(up, Smooth()), Event(down, refused)];
    assert acts[1] == Event(down, refused);
  }

  lemma GarbageAt(c: Config, up: ReplicaSet, f: Faults, key: string)
    requires Up(up, key) && UpsertOk(c, EMPTY, up, f)
    ensures var acts := [Event(up, f), Deleted(key)];
      && AllWellFormed(acts) && DeletesSucceed(c, EMPTY, acts) && Garbage(c, EMPTY, acts) == 1
      && Run(c, EMPTY, acts).filters.Keys == {} && Run(c, EMPTY, acts).gauge == 1
  {
    WellNamedProper(up);
    ComesUp(c, EMPTY, up, f, key);
    RunOfTwo(c, EMPTY, Event(up, f), Deleted(key));
    assert [Event(up, f), Deleted(key)][..1] == [Event(up, f)];
    NoGarbage(c, EMPTY, [Event(up, f)]);
  }

  /** A run from the empty cluster after which the gauge counts a filter that is gone. */
  lemma GarbageUncounted(c: Config) returns (acts: seq<Action>)
    ensures AllWellFormed(acts) && DeletesSucceed(c, EMPTY, acts) && Garbage(c, EMPTY, acts) == 1
    ensures Run(c, EMPTY, acts).filters.Keys == {} && Run(c, EMPTY, acts).gauge == 1
  {
    RolloutIs(0);
    SmoothUpserts(c, EMPTY, 0);
    GarbageAt(c, First(0), Smooth(), KeyAt(0));
    acts := [Event(First(0), Smooth()), Deleted(KeyAt(0))];
  }

  // ---- More filters than a page holds ----

  /** The first `n` deployments of a family come up one after another. */
  function Fleet(family: nat -> ReplicaSet, f: Faults, n: nat): seq<Action> {
    seq(n, i requires 0 <= i < n => Event(family(i), f))
  }

  /** The i-th deployment has a key of i + 4 characters, and its event brings it up. */
  ghost predicate Family(c: Config, family: nat -> ReplicaSet, f: Faults, keys: nat -> string) {
    forall i: nat :: Up(family(i), keys(i)) && |keys(i)| == i + 4 && forall s :: UpsertOk(c, s, family(i), f)
  }

  lemma FleetEvents(c: Config, s: State, family: nat -> ReplicaSet, f: Faults, keys: nat -> string, n: nat)
    requires Family(c, family, f, keys)
    ensures var acts := Fleet(family, f, n);
      AllWellFormed(acts) && DeletesSucceed(c, s, acts) && forall a | a in acts :: a.Event?
  {
    forall i | 0 <= i < n
      ensures WellFormed(Event(family(i), f)) && GrpcPort(family(i)) != 0
    {
      assert Up(family(i), keys(i));
    }
  }

  /** `n` deployments are cached, none with a name longer than theirs. */
  ghost predicate Fleeted(active: map<string, ActiveEntry>, n: nat) {
    && |active| == n
    && forall k | k in active :: 0 < |k| <= n + 3 && active[k].revision == 1 && active[k].grpcPort == 80
  }

  lemma FleetGrows(active: map<string, ActiveEntry>, k: string, e: ActiveEntry, n: nat)
    requires Fleeted(active, n) && |k| == n + 4 && e.revision == 1 && e.grpcPort == 80
    ensures k !in active && Fleeted(active[k := e], n + 1)
  {
    assert k !in active;
    assert active[k := e].Keys == active.Keys + {k};
  }

  lemma FleetStep(c: Config, s: State, rs: ReplicaSet, f: Faults, key: string, n: nat)
    requires Fleeted(s.active, n) && |key| == n + 4 && Up(rs, key) && UpsertOk(c, s, rs, f)
    ensures Fleeted(Next(c, s, rs, f).active, n + 1)
  {
    FleetGrows(s.active, key, ActiveEntry(1, 80, "", "", ""), n);
    ComesUp(c, s, rs, f, key);
    FleetGrows(s.active, key, NewActiveEntry(rs), n);
  }

  lemma FleetSnoc(c: Config, s: State, family: nat -> ReplicaSet, f: Faults, n: nat)
    requires n > 0
    ensures Run(c, s, Fleet(family, f, n)) == Next(c, Run(c, s, Fleet(family, f, n - 1)), family(n - 1), f)
  {
    assert Fleet(family, f, n)[..n - 1] == Fleet(family, f, n - 1) && Fleet(family, f, n)[n - 1] == Event(family(n - 1), f);
  }

  lemma {:induction false} FleetUp(c: Config, s: State, family: nat -> ReplicaSet, f: Faults, keys: nat -> string, n: nat)
    requires Family(c, family, f, keys) && s.active == map[]
    ensures Fleeted(Run(c, s, Fleet(family, f, n)).active, n)
  {
    if n == 0 {
      assert Fleet(family, f, 0) == [];
    } else {
      FleetUp(c, s, family, f, keys, n - 1);
      FleetSnoc(c, s, family, f, n);
      FleetStep(c, Run(c, s, Fleet(family, f, n - 1)), family(n - 1), f, keys(n - 1), n - 1);
    }
  }

  /** Any `n` different elements of a set that has as many. */
  lemma {:induction false} Pick(ids: set<Id>, n: nat) returns (list: seq<Id>)
    requires n <= |ids|
    ensures |list| == n && Distinct(list) && forall id | id in list :: id in ids
  {
    list := [];
    if n > 0 {
      var id :| id in ids;
      list := Pick(ids - {id}, n - 1);
      list := list + [id];
    }
  }

  lemma PageMisses(s: State, page: seq<Id>)
    requires Agree(s) && Stored(s) && s.gauge == |s.filters| > PAGE_LIMIT && FirstPage(s.filters, page)
    ensures Rebuilt(s, page).active.Keys != s.active.Keys && Rebuilt(s, page).gauge < s.gauge
  {
    RebuiltIffOnePage(s, page);
    ListedIs(s, page);
  }

  /** A run on events that leaves `n` deployments cached leaves as many filters, and the gauge right. */
  lemma FleetAgrees(c: Config, s: State, acts: seq<Action>, n: nat)
    requires Agree(s) && s.gauge == |s.filters|
    requires AllWellFormed(acts) && (forall a | a in acts :: a.Event?) && DeletesSucceed(c, s, acts)
    requires Fleeted(Run(c, s, acts).active, n)
    ensures var t := Run(c, s, acts); Agree(t) && Stored(t) && t.gauge == |t.filters| == n
  {
    AgreeAlways(c, s, acts);
    GaugeConserved(c, s, acts);
  }

  ghost predicate AlwaysMisses(s: State) {
    forall page | FirstPage(s.filters, page) :: Rebuilt(s, page).active.Keys != s.active.Keys && Rebuilt(s, page).gauge < s.gauge
  }

  lemma MissesOne(s: State)
    requires Agree(s) && Stored(s) && s.gauge == |s.filters| > PAGE_LIMIT
    ensures AlwaysMisses(s)
  {
    forall page | FirstPage(s.filters, page)
      ensures Rebuilt(s, page).active.Keys != s.active.Keys && Rebuilt(s, page).gauge < s.gauge
    {
      PageMisses(s, page);
    }
  }

  lemma FamilyMisses(c: Config, s: State, family: nat -> ReplicaSet, f: Faults, keys: nat -> string, n: nat)
    returns (page: seq<Id>)
    requires Family(c, family, f, keys) && Agree(s) && s.active == map[] && s.gauge == |s.filters| && n > PAGE_LIMIT
    ensures AllWellFormed(Fleet(family, f, n))
    ensures var t := Run(c, s, Fleet(family, f, n));
      Agree(t) && t.gauge == |t.filters| == n && FirstPage(t.filters, page) && AlwaysMisses(t)
  {
    FleetEvents(c, s, family, f, keys, n);
    FleetUp(c, s, family, f, keys, n);
    FleetAgrees(c, s, Fleet(family, f, n), n);
    var t := Run(c, s, Fleet(family, f, n));
    page := Pick(t.filters.Keys, PAGE_LIMIT);
    MissesOne(t);
  }

  function Rollouts(n: nat): seq<Action> {
    Fleet(First, Smooth(), n)
  }

  /** More deployments than a page holds come up from the empty cluster: whatever page a new process reads, it misses one. */
  lemma PageTooSmall(c: Config, n: nat) returns (page: seq<Id>)
    requires n > PAGE_LIMIT
    ensures var acts := Rollouts(n);
      var t := Run(c, EMPTY, acts);
      AllWellFormed(acts) && Agree(t) && t.gauge == |t.filters| == n && FirstPage(t.filters, page) && AlwaysMisses(t)
  {
    var family: nat -> ReplicaSet, keys: nat -> string := First, KeyAt;
    forall i: nat
      ensures Up(family(i), keys(i)) && |keys(i)| == i + 4 && forall s :: UpsertOk(c, s, family(i), Smooth())
    {
      RolloutIs(i);
      forall s
        ensures UpsertOk(c, s, First(i), Smooth())
      {
        SmoothUpserts(c, s, i);
      }
    }
    page := FamilyMisses(c, EMPTY, family, Smooth(), keys, n);
  }

  // ---- Old revisions ----

  lemma RunOfThree(c: Config, s: State, a: Action, b: Action, d: Action)
    ensures var acts := [a, b, d];
      && At(c, s, acts, 0) == s && At(c, s, acts, 1) == Step(c, s, a) && At(c, s, acts, 2) == Step(c, Step(c, s, a), b)
      && Run(c, s, acts) == Step(c, Step(c, Step(c, s, a), b), d)
  {
    RunOfTwo(c, s, a, b);
    assert [a, b, d][..0] == [] && [a, b, d][..1] == [a] && [a, b, d][..2] == [a, b];
  }

  lemma OlderAt(c: Config, s: State, up: ReplicaSet, f: Faults, down: ReplicaSet, f': Faults, key: string)
    requires Agree(s) && key !in s.active && Up(up, key) && Down(down, key) && UpsertOk(c, s, up, f)
    requires UpsertOk(c, Next(c, Next(c, s, up, f), down, f'), up, f)
    ensures var t := Next(c, Next(c, Next(c, s, up, f), down, f'), up, f);
      && key in t.active && t.active[key].revision == 1 && FilterId(up) in t.filters
  {
    GoesDown(c, s, up, f, down, key);
    WellNamedProper(up);
    WellNamedProper(down);
    DeletedComesBack(c, Next(c, s, up, f), down, f', up, f);
  }

  /**
   * The first revision comes up, the second names no port, and the first, still ready, is delivered
   * again: every call succeeds, and its filter is back although a newer revision took it away.
   */
  lemma OlderComesBack(c: Config) returns (acts: seq<Action>)
    ensures acts == [Event(First(0), Smooth()), Event(Second(0), Smooth()), Event(First(0), Smooth())]
    ensures AllWellFormed(acts) && DeletesSucceed(c, EMPTY, acts) && DeployRevision(First(0)) < DeployRevision(Second(0))
    ensures var t := Run(c, EMPTY, acts); KeyAt(0) in t.active && t.active[KeyAt(0)].revision == 1 && FilterId(First(0)) in t.filters
  {
    RolloutIs(0);
    SmoothUpserts(c, EMPTY, 0);
    SmoothUpserts(c, Next(c, Next(c, EMPTY, First(0), Smooth()), Second(0), Smooth()), 0);
    RunOfThree(c, EMPTY, Event(First(0), Smooth()), Event(Second(0), Smooth()), Event(First(0), Smooth()));
    OlderAt(c, EMPTY, First(0), Smooth(), Second(0), Smooth(), KeyAt(0));
    acts := [Event(First(0), Smooth()), Event(Second(0), Smooth()), Event(First(0), Smooth())];
  }

  // ---- Locks ----

  /** The i-th deployment's two replica sets have different names. */
  lemma NamesDiffer(i: nat)
    ensures ResourceId(First(i)) != ResourceId(Second(i))
  {
    var a, b := Name(i) + "-" + "1", Name(i) + "-" + "2";
    assert a[|a| - 1] == '1' && b[|b| - 1] == '2';
  }

  lemma StuckAt(c: Config, owner: Id -> string, up: ReplicaSet, down: ReplicaSet, f: Faults, key: string)
    returns (s: State, trace: seq<Sys>, moves: seq<Move>)
    requires Up(up, key) && Down(down, key) && UpsertOk(c, EMPTY, up, f)
    requires owner(ResourceId(up)) == owner(ResourceId(down)) == key && ResourceId(up) != ResourceId(down)
    ensures s == Run(c, EMPTY, [Event(up, f)]) && EventRun(c, owner, s, 2, trace, moves)
    ensures var t, last := TaskOf(c, up, f), trace[|moves|]; last.workers == [Idle, Waiting(t, 0)] && U.WaitsForGood(last, 1, t)
  {
    var t0, t1 := TaskOf(c, down, f), TaskOf(c, up, f);
    RunOfTwo(c, EMPTY, Event(up, f), Event(up, f));
    s := Run(c, EMPTY, [Event(up, f)]);
    GoesDown(c, EMPTY, up, f, down, key);
    U.DeletesIsDeleting(c, s, down, f);
    var e := U.Setting(c, owner, s, 2, false);
    assert EventTask(c, owner, t0) && EventTask(c, owner, t1);
    var y := U.DeleteUnderWaiter(e, [t0, t1]);
    trace, moves := U.RunOnEvents(e, y);
  }

  /**
   * The first revision of a deployment is up; then a second one without a port becomes ready. While
   * its event deletes the filter, the first, still ready, is delivered again and waits for the lock,
   * and it waits for good.
   */
  lemma DeleteUnderWaiterHappens(c: Config, owner: Id -> string)
    returns (s: State, trace: seq<Sys>, moves: seq<Move>)
    requires owner(ResourceId(First(0))) == owner(ResourceId(Second(0))) == KeyAt(0)
    ensures s == Run(c, EMPTY, [Event(First(0), Smooth())]) && EventRun(c, owner, s, 2, trace, moves)
    ensures var t, last := TaskOf(c, First(0), Smooth()), trace[|moves|];
      last.workers == [Idle, Waiting(t, 0)] && U.WaitsForGood(last, 1, t)
  {
    RolloutIs(0);
    SmoothUpserts(c, EMPTY, 0);
    NamesDiffer(0);
    s, trace, moves := StuckAt(c, owner, First(0), Second(0), Smooth(), KeyAt(0));
  }
}
