/** Starting anew: the cache rebuilt from one page of filters, then brought up to date by replays. */
module Restart {
  import opened Prelude
  import opened Objects
  import opened Reconcile
  import opened Operators
  import opened Runs
  import Ledgers

  /** The list call asks for this many filters and is never continued. */
  const PAGE_LIMIT: nat := 42

  ghost predicate Distinct(ids: seq<Id>) {
    forall i, j | 0 <= i < j < |ids| :: ids[i] != ids[j]
  }

  /** What one list call may bring back: all filters, or as many as fit a page. */
  ghost predicate FirstPage(filters: map<Id, EnvoyFilter>, ids: seq<Id>) {
    && Distinct(ids)
    && (forall id | id in ids :: id in filters)
    && |ids| == if |filters| <= PAGE_LIMIT then |filters| else PAGE_LIMIT
  }

  ghost function PageOf(filters: map<Id, EnvoyFilter>, ids: seq<Id>): seq<EnvoyFilter>
    requires forall id | id in ids :: id in filters
  {
    seq(|ids|, i requires 0 <= i < |ids| => filters[ids[i]])
  }

  /** A new process on the old cluster: cache and gauge as `SyncActive` makes them from nothing. */
  ghost function Rebuilt(s: State, ids: seq<Id>): State
    requires forall id | id in ids :: id in s.filters
  {
    s.(active := Merged(EntriesOf(PageOf(s.filters, ids))), gauge := Readables(EntriesOf(PageOf(s.filters, ids))))
  }

  /** The listing does not hold the include, exclude and prefix annotations. */
  ghost function Blank(e: ActiveEntry): ActiveEntry {
    e.(excluding := "", including := "", prefix := "")
  }

  /** What a listed filter tells of its deployment: nothing when the revision is 0. */
  ghost function Told(k: string, e: ActiveEntry): Option<(string, ActiveEntry)> {
    if e.revision == 0 then None else Some((k, Blank(e)))
  }

  lemma EntryRead(s: State, id: Id)
    requires Agree(s) && id in s.filters && Stored(s)
    ensures var k := FilterKey(s.filters[id]);
      && k in s.active && FilterIdOf(k) == id && s.filters[FilterIdOf(k)] == s.filters[id]
      && GetActiveEntry(s.filters[id]) == Told(k, s.active[k])
  {
  }

  /** Part of the full cache, without the annotations a filter does not carry. */
  ghost predicate BlankPart(m: map<string, ActiveEntry>, full: map<string, ActiveEntry>) {
    forall k | k in m :: k in full && full[k].revision != 0 && m[k] == Blank(full[k])
  }

  lemma MergedOne(m: map<string, ActiveEntry>, full: map<string, ActiveEntry>, k: string)
    requires BlankPart(m, full) && k in full && full[k].revision != 0 && k !in m
    ensures BlankPart(m[k := Blank(full[k])], full) && |m[k := Blank(full[k])]| == |m| + 1
  {
    assert m[k := Blank(full[k])].Keys == m.Keys + {k};
  }

  lemma MergedSnoc(listed: seq<Option<(string, ActiveEntry)>>, n: nat)
    requires 0 < n <= |listed|
    ensures var before, e := Merged(listed[..n - 1]), listed[n - 1];
      Merged(listed[..n]) == if e.None? then before else before[e.value.0 := e.value.1]
    ensures Readables(listed[..n]) == Readables(listed[..n - 1]) + if listed[n - 1].None? then 0 else 1
  {
    assert listed[..n][..n - 1] == listed[..n - 1];
  }

  /** Listed entries of different keys, merged. */
  lemma {:induction false} MergedPairs(full: map<string, ActiveEntry>, listed: seq<Option<(string, ActiveEntry)>>, keys: seq<string>, n: nat)
    requires n <= |listed| == |keys|
    requires forall i | 0 <= i < |listed| :: keys[i] in full && listed[i] == Told(keys[i], full[keys[i]])
    requires forall i, j | 0 <= i < j < |keys| :: keys[i] != keys[j]
    ensures BlankPart(Merged(listed[..n]), full) && |Merged(listed[..n])| == Readables(listed[..n]) <= n
    ensures (forall i | 0 <= i < n :: full[keys[i]].revision != 0) ==> Readables(listed[..n]) == n
    ensures forall j | n <= j < |keys| :: keys[j] !in Merged(listed[..n])
  {
    if n > 0 {
      MergedPairs(full, listed, keys, n - 1);
      MergedSnoc(listed, n);
      if listed[n - 1].Some? {
        MergedOne(Merged(listed[..n - 1]), full, keys[n - 1]);
      }
    }
  }

  /** Keys that lead back to distinct resources are distinct. */
  lemma KeysDiffer(back: string -> Id, keys: seq<string>, ids: seq<Id>)
    requires Distinct(ids) && |keys| == |ids|
    requires forall i | 0 <= i < |keys| :: back(keys[i]) == ids[i]
    ensures forall i, j | 0 <= i < j < |keys| :: keys[i] != keys[j]
  {
    forall i, j | 0 <= i < j < |keys|
      ensures keys[i] != keys[j]
    {
      assert back(keys[i]) == ids[i] && back(keys[j]) == ids[j];
    }
  }

  lemma ListedAt(s: State, ids: seq<Id>, i: nat)
    requires Agree(s) && Stored(s) && i < |ids| && forall id | id in ids :: id in s.filters
    ensures var k := FilterKey(s.filters[ids[i]]);
      && k in s.active && FilterIdOf(k) == ids[i]
      && EntriesOf(PageOf(s.filters, ids))[i] == Told(k, s.active[k])
  {
    EntryRead(s, ids[i]);
  }

  ghost function KeysOfPage(filters: map<Id, EnvoyFilter>, ids: seq<Id>): seq<string>
    requires forall id | id in ids :: id in filters
  {
    seq(|ids|, i requires 0 <= i < |ids| => FilterKey(filters[ids[i]]))
  }

  lemma ListedPairs(s: State, ids: seq<Id>) returns (keys: seq<string>)
    requires Agree(s) && Stored(s) && Distinct(ids) && forall id | id in ids :: id in s.filters
    ensures |keys| == |ids| && forall i, j | 0 <= i < j < |keys| :: keys[i] != keys[j]
    ensures forall i | 0 <= i < |ids| ::
      keys[i] in s.active && EntriesOf(PageOf(s.filters, ids))[i] == Told(keys[i], s.active[keys[i]])
  {
    keys := KeysOfPage(s.filters, ids);
    var back := (k: string) => FilterIdOf(k);
    forall i | 0 <= i < |ids|
      ensures keys[i] in s.active && back(keys[i]) == ids[i]
      ensures EntriesOf(PageOf(s.filters, ids))[i] == Told(keys[i], s.active[keys[i]])
    {
      ListedAt(s, ids, i);
    }
    KeysDiffer(back, keys, ids);
  }

  lemma MergedAll(full: map<string, ActiveEntry>, listed: seq<Option<(string, ActiveEntry)>>, keys: seq<string>)
    requires |listed| == |keys| && forall i, j | 0 <= i < j < |keys| :: keys[i] != keys[j]
    requires forall i | 0 <= i < |listed| :: keys[i] in full && listed[i] == Told(keys[i], full[keys[i]])
    ensures BlankPart(Merged(listed), full) && |Merged(listed)| == Readables(listed) <= |keys|
    ensures (forall k | k in full :: full[k].revision != 0) ==> Readables(listed) == |keys|
  {
    MergedPairs(full, listed, keys, |keys|);
    assert listed[..|keys|] == listed;
  }

  lemma ListedIs(s: State, ids: seq<Id>)
    requires Agree(s) && Stored(s) && Distinct(ids) && forall id | id in ids :: id in s.filters
    ensures var listed := EntriesOf(PageOf(s.filters, ids));
      && BlankPart(Merged(listed), s.active) && |Merged(listed)| == Readables(listed) <= |ids|
      && ((forall k | k in s.active :: s.active[k].revision != 0) ==> Readables(listed) == |ids|)
  {
    var keys := ListedPairs(s, ids);
    MergedAll(s.active, EntriesOf(PageOf(s.filters, ids)), keys);
  }

  lemma {:induction false} FullSubset<T>(a: set<T>, b: set<T>)
    requires a <= b && |a| == |b|
    ensures a == b
  {
    if b != {} {
      var x :| x in b;
      if x in a {
        FullSubset(a - {x}, b - {x});
      } else {
        SubsetSize(a, b - {x});
        assert false;
      }
    }
  }

  /**
   * The rebuilt cache knows every deployment exactly when all filters fit the one page that is read
   * and no cached revision is 0; what it knows is right up to the annotations a filter does not carry.
   */
  lemma RebuiltIffOnePage(s: State, ids: seq<Id>)
    requires Agree(s) && Stored(s) && FirstPage(s.filters, ids)
    ensures var t := Rebuilt(s, ids);
      && (t.active.Keys == s.active.Keys <==>
            |s.filters| <= PAGE_LIMIT && forall k | k in s.active :: s.active[k].revision != 0)
      && BlankPart(t.active, s.active)
      && t.gauge == |t.active|
  {
    ListedIs(s, ids);
    Ledgers.Counts(Naming(), s.active, s.filters);
    var t := Rebuilt(s, ids);
    assert |t.active.Keys| <= |ids| && |s.active.Keys| == |s.filters|;
    if |s.filters| <= PAGE_LIMIT && forall k | k in s.active :: s.active[k].revision != 0 {
      FullSubset(t.active.Keys, s.active.Keys);
    }
    if t.active.Keys == s.active.Keys {
      forall k | k in s.active
        ensures s.active[k].revision != 0
      {
        assert k in t.active;
      }
    }
  }

  // ---- Replays ----

  /** For every cached deployment the event whose entry was stored last, still ready. */
  ghost predicate LastStored(s: State, last: map<string, ReplicaSet>) {
    && last.Keys == s.active.Keys
    && forall k | k in last ::
      DeployKey(last[k]) == k && NewActiveEntry(last[k]) == s.active[k] && last[k].readyReplicas != 0
  }

  ghost predicate Replays(last: map<string, ReplicaSet>, acts: seq<Action>) {
    forall a | a in acts :: a.Event? && DeployKey(a.rs) in last && a.rs == last[DeployKey(a.rs)]
  }

  /** Every upsert that is tried goes through. */
  ghost predicate UpsertsSucceed(c: Config, s: State, acts: seq<Action>) {
    forall i | 0 <= i < |acts| && acts[i].Event? && ShouldProcess(At(c, s, acts, i).active, acts[i].rs) ::
      UpsertOk(c, At(c, s, acts, i), acts[i].rs, acts[i].faults)
  }

  ghost predicate SeenBefore(keys: seq<string>, i: nat, key: string)
    requires i <= |keys|
  {
    exists j | 0 <= j < i :: keys[j] == key
  }

  /** The cache part-way through the replays: right for those seen, as it was read for the others. */
  ghost predicate Recovered(full: map<string, ActiveEntry>, read: map<string, ActiveEntry>, active: map<string, ActiveEntry>, keys: seq<string>, i: nat)
    requires i <= |keys|
  {
    forall k :: Lookup(active, k) == if SeenBefore(keys, i, k) then Lookup(full, k) else Lookup(read, k)
  }

  /** What is cached is right, or has the right revision, which is then not 0. */
  ghost predicate Behind(full: map<string, ActiveEntry>, active: map<string, ActiveEntry>) {
    forall k | k in active :: k in full && (active[k] == full[k] || active[k].revision == full[k].revision > 0)
  }

  /** The caches between replays: each replay puts the full entry of its key in place. */
  ghost predicate ReplayTrace(full: map<string, ActiveEntry>, actives: seq<map<string, ActiveEntry>>, keys: seq<string>) {
    && |actives| == |keys| + 1
    && forall i | 0 <= i < |keys| ::
      keys[i] in full && (Behind(full, actives[i]) ==> actives[i + 1] == actives[i][keys[i] := full[keys[i]]])
  }

  lemma {:induction false} RecoveredAt(full: map<string, ActiveEntry>, actives: seq<map<string, ActiveEntry>>, keys: seq<string>, i: nat)
    requires ReplayTrace(full, actives, keys) && i <= |keys| && Behind(full, actives[0])
    ensures Recovered(full, actives[0], actives[i], keys, i) && Behind(full, actives[i])
  {
    if i > 0 {
      RecoveredAt(full, actives, keys, i - 1);
      forall k
        ensures SeenBefore(keys, i, k) <==> SeenBefore(keys, i - 1, k) || k == keys[i - 1]
      {
      }
      forall k
        ensures Lookup(actives[i], k) == if k == keys[i - 1] then Some(full[k]) else Lookup(actives[i - 1], k)
      {
      }
    }
  }

  /** A replay of the stored event is processed exactly when its entry is not there as it was. */
  lemma ReplayProcessed(full: map<string, ActiveEntry>, active: map<string, ActiveEntry>, rs: ReplicaSet)
    requires DeployKey(rs) in full && Behind(full, active) && GrpcPort(rs) != 0
    requires NewActiveEntry(rs) == full[DeployKey(rs)] && rs.readyReplicas != 0
    ensures ShouldProcess(active, rs) <==> Lookup(active, DeployKey(rs)) != Some(full[DeployKey(rs)])
  {
  }

  lemma ActiveStep(c: Config, t: State, rs: ReplicaSet, f: Faults)
    requires ShouldProcess(t.active, rs) ==> UpsertOk(c, t, rs, f)
    requires GrpcPort(rs) != 0
    ensures Next(c, t, rs, f).active ==
      if ShouldProcess(t.active, rs) then t.active[DeployKey(rs) := NewActiveEntry(rs)] else t.active
  {
  }

  lemma ReplayStep(c: Config, t: State, rs: ReplicaSet, f: Faults, full: map<string, ActiveEntry>)
    requires (ShouldProcess(t.active, rs) ==> UpsertOk(c, t, rs, f)) && Behind(full, t.active)
    requires DeployKey(rs) in full && NewActiveEntry(rs) == full[DeployKey(rs)] && rs.readyReplicas != 0
    requires full[DeployKey(rs)].grpcPort > 0
    ensures Next(c, t, rs, f).active == t.active[DeployKey(rs) := full[DeployKey(rs)]]
  {
    ActiveStep(c, t, rs, f);
    ReplayProcessed(full, t.active, rs);
  }

  ghost function KeysOf(acts: seq<Action>): seq<string>
    requires forall a | a in acts :: a.Event?
  {
    seq(|acts|, i requires 0 <= i < |acts| => DeployKey(acts[i].rs))
  }

  lemma TraceStep(c: Config, s: State, t: State, last: map<string, ReplicaSet>, acts: seq<Action>, i: nat)
    requires Stored(s) && LastStored(s, last) && Replays(last, acts) && UpsertsSucceed(c, t, acts) && i < |acts|
    ensures var k, before, after := KeysOf(acts)[i], At(c, t, acts, i).active, At(c, t, acts, i + 1).active;
      k in s.active && (Behind(s.active, before) ==> after == before[k := s.active[k]])
  {
    assert acts[i] in acts;
    RunNext(c, t, acts, i);
    if Behind(s.active, At(c, t, acts, i).active) {
      ReplayStep(c, At(c, t, acts, i), acts[i].rs, acts[i].faults, s.active);
    }
  }

  lemma TraceOf(c: Config, s: State, t: State, last: map<string, ReplicaSet>, acts: seq<Action>)
    returns (actives: seq<map<string, ActiveEntry>>)
    requires Stored(s) && LastStored(s, last) && Replays(last, acts) && UpsertsSucceed(c, t, acts)
    ensures ReplayTrace(s.active, actives, KeysOf(acts))
    ensures forall i | 0 <= i <= |acts| :: actives[i] == At(c, t, acts, i).active
  {
    actives := seq(|acts| + 1, i requires 0 <= i <= |acts| => At(c, t, acts, i).active);
    forall i | 0 <= i < |acts|
      ensures KeysOf(acts)[i] in s.active
      ensures Behind(s.active, actives[i]) ==> actives[i + 1] == actives[i][KeysOf(acts)[i] := s.active[KeysOf(acts)[i]]]
    {
      TraceStep(c, s, t, last, acts, i);
    }
  }

  /**
   * The i-th replay is processed exactly if its deployment comes up for the first time and was read
   * without an annotation, or not at all.
   */
  ghost predicate ProcessedOnce(full: map<string, ActiveEntry>, read: map<string, ActiveEntry>, active: map<string, ActiveEntry>, acts: seq<Action>, i: nat)
    requires i < |acts| && forall a | a in acts :: a.Event?
    requires KeysOf(acts)[i] in full
  {
    var k := KeysOf(acts)[i];
    ShouldProcess(active, acts[i].rs) <==> (!SeenBefore(KeysOf(acts), i, k) && Lookup(read, k) != Some(full[k]))
  }

  lemma OnceAt(s: State, read: map<string, ActiveEntry>, active: map<string, ActiveEntry>, last: map<string, ReplicaSet>, acts: seq<Action>, i: nat)
    requires Stored(s) && LastStored(s, last) && Replays(last, acts) && i < |acts|
    requires Recovered(s.active, read, active, KeysOf(acts), i) && Behind(s.active, active)
    ensures KeysOf(acts)[i] in s.active && ProcessedOnce(s.active, read, active, acts, i)
  {
    assert acts[i] in acts;
    ReplayProcessed(s.active, active, acts[i].rs);
  }

  lemma AllSeen(full: map<string, ActiveEntry>, read: map<string, ActiveEntry>, active: map<string, ActiveEntry>, keys: seq<string>)
    requires Recovered(full, read, active, keys, |keys|) && Behind(full, read)
    requires forall k | k in full :: SeenBefore(keys, |keys|, k)
    ensures active == full
  {
    forall k
      ensures Lookup(active, k) == Lookup(full, k)
    {
      if k !in full {
        assert k !in read;
      }
    }
    assert forall k :: k in active <==> Lookup(active, k).Some?;
    assert forall k :: k in full <==> Lookup(full, k).Some?;
  }

  lemma ReplaysRecover(c: Config, s: State, t: State, last: map<string, ReplicaSet>, acts: seq<Action>, i: nat)
    requires Stored(s) && LastStored(s, last) && Replays(last, acts) && UpsertsSucceed(c, t, acts)
    requires Behind(s.active, t.active) && i <= |acts|
    ensures Recovered(s.active, t.active, At(c, t, acts, i).active, KeysOf(acts), i)
    ensures i < |acts| ==> KeysOf(acts)[i] in s.active && ProcessedOnce(s.active, t.active, At(c, t, acts, i).active, acts, i)
  {
    var actives := TraceOf(c, s, t, last, acts);
    assert acts[..0] == [];
    RecoveredAt(s.active, actives, KeysOf(acts), i);
    if i < |acts| {
      OnceAt(s, t.active, actives[i], last, acts, i);
    }
  }

  /** Revisions of an agreeing state are revisions of filters: never negative. */
  lemma RebuiltBehind(s: State, ids: seq<Id>)
    requires Agree(s) && Stored(s) && FirstPage(s.filters, ids)
    ensures Behind(s.active, Rebuilt(s, ids).active)
  {
    RebuiltIffOnePage(s, ids);
    forall k | k in Rebuilt(s, ids).active
      ensures s.active[k].revision > 0
    {
      assert FilterRevision(s.filters[FilterIdOf(k)]) == s.active[k].revision;
    }
  }

  /** Every replay is processed once at most, and only for what was not read as it was. */
  ghost predicate EachOnce(c: Config, full: map<string, ActiveEntry>, t: State, acts: seq<Action>)
    requires forall a | a in acts :: a.Event?
  {
    forall i | 0 <= i < |acts| :: KeysOf(acts)[i] in full && ProcessedOnce(full, t.active, At(c, t, acts, i).active, acts, i)
  }

  lemma ReplaysOnce(c: Config, s: State, t: State, last: map<string, ReplicaSet>, acts: seq<Action>)
    requires Stored(s) && LastStored(s, last) && Replays(last, acts) && UpsertsSucceed(c, t, acts)
    requires Behind(s.active, t.active)
    ensures EachOnce(c, s.active, t, acts)
  {
    forall i | 0 <= i < |acts|
      ensures KeysOf(acts)[i] in s.active && ProcessedOnce(s.active, t.active, At(c, t, acts, i).active, acts, i)
    {
      ReplaysRecover(c, s, t, last, acts, i);
    }
  }

  lemma ReplaysComplete(c: Config, s: State, t: State, last: map<string, ReplicaSet>, acts: seq<Action>)
    requires Stored(s) && LastStored(s, last) && Replays(last, acts) && UpsertsSucceed(c, t, acts)
    requires Behind(s.active, t.active) && forall k | k in last :: SeenBefore(KeysOf(acts), |acts|, k)
    ensures Run(c, t, acts).active == s.active
  {
    ReplaysRecover(c, s, t, last, acts, |acts|);
    AllSeen(s.active, t.active, At(c, t, acts, |acts|).active, KeysOf(acts));
    assert acts[..|acts|] == acts;
  }

  /**
   * A restart recovers: however many filters there are and whatever page of them was read, replaying
   * the last stored event of every deployment, in any order and any number of times, gives back
   * exactly the old cache. A replay upserts only the first time, and only for a deployment whose
   * filter was not read or whose annotations a filter does not carry.
   */
  lemma RestartRecovers(c: Config, s: State, ids: seq<Id>, last: map<string, ReplicaSet>, acts: seq<Action>)
    requires Agree(s) && Stored(s) && FirstPage(s.filters, ids)
    requires LastStored(s, last) && Replays(last, acts)
    requires UpsertsSucceed(c, Rebuilt(s, ids), acts)
    requires forall k | k in last :: SeenBefore(KeysOf(acts), |acts|, k)
    ensures Run(c, Rebuilt(s, ids), acts).active == s.active
    ensures EachOnce(c, s.active, Rebuilt(s, ids), acts)
  {
    RebuiltBehind(s, ids);
    ReplaysOnce(c, s, Rebuilt(s, ids), last, acts);
    ReplaysComplete(c, s, Rebuilt(s, ids), last, acts);
  }

  lemma ReplayHasFilter(s: State, last: map<string, ReplicaSet>, rs: ReplicaSet)
    requires Agree(s) && Stored(s) && LastStored(s, last) && WellNamed(rs)
    requires DeployKey(rs) in last && rs == last[DeployKey(rs)]
    ensures GrpcPort(rs) != 0 && FilterId(rs) in s.filters
  {
    WellNamedProper(rs);
  }

  /** Events with a port for filters that are there: none comes, none goes, and the gauge stays. */
  lemma {:induction false} UpdatesOnly(c: Config, t: State, acts: seq<Action>)
    requires forall a | a in acts :: a.Event? && GrpcPort(a.rs) != 0 && FilterId(a.rs) in t.filters
    ensures Run(c, t, acts).gauge == t.gauge && Run(c, t, acts).filters.Keys == t.filters.Keys
  {
    if acts != [] {
      var n := |acts| - 1;
      assert acts[n] in acts && forall a | a in acts[..n] :: a in acts;
      UpdatesOnly(c, t, acts[..n]);
      StepTakes(c, Run(c, t, acts[..n]), acts[n].rs, acts[n].faults);
    }
  }

  /**
   * The gauge does not recover: the replays update filters that are there, so it stays at the number
   * of entries that were read, short by every filter that did not fit the page or had no revision.
   */
  lemma GaugeStaysShort(c: Config, s: State, ids: seq<Id>, last: map<string, ReplicaSet>, acts: seq<Action>)
    requires Agree(s) && Stored(s) && FirstPage(s.filters, ids)
    requires LastStored(s, last) && Replays(last, acts) && AllWellFormed(acts)
    ensures var t := Run(c, Rebuilt(s, ids), acts); t.gauge == |Rebuilt(s, ids).active| && t.filters.Keys == s.filters.Keys
  {
    RebuiltIffOnePage(s, ids);
    forall a | a in acts
      ensures a.Event? && GrpcPort(a.rs) != 0 && FilterId(a.rs) in s.filters
    {
      ReplayHasFilter(s, last, a.rs);
    }
    UpdatesOnly(c, Rebuilt(s, ids), acts);
  }
}
