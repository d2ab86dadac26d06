/** A cache and the objects it stands for, kept in step: the part that does not depend on what they are. */
module Ledgers {
  import opened Prelude

  /**
   * How cache keys and objects are tied: the name of a key's object and the way back, the key an
   * object was written for, and when an object shows what its cache entry says.
   */
  datatype Scheme<!K, !E, !I, !F> = Scheme(name: K -> I, back: I -> K, key: F -> K, shows: (E, F) -> bool)

  ghost predicate Proper<K, E, I, F>(sc: Scheme<K, E, I, F>, k: K) {
    sc.back(sc.name(k)) == k
  }

  /** Every cached key has its object, which shows the entry; every object has the name of its key. */
  ghost predicate Covered<K, E, I, F>(sc: Scheme<K, E, I, F>, active: map<K, E>, objects: map<I, F>) {
    && (forall k | k in active ::
          Proper(sc, k) && sc.name(k) in objects && sc.key(objects[sc.name(k)]) == k && sc.shows(active[k], objects[sc.name(k)]))
    && (forall i | i in objects :: Proper(sc, sc.key(objects[i])) && sc.name(sc.key(objects[i])) == i)
  }

  /** Also no object without a cached key. */
  ghost predicate Agree<K, E, I, F>(sc: Scheme<K, E, I, F>, active: map<K, E>, objects: map<I, F>) {
    Covered(sc, active, objects) && forall i | i in objects :: sc.key(objects[i]) in active
  }

  lemma Written<K, E, I, F>(sc: Scheme<K, E, I, F>, active: map<K, E>, objects: map<I, F>, k: K, e: E, f: F)
    requires Covered(sc, active, objects) && Proper(sc, k) && sc.key(f) == k && sc.shows(e, f)
    ensures Covered(sc, active[k := e], objects[sc.name(k) := f])
    ensures Agree(sc, active, objects) ==> Agree(sc, active[k := e], objects[sc.name(k) := f])
  {
  }

  lemma Removed<K, E, I, F>(sc: Scheme<K, E, I, F>, active: map<K, E>, objects: map<I, F>, k: K)
    requires Covered(sc, active, objects) && Proper(sc, k)
    ensures Covered(sc, active - {k}, objects - {sc.name(k)})
    ensures Agree(sc, active, objects) ==> Agree(sc, active - {k}, objects - {sc.name(k)})
  {
  }

  /** Dropping the entry alone keeps the cover, but leaves an object that nothing stands for. */
  lemma Forgotten<K, E, I, F>(sc: Scheme<K, E, I, F>, active: map<K, E>, objects: map<I, F>, k: K)
    requires Covered(sc, active, objects) && k in active
    ensures Covered(sc, active - {k}, objects)
    ensures !Agree(sc, active - {k}, objects)
  {
    assert sc.name(k) in objects && sc.key(objects[sc.name(k)]) !in active - {k};
  }

  /** What a step makes of one cache entry, its object and the gauge. */
  datatype Effect<E, F> = Nothing | Wrote(entry: E, object': F) | Dropped | Forgot

  ghost predicate Takes<K, E, I, F>(
    active: map<K, E>, objects: map<I, F>, gauge: int, active': map<K, E>, objects': map<I, F>, gauge': int,
    k: K, i: I, e: Effect<E, F>)
  {
    match e
    case Nothing => active' == active && objects' == objects && gauge' == gauge
    case Forgot => k in active && active' == active - {k} && objects' == objects && gauge' == gauge
    case Dropped => k in active && active' == active - {k} && objects' == objects - {i} && gauge' == gauge - 1
    case Wrote(entry, f) =>
      active' == active[k := entry] && objects' == objects[i := f] && gauge' == gauge + (if i in objects then 0 else 1)
  }

  lemma RemovalSize<I, F>(objects: map<I, F>, i: I)
    ensures |objects - {i}| == |objects| - if i in objects then 1 else 0
  {
    assert (objects - {i}).Keys == objects.Keys - {i};
  }

  /** Every effect keeps the distance between the gauge and the number of objects. */
  lemma EffectCounts<K, E, I, F>(
    active: map<K, E>, objects: map<I, F>, gauge: int, active': map<K, E>, objects': map<I, F>, gauge': int,
    k: K, i: I, e: Effect<E, F>)
    requires Takes(active, objects, gauge, active', objects', gauge', k, i, e)
    requires k in active ==> i in objects
    ensures gauge' - |objects'| == gauge - |objects|
  {
    match e
    case Nothing =>
    case Forgot =>
    case Dropped => RemovalSize(objects, i);
    case Wrote(entry, f) => assert objects'.Keys == objects.Keys + {i};
  }

  /** Every effect keeps the cover; only Forgot breaks agreement, and it always does. */
  lemma EffectKeeps<K, E, I, F>(
    sc: Scheme<K, E, I, F>,
    active: map<K, E>, objects: map<I, F>, gauge: int, active': map<K, E>, objects': map<I, F>, gauge': int,
    k: K, e: Effect<E, F>)
    requires Covered(sc, active, objects) && Proper(sc, k)
    requires Takes(active, objects, gauge, active', objects', gauge', k, sc.name(k), e)
    requires e.Wrote? ==> sc.key(e.object') == k && sc.shows(e.entry, e.object')
    ensures Covered(sc, active', objects')
    ensures Agree(sc, active, objects) ==> (Agree(sc, active', objects') <==> !e.Forgot?)
  {
    match e
    case Nothing =>
    case Forgot => Forgotten(sc, active, objects, k);
    case Dropped => Removed(sc, active, objects, k);
    case Wrote(entry, f) => Written(sc, active, objects, k, entry, f);
  }

  lemma {:induction false} NamesCount<K, E, I, F>(sc: Scheme<K, E, I, F>, keys: set<K>)
    requires forall k | k in keys :: Proper(sc, k)
    ensures |set k | k in keys :: sc.name(k)| == |keys|
  {
    if keys != {} {
      var k :| k in keys;
      NamesCount(sc, keys - {k});
      var names := set x | x in keys - {k} :: sc.name(x);
      assert Proper(sc, k) && forall x | x in keys - {k} :: Proper(sc, x) && x != k;
      assert (set x | x in keys :: sc.name(x)) == names + {sc.name(k)};
    }
  }

  lemma Counts<K, E, I, F>(sc: Scheme<K, E, I, F>, active: map<K, E>, objects: map<I, F>)
    requires Agree(sc, active, objects)
    ensures |active| == |objects|
  {
    NamesCount(sc, active.Keys);
    assert (set k | k in active.Keys :: sc.name(k)) == objects.Keys;
  }

  // ---- A slot that newer values overwrite ----

  /** A value is offered at each step; it is taken when the slot is empty or holds no newer one. */
  ghost predicate Overwrites<E>(slot: seq<Option<E>>, offered: seq<Option<E>>, rank: E -> int) {
    && |slot| == |offered| + 1
    && forall i | 0 <= i < |offered| ::
      slot[i + 1] ==
        if offered[i].Some? && (slot[i].None? || rank(offered[i].value) >= rank(slot[i].value)) then offered[i] else slot[i]
  }

  /** Of the offers before `n`, the last of the highest rank. */
  ghost predicate Best<E>(offered: seq<Option<E>>, rank: E -> int, n: nat, i: nat)
    requires i < n <= |offered|
  {
    && offered[i].Some?
    && forall j | 0 <= j < n && offered[j].Some? ::
      rank(offered[j].value) < rank(offered[i].value) || (rank(offered[j].value) == rank(offered[i].value) && j <= i)
  }

  lemma {:induction false} BestStays<E>(slot: seq<Option<E>>, offered: seq<Option<E>>, rank: E -> int, n: nat)
    requires Overwrites(slot, offered, rank) && slot[0].None? && n <= |offered|
    ensures slot[n].None? <==> forall i | 0 <= i < n :: offered[i].None?
    ensures slot[n].Some? ==> exists i | 0 <= i < n :: Best(offered, rank, n, i)
    ensures forall i | 0 <= i < n && Best(offered, rank, n, i) :: slot[n] == offered[i]
  {
    if n > 0 {
      BestStays(slot, offered, rank, n - 1);
      if offered[n - 1].None? {
        assert forall i | 0 <= i < n - 1 && Best(offered, rank, n, i) :: Best(offered, rank, n - 1, i);
        if slot[n - 1].Some? {
          var i :| 0 <= i < n - 1 && Best(offered, rank, n - 1, i);
          assert Best(offered, rank, n, i);
        }
      } else if slot[n - 1].None? {
        assert Best(offered, rank, n, n - 1);
      } else {
        var j :| 0 <= j < n - 1 && Best(offered, rank, n - 1, j);
        if rank(offered[n - 1].value) >= rank(offered[j].value) {
          assert Best(offered, rank, n, n - 1);
        } else {
          assert Best(offered, rank, n, j);
        }
      }
    }
  }
}
