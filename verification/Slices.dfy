/** Serial histories, and their parts that belong to one deployment. */
module Slices {
  import opened Reconcile
  import opened MicroSteps
  import opened Workers

  /** What happens at once in the serial run: a whole step, or the cache entry of a deleted deployment going. */
  datatype Entry = Whole(t: Task) | Cleaned(key: string)

  function Without(s: State, k: string): State {
    s.(active := s.active - {k})
  }

  function At(e: Entry): string {
    match e case Whole(t) => t.key case Cleaned(key) => key
  }

  ghost function EntryStep(s: State, e: Entry): State {
    match e
    case Whole(t) => Finish(s, t, Decide)
    case Cleaned(key) => Without(s, key)
  }

  ghost function SerialRun(s: State, hist: seq<Entry>): State {
    if hist == [] then s else EntryStep(SerialRun(s, hist[..|hist| - 1]), hist[|hist| - 1])
  }

  lemma SerialSnoc(s: State, hist: seq<Entry>, e: Entry)
    ensures SerialRun(s, hist + [e]) == EntryStep(SerialRun(s, hist), e)
  {
    assert (hist + [e])[..|hist|] == hist;
  }

  /** The entries of one deployment. */
  ghost function Only(hist: seq<Entry>, k: string): seq<Entry> {
    if hist == [] then []
    else
      var last := hist[|hist| - 1];
      Only(hist[..|hist| - 1], k) + if At(last) == k then [last] else []
  }

  lemma OnlySnoc(hist: seq<Entry>, e: Entry, k: string)
    ensures Only(hist + [e], k) == Only(hist, k) + if At(e) == k then [e] else []
  {
    assert (hist + [e])[..|hist|] == hist;
  }

  ghost predicate HistGood(home: Home, hist: seq<Entry>) {
    forall e | e in hist && e.Whole? :: GoodTask(home, e.t)
  }

  lemma AgreeWithout(home: Home, k: string, s: State, a: State)
    requires AgreeOn(home, k, s, a)
    ensures AgreeOn(home, k, Without(s, k), Without(a, k))
  {
    forall id | home.ofFilter(id) == k
      ensures SameFilter(Without(s, k), Without(a, k), id)
    {
      assert SameFilter(s, a, id);
    }
    forall id | home.ofReplica(id) == k
      ensures SameReplica(Without(s, k), Without(a, k), id)
    {
      assert SameReplica(s, a, id);
    }
  }

  lemma AgreeReflexive(home: Home, k: string, s: State)
    ensures AgreeOn(home, k, s, s)
  {
  }

  /** An entry does the same to states alike on its deployment, and nothing to the others. */
  lemma EntrySame(home: Home, s: State, s': State, e: Entry, k: string)
    requires (e.Whole? ==> GoodTask(home, e.t)) && AgreeOn(home, k, s, s')
    ensures At(e) == k ==> AgreeOn(home, k, EntryStep(s, e), EntryStep(s', e))
    ensures At(e) == k ==> EntryStep(s, e).gauge - s.gauge == EntryStep(s', e).gauge - s'.gauge
    ensures At(e) != k ==> AgreeOn(home, k, EntryStep(s, e), s')
  {
    match e
    case Whole(t) =>
      if t.key == k {
        FinishSame(home, s, s', t, Decide);
      } else {
        FinishFrame(home, s, t, Decide, k);
        AgreeTransitive(home, k, Finish(s, t, Decide), s, s');
      }
    case Cleaned(key) =>
      if key == k {
        AgreeWithout(home, k, s, s');
      } else {
        assert AgreeOn(home, k, Without(s, key), s);
        AgreeTransitive(home, k, Without(s, key), s, s');
      }
  }

  lemma Unroll(s: State, hist: seq<Entry>, k: string)
    requires hist != []
    ensures var n := |hist| - 1;
      && SerialRun(s, hist) == EntryStep(SerialRun(s, hist[..n]), hist[n])
      && Only(hist, k) == Only(hist[..n], k) + (if At(hist[n]) == k then [hist[n]] else [])
      && SerialRun(s, Only(hist, k)) ==
           if At(hist[n]) == k then EntryStep(SerialRun(s, Only(hist[..n], k)), hist[n]) else SerialRun(s, Only(hist[..n], k))
  {
    var n := |hist| - 1;
    if At(hist[n]) == k {
      SerialSnoc(s, Only(hist[..n], k), hist[n]);
    } else {
      assert Only(hist, k) == Only(hist[..n], k);
    }
  }

  /** A deployment is left by a history as by its own entries alone. */
  lemma {:induction false} Slice(home: Home, s: State, hist: seq<Entry>, k: string)
    requires HistGood(home, hist)
    ensures AgreeOn(home, k, SerialRun(s, hist), SerialRun(s, Only(hist, k)))
  {
    if hist == [] {
      AgreeReflexive(home, k, s);
    } else {
      var n := |hist| - 1;
      assert hist[n] in hist && HistGood(home, hist[..n]);
      Slice(home, s, hist[..n], k);
      var u, v := SerialRun(s, hist[..n]), SerialRun(s, Only(hist[..n], k));
      Unroll(s, hist, k);
      EntrySame(home, u, v, hist[n], k);
    }
  }

  /** The history with a cleanup right before the last entry of its deployment. */
  ghost function InsertClean(hist: seq<Entry>, k: string): seq<Entry> {
    if hist == [] then [Cleaned(k)]
    else
      var n := |hist| - 1;
      if At(hist[n]) == k then hist[..n] + [Cleaned(k), hist[n]] else InsertClean(hist[..n], k) + [hist[n]]
  }

  /** The same for the entries of the deployment themselves. */
  ghost function CleanBeforeLast(h: seq<Entry>, k: string): seq<Entry> {
    if h == [] then [Cleaned(k)] else h[..|h| - 1] + [Cleaned(k), h[|h| - 1]]
  }

  lemma OnlyTwo(hist: seq<Entry>, e: Entry, e': Entry, k: string)
    ensures Only(hist + [e, e'], k) == Only(hist, k) + (if At(e) == k then [e] else []) + (if At(e') == k then [e'] else [])
  {
    OnlySnoc(hist, e, k);
    OnlySnoc(hist + [e], e', k);
    assert hist + [e, e'] == hist + [e] + [e'];
  }

  lemma {:induction false} OnlyInserted(hist: seq<Entry>, k: string, k': string)
    ensures Only(InsertClean(hist, k), k') == if k == k' then CleanBeforeLast(Only(hist, k), k) else Only(hist, k')
  {
    if hist == [] {
      OnlySnoc([], Cleaned(k), k');
      assert [] + [Cleaned(k)] == [Cleaned(k)];
    } else {
      var n := |hist| - 1;
      var before, e := hist[..n], hist[n];
      assert hist == before + [e];
      OnlySnoc(before, e, k);
      OnlySnoc(before, e, k');
      if At(e) == k {
        OnlyTwo(before, Cleaned(k), e, k');
        CleanedSnoc(Only(before, k), e, k);
      } else {
        OnlyInserted(before, k, k');
        OnlySnoc(InsertClean(before, k), e, k');
      }
    }
  }

  lemma CleanedSnoc(h: seq<Entry>, e: Entry, k: string)
    ensures CleanBeforeLast(h + [e], k) == h + [Cleaned(k)] + [e]
  {
    assert (h + [e])[..|h|] == h;
  }

  lemma {:induction false} InsertedIn(hist: seq<Entry>, k: string, e: Entry)
    ensures e in InsertClean(hist, k) <==> e in hist || e == Cleaned(k)
  {
    if hist != [] {
      var n := |hist| - 1;
      assert e in hist <==> e in hist[..n] || e == hist[n];
      if At(hist[n]) != k {
        InsertedIn(hist[..n], k, e);
      }
    }
  }

  /** What a step adds to the gauge. */
  ghost function Gain(s: State, t: Task): int {
    Finish(s, t, Decide).gauge - s.gauge
  }

  /** An inserted cleanup changes the gauge only through the step it comes before. */
  lemma {:induction false} GaugeInserted(home: Home, s: State, hist: seq<Entry>, k: string, t: Task)
    requires HistGood(home, hist) && GoodTask(home, t) && t.key == k
    requires var h := Only(hist, k); h != [] && h[|h| - 1] == Whole(t)
    ensures var h := Only(hist, k);
      var b := SerialRun(s, h[..|h| - 1]);
      SerialRun(s, InsertClean(hist, k)).gauge - SerialRun(s, hist).gauge == Gain(Without(b, k), t) - Gain(b, t)
  {
    var n := |hist| - 1;
    assert hist[n] in hist && HistGood(home, hist[..n]);
    if At(hist[n]) == k {
      GaugeInsertedLast(home, s, hist, k, t);
    } else {
      Unroll(s, hist, k);
      assert Only(hist, k) == Only(hist[..n], k);
      GaugeInserted(home, s, hist[..n], k, t);
      InsertedElsewhere(home, s, hist[..n], k, hist[n]);
    }
  }

  lemma GaugeInsertedLast(home: Home, s: State, hist: seq<Entry>, k: string, t: Task)
    requires HistGood(home, hist) && GoodTask(home, t) && t.key == k && hist != [] && At(hist[|hist| - 1]) == k
    requires var h := Only(hist, k); h != [] && h[|h| - 1] == Whole(t)
    ensures var h := Only(hist, k);
      var b := SerialRun(s, h[..|h| - 1]);
      SerialRun(s, InsertClean(hist, k)).gauge - SerialRun(s, hist).gauge == Gain(Without(b, k), t) - Gain(b, t)
  {
    var before := hist[..|hist| - 1];
    var u := SerialRun(s, before);
    Unroll(s, hist, k);
    assert hist[|hist| - 1] == Whole(t) && Only(hist, k)[..|Only(hist, k)| - 1] == Only(before, k);
    Slice(home, s, before, k);
    InsertedLast(home, u, SerialRun(s, Only(before, k)), t);
    RunInserted(s, before, k, Whole(t));
  }

  lemma RunInserted(s: State, before: seq<Entry>, k: string, e: Entry)
    ensures SerialRun(s, before + [Cleaned(k), e]) == EntryStep(Without(SerialRun(s, before), k), e)
  {
    assert before + [Cleaned(k), e] == before + [Cleaned(k)] + [e];
    SerialSnoc(s, before, Cleaned(k));
    SerialSnoc(s, before + [Cleaned(k)], e);
  }

  /** An entry of another deployment changes the gauge as it would without the cleanup. */
  lemma InsertedElsewhere(home: Home, s: State, before: seq<Entry>, k: string, e: Entry)
    requires HistGood(home, before) && (e.Whole? ==> GoodTask(home, e.t)) && At(e) != k
    ensures SerialRun(s, InsertClean(before, k) + [e]).gauge - SerialRun(s, InsertClean(before, k)).gauge ==
            EntryStep(SerialRun(s, before), e).gauge - SerialRun(s, before).gauge
  {
    var x, u, v := At(e), SerialRun(s, InsertClean(before, k)), SerialRun(s, before);
    InsertedGood(home, before, k);
    Slice(home, s, InsertClean(before, k), x);
    Slice(home, s, before, x);
    OnlyInserted(before, k, x);
    AgreeSymmetric(home, x, v, SerialRun(s, Only(before, x)));
    AgreeTransitive(home, x, u, SerialRun(s, Only(before, x)), v);
    EntrySame(home, u, v, e, x);
    SerialSnoc(s, InsertClean(before, k), e);
  }

  lemma InsertedGood(home: Home, hist: seq<Entry>, k: string)
    requires HistGood(home, hist)
    ensures HistGood(home, InsertClean(hist, k))
  {
    forall e | e in InsertClean(hist, k) && e.Whole?
      ensures GoodTask(home, e.t)
    {
      InsertedIn(hist, k, e);
    }
  }

  lemma InsertedLast(home: Home, s: State, b: State, t: Task)
    requires GoodTask(home, t) && AgreeOn(home, t.key, s, b)
    ensures Gain(s, t) == Gain(b, t) && Gain(Without(s, t.key), t) == Gain(Without(b, t.key), t)
  {
    FinishSame(home, s, b, t, Decide);
    AgreeWithout(home, t.key, s, b);
    FinishSame(home, Without(s, t.key), Without(b, t.key), t, Decide);
  }
}
