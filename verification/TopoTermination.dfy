/** When the destructive sort comes back at all: exactly when its roots reach no import cycle. */
module TopoTermination {
  import opened Prelude
  import opened ImportGraph

  type ImportLists = map<string, seq<string>>

  ghost function Edges(files: ImportLists): Graph {
    map n | n in files :: set d | d in files[n]
  }

  /** What a run gives back: the order of the names and the files left in the map. */
  datatype Run = Run(order: seq<string>, left: ImportLists)

  /** The sort with its recursion cut off below `depth` nested calls; None when the cut is hit. */
  ghost function SortWithin(names: seq<string>, files: ImportLists, depth: nat): Option<Run>
    decreases depth, |names|
  {
    if names == [] then
      Some(Run([], files))
    else if names[0] !in files then
      SortWithin(names[1..], files, depth)
    else if depth == 0 then
      None
    else
      match SortWithin(files[names[0]], files, depth - 1)
      case None => None
      case Some(imports) =>
        match SortWithin(names[1..], imports.left - {names[0]}, depth)
        case None => None
        case Some(rest) => Some(Run(imports.order + [names[0]] + rest.order, rest.left))
  }

  lemma EdgesAfterRemoval(files: ImportLists, done: set<string>)
    ensures Edges(files - done) == Edges(files) - done
  {
  }

  lemma RootClear(g: Graph, name: string, deps: seq<string>)
    requires name in g && (set d | d in deps) == g[name]
    requires NoCycleFrom(g, deps)
    ensures ReachSet(g, [name]) == ReachSet(g, deps) + {name}
    ensures NoCycleFrom(g, [name])
  {
    ReachFromRoot(g, name, deps);
  }

  /** What remains has a reachable cycle exactly when the whole graph has one. */
  lemma RestClear(g: Graph, name: string, rest: seq<string>)
    requires NoCycleFrom(g, [name])
    ensures NoCycleFrom(g, [name] + rest) <==> NoCycleFrom(g - ReachSet(g, [name]), rest)
    ensures ReachSet(g, [name] + rest) == ReachSet(g, [name]) + ReachSet(g - ReachSet(g, [name]), rest)
  {
    var done := ReachSet(g, [name]);
    ReachSetClosed(g, [name]);
    ReachSplit(g, [name], rest);
    ReachAfterRemoval(g, done, rest);
    AvoidsAll(g, done);
    SplitByDone(g, done, ReachSet(g, rest), ReachSet(g, [name] + rest), ReachSet(g - done, rest));
  }

  lemma CyclesSplit(g: Graph, name: string, deps: seq<string>, rest: seq<string>)
    requires name in g && (set d | d in deps) == g[name]
    requires NoCycleFrom(g, deps)
    ensures ReachSet(g, [name]) == ReachSet(g, deps) + {name}
    ensures NoCycleFrom(g, [name] + rest) <==> NoCycleFrom(g - ReachSet(g, [name]), rest)
    ensures ReachSet(g, [name] + rest) == ReachSet(g, [name]) + ReachSet(g - ReachSet(g, [name]), rest)
  {
    RootClear(g, name, deps);
    RestClear(g, name, rest);
  }

  lemma SplitByDone(g: Graph, done: set<string>, reached: set<string>, all: set<string>, left: set<string>)
    requires forall n | n in done :: !Below(g, n, n)
    requires all == done + reached && left == reached - done
    requires forall n | n !in done :: Below(g, n, n) <==> Below(g - done, n, n)
    ensures (forall n | n in all :: !Below(g, n, n)) <==> (forall n | n in left :: !Below(g - done, n, n))
    ensures all == done + left
  {
  }

  lemma RootOutside(g: Graph, name: string, rest: seq<string>)
    requires name !in g
    ensures ReachSet(g, [name] + rest) == ReachSet(g, rest)
  {
    ReachSplit(g, [name], rest);
    forall b | b in ReachSet(g, [name])
      ensures false
    {
      Unfold(g, name, b);
    }
  }

  lemma LeftOver(files: ImportLists, a: set<string>, name: string)
    ensures files - a - {name} == files - (a + {name})
  {
  }

  lemma {:induction false} ReturnsOnlyWithoutCycle(names: seq<string>, files: ImportLists, depth: nat)
    requires SortWithin(names, files, depth).Some?
    ensures NoCycleFrom(Edges(files), names)
    ensures SortWithin(names, files, depth).value.left == files - ReachSet(Edges(files), names)
    decreases depth, |names|
  {
    var g := Edges(files);
    if names == [] {
    } else if names[0] !in files {
      ReturnsOnlyWithoutCycle(names[1..], files, depth);
      RootOutside(g, names[0], names[1..]);
      assert names == [names[0]] + names[1..];
    } else {
      var name, deps, rest := names[0], files[names[0]], names[1..];
      assert names == [name] + rest;
      ReturnsOnlyWithoutCycle(deps, files, depth - 1);
      var imports := SortWithin(deps, files, depth - 1).value;
      CyclesSplit(g, name, deps, rest);
      var done := ReachSet(g, [name]);
      LeftOver(files, ReachSet(g, deps), name);
      ReturnsOnlyWithoutCycle(rest, files - done, depth);
      EdgesAfterRemoval(files, done);
    }
  }

  lemma ImportsSmaller(g: Graph, name: string, deps: seq<string>, rest: seq<string>)
    requires name in g && (set d | d in deps) == g[name]
    requires NoCycleFrom(g, [name] + rest)
    ensures NoCycleFrom(g, deps)
    ensures |ReachSet(g, deps)| < |ReachSet(g, [name] + rest)|
  {
    ReachFromRoot(g, name, deps);
    ReachSplit(g, [name], rest);
    SmallerSet(ReachSet(g, deps), ReachSet(g, [name] + rest), name);
  }

  /** What the two recursive calls of a present root need. */
  lemma Branches(files: ImportLists, name: string, rest: seq<string>)
    requires name in files && NoCycleFrom(Edges(files), [name] + rest)
    ensures var g, deps := Edges(files), files[name];
      var done := ReachSet(g, deps) + {name};
      && NoCycleFrom(g, deps) && |ReachSet(g, deps)| < |ReachSet(g, [name] + rest)|
      && NoCycleFrom(Edges(files - done), rest) && |ReachSet(Edges(files - done), rest)| <= |ReachSet(g, [name] + rest)|
      && files - ReachSet(g, deps) - {name} == files - done
  {
    var g, deps := Edges(files), files[name];
    ImportsSmaller(g, name, deps, rest);
    CyclesSplit(g, name, deps, rest);
    var done := ReachSet(g, [name]);
    EdgesAfterRemoval(files, done);
    SubsetSize(ReachSet(g - done, rest), ReachSet(g, [name] + rest));
    LeftOver(files, ReachSet(g, deps), name);
  }

  lemma {:induction false} ReturnsWithoutCycle(names: seq<string>, files: ImportLists, depth: nat)
    requires NoCycleFrom(Edges(files), names)
    requires |ReachSet(Edges(files), names)| <= depth
    ensures SortWithin(names, files, depth).Some?
    decreases depth, |names|
  {
    if names == [] {
    } else if names[0] !in files {
      RootOutside(Edges(files), names[0], names[1..]);
      assert names == [names[0]] + names[1..];
      ReturnsWithoutCycle(names[1..], files, depth);
    } else {
      var name, deps, rest := names[0], files[names[0]], names[1..];
      assert names == [name] + rest;
      Branches(files, name, rest);
      ReturnsWithoutCycle(deps, files, depth - 1);
      ReturnsOnlyWithoutCycle(deps, files, depth - 1);
      ReturnsWithoutCycle(rest, files - (ReachSet(Edges(files), deps) + {name}), depth);
    }
  }

  /**
   * The unguarded recursion returns exactly when no cycle is reachable from the names;
   * it then takes from the map exactly the files the names reach.
   */
  lemma SortReturnsIffNoCycle(names: seq<string>, files: ImportLists)
    ensures (exists depth: nat :: SortWithin(names, files, depth).Some?) <==> NoCycleFrom(Edges(files), names)
    ensures forall depth: nat | SortWithin(names, files, depth).Some? ::
      SortWithin(names, files, depth).value.left == files - ReachSet(Edges(files), names)
  {
    forall depth: nat | SortWithin(names, files, depth).Some?
      ensures NoCycleFrom(Edges(files), names)
      ensures SortWithin(names, files, depth).value.left == files - ReachSet(Edges(files), names)
    {
      ReturnsOnlyWithoutCycle(names, files, depth);
    }
    if NoCycleFrom(Edges(files), names) {
      ReturnsWithoutCycle(names, files, |ReachSet(Edges(files), names)|);
    }
  }

  /** A deeper cut changes nothing once the sort comes back. */
  lemma {:induction false} DeeperIsSame(names: seq<string>, files: ImportLists, depth: nat, deeper: nat)
    requires SortWithin(names, files, depth).Some? && depth <= deeper
    ensures SortWithin(names, files, deeper) == SortWithin(names, files, depth)
    decreases depth, |names|
  {
    if names == [] {
    } else if names[0] !in files {
      DeeperIsSame(names[1..], files, depth, deeper);
    } else {
      DeeperIsSame(files[names[0]], files, depth - 1, deeper - 1);
      var imports := SortWithin(files[names[0]], files, depth - 1).value;
      DeeperIsSame(names[1..], imports.left - {names[0]}, depth, deeper);
    }
  }

  // ---- The order ----

  /** A run with names before its own. */
  ghost function After(order: seq<string>, r: Option<Run>): Option<Run> {
    match r case None => None case Some(run) => Some(Run(order + run.order, run.left))
  }

  lemma AfterEnds(a: seq<string>, r: Option<Run>)
    ensures After([], r) == r && (r.Some? && r.value.order == [] ==> After(a, r) == Some(Run(a, r.value.left)))
  {
    if r.Some? {
      assert [] + r.value.order == r.value.order && a + [] == a;
    }
  }

  lemma AfterTwice(a: seq<string>, b: seq<string>, r: Option<Run>)
    ensures After(a, After(b, r)) == After(a + b, r)
  {
    if r.Some? {
      assert a + (b + r.value.order) == a + b + r.value.order;
    }
  }

  /** The names from the i-th on. */
  lemma SortStep(names: seq<string>, i: nat, files: ImportLists, depth: nat)
    requires i < |names| && SortWithin(names[i..], files, depth).Some?
    ensures names[i] !in files ==> SortWithin(names[i..], files, depth) == SortWithin(names[i + 1..], files, depth)
    ensures names[i] in files ==> depth > 0 && SortWithin(files[names[i]], files, depth - 1).Some?
    ensures names[i] in files ==>
      var imports := SortWithin(files[names[i]], files, depth - 1).value;
      SortWithin(names[i..], files, depth) ==
        After(imports.order + [names[i]], SortWithin(names[i + 1..], imports.left - {names[i]}, depth))
  {
    assert names[i..][0] == names[i] && names[i..][1..] == names[i + 1..];
  }

  ghost predicate NamedBefore(order: seq<string>, i: nat, d: string)
    requires i <= |order|
  {
    exists j | 0 <= j < i :: order[j] == d
  }

  /** Present files, each once, and after all its present imports. */
  ghost predicate Ordered(files: ImportLists, order: seq<string>) {
    && (forall i, j | 0 <= i < j < |order| :: order[i] != order[j])
    && (forall i | 0 <= i < |order| :: order[i] in files)
    && forall i, d | 0 <= i < |order| && order[i] in files && d in files[order[i]] && d in files :: NamedBefore(order, i, d)
  }

  ghost function Named(order: seq<string>): set<string> {
    set n | n in order
  }

  /** Sorting what is left and appending it keeps the whole order. */
  lemma OrderedAppend(files: ImportLists, a: seq<string>, b: seq<string>)
    requires Ordered(files, a) && Ordered(files - Named(a), b)
    ensures Ordered(files, a + b) && Named(a + b) == Named(a) + Named(b)
  {
    var list := a + b;
    forall i, j | 0 <= i < j < |list|
      ensures list[i] != list[j]
    {
      if i < |a| <= j {
        assert b[j - |a|] in files - Named(a) && a[i] in Named(a);
      }
    }
    forall i, d | 0 <= i < |list| && list[i] in files && d in files[list[i]] && d in files
      ensures NamedBefore(list, i, d)
    {
      if i < |a| {
        assert NamedBefore(a, i, d);
        var j :| 0 <= j < i && a[j] == d;
        assert list[j] == d;
      } else if d in Named(a) {
        var j :| 0 <= j < |a| && a[j] == d;
        assert list[j] == d;
      } else {
        assert NamedBefore(b, i - |a|, d);
        var j :| 0 <= j < i - |a| && b[j] == d;
        assert list[|a| + j] == d;
      }
    }
  }

  /** A file whose present imports are all there may come next. */
  lemma OrderedSnoc(files: ImportLists, a: seq<string>, name: string)
    requires Ordered(files, a) && name in files && name !in a && forall d | d in files[name] && d in files :: d in a
    ensures Ordered(files, a + [name]) && Named(a + [name]) == Named(a) + {name}
  {
    assert Ordered(files - Named(a), [name]);
    OrderedAppend(files, a, [name]);
  }

  lemma LeftThen(files: ImportLists, a: seq<string>, name: string, b: seq<string>)
    ensures files - Named(a) - {name} - Named(b) == files - Named(a + [name] + b)
  {
    assert Named(a + [name] + b) == Named(a) + {name} + Named(b);
  }

  /**
   * The order of a run: exactly the present files that the names reach, each once, after all its present
   * imports; and these are the files that are gone.
   */
  lemma {:induction false} OrderIs(names: seq<string>, files: ImportLists, depth: nat)
    requires SortWithin(names, files, depth).Some?
    ensures var run := SortWithin(names, files, depth).value;
      Ordered(files, run.order) && run.left == files - Named(run.order) && Named(run.order) == ReachSet(Edges(files), names)
    decreases depth, |names|
  {
    var run := SortWithin(names, files, depth).value;
    ReturnsOnlyWithoutCycle(names, files, depth);
    if names == [] {
    } else if names[0] !in files {
      OrderIs(names[1..], files, depth);
    } else {
      var name, deps := names[0], files[names[0]];
      var imports := SortWithin(deps, files, depth - 1).value;
      OrderIs(deps, files, depth - 1);
      ReachSetClosed(Edges(files), deps);
      OwnNameLast(names, files, imports.order);
      OrderedSnoc(files, imports.order, name);
      var rest := SortWithin(names[1..], imports.left - {name}, depth).value;
      OrderIs(names[1..], imports.left - {name}, depth);
      assert imports.left - {name} == files - Named(imports.order + [name]);
      OrderedAppend(files, imports.order + [name], rest.order);
      LeftThen(files, imports.order, name, rest.order);
    }
    SameTaken(files, Named(run.order), ReachSet(Edges(files), names));
  }

  /** Without a cycle a file is not among the files that its imports reach. */
  lemma OwnNameLast(names: seq<string>, files: ImportLists, order: seq<string>)
    requires names != [] && names[0] in files && NoCycleFrom(Edges(files), names)
    requires Named(order) == ReachSet(Edges(files), files[names[0]])
    ensures names[0] !in order && forall d | d in files[names[0]] && d in files :: d in order
  {
    var g, name := Edges(files), names[0];
    ReachFromRoot(g, name, files[name]);
    ReachSetClosed(g, names);
    ReachSetClosed(g, files[name]);
    assert name in ReachSet(g, names);
    assert forall d :: d in order <==> d in Named(order);
  }

  lemma SameTaken(files: ImportLists, a: set<string>, b: set<string>)
    requires a <= files.Keys && b <= files.Keys && files - a == files - b
    ensures a == b
  {
    forall x
      ensures x in a <==> x in b
    {
      if x in files {
        assert x in a <==> x !in files - a;
        assert x in b <==> x !in files - b;
      }
    }
  }

  /** Files without imports stay in the order of the names. */
  lemma {:induction false} SortKeepsOrder(names: seq<string>, files: ImportLists, depth: nat)
    requires depth > 0 && (forall n | n in names :: n in files && files[n] == []) && forall i, j | 0 <= i < j < |names| :: names[i] != names[j]
    ensures SortWithin(names, files, depth).Some? && SortWithin(names, files, depth).value.order == names
  {
    if names != [] {
      var rest, left := names[1..], files - {names[0]};
      assert names[0] in names && SortWithin(files[names[0]], files, depth - 1) == Some(Run([], files));
      forall n | n in rest
        ensures n in left && left[n] == []
      {
        assert n in names;
      }
      SortKeepsOrder(rest, left, depth);
      assert names == [names[0]] + rest;
    }
  }
}
