/** Finite import graphs: who imports whom, what can be reached, what lies on a cycle. */
module ImportGraph {

  /** The keys are the files that are present; an edge may lead to an absent file. */
  type Graph = map<string, set<string>>

  /** `b` is `n` imports away from `a`, every file on the way being present. */
  ghost predicate ReachesIn(g: Graph, a: string, b: string, n: nat)
    decreases n
  {
    a in g && b in g &&
    if n == 0 then a == b else exists d | d in g[a] :: ReachesIn(g, d, b, n - 1)
  }

  ghost predicate Reaches(g: Graph, a: string, b: string) {
    exists n: nat :: ReachesIn(g, a, b, n)
  }

  /** `a` imports `b`, directly or not: at least one import. */
  ghost predicate Below(g: Graph, a: string, b: string) {
    a in g && exists d | d in g[a] :: Reaches(g, d, b)
  }

  ghost function ReachSet(g: Graph, roots: seq<string>): set<string> {
    set b | b in g && exists r | r in roots :: Reaches(g, r, b)
  }

  /** No file that can be reached from the roots imports itself. */
  ghost predicate NoCycleFrom(g: Graph, roots: seq<string>) {
    forall n | n in ReachSet(g, roots) :: !Below(g, n, n)
  }

  /** `done` contains every present import of its members. */
  ghost predicate Closed(g: Graph, done: set<string>) {
    forall n, d | n in done && n in g && d in g[n] && d in g :: d in done
  }

  ghost predicate Subgraph(g: Graph, h: Graph) {
    forall n | n in g :: n in h && g[n] <= h[n]
  }

  lemma Reflexive(g: Graph, a: string)
    requires a in g
    ensures Reaches(g, a, a)
  {
    assert ReachesIn(g, a, a, 0);
  }

  lemma Extend(g: Graph, a: string, d: string, b: string)
    requires a in g && d in g[a] && Reaches(g, d, b)
    ensures Reaches(g, a, b) && Below(g, a, b)
  {
    var n: nat :| ReachesIn(g, d, b, n);
    assert ReachesIn(g, a, b, n + 1);
  }

  lemma Unfold(g: Graph, a: string, b: string)
    requires Reaches(g, a, b)
    ensures a in g && b in g && (a == b || Below(g, a, b))
  {
    var n: nat :| ReachesIn(g, a, b, n);
    if n > 0 {
      var d :| d in g[a] && ReachesIn(g, d, b, n - 1);
      assert Reaches(g, d, b);
    }
  }

  lemma {:induction false} TransitiveIn(g: Graph, a: string, b: string, c: string, n: nat)
    requires ReachesIn(g, a, b, n) && Reaches(g, b, c)
    ensures Reaches(g, a, c)
    decreases n
  {
    if n > 0 {
      var d :| d in g[a] && ReachesIn(g, d, b, n - 1);
      TransitiveIn(g, d, b, c, n - 1);
      Extend(g, a, d, c);
    }
  }

  lemma Transitive(g: Graph, a: string, b: string, c: string)
    requires Reaches(g, a, b) && Reaches(g, b, c)
    ensures Reaches(g, a, c)
  {
    var n: nat :| ReachesIn(g, a, b, n);
    TransitiveIn(g, a, b, c, n);
  }

  /** Reachable files are closed under present imports. */
  lemma ReachSetClosed(g: Graph, roots: seq<string>)
    ensures Closed(g, ReachSet(g, roots))
    ensures forall r | r in roots && r in g :: r in ReachSet(g, roots)
  {
    var done := ReachSet(g, roots);
    forall n, d | n in done && n in g && d in g[n] && d in g
      ensures d in done
    {
      var r :| r in roots && Reaches(g, r, n);
      Reflexive(g, d);
      Extend(g, n, d, d);
      Transitive(g, r, n, d);
    }
    forall r | r in roots && r in g
      ensures r in done
    {
      Reflexive(g, r);
    }
  }

  lemma {:induction false} ClosedKeepsIn(g: Graph, done: set<string>, a: string, b: string, n: nat)
    requires Closed(g, done) && a in done && ReachesIn(g, a, b, n)
    ensures b in done
    decreases n
  {
    if n > 0 {
      var d :| d in g[a] && ReachesIn(g, d, b, n - 1);
      ClosedKeepsIn(g, done, d, b, n - 1);
    }
  }

  /** Inside a closed set, a graph with the same imports there reaches the same. */
  lemma {:induction false} ReachesInside(g: Graph, h: Graph, done: set<string>, a: string, b: string, n: nat)
    requires Closed(g, done) && forall x | x in done :: x in g && x in h && h[x] == g[x]
    requires a in done && ReachesIn(g, a, b, n)
    ensures ReachesIn(h, a, b, n)
    decreases n
  {
    if n > 0 {
      var d :| d in g[a] && ReachesIn(g, d, b, n - 1);
      ReachesInside(g, h, done, d, b, n - 1);
    }
  }

  lemma {:induction false} SubgraphReachesIn(g: Graph, h: Graph, a: string, b: string, n: nat)
    requires Subgraph(g, h) && ReachesIn(g, a, b, n)
    ensures ReachesIn(h, a, b, n)
    decreases n
  {
    if n > 0 {
      var d :| d in g[a] && ReachesIn(g, d, b, n - 1);
      SubgraphReachesIn(g, h, d, b, n - 1);
    }
  }

  lemma SubgraphReaches(g: Graph, h: Graph, a: string, b: string)
    requires Subgraph(g, h)
    ensures Reaches(g, a, b) ==> Reaches(h, a, b)
    ensures Below(g, a, b) ==> Below(h, a, b)
  {
    forall x | Reaches(g, x, b)
      ensures Reaches(h, x, b)
    {
      var n: nat :| ReachesIn(g, x, b, n);
      SubgraphReachesIn(g, h, x, b, n);
    }
  }

  lemma {:induction false} AvoidsIn(g: Graph, done: set<string>, a: string, b: string, n: nat)
    requires Closed(g, done) && b !in done && ReachesIn(g, a, b, n)
    ensures a !in done && ReachesIn(g - done, a, b, n)
    decreases n
  {
    if a in done {
      ClosedKeepsIn(g, done, a, b, n);
      assert false;
    }
    if n > 0 {
      var d :| d in g[a] && ReachesIn(g, d, b, n - 1);
      AvoidsIn(g, done, d, b, n - 1);
      assert d in (g - done)[a];
    }
  }

  /** Taking a closed set out of the graph changes no path to what remains. */
  lemma Avoids(g: Graph, done: set<string>, a: string, b: string)
    requires Closed(g, done) && b !in done
    ensures Reaches(g, a, b) <==> Reaches(g - done, a, b)
    ensures Below(g, a, b) ==> a !in done
    ensures Below(g, a, b) <==> Below(g - done, a, b)
  {
    forall x
      ensures Reaches(g, x, b) <==> Reaches(g - done, x, b)
      ensures Reaches(g, x, b) ==> x !in done
    {
      SubgraphReaches(g - done, g, x, b);
      if Reaches(g, x, b) {
        var n: nat :| ReachesIn(g, x, b, n);
        AvoidsIn(g, done, x, b, n);
      }
    }
    if Below(g, a, b) {
      var d :| d in g[a] && Reaches(g, d, b);
      assert Reaches(g - done, d, b);
      Extend(g, a, d, b);
      assert a !in done && a in g - done && (g - done)[a] == g[a];
    }
    if Below(g - done, a, b) {
      var d :| d in (g - done)[a] && Reaches(g - done, d, b);
      assert Reaches(g, d, b);
    }
  }

  lemma AvoidsAll(g: Graph, done: set<string>)
    requires Closed(g, done)
    ensures forall a, b | b !in done :: Reaches(g, a, b) <==> Reaches(g - done, a, b)
    ensures forall a, b | b !in done :: Below(g, a, b) <==> Below(g - done, a, b)
  {
    forall a, b | b !in done
      ensures Reaches(g, a, b) <==> Reaches(g - done, a, b)
      ensures Below(g, a, b) <==> Below(g - done, a, b)
    {
      Avoids(g, done, a, b);
    }
  }

  /** With a closed set out of the graph, the roots reach what they reached before, less that set. */
  lemma ReachAfterRemoval(g: Graph, done: set<string>, roots: seq<string>)
    requires Closed(g, done) && done <= g.Keys
    ensures ReachSet(g - done, roots) == ReachSet(g, roots) - done
  {
    AvoidsAll(g, done);
    forall b
      ensures b in ReachSet(g - done, roots) <==> b in ReachSet(g, roots) - done
    {
    }
  }

  /** From a present root: the root and everything its imports reach. */
  lemma ReachFromRoot(g: Graph, a: string, imports: seq<string>)
    requires a in g && (set d | d in imports) == g[a]
    ensures ReachSet(g, [a]) == ReachSet(g, imports) + {a}
    ensures a in ReachSet(g, imports) <==> Below(g, a, a)
  {
    assert forall d :: d in imports <==> d in g[a];
    Reflexive(g, a);
    forall b | b in g
      ensures b in ReachSet(g, [a]) <==> b in ReachSet(g, imports) || b == a
    {
      assert Reaches(g, a, b) <==> b in ReachSet(g, [a]) by {
        if b in ReachSet(g, [a]) { var r :| r in [a] && Reaches(g, r, b); }
        if Reaches(g, a, b) { assert a in [a]; }
      }
      if Reaches(g, a, b) {
        Unfold(g, a, b);
      }
      if d :| d in imports && Reaches(g, d, b) {
        Extend(g, a, d, b);
      }
    }
  }

  lemma ReachSplit(g: Graph, a: seq<string>, b: seq<string>)
    ensures ReachSet(g, a + b) == ReachSet(g, a) + ReachSet(g, b)
  {
    assert forall r :: r in a + b <==> r in a || r in b;
  }

  /** What roots reach they reach in every graph with the same imports for all that they reach. */
  lemma ReachedInside(g: Graph, h: Graph, roots: seq<string>, n: string)
    requires n in ReachSet(g, roots) && forall x | x in ReachSet(g, roots) :: x in h && h[x] == g[x]
    ensures exists root | root in roots :: Reaches(h, root, n)
  {
    ReachSetClosed(g, roots);
    var root :| root in roots && Reaches(g, root, n);
    var k: nat :| ReachesIn(g, root, n, k);
    ReachesInside(g, h, ReachSet(g, roots), root, n, k);
    assert Reaches(h, root, n);
  }
}
