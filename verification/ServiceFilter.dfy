/** Which gRPC services go into a filter: the include and exclude annotations. */
module ServiceFilter {
  import opened Prelude

  /** White space in the sense of Go's unicode.IsSpace. */
  predicate IsSpace(c: char) {
    || c in "\t\n\U{0B}\U{0C}\r \U{85}\U{A0}\U{1680}\U{2028}\U{2029}\U{202F}\U{205F}\U{3000}"
    || '\U{2000}' <= c <= '\U{200A}'
  }

  function TrimLeft(s: string): string {
    if s != "" && IsSpace(s[0]) then TrimLeft(s[1..]) else s
  }

  function TrimRight(s: string): string {
    if s != "" && IsSpace(s[|s| - 1]) then TrimRight(s[..|s| - 1]) else s
  }

  function TrimSpace(s: string): string {
    TrimRight(TrimLeft(s))
  }

  lemma {:induction false} TrimLeftIs(s: string) returns (left: string)
    ensures s == left + TrimLeft(s) && forall c | c in left :: IsSpace(c)
    ensures TrimLeft(s) != "" ==> !IsSpace(TrimLeft(s)[0])
  {
    left := "";
    if s != "" && IsSpace(s[0]) {
      left := TrimLeftIs(s[1..]);
      left := [s[0]] + left;
    }
  }

  lemma {:induction false} TrimRightIs(s: string) returns (right: string)
    ensures s == TrimRight(s) + right && forall c | c in right :: IsSpace(c)
    ensures TrimRight(s) != "" ==> !IsSpace(TrimRight(s)[|TrimRight(s)| - 1])
  {
    right := "";
    if s != "" && IsSpace(s[|s| - 1]) {
      var init, last := s[..|s| - 1], s[|s| - 1];
      right := TrimRightIs(init);
      Regroup(TrimRight(init), right, last, s);
      right := right + [last];
    }
  }

  lemma Regroup(a: string, b: string, c: char, s: string)
    requires s != "" && s[..|s| - 1] == a + b && s[|s| - 1] == c
    ensures s == a + (b + [c])
  {
  }

  /** Trimming takes the white space from both ends, all of it, and nothing else. */
  lemma TrimSpaceIs(s: string) returns (left: string, right: string)
    ensures s == left + TrimSpace(s) + right && forall c | c in left + right :: IsSpace(c)
    ensures var t := TrimSpace(s); t != "" ==> !IsSpace(t[0]) && !IsSpace(t[|t| - 1])
  {
    left := TrimLeftIs(s);
    right := TrimRightIs(TrimLeft(s));
    if TrimSpace(s) != "" {
      assert TrimSpace(s)[0] == TrimLeft(s)[0];
    }
  }

  /** Blank, tab and line ends are white space; what a service name is written with is not. */
  lemma SpacesAre(c: char)
    ensures c in " \t\n\r" ==> IsSpace(c)
    ensures 'a' <= c <= 'z' || 'A' <= c <= 'Z' || '0' <= c <= '9' || c in "._-/," ==> !IsSpace(c)
  {
  }

  /** The pieces between separators; one more than there are separators. */
  function Split(s: string, sep: char): (r: seq<string>)
    ensures |r| >= 1
  {
    if s == "" then [""]
    else
      var rest := Split(s[1..], sep);
      if s[0] == sep then [""] + rest else [[s[0]] + rest[0]] + rest[1..]
  }

  function Join(parts: seq<string>, sep: char): string {
    if |parts| == 0 then "" else if |parts| == 1 then parts[0] else parts[0] + [sep] + Join(parts[1..], sep)
  }

  lemma JoinCons(first: string, rest: seq<string>, sep: char)
    requires rest != []
    ensures Join([first] + rest, sep) == first + [sep] + Join(rest, sep)
  {
    assert ([first] + rest)[1..] == rest;
  }

  lemma JoinPrepend(c: char, parts: seq<string>, sep: char)
    requires parts != []
    ensures Join([[c] + parts[0]] + parts[1..], sep) == [c] + Join(parts, sep)
  {
    if |parts| > 1 {
      JoinCons([c] + parts[0], parts[1..], sep);
    }
  }

  /** Splitting loses nothing. */
  lemma {:induction false} SplitJoin(s: string, sep: char)
    ensures Join(Split(s, sep), sep) == s
  {
    if s != "" {
      SplitJoin(s[1..], sep);
      if s[0] == sep {
        JoinCons("", Split(s[1..], sep), sep);
      } else {
        JoinPrepend(s[0], Split(s[1..], sep), sep);
      }
      assert s == [s[0]] + s[1..];
    }
  }

  /** Splitting leaves no separator inside a piece. */
  lemma {:induction false} SplitClean(s: string, sep: char, k: nat)
    requires k < |Split(s, sep)|
    ensures sep !in Split(s, sep)[k]
  {
    if s != "" {
      if s[0] == sep {
        if k > 0 {
          SplitClean(s[1..], sep, k - 1);
        }
      } else {
        SplitClean(s[1..], sep, k);
      }
    }
  }

  /** The entries of an annotation: none for the empty text, else at least one. */
  ghost function Entries(s: string): set<string> {
    if s == "" then {} else set p | p in Split(s, ',') :: TrimSpace(p)
  }

  method MapFromString(s: string) returns (m: map<string, bool>)
    ensures m.Keys == Entries(s) && forall e | e in m :: m[e]
    ensures |m| > 0 <==> s != ""
  {
    m := map[];
    if s == "" {
      return;
    }
    var parts := Split(s, ',');
    for i := 0 to |parts|
      invariant m.Keys == (set p | p in parts[..i] :: TrimSpace(p)) && forall e | e in m :: m[e]
    {
      assert parts[..i + 1] == parts[..i] + [parts[i]];
      m := m[TrimSpace(parts[i]) := true];
    }
    assert parts[..|parts|] == parts;
    assert TrimSpace(parts[0]) in m;
  }

  /** The services in the set, or those outside it, in their order. */
  ghost function Kept(services: seq<string>, entries: set<string>, inside: bool): seq<string> {
    if services == [] then []
    else
      var last := |services| - 1;
      Kept(services[..last], entries, inside) + if (services[last] in entries) == inside then [services[last]] else []
  }

  /** What an annotated replica set keeps of its services; None is a panic. */
  ghost function Filtered(services: seq<string>, excluding: string, including: string): Option<seq<string>> {
    if excluding != "" then
      if |Entries(excluding)| > |services| then None else Some(Kept(services, Entries(excluding), false))
    else if including != "" then
      Some(Kept(services, Entries(including), true))
    else
      Some(services)
  }

  /** The loop over the services for an exclude list. */
  method Without(services: seq<string>, excluded: map<string, bool>) returns (result: seq<string>)
    requires forall e | e in excluded :: excluded[e]
    ensures result == Kept(services, excluded.Keys, false)
  {
    result := [];
    for i := 0 to |services|
      invariant result == Kept(services[..i], excluded.Keys, false)
    {
      assert services[..i + 1][..i] == services[..i];
      if services[i] !in excluded || !excluded[services[i]] {
        result := result + [services[i]];
      }
    }
    assert services[..|services|] == services;
  }

  /** The loop over the services for an include list. */
  method Within(services: seq<string>, included: map<string, bool>) returns (result: seq<string>)
    requires forall e | e in included :: included[e]
    ensures result == Kept(services, included.Keys, true)
  {
    result := [];
    for i := 0 to |services|
      invariant result == Kept(services[..i], included.Keys, true)
    {
      assert services[..i + 1][..i] == services[..i];
      if services[i] in included && included[services[i]] {
        result := result + [services[i]];
      }
    }
    assert services[..|services|] == services;
  }

  /**
   * `make` with a negative capacity panics: excluding more distinct entries than there are services
   * never returns.
   */
  method FilterGRPCServices(services: seq<string>, excluding: string, including: string) returns (r: Option<seq<string>>)
    ensures r == Filtered(services, excluding, including)
  {
    var excluded := MapFromString(excluding);
    if |excluded| > 0 {
      assert |excluded.Keys| == |excluded|;
      if |services| - |excluded| < 0 {
        return None;
      }
      var result := Without(services, excluded);
      return Some(result);
    }
    var included := MapFromString(including);
    if |included| > 0 {
      var result := Within(services, included);
      return Some(result);
    }
    return Some(services);
  }

  /** `part` is what is left of `whole` after some elements are taken out. */
  ghost predicate Sublist(part: seq<string>, whole: seq<string>) {
    if part == [] then true
    else if whole == [] then false
    else
      || Sublist(part, whole[..|whole| - 1])
      || (part[|part| - 1] == whole[|whole| - 1] && Sublist(part[..|part| - 1], whole[..|whole| - 1]))
  }

  lemma {:induction false} KeptIs(services: seq<string>, entries: set<string>, inside: bool)
    ensures Sublist(Kept(services, entries, inside), services)
    ensures forall s :: s in Kept(services, entries, inside) <==> s in services && (s in entries) == inside
  {
    if services != [] {
      var last := |services| - 1;
      assert services == services[..last] + [services[last]];
      KeptIs(services[..last], entries, inside);
      var before, now := Kept(services[..last], entries, inside), Kept(services, entries, inside);
      if (services[last] in entries) == inside {
        assert now[..|now| - 1] == before;
        assert now[|now| - 1] == services[last];
      } else {
        assert now == before;
      }
    }
  }

  lemma {:induction false} KeptBoth(services: seq<string>, entries: set<string>)
    ensures multiset(Kept(services, entries, true)) + multiset(Kept(services, entries, false)) == multiset(services)
  {
    if services != [] {
      var last := |services| - 1;
      assert services == services[..last] + [services[last]];
      KeptBoth(services[..last], entries);
    }
  }

  lemma {:induction false} KeptCounts(services: seq<string>, entries: set<string>, inside: bool, s: string)
    ensures multiset(Kept(services, entries, inside))[s] == if (s in entries) == inside then multiset(services)[s] else 0
  {
    if services != [] {
      var last := |services| - 1;
      assert services == services[..last] + [services[last]];
      KeptCounts(services[..last], entries, inside, s);
    }
  }

  /** In the old order, with every occurrence of a selected service and none of another. */
  ghost predicate Selected(services: seq<string>, kept: seq<string>, wanted: string -> bool) {
    Sublist(kept, services) && forall s :: multiset(kept)[s] == if wanted(s) then multiset(services)[s] else 0
  }

  /**
   * What a selection keeps: without annotations all services, with an exclude list those outside it,
   * and without one but with an include list those inside it.
   */
  lemma SelectionIs(services: seq<string>, excluding: string, including: string, kept: seq<string>)
    requires Filtered(services, excluding, including) == Some(kept)
    ensures excluding == "" && including == "" ==> kept == services
    ensures excluding != "" ==> Selected(services, kept, s => s !in Entries(excluding))
    ensures excluding == "" && including != "" ==> Selected(services, kept, s => s in Entries(including))
  {
    KeptIs(services, Entries(excluding), false);
    KeptIs(services, Entries(including), true);
    forall s
      ensures multiset(Kept(services, Entries(excluding), false))[s] == if s !in Entries(excluding) then multiset(services)[s] else 0
      ensures multiset(Kept(services, Entries(including), true))[s] == if s in Entries(including) then multiset(services)[s] else 0
    {
      KeptCounts(services, Entries(excluding), false, s);
      KeptCounts(services, Entries(including), true, s);
    }
  }

  /** Without either annotation the selection always succeeds, with all services. */
  lemma NoAnnotationKeepsAll(services: seq<string>)
    ensures Filtered(services, "", "") == Some(services)
  {
  }

  /** The two lists cut the services in two: each in the old order, every occurrence in exactly one. */
  ghost predicate Partition(services: seq<string>, entries: set<string>, kept: seq<string>, dropped: seq<string>) {
    && multiset(kept) + multiset(dropped) == multiset(services)
    && Sublist(kept, services) && Sublist(dropped, services)
    && (forall s :: s in kept <==> s in services && s in entries)
    && (forall s :: s in dropped <==> s in services && s !in entries)
  }

  /**
   * The same text as an include and as an exclude list partitions the services exactly when it has
   * no more distinct entries than there are services; otherwise excluding panics.
   * With both annotations, exclude wins.
   */
  lemma IncludeExcludePartition(services: seq<string>, text: string)
    requires text != ""
    ensures var kept, dropped := Filtered(services, "", text), Filtered(services, text, "");
      && kept.Some?
      && (dropped.Some? <==> |Entries(text)| <= |services|)
      && (dropped.Some? ==> Partition(services, Entries(text), kept.value, dropped.value))
    ensures forall including :: Filtered(services, text, including) == Filtered(services, text, "")
  {
    KeptBoth(services, Entries(text));
    KeptIs(services, Entries(text), true);
    KeptIs(services, Entries(text), false);
  }

  lemma {:induction false} SplitPiece(s: string, sep: char)
    requires sep !in s
    ensures Split(s, sep) == [s]
  {
    if s != "" {
      SplitPiece(s[1..], sep);
      assert [s[0]] + s[1..] == s;
    }
  }

  lemma {:induction false} SplitFirst(s: string, rest: string, sep: char)
    requires sep !in s
    ensures Split(s + [sep] + rest, sep) == [s] + Split(rest, sep)
  {
    var all := s + [sep] + rest;
    if s == "" {
      assert all[1..] == rest;
    } else {
      assert all[0] == s[0] && all[1..] == s[1..] + [sep] + rest;
      SplitFirst(s[1..], rest, sep);
      var tail := Split(all[1..], sep);
      assert [s[0]] + tail[0] == s && tail[1..] == Split(rest, sep);
    }
  }

  lemma TrimNothing(s: string)
    requires s != "" && !IsSpace(s[0]) && !IsSpace(s[|s| - 1])
    ensures TrimSpace(s) == s
  {
  }

  lemma KeptOne(s: string, entries: set<string>)
    ensures Kept([s], entries, true) == if s in entries then [s] else []
  {
    assert [s][..0] == [];
  }

  lemma EntriesOfTwo(a: string, b: string)
    requires a != "" && b != "" && ',' !in a && ',' !in b
    requires !IsSpace(a[0]) && !IsSpace(a[|a| - 1]) && !IsSpace(b[0]) && !IsSpace(b[|b| - 1])
    ensures Entries(a + [','] + b) == {a, b}
  {
    var parts := Split(a + [','] + b, ',');
    SplitPiece(b, ',');
    SplitFirst(a, b, ',');
    assert parts == [a, b];
    TrimNothing(a);
    TrimNothing(b);
    assert parts[0] in parts && parts[1] in parts;
  }

  /** Excluding two services from a server that has one panics; including them does not. */
  lemma ExcludeTooMany()
    ensures Filtered(["a"], "a,b", "").None? && Filtered(["a"], "", "a,b") == Some(["a"])
  {
    assert "a,b" == "a" + [','] + "b";
    EntriesOfTwo("a", "b");
    assert "a" in {"a", "b"} && "a" != "b";
    KeptOne("a", {"a", "b"});
  }
}
