/** What a collection gathers, on values: the specification that the loops over the shared table are proved against. */
module Gathering {
  import opened Prelude
  import opened Descriptors
  import opened Servers

  datatype Failed = ListFailed | SymbolFailed(symbol: string) | FileFailed(name: string)

  /** The content of the shared table. */
  type Table = map<string, FileRecord>

  ghost predicate Extends(m: Table, m': Table) {
    forall n | n in m :: n in m' && m'[n] == m[n]
  }

  /** Every name that an answer for a file name can bring. */
  ghost function Universe(server: Server): set<string> {
    set r | r in RecordsIn(server.byFilename) :: r.name
  }

  ghost predicate Sent(server: Server, list: seq<FileRecord>) {
    forall k | 0 <= k < |list| :: list[k].name in Universe(server)
  }

  lemma AnswerSent(server: Server, d: string)
    requires FileAnswer(server, d).Some?
    ensures Sent(server, FileAnswer(server, d).value)
  {
    var answer := FileAnswer(server, d).value;
    forall k | 0 <= k < |answer|
      ensures answer[k].name in Universe(server)
    {
      AnswerIn(server.byFilename, d, answer[k]);
    }
  }

  /** How many names the table may still take. */
  ghost function Left(server: Server, m: Table): nat {
    |Universe(server) - m.Keys|
  }

  lemma Missing(server: Server, m: Table, m': Table)
    ensures Extends(m, m') ==> Left(server, m') <= Left(server, m)
  {
    if Extends(m, m') {
      SubsetSize(Universe(server) - m'.Keys, Universe(server) - m.Keys);
    }
  }

  lemma OneLess(server: Server, m: Table, list: seq<FileRecord>)
    requires Sent(server, list) && list != []
    ensures Sent(server, list[1..])
    ensures list[0].name !in m ==> Left(server, m[list[0].name := list[0]]) < Left(server, m)
    ensures list[0].name !in m ==> Extends(m, m[list[0].name := list[0]])
  {
    var r := list[0];
    if r.name !in m {
      SmallerSet(Universe(server) - m[r.name := r].Keys, Universe(server) - m.Keys, r.name);
    }
  }

  /** The missing imports among `deps`, and theirs. */
  ghost function AddDeps(server: Server, deps: seq<string>, m: Table): (r: Result<Table, Failed>)
    ensures r.Success? ==> Extends(m, r.value)
    decreases Left(server, m), 1, |deps|
  {
    if deps == [] then Success(m)
    else if deps[0] in m then AddDeps(server, deps[1..], m)
    else
      match FileAnswer(server, deps[0])
      case None => Failure(FileFailed(deps[0]))
      case Some(answer) =>
        AnswerSent(server, deps[0]);
        match AddRecords(server, answer, m)
        case Failure(e) => Failure(e)
        case Success(m') =>
          Missing(server, m, m');
          AddDeps(server, deps[1..], m')
  }

  /** The files of an answer that are new, each followed by its own imports. */
  ghost function AddRecords(server: Server, list: seq<FileRecord>, m: Table): (r: Result<Table, Failed>)
    requires Sent(server, list)
    ensures r.Success? ==> Extends(m, r.value)
    decreases Left(server, m), 0, |list|
  {
    if list == [] then Success(m)
    else
      OneLess(server, m, list);
      if list[0].name in m then AddRecords(server, list[1..], m)
      else
        match AddDeps(server, list[0].dependency, m[list[0].name := list[0]])
        case Failure(e) => Failure(e)
        case Success(m') =>
          Missing(server, m, m');
          AddRecords(server, list[1..], m')
  }

  /** One missing import: the request, and the files of its answer. */
  ghost function AddImport(server: Server, dep: string, m: Table): Result<Table, Failed> {
    match FileAnswer(server, dep)
    case None => Failure(FileFailed(dep))
    case Some(answer) => AnswerSent(server, dep); AddRecords(server, answer, m)
  }

  /** The imports from the i-th on. */
  lemma DepsStep(server: Server, deps: seq<string>, i: nat, m: Table)
    requires i < |deps|
    ensures deps[i] in m ==> AddDeps(server, deps[i..], m) == AddDeps(server, deps[i + 1..], m)
    ensures deps[i] !in m ==>
      && var r := AddImport(server, deps[i], m);
         && (r.Failure? ==> AddDeps(server, deps[i..], m) == r)
         && (r.Success? ==> Left(server, r.value) <= Left(server, m) && AddDeps(server, deps[i..], m) == AddDeps(server, deps[i + 1..], r.value))
  {
    var rest := deps[i..];
    assert rest[0] == deps[i] && rest[1..] == deps[i + 1..];
    if deps[i] !in m && AddImport(server, deps[i], m).Success? {
      AnswerSent(server, deps[i]);
      Missing(server, m, AddImport(server, deps[i], m).value);
    }
  }

  /** One new file, and then its own imports. */
  ghost function Insert(server: Server, r: FileRecord, m: Table): Result<Table, Failed> {
    AddDeps(server, r.dependency, m[r.name := r])
  }

  /** The files of an answer from the i-th on. */
  lemma RecordsStep(server: Server, list: seq<FileRecord>, i: nat, m: Table)
    requires i < |list| && Sent(server, list[i..])
    ensures Sent(server, list[i + 1..])
    ensures list[i].name in m ==> AddRecords(server, list[i..], m) == AddRecords(server, list[i + 1..], m)
    ensures list[i].name !in m ==>
      && Left(server, m[list[i].name := list[i]]) < Left(server, m)
      && var r := Insert(server, list[i], m);
         && (r.Failure? ==> AddRecords(server, list[i..], m) == r)
         && (r.Success? ==> Left(server, r.value) <= Left(server, m) && AddRecords(server, list[i..], m) == AddRecords(server, list[i + 1..], r.value))
  {
    var rest := list[i..];
    assert rest[0] == list[i] && rest[1..] == list[i + 1..];
    OneLess(server, m, rest);
    if list[i].name !in m && Insert(server, list[i], m).Success? {
      Missing(server, m, Insert(server, list[i], m).value);
    }
  }

  ghost function DepsOf(m: Table, name: string): seq<string> {
    if name in m then m[name].dependency else []
  }

  /** The second phase: the imports of every listed file. */
  ghost function AddAll(server: Server, names: seq<string>, m: Table): (r: Result<Table, Failed>)
    ensures r.Success? ==> Extends(m, r.value)
  {
    if names == [] then Success(m)
    else
      match AddDeps(server, DepsOf(m, names[0]), m)
      case Failure(e) => Failure(e)
      case Success(m') => AddAll(server, names[1..], m')
  }

  /** The names that are listed and the table, in the first phase. */
  datatype Symbols = Symbols(names: seq<string>, files: Table)

  ghost function AddSymbol(prefix: string, r: FileRecord, st: Symbols): Symbols {
    if r.name in st.files then st else Symbols(st.names + [r.name], st.files[r.name := Annotated(prefix, r)])
  }

  ghost function AddSymbols(prefix: string, list: seq<FileRecord>, st: Symbols): Symbols {
    if list == [] then st else AddSymbols(prefix, list[1..], AddSymbol(prefix, list[0], st))
  }

  /** The first phase: the ruled files of every service's answer. */
  ghost function GatherSymbols(server: Server, services: seq<string>, prefix: string, st: Symbols): Result<Symbols, Failed> {
    if services == [] then Success(st)
    else
      match SymbolAnswer(server, services[0])
      case None => Failure(SymbolFailed(services[0]))
      case Some(list) => GatherSymbols(server, services[1..], prefix, AddSymbols(prefix, list, st))
  }

  /** Both phases. */
  ghost function Gather(server: Server, services: seq<string>, prefix: string): Result<Symbols, Failed> {
    match GatherSymbols(server, services, prefix, Symbols([], map[]))
    case Failure(e) => Failure(e)
    case Success(st) =>
      match AddAll(server, st.names, st.files)
      case Failure(e) => Failure(e)
      case Success(m) => Success(Symbols(st.names, m))
  }

  // ---- The table is closed ----

  /** The import is there, or its request was answered and all files of the answer are there. */
  ghost predicate Met(server: Server, m: Table, d: string) {
    d in m || (FileAnswer(server, d).Some? && RecordNames(FileAnswer(server, d).value) <= m.Keys)
  }

  ghost predicate AllMet(server: Server, m: Table, deps: seq<string>) {
    forall d | d in deps :: Met(server, m, d)
  }

  /** The imports of every file beyond `m` are met. */
  ghost predicate Settled(server: Server, m: Table, m': Table) {
    forall n | n in m' && n !in m :: AllMet(server, m', m'[n].dependency)
  }

  lemma MetLater(server: Server, m: Table, m': Table, deps: seq<string>)
    requires AllMet(server, m, deps) && Extends(m, m')
    ensures AllMet(server, m', deps)
  {
  }

  lemma SettledThen(server: Server, m0: Table, m1: Table, m2: Table)
    requires Settled(server, m0, m1) && Extends(m1, m2) && Settled(server, m1, m2)
    ensures Settled(server, m0, m2)
  {
    forall n | n in m2 && n !in m0
      ensures AllMet(server, m2, m2[n].dependency)
    {
      if n in m1 {
        MetLater(server, m1, m2, m1[n].dependency);
      }
    }
  }

  /**
   * Success means that every import was met, for the given ones and for those of every new file: a
   * request without an answer never passes.
   */
  lemma {:induction false} DepsSettled(server: Server, deps: seq<string>, m: Table)
    requires AddDeps(server, deps, m).Success?
    ensures var m' := AddDeps(server, deps, m).value; AllMet(server, m', deps) && Settled(server, m, m')
    decreases Left(server, m), 1, |deps|
  {
    if deps != [] {
      var m' := AddDeps(server, deps, m).value;
      if deps[0] in m {
        DepsSettled(server, deps[1..], m);
      } else {
        var answer := FileAnswer(server, deps[0]).value;
        AnswerSent(server, deps[0]);
        RecordsSettled(server, answer, m);
        var m1 := AddRecords(server, answer, m).value;
        Missing(server, m, m1);
        DepsSettled(server, deps[1..], m1);
        SettledThen(server, m, m1, m');
      }
      assert Met(server, m', deps[0]);
      assert forall d :: d in deps <==> d == deps[0] || d in deps[1..];
    }
  }

  lemma {:induction false} RecordsSettled(server: Server, list: seq<FileRecord>, m: Table)
    requires Sent(server, list) && AddRecords(server, list, m).Success?
    ensures var m' := AddRecords(server, list, m).value; RecordNames(list) <= m'.Keys && Settled(server, m, m')
    decreases Left(server, m), 0, |list|
  {
    if list != [] {
      var m' := AddRecords(server, list, m).value;
      OneLess(server, m, list);
      if list[0].name in m {
        RecordsSettled(server, list[1..], m);
      } else {
        DepsSettled(server, list[0].dependency, m[list[0].name := list[0]]);
        var m1 := AddDeps(server, list[0].dependency, m[list[0].name := list[0]]).value;
        Missing(server, m, m1);
        RecordsSettled(server, list[1..], m1);
        InsertedSettled(server, m, list[0], m1);
        SettledThen(server, m, m1, m');
      }
      assert forall r :: r in list <==> r == list[0] || r in list[1..];
    }
  }

  lemma InsertedSettled(server: Server, m: Table, r: FileRecord, m': Table)
    requires r.name !in m && Extends(m[r.name := r], m') && Settled(server, m[r.name := r], m') && AllMet(server, m', r.dependency)
    ensures Settled(server, m, m')
  {
  }

  /** After the second phase the imports of every file in the table are met. */
  lemma {:induction false} AllSettled(server: Server, names: seq<string>, m: Table)
    requires AddAll(server, names, m).Success?
    ensures var m' := AddAll(server, names, m).value;
      Settled(server, m, m') && forall n | n in names && n in m :: AllMet(server, m', m[n].dependency)
  {
    if names != [] {
      var m1 := AddDeps(server, DepsOf(m, names[0]), m).value;
      var m' := AddAll(server, names, m).value;
      DepsSettled(server, DepsOf(m, names[0]), m);
      AllSettled(server, names[1..], m1);
      SettledThen(server, m, m1, m');
      MetLater(server, m1, m', DepsOf(m, names[0]));
    }
  }

  // ---- Where the files come from ----

  /**
   * The file is the first of its name in the answer for an import of a file that is there, and the
   * whole answer is there.
   */
  ghost predicate CameFirst(server: Server, m: Table, n: string) {
    n in m && exists q, d, k :: Brought(server, m, n, q, d, k)
  }

  ghost predicate Brought(server: Server, m: Table, n: string, q: string, d: string, k: nat)
    requires n in m
  {
    && q in m && d in m[q].dependency && FileAnswer(server, d).Some?
    && var answer := FileAnswer(server, d).value;
       && k < |answer| && answer[k] == m[n] && m[n].name == n
       && (forall j | 0 <= j < k :: answer[j].name != n)
       && RecordNames(answer) <= m.Keys
  }

  ghost predicate NewCame(server: Server, m: Table, m': Table) {
    forall n | n in m' && n !in m :: CameFirst(server, m', n)
  }

  lemma CameLater(server: Server, m: Table, m': Table, n: string)
    requires CameFirst(server, m, n) && Extends(m, m')
    ensures CameFirst(server, m', n)
  {
    var q, d, k :| Brought(server, m, n, q, d, k);
    assert Brought(server, m', n, q, d, k);
  }

  lemma CameThen(server: Server, m0: Table, m1: Table, m2: Table)
    requires NewCame(server, m0, m1) && Extends(m1, m2) && NewCame(server, m1, m2)
    ensures NewCame(server, m0, m2)
  {
    forall n | n in m2 && n !in m0
      ensures CameFirst(server, m2, n)
    {
      if n in m1 {
        CameLater(server, m1, m2, n);
      }
    }
  }

  /** `q` is the file whose imports are added. */
  lemma {:induction false} DepsCame(server: Server, q: string, deps: seq<string>, m: Table)
    requires q in m && (forall d | d in deps :: d in m[q].dependency) && AddDeps(server, deps, m).Success?
    ensures NewCame(server, m, AddDeps(server, deps, m).value)
    decreases Left(server, m), 1, |deps|
  {
    if deps != [] {
      if deps[0] in m {
        DepsCame(server, q, deps[1..], m);
      } else {
        var answer := FileAnswer(server, deps[0]).value;
        AnswerSent(server, deps[0]);
        assert answer[0..] == answer;
        RecordsCame(server, q, deps[0], 0, m);
        var m1 := AddRecords(server, answer, m).value;
        Missing(server, m, m1);
        DepsCame(server, q, deps[1..], m1);
        CameThen(server, m, m1, AddDeps(server, deps, m).value);
      }
    }
  }

  /** The rest of the answer for `d`, the first `i` files of which have been looked at. */
  lemma {:induction false} RecordsCame(server: Server, q: string, d: string, i: nat, m: Table)
    requires q in m && d in m[q].dependency && FileAnswer(server, d).Some? && i <= |FileAnswer(server, d).value|
    requires forall j | 0 <= j < i :: FileAnswer(server, d).value[j].name in m
    requires Sent(server, FileAnswer(server, d).value[i..]) && AddRecords(server, FileAnswer(server, d).value[i..], m).Success?
    ensures NewCame(server, m, AddRecords(server, FileAnswer(server, d).value[i..], m).value)
    decreases Left(server, m), 0, |FileAnswer(server, d).value| - i
  {
    var answer := FileAnswer(server, d).value;
    if i < |answer| {
      var rest, r := answer[i..], answer[i];
      assert rest[1..] == answer[i + 1..] && rest[0] == r;
      var m' := AddRecords(server, rest, m).value;
      OneLess(server, m, rest);
      if r.name in m {
        RecordsCame(server, q, d, i + 1, m);
      } else {
        var m0 := m[r.name := r];
        DepsCame(server, r.name, r.dependency, m0);
        var m1 := AddDeps(server, r.dependency, m0).value;
        Missing(server, m, m1);
        RecordsCame(server, q, d, i + 1, m1);
        RecordsSettled(server, rest, m);
        AnswerThere(answer, i, m');
        CameFromHere(server, q, d, i, m, m');
        CameInserted(server, m, r, m1, m');
      }
    }
  }

  lemma AnswerThere(answer: seq<FileRecord>, i: nat, m: Table)
    requires i <= |answer| && (forall j | 0 <= j < i :: answer[j].name in m) && RecordNames(answer[i..]) <= m.Keys
    ensures RecordNames(answer) <= m.Keys
  {
    forall r | r in answer
      ensures r.name in m
    {
      var k :| 0 <= k < |answer| && answer[k] == r;
      if k >= i {
        assert answer[i..][k - i] == r;
      }
    }
  }

  lemma CameFromHere(server: Server, q: string, d: string, i: nat, m: Table, m': Table)
    requires q in m && d in m[q].dependency && FileAnswer(server, d).Some? && i < |FileAnswer(server, d).value|
    requires var answer := FileAnswer(server, d).value;
      && (forall j | 0 <= j < i :: answer[j].name in m) && answer[i].name !in m
      && Extends(m[answer[i].name := answer[i]], m') && RecordNames(answer) <= m'.Keys
    ensures CameFirst(server, m', FileAnswer(server, d).value[i].name)
  {
    var r := FileAnswer(server, d).value[i];
    assert q in m[r.name := r] && m[r.name := r][q] == m[q];
    assert Brought(server, m', r.name, q, d, i);
  }

  lemma CameInserted(server: Server, m: Table, r: FileRecord, m1: Table, m': Table)
    requires r.name !in m && Extends(m[r.name := r], m1) && NewCame(server, m[r.name := r], m1)
    requires Extends(m1, m') && NewCame(server, m1, m') && CameFirst(server, m', r.name)
    ensures NewCame(server, m, m')
  {
    CameThen(server, m[r.name := r], m1, m');
  }

  lemma {:induction false} AllCame(server: Server, names: seq<string>, m: Table)
    requires AddAll(server, names, m).Success?
    ensures NewCame(server, m, AddAll(server, names, m).value)
  {
    if names != [] {
      var m1 := AddDeps(server, DepsOf(m, names[0]), m).value;
      if names[0] in m {
        DepsCame(server, names[0], DepsOf(m, names[0]), m);
      }
      AllCame(server, names[1..], m1);
      CameThen(server, m, m1, AddAll(server, names, m).value);
    }
  }

  // ---- Why it fails ----

  /** A file of the table imports one that is not there, and that nobody answered for. */
  ghost predicate FailureSeen(server: Server, m: Table, e: Failed) {
    e.FileFailed? && e.name !in m && FileAnswer(server, e.name).None? && exists q | q in m :: e.name in m[q].dependency
  }

  /** Every file beyond `m` is in the answer for an import of a file that is there. */
  ghost predicate NewSent(server: Server, m: Table, m': Table) {
    forall n | n in m' && n !in m :: SentFor(server, m', n)
  }

  ghost predicate SentFor(server: Server, m: Table, n: string) {
    n in m && m[n].name == n && exists q, d :: q in m && d in m[q].dependency && FileAnswer(server, d).Some? && m[n] in FileAnswer(server, d).value
  }

  lemma SentLater(server: Server, m0: Table, m1: Table, m2: Table)
    requires NewSent(server, m0, m1) && Extends(m1, m2) && NewSent(server, m1, m2)
    ensures NewSent(server, m0, m2)
  {
    forall n | n in m2 && n !in m0
      ensures SentFor(server, m2, n)
    {
      if n in m1 {
        var q, d :| q in m1 && d in m1[q].dependency && FileAnswer(server, d).Some? && m1[n] in FileAnswer(server, d).value;
        assert q in m2 && d in m2[q].dependency;
      }
    }
  }

  lemma CameSent(server: Server, m: Table, m': Table)
    requires NewCame(server, m, m')
    ensures NewSent(server, m, m')
  {
    forall n | n in m' && n !in m
      ensures SentFor(server, m', n)
    {
      assert CameFirst(server, m', n);
      var q, d, k :| Brought(server, m', n, q, d, k);
    }
  }

  /** A failure leaves a table behind that shows it: the request that failed was for an import of a file in it. */
  lemma {:induction false} DepsFail(server: Server, q: string, deps: seq<string>, m: Table) returns (seen: Table)
    requires q in m && (forall d | d in deps :: d in m[q].dependency) && AddDeps(server, deps, m).Failure?
    ensures Extends(m, seen) && NewSent(server, m, seen) && FailureSeen(server, seen, AddDeps(server, deps, m).error)
    decreases Left(server, m), 1, |deps|
  {
    if deps[0] in m {
      seen := DepsFail(server, q, deps[1..], m);
    } else if FileAnswer(server, deps[0]).None? {
      assert deps[0] in deps;
      seen := m;
    } else {
      var answer := FileAnswer(server, deps[0]).value;
      AnswerSent(server, deps[0]);
      assert answer[0..] == answer && deps[0] in deps;
      if AddRecords(server, answer, m).Failure? {
        seen := RecordsFail(server, q, deps[0], 0, m);
      } else {
        RecordsCame(server, q, deps[0], 0, m);
        var m1 := AddRecords(server, answer, m).value;
        Missing(server, m, m1);
        CameSent(server, m, m1);
        seen := DepsFail(server, q, deps[1..], m1);
        SentLater(server, m, m1, seen);
      }
    }
  }

  lemma SentInserted(server: Server, q: string, d: string, i: nat, m: Table)
    requires q in m && d in m[q].dependency && FileAnswer(server, d).Some? && i < |FileAnswer(server, d).value|
    requires FileAnswer(server, d).value[i].name !in m
    ensures var r := FileAnswer(server, d).value[i]; Extends(m, m[r.name := r]) && NewSent(server, m, m[r.name := r])
  {
    var r := FileAnswer(server, d).value[i];
    assert m[r.name := r][q] == m[q] && r in FileAnswer(server, d).value;
  }

  lemma {:induction false} RecordsFail(server: Server, q: string, d: string, i: nat, m: Table) returns (seen: Table)
    requires q in m && d in m[q].dependency && FileAnswer(server, d).Some? && i <= |FileAnswer(server, d).value|
    requires forall j | 0 <= j < i :: FileAnswer(server, d).value[j].name in m
    requires Sent(server, FileAnswer(server, d).value[i..]) && AddRecords(server, FileAnswer(server, d).value[i..], m).Failure?
    ensures Extends(m, seen) && NewSent(server, m, seen) && FailureSeen(server, seen, AddRecords(server, FileAnswer(server, d).value[i..], m).error)
    decreases Left(server, m), 0, |FileAnswer(server, d).value| - i
  {
    var answer := FileAnswer(server, d).value;
    var rest, r := answer[i..], answer[i];
    assert rest[1..] == answer[i + 1..] && rest[0] == r;
    OneLess(server, m, rest);
    if r.name in m {
      seen := RecordsFail(server, q, d, i + 1, m);
    } else {
      var m0 := m[r.name := r];
      SentInserted(server, q, d, i, m);
      if AddDeps(server, r.dependency, m0).Failure? {
        seen := DepsFail(server, r.name, r.dependency, m0);
        SentLater(server, m, m0, seen);
      } else {
        DepsCame(server, r.name, r.dependency, m0);
        var m1 := AddDeps(server, r.dependency, m0).value;
        Missing(server, m, m1);
        CameSent(server, m0, m1);
        SentLater(server, m, m0, m1);
        seen := RecordsFail(server, q, d, i + 1, m1);
        SentLater(server, m, m1, seen);
      }
    }
  }

  lemma {:induction false} AllFail(server: Server, names: seq<string>, m: Table) returns (seen: Table)
    requires AddAll(server, names, m).Failure?
    ensures Extends(m, seen) && NewSent(server, m, seen) && FailureSeen(server, seen, AddAll(server, names, m).error)
  {
    var deps := DepsOf(m, names[0]);
    if AddDeps(server, deps, m).Failure? {
      seen := DepsFail(server, names[0], deps, m);
    } else {
      var m1 := AddDeps(server, deps, m).value;
      if names[0] in m {
        DepsCame(server, names[0], deps, m);
      }
      CameSent(server, m, m1);
      seen := AllFail(server, names[1..], m1);
      SentLater(server, m, m1, seen);
    }
  }

  // ---- The first phase ----

  ghost predicate AllAnswer(server: Server, services: seq<string>) {
    forall s | s in services :: SymbolAnswer(server, s).Some?
  }

  lemma {:induction false} AddSymbolsAppend(prefix: string, a: seq<FileRecord>, b: seq<FileRecord>, st: Symbols)
    ensures AddSymbols(prefix, a + b, st) == AddSymbols(prefix, b, AddSymbols(prefix, a, st))
  {
    if a == [] {
      assert a + b == b;
    } else {
      assert (a + b)[0] == a[0] && (a + b)[1..] == a[1..] + b;
      AddSymbolsAppend(prefix, a[1..], b, AddSymbol(prefix, a[0], st));
    }
  }

  /** It fails on the first service without an answer; else it takes the files of all answers. */
  lemma {:induction false} SymbolsGathered(server: Server, services: seq<string>, prefix: string, st: Symbols)
    ensures var r := GatherSymbols(server, services, prefix, st);
      && (r.Success? <==> AllAnswer(server, services))
      && (r.Success? ==> r.value == AddSymbols(prefix, AllListed(server, services), st))
      && (r.Failure? ==> exists i | 0 <= i < |services| ::
            AllAnswer(server, services[..i]) && SymbolAnswer(server, services[i]).None? && r.error == SymbolFailed(services[i]))
  {
    if services != [] {
      var first, rest := SymbolAnswer(server, services[0]), services[1..];
      assert forall s :: s in services <==> s == services[0] || s in rest;
      if first.None? {
        assert AllAnswer(server, services[..0]);
      } else {
        SymbolsGathered(server, rest, prefix, AddSymbols(prefix, first.value, st));
        AddSymbolsAppend(prefix, first.value, AllListed(server, rest), st);
        if i :| 0 <= i < |rest| && AllAnswer(server, rest[..i]) && SymbolAnswer(server, rest[i]).None? {
          assert services[..i + 1] == [services[0]] + rest[..i];
          assert AllAnswer(server, services[..i + 1]) && services[i + 1] == rest[i];
        }
      }
    }
  }

  ghost predicate NamedBefore(list: seq<FileRecord>, n: nat, x: string)
    requires n <= |list|
  {
    exists k | 0 <= k < n :: list[k].name == x
  }

  /** The names and the table after the first `n` files of a list: one ruled file a name, the first of its name. */
  ghost predicate FirstsOf(prefix: string, list: seq<FileRecord>, n: nat, st: Symbols)
    requires n <= |list|
  {
    && (forall i, j | 0 <= i < j < |st.names| :: st.names[i] != st.names[j])
    && (forall x :: x in st.names <==> x in st.files)
    && (forall x :: x in st.files <==> NamedBefore(list, n, x))
    && (forall k | 0 <= k < n && FirstOf(list, k) :: Lookup(st.files, list[k].name) == Some(Annotated(prefix, list[k])))
  }

  lemma {:induction false} FirstsKept(prefix: string, list: seq<FileRecord>, n: nat, st: Symbols)
    requires n <= |list| && FirstsOf(prefix, list, n, st)
    ensures FirstsOf(prefix, list, |list|, AddSymbols(prefix, list[n..], st))
    decreases |list| - n
  {
    if n < |list| {
      var st' := AddSymbol(prefix, list[n], st);
      assert list[n..][0] == list[n] && list[n..][1..] == list[n + 1..];
      FirstsStep(prefix, list, n, st);
      FirstsKept(prefix, list, n + 1, st');
    }
  }

  lemma FirstsStep(prefix: string, list: seq<FileRecord>, n: nat, st: Symbols)
    requires n < |list| && FirstsOf(prefix, list, n, st)
    ensures FirstsOf(prefix, list, n + 1, AddSymbol(prefix, list[n], st))
  {
    if list[n].name in st.files {
      FirstsOld(prefix, list, n, st);
    } else {
      FirstsNew(prefix, list, n, st, Annotated(prefix, list[n]));
    }
  }

  lemma FirstsOld(prefix: string, list: seq<FileRecord>, n: nat, st: Symbols)
    requires n < |list| && FirstsOf(prefix, list, n, st) && list[n].name in st.files
    ensures FirstsOf(prefix, list, n + 1, st)
  {
    assert NamedBefore(list, n, list[n].name);
    forall x
      ensures x in st.files <==> NamedBefore(list, n + 1, x)
    {
      NamedOneMore(list, n, x);
    }
  }

  lemma NamedOneMore(list: seq<FileRecord>, n: nat, x: string)
    requires n < |list|
    ensures NamedBefore(list, n + 1, x) <==> NamedBefore(list, n, x) || list[n].name == x
  {
  }

  lemma FirstsNew(prefix: string, list: seq<FileRecord>, n: nat, st: Symbols, r: FileRecord)
    requires n < |list| && FirstsOf(prefix, list, n, st) && list[n].name !in st.files && r == Annotated(prefix, list[n])
    ensures FirstsOf(prefix, list, n + 1, Symbols(st.names + [list[n].name], st.files[list[n].name := r]))
  {
    var x, names', files' := list[n].name, st.names + [list[n].name], st.files[list[n].name := r];
    assert x !in st.names;
    forall y
      ensures y in names' <==> y in files'
      ensures y in files' <==> NamedBefore(list, n + 1, y)
    {
      NamedOneMore(list, n, y);
    }
    forall k | 0 <= k < n + 1 && FirstOf(list, k)
      ensures Lookup(files', list[k].name) == Some(Annotated(prefix, list[k]))
    {
      assert k < n ==> Lookup(st.files, list[k].name).Some?;
    }
  }

  lemma SymbolsAre(prefix: string, list: seq<FileRecord>)
    ensures FirstsOf(prefix, list, |list|, AddSymbols(prefix, list, Symbols([], map[])))
  {
    assert list[0..] == list;
    FirstsKept(prefix, list, 0, Symbols([], map[]));
  }

  lemma {:induction false} FirstExists(list: seq<FileRecord>, name: string) returns (k: nat)
    requires exists i | 0 <= i < |list| :: list[i].name == name
    ensures FirstOf(list, k) && list[k].name == name
  {
    var i :| 0 <= i < |list| && list[i].name == name;
    if j :| 0 <= j < i && list[j].name == name {
      assert list[..i][j].name == name;
      k := FirstExists(list[..i], name);
      assert FirstOf(list[..i], k);
    } else {
      k := i;
    }
  }

  // ---- Both phases ----

  /** The files of the services as they are first answered, and ruled. */
  ghost predicate RootFile(server: Server, services: seq<string>, prefix: string, r: FileRecord) {
    exists k: nat :: FirstOf(AllListed(server, services), k) && r == Annotated(prefix, AllListed(server, services)[k])
  }

  ghost predicate Rooted(server: Server, services: seq<string>, prefix: string, m: Table) {
    && SymbolNames(server, services) <= m.Keys
    && forall n | n in SymbolNames(server, services) :: m[n].name == n && RootFile(server, services, prefix, m[n])
  }

  /** What a successful collection has gathered. */
  ghost predicate Gathered(server: Server, services: seq<string>, prefix: string, st: Symbols) {
    && (forall i, j | 0 <= i < j < |st.names| :: st.names[i] != st.names[j])
    && (forall n :: n in st.names <==> n in SymbolNames(server, services))
    && Rooted(server, services, prefix, st.files)
    && (forall n | n in st.files && n !in SymbolNames(server, services) :: CameFirst(server, st.files, n))
    && (forall n | n in st.files :: AllMet(server, st.files, st.files[n].dependency))
  }

  lemma SymbolsRooted(server: Server, services: seq<string>, prefix: string)
    ensures var st := AddSymbols(prefix, AllListed(server, services), Symbols([], map[]));
      && st.files.Keys == SymbolNames(server, services) && Rooted(server, services, prefix, st.files)
      && (forall i, j | 0 <= i < j < |st.names| :: st.names[i] != st.names[j])
      && (forall n :: n in st.names <==> n in SymbolNames(server, services))
  {
    var list := AllListed(server, services);
    var st := AddSymbols(prefix, list, Symbols([], map[]));
    SymbolsAre(prefix, list);
    forall n | n in SymbolNames(server, services)
      ensures n in st.files && st.files[n].name == n && RootFile(server, services, prefix, st.files[n])
    {
      var r :| r in list && r.name == n;
      var i :| 0 <= i < |list| && list[i] == r;
      var k := FirstExists(list, n);
      assert Lookup(st.files, n) == Some(Annotated(prefix, list[k]));
    }
    forall n | n in st.files
      ensures n in SymbolNames(server, services)
    {
      assert NamedBefore(list, |list|, n);
      var k :| 0 <= k < |list| && list[k].name == n;
      assert list[k] in list;
    }
  }

  lemma RootedLater(server: Server, services: seq<string>, prefix: string, m: Table, m': Table)
    requires Rooted(server, services, prefix, m) && Extends(m, m')
    ensures Rooted(server, services, prefix, m')
  {
  }

  /**
   * Success: one ruled file for every name in the services' answers, the first of its name; every other
   * file first of its name in the answer for an import of a file that is there; every import met.
   */
  lemma GatherSucceeds(server: Server, services: seq<string>, prefix: string)
    requires Gather(server, services, prefix).Success?
    ensures AllAnswer(server, services) && Gathered(server, services, prefix, Gather(server, services, prefix).value)
  {
    SymbolsGathered(server, services, prefix, Symbols([], map[]));
    SymbolsRooted(server, services, prefix);
    var st := AddSymbols(prefix, AllListed(server, services), Symbols([], map[]));
    var m := AddAll(server, st.names, st.files).value;
    AllSettled(server, st.names, st.files);
    AllCame(server, st.names, st.files);
    RootedLater(server, services, prefix, st.files, m);
    forall n | n in m
      ensures AllMet(server, m, m[n].dependency)
    {
      assert n in st.files ==> n in st.names;
    }
  }

  /** Why both phases fail: a service without an answer, or an import of a gathered file without one. */
  ghost predicate Unanswered(server: Server, services: seq<string>, prefix: string, e: Failed) {
    || (exists i | 0 <= i < |services| ::
          AllAnswer(server, services[..i]) && SymbolAnswer(server, services[i]).None? && e == SymbolFailed(services[i]))
    || (AllAnswer(server, services) && exists seen: Table :: PartOf(server, services, prefix, seen) && FailureSeen(server, seen, e))
  }

  /** A table on the way: the services' files, and files answered for imports of files that are there. */
  ghost predicate PartOf(server: Server, services: seq<string>, prefix: string, seen: Table) {
    Rooted(server, services, prefix, seen) && forall n | n in seen && n !in SymbolNames(server, services) :: SentFor(server, seen, n)
  }

  lemma GatherFails(server: Server, services: seq<string>, prefix: string)
    requires Gather(server, services, prefix).Failure?
    ensures Unanswered(server, services, prefix, Gather(server, services, prefix).error)
  {
    SymbolsGathered(server, services, prefix, Symbols([], map[]));
    if AllAnswer(server, services) {
      SymbolsRooted(server, services, prefix);
      var st := AddSymbols(prefix, AllListed(server, services), Symbols([], map[]));
      var seen := AllFail(server, st.names, st.files);
      RootedLater(server, services, prefix, st.files, seen);
      assert PartOf(server, services, prefix, seen);
    }
  }

  // ---- Servers that answer everything ----

  /** Every request that a collection could come to make has an answer. */
  ghost predicate Complete(server: Server, services: seq<string>) {
    && AllAnswer(server, services)
    && forall r, d | LedTo(server, services, r) && d in r.dependency :: FileAnswer(server, d).Some? || d in SymbolNames(server, services)
  }

  lemma {:induction false} DepsAnswered(server: Server, services: seq<string>, q: FileRecord, deps: seq<string>, m: Table)
    requires Complete(server, services) && SymbolNames(server, services) <= m.Keys
    requires LedTo(server, services, q) && forall d | d in deps :: d in q.dependency
    ensures AddDeps(server, deps, m).Success?
    decreases Left(server, m), 1, |deps|
  {
    if deps != [] {
      assert deps[0] in q.dependency;
      if deps[0] in m {
        DepsAnswered(server, services, q, deps[1..], m);
      } else {
        var answer := FileAnswer(server, deps[0]).value;
        AnswerSent(server, deps[0]);
        forall k | 0 <= k < |answer| && answer[k].name !in SymbolNames(server, services)
          ensures LedTo(server, services, answer[k])
        {
          LeadsOn(server, services, q, deps[0], answer[k]);
        }
        RecordsAnswered(server, services, answer, m);
        Missing(server, m, AddRecords(server, answer, m).value);
        DepsAnswered(server, services, q, deps[1..], AddRecords(server, answer, m).value);
      }
    }
  }

  lemma {:induction false} RecordsAnswered(server: Server, services: seq<string>, list: seq<FileRecord>, m: Table)
    requires Complete(server, services) && SymbolNames(server, services) <= m.Keys && Sent(server, list)
    requires forall k | 0 <= k < |list| && list[k].name !in SymbolNames(server, services) :: LedTo(server, services, list[k])
    ensures AddRecords(server, list, m).Success?
    decreases Left(server, m), 0, |list|
  {
    if list != [] {
      OneLess(server, m, list);
      if list[0].name in m {
        RecordsAnswered(server, services, list[1..], m);
      } else {
        var m0 := m[list[0].name := list[0]];
        DepsAnswered(server, services, list[0], list[0].dependency, m0);
        Missing(server, m, AddDeps(server, list[0].dependency, m0).value);
        RecordsAnswered(server, services, list[1..], AddDeps(server, list[0].dependency, m0).value);
      }
    }
  }

  lemma {:induction false} AllAnswered(server: Server, services: seq<string>, prefix: string, names: seq<string>, m: Table)
    requires Complete(server, services) && Rooted(server, services, prefix, m)
    requires forall n | n in names :: n in SymbolNames(server, services)
    ensures AddAll(server, names, m).Success?
  {
    if names != [] {
      assert names[0] in names && RootFile(server, services, prefix, m[names[0]]);
      var k: nat :| FirstOf(AllListed(server, services), k) && m[names[0]] == Annotated(prefix, AllListed(server, services)[k]);
      var q := AllListed(server, services)[k];
      assert LedToIn(server, services, q, 0);
      DepsAnswered(server, services, q, DepsOf(m, names[0]), m);
      RootedLater(server, services, prefix, m, AddDeps(server, DepsOf(m, names[0]), m).value);
      AllAnswered(server, services, prefix, names[1..], AddDeps(server, DepsOf(m, names[0]), m).value);
    }
  }

  /** A server that answers every request that can come up never makes a collection fail. */
  lemma CompleteGathers(server: Server, services: seq<string>, prefix: string)
    requires Complete(server, services)
    ensures Gather(server, services, prefix).Success?
  {
    SymbolsGathered(server, services, prefix, Symbols([], map[]));
    SymbolsRooted(server, services, prefix);
    var st := AddSymbols(prefix, AllListed(server, services), Symbols([], map[]));
    AllAnswered(server, services, prefix, st.names, st.files);
  }
}
