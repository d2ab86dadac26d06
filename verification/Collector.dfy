/** Collecting the descriptor set of a server: files by symbol, their transitive imports, the sort. */
module Collector {
  import opened Prelude
  import opened ImportGraph
  import opened Descriptors
  import opened Servers
  import G = Gathering
  import S = SortedFiles
  import T = TopoTermination

  // ---- Single requests ----

  /** Descriptors with the content of the records, in order. */
  ghost predicate Decodes(list: seq<FileDescriptor>, records: seq<FileRecord>)
    reads list
  {
    && |list| == |records|
    && (forall i | 0 <= i < |list| :: list[i].Record() == records[i] && list[i].name == records[i].name)
    && forall i, j | 0 <= i < j < |list| :: list[i] != list[j]
  }

  method DecodeResponse(sent: seq<Option<FileRecord>>) returns (r: Option<seq<FileDescriptor>>)
    ensures r.Some? <==> Decodable(sent)
    ensures r.Some? ==> Decodes(r.value, Records(sent)) && forall f | f in r.value :: fresh(f)
  {
    var list := [];
    for i := 0 to |sent|
      invariant Decodable(sent[..i]) && Decodes(list, Records(sent[..i]))
      invariant forall f | f in list :: fresh(f)
    {
      if sent[i].None? {
        return None;
      }
      var fd := new FileDescriptor(sent[i].value);
      list := list + [fd];
    }
    assert sent[..|sent|] == sent;
    return Some(list);
  }

  method GetFileDescriptorBySymbol(server: Server, symbol: string) returns (r: Result<seq<FileDescriptor>, G.Failed>)
    ensures r.Success? <==> SymbolAnswer(server, symbol).Some?
    ensures r.Success? ==> Decodes(r.value, SymbolAnswer(server, symbol).value) && forall f | f in r.value :: fresh(f)
    ensures r.Failure? ==> r.error == G.SymbolFailed(symbol)
  {
    if symbol !in server.bySymbol {
      return Failure(G.SymbolFailed(symbol));
    }
    var list := DecodeResponse(server.bySymbol[symbol]);
    return match list case Some(l) => Success(l) case None => Failure(G.SymbolFailed(symbol));
  }

  method GetFileDescriptorByFilename(server: Server, name: string) returns (r: Result<seq<FileDescriptor>, G.Failed>)
    ensures r.Success? <==> FileAnswer(server, name).Some?
    ensures r.Success? ==> Decodes(r.value, FileAnswer(server, name).value) && forall f | f in r.value :: fresh(f)
    ensures r.Failure? ==> r.error == G.FileFailed(name)
  {
    if name !in server.byFilename {
      return Failure(G.FileFailed(name));
    }
    var list := DecodeResponse(server.byFilename[name]);
    return match list case Some(l) => Success(l) case None => Failure(G.FileFailed(name));
  }

  // ---- The shared table ----

  /** What the table holds. */
  ghost function Values(files: S.Files): G.Table
    reads set n | n in files :: files[n]
  {
    map n | n in files :: files[n].Record()
  }

  lemma ValuesInsert(files: S.Files, fd: FileDescriptor)
    ensures Values(files[fd.name := fd]) == Values(files)[fd.name := fd.Record()]
    ensures G.DepsOf(Values(files[fd.name := fd]), fd.name) == fd.Record().dependency
  {
  }

  /** What does not touch the files does not touch what the table holds. */
  twostate lemma ValuesKept(files: S.Files)
    requires forall n | n in files :: files[n].Record() == old(files[n].Record())
    ensures Values(files) == old(Values(files))
  {
  }

  /** The method did what the specification says: the same table, or the same failure. */
  ghost predicate Outcome(spec: Result<G.Table, G.Failed>, r: Result<(), G.Failed>, m: G.Table) {
    match spec
    case Success(m') => r.Success? && m == m'
    case Failure(e) => r == Failure(e)
  }

  /**
   * Adds the missing imports of one file, and theirs. A file is inserted before its own imports
   * are looked at, so every call has fewer missing names and import cycles do no harm.
   */
  method AddDependencies(server: Server, name: string, table: S.FileTable) returns (r: Result<(), G.Failed>)
    modifies table
    ensures Outcome(G.AddDeps(server, G.DepsOf(old(Values(table.files)), name), old(Values(table.files))), r, Values(table.files))
    decreases G.Left(server, Values(table.files)), 3
  {
    var deps := if name in table.files then table.files[name].dependency else [];
    DepsOfValues(table.files, name);
    ghost var goal := G.AddDeps(server, deps, Values(table.files));
    ghost var left := G.Left(server, Values(table.files));
    assert deps[0..] == deps;
    for i := 0 to |deps|
      invariant goal == G.AddDeps(server, deps[i..], Values(table.files))
      invariant G.Left(server, Values(table.files)) <= left
    {
      ghost var m := Values(table.files);
      G.DepsStep(server, deps, i, m);
      if deps[i] in table.files {
        continue;
      }
      var added := AddImport(server, deps[i], table);
      AddedIs(G.AddImport(server, deps[i], m), added, Values(table.files));
      if added.Failure? {
        return added;
      }
    }
    assert deps[|deps|..] == [];
    return Success(());
  }

  lemma DepsOfValues(files: S.Files, name: string)
    ensures G.DepsOf(Values(files), name) == if name in files then files[name].dependency else []
  {
  }

  /** One missing import: asked for by its name, and put in with whatever comes along. */
  method AddImport(server: Server, dep: string, table: S.FileTable) returns (r: Result<(), G.Failed>)
    modifies table
    ensures Outcome(G.AddImport(server, dep, old(Values(table.files))), r, Values(table.files))
    decreases G.Left(server, Values(table.files)), 2
  {
    var answer := GetFileDescriptorByFilename(server, dep);
    if answer.Failure? {
      return Failure(answer.error);
    }
    G.AnswerSent(server, dep);
    r := AddFiles(server, answer.value, FileAnswer(server, dep).value, table);
  }

  lemma AddedIs(spec: Result<G.Table, G.Failed>, r: Result<(), G.Failed>, m: G.Table)
    requires Outcome(spec, r, m)
    ensures r.Success? ==> spec == Success(m)
    ensures r.Failure? ==> spec == Failure(r.error)
  {
  }

  /** The files of one answer: those that are new go in, each followed by its own imports. */
  method AddFiles(server: Server, list: seq<FileDescriptor>, ghost records: seq<FileRecord>, table: S.FileTable) returns (r: Result<(), G.Failed>)
    requires Decodes(list, records) && G.Sent(server, records)
    modifies table
    ensures Outcome(G.AddRecords(server, records, old(Values(table.files))), r, Values(table.files))
    decreases G.Left(server, Values(table.files)), 1
  {
    ghost var goal := G.AddRecords(server, records, Values(table.files));
    ghost var left := G.Left(server, Values(table.files));
    assert records[0..] == records;
    for j := 0 to |list|
      invariant G.Sent(server, records[j..]) && goal == G.AddRecords(server, records[j..], Values(table.files))
      invariant G.Left(server, Values(table.files)) <= left
    {
      ghost var m := Values(table.files);
      G.RecordsStep(server, records, j, m);
      if list[j].name in table.files {
        continue;
      }
      var added := InsertFile(server, list[j], table);
      AddedIs(G.Insert(server, records[j], m), added, Values(table.files));
      if added.Failure? {
        return added;
      }
    }
    assert records[|list|..] == [];
    return Success(());
  }

  lemma InsertIs(server: Server, files: S.Files, fd: FileDescriptor)
    ensures var m, m' := Values(files), Values(files[fd.name := fd]);
      && m' == m[fd.name := fd.Record()]
      && G.Insert(server, fd.Record(), m) == G.AddDeps(server, G.DepsOf(m', fd.name), m')
  {
    ValuesInsert(files, fd);
  }

  /** One new file, and then its own imports. */
  method InsertFile(server: Server, file: FileDescriptor, table: S.FileTable) returns (r: Result<(), G.Failed>)
    requires G.Left(server, Values(table.files)[file.name := file.Record()]) < G.Left(server, Values(table.files))
    modifies table
    ensures Outcome(G.Insert(server, file.Record(), old(Values(table.files))), r, Values(table.files))
    decreases G.Left(server, Values(table.files)), 0
  {
    ghost var files := table.files;
    table.files := table.files[file.name := file];
    ValuesKept(files);
    InsertIs(server, files, file);
    r := AddDependencies(server, file.name, table);
  }

  /** The second phase: the imports of every symbol file, and theirs. */
  method AddAllDependencies(server: Server, names: seq<string>, table: S.FileTable) returns (r: Result<(), G.Failed>)
    modifies table
    ensures Outcome(G.AddAll(server, names, old(Values(table.files))), r, Values(table.files))
  {
    ghost var m0 := Values(table.files);
    assert names[0..] == names;
    for i := 0 to |names|
      invariant G.AddAll(server, names, m0) == G.AddAll(server, names[i..], Values(table.files))
    {
      assert names[i..][0] == names[i] && names[i..][1..] == names[i + 1..];
      var added := AddDependencies(server, names[i], table);
      if added.Failure? {
        return added;
      }
    }
    return Success(());
  }

  // ---- Files by symbol ----

  /** The symbol phase: one ruled file a name, the first of its name that was answered. */
  method GatherSymbols(server: Server, services: seq<string>, prefix: string, table: S.FileTable) returns (r: Result<seq<string>, G.Failed>)
    requires table.files == map[]
    modifies table
    ensures match G.GatherSymbols(server, services, prefix, G.Symbols([], map[]))
      case Success(st) => r.Success? && st == G.Symbols(r.value, Values(table.files))
      case Failure(e) => r == Failure(e)
  {
    var names := [];
    ghost var st0 := G.Symbols([], map[]);
    assert services[0..] == services && Values(table.files) == map[];
    for i := 0 to |services|
      invariant G.GatherSymbols(server, services, prefix, st0) ==
                G.GatherSymbols(server, services[i..], prefix, G.Symbols(names, Values(table.files)))
      invariant forall n | n in table.files :: fresh(table.files[n])
    {
      assert services[i..][0] == services[i] && services[i..][1..] == services[i + 1..];
      var answer := GetFileDescriptorBySymbol(server, services[i]);
      if answer.Failure? {
        return Failure(answer.error);
      }
      names := AddSymbolFiles(prefix, answer.value, SymbolAnswer(server, services[i]).value, names, table);
    }
    return Success(names);
  }

  /** The files of one symbol answer: those whose name is new are ruled and put in. */
  method AddSymbolFiles(prefix: string, list: seq<FileDescriptor>, ghost records: seq<FileRecord>, names: seq<string>, table: S.FileTable)
    returns (names': seq<string>)
    requires Decodes(list, records) && forall n | n in table.files :: table.files[n] !in list
    modifies table, set f | f in list
    ensures G.Symbols(names', Values(table.files)) == G.AddSymbols(prefix, records, G.Symbols(names, old(Values(table.files))))
    ensures forall n | n in table.files :: table.files[n] in list || (n in old(table.files) && table.files[n] == old(table.files)[n])
  {
    names' := names;
    ghost var st0 := G.Symbols(names, Values(table.files));
    assert records[0..] == records;
    for j := 0 to |list|
      invariant G.AddSymbols(prefix, records, st0) == G.AddSymbols(prefix, records[j..], G.Symbols(names', Values(table.files)))
      invariant forall n | n in table.files :: table.files[n] in list || (n in old(table.files) && table.files[n] == old(table.files)[n])
      invariant forall k, n | j <= k < |list| && n in table.files :: table.files[n] != list[k]
      invariant forall k | j <= k < |list| :: list[k].Record() == records[k]
    {
      assert records[j..][0] == records[j] && records[j..][1..] == records[j + 1..];
      names' := AddSymbolFile(prefix, list[j], names', table);
    }
  }

  method AddSymbolFile(prefix: string, file: FileDescriptor, names: seq<string>, table: S.FileTable) returns (names': seq<string>)
    requires forall n | n in table.files :: table.files[n] != file
    modifies table, file
    ensures table.files == if file.name in old(table.files) then old(table.files) else old(table.files)[file.name := file]
    ensures G.Symbols(names', Values(table.files)) == G.AddSymbol(prefix, old(file.Record()), G.Symbols(names, old(Values(table.files))))
  {
    names' := names;
    if file.name !in table.files {
      AnnotateHTTPRule(file, prefix);
      ValuesInsert(table.files, file);
      table.files := table.files[file.name := file];
      names' := names + [file.name];
    }
  }

  /** Both phases: the symbol files, then all they import. */
  method GatherAll(server: Server, services: seq<string>, prefix: string, table: S.FileTable) returns (r: Result<seq<string>, G.Failed>)
    requires table.files == map[]
    modifies table
    ensures match G.Gather(server, services, prefix)
      case Success(st) => r.Success? && st == G.Symbols(r.value, Values(table.files))
      case Failure(e) => r == Failure(e)
  {
    r := GatherSymbols(server, services, prefix, table);
    if r.Failure? {
      return;
    }
    var added := AddAllDependencies(server, r.value, table);
    if added.Failure? {
      return Failure(added.error);
    }
  }

  // ---- The list ----

  ghost function RecordsOf(list: seq<FileDescriptor>): (r: seq<FileRecord>)
    reads list
    ensures |r| == |list| && forall i | 0 <= i < |list| :: r[i] == list[i].Record()
  {
    if list == [] then [] else RecordsOf(list[..|list| - 1]) + [list[|list| - 1].Record()]
  }

  ghost predicate Earlier(list: seq<FileRecord>, i: nat, d: string)
    requires i <= |list|
  {
    exists j | 0 <= j < i :: list[j].name == d
  }

  /** No name twice, and no file before one of its imports that is also listed. */
  ghost predicate InOrder(list: seq<FileRecord>) {
    && (forall i, j | 0 <= i < j < |list| :: list[i].name != list[j].name)
    && (forall i, j | 0 <= i < |list| && 0 <= j < |list| && list[j].name in list[i].dependency :: j < i)
  }

  /** The imports of the listed files. */
  ghost function ListImports(list: seq<FileRecord>): Graph {
    ImportsIn(set r | r in list)
  }

  ghost function TableImports(m: G.Table): Graph {
    map n | n in m :: set d | d in m[n].dependency
  }

  ghost function ImportLists(m: G.Table): T.ImportLists {
    map n | n in m :: m[n].dependency
  }

  /** The file as it was first sent for a service, with its rules spelled out. */
  ghost predicate ServiceFile(server: Server, prefix: string, services: seq<string>, f: FileRecord) {
    AllRuled(f) && exists k: nat :: FirstOf(AllListed(server, services), k) && RuledAs(prefix, AllListed(server, services)[k], f)
  }

  /** The file as it was sent in the answer for some file name, the first of its name there. */
  ghost predicate ImportedFile(server: Server, f: FileRecord) {
    exists d, k: nat :: FileAnswer(server, d).Some? && FirstOf(FileAnswer(server, d).value, k) && FileAnswer(server, d).value[k] == f
  }

  /** Reached from the services' files through listed files, and with the content it should have. */
  ghost predicate WellCollected(server: Server, prefix: string, services: seq<string>, list: seq<FileRecord>, f: FileRecord) {
    var roots := SymbolNames(server, services);
    && (exists root | root in roots :: Reaches(ListImports(list), root, f.name))
    && if f.name in roots then ServiceFile(server, prefix, services, f) else ImportedFile(server, f)
  }

  /**
   * What a successful collection promises of the list. An import that is not there was asked for, and
   * answered by files of other names.
   */
  ghost predicate Collected(server: Server, prefix: string, services: seq<string>, list: seq<FileRecord>) {
    && InOrder(list)
    && (forall i, d | 0 <= i < |list| && d in list[i].dependency :: Earlier(list, i, d) || AnsweredWithout(server, d))
    && SymbolNames(server, services) <= RecordNames(list)
    && forall f | f in list :: WellCollected(server, prefix, services, list, f)
  }

  /** The list is the sorted part of the table. */
  ghost predicate SortedPart(m: G.Table, list: seq<FileRecord>) {
    && (forall i, j | 0 <= i < j < |list| :: list[i].name != list[j].name)
    && (forall i | 0 <= i < |list| :: list[i].name in m && m[list[i].name] == list[i])
    && forall i, d | 0 <= i < |list| && d in list[i].dependency && d in m :: Earlier(list, i, d)
  }

  lemma PartInOrder(m: G.Table, list: seq<FileRecord>)
    requires SortedPart(m, list)
    ensures InOrder(list)
  {
    forall i, j | 0 <= i < |list| && 0 <= j < |list| && list[j].name in list[i].dependency
      ensures j < i
    {
      assert Earlier(list, i, list[j].name);
      var k :| 0 <= k < i && list[k].name == list[j].name;
    }
  }

  lemma ListedImports(m: G.Table, list: seq<FileRecord>, n: string)
    requires SortedPart(m, list) && n in RecordNames(list)
    ensures n in m && n in ListImports(list) && ListImports(list)[n] == TableImports(m)[n]
  {
    var i :| 0 <= i < |list| && list[i].name == n;
    forall r | r in list && r.name == n
      ensures r == list[i]
    {
      var j :| 0 <= j < |list| && list[j] == r;
    }
    forall d
      ensures d in ImportsOf((set r | r in list), n) <==> d in TableImports(m)[n]
    {
      assert list[i] in list;
    }
  }

  /** What the table's imports reach from the roots, the list's imports reach. */
  lemma ReachedInList(m: G.Table, list: seq<FileRecord>, names: seq<string>, n: string)
    requires SortedPart(m, list) && RecordNames(list) == ReachSet(TableImports(m), names) && n in RecordNames(list)
    ensures exists root | root in names :: Reaches(ListImports(list), root, n)
  {
    SameImports(m, list);
    ReachedInside(TableImports(m), ListImports(list), names, n);
  }

  lemma SameImports(m: G.Table, list: seq<FileRecord>)
    requires SortedPart(m, list)
    ensures forall x | x in RecordNames(list) :: x in m && x in ListImports(list) && ListImports(list)[x] == TableImports(m)[x]
  {
    forall x | x in RecordNames(list)
      ensures x in m && x in ListImports(list) && ListImports(list)[x] == TableImports(m)[x]
    {
      ListedImports(m, list, x);
    }
  }

  lemma CollectedFile(server: Server, prefix: string, services: seq<string>, st: G.Symbols, list: seq<FileRecord>, f: FileRecord)
    requires G.Gathered(server, services, prefix, st) && SortedPart(st.files, list)
    requires RecordNames(list) == ReachSet(TableImports(st.files), st.names) && f in list
    ensures WellCollected(server, prefix, services, list, f)
  {
    var n := f.name;
    assert n in RecordNames(list) && st.files[n] == f;
    ReachedInList(st.files, list, st.names, n);
    if n in SymbolNames(server, services) {
      assert G.RootFile(server, services, prefix, f);
      var k: nat :| FirstOf(AllListed(server, services), k) && f == Annotated(prefix, AllListed(server, services)[k]);
      AnnotationIs(prefix, AllListed(server, services)[k]);
    } else {
      assert G.CameFirst(server, st.files, n);
      var q, d, k :| G.Brought(server, st.files, n, q, d, k);
      assert FirstOf(FileAnswer(server, d).value, k);
    }
  }

  lemma CollectedImport(server: Server, m: G.Table, list: seq<FileRecord>, i: nat, d: string)
    requires SortedPart(m, list) && i < |list| && d in list[i].dependency && G.AllMet(server, m, list[i].dependency)
    ensures Earlier(list, i, d) || AnsweredWithout(server, d)
  {
    assert G.Met(server, m, d);
    if d !in m {
      forall r | r in FileAnswer(server, d).value
        ensures r.name != d
      {
        assert r.name in RecordNames(FileAnswer(server, d).value);
      }
    }
  }

  /** Sorting a gathered table gives a collected list. */
  lemma Assembled(server: Server, prefix: string, services: seq<string>, st: G.Symbols, list: seq<FileRecord>)
    requires G.Gathered(server, services, prefix, st) && SortedPart(st.files, list)
    requires RecordNames(list) == ReachSet(TableImports(st.files), st.names)
    ensures Collected(server, prefix, services, list)
  {
    PartInOrder(st.files, list);
    ReachSetClosed(TableImports(st.files), st.names);
    forall i, d | 0 <= i < |list| && d in list[i].dependency
      ensures Earlier(list, i, d) || AnsweredWithout(server, d)
    {
      CollectedImport(server, st.files, list, i, d);
    }
    forall f | f in list
      ensures WellCollected(server, prefix, services, list, f)
    {
      CollectedFile(server, prefix, services, st, list, f);
    }
  }

  /** The names of the list, in its order. */
  ghost function NameOrder(list: seq<FileRecord>): seq<string> {
    seq(|list|, i requires 0 <= i < |list| => list[i].name)
  }

  /** The list comes in the order of the plain recursive sort. */
  ghost predicate InSortOrder(st: G.Symbols, list: seq<FileRecord>) {
    exists depth: nat ::
      var run := T.SortWithin(st.names, ImportLists(st.files), depth);
      run.Some? && run.value.order == NameOrder(list)
  }

  lemma TableOf(files: S.Files)
    ensures S.Imports(files) == TableImports(Values(files)) && S.ImportLists(files) == ImportLists(Values(files))
  {
  }

  /** The sorted descriptors, on values. */
  lemma SortedValues(files: S.Files, list: seq<FileDescriptor>)
    requires S.Sorted(files, list)
    ensures SortedPart(Values(files), RecordsOf(list)) && RecordNames(RecordsOf(list)) == S.NamesOf(list)
    ensures S.OrderOf(list) == NameOrder(RecordsOf(list))
  {
    var records := RecordsOf(list);
    forall i | 0 <= i < |list|
      ensures list[i].name in files && files[list[i].name] == list[i]
    {
      assert list[i] in list;
    }
    forall i, d | 0 <= i < |list| && d in list[i].dependency && d in files
      ensures Earlier(records, i, d)
    {
      assert S.ListedBefore(list, i, d);
      var j :| 0 <= j < i && list[j].name == d;
      assert records[j].name == d;
    }
    NamesOfDecoded(list, records);
  }

  lemma NamesOfDecoded(list: seq<FileDescriptor>, records: seq<FileRecord>)
    requires |list| == |records| && forall k | 0 <= k < |list| :: list[k].name == records[k].name
    ensures S.NamesOf(list) == RecordNames(records)
  {
    forall n
      ensures n in RecordNames(records) <==> n in S.NamesOf(list)
    {
      if f :| f in list && f.name == n {
        var k :| 0 <= k < |list| && list[k] == f;
        assert records[k] in records;
      }
      if r :| r in records && r.name == n {
        var k :| 0 <= k < |records| && records[k] == r;
        assert list[k] in list;
      }
    }
  }

  lemma TableKeyed(server: Server, services: seq<string>, prefix: string, st: G.Symbols, files: S.Files)
    requires G.Gathered(server, services, prefix, st) && st.files == Values(files)
    ensures S.Keyed(files)
  {
    forall n | n in files
      ensures files[n].name == n
    {
      assert st.files[n].name == files[n].name;
      if n !in SymbolNames(server, services) {
        assert G.CameFirst(server, st.files, n);
        var q, d, k :| G.Brought(server, st.files, n, q, d, k);
      }
    }
  }

  /** The sort of the table, on values: its part that the names reach, imports first, in the order of the plain sort. */
  method SortTable(names: seq<string>, table: S.FileTable) returns (list: seq<FileDescriptor>)
    requires S.Keyed(table.files) && NoCycleFrom(S.Imports(table.files), names)
    modifies table
    ensures SortedPart(old(Values(table.files)), RecordsOf(list))
    ensures RecordNames(RecordsOf(list)) == ReachSet(TableImports(old(Values(table.files))), names)
    ensures InSortOrder(G.Symbols(names, old(Values(table.files))), RecordsOf(list))
  {
    ghost var files := table.files;
    list := S.TopoSort(names, table);
    SortedIs(names, files, list, table.files);
  }

  lemma SortedIs(names: seq<string>, files: S.Files, list: seq<FileDescriptor>, left: S.Files)
    requires S.Sorted(files, list) && S.NamesOf(list) == ReachSet(S.Imports(files), names)
    requires S.Follows(names, files, |ReachSet(S.Imports(files), names)|, list, left)
    ensures SortedPart(Values(files), RecordsOf(list)) && RecordNames(RecordsOf(list)) == ReachSet(TableImports(Values(files)), names)
    ensures InSortOrder(G.Symbols(names, Values(files)), RecordsOf(list))
  {
    TableOf(files);
    SortedValues(files, list);
    OrderFrom(G.Symbols(names, Values(files)), |ReachSet(S.Imports(files), names)|, RecordsOf(list), S.ImportLists(left));
  }

  lemma OrderFrom(st: G.Symbols, depth: nat, list: seq<FileRecord>, left: T.ImportLists)
    requires T.SortWithin(st.names, ImportLists(st.files), depth) == Some(T.Run(NameOrder(list), left))
    ensures InSortOrder(st, list)
  {
  }

  // ---- The whole collection ----

  /** The table that is gathered, if any, has no cycle of imports that its listed names reach. */
  ghost predicate NoTableCycle(server: Server, prefix: string) {
    server.services.Some? && G.Gather(server, server.services.value, prefix).Success? ==>
      var st := G.Gather(server, server.services.value, prefix).value;
      NoCycleFrom(TableImports(st.files), st.names)
  }

  lemma ReadyToSort(server: Server, services: seq<string>, prefix: string, names: seq<string>, files: S.Files)
    requires server.services == Some(services) && NoTableCycle(server, prefix)
    requires G.Gather(server, services, prefix) == Success(G.Symbols(names, Values(files)))
    ensures S.Keyed(files) && NoCycleFrom(S.Imports(files), names)
  {
    G.GatherSucceeds(server, services, prefix);
    TableOf(files);
    TableKeyed(server, services, prefix, G.Symbols(names, Values(files)), files);
  }

  lemma SortedSet(server: Server, services: seq<string>, prefix: string, st: G.Symbols, list: seq<FileRecord>)
    requires G.Gather(server, services, prefix) == Success(st)
    requires SortedPart(st.files, list) && RecordNames(list) == ReachSet(TableImports(st.files), st.names)
    ensures G.AllAnswer(server, services) && Collected(server, prefix, services, list)
  {
    G.GatherSucceeds(server, services, prefix);
    Assembled(server, prefix, services, st, list);
  }

  /** The condition is exact: the plain recursion on the gathered table comes back if and only if it holds. */
  lemma CollectionReturnsIff(server: Server, services: seq<string>, prefix: string)
    requires server.services == Some(services) && G.Gather(server, services, prefix).Success?
    ensures var st := G.Gather(server, services, prefix).value;
      NoTableCycle(server, prefix) <==> exists depth: nat :: T.SortWithin(st.names, ImportLists(st.files), depth).Some?
  {
    var st := G.Gather(server, services, prefix).value;
    assert T.Edges(ImportLists(st.files)) == TableImports(st.files);
    T.SortReturnsIffNoCycle(st.names, ImportLists(st.files));
  }

  /** Why there is no set: no list of services, or what made the gathering fail. */
  ghost predicate Unanswered(server: Server, prefix: string, e: G.Failed) {
    match server.services
    case None => e == G.ListFailed
    case Some(services) => G.Unanswered(server, services, prefix, e)
  }

  /** The set of descriptors behind a server's services, imports first, with the service names. */
  method GetFileDescriptorSet(server: Server, prefix: string)
    returns (r: Result<(seq<FileDescriptor>, seq<string>), G.Failed>)
    requires NoTableCycle(server, prefix)
    ensures r.Success? <==> server.services.Some? && G.Gather(server, server.services.value, prefix).Success?
    ensures r.Success? ==> server.services == Some(r.value.1) && G.AllAnswer(server, r.value.1)
    ensures r.Success? ==>
      && Collected(server, prefix, r.value.1, RecordsOf(r.value.0))
      && InSortOrder(G.Gather(server, r.value.1, prefix).value, RecordsOf(r.value.0))
    ensures r.Failure? ==> Unanswered(server, prefix, r.error)
    ensures server.services.Some? && G.Complete(server, server.services.value) ==> r.Success?
  {
    if server.services.None? {
      return Failure(G.ListFailed);
    }
    var services := server.services.value;
    var table := new S.FileTable();
    var names := GatherAll(server, services, prefix, table);
    if G.Complete(server, services) {
      G.CompleteGathers(server, services, prefix);
    }
    if names.Failure? {
      G.GatherFails(server, services, prefix);
      return Failure(names.error);
    }
    ghost var st := G.Symbols(names.value, Values(table.files));
    ReadyToSort(server, services, prefix, names.value, table.files);
    var sortedFiles := SortTable(names.value, table);
    SortedSet(server, services, prefix, st, RecordsOf(sortedFiles));
    return Success((sortedFiles, services));
  }
}
