/** The imports-first order: a destructive recursive sort over a shared file map. */
module SortedFiles {
  import opened Prelude
  import opened ImportGraph
  import opened Descriptors
  import T = TopoTermination

  type Files = map<string, FileDescriptor>

  /** The Go map that `addDependencies` fills and `topoSort` empties, shared by reference. */
  class FileTable {
    var files: Files

    constructor ()
      ensures files == map[]
    {
      files := map[];
    }
  }

  ghost function Imports(files: Files): Graph {
    map n | n in files :: set d | d in files[n].dependency
  }

  ghost predicate Keyed(files: Files) {
    forall n | n in files :: files[n].name == n
  }

  ghost function NamesOf(list: seq<FileDescriptor>): set<string> {
    set f | f in list :: f.name
  }

  ghost predicate Distinct(list: seq<FileDescriptor>) {
    forall i, j | 0 <= i < j < |list| :: list[i].name != list[j].name
  }

  ghost predicate ListedBefore(list: seq<FileDescriptor>, i: nat, d: string)
    requires i <= |list|
  {
    exists j | 0 <= j < i :: list[j].name == d
  }

  ghost function ImportLists(files: Files): T.ImportLists {
    map n | n in files :: files[n].dependency
  }

  ghost function OrderOf(list: seq<FileDescriptor>): seq<string> {
    seq(|list|, i requires 0 <= i < |list| => list[i].name)
  }

  /** The list and the files left are those of the plain recursion on the names. */
  ghost predicate Follows(names: seq<string>, files: Files, depth: nat, list: seq<FileDescriptor>, left: Files) {
    T.SortWithin(names, ImportLists(files), depth) == Some(T.Run(OrderOf(list), ImportLists(left)))
  }

  /** Every import that is in `files` comes earlier in the list. */
  ghost predicate ImportsFirst(files: Files, list: seq<FileDescriptor>) {
    forall i, d | 0 <= i < |list| && d in list[i].dependency && d in files :: ListedBefore(list, i, d)
  }

  ghost predicate Sorted(files: Files, list: seq<FileDescriptor>) {
    && Distinct(list)
    && ImportsFirst(files, list)
    && forall f | f in list :: f.name in files && files[f.name] == f
  }

  /** The result holds files of the table, and the table those that are left. */
  ghost predicate Taken(files: Files, result: seq<FileDescriptor>, left: Files) {
    && (forall i | 0 <= i < |result| :: result[i].name in files && files[result[i].name] == result[i])
    && left == files - NamesOf(result)
  }

  lemma TakenMore(files: Files, a: seq<FileDescriptor>, left: Files, name: string, b: seq<FileDescriptor>, left': Files)
    requires Taken(files, a, left) && Taken(left, b, left') && name in left && left[name].name == name
    ensures Taken(files, a + b + [left[name]], left' - {name})
    ensures OrderOf(a + b + [left[name]]) == OrderOf(a) + OrderOf(b) + [name]
  {
    var list := a + b + [left[name]];
    assert forall f :: f in list <==> f in a || f in b || f == left[name];
    assert NamesOf(list) == NamesOf(a) + NamesOf(b) + {name};
    assert left' - {name} == files - NamesOf(list);
  }

  lemma ListsLeft(files: Files, done: set<string>)
    ensures ImportLists(files - done) == ImportLists(files) - done
  {
  }

  /**
   * The recursion over the shared table: imports first, then the file, and only then its deletion. It
   * does what the plain recursion does, on whatever names the plain recursion comes back.
   */
  method SortInto(names: seq<string>, table: FileTable, ghost depth: nat) returns (result: seq<FileDescriptor>)
    requires Keyed(table.files) && T.SortWithin(names, ImportLists(table.files), depth).Some?
    modifies table
    ensures Taken(old(table.files), result, table.files)
    ensures Follows(names, old(table.files), depth, result, table.files)
    decreases depth
  {
    ghost var files := table.files;
    ghost var goal := T.SortWithin(names, ImportLists(files), depth);
    result := [];
    assert names[0..] == names && OrderOf(result) == [];
    T.AfterEnds([], goal);
    for i := 0 to |names|
      invariant Taken(files, result, table.files)
      invariant goal == T.After(OrderOf(result), T.SortWithin(names[i..], ImportLists(table.files), depth))
    {
      var name := names[i];
      T.SortStep(names, i, ImportLists(table.files), depth);
      if name in table.files {
        var file := table.files[name];
        ghost var left := table.files;
        var imports := SortInto(file.dependency, table, depth - 1);
        TakenMore(files, result, left, name, imports, table.files);
        ListsLeft(table.files, {name});
        T.AfterTwice(OrderOf(result), OrderOf(imports) + [name], T.SortWithin(names[i + 1..], ImportLists(table.files - {name}), depth));
        assert OrderOf(result) + (OrderOf(imports) + [name]) == OrderOf(result) + OrderOf(imports) + [name];
        result := result + imports;
        result := result + [file];
        table.files := table.files - {name};
      }
    }
    assert names[|names|..] == [];
    T.AfterEnds(OrderOf(result), T.SortWithin([], ImportLists(table.files), depth));
  }

  /**
   * Moves the present files that the names reach from the table to a list. The deletion comes after
   * the recursion, so the size of the table says nothing about its end; it ends because no cycle is
   * reached.
   */
  method TopoSort(names: seq<string>, table: FileTable) returns (result: seq<FileDescriptor>)
    requires Keyed(table.files)
    requires NoCycleFrom(Imports(table.files), names)
    modifies table
    ensures Sorted(old(table.files), result)
    ensures NamesOf(result) == ReachSet(Imports(old(table.files)), names)
    ensures table.files == old(table.files) - NamesOf(result)
    ensures Follows(names, old(table.files), |ReachSet(Imports(old(table.files)), names)|, result, table.files)
  {
    ghost var files := table.files;
    ghost var depth := |ReachSet(Imports(files), names)|;
    EdgesAre(files);
    T.ReturnsWithoutCycle(names, ImportLists(files), depth);
    result := SortInto(names, table, depth);
    SortedByOrder(names, files, depth, result, table.files);
  }

  lemma EdgesAre(files: Files)
    ensures T.Edges(ImportLists(files)) == Imports(files)
  {
  }

  /** The order of the plain recursion, on the descriptors themselves. */
  lemma SortedByOrder(names: seq<string>, files: Files, depth: nat, list: seq<FileDescriptor>, left: Files)
    requires Taken(files, list, left) && Follows(names, files, depth, list, left)
    ensures Sorted(files, list) && NamesOf(list) == ReachSet(Imports(files), names)
  {
    var order := OrderOf(list);
    EdgesAre(files);
    T.OrderIs(names, ImportLists(files), depth);
    forall i, j | 0 <= i < j < |list|
      ensures list[i].name != list[j].name
    {
      assert order[i] != order[j];
    }
    forall i, d | 0 <= i < |list| && d in list[i].dependency && d in files
      ensures ListedBefore(list, i, d)
    {
      assert T.NamedBefore(order, i, d);
      var j :| 0 <= j < i && order[j] == d;
      assert list[j].name == d;
    }
    forall n
      ensures n in NamesOf(list) <==> n in order
    {
      if f :| f in list && f.name == n {
        var i :| 0 <= i < |list| && list[i] == f;
        assert order[i] == n;
      }
      if n in order {
        var i :| 0 <= i < |order| && order[i] == n;
        assert list[i] in list;
      }
    }
  }
}
