/** Reflection servers: what they answer, and which of their files a list of services leads to. */
module Servers {
  import opened Prelude
  import opened ImportGraph
  import opened Descriptors

  /**
   * A reflection server as the finite table of its answers; None stands for a file that cannot be
   * unmarshalled. A request outside the table is an error. Every request opens a fresh stream, so an
   * answer does not depend on what was sent before.
   */
  datatype Server = Server(
    services: Option<seq<string>>,
    bySymbol: map<string, seq<Option<FileRecord>>>,
    byFilename: map<string, seq<Option<FileRecord>>>)

  predicate Decodable(sent: seq<Option<FileRecord>>) {
    forall k | 0 <= k < |sent| :: sent[k].Some?
  }

  function Records(sent: seq<Option<FileRecord>>): seq<FileRecord>
    requires Decodable(sent)
  {
    seq(|sent|, k requires 0 <= k < |sent| => sent[k].value)
  }

  /** The decoded answer of a table; None for an error and for an answer that cannot be decoded. */
  function Answer(table: map<string, seq<Option<FileRecord>>>, name: string): Option<seq<FileRecord>> {
    if name in table && Decodable(table[name]) then Some(Records(table[name])) else None
  }

  /** An answer is there exactly if the request is answered and every file of it decodes; then it is those files, in order. */
  lemma AnswerIs(table: map<string, seq<Option<FileRecord>>>, name: string)
    ensures Answer(table, name).Some? <==> name in table && None !in table[name]
    ensures Answer(table, name).Some? ==>
      var files := Answer(table, name).value;
      |files| == |table[name]| && forall k | 0 <= k < |files| :: table[name][k] == Some(files[k])
  {
  }

  function SymbolAnswer(server: Server, symbol: string): Option<seq<FileRecord>> {
    Answer(server.bySymbol, symbol)
  }

  function FileAnswer(server: Server, name: string): Option<seq<FileRecord>> {
    Answer(server.byFilename, name)
  }

  /** The request for a file name was answered, by files none of which has that name. */
  ghost predicate AnsweredWithout(server: Server, name: string) {
    FileAnswer(server, name).Some? && forall r | r in FileAnswer(server, name).value :: r.name != name
  }

  // ---- Where a list of services leads ----

  ghost function RecordNames(records: seq<FileRecord>): set<string> {
    set r | r in records :: r.name
  }

  /** The answers for the services, one after another. */
  ghost function AllListed(server: Server, services: seq<string>): seq<FileRecord> {
    if services == [] then []
    else
      var first := SymbolAnswer(server, services[0]);
      (if first.Some? then first.value else []) + AllListed(server, services[1..])
  }

  /** The files that the answers to the service names hold. */
  ghost function SymbolNames(server: Server, services: seq<string>): set<string> {
    RecordNames(AllListed(server, services))
  }

  /** The file is the first of its name in the list. */
  ghost predicate FirstOf(list: seq<FileRecord>, k: nat) {
    k < |list| && forall j | 0 <= j < k :: list[j].name != list[k].name
  }

  /** The answer for an import `d` of `q` holds `r`, and neither is one of the `roots`, which are there already. */
  ghost predicate Brings(server: Server, roots: set<string>, q: FileRecord, d: string, r: FileRecord) {
    && d in q.dependency && d !in roots && FileAnswer(server, d).Some?
    && r in FileAnswer(server, d).value && r.name !in roots
  }

  /** `r` is `n` answers away from the answers for the services. */
  ghost predicate LedToIn(server: Server, services: seq<string>, r: FileRecord, n: nat)
    decreases n
  {
    if n == 0 then r in AllListed(server, services)
    else exists q, d :: LedToIn(server, services, q, n - 1) && Brings(server, SymbolNames(server, services), q, d, r)
  }

  ghost predicate LedTo(server: Server, services: seq<string>, r: FileRecord) {
    exists n: nat :: LedToIn(server, services, r, n)
  }

  ghost function RecordsIn(table: map<string, seq<Option<FileRecord>>>): set<FileRecord> {
    set n, b | n in table && b in table[n] && b.Some? :: b.value
  }

  lemma AnswerIn(table: map<string, seq<Option<FileRecord>>>, name: string, r: FileRecord)
    requires Answer(table, name).Some? && r in Answer(table, name).value
    ensures r in RecordsIn(table)
  {
    var k :| 0 <= k < |table[name]| && table[name][k].value == r;
    assert table[name][k] in table[name];
  }

  lemma LeadsOn(server: Server, services: seq<string>, q: FileRecord, d: string, r: FileRecord)
    requires LedTo(server, services, q) && Brings(server, SymbolNames(server, services), q, d, r)
    ensures LedTo(server, services, r)
  {
    var n: nat :| LedToIn(server, services, q, n);
    assert LedToIn(server, services, r, n + 1);
  }

  // ---- Imports ----

  ghost function ImportsOf(records: set<FileRecord>, name: string): set<string> {
    set r, d | r in records && r.name == name && d in r.dependency :: d
  }

  /** Every import that any of the records mentions. */
  ghost function ImportsIn(records: set<FileRecord>): Graph {
    map n | n in (set r | r in records :: r.name) :: ImportsOf(records, n)
  }
}
