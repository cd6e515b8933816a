/** What every built graph plan promises. */
module GraphPlanLaws {
  import opened Keys
  import opened Colons
  import opened BookRecords
  import opened GraphStore
  import opened GraphPlan

  // ---------------------------------------------------------------- intake accounting

  function Blanks(rows: seq<CsvRow>): nat {
    if rows == [] then 0 else Blanks(rows[..|rows| - 1]) + if rows[|rows| - 1].Blank? then 1 else 0
  }

  function Rejected(issues: seq<Issue>): nat {
    if issues == [] then 0
    else Rejected(issues[..|issues| - 1]) + if issues[|issues| - 1].FieldCountMismatch? then 1 else 0
  }

  lemma {:induction false} RejectedAppend(a: seq<Issue>, b: seq<Issue>)
    ensures Rejected(a + b) == Rejected(a) + Rejected(b)
  {
    if b == [] {
      assert a + b == a;
    } else {
      assert (a + b)[..|a + b| - 1] == a + b[..|b| - 1];
      RejectedAppend(a, b[..|b| - 1]);
    }
  }

  /** Every row is kept as a record, skipped as blank, or reported: none is lost. */
  lemma OneRow(recordDigest: RecordDigest, path: string, line: nat, row: CsvRow)
    ensures |RowRecords(recordDigest, path, line, row)| + (if row.Blank? then 1 else 0)
      + Rejected(RowIssues(line, row)) == 1
  {
    var issues := RowIssues(line, row);
    if issues != [] {
      assert issues[..0] == [];
    }
  }

  /** Every row is kept as a record, skipped as blank, or reported: none is lost. */
  lemma {:induction false} RowsAccounted(recordDigest: RecordDigest, path: string, rows: seq<CsvRow>)
    ensures |RowsRecords(recordDigest, path, rows)| + Blanks(rows) + Rejected(RowsIssues(rows)) == |rows|
  {
    if rows != [] {
      var n := |rows| - 1;
      RowsAccounted(recordDigest, path, rows[..n]);
      OneRow(recordDigest, path, n + 2, rows[n]);
      RejectedAppend(RowsIssues(rows[..n]), RowIssues(n + 2, rows[n]));
    }
  }

  /** A record is what a row of a file says, under the number of the row's line: the header is line 1. */
  ghost predicate ReadFromRow(recordDigest: RecordDigest, path: string, rows: seq<CsvRow>, r: Record, i: int) {
    && 0 <= i < |rows| && rows[i].Fields?
    && r.claim == rows[i].claim && r.facts == rows[i].facts && r.identity == Identity("", Unassigned)
    && r.source.file == path && r.source.line == i + 2 && r.source.rawDigest == rows[i].rawDigest
    && r.source.recordId == "record:" + Cut(recordDigest(path, i + 2, rows[i].rawDigest), 32)
  }

  ghost predicate InRows(recordDigest: RecordDigest, path: string, rows: seq<CsvRow>, r: Record) {
    exists i :: ReadFromRow(recordDigest, path, rows, r, i)
  }

  lemma RowsExtended(recordDigest: RecordDigest, path: string, rows: seq<CsvRow>, r: Record)
    requires rows != []
    ensures var n := |rows| - 1;
      InRows(recordDigest, path, rows, r) <==>
      InRows(recordDigest, path, rows[..n], r) || ReadFromRow(recordDigest, path, rows, r, n)
  {
    var n := |rows| - 1;
    if InRows(recordDigest, path, rows[..n], r) {
      var i :| ReadFromRow(recordDigest, path, rows[..n], r, i);
      assert ReadFromRow(recordDigest, path, rows, r, i);
    }
    if InRows(recordDigest, path, rows, r) {
      var i :| ReadFromRow(recordDigest, path, rows, r, i);
      assert i < n ==> ReadFromRow(recordDigest, path, rows[..n], r, i);
    }
  }

  lemma {:induction false} RecordIffRow(recordDigest: RecordDigest, path: string, rows: seq<CsvRow>, r: Record)
    ensures r in RowsRecords(recordDigest, path, rows) <==> InRows(recordDigest, path, rows, r)
  {
    if rows != [] {
      var n := |rows| - 1;
      RecordIffRow(recordDigest, path, rows[..n], r);
      RowsExtended(recordDigest, path, rows, r);
    }
  }

  /** The file has a matching header and a row that says what the record holds. */
  ghost predicate InFile(recordDigest: RecordDigest, file: CsvFile, r: Record) {
    file.headerMatches && InRows(recordDigest, file.path, file.rows, r)
  }

  /** The records are exactly what the readable rows say. */
  lemma {:induction false} RecordsAreRows(recordDigest: RecordDigest, files: seq<CsvFile>, r: Record)
    ensures r in AllRecords(recordDigest, files) <==> exists file :: file in files && InFile(recordDigest, file, r)
  {
    if files != [] {
      var n := |files| - 1;
      RecordsAreRows(recordDigest, files[..n], r);
      RecordIffRow(recordDigest, files[n].path, files[n].rows, r);
      assert files == files[..n] + [files[n]];
      assert files[n] in files;
    }
  }

  /** A row with too many fields is reported under its line, and so is an ISBN text that gave no ISBN. */
  ghost predicate Reports(rows: seq<CsvRow>, issue: Issue, i: int) {
    && 0 <= i < |rows|
    && match issue
       case FieldCountMismatch(line) => line == i + 2 && rows[i].ExtraFields?
       case IsbnWarning(line) =>
         line == i + 2 && rows[i].Fields? && rows[i].facts.isbnRaw != "" && rows[i].claim.isbn == ""
       case _ => false
  }

  ghost predicate Reported(rows: seq<CsvRow>, issue: Issue) {
    exists i :: Reports(rows, issue, i)
  }

  lemma ReportsExtended(rows: seq<CsvRow>, issue: Issue)
    requires rows != []
    ensures var n := |rows| - 1;
      Reported(rows, issue) <==> Reported(rows[..n], issue) || Reports(rows, issue, n)
  {
    var n := |rows| - 1;
    if Reported(rows[..n], issue) {
      var i :| Reports(rows[..n], issue, i);
      assert Reports(rows, issue, i);
    }
    if Reported(rows, issue) {
      var i :| Reports(rows, issue, i);
      assert i < n ==> Reports(rows[..n], issue, i);
    }
  }

  lemma {:induction false} IssueIffRow(rows: seq<CsvRow>, issue: Issue)
    ensures issue in RowsIssues(rows) <==> Reported(rows, issue)
  {
    if rows != [] {
      IssueIffRow(rows[..|rows| - 1], issue);
      ReportsExtended(rows, issue);
    }
  }

  /** What is reported of a file: a header that does not match and nothing else, or its rows and a failing read. */
  lemma IssuesOfFile(file: CsvFile, issue: Issue)
    ensures issue in FileIssues(file) <==>
      match issue
      case HeaderMismatch => !file.headerMatches
      case ReadError => file.headerMatches && file.readFails
      case _ => file.headerMatches && Reported(file.rows, issue)
  {
    IssueIffRow(file.rows, issue);
  }

  function TotalCount(summaries: seq<FileSummary>): nat {
    if summaries == [] then 0 else TotalCount(summaries[..|summaries| - 1]) + summaries[|summaries| - 1].recordCount
  }

  /** The per-file counts add up to the records of the plan. */
  lemma {:induction false} SummariesAddUp(recordDigest: RecordDigest, files: seq<CsvFile>)
    ensures TotalCount(Summaries(recordDigest, files)) == |AllRecords(recordDigest, files)|
  {
    if files != [] {
      SummariesAddUp(recordDigest, files[..|files| - 1]);
      var all := Summaries(recordDigest, files);
      assert all[..|all| - 1] == Summaries(recordDigest, files[..|files| - 1]);
    }
  }

  ghost predicate Summarized(summaries: seq<FileSummary>, r: Record) {
    exists i :: 0 <= i < |summaries| && summaries[i].path == r.source.file
  }

  lemma {:induction false} RowsKeepPath(recordDigest: RecordDigest, path: string, rows: seq<CsvRow>)
    ensures forall r :: r in RowsRecords(recordDigest, path, rows) ==> r.source.file == path
  {
    if rows != [] {
      RowsKeepPath(recordDigest, path, rows[..|rows| - 1]);
    }
  }

  lemma {:induction false} RecordsSummarized(recordDigest: RecordDigest, files: seq<CsvFile>, r: Record)
    requires r in AllRecords(recordDigest, files)
    ensures Summarized(Summaries(recordDigest, files), r)
  {
    var n := |files| - 1;
    var all := Summaries(recordDigest, files);
    var before := Summaries(recordDigest, files[..n]);
    assert all == before + [Summary(recordDigest, files[n])];
    if r in AllRecords(recordDigest, files[..n]) {
      RecordsSummarized(recordDigest, files[..n], r);
      var i :| 0 <= i < |before| && before[i].path == r.source.file;
      assert all[i] == before[i];
    } else {
      RowsKeepPath(recordDigest, files[n].path, files[n].rows);
      assert all[|before|].path == r.source.file;
    }
  }

  // ---------------------------------------------------------------- triples have both ends

  lemma AddedByPair(c: Scheme, a: Op, b: Op)
    requires a.NodeOp?
    ensures GraphKey(c, a.label_, a.entityId) in Added(c, [a, b])
    ensures b.NodeOp? ==> GraphKey(c, b.label_, b.entityId) in Added(c, [a, b])
  {
    assert [] + [a] == [a] && [a] + [b] == [a, b];
  }

  lemma ProvenanceOrdered(c: Scheme, batch: Batch, r: Record, known: set<Key>)
    requires RootKey(c) in known && GraphKey(c, SourceFileNode, r.source.file) in known
    ensures Ordered(c, ProvenanceNodes(batch, r) + ProvenanceTriples(c, r), known)
    ensures BookKey(c, r) in Added(c, ProvenanceNodes(batch, r) + ProvenanceTriples(c, r))
  {
    var nodes, triples := ProvenanceNodes(batch, r), ProvenanceTriples(c, r);
    AddedByPair(c, nodes[0], nodes[1]);
    OrderedAppend(c, nodes, triples, known, known + Added(c, nodes));
    AddedAppend(c, nodes, triples);
  }

  lemma ShelfOrdered(c: Scheme, r: Record, known: set<Key>)
    requires BookKey(c, r) in known
    ensures Ordered(c, ShelfNodes(r) + ShelfTriples(c, r), known)
  {
    var nodes, triples := ShelfNodes(r), ShelfTriples(c, r);
    AddedByPair(c, nodes[0], nodes[1]);
    OrderedAppend(c, nodes, triples, known, known + Added(c, nodes));
  }

  lemma SharedOrdered(c: Scheme, batch: Batch, r: Record, known: set<Key>)
    requires RootKey(c) in known && GraphKey(c, SourceFileNode, r.source.file) in known
    ensures Ordered(c, SharedOps(c, batch, r), known)
    ensures BookKey(c, r) in Added(c, SharedOps(c, batch, r))
  {
    var first, second := ProvenanceNodes(batch, r) + ProvenanceTriples(c, r), ShelfNodes(r) + ShelfTriples(c, r);
    ProvenanceOrdered(c, batch, r, known);
    ShelfOrdered(c, r, known + Added(c, first));
    OrderedAppend(c, first, second, known, known + Added(c, first));
    AddedAppend(c, first, second);
  }

  lemma {:induction false} AuthorsOrdered(c: Scheme, book: Key, authors: seq<Author>, known: set<Key>)
    requires book in known
    ensures Ordered(c, AuthorOps(c, book, authors), known)
  {
    if authors != [] {
      var a := authors[|authors| - 1];
      AuthorsOrdered(c, book, authors[..|authors| - 1], known);
      var name: Properties := map[NameField := Text(a.name)];
      var edge: Properties := if a.role != "" then map[RoleField := Text(a.role)] else map[];
      OrderedAppend(c, AuthorOps(c, book, authors[..|authors| - 1]),
                    LinkOps(c, book, AuthorNode, "author:" + Cut(c.digest(a.name), 32), name, AuthoredBy, edge),
                    known, known);
    }
  }

  lemma {:induction false} KeywordsOrdered(c: Scheme, book: Key, keywords: seq<string>, known: set<Key>)
    requires book in known
    ensures Ordered(c, KeywordOps(c, book, keywords), known)
  {
    if keywords != [] {
      var k := keywords[|keywords| - 1];
      KeywordsOrdered(c, book, keywords[..|keywords| - 1], known);
      var name: Properties := map[NameField := Text(k)];
      OrderedAppend(c, KeywordOps(c, book, keywords[..|keywords| - 1]),
                    LinkOps(c, book, KeywordNode, "keyword:" + Cut(c.digest(k), 32), name, HasKeyword, map[]),
                    known, known);
    }
  }

  lemma OwnOrdered(c: Scheme, r: Record, known: set<Key>)
    requires BookKey(c, r) in known
    ensures Ordered(c, OwnOps(c, r), known)
  {
    var book := BookKey(c, r);
    var a, p := AuthorOps(c, book, r.facts.authors), PublisherOps(c, book, r.facts.publisher);
    var s, k := SubjectOps(c, book, r.facts.subjectCode), KeywordOps(c, book, r.facts.keywords);
    AuthorsOrdered(c, book, r.facts.authors, known);
    KeywordsOrdered(c, book, r.facts.keywords, known);
    OrderedAppend(c, a, p, known, known);
    OrderedAppend(c, s, k, known, known);
    OrderedAppend(c, a + p, s + k, known, known);
  }

  lemma RecordOrdered(c: Scheme, batch: Batch, r: Record, known: set<Key>)
    requires RootKey(c) in known && GraphKey(c, SourceFileNode, r.source.file) in known
    ensures Ordered(c, RecordOps(c, batch, r), known)
  {
    var shared := SharedOps(c, batch, r);
    SharedOrdered(c, batch, r, known);
    OwnOrdered(c, r, known + Added(c, shared));
    OrderedAppend(c, shared, OwnOps(c, r), known, known + Added(c, shared));
  }

  lemma {:induction false} RecordsOrdered(c: Scheme, batch: Batch, records: seq<Record>, known: set<Key>)
    requires RootKey(c) in known
    requires forall r :: r in records ==> GraphKey(c, SourceFileNode, r.source.file) in known
    ensures Ordered(c, RecordsOps(c, batch, records), known)
  {
    if records != [] {
      var n := |records| - 1;
      RecordsOrdered(c, batch, records[..n], known);
      RecordOrdered(c, batch, records[n], known);
      OrderedAppend(c, RecordsOps(c, batch, records[..n]), RecordOps(c, batch, records[n]), known, known);
    }
  }

  lemma {:induction false} FilesOrdered(c: Scheme, batch: Batch, files: seq<FileSummary>, known: set<Key>)
    requires RootKey(c) in known
    ensures Ordered(c, FilesOps(c, batch, files), known)
  {
    if files != [] {
      var n := |files| - 1;
      FilesOrdered(c, batch, files[..n], known);
      OrderedAppend(c, FilesOps(c, batch, files[..n]), FileOps(c, batch, files[n]), known, known);
    }
  }

  lemma {:induction false} FileAdded(c: Scheme, batch: Batch, files: seq<FileSummary>, i: nat)
    requires i < |files|
    ensures GraphKey(c, SourceFileNode, files[i].path) in Added(c, FilesOps(c, batch, files))
  {
    var n := |files| - 1;
    AddedAppend(c, FilesOps(c, batch, files[..n]), FileOps(c, batch, files[n]));
    if i < n {
      FileAdded(c, batch, files[..n], i);
    }
  }

  lemma HeadOrdered(c: Scheme, batch: Batch, files: seq<FileSummary>, records: nat)
    ensures Ordered(c, HeadOps(c, batch, files, records), {})
    ensures RootKey(c) in Added(c, HeadOps(c, batch, files, records))
    ensures Added(c, FilesOps(c, batch, files)) <= Added(c, HeadOps(c, batch, files, records))
  {
    var root := [RootOp(c, batch, |files|, records)];
    assert [] + root == root;
    FilesOrdered(c, batch, files, {RootKey(c)});
    OrderedAppend(c, root, FilesOps(c, batch, files), {}, {RootKey(c)});
    AddedAppend(c, root, FilesOps(c, batch, files));
  }

  lemma OpsGrounded(c: Scheme, batch: Batch, files: seq<FileSummary>, records: seq<Record>)
    requires forall r :: r in records ==> Summarized(files, r)
    ensures Grounded(ApplyAll(c, EMPTY, PlanOps(c, batch, files, records)))
  {
    var head := HeadOps(c, batch, files, |records|);
    HeadOrdered(c, batch, files, |records|);
    forall r | r in records
      ensures GraphKey(c, SourceFileNode, r.source.file) in Added(c, head)
    {
      var i :| 0 <= i < |files| && files[i].path == r.source.file;
      FileAdded(c, batch, files, i);
    }
    RecordsOrdered(c, batch, records, Added(c, head));
    OrderedAppend(c, head, RecordsOps(c, batch, records), {}, Added(c, head));
    OrderedIsGrounded(c, EMPTY, PlanOps(c, batch, files, records));
  }

  /** Every triple of a built plan joins two of its nodes, the computed file key included. */
  lemma TriplesHaveBothEnds(c: Scheme, batch: Batch, recordDigest: RecordDigest, files: seq<CsvFile>)
    ensures Grounded(PlanGraph(c, batch, recordDigest, files))
  {
    var parsed := AllRecords(recordDigest, files);
    var records := IdentifiedRecords(recordDigest, files);
    forall r | r in records
      ensures Summarized(Summaries(recordDigest, files), r)
    {
      var i :| 0 <= i < |records| && records[i] == r;
      RecordsSummarized(recordDigest, files, parsed[i]);
    }
    OpsGrounded(c, batch, Summaries(recordDigest, files), records);
  }

  // ---------------------------------------------------------------- repetition and order of records

  /** Processing the records again on top of the finished graph changes neither nodes nor triples. */
  lemma ReprocessingChangesNothing(c: Scheme, batch: Batch, recordDigest: RecordDigest, files: seq<CsvFile>)
    ensures ApplyAll(c, PlanGraph(c, batch, recordDigest, files),
                     RecordsOps(c, batch, IdentifiedRecords(recordDigest, files)))
      == PlanGraph(c, batch, recordDigest, files)
  {
    var records := IdentifiedRecords(recordDigest, files);
    var head := HeadOps(c, batch, Summaries(recordDigest, files), |records|);
    ApplyAppend(c, EMPTY, head, RecordsOps(c, batch, records));
    RepeatChangesNothing(c, ApplyAll(c, EMPTY, head), RecordsOps(c, batch, records));
  }

  function Flatten(parts: seq<seq<Op>>): seq<Op> {
    if parts == [] then [] else Flatten(parts[..|parts| - 1]) + parts[|parts| - 1]
  }

  lemma {:induction false} PartAdds(c: Scheme, parts: seq<seq<Op>>, i: nat, key: Key)
    requires i < |parts| && key in Added(c, parts[i])
    ensures key in Added(c, Flatten(parts))
  {
    var n := |parts| - 1;
    AddedAppend(c, Flatten(parts[..n]), parts[n]);
    if i < n {
      PartAdds(c, parts[..n], i, key);
    }
  }

  lemma {:induction false} AddingPart(c: Scheme, parts: seq<seq<Op>>, key: Key) returns (i: nat)
    requires key in Added(c, Flatten(parts))
    ensures i < |parts| && key in Added(c, parts[i])
  {
    var n := |parts| - 1;
    AddedAppend(c, Flatten(parts[..n]), parts[n]);
    if key in Added(c, parts[n]) {
      i := n;
    } else {
      i := AddingPart(c, parts[..n], key);
    }
  }

  function RecordParts(c: Scheme, batch: Batch, records: seq<Record>): seq<seq<Op>> {
    seq(|records|, i requires 0 <= i < |records| => RecordOps(c, batch, records[i]))
  }

  lemma {:induction false} RecordsFlatten(c: Scheme, batch: Batch, records: seq<Record>)
    ensures RecordsOps(c, batch, records) == Flatten(RecordParts(c, batch, records))
  {
    if records != [] {
      var n := |records| - 1;
      RecordsFlatten(c, batch, records[..n]);
      assert RecordParts(c, batch, records)[..n] == RecordParts(c, batch, records[..n]);
    }
  }

  lemma SamePartsAddSame(c: Scheme, parts: seq<seq<Op>>, parts': seq<seq<Op>>, key: Key)
    requires forall p :: p in parts ==> p in parts'
    requires key in Added(c, Flatten(parts))
    ensures key in Added(c, Flatten(parts'))
  {
    var i := AddingPart(c, parts, key);
    assert parts[i] in parts';
    var j: nat :| j < |parts'| && parts'[j] == parts[i];
    PartAdds(c, parts', j, key);
  }

  lemma SameRecordsAddSame(c: Scheme, batch: Batch, records: seq<Record>, records': seq<Record>, key: Key)
    requires forall r :: r in records ==> r in records'
    requires key in Added(c, RecordsOps(c, batch, records))
    ensures key in Added(c, RecordsOps(c, batch, records'))
  {
    RecordsFlatten(c, batch, records);
    RecordsFlatten(c, batch, records');
    PartsIncluded(c, batch, records, records');
    SamePartsAddSame(c, RecordParts(c, batch, records), RecordParts(c, batch, records'), key);
  }

  lemma PartsIncluded(c: Scheme, batch: Batch, records: seq<Record>, records': seq<Record>)
    requires forall r :: r in records ==> r in records'
    ensures forall p :: p in RecordParts(c, batch, records) ==> p in RecordParts(c, batch, records')
  {
    var parts, parts' := RecordParts(c, batch, records), RecordParts(c, batch, records');
    forall i | 0 <= i < |parts|
      ensures parts[i] in parts'
    {
      assert records[i] in records;
      var j :| 0 <= j < |records'| && records'[j] == records[i];
      assert parts'[j] == parts[i];
    }
  }

  /** Which nodes exist does not depend on the order or repetition of the records. */
  lemma NodesIgnoreRecordOrder(c: Scheme, batch: Batch, g: Graph, records: seq<Record>, records': seq<Record>)
    requires forall r :: r in records <==> r in records'
    ensures ApplyAll(c, g, RecordsOps(c, batch, records)).nodes.Keys ==
      ApplyAll(c, g, RecordsOps(c, batch, records')).nodes.Keys
  {
    NodeKeysAdded(c, g, RecordsOps(c, batch, records));
    NodeKeysAdded(c, g, RecordsOps(c, batch, records'));
    forall key | key in Added(c, RecordsOps(c, batch, records))
      ensures key in Added(c, RecordsOps(c, batch, records'))
    {
      SameRecordsAddSame(c, batch, records, records', key);
    }
    forall key | key in Added(c, RecordsOps(c, batch, records'))
      ensures key in Added(c, RecordsOps(c, batch, records))
    {
      SameRecordsAddSame(c, batch, records', records, key);
    }
  }

  lemma {:induction false} InFlattened(parts: seq<seq<Op>>, op: Op)
    ensures op in Flatten(parts) <==> exists p :: p in parts && op in p
  {
    if parts != [] {
      var n := |parts| - 1;
      InFlattened(parts[..n], op);
      assert parts == parts[..n] + [parts[n]];
    }
  }

  lemma SameRecordsSameOps(c: Scheme, batch: Batch, records: seq<Record>, records': seq<Record>, op: Op)
    requires forall r :: r in records <==> r in records'
    ensures op in RecordsOps(c, batch, records) <==> op in RecordsOps(c, batch, records')
  {
    RecordsFlatten(c, batch, records);
    RecordsFlatten(c, batch, records');
    InFlattened(RecordParts(c, batch, records), op);
    InFlattened(RecordParts(c, batch, records'), op);
    PartsIncluded(c, batch, records, records');
    PartsIncluded(c, batch, records', records);
  }

  function EdgeOf(c: Scheme, op: Op): Edge
    requires op.EdgeOp?
  {
    MakeEdge(c, op.subject, op.relation, op.target, op.properties)
  }

  /** No two different triples among the additions get one key. */
  ghost predicate EdgesApart(c: Scheme, ops: seq<Op>) {
    forall a, b :: a in ops && b in ops && a.EdgeOp? && b.EdgeOp? && EdgeOf(c, a).edgeKey == EdgeOf(c, b).edgeKey ==> a == b
  }

  /** What the additions leave under a key: the triple one of them offers, or else what was there. */
  ghost predicate TripleIs(c: Scheme, g: Graph, ops: seq<Op>, key: Key, triples: map<Key, Edge>) {
    && (forall op :: op in ops && op.EdgeOp? && EdgeOf(c, op).edgeKey == key ==> key in triples && triples[key] == EdgeOf(c, op))
    && ((forall op :: op in ops && op.EdgeOp? ==> EdgeOf(c, op).edgeKey != key) ==>
          (key in triples <==> key in g.triples) && (key in triples ==> triples[key] == g.triples[key]))
  }

  lemma {:induction false} TriplesAre(c: Scheme, g: Graph, ops: seq<Op>, key: Key)
    requires EdgesApart(c, ops)
    ensures TripleIs(c, g, ops, key, ApplyAll(c, g, ops).triples)
  {
    if ops != [] {
      var before, last := ops[..|ops| - 1], ops[|ops| - 1];
      assert ops == before + [last];
      TriplesAre(c, g, before, key);
      if last.EdgeOp? && EdgeOf(c, last).edgeKey == key {
        assert last in ops;
      }
    }
  }

  /** Which triples exist, and what they carry, does not depend on the order or repetition of the records either, unless
      two of their triples collide in a digest prefix. */
  lemma TriplesIgnoreRecordOrder(c: Scheme, batch: Batch, g: Graph, records: seq<Record>, records': seq<Record>)
    requires forall r :: r in records <==> r in records'
    requires EdgesApart(c, RecordsOps(c, batch, records))
    ensures ApplyAll(c, g, RecordsOps(c, batch, records)).triples == ApplyAll(c, g, RecordsOps(c, batch, records')).triples
  {
    var ops, ops' := RecordsOps(c, batch, records), RecordsOps(c, batch, records');
    forall op
      ensures op in ops <==> op in ops'
    {
      SameRecordsSameOps(c, batch, records, records', op);
    }
    forall key
      ensures TripleIs(c, g, ops, key, ApplyAll(c, g, ops).triples) && TripleIs(c, g, ops, key, ApplyAll(c, g, ops').triples)
    {
      TriplesAre(c, g, ops, key);
      TriplesAre(c, g, ops', key);
    }
    OneTripleMap(c, g, ops, ApplyAll(c, g, ops).triples, ApplyAll(c, g, ops').triples);
  }

  lemma OneTripleMap(c: Scheme, g: Graph, ops: seq<Op>, a: map<Key, Edge>, b: map<Key, Edge>)
    requires forall key :: TripleIs(c, g, ops, key, a) && TripleIs(c, g, ops, key, b)
    ensures a == b
  {
    forall key
      ensures key in a <==> key in b
      ensures key in a && key in b ==> a[key] == b[key]
    {
      assert TripleIs(c, g, ops, key, a) && TripleIs(c, g, ops, key, b);
      if op :| op in ops && op.EdgeOp? && EdgeOf(c, op).edgeKey == key {
        assert a[key] == EdgeOf(c, op) && b[key] == EdgeOf(c, op);
      }
    }
  }

  // ---------------------------------------------------------------- book nodes

  ghost predicate IsBookNode(nodes: map<Key, GraphNode>, key: Key) {
    key in nodes && nodes[key].label_ == BookNode
  }

  ghost predicate DescribedBy(records: seq<Record>, entityId: string) {
    exists i :: 0 <= i < |records| && records[i].identity.entityId == entityId
  }

  /** The only additions of book nodes are those of the records' books. */
  ghost predicate BooksFrom(ops: seq<Op>, records: seq<Record>) {
    forall i {:trigger ops[i]} :: 0 <= i < |ops| && ops[i].NodeOp? && ops[i].label_ == BookNode ==>
      DescribedBy(records, ops[i].entityId)
  }

  lemma {:induction false} AuthorBooks(c: Scheme, book: Key, authors: seq<Author>, records: seq<Record>)
    ensures BooksFrom(AuthorOps(c, book, authors), records)
  {
    if authors != [] {
      AuthorBooks(c, book, authors[..|authors| - 1], records);
    }
  }

  lemma {:induction false} KeywordBooks(c: Scheme, book: Key, keywords: seq<string>, records: seq<Record>)
    ensures BooksFrom(KeywordOps(c, book, keywords), records)
  {
    if keywords != [] {
      KeywordBooks(c, book, keywords[..|keywords| - 1], records);
    }
  }

  lemma OwnBooks(c: Scheme, r: Record, records: seq<Record>)
    ensures BooksFrom(OwnOps(c, r), records)
  {
    var book := BookKey(c, r);
    var a, p := AuthorOps(c, book, r.facts.authors), PublisherOps(c, book, r.facts.publisher);
    var s, k := SubjectOps(c, book, r.facts.subjectCode), KeywordOps(c, book, r.facts.keywords);
    AuthorBooks(c, book, r.facts.authors, records);
    KeywordBooks(c, book, r.facts.keywords, records);
  }

  lemma SharedBooks(c: Scheme, batch: Batch, r: Record, records: seq<Record>)
    requires DescribedBy(records, r.identity.entityId)
    ensures BooksFrom(SharedOps(c, batch, r), records)
  {
  }

  lemma {:induction false} RecordsBooks(c: Scheme, batch: Batch, records: seq<Record>, all: seq<Record>)
    requires records <= all
    ensures BooksFrom(RecordsOps(c, batch, records), all)
  {
    if records != [] {
      var n := |records| - 1;
      var r := records[n];
      RecordsBooks(c, batch, records[..n], all);
      assert all[n] == r;
      SharedBooks(c, batch, r, all);
      OwnBooks(c, r, all);
    }
  }

  lemma {:induction false} FilesBooks(c: Scheme, batch: Batch, files: seq<FileSummary>, records: seq<Record>)
    ensures BooksFrom(FilesOps(c, batch, files), records)
  {
    if files != [] {
      FilesBooks(c, batch, files[..|files| - 1], records);
    }
  }

  lemma PlanBooks(c: Scheme, batch: Batch, files: seq<FileSummary>, records: seq<Record>)
    ensures BooksFrom(PlanOps(c, batch, files, records), records)
  {
    FilesBooks(c, batch, files, records);
    RecordsBooks(c, batch, records, records);
  }

  lemma BookIsAdded(c: Scheme, batch: Batch, files: seq<FileSummary>, records: seq<Record>, i: nat)
    requires i < |records|
    ensures BookKey(c, records[i]) in ApplyAll(c, EMPTY, PlanOps(c, batch, files, records)).nodes
  {
    var r := records[i];
    var head := HeadOps(c, batch, files, |records|);
    SharedOrdered(c, batch, r, {RootKey(c), GraphKey(c, SourceFileNode, r.source.file)});
    AddedAppend(c, SharedOps(c, batch, r), OwnOps(c, r));
    RecordsFlatten(c, batch, records);
    PartAdds(c, RecordParts(c, batch, records), i, BookKey(c, r));
    AddedAppend(c, head, RecordsOps(c, batch, records));
    NodeKeysAdded(c, EMPTY, PlanOps(c, batch, files, records));
  }

  ghost predicate SomeBookKey(c: Scheme, records: seq<Record>, key: Key) {
    exists i :: 0 <= i < |records| && BookKey(c, records[i]) == key
  }

  /** The book nodes of a plan are the books of its records, each under one record's identifier. */
  lemma BookNodeIffRecord(c: Scheme, batch: Batch, files: seq<FileSummary>, records: seq<Record>, key: Key)
    requires ColonFree(c.version)
    ensures var nodes := ApplyAll(c, EMPTY, PlanOps(c, batch, files, records)).nodes;
      && (IsBookNode(nodes, key) <==> SomeBookKey(c, records, key))
      && (IsBookNode(nodes, key) ==> DescribedBy(records, nodes[key].entityId))
  {
    var log := PlanOps(c, batch, files, records);
    var nodes := ApplyAll(c, EMPTY, log).nodes;
    NodeIffAdded(c, log, key);
    if IsBookNode(nodes, key) {
      var i := FirstAddition(c, log, key);
      PlanBooks(c, batch, files, records);
      assert DescribedBy(records, log[i].entityId);
    }
    if i: nat :| i < |records| && BookKey(c, records[i]) == key {
      BookIsAdded(c, batch, files, records, i);
      LabelsApart(c, BookNode, records[i].identity.entityId, nodes[key].label_, nodes[key].entityId);
    }
  }

  // ---------------------------------------------------------------- one book per claim

  function ClaimKey(c: Scheme, claims: set<Claim>, claim: Claim): Key {
    GraphKey(c, BookNode, IdentityOf(Conflicts(claims), claim).entityId)
  }

  /** No two of the batch's book identifiers share the digest prefix of their graph keys. */
  ghost predicate KeysDistinct(c: Scheme, claims: set<Claim>) {
    forall a, b :: a in claims && b in claims && ClaimKey(c, claims, a) == ClaimKey(c, claims, b) ==>
      IdentityOf(Conflicts(claims), a).entityId == IdentityOf(Conflicts(claims), b).entityId
  }

  lemma {:induction false} ImageCount(s: set<Claim>, f: Claim -> Key)
    requires forall a, b :: a in s && b in s && f(a) == f(b) ==> a == b
    ensures |set x | x in s :: f(x)| == |s|
  {
    if s != {} {
      var x :| x in s;
      ImageCount(s - {x}, f);
      assert (set y | y in s :: f(y)) == (set y | y in s - {x} :: f(y)) + {f(x)};
    }
  }

  function BookKeys(nodes: map<Key, GraphNode>): set<Key> {
    set k | k in nodes && nodes[k].label_ == BookNode
  }

  function ClaimKeys(c: Scheme, claims: set<Claim>): set<Key> {
    set x | x in claims :: ClaimKey(c, claims, x)
  }

  lemma BookKeyIffClaimKey(c: Scheme, parsed: seq<Record>, key: Key)
    ensures SomeBookKey(c, AllIdentified(Conflicts(Claims(parsed)), parsed), key) <==> key in ClaimKeys(c, Claims(parsed))
  {
    var claims := Claims(parsed);
    var records := AllIdentified(Conflicts(claims), parsed);
    if i: nat :| i < |records| && BookKey(c, records[i]) == key {
      assert parsed[i] in parsed;
      assert parsed[i].claim in claims;
    }
    if x :| x in claims && ClaimKey(c, claims, x) == key {
      var i :| 0 <= i < |parsed| && parsed[i].claim == x;
      assert BookKey(c, records[i]) == key;
    }
  }

  lemma BookKeysAreClaimKeys(c: Scheme, batch: Batch, summaries: seq<FileSummary>, parsed: seq<Record>)
    requires ColonFree(c.version)
    ensures var records := AllIdentified(Conflicts(Claims(parsed)), parsed);
      BookKeys(ApplyAll(c, EMPTY, PlanOps(c, batch, summaries, records)).nodes) == ClaimKeys(c, Claims(parsed))
  {
    var records := AllIdentified(Conflicts(Claims(parsed)), parsed);
    forall key
      ensures key in BookKeys(ApplyAll(c, EMPTY, PlanOps(c, batch, summaries, records)).nodes) <==>
        key in ClaimKeys(c, Claims(parsed))
    {
      BookNodeIffRecord(c, batch, summaries, records, key);
      BookKeyIffClaimKey(c, parsed, key);
    }
  }

  lemma ClaimKeyCount(c: Scheme, claims: set<Claim>)
    requires ClaimsReadable(claims) && PrefixesDistinct(claims) && KeysDistinct(c, claims)
    ensures |ClaimKeys(c, claims)| == |claims|
  {
    var f := (x: Claim) => ClaimKey(c, claims, x);
    forall a, b | a in claims && b in claims && f(a) == f(b)
      ensures a == b
    {
      IdentifierIsIsbnAndContent(claims, a, b);
    }
    ImageCount(claims, f);
    assert (set x | x in claims :: f(x)) == ClaimKeys(c, claims);
  }

  /** Up to digest-prefix collisions the plan has one book node for each pair of ISBN and content in the input. */
  lemma OneBookPerClaim(c: Scheme, batch: Batch, recordDigest: RecordDigest, files: seq<CsvFile>)
    requires ColonFree(c.version)
    requires var claims := Claims(AllRecords(recordDigest, files));
      ClaimsReadable(claims) && PrefixesDistinct(claims) && KeysDistinct(c, claims)
    ensures |BookKeys(PlanGraph(c, batch, recordDigest, files).nodes)| == |Claims(AllRecords(recordDigest, files))|
  {
    ClaimKeyCount(c, Claims(AllRecords(recordDigest, files)));
    BookKeysAreClaimKeys(c, batch, Summaries(recordDigest, files), AllRecords(recordDigest, files));
  }
}
