/** From parsed CSV files to the nodes and triples of a graph plan. */
module GraphPlan {
  import opened Keys
  import opened BookRecords
  import opened GraphStore

  // ---------------------------------------------------------------- intake

  /** A row the CSV reader yields: blank, with more fields than the header, or normalized. */
  datatype CsvRow = Blank | ExtraFields | Fields(claim: Claim, facts: Facts, rawDigest: string)

  /** A file of the input root; `readFails` when the reader raises after the listed rows. */
  datatype CsvFile = CsvFile(path: string, sha256: string, bytes: nat, headerMatches: bool,
                             rows: seq<CsvRow>, readFails: bool)

  datatype FileSummary = FileSummary(path: string, sha256: string, bytes: nat, recordCount: nat)

  datatype Issue = HeaderMismatch | FieldCountMismatch(line: nat) | IsbnWarning(line: nat) | ReadError

  /** `record_digest` of file, line and row digest. */
  type RecordDigest = (string, nat, string) -> string

  function RecordOf(recordDigest: RecordDigest, path: string, line: nat, row: CsvRow): Record
    requires row.Fields?
  {
    Record(row.claim, Identity("", Unassigned),
           Source(path, line, "record:" + Cut(recordDigest(path, line, row.rawDigest), 32), row.rawDigest), row.facts)
  }

  function RowRecords(recordDigest: RecordDigest, path: string, line: nat, row: CsvRow): seq<Record> {
    if row.Fields? then [RecordOf(recordDigest, path, line, row)] else []
  }

  function RowIssues(line: nat, row: CsvRow): seq<Issue> {
    match row
    case Blank => []
    case ExtraFields => [FieldCountMismatch(line)]
    case Fields(claim, facts, _) => if facts.isbnRaw != "" && claim.isbn == "" then [IsbnWarning(line)] else []
  }

  /** Line numbers count every row the reader yields and start at 2, after the header. */
  function RowsRecords(recordDigest: RecordDigest, path: string, rows: seq<CsvRow>): seq<Record> {
    if rows == [] then []
    else
      var n := |rows| - 1;
      RowsRecords(recordDigest, path, rows[..n]) + RowRecords(recordDigest, path, n + 2, rows[n])
  }

  function RowsIssues(rows: seq<CsvRow>): seq<Issue> {
    if rows == [] then [] else RowsIssues(rows[..|rows| - 1]) + RowIssues(|rows| + 1, rows[|rows| - 1])
  }

  function FileRecords(recordDigest: RecordDigest, file: CsvFile): seq<Record> {
    if file.headerMatches then RowsRecords(recordDigest, file.path, file.rows) else []
  }

  function FileIssues(file: CsvFile): seq<Issue> {
    if file.headerMatches then RowsIssues(file.rows) + (if file.readFails then [ReadError] else [])
    else [HeaderMismatch]
  }

  function Summary(recordDigest: RecordDigest, file: CsvFile): FileSummary {
    FileSummary(file.path, file.sha256, file.bytes, |FileRecords(recordDigest, file)|)
  }

  function AllRecords(recordDigest: RecordDigest, files: seq<CsvFile>): seq<Record> {
    if files == [] then []
    else AllRecords(recordDigest, files[..|files| - 1]) + FileRecords(recordDigest, files[|files| - 1])
  }

  function Summaries(recordDigest: RecordDigest, files: seq<CsvFile>): seq<FileSummary> {
    if files == [] then []
    else Summaries(recordDigest, files[..|files| - 1]) + [Summary(recordDigest, files[|files| - 1])]
  }

  function AllIssues(files: seq<CsvFile>): seq<Issue> {
    if files == [] then [] else AllIssues(files[..|files| - 1]) + FileIssues(files[|files| - 1])
  }

  method ParseFile(recordDigest: RecordDigest, file: CsvFile)
      returns (records: seq<Record>, summary: FileSummary, errors: seq<Issue>)
    ensures records == FileRecords(recordDigest, file)
    ensures summary == Summary(recordDigest, file)
    ensures errors == FileIssues(file)
  {
    records, errors := [], [];
    summary := FileSummary(file.path, file.sha256, file.bytes, 0);
    if !file.headerMatches {
      errors := [HeaderMismatch];
      return;
    }
    for i := 0 to |file.rows|
      invariant records == RowsRecords(recordDigest, file.path, file.rows[..i])
      invariant errors == RowsIssues(file.rows[..i])
      invariant summary == FileSummary(file.path, file.sha256, file.bytes, |records|)
    {
      var row, line := file.rows[i], i + 2;
      assert file.rows[..i + 1][..i] == file.rows[..i];
      match row {
        case Blank =>
        case ExtraFields => errors := errors + [FieldCountMismatch(line)];
        case Fields(claim, facts, _) =>
          if facts.isbnRaw != "" && claim.isbn == "" {
            errors := errors + [IsbnWarning(line)];
          }
          records := records + [RecordOf(recordDigest, file.path, line, row)];
          summary := summary.(recordCount := summary.recordCount + 1);
      }
    }
    assert file.rows[..|file.rows|] == file.rows;
    if file.readFails {
      errors := errors + [ReadError];
    }
  }

  lemma NextParsed(recordDigest: RecordDigest, files: seq<CsvFile>, i: nat)
    requires i < |files|
    ensures AllRecords(recordDigest, files[..i + 1]) ==
      AllRecords(recordDigest, files[..i]) + FileRecords(recordDigest, files[i])
    ensures Summaries(recordDigest, files[..i + 1]) ==
      Summaries(recordDigest, files[..i]) + [Summary(recordDigest, files[i])]
    ensures AllIssues(files[..i + 1]) == AllIssues(files[..i]) + FileIssues(files[i])
  {
    assert files[..i + 1][..i] == files[..i];
  }

  method ParseRows(recordDigest: RecordDigest, files: seq<CsvFile>)
      returns (records: seq<Record>, summaries: seq<FileSummary>, errors: seq<Issue>)
    ensures records == AllRecords(recordDigest, files)
    ensures summaries == Summaries(recordDigest, files)
    ensures errors == AllIssues(files)
  {
    records, summaries, errors := [], [], [];
    for i := 0 to |files|
      invariant records == AllRecords(recordDigest, files[..i])
      invariant summaries == Summaries(recordDigest, files[..i])
      invariant errors == AllIssues(files[..i])
    {
      var r, s, e := ParseFile(recordDigest, files[i]);
      NextParsed(recordDigest, files, i);
      records, summaries, errors := records + r, summaries + [s], errors + e;
    }
    assert files[..|files|] == files;
  }

  // ---------------------------------------------------------------- additions, in program order

  datatype Batch = Batch(sourceId: string, inputRoot: string, inputDigest: string)

  function RootProperties(c: Scheme, batch: Batch, files: nat, records: nat): Properties {
    map[GraphVersionField := Text(c.version), SourceIdField := Text(batch.sourceId),
        StatusField := Text("READY_FOR_IMPORT_REVIEW"), InputRootField := Text(batch.inputRoot),
        InputSha256Field := Text(batch.inputDigest), FileCountField := Number(files), RecordCountField := Number(records)]
  }

  function RootOp(c: Scheme, batch: Batch, files: nat, records: nat): Op {
    NodeOp(GraphVersionNode, c.version, RootProperties(c, batch, files, records))
  }

  function RootKey(c: Scheme): Key {
    GraphKey(c, GraphVersionNode, c.version)
  }

  function FileOps(c: Scheme, batch: Batch, s: FileSummary): seq<Op> {
    [NodeOp(SourceFileNode, s.path,
            map[PathField := Text(s.path), Sha256Field := Text(s.sha256), BytesField := Number(s.bytes),
                RecordCountField := Number(s.recordCount), SourceIdField := Text(batch.sourceId)]),
     EdgeOp(GraphKey(c, SourceFileNode, s.path), FromBatch, RootKey(c), map[])]
  }

  function StrategyText(s: Strategy): string {
    match s
    case Unassigned => ""
    case Isbn => "ISBN"
    case IsbnVariant => "ISBN_VARIANT_CONTENT_FINGERPRINT"
    case ContentFingerprint => "CONTENT_FINGERPRINT"
  }

  function BookProperties(batch: Batch, r: Record): Properties {
    var f := r.facts;
    map[TitleField := Text(f.title), ForeignTitleField := Text(f.foreignTitle), IsbnField := Text(r.claim.isbn),
        IsbnRawField := Text(f.isbnRaw), PublisherField := Text(f.publisher), DateRawField := Text(f.dateRaw),
        YearField := f.year, MonthField := f.month, PagesField := f.pages, PriceField := f.price,
        FormatField := Text(f.format), SubjectRawField := Text(f.subjectRaw), SummaryField := Text(f.summary),
        UrlField := f.url, UrlSha256Field := f.urlDigest, StrategyField := Text(StrategyText(r.identity.strategy)),
        SourceIdField := Text(batch.sourceId)]
  }

  function RecordProperties(batch: Batch, s: Source): Properties {
    map[RecordIdField := Text(s.recordId), SourceIdField := Text(batch.sourceId), SourceFileField := Text(s.file),
        SourceLineField := Number(s.line), RawSha256Field := Text(s.rawDigest)]
  }

  function BookKey(c: Scheme, r: Record): Key {
    GraphKey(c, BookNode, r.identity.entityId)
  }

  function CategoryId(r: Record): string {
    "category:" + r.facts.categoryCode
  }

  function TopicId(r: Record): string {
    "topic:" + r.facts.categoryCode + ":" + r.facts.topic
  }

  function ProvenanceNodes(batch: Batch, r: Record): seq<Op> {
    [NodeOp(BookNode, r.identity.entityId, BookProperties(batch, r)),
     NodeOp(SourceRecordNode, r.source.recordId, RecordProperties(batch, r.source))]
  }

  function ProvenanceTriples(c: Scheme, r: Record): seq<Op> {
    var record := GraphKey(c, SourceRecordNode, r.source.recordId);
    [EdgeOp(record, FromBatch, RootKey(c), map[]),
     EdgeOp(record, ReadFrom, GraphKey(c, SourceFileNode, r.source.file), map[]),
     EdgeOp(record, Describes, BookKey(c, r), map[]),
     EdgeOp(BookKey(c, r), InGraphVersion, RootKey(c), map[])]
  }

  function ShelfNodes(r: Record): seq<Op> {
    [NodeOp(CategoryNode, CategoryId(r),
            map[CodeField := Text(r.facts.categoryCode), NameField := Text(r.facts.categoryName)]),
     NodeOp(TopicNode, TopicId(r),
            map[NameField := Text(r.facts.topic), CategoryCodeField := Text(r.facts.categoryCode),
                CategoryNameField := Text(r.facts.categoryName)])]
  }

  function ShelfTriples(c: Scheme, r: Record): seq<Op> {
    var category, topic := GraphKey(c, CategoryNode, CategoryId(r)), GraphKey(c, TopicNode, TopicId(r));
    [EdgeOp(BookKey(c, r), ClassifiedAs, category, map[]), EdgeOp(BookKey(c, r), InTopic, topic, map[]),
     EdgeOp(category, HasTopic, topic, map[])]
  }

  /** A node the book points to, and the triple to it. */
  function LinkOps(c: Scheme, book: Key, l: Label, entityId: string, name: Properties, relation: Relation,
                   edge: Properties): seq<Op> {
    [NodeOp(l, entityId, name), EdgeOp(book, relation, GraphKey(c, l, entityId), edge)]
  }

  function AuthorOps(c: Scheme, book: Key, authors: seq<Author>): seq<Op> {
    if authors == [] then []
    else
      var a := authors[|authors| - 1];
      AuthorOps(c, book, authors[..|authors| - 1]) +
      LinkOps(c, book, AuthorNode, "author:" + Cut(c.digest(a.name), 32), map[NameField := Text(a.name)], AuthoredBy,
              if a.role != "" then map[RoleField := Text(a.role)] else map[])
  }

  function PublisherOps(c: Scheme, book: Key, publisher: string): seq<Op> {
    if publisher == "" then []
    else LinkOps(c, book, PublisherNode, "publisher:" + Cut(c.digest(publisher), 32),
                 map[NameField := Text(publisher)], PublishedBy, map[])
  }

  function SubjectOps(c: Scheme, book: Key, code: string): seq<Op> {
    if code == "" then []
    else LinkOps(c, book, SubjectCodeNode, "clc:" + code, map[CodeField := Text(code)], HasSubjectCode, map[])
  }

  function KeywordOps(c: Scheme, book: Key, keywords: seq<string>): seq<Op> {
    if keywords == [] then []
    else
      var k := keywords[|keywords| - 1];
      KeywordOps(c, book, keywords[..|keywords| - 1]) +
      LinkOps(c, book, KeywordNode, "keyword:" + Cut(c.digest(k), 32), map[NameField := Text(k)], HasKeyword, map[])
  }

  function SharedOps(c: Scheme, batch: Batch, r: Record): seq<Op> {
    ProvenanceNodes(batch, r) + ProvenanceTriples(c, r) + (ShelfNodes(r) + ShelfTriples(c, r))
  }

  function OwnOps(c: Scheme, r: Record): seq<Op> {
    AuthorOps(c, BookKey(c, r), r.facts.authors) + PublisherOps(c, BookKey(c, r), r.facts.publisher)
    + (SubjectOps(c, BookKey(c, r), r.facts.subjectCode) + KeywordOps(c, BookKey(c, r), r.facts.keywords))
  }

  function RecordOps(c: Scheme, batch: Batch, r: Record): seq<Op> {
    SharedOps(c, batch, r) + OwnOps(c, r)
  }

  function FilesOps(c: Scheme, batch: Batch, files: seq<FileSummary>): seq<Op> {
    if files == [] then []
    else FilesOps(c, batch, files[..|files| - 1]) + FileOps(c, batch, files[|files| - 1])
  }

  function RecordsOps(c: Scheme, batch: Batch, records: seq<Record>): seq<Op> {
    if records == [] then []
    else RecordsOps(c, batch, records[..|records| - 1]) + RecordOps(c, batch, records[|records| - 1])
  }

  function HeadOps(c: Scheme, batch: Batch, files: seq<FileSummary>, records: nat): seq<Op> {
    [RootOp(c, batch, |files|, records)] + FilesOps(c, batch, files)
  }

  function PlanOps(c: Scheme, batch: Batch, files: seq<FileSummary>, records: seq<Record>): seq<Op> {
    HeadOps(c, batch, files, |records|) + RecordsOps(c, batch, records)
  }

  // ---------------------------------------------------------------- the program

  lemma FourParts<T>(o: seq<T>, w: seq<T>, x: seq<T>, y: seq<T>, z: seq<T>)
    ensures o + w + x + y + z == o + (w + x + (y + z))
  {
  }

  lemma TwoParts<T>(o: seq<T>, w: seq<T>, x: seq<T>)
    ensures o + w + x == o + (w + x)
  {
  }

  method AddProvenanceNodes(b: GraphBuilder, batch: Batch, r: Record) returns (book: Key, record: Key)
    requires b.Valid()
    modifies b
    ensures b.Valid() && b.log == old(b.log) + ProvenanceNodes(batch, r)
    ensures book == BookKey(b.scheme, r) && record == GraphKey(b.scheme, SourceRecordNode, r.source.recordId)
  {
    book := b.AddNode(BookNode, r.identity.entityId, BookProperties(batch, r));
    record := b.AddNode(SourceRecordNode, r.source.recordId, RecordProperties(batch, r.source));
  }

  method AddProvenanceTriples(b: GraphBuilder, root: Key, book: Key, record: Key, r: Record)
    requires b.Valid() && root == RootKey(b.scheme) && book == BookKey(b.scheme, r)
    requires record == GraphKey(b.scheme, SourceRecordNode, r.source.recordId)
    modifies b
    ensures b.Valid() && b.log == old(b.log) + ProvenanceTriples(b.scheme, r)
  {
    var file := GraphKey(b.scheme, SourceFileNode, r.source.file);
    b.AddTriple(record, FromBatch, root, map[]);
    b.AddTriple(record, ReadFrom, file, map[]);
    b.AddTriple(record, Describes, book, map[]);
    b.AddTriple(book, InGraphVersion, root, map[]);
  }

  method AddShelfNodes(b: GraphBuilder, r: Record) returns (category: Key, topic: Key)
    requires b.Valid()
    modifies b
    ensures b.Valid() && b.log == old(b.log) + ShelfNodes(r)
    ensures category == GraphKey(b.scheme, CategoryNode, CategoryId(r))
    ensures topic == GraphKey(b.scheme, TopicNode, TopicId(r))
  {
    category := b.AddNode(CategoryNode, CategoryId(r),
                          map[CodeField := Text(r.facts.categoryCode), NameField := Text(r.facts.categoryName)]);
    topic := b.AddNode(TopicNode, TopicId(r),
                       map[NameField := Text(r.facts.topic), CategoryCodeField := Text(r.facts.categoryCode),
                           CategoryNameField := Text(r.facts.categoryName)]);
  }

  method AddShelfTriples(b: GraphBuilder, book: Key, category: Key, topic: Key, r: Record)
    requires b.Valid() && book == BookKey(b.scheme, r)
    requires category == GraphKey(b.scheme, CategoryNode, CategoryId(r))
    requires topic == GraphKey(b.scheme, TopicNode, TopicId(r))
    modifies b
    ensures b.Valid() && b.log == old(b.log) + ShelfTriples(b.scheme, r)
  {
    b.AddTriple(book, ClassifiedAs, category, map[]);
    b.AddTriple(book, InTopic, topic, map[]);
    b.AddTriple(category, HasTopic, topic, map[]);
  }

  method AddShared(b: GraphBuilder, batch: Batch, root: Key, r: Record) returns (book: Key)
    requires b.Valid() && root == RootKey(b.scheme)
    modifies b
    ensures b.Valid() && b.log == old(b.log) + SharedOps(b.scheme, batch, r)
    ensures book == BookKey(b.scheme, r)
  {
    var record, category, topic;
    book, record := AddProvenanceNodes(b, batch, r);
    AddProvenanceTriples(b, root, book, record, r);
    category, topic := AddShelfNodes(b, r);
    AddShelfTriples(b, book, category, topic, r);
    FourParts(old(b.log), ProvenanceNodes(batch, r), ProvenanceTriples(b.scheme, r), ShelfNodes(r),
              ShelfTriples(b.scheme, r));
  }

  method AddLink(b: GraphBuilder, book: Key, l: Label, entityId: string, name: Properties, relation: Relation,
                 edge: Properties)
    requires b.Valid()
    modifies b
    ensures b.Valid() && b.log == old(b.log) + LinkOps(b.scheme, book, l, entityId, name, relation, edge)
  {
    var key := b.AddNode(l, entityId, name);
    b.AddTriple(book, relation, key, edge);
  }

  method AddAuthors(b: GraphBuilder, book: Key, authors: seq<Author>)
    requires b.Valid()
    modifies b
    ensures b.Valid() && b.log == old(b.log) + AuthorOps(b.scheme, book, authors)
  {
    for i := 0 to |authors|
      invariant b.Valid() && b.log == old(b.log) + AuthorOps(b.scheme, book, authors[..i])
    {
      var a := authors[i];
      AddLink(b, book, AuthorNode, "author:" + Cut(b.scheme.digest(a.name), 32), map[NameField := Text(a.name)],
              AuthoredBy, if a.role != "" then map[RoleField := Text(a.role)] else map[]);
      assert authors[..i + 1][..i] == authors[..i];
    }
    assert authors[..|authors|] == authors;
  }

  method AddKeywords(b: GraphBuilder, book: Key, keywords: seq<string>)
    requires b.Valid()
    modifies b
    ensures b.Valid() && b.log == old(b.log) + KeywordOps(b.scheme, book, keywords)
  {
    for i := 0 to |keywords|
      invariant b.Valid() && b.log == old(b.log) + KeywordOps(b.scheme, book, keywords[..i])
    {
      var k := keywords[i];
      AddLink(b, book, KeywordNode, "keyword:" + Cut(b.scheme.digest(k), 32), map[NameField := Text(k)], HasKeyword, map[]);
      assert keywords[..i + 1][..i] == keywords[..i];
    }
    assert keywords[..|keywords|] == keywords;
  }

  method AddPublisher(b: GraphBuilder, book: Key, publisher: string)
    requires b.Valid()
    modifies b
    ensures b.Valid() && b.log == old(b.log) + PublisherOps(b.scheme, book, publisher)
  {
    if publisher != "" {
      AddLink(b, book, PublisherNode, "publisher:" + Cut(b.scheme.digest(publisher), 32),
              map[NameField := Text(publisher)], PublishedBy, map[]);
    }
  }

  method AddSubject(b: GraphBuilder, book: Key, code: string)
    requires b.Valid()
    modifies b
    ensures b.Valid() && b.log == old(b.log) + SubjectOps(b.scheme, book, code)
  {
    if code != "" {
      AddLink(b, book, SubjectCodeNode, "clc:" + code, map[CodeField := Text(code)], HasSubjectCode, map[]);
    }
  }

  method AddOwn(b: GraphBuilder, book: Key, r: Record)
    requires b.Valid() && book == BookKey(b.scheme, r)
    modifies b
    ensures b.Valid() && b.log == old(b.log) + OwnOps(b.scheme, r)
  {
    AddAuthors(b, book, r.facts.authors);
    AddPublisher(b, book, r.facts.publisher);
    AddSubject(b, book, r.facts.subjectCode);
    AddKeywords(b, book, r.facts.keywords);
    FourParts(old(b.log), AuthorOps(b.scheme, book, r.facts.authors), PublisherOps(b.scheme, book, r.facts.publisher),
              SubjectOps(b.scheme, book, r.facts.subjectCode), KeywordOps(b.scheme, book, r.facts.keywords));
  }

  method AddFile(b: GraphBuilder, batch: Batch, root: Key, s: FileSummary)
    requires b.Valid() && root == RootKey(b.scheme)
    modifies b
    ensures b.Valid() && b.log == old(b.log) + FileOps(b.scheme, batch, s)
  {
    var file := b.AddNode(SourceFileNode, s.path,
                          map[PathField := Text(s.path), Sha256Field := Text(s.sha256), BytesField := Number(s.bytes),
                              RecordCountField := Number(s.recordCount), SourceIdField := Text(batch.sourceId)]);
    b.AddTriple(file, FromBatch, root, map[]);
  }

  lemma NextFile(c: Scheme, batch: Batch, files: seq<FileSummary>, i: nat)
    requires i < |files|
    ensures FilesOps(c, batch, files[..i + 1]) == FilesOps(c, batch, files[..i]) + FileOps(c, batch, files[i])
  {
    assert files[..i + 1][..i] == files[..i];
  }

  lemma NextRecord(c: Scheme, batch: Batch, records: seq<Record>, i: nat)
    requires i < |records|
    ensures RecordsOps(c, batch, records[..i + 1]) ==
      RecordsOps(c, batch, records[..i]) + RecordOps(c, batch, records[i])
  {
    assert records[..i + 1][..i] == records[..i];
  }

  method AddFiles(b: GraphBuilder, batch: Batch, root: Key, files: seq<FileSummary>)
    requires b.Valid() && root == RootKey(b.scheme)
    modifies b
    ensures b.Valid() && b.log == old(b.log) + FilesOps(b.scheme, batch, files)
  {
    for i := 0 to |files|
      invariant b.Valid() && b.log == old(b.log) + FilesOps(b.scheme, batch, files[..i])
    {
      NextFile(b.scheme, batch, files, i);
      AddFile(b, batch, root, files[i]);
      TwoParts(old(b.log), FilesOps(b.scheme, batch, files[..i]), FileOps(b.scheme, batch, files[i]));
    }
    assert files[..|files|] == files;
  }

  method AddRecord(b: GraphBuilder, batch: Batch, root: Key, r: Record)
    requires b.Valid() && root == RootKey(b.scheme)
    modifies b
    ensures b.Valid() && b.log == old(b.log) + RecordOps(b.scheme, batch, r)
  {
    var book := AddShared(b, batch, root, r);
    AddOwn(b, book, r);
    TwoParts(old(b.log), SharedOps(b.scheme, batch, r), OwnOps(b.scheme, r));
  }

  method AddRecords(b: GraphBuilder, batch: Batch, root: Key, records: seq<Record>)
    requires b.Valid() && root == RootKey(b.scheme)
    modifies b
    ensures b.Valid() && b.log == old(b.log) + RecordsOps(b.scheme, batch, records)
  {
    for i := 0 to |records|
      invariant b.Valid() && b.log == old(b.log) + RecordsOps(b.scheme, batch, records[..i])
    {
      NextRecord(b.scheme, batch, records, i);
      AddRecord(b, batch, root, records[i]);
      TwoParts(old(b.log), RecordsOps(b.scheme, batch, records[..i]), RecordOps(b.scheme, batch, records[i]));
    }
    assert records[..|records|] == records;
  }

  method FillGraph(b: GraphBuilder, batch: Batch, files: seq<FileSummary>, records: seq<Record>)
    requires b.Valid() && b.log == []
    modifies b
    ensures b.Valid() && b.log == PlanOps(b.scheme, batch, files, records)
  {
    var root := b.AddNode(GraphVersionNode, b.scheme.version, RootProperties(b.scheme, batch, |files|, |records|));
    AddFiles(b, batch, root, files);
    AddRecords(b, batch, root, records);
  }

  /** `sorted(values, key=...)` over a dictionary keyed by that very key. */
  function InKeyOrder<T>(m: map<Key, T>): seq<T> {
    var keys := SortedKeys(m.Keys);
    seq(|keys|, i requires 0 <= i < |keys| => assert keys[i] in keys; m[keys[i]])
  }

  datatype Plan = Plan(nodes: seq<GraphNode>, triples: seq<Edge>, errors: seq<Issue>, parseFailed: bool, noRecords: bool)
  {
    predicate CanImport() { !parseFailed && !noRecords }
  }

  predicate BlocksImport(e: Issue) {
    !e.IsbnWarning?
  }

  /** The records of the input with their book identities. */
  function IdentifiedRecords(recordDigest: RecordDigest, files: seq<CsvFile>): seq<Record> {
    var records := AllRecords(recordDigest, files);
    AllIdentified(Conflicts(Claims(records)), records)
  }

  /** The graph of a plan as one sequence of additions. */
  function PlanGraph(c: Scheme, batch: Batch, recordDigest: RecordDigest, files: seq<CsvFile>): Graph {
    ApplyAll(c, EMPTY, PlanOps(c, batch, Summaries(recordDigest, files), IdentifiedRecords(recordDigest, files)))
  }

  method BuildPlan(c: Scheme, batch: Batch, recordDigest: RecordDigest, files: seq<CsvFile>) returns (plan: Plan)
    ensures plan.nodes == InKeyOrder(PlanGraph(c, batch, recordDigest, files).nodes)
    ensures plan.triples == InKeyOrder(PlanGraph(c, batch, recordDigest, files).triples)
    ensures plan.errors == AllIssues(files)
    ensures plan.CanImport() <==>
      AllRecords(recordDigest, files) != [] && forall e :: e in AllIssues(files) ==> !BlocksImport(e)
  {
    var records, summaries, errors := ParseRows(recordDigest, files);
    var list := new RecordList(records);
    var _, _, _ := list.AssignBookIdentities();
    var b := new GraphBuilder(c);
    FillGraph(b, batch, summaries, list.records);
    plan := Plan(InKeyOrder(b.nodes), InKeyOrder(b.triples), errors,
                 exists e :: e in errors && BlocksImport(e), records == []);
  }
}
