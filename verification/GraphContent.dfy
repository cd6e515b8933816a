/** Which triples and properties a graph plan holds, told from the records and files alone. */
module GraphContent {
  import opened Keys
  import opened Colons
  import opened BookRecords
  import opened GraphStore
  import opened GraphPlan
  import opened GraphPlanLaws

  // ---------------------------------------------------------------- what the records say

  function FileKey(c: Scheme, path: string): Key {
    GraphKey(c, SourceFileNode, path)
  }

  function RecordKey(c: Scheme, r: Record): Key {
    GraphKey(c, SourceRecordNode, r.source.recordId)
  }

  function CategoryKey(c: Scheme, code: string): Key {
    GraphKey(c, CategoryNode, "category:" + code)
  }

  function TopicKey(c: Scheme, code: string, topic: string): Key {
    GraphKey(c, TopicNode, "topic:" + code + ":" + topic)
  }

  function AuthorKey(c: Scheme, name: string): Key {
    GraphKey(c, AuthorNode, "author:" + Cut(c.digest(name), 32))
  }

  function PublisherKey(c: Scheme, name: string): Key {
    GraphKey(c, PublisherNode, "publisher:" + Cut(c.digest(name), 32))
  }

  function SubjectKey(c: Scheme, code: string): Key {
    GraphKey(c, SubjectCodeNode, "clc:" + code)
  }

  function KeywordKey(c: Scheme, word: string): Key {
    GraphKey(c, KeywordNode, "keyword:" + Cut(c.digest(word), 32))
  }

  /** One of the authors has that node, and the role the triple carries. */
  ghost predicate ListsAuthor(c: Scheme, authors: seq<Author>, target: Key, properties: Properties) {
    exists a :: a in authors && target == AuthorKey(c, a.name) && properties == RoleOf(a)
  }

  function RoleOf(a: Author): Properties {
    if a.role != "" then map[RoleField := Text(a.role)] else map[]
  }

  ghost predicate ListsKeyword(c: Scheme, keywords: seq<string>, target: Key) {
    exists k :: k in keywords && target == KeywordKey(c, k)
  }

  /** A record says that one node is in a relation to another. */
  ghost predicate Says(c: Scheme, r: Record, subject: Key, relation: Relation, target: Key, properties: Properties) {
    var f, book := r.facts, BookKey(c, r);
    match relation
    case FromBatch => subject == RecordKey(c, r) && target == RootKey(c) && properties == map[]
    case ReadFrom => subject == RecordKey(c, r) && target == FileKey(c, r.source.file) && properties == map[]
    case Describes => subject == RecordKey(c, r) && target == book && properties == map[]
    case InGraphVersion => subject == book && target == RootKey(c) && properties == map[]
    case ClassifiedAs => subject == book && target == CategoryKey(c, f.categoryCode) && properties == map[]
    case InTopic => subject == book && target == TopicKey(c, f.categoryCode, f.topic) && properties == map[]
    case HasTopic =>
      subject == CategoryKey(c, f.categoryCode) && target == TopicKey(c, f.categoryCode, f.topic) && properties == map[]
    case AuthoredBy => subject == book && ListsAuthor(c, f.authors, target, properties)
    case PublishedBy => f.publisher != "" && subject == book && target == PublisherKey(c, f.publisher) && properties == map[]
    case HasSubjectCode =>
      f.subjectCode != "" && subject == book && target == SubjectKey(c, f.subjectCode) && properties == map[]
    case HasKeyword => subject == book && ListsKeyword(c, f.keywords, target) && properties == map[]
  }

  /** Every file of the batch is from the batch. */
  ghost predicate FileSays(c: Scheme, files: seq<FileSummary>, subject: Key, relation: Relation, target: Key,
                           properties: Properties) {
    relation == FromBatch && target == RootKey(c) && properties == map[] &&
    exists i :: 0 <= i < |files| && subject == FileKey(c, files[i].path)
  }

  lemma {:induction false} AuthorEdges(c: Scheme, book: Key, authors: seq<Author>, op: Op)
    requires op.EdgeOp?
    ensures op in AuthorOps(c, book, authors) <==>
      op.relation == AuthoredBy && op.subject == book && ListsAuthor(c, authors, op.target, op.properties)
  {
    if authors != [] {
      var n := |authors| - 1;
      var front, last := authors[..n], authors[n];
      AuthorEdges(c, book, front, op);
      assert authors == front + [last];
      assert ListsAuthor(c, authors, op.target, op.properties) <==>
        ListsAuthor(c, front, op.target, op.properties) || (op.target == AuthorKey(c, last.name) && op.properties == RoleOf(last));
    }
  }

  lemma {:induction false} KeywordEdges(c: Scheme, book: Key, keywords: seq<string>, op: Op)
    requires op.EdgeOp?
    ensures op in KeywordOps(c, book, keywords) <==>
      op.relation == HasKeyword && op.subject == book && op.properties == map[] && ListsKeyword(c, keywords, op.target)
  {
    if keywords != [] {
      var n := |keywords| - 1;
      var front, last := keywords[..n], keywords[n];
      KeywordEdges(c, book, front, op);
      assert keywords == front + [last];
      assert ListsKeyword(c, keywords, op.target) <==>
        ListsKeyword(c, front, op.target) || op.target == KeywordKey(c, last);
      assert op == EdgeOp(op.subject, op.relation, op.target, op.properties);
    }
  }

  lemma PublisherEdges(c: Scheme, book: Key, publisher: string, op: Op)
    requires op.EdgeOp?
    ensures op in PublisherOps(c, book, publisher) <==>
      op.relation == PublishedBy && publisher != "" && op.subject == book && op.target == PublisherKey(c, publisher) &&
      op.properties == map[]
  {
    assert op == EdgeOp(op.subject, op.relation, op.target, op.properties);
  }

  lemma SubjectEdges(c: Scheme, book: Key, code: string, op: Op)
    requires op.EdgeOp?
    ensures op in SubjectOps(c, book, code) <==>
      op.relation == HasSubjectCode && code != "" && op.subject == book && op.target == SubjectKey(c, code) &&
      op.properties == map[]
  {
    assert op == EdgeOp(op.subject, op.relation, op.target, op.properties);
  }

  lemma InOwn(c: Scheme, r: Record, op: Op)
    ensures op in OwnOps(c, r) <==>
      || op in AuthorOps(c, BookKey(c, r), r.facts.authors) || op in PublisherOps(c, BookKey(c, r), r.facts.publisher)
      || op in SubjectOps(c, BookKey(c, r), r.facts.subjectCode) || op in KeywordOps(c, BookKey(c, r), r.facts.keywords)
  {
    var book := BookKey(c, r);
    InFour(AuthorOps(c, book, r.facts.authors), PublisherOps(c, book, r.facts.publisher),
           SubjectOps(c, book, r.facts.subjectCode), KeywordOps(c, book, r.facts.keywords), op);
  }

  lemma InFour(w: seq<Op>, x: seq<Op>, y: seq<Op>, z: seq<Op>, op: Op)
    ensures op in w + x + (y + z) <==> op in w || op in x || op in y || op in z
  {
  }

  lemma OwnEdges(c: Scheme, r: Record, op: Op)
    requires op.EdgeOp?
    ensures op in OwnOps(c, r) <==>
      op.relation in {AuthoredBy, PublishedBy, HasSubjectCode, HasKeyword} &&
      Says(c, r, op.subject, op.relation, op.target, op.properties)
  {
    var book := BookKey(c, r);
    InOwn(c, r, op);
    AuthorEdges(c, book, r.facts.authors, op);
    PublisherEdges(c, book, r.facts.publisher, op);
    SubjectEdges(c, book, r.facts.subjectCode, op);
    KeywordEdges(c, book, r.facts.keywords, op);
  }

  lemma ProvenanceEdges(c: Scheme, batch: Batch, r: Record, op: Op)
    requires op.EdgeOp?
    ensures op in ProvenanceNodes(batch, r) + ProvenanceTriples(c, r) <==>
      op.relation in {FromBatch, ReadFrom, Describes, InGraphVersion} &&
      Says(c, r, op.subject, op.relation, op.target, op.properties)
  {
    assert op == EdgeOp(op.subject, op.relation, op.target, op.properties);
  }

  lemma ShelfEdges(c: Scheme, r: Record, op: Op)
    requires op.EdgeOp?
    ensures op in ShelfNodes(r) + ShelfTriples(c, r) <==>
      op.relation in {ClassifiedAs, InTopic, HasTopic} && Says(c, r, op.subject, op.relation, op.target, op.properties)
  {
    assert op == EdgeOp(op.subject, op.relation, op.target, op.properties);
  }

  lemma InRecord(c: Scheme, batch: Batch, r: Record, op: Op)
    ensures op in RecordOps(c, batch, r) <==>
      || op in ProvenanceNodes(batch, r) + ProvenanceTriples(c, r) || op in ShelfNodes(r) + ShelfTriples(c, r)
      || op in OwnOps(c, r)
  {
    InThree(ProvenanceNodes(batch, r) + ProvenanceTriples(c, r), ShelfNodes(r) + ShelfTriples(c, r), OwnOps(c, r), op);
  }

  lemma InThree(x: seq<Op>, y: seq<Op>, z: seq<Op>, op: Op)
    ensures op in x + y + z <==> op in x || op in y || op in z
  {
  }

  lemma RecordEdges(c: Scheme, batch: Batch, r: Record, op: Op)
    requires op.EdgeOp?
    ensures op in RecordOps(c, batch, r) <==> Says(c, r, op.subject, op.relation, op.target, op.properties)
  {
    InRecord(c, batch, r, op);
    ProvenanceEdges(c, batch, r, op);
    ShelfEdges(c, r, op);
    OwnEdges(c, r, op);
  }

  ghost predicate SomeSays(c: Scheme, records: seq<Record>, subject: Key, relation: Relation, target: Key,
                           properties: Properties) {
    exists r :: r in records && Says(c, r, subject, relation, target, properties)
  }

  lemma RecordsEdges(c: Scheme, batch: Batch, records: seq<Record>, op: Op)
    requires op.EdgeOp?
    ensures op in RecordsOps(c, batch, records) <==>
      SomeSays(c, records, op.subject, op.relation, op.target, op.properties)
  {
    var parts := RecordParts(c, batch, records);
    RecordsFlatten(c, batch, records);
    InFlattened(parts, op);
    forall i | 0 <= i < |records|
      ensures op in parts[i] <==> Says(c, records[i], op.subject, op.relation, op.target, op.properties)
    {
      RecordEdges(c, batch, records[i], op);
    }
    PartsSay(parts, c, records, op);
  }

  lemma PartsSay(parts: seq<seq<Op>>, c: Scheme, records: seq<Record>, op: Op)
    requires op.EdgeOp? && |parts| == |records|
    requires forall i :: 0 <= i < |records| ==>
      (op in parts[i] <==> Says(c, records[i], op.subject, op.relation, op.target, op.properties))
    ensures (exists p :: p in parts && op in p) <==>
      SomeSays(c, records, op.subject, op.relation, op.target, op.properties)
  {
    if p :| p in parts && op in p {
      var i :| 0 <= i < |parts| && parts[i] == p;
      assert records[i] in records;
    }
    if r :| r in records && Says(c, r, op.subject, op.relation, op.target, op.properties) {
      var i :| 0 <= i < |records| && records[i] == r;
      assert parts[i] in parts;
    }
  }

  lemma {:induction false} FilesEdges(c: Scheme, batch: Batch, files: seq<FileSummary>, op: Op)
    requires op.EdgeOp?
    ensures op in FilesOps(c, batch, files) <==>
      FileSays(c, files, op.subject, op.relation, op.target, op.properties)
  {
    if files != [] {
      var n := |files| - 1;
      var front, last := files[..n], files[n];
      FilesEdges(c, batch, front, op);
      assert files == front + [last];
      assert op == EdgeOp(op.subject, op.relation, op.target, op.properties);
      if i :| 0 <= i < |files| && op.subject == FileKey(c, files[i].path) {
        assert i < n ==> front[i] == files[i];
      }
      if i :| 0 <= i < n && op.subject == FileKey(c, front[i].path) {
        assert files[i] == front[i];
      }
    }
  }

  lemma PlanEdges(c: Scheme, batch: Batch, files: seq<FileSummary>, records: seq<Record>, op: Op)
    requires op.EdgeOp?
    ensures op in PlanOps(c, batch, files, records) <==>
      || FileSays(c, files, op.subject, op.relation, op.target, op.properties)
      || SomeSays(c, records, op.subject, op.relation, op.target, op.properties)
  {
    FilesEdges(c, batch, files, op);
    RecordsEdges(c, batch, records, op);
  }

  // ---------------------------------------------------------------- triples of the graph

  ghost predicate HasTriple(triples: map<Key, Edge>, subject: Key, relation: Relation, target: Key, properties: Properties) {
    exists k :: k in triples && triples[k] == Edge(k, subject, relation, target, properties)
  }

  lemma {:induction false} TripleWasAdded(c: Scheme, ops: seq<Op>, key: Key) returns (op: Op)
    requires key in ApplyAll(c, EMPTY, ops).triples
    ensures op in ops && op.EdgeOp? && EdgeOf(c, op) == ApplyAll(c, EMPTY, ops).triples[key] && EdgeOf(c, op).edgeKey == key
  {
    var n := |ops| - 1;
    var front, last := ops[..n], ops[n];
    assert ops == front + [last];
    if last.EdgeOp? && EdgeOf(c, last).edgeKey == key {
      op := last;
    } else {
      op := TripleWasAdded(c, front, key);
    }
  }

  lemma TripleIffAdded(c: Scheme, ops: seq<Op>, op: Op)
    requires EdgesApart(c, ops) && op.EdgeOp?
    ensures HasTriple(ApplyAll(c, EMPTY, ops).triples, op.subject, op.relation, op.target, op.properties) <==> op in ops
  {
    var triples := ApplyAll(c, EMPTY, ops).triples;
    if op in ops {
      TriplesAre(c, EMPTY, ops, EdgeOf(c, op).edgeKey);
      assert triples[EdgeOf(c, op).edgeKey] == EdgeOf(c, op);
    }
    if k :| k in triples && triples[k] == Edge(k, op.subject, op.relation, op.target, op.properties) {
      var added := TripleWasAdded(c, ops, k);
      assert added == op;
    }
  }

  /** Without colliding edge digests the graph holds exactly the triples its files and records say. */
  lemma TriplesExact(c: Scheme, batch: Batch, files: seq<FileSummary>, records: seq<Record>, subject: Key,
                     relation: Relation, target: Key, properties: Properties)
    requires EdgesApart(c, PlanOps(c, batch, files, records))
    ensures HasTriple(ApplyAll(c, EMPTY, PlanOps(c, batch, files, records)).triples, subject, relation, target, properties) <==>
      || FileSays(c, files, subject, relation, target, properties)
      || SomeSays(c, records, subject, relation, target, properties)
  {
    var op := EdgeOp(subject, relation, target, properties);
    TripleIffAdded(c, PlanOps(c, batch, files, records), op);
    PlanEdges(c, batch, files, records, op);
  }

  // ---------------------------------------------------------------- typing

  /** Which labels a relation joins. */
  predicate Joins(relation: Relation, from: Label, to: Label) {
    match relation
    case FromBatch => (from == SourceFileNode || from == SourceRecordNode) && to == GraphVersionNode
    case ReadFrom => from == SourceRecordNode && to == SourceFileNode
    case Describes => from == SourceRecordNode && to == BookNode
    case InGraphVersion => from == BookNode && to == GraphVersionNode
    case ClassifiedAs => from == BookNode && to == CategoryNode
    case InTopic => from == BookNode && to == TopicNode
    case HasTopic => from == CategoryNode && to == TopicNode
    case AuthoredBy => from == BookNode && to == AuthorNode
    case PublishedBy => from == BookNode && to == PublisherNode
    case HasSubjectCode => from == BookNode && to == SubjectCodeNode
    case HasKeyword => from == BookNode && to == KeywordNode
  }

  ghost predicate KeyOf(c: Scheme, l: Label, key: Key) {
    exists e :: GraphKey(c, l, e) == key
  }

  lemma AuthorKeyOf(c: Scheme, authors: seq<Author>, target: Key, properties: Properties)
    requires ListsAuthor(c, authors, target, properties)
    ensures KeyOf(c, AuthorNode, target)
  {
    var a :| a in authors && target == AuthorKey(c, a.name) && properties == RoleOf(a);
  }

  lemma KeywordKeyOf(c: Scheme, keywords: seq<string>, target: Key)
    requires ListsKeyword(c, keywords, target)
    ensures KeyOf(c, KeywordNode, target)
  {
    var k :| k in keywords && target == KeywordKey(c, k);
  }

  lemma SaysJoins(c: Scheme, r: Record, subject: Key, relation: Relation, target: Key, properties: Properties)
      returns (from: Label, to: Label)
    requires Says(c, r, subject, relation, target, properties)
    ensures KeyOf(c, from, subject) && KeyOf(c, to, target) && Joins(relation, from, to)
  {
    match relation {
      case FromBatch => from, to := SourceRecordNode, GraphVersionNode;
      case ReadFrom => from, to := SourceRecordNode, SourceFileNode;
      case Describes => from, to := SourceRecordNode, BookNode;
      case InGraphVersion => from, to := BookNode, GraphVersionNode;
      case ClassifiedAs => from, to := BookNode, CategoryNode;
      case InTopic => from, to := BookNode, TopicNode;
      case HasTopic => from, to := CategoryNode, TopicNode;
      case AuthoredBy =>
        from, to := BookNode, AuthorNode;
        AuthorKeyOf(c, r.facts.authors, target, properties);
      case PublishedBy => from, to := BookNode, PublisherNode;
      case HasSubjectCode => from, to := BookNode, SubjectCodeNode;
      case HasKeyword =>
        from, to := BookNode, KeywordNode;
        KeywordKeyOf(c, r.facts.keywords, target);
    }
  }

  lemma EdgeJoins(c: Scheme, batch: Batch, files: seq<FileSummary>, records: seq<Record>, op: Op)
      returns (from: Label, to: Label)
    requires op.EdgeOp? && op in PlanOps(c, batch, files, records)
    ensures KeyOf(c, from, op.subject) && KeyOf(c, to, op.target) && Joins(op.relation, from, to)
  {
    PlanEdges(c, batch, files, records, op);
    if FileSays(c, files, op.subject, op.relation, op.target, op.properties) {
      from, to := SourceFileNode, GraphVersionNode;
    } else {
      var r :| r in records && Says(c, r, op.subject, op.relation, op.target, op.properties);
      from, to := SaysJoins(c, r, op.subject, op.relation, op.target, op.properties);
    }
  }

  lemma LabelOfKey(c: Scheme, log: seq<Op>, l: Label, key: Key)
    requires ColonFree(c.version) && KeyOf(c, l, key) && key in ApplyAll(c, EMPTY, log).nodes
    ensures ApplyAll(c, EMPTY, log).nodes[key].label_ == l
  {
    NodeIffAdded(c, log, key);
    var e :| GraphKey(c, l, e) == key;
    var node := ApplyAll(c, EMPTY, log).nodes[key];
    LabelsApart(c, l, e, node.label_, node.entityId);
  }

  /** Every triple joins nodes of the two labels its relation is for. */
  ghost predicate WellTyped(g: Graph) {
    forall k :: k in g.triples ==> TypedEdge(g, g.triples[k])
  }

  ghost predicate TypedEdge(g: Graph, e: Edge) {
    e.subject in g.nodes && e.target in g.nodes && Joins(e.relation, g.nodes[e.subject].label_, g.nodes[e.target].label_)
  }

  lemma PlanIsWellTyped(c: Scheme, batch: Batch, recordDigest: RecordDigest, files: seq<CsvFile>)
    requires ColonFree(c.version)
    ensures WellTyped(PlanGraph(c, batch, recordDigest, files))
  {
    var summaries, records := Summaries(recordDigest, files), IdentifiedRecords(recordDigest, files);
    var log := PlanOps(c, batch, summaries, records);
    TriplesHaveBothEnds(c, batch, recordDigest, files);
    forall k | k in ApplyAll(c, EMPTY, log).triples
      ensures TypedEdge(ApplyAll(c, EMPTY, log), ApplyAll(c, EMPTY, log).triples[k])
    {
      TripleIsTyped(c, batch, summaries, records, k);
    }
  }

  lemma TripleIsTyped(c: Scheme, batch: Batch, files: seq<FileSummary>, records: seq<Record>, k: Key)
    requires ColonFree(c.version)
    requires var g := ApplyAll(c, EMPTY, PlanOps(c, batch, files, records)); Grounded(g) && k in g.triples
    ensures var g := ApplyAll(c, EMPTY, PlanOps(c, batch, files, records)); TypedEdge(g, g.triples[k])
  {
    var log := PlanOps(c, batch, files, records);
    var op := TripleWasAdded(c, log, k);
    var from, to := EdgeJoins(c, batch, files, records, op);
    LabelOfKey(c, log, from, op.subject);
    LabelOfKey(c, log, to, op.target);
  }

  // ---------------------------------------------------------------- properties of nodes

  /** What an addition offers for a property, if it is to the node and not missing; the property never holds an empty
      list. */
  function Offered(c: Scheme, op: Op, key: Key, f: Field): Value {
    if op.NodeOp? && GraphKey(c, op.label_, op.entityId) == key && f in op.properties && !Missing(op.properties[f]) then
      op.properties[f]
    else None
  }

  function FirstOf(a: Value, b: Value): Value {
    if a != None then a else b
  }

  function FirstOffered(c: Scheme, ops: seq<Op>, key: Key, f: Field): Value {
    if ops == [] then None
    else FirstOf(FirstOffered(c, ops[..|ops| - 1], key, f), Offered(c, ops[|ops| - 1], key, f))
  }

  /** The value a node has for a property, if any. */
  function ValueIn(nodes: map<Key, GraphNode>, key: Key, f: Field): Value {
    if key in nodes && f in nodes[key].properties then nodes[key].properties[f] else None
  }

  lemma OfferedNext(c: Scheme, g: Graph, op: Op, key: Key, f: Field)
    requires Offered(c, op, key, f) != Listing([])
    requires key in g.nodes && f in g.nodes[key].properties ==> g.nodes[key].properties[f] != None
    ensures ValueIn(Apply(c, g, op).nodes, key, f) == FirstOf(ValueIn(g.nodes, key, f), Offered(c, op, key, f))
  {
  }

  /** A node's property is the first value offered for it. */
  lemma {:induction false} ValueIsFirst(c: Scheme, ops: seq<Op>, key: Key, f: Field)
    requires forall op :: op in ops ==> Offered(c, op, key, f) != Listing([])
    ensures var nodes := ApplyAll(c, EMPTY, ops).nodes;
      && ValueIn(nodes, key, f) == FirstOffered(c, ops, key, f)
      && (key in nodes && f in nodes[key].properties ==> nodes[key].properties[f] != None)
  {
    if ops != [] {
      var n := |ops| - 1;
      var front, last := ops[..n], ops[n];
      assert ops == front + [last];
      ValueIsFirst(c, front, key, f);
      OfferedNext(c, ApplyAll(c, EMPTY, front), last, key, f);
    }
  }

  lemma {:induction false} FirstOfferedAppend(c: Scheme, a: seq<Op>, b: seq<Op>, key: Key, f: Field)
    ensures FirstOffered(c, a + b, key, f) == FirstOf(FirstOffered(c, a, key, f), FirstOffered(c, b, key, f))
  {
    if b == [] {
      assert a + b == a;
    } else {
      var m := |b| - 1;
      FirstOfferedAppend(c, a, b[..m], key, f);
      assert (a + b)[..|a + b| - 1] == a + b[..m];
    }
  }

  lemma {:induction false} NoneOffered(c: Scheme, ops: seq<Op>, key: Key, f: Field)
    requires forall op :: op in ops ==> Offered(c, op, key, f) == None
    ensures FirstOffered(c, ops, key, f) == None
  {
    if ops != [] {
      var n := |ops| - 1;
      assert ops == ops[..n] + [ops[n]];
      NoneOffered(c, ops[..n], key, f);
    }
  }

  // ---------------------------------------------------------------- the Book nodes

  type Told = Record -> Value

  /** The value is what the first record of the book with anything to tell says, and none when no record tells. */
  ghost predicate FirstTold(c: Scheme, records: seq<Record>, book: Key, told: Told, value: Value) {
    && (value == None ==> forall i :: 0 <= i < |records| && BookKey(c, records[i]) == book ==> Missing(told(records[i])))
    && (value != None ==> exists i :: TellsFirst(c, records, book, told, i) && value == told(records[i]))
  }

  ghost predicate TellsFirst(c: Scheme, records: seq<Record>, book: Key, told: Told, i: int) {
    && 0 <= i < |records| && BookKey(c, records[i]) == book && !Missing(told(records[i]))
    && forall j :: 0 <= j < i && BookKey(c, records[j]) == book ==> Missing(told(records[j]))
  }

  function FirstSaid(c: Scheme, records: seq<Record>, book: Key, told: Told): Value {
    if records == [] then None
    else
      var last := records[|records| - 1];
      FirstOf(FirstSaid(c, records[..|records| - 1], book, told),
              if BookKey(c, last) == book && !Missing(told(last)) then told(last) else None)
  }

  lemma {:induction false} FirstSaidIsFirst(c: Scheme, records: seq<Record>, book: Key, told: Told)
    ensures FirstTold(c, records, book, told, FirstSaid(c, records, book, told))
  {
    if records != [] {
      var n := |records| - 1;
      var front := records[..n];
      FirstSaidIsFirst(c, front, book, told);
      assert forall j :: 0 <= j < n ==> front[j] == records[j];
      if FirstSaid(c, front, book, told) != None {
        var i :| TellsFirst(c, front, book, told, i) && FirstSaid(c, front, book, told) == told(front[i]);
        assert TellsFirst(c, records, book, told, i);
      } else if BookKey(c, records[n]) == book && !Missing(told(records[n])) {
        assert TellsFirst(c, records, book, told, n);
      }
    }
  }

  lemma NoBookOffered(c: Scheme, ops: seq<Op>, key: Key, f: Field)
    requires ColonFree(c.version) && KeyOf(c, BookNode, key) && BooksFrom(ops, [])
    ensures FirstOffered(c, ops, key, f) == None && forall op :: op in ops ==> Offered(c, op, key, f) == None
  {
    var e :| GraphKey(c, BookNode, e) == key;
    forall op | op in ops
      ensures Offered(c, op, key, f) == None
    {
      var i :| 0 <= i < |ops| && ops[i] == op;
      if op.NodeOp? && GraphKey(c, op.label_, op.entityId) == key {
        LabelsApart(c, BookNode, e, op.label_, op.entityId);
      }
    }
    NoneOffered(c, ops, key, f);
  }

  lemma RecordTells(c: Scheme, batch: Batch, r: Record, key: Key, f: Field, told: Told)
    requires ColonFree(c.version) && KeyOf(c, BookNode, key)
    requires f in BookProperties(batch, r) && BookProperties(batch, r)[f] == told(r)
    ensures FirstOffered(c, RecordOps(c, batch, r), key, f) ==
      if BookKey(c, r) == key && !Missing(told(r)) then told(r) else None
    ensures forall op :: op in RecordOps(c, batch, r) ==> Offered(c, op, key, f) == None || Offered(c, op, key, f) == told(r)
  {
    var book := [NodeOp(BookNode, r.identity.entityId, BookProperties(batch, r))];
    var source := [NodeOp(SourceRecordNode, r.source.recordId, RecordProperties(batch, r.source))];
    var rest := source + ProvenanceTriples(c, r) + (ShelfNodes(r) + ShelfTriples(c, r));
    assert SharedOps(c, batch, r) == book + rest;
    NoBookOffered(c, rest, key, f);
    OwnBooks(c, r, []);
    NoBookOffered(c, OwnOps(c, r), key, f);
    FirstOfferedAppend(c, book, rest, key, f);
    FirstOfferedAppend(c, SharedOps(c, batch, r), OwnOps(c, r), key, f);
    assert book[..0] == [];
    assert FirstOffered(c, book, key, f) == Offered(c, book[0], key, f);
  }

  lemma {:induction false} RecordsTell(c: Scheme, batch: Batch, records: seq<Record>, key: Key, f: Field, told: Told)
    requires ColonFree(c.version) && KeyOf(c, BookNode, key)
    requires forall r :: r in records ==> f in BookProperties(batch, r) && BookProperties(batch, r)[f] == told(r)
    requires forall r :: r in records ==> told(r) != Listing([])
    ensures FirstOffered(c, RecordsOps(c, batch, records), key, f) == FirstSaid(c, records, key, told)
    ensures forall op :: op in RecordsOps(c, batch, records) ==> Offered(c, op, key, f) != Listing([])
  {
    if records != [] {
      var n := |records| - 1;
      var front, last := records[..n], records[n];
      assert records == front + [last];
      RecordsTell(c, batch, front, key, f, told);
      RecordTells(c, batch, last, key, f, told);
      FirstOfferedAppend(c, RecordsOps(c, batch, front), RecordOps(c, batch, last), key, f);
    }
  }

  lemma HeadHasNoBook(c: Scheme, batch: Batch, files: seq<FileSummary>, records: nat)
    ensures BooksFrom(HeadOps(c, batch, files, records), [])
  {
    FilesBooks(c, batch, files, []);
  }

  /** A property of a Book node is what the first record of the book with anything to tell says. */
  lemma BookTells(c: Scheme, batch: Batch, files: seq<FileSummary>, records: seq<Record>, book: Key, f: Field, told: Told)
    requires ColonFree(c.version) && KeyOf(c, BookNode, book)
    requires forall r :: r in records ==> f in BookProperties(batch, r) && BookProperties(batch, r)[f] == told(r)
    requires forall r :: r in records ==> told(r) != Listing([])
    ensures FirstTold(c, records, book, told, ValueIn(ApplyAll(c, EMPTY, PlanOps(c, batch, files, records)).nodes, book, f))
  {
    var head, rest := HeadOps(c, batch, files, |records|), RecordsOps(c, batch, records);
    HeadHasNoBook(c, batch, files, |records|);
    NoBookOffered(c, head, book, f);
    RecordsTell(c, batch, records, book, f, told);
    FirstOfferedAppend(c, head, rest, book, f);
    ValueIsFirst(c, head + rest, book, f);
    FirstSaidIsFirst(c, records, book, told);
  }

  /** What a record says about a property of its book. */
  function Fact(f: Field, r: Record): Value {
    match f
    case TitleField => Text(r.facts.title)
    case ForeignTitleField => Text(r.facts.foreignTitle)
    case IsbnField => Text(r.claim.isbn)
    case IsbnRawField => Text(r.facts.isbnRaw)
    case PublisherField => Text(r.facts.publisher)
    case DateRawField => Text(r.facts.dateRaw)
    case YearField => r.facts.year
    case MonthField => r.facts.month
    case PagesField => r.facts.pages
    case PriceField => r.facts.price
    case FormatField => Text(r.facts.format)
    case SubjectRawField => Text(r.facts.subjectRaw)
    case SummaryField => Text(r.facts.summary)
    case UrlField => r.facts.url
    case UrlSha256Field => r.facts.urlDigest
    case _ => None
  }

  const FACTS := {TitleField, ForeignTitleField, IsbnField, IsbnRawField, PublisherField, DateRawField, YearField,
    MonthField, PagesField, PriceField, FormatField, SubjectRawField, SummaryField, UrlField, UrlSha256Field}

  lemma FactIsOffered(batch: Batch, r: Record, f: Field)
    requires f in FACTS
    ensures f in BookProperties(batch, r) && BookProperties(batch, r)[f] == Fact(f, r)
  {
  }

  /** Title, ISBN, publisher, date, size, price, subject, summary and address of a book each come from the first of its
      records that has one. Parsed values are texts, numbers or missing, never empty lists. */
  lemma BookKeepsFirst(c: Scheme, batch: Batch, files: seq<FileSummary>, records: seq<Record>, book: Key, f: Field)
    requires ColonFree(c.version) && KeyOf(c, BookNode, book) && f in FACTS
    requires forall r :: r in records ==> Fact(f, r) != Listing([])
    ensures FirstTold(c, records, book, (r: Record) => Fact(f, r),
                      ValueIn(ApplyAll(c, EMPTY, PlanOps(c, batch, files, records)).nodes, book, f))
  {
    forall r | r in records
      ensures f in BookProperties(batch, r) && BookProperties(batch, r)[f] == Fact(f, r)
    {
      FactIsOffered(batch, r, f);
    }
    BookTells(c, batch, files, records, book, f, (r: Record) => Fact(f, r));
  }
}
