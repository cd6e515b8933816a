/** From the records of a book to its catalog row: the graph in between loses and invents no name. */
module BookTrace {
  import opened Keys
  import opened Colons
  import opened Texts
  import opened BookRecords
  import opened GraphStore
  import opened GraphPlan
  import opened GraphPlanLaws
  import opened GraphContent
  import opened CatalogRows
  import opened CatalogLaws
  import opened CatalogContent
  import opened Pipeline

  // ---------------------------------------------------------------- names in records and in nodes

  /** The relations from a book to a named or coded node. */
  predicate Naming(relation: Relation) {
    relation in {AuthoredBy, PublishedBy, HasSubjectCode, HasKeyword, InTopic, ClassifiedAs}
  }

  /** The record gives its book that name in the relation. */
  ghost predicate Gives(r: Record, relation: Relation, text: string) {
    match relation
    case AuthoredBy => exists a :: a in r.facts.authors && a.name == text
    case PublishedBy => text == r.facts.publisher && text != ""
    case HasSubjectCode => text == r.facts.subjectCode && text != ""
    case HasKeyword => text in r.facts.keywords
    case InTopic => text == r.facts.topic
    case ClassifiedAs => text == r.facts.categoryCode
    case _ => false
  }

  function LabelOf(relation: Relation): Label
    requires Naming(relation)
  {
    match relation
    case AuthoredBy => AuthorNode
    case PublishedBy => PublisherNode
    case HasSubjectCode => SubjectCodeNode
    case HasKeyword => KeywordNode
    case InTopic => TopicNode
    case ClassifiedAs => CategoryNode
  }

  function FieldOf(relation: Relation): Field
    requires Naming(relation)
  {
    if relation == HasSubjectCode || relation == ClassifiedAs then CodeField else NameField
  }

  function IdOf(c: Scheme, r: Record, relation: Relation, text: string): string
    requires Naming(relation)
  {
    match relation
    case AuthoredBy => "author:" + Cut(c.digest(text), 32)
    case PublishedBy => "publisher:" + Cut(c.digest(text), 32)
    case HasSubjectCode => "clc:" + text
    case HasKeyword => "keyword:" + Cut(c.digest(text), 32)
    case InTopic => "topic:" + r.facts.categoryCode + ":" + text
    case ClassifiedAs => "category:" + text
  }

  function NodeKey(c: Scheme, r: Record, relation: Relation, text: string): Key
    requires Naming(relation)
  {
    GraphKey(c, LabelOf(relation), IdOf(c, r, relation, text))
  }

  /** The record leads its book to the node. */
  ghost predicate LeadsTo(c: Scheme, r: Record, relation: Relation, target: Key)
    requires Naming(relation)
  {
    exists text :: Gives(r, relation, text) && target == NodeKey(c, r, relation, text)
  }

  lemma SaysLeads(c: Scheme, r: Record, subject: Key, relation: Relation, target: Key, properties: Properties)
    requires Naming(relation) && Says(c, r, subject, relation, target, properties)
    ensures subject == BookKey(c, r) && LeadsTo(c, r, relation, target)
  {
    match relation {
      case AuthoredBy =>
        var a :| a in r.facts.authors && target == AuthorKey(c, a.name) && properties == RoleOf(a);
        assert Gives(r, relation, a.name) && target == NodeKey(c, r, relation, a.name);
      case PublishedBy => assert target == NodeKey(c, r, relation, r.facts.publisher);
      case HasSubjectCode => assert target == NodeKey(c, r, relation, r.facts.subjectCode);
      case HasKeyword =>
        var k :| k in r.facts.keywords && target == KeywordKey(c, k);
        assert target == NodeKey(c, r, relation, k);
      case InTopic => assert target == NodeKey(c, r, relation, r.facts.topic);
      case ClassifiedAs => assert target == NodeKey(c, r, relation, r.facts.categoryCode);
    }
  }

  lemma LeadsSays(c: Scheme, r: Record, relation: Relation, text: string) returns (properties: Properties)
    requires Naming(relation) && Gives(r, relation, text)
    ensures Says(c, r, BookKey(c, r), relation, NodeKey(c, r, relation, text), properties)
  {
    properties := map[];
    if relation == AuthoredBy {
      var a :| a in r.facts.authors && a.name == text;
      properties := RoleOf(a);
      assert ListsAuthor(c, r.facts.authors, AuthorKey(c, a.name), properties);
    }
  }

  // ---------------------------------------------------------------- the additions of named nodes

  /** An addition of a node that carries the text. */
  ghost predicate AddsNamed(c: Scheme, op: Op, r: Record, relation: Relation, text: string)
    requires Naming(relation)
  {
    && op.NodeOp? && op.label_ == LabelOf(relation) && op.entityId == IdOf(c, r, relation, text)
    && FieldOf(relation) in op.properties && op.properties[FieldOf(relation)] == Text(text)
  }

  lemma {:induction false} AuthorNodes(c: Scheme, book: Key, authors: seq<Author>, op: Op)
    requires op.NodeOp?
    ensures op in AuthorOps(c, book, authors) <==>
      exists a :: a in authors && op == NodeOp(AuthorNode, "author:" + Cut(c.digest(a.name), 32), map[NameField := Text(a.name)])
  {
    if authors != [] {
      var n := |authors| - 1;
      AuthorNodes(c, book, authors[..n], op);
      assert authors == authors[..n] + [authors[n]];
    }
  }

  lemma {:induction false} KeywordNodes(c: Scheme, book: Key, keywords: seq<string>, op: Op)
    requires op.NodeOp?
    ensures op in KeywordOps(c, book, keywords) <==>
      exists k :: k in keywords && op == NodeOp(KeywordNode, "keyword:" + Cut(c.digest(k), 32), map[NameField := Text(k)])
  {
    if keywords != [] {
      var n := |keywords| - 1;
      KeywordNodes(c, book, keywords[..n], op);
      assert keywords == keywords[..n] + [keywords[n]];
    }
  }

  lemma NamedByAuthors(c: Scheme, r: Record, relation: Relation, op: Op) returns (text: string)
    requires Naming(relation) && op.NodeOp? && op.label_ == LabelOf(relation)
    requires op in AuthorOps(c, BookKey(c, r), r.facts.authors)
    ensures Gives(r, relation, text) && AddsNamed(c, op, r, relation, text)
  {
    AuthorNodes(c, BookKey(c, r), r.facts.authors, op);
    var a :| a in r.facts.authors && op == NodeOp(AuthorNode, "author:" + Cut(c.digest(a.name), 32), map[NameField := Text(a.name)]);
    text := a.name;
  }

  lemma NamedByKeywords(c: Scheme, r: Record, relation: Relation, op: Op) returns (text: string)
    requires Naming(relation) && op.NodeOp? && op.label_ == LabelOf(relation)
    requires op in KeywordOps(c, BookKey(c, r), r.facts.keywords)
    ensures Gives(r, relation, text) && AddsNamed(c, op, r, relation, text)
  {
    KeywordNodes(c, BookKey(c, r), r.facts.keywords, op);
    text :| text in r.facts.keywords && op == NodeOp(KeywordNode, "keyword:" + Cut(c.digest(text), 32), map[NameField := Text(text)]);
  }

  lemma NamedByOwn(c: Scheme, r: Record, relation: Relation, op: Op) returns (text: string)
    requires Naming(relation) && op in OwnOps(c, r) && op.NodeOp? && op.label_ == LabelOf(relation)
    ensures Gives(r, relation, text) && AddsNamed(c, op, r, relation, text)
  {
    var book := BookKey(c, r);
    InOwn(c, r, op);
    if op in AuthorOps(c, book, r.facts.authors) {
      text := NamedByAuthors(c, r, relation, op);
    } else if op in KeywordOps(c, book, r.facts.keywords) {
      text := NamedByKeywords(c, r, relation, op);
    } else if op in PublisherOps(c, book, r.facts.publisher) {
      text := r.facts.publisher;
    } else {
      text := r.facts.subjectCode;
    }
  }

  lemma NamedByShelf(c: Scheme, r: Record, relation: Relation, op: Op) returns (text: string)
    requires Naming(relation) && op in ShelfNodes(r) + ShelfTriples(c, r) && op.NodeOp? && op.label_ == LabelOf(relation)
    ensures Gives(r, relation, text) && AddsNamed(c, op, r, relation, text)
  {
    text := if relation == InTopic then r.facts.topic else r.facts.categoryCode;
  }

  lemma NamedByRecord(c: Scheme, batch: Batch, r: Record, relation: Relation, op: Op) returns (text: string)
    requires Naming(relation) && op in RecordOps(c, batch, r) && op.NodeOp? && op.label_ == LabelOf(relation)
    ensures Gives(r, relation, text) && AddsNamed(c, op, r, relation, text)
  {
    InRecord(c, batch, r, op);
    if op in OwnOps(c, r) {
      text := NamedByOwn(c, r, relation, op);
    } else {
      ProvenanceLabels(c, batch, r, op);
      text := NamedByShelf(c, r, relation, op);
    }
  }

  lemma ProvenanceLabels(c: Scheme, batch: Batch, r: Record, op: Op)
    ensures op in ProvenanceNodes(batch, r) + ProvenanceTriples(c, r) && op.NodeOp? ==>
      op.label_ == BookNode || op.label_ == SourceRecordNode
  {
  }

  lemma OwnNames(c: Scheme, r: Record, relation: Relation, text: string) returns (op: Op)
    requires Naming(relation) && relation != InTopic && relation != ClassifiedAs && Gives(r, relation, text)
    ensures op in OwnOps(c, r) && AddsNamed(c, op, r, relation, text)
  {
    var book := BookKey(c, r);
    match relation {
      case AuthoredBy =>
        op := NodeOp(AuthorNode, "author:" + Cut(c.digest(text), 32), map[NameField := Text(text)]);
        AuthorNodes(c, book, r.facts.authors, op);
      case PublishedBy => op := PublisherOps(c, book, r.facts.publisher)[0];
      case HasSubjectCode => op := SubjectOps(c, book, r.facts.subjectCode)[0];
      case HasKeyword =>
        op := NodeOp(KeywordNode, "keyword:" + Cut(c.digest(text), 32), map[NameField := Text(text)]);
        KeywordNodes(c, book, r.facts.keywords, op);
    }
    InOwn(c, r, op);
  }

  lemma RecordNames(c: Scheme, batch: Batch, r: Record, relation: Relation, text: string) returns (op: Op)
    requires Naming(relation) && Gives(r, relation, text)
    ensures op in RecordOps(c, batch, r) && AddsNamed(c, op, r, relation, text)
  {
    if relation == InTopic || relation == ClassifiedAs {
      op := ShelfNodes(r)[if relation == InTopic then 1 else 0];
      assert op in ShelfNodes(r);
    } else {
      op := OwnNames(c, r, relation, text);
    }
    InRecord(c, batch, r, op);
  }

  lemma NamedByRecords(c: Scheme, batch: Batch, records: seq<Record>, relation: Relation, op: Op)
      returns (r: Record, text: string)
    requires Naming(relation) && op in RecordsOps(c, batch, records) && op.NodeOp? && op.label_ == LabelOf(relation)
    ensures r in records && Gives(r, relation, text) && AddsNamed(c, op, r, relation, text)
  {
    var parts := RecordParts(c, batch, records);
    RecordsFlatten(c, batch, records);
    var i := PartWith(parts, op);
    r := records[i];
    text := NamedByRecord(c, batch, r, relation, op);
  }

  lemma PartWith(parts: seq<seq<Op>>, op: Op) returns (i: nat)
    requires op in Flatten(parts)
    ensures i < |parts| && op in parts[i]
  {
    InFlattened(parts, op);
    var part :| part in parts && op in part;
    i :| i < |parts| && parts[i] == part;
  }

  lemma {:induction false} FilesLabels(c: Scheme, batch: Batch, files: seq<FileSummary>, op: Op)
    ensures op in FilesOps(c, batch, files) && op.NodeOp? ==> op.label_ == SourceFileNode
  {
    if files != [] {
      FilesLabels(c, batch, files[..|files| - 1], op);
    }
  }

  lemma NamedInPlan(c: Scheme, batch: Batch, files: seq<FileSummary>, records: seq<Record>, relation: Relation, op: Op)
      returns (r: Record, text: string)
    requires Naming(relation) && op in PlanOps(c, batch, files, records) && op.NodeOp? && op.label_ == LabelOf(relation)
    ensures r in records && Gives(r, relation, text) && AddsNamed(c, op, r, relation, text)
  {
    FilesLabels(c, batch, files, op);
    r, text := NamedByRecords(c, batch, records, relation, op);
  }

  lemma PlanNames(c: Scheme, batch: Batch, files: seq<FileSummary>, records: seq<Record>, r: Record, relation: Relation,
                  text: string) returns (op: Op)
    requires Naming(relation) && r in records && Gives(r, relation, text)
    ensures op in PlanOps(c, batch, files, records) && AddsNamed(c, op, r, relation, text)
  {
    op := RecordNames(c, batch, r, relation, text);
    var parts := RecordParts(c, batch, records);
    var i :| 0 <= i < |records| && records[i] == r;
    RecordsFlatten(c, batch, records);
    InFlattened(parts, op);
    assert parts[i] in parts && op in parts[i];
  }

  // ---------------------------------------------------------------- named nodes

  /** No two different names given in the relation share the digest prefix of their nodes' keys. */
  ghost predicate TextsApart(c: Scheme, records: seq<Record>, relation: Relation)
    requires Naming(relation)
  {
    forall r, x, s, y ::
      (r in records && s in records && Gives(r, relation, x) && Gives(s, relation, y) &&
       NodeKey(c, r, relation, x) == NodeKey(c, s, relation, y)) ==> x == y
  }

  lemma OnlyItsText(c: Scheme, batch: Batch, files: seq<FileSummary>, records: seq<Record>, relation: Relation, r: Record,
                    text: string, op: Op)
    requires Naming(relation) && ColonFree(c.version) && TextsApart(c, records, relation)
    requires r in records && Gives(r, relation, text) && op in PlanOps(c, batch, files, records)
    ensures Offered(c, op, NodeKey(c, r, relation, text), FieldOf(relation)) in {None, Text(text)}
  {
    var key := NodeKey(c, r, relation, text);
    if op.NodeOp? && GraphKey(c, op.label_, op.entityId) == key {
      LabelsApart(c, LabelOf(relation), IdOf(c, r, relation, text), op.label_, op.entityId);
      var s, other := NamedInPlan(c, batch, files, records, relation, op);
      assert NodeKey(c, s, relation, other) == key;
    }
  }

  lemma {:induction false} Unanimous(c: Scheme, ops: seq<Op>, key: Key, f: Field, v: Value)
    requires forall op :: op in ops ==> Offered(c, op, key, f) in {None, v}
    ensures FirstOffered(c, ops, key, f) in {None, v}
    ensures (exists op :: op in ops && Offered(c, op, key, f) != None) ==> FirstOffered(c, ops, key, f) == v
  {
    if ops != [] {
      var n := |ops| - 1;
      var front, last := ops[..n], ops[n];
      assert ops == front + [last];
      Unanimous(c, front, key, f, v);
    }
  }

  lemma AddedIsNode(c: Scheme, ops: seq<Op>, op: Op)
    requires op in ops && op.NodeOp?
    ensures GraphKey(c, op.label_, op.entityId) in ApplyAll(c, EMPTY, ops).nodes
  {
    var i :| 0 <= i < |ops| && ops[i] == op;
    NodeIffAdded(c, ops, GraphKey(c, op.label_, op.entityId));
    assert Adds(c, ops, i, GraphKey(c, op.label_, op.entityId));
  }

  lemma CarriedIsText(c: Scheme, ops: seq<Op>, own: Op, key: Key, f: Field, text: string)
    requires forall op :: op in ops ==> Offered(c, op, key, f) in {None, Text(text)}
    requires own in ops && (text != "" ==> Offered(c, own, key, f) == Text(text))
    ensures ValueIn(ApplyAll(c, EMPTY, ops).nodes, key, f) == (if text == "" then None else Text(text))
    ensures var nodes := ApplyAll(c, EMPTY, ops).nodes; key in nodes && f in nodes[key].properties ==> nodes[key].properties[f] != None
  {
    ValueIsFirst(c, ops, key, f);
    if text == "" {
      NothingOffered(c, ops, key, f);
    } else {
      Unanimous(c, ops, key, f, Text(text));
    }
  }

  /** The node of a given name carries it, unless it is empty. */
  lemma NodeCarries(c: Scheme, batch: Batch, files: seq<FileSummary>, records: seq<Record>, relation: Relation, r: Record,
                    text: string)
    requires Naming(relation) && ColonFree(c.version) && TextsApart(c, records, relation)
    requires r in records && Gives(r, relation, text)
    ensures var nodes, key := ApplyAll(c, EMPTY, PlanOps(c, batch, files, records)).nodes, NodeKey(c, r, relation, text);
      && key in nodes && (FieldOf(relation) in nodes[key].properties <==> text != "")
      && (text != "" ==> nodes[key].properties[FieldOf(relation)] == Text(text))
  {
    var ops, key, f := PlanOps(c, batch, files, records), NodeKey(c, r, relation, text), FieldOf(relation);
    forall op | op in ops
      ensures Offered(c, op, key, f) in {None, Text(text)}
    {
      OnlyItsText(c, batch, files, records, relation, r, text, op);
    }
    var own := PlanNames(c, batch, files, records, r, relation, text);
    AddedIsNode(c, ops, own);
    CarriedIsText(c, ops, own, key, f, text);
  }

  /** Nobody offers an empty text. */
  lemma NothingOffered(c: Scheme, ops: seq<Op>, key: Key, f: Field)
    requires forall op :: op in ops ==> Offered(c, op, key, f) in {None, Text("")}
    ensures FirstOffered(c, ops, key, f) == None
  {
    forall op | op in ops
      ensures Offered(c, op, key, f) == None
    {
    }
    NoneOffered(c, ops, key, f);
  }

  // ---------------------------------------------------------------- what a book's triples reach

  /** Some record of the book gives it, stripped, that name. */
  ghost predicate Given(c: Scheme, rules: Rules, records: seq<Record>, book: Key, relation: Relation, name: string) {
    exists r, text :: r in records && BookKey(c, r) == book && Gives(r, relation, text) && Strip(rules.space, text) == name
  }

  lemma KeyOrderEdges(triples: map<Key, Edge>, t: Edge)
    ensures t in InKeyOrder(triples) <==> exists k :: k in triples && triples[k] == t
  {
    var keys := SortedKeys(triples.Keys);
    if t in InKeyOrder(triples) {
      var i :| 0 <= i < |keys| && InKeyOrder(triples)[i] == t;
      assert keys[i] in keys;
    }
    if k :| k in triples && triples[k] == t {
      assert k in keys;
      var i :| 0 <= i < |keys| && keys[i] == k;
      assert InKeyOrder(triples)[i] == t;
    }
  }

  lemma CarriedText(c: Scheme, batch: Batch, files: seq<FileSummary>, records: seq<Record>, rules: Rules,
                    relation: Relation, r: Record, text: string)
    requires Naming(relation) && ColonFree(c.version) && TextsApart(c, records, relation)
    requires r in records && Gives(r, relation, text)
    ensures var nodes, key := ApplyAll(c, EMPTY, PlanOps(c, batch, files, records)).nodes, NodeKey(c, r, relation, text);
      key in nodes && Name(rules, nodes[key].properties, FieldOf(relation)) == Strip(rules.space, text)
  {
    NodeCarries(c, batch, files, records, relation, r, text);
  }

  lemma ReachedIsGiven(c: Scheme, batch: Batch, files: seq<FileSummary>, records: seq<Record>, rules: Rules, book: Key,
                       relation: Relation, t: Edge)
    requires Naming(relation) && ColonFree(c.version) && TextsApart(c, records, relation)
    requires var g := ApplyAll(c, EMPTY, PlanOps(c, batch, files, records));
      t in InKeyOrder(g.triples) && Leads(g.nodes, t, book, relation)
    ensures var nodes := ApplyAll(c, EMPTY, PlanOps(c, batch, files, records)).nodes;
      Given(c, rules, records, book, relation, TextAt(rules, nodes, t, FieldOf(relation)))
  {
    var ops := PlanOps(c, batch, files, records);
    KeyOrderEdges(ApplyAll(c, EMPTY, ops).triples, t);
    var k :| k in ApplyAll(c, EMPTY, ops).triples && ApplyAll(c, EMPTY, ops).triples[k] == t;
    var op := TripleWasAdded(c, ops, k);
    PlanEdges(c, batch, files, records, op);
    var r :| r in records && Says(c, r, op.subject, relation, op.target, op.properties);
    SaysLeads(c, r, op.subject, relation, op.target, op.properties);
    var text :| Gives(r, relation, text) && op.target == NodeKey(c, r, relation, text);
    CarriedText(c, batch, files, records, rules, relation, r, text);
  }

  lemma GivenIsReached(c: Scheme, batch: Batch, files: seq<FileSummary>, records: seq<Record>, rules: Rules,
                       relation: Relation, r: Record, text: string) returns (t: Edge)
    requires Naming(relation) && ColonFree(c.version) && TextsApart(c, records, relation)
    requires EdgesApart(c, PlanOps(c, batch, files, records)) && r in records && Gives(r, relation, text)
    ensures var g := ApplyAll(c, EMPTY, PlanOps(c, batch, files, records));
      && t in InKeyOrder(g.triples) && Leads(g.nodes, t, BookKey(c, r), relation)
      && TextAt(rules, g.nodes, t, FieldOf(relation)) == Strip(rules.space, text)
  {
    var g := ApplyAll(c, EMPTY, PlanOps(c, batch, files, records));
    var target := NodeKey(c, r, relation, text);
    var properties := LeadsSays(c, r, relation, text);
    TriplesExact(c, batch, files, records, BookKey(c, r), relation, target, properties);
    assert SomeSays(c, records, BookKey(c, r), relation, target, properties);
    var k :| k in g.triples && g.triples[k] == Edge(k, BookKey(c, r), relation, target, properties);
    t := g.triples[k];
    KeyOrderEdges(g.triples, t);
    CarriedText(c, batch, files, records, rules, relation, r, text);
  }

  /** The names a book's triples reach in the built graph are exactly the ones its records give it. */
  lemma ReachedIffGiven(c: Scheme, batch: Batch, files: seq<FileSummary>, records: seq<Record>, rules: Rules, book: Key,
                        relation: Relation, name: string)
    requires Naming(relation) && ColonFree(c.version) && TextsApart(c, records, relation)
    requires EdgesApart(c, PlanOps(c, batch, files, records))
    ensures var g := ApplyAll(c, EMPTY, PlanOps(c, batch, files, records));
      Reached(rules, g.nodes, InKeyOrder(g.triples), book, relation, FieldOf(relation), name) <==>
      Given(c, rules, records, book, relation, name)
  {
    var g := ApplyAll(c, EMPTY, PlanOps(c, batch, files, records));
    if Reached(rules, g.nodes, InKeyOrder(g.triples), book, relation, FieldOf(relation), name) {
      var t :| t in InKeyOrder(g.triples) && Leads(g.nodes, t, book, relation) && TextAt(rules, g.nodes, t, FieldOf(relation)) == name;
      ReachedIsGiven(c, batch, files, records, rules, book, relation, t);
    }
    if Given(c, rules, records, book, relation, name) {
      var r, text :| r in records && BookKey(c, r) == book && Gives(r, relation, text) && Strip(rules.space, text) == name;
      var t := GivenIsReached(c, batch, files, records, rules, relation, r, text);
    }
  }

  // ---------------------------------------------------------------- catalog rows from records

  /** The list holds, each once and in order, the names the book's records give it that are not blank. */
  ghost predicate ListsGiven(list: seq<Key>, c: Scheme, rules: Rules, records: seq<Record>, book: Key, relation: Relation) {
    StrictlySorted(list) && forall k :: k in list <==> k.text != "" && Given(c, rules, records, book, relation, k.text)
  }

  /** One of the names the book's records give it, or nothing when they give none. */
  ghost predicate IsGiven(name: string, c: Scheme, rules: Rules, records: seq<Record>, book: Key, relation: Relation) {
    Given(c, rules, records, book, relation, name) || (name == "" && forall n :: !Given(c, rules, records, book, relation, n))
  }

  /** The value comes from the first record of the book that has one. */
  ghost predicate FromFirst(c: Scheme, records: seq<Record>, book: Key, f: Field, value: Value) {
    FirstTold(c, records, book, (r: Record) => Fact(f, r), value)
  }

  ghost predicate NamesOfRecords(row: CatalogRow, c: Scheme, rules: Rules, records: seq<Record>, book: Key) {
    && ListsGiven(row.authors, c, rules, records, book, AuthoredBy)
    && ListsGiven(row.keywords, c, rules, records, book, HasKeyword)
    && IsGiven(row.publisher, c, rules, records, book, PublishedBy)
    && IsGiven(row.categoryCode, c, rules, records, book, ClassifiedAs)
  }

  ghost predicate TitleOfRecords(title: string, c: Scheme, rules: Rules, records: seq<Record>, book: Key) {
    exists value ::
      FromFirst(c, records, book, TitleField, value) && title == Strip(rules.space, if value.Text? then value.text else "")
  }

  ghost predicate FactsOfRecords(row: CatalogRow, c: Scheme, rules: Rules, records: seq<Record>, book: Key) {
    && TitleOfRecords(row.title, c, rules, records, book) && FromFirst(c, records, book, SummaryField, row.summary)
    && FromFirst(c, records, book, YearField, row.year) && FromFirst(c, records, book, UrlField, row.url)
  }

  /** A catalog row holds of a book what its records say. */
  ghost predicate RowOfRecords(row: CatalogRow, c: Scheme, rules: Rules, records: seq<Record>, book: Key) {
    NamesOfRecords(row, c, rules, records, book) && FactsOfRecords(row, c, rules, records, book)
  }

  ghost predicate DetailOfRecords(row: DetailRow, c: Scheme, rules: Rules, records: seq<Record>, book: Key) {
    && FromFirst(c, records, book, IsbnField, row.isbn)
    && exists codes: seq<Key> :: ListsGiven(codes, c, rules, records, book, HasSubjectCode) &&
         row.callNumber == if codes == [] then "" else codes[0].text
  }

  /** Nothing collides: neither two edges nor two names of one kind. */
  ghost predicate NothingCollides(c: Scheme, batch: Batch, files: seq<FileSummary>, records: seq<Record>) {
    && ColonFree(c.version) && EdgesApart(c, PlanOps(c, batch, files, records))
    && forall relation :: Naming(relation) ==> TextsApart(c, records, relation)
  }

  lemma ListsAreGiven(list: seq<Key>, c: Scheme, batch: Batch, files: seq<FileSummary>, records: seq<Record>, rules: Rules,
                      book: Key, relation: Relation)
    requires NothingCollides(c, batch, files, records) && Naming(relation)
    requires var g := ApplyAll(c, EMPTY, PlanOps(c, batch, files, records));
      ListsNames(list, rules, g.nodes, InKeyOrder(g.triples), book, relation, FieldOf(relation))
    ensures ListsGiven(list, c, rules, records, book, relation)
  {
    forall k: Key
      ensures k in list <==> k.text != "" && Given(c, rules, records, book, relation, k.text)
    {
      ReachedIffGiven(c, batch, files, records, rules, book, relation, k.text);
    }
  }

  lemma {:induction false} LastLead(nodes: map<Key, GraphNode>, triples: seq<Edge>, book: Key, relation: Relation)
    ensures (exists i :: IsLast(nodes, triples, book, relation, i)) ||
      forall i :: 0 <= i < |triples| ==> !Leads(nodes, triples[i], book, relation)
  {
    if triples != [] {
      var n := |triples| - 1;
      if Leads(nodes, triples[n], book, relation) {
        assert IsLast(nodes, triples, book, relation, n);
      } else {
        var front := triples[..n];
        LastLead(nodes, front, book, relation);
        assert forall j :: 0 <= j < n ==> front[j] == triples[j];
        if i :| IsLast(nodes, front, book, relation, i) {
          assert IsLast(nodes, triples, book, relation, i);
        }
      }
    }
  }

  lemma LastIsGiven(name: string, c: Scheme, batch: Batch, files: seq<FileSummary>, records: seq<Record>, rules: Rules,
                    book: Key, relation: Relation)
    requires NothingCollides(c, batch, files, records) && Naming(relation)
    requires var g := ApplyAll(c, EMPTY, PlanOps(c, batch, files, records));
      IsLastName(name, rules, g.nodes, InKeyOrder(g.triples), book, relation, FieldOf(relation))
    ensures IsGiven(name, c, rules, records, book, relation)
  {
    var g := ApplyAll(c, EMPTY, PlanOps(c, batch, files, records));
    var triples := InKeyOrder(g.triples);
    LastLead(g.nodes, triples, book, relation);
    if i :| IsLast(g.nodes, triples, book, relation, i) {
      assert triples[i] in triples;
      ReachedIsGiven(c, batch, files, records, rules, book, relation, triples[i]);
    } else {
      forall n
        ensures !Given(c, rules, records, book, relation, n)
      {
        NothingReached(rules, g.nodes, triples, book, relation, FieldOf(relation), n);
        ReachedIffGiven(c, batch, files, records, rules, book, relation, n);
      }
    }
  }

  lemma NothingReached(rules: Rules, nodes: map<Key, GraphNode>, triples: seq<Edge>, book: Key, relation: Relation, f: Field,
                       name: string)
    requires forall i :: 0 <= i < |triples| ==> !Leads(nodes, triples[i], book, relation)
    ensures !Reached(rules, nodes, triples, book, relation, f, name)
  {
  }

  /** The book is the Book node under its own key. */
  ghost predicate IsNodeOf(c: Scheme, nodes: map<Key, GraphNode>, book: GraphNode) {
    book.graphKey in nodes && nodes[book.graphKey] == book && KeyOf(c, BookNode, book.graphKey)
  }

  lemma DescribedNames(row: CatalogRow, c: Scheme, batch: Batch, files: seq<FileSummary>, records: seq<Record>,
                       rules: Rules, from: string, book: GraphNode)
    requires NothingCollides(c, batch, files, records)
    requires var g := ApplyAll(c, EMPTY, PlanOps(c, batch, files, records));
      DescribesBook(row, rules, g.nodes, InKeyOrder(g.triples), from, book)
    ensures NamesOfRecords(row, c, rules, records, book.graphKey)
  {
    var key := book.graphKey;
    ListsAreGiven(row.authors, c, batch, files, records, rules, key, AuthoredBy);
    ListsAreGiven(row.keywords, c, batch, files, records, rules, key, HasKeyword);
    LastIsGiven(row.publisher, c, batch, files, records, rules, key, PublishedBy);
    LastIsGiven(row.categoryCode, c, batch, files, records, rules, key, ClassifiedAs);
  }

  /** Parsed values are texts, numbers or missing, never empty lists. */
  ghost predicate PlainFacts(records: seq<Record>) {
    forall r, f :: r in records && f in FACTS ==> Fact(f, r) != Listing([])
  }

  lemma DescribedFacts(row: CatalogRow, c: Scheme, batch: Batch, files: seq<FileSummary>, records: seq<Record>,
                       rules: Rules, from: string, book: GraphNode)
    requires ColonFree(c.version) && PlainFacts(records)
    requires var g := ApplyAll(c, EMPTY, PlanOps(c, batch, files, records));
      DescribesBook(row, rules, g.nodes, InKeyOrder(g.triples), from, book) && IsNodeOf(c, g.nodes, book)
    ensures FactsOfRecords(row, c, rules, records, book.graphKey)
  {
    PropertyOfRecords(c, batch, files, records, book, SummaryField);
    PropertyOfRecords(c, batch, files, records, book, YearField);
    PropertyOfRecords(c, batch, files, records, book, UrlField);
    TitleIsOfRecords(c, batch, files, records, rules, book);
  }

  lemma PropertyOfRecords(c: Scheme, batch: Batch, files: seq<FileSummary>, records: seq<Record>, book: GraphNode, f: Field)
    requires ColonFree(c.version) && f in FACTS && PlainFacts(records)
    requires IsNodeOf(c, ApplyAll(c, EMPTY, PlanOps(c, batch, files, records)).nodes, book)
    ensures FromFirst(c, records, book.graphKey, f, if f in book.properties then book.properties[f] else None)
  {
    BookKeepsFirst(c, batch, files, records, book.graphKey, f);
  }

  lemma TitleIsOfRecords(c: Scheme, batch: Batch, files: seq<FileSummary>, records: seq<Record>, rules: Rules,
                         book: GraphNode)
    requires ColonFree(c.version) && PlainFacts(records)
    requires IsNodeOf(c, ApplyAll(c, EMPTY, PlanOps(c, batch, files, records)).nodes, book)
    ensures TitleOfRecords(Name(rules, book.properties, TitleField), c, rules, records, book.graphKey)
  {
    PropertyOfRecords(c, batch, files, records, book, TitleField);
    NeverNone(c, batch, files, records, book.graphKey, TitleField);
    var value := if TitleField in book.properties then book.properties[TitleField] else None;
    if value != None {
      FirstIsText(c, records, book.graphKey, value);
    }
  }

  lemma FirstIsText(c: Scheme, records: seq<Record>, book: Key, value: Value)
    requires FromFirst(c, records, book, TitleField, value) && value != None
    ensures value.Text?
  {
  }

  /** A property that is there has a value. */
  lemma NeverNone(c: Scheme, batch: Batch, files: seq<FileSummary>, records: seq<Record>, key: Key, f: Field)
    requires ColonFree(c.version) && KeyOf(c, BookNode, key) && f in FACTS
    requires forall r :: r in records ==> Fact(f, r) != Listing([])
    ensures var nodes := ApplyAll(c, EMPTY, PlanOps(c, batch, files, records)).nodes;
      key in nodes && f in nodes[key].properties ==> nodes[key].properties[f] != None
  {
    var head, rest := HeadOps(c, batch, files, |records|), RecordsOps(c, batch, records);
    HeadHasNoBook(c, batch, files, |records|);
    NoBookOffered(c, head, key, f);
    forall r | r in records
      ensures f in BookProperties(batch, r) && BookProperties(batch, r)[f] == Fact(f, r)
    {
      FactIsOffered(batch, r, f);
    }
    RecordsTell(c, batch, records, key, f, (r: Record) => Fact(f, r));
    ValueIsFirst(c, head + rest, key, f);
  }

  lemma DescribedDetail(row: DetailRow, c: Scheme, batch: Batch, files: seq<FileSummary>, records: seq<Record>,
                        rules: Rules, book: GraphNode)
    requires NothingCollides(c, batch, files, records) && PlainFacts(records)
    requires var g := ApplyAll(c, EMPTY, PlanOps(c, batch, files, records));
      DetailsBook(row, rules, g.nodes, InKeyOrder(g.triples), book) && IsNodeOf(c, g.nodes, book)
    ensures DetailOfRecords(row, c, rules, records, book.graphKey)
  {
    var g := ApplyAll(c, EMPTY, PlanOps(c, batch, files, records));
    PropertyOfRecords(c, batch, files, records, book, IsbnField);
    var codes := CodesOf(row, rules, g.nodes, InKeyOrder(g.triples), book);
    ListsAreGiven(codes, c, batch, files, records, rules, book.graphKey, HasSubjectCode);
  }

  lemma CodesOf(row: DetailRow, rules: Rules, nodes: map<Key, GraphNode>, triples: seq<Edge>, book: GraphNode)
      returns (codes: seq<Key>)
    requires DetailsBook(row, rules, nodes, triples, book)
    ensures ListsNames(codes, rules, nodes, triples, book.graphKey, HasSubjectCode, CodeField)
    ensures row.callNumber == if codes == [] then "" else codes[0].text
  {
    codes :| ListsNames(codes, rules, nodes, triples, book.graphKey, HasSubjectCode, CodeField) &&
      row.callNumber == if codes == [] then "" else codes[0].text;
  }

  /** Every book of the output is a Book node of the graph. */
  lemma KeptIsBookNode(c: Scheme, g: Graph, rules: Rules, i: nat)
    requires WellBuilt(c, g) && i < |Kept(rules, SortedBooks(InKeyOrder(g.nodes)))|
    ensures var book := Kept(rules, SortedBooks(InKeyOrder(g.nodes)))[i];
      IsNodeOf(c, g.nodes, book) && book.label_ == BookNode
  {
    var nodes := InKeyOrder(g.nodes);
    var book := Kept(rules, SortedBooks(nodes))[i];
    KeptMembers(rules, SortedBooks(nodes));
    SortedBooksMembers(nodes, book);
    KeyOrderOnly(c, g, book);
    assert GraphKey(c, BookNode, book.entityId) == book.graphKey;
  }

  /** End to end: every catalog and detail row says of a book exactly what the CSV records of that book say. */
  lemma CatalogSaysRecords(c: Scheme, batch: Batch, recordDigest: RecordDigest, files: seq<CsvFile>, rules: Rules,
                           from: string, i: nat)
    requires var records := IdentifiedRecords(recordDigest, files);
      NothingCollides(c, batch, Summaries(recordDigest, files), records) && PlainFacts(records)
    requires i < |CatalogOf(rules, c.version, from, PlanGraph(c, batch, recordDigest, files)).rows.catalog|
    ensures var g, records := PlanGraph(c, batch, recordDigest, files), IdentifiedRecords(recordDigest, files);
      var rows, books := CatalogOf(rules, c.version, from, g).rows, Kept(rules, SortedBooks(InKeyOrder(g.nodes)));
      && |rows.catalog| == |rows.details| == |books|
      && rows.catalog[i].externalId.text == rows.details[i].externalId.text == books[i].entityId
      && SomeBookKey(c, records, books[i].graphKey)
      && RowOfRecords(rows.catalog[i], c, rules, records, books[i].graphKey)
      && DetailOfRecords(rows.details[i], c, rules, records, books[i].graphKey)
  {
    var g, records := PlanGraph(c, batch, recordDigest, files), IdentifiedRecords(recordDigest, files);
    var summaries := Summaries(recordDigest, files);
    var rows, books := CatalogOf(rules, c.version, from, g).rows, Kept(rules, SortedBooks(InKeyOrder(g.nodes)));
    PlanIsWellBuilt(c, batch, recordDigest, files);
    NodeMapRestored(c, g);
    RowsDescribeBooks(rules, c.version, from, g.nodes, InKeyOrder(g.triples), SortedBooks(InKeyOrder(g.nodes)));
    assert RowsFor(rows.catalog[i], rows.details[i], rows.index[i], rules, g.nodes, InKeyOrder(g.triples), c.version, from, books[i]);
    KeptIsBookNode(c, g, rules, i);
    BookNodeIffRecord(c, batch, summaries, records, books[i].graphKey);
    DescribedNames(rows.catalog[i], c, batch, summaries, records, rules, from, books[i]);
    DescribedFacts(rows.catalog[i], c, batch, summaries, records, rules, from, books[i]);
    DescribedDetail(rows.details[i], c, batch, summaries, records, rules, books[i]);
  }
}
