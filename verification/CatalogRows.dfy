/** `build_rows`: from graph nodes and triples to catalog, detail, tag and index rows, with blockers. */
module CatalogRows {
  import opened Keys
  import opened BookRecords
  import opened GraphStore
  import opened Texts

  datatype Date = NoDate | Date(year: int, month: int)

  datatype CatalogRow = CatalogRow(externalId: Key, title: string, authors: seq<Key>, summary: Value,
                                   keywords: seq<Key>, categoryCode: string, year: Value, date: Date,
                                   publisher: string, availableFrom: string, url: Value, quality: real,
                                   metadataVersion: nat)

  datatype DetailRow = DetailRow(externalId: Key, isbn: Value, callNumber: string)

  datatype IndexRow = IndexRow(externalId: Key, contentHash: string, graphVersion: string)

  datatype Kind = Keyword | Topic | Classification

  datatype Tag = Tag(name: Key, normalizedName: Key, kind: Kind)

  datatype ResourceTag = ResourceTag(externalId: Key, normalizedName: Key, weight: real, confidence: real)

  datatype Code = TitleMissing | FieldLimitExceeded | ObjectMissing

  datatype Blocker = Blocker(code: Code, externalId: Key)

  /** White space, `str` of a non-text value, and the SHA-256 of a row and of a tag. */
  datatype Rules = Rules(space: Space, show: Value -> string,
                         rowDigest: CatalogRow -> string, tagDigest: (Kind, Key) -> string)

  datatype Rows = Rows(catalog: seq<CatalogRow>, details: seq<DetailRow>, dictionary: map<Key, Tag>,
                       tags: seq<ResourceTag>, index: seq<IndexRow>)

  // ---------------------------------------------------------------- one book

  function ValueAt(p: Properties, f: Field): Value {
    if f in p then p[f] else None
  }

  /** `str(properties.get(name, "")).strip()` */
  function Name(rules: Rules, p: Properties, f: Field): string {
    if f !in p then Strip(rules.space, "")
    else if p[f].Text? then Strip(rules.space, p[f].text)
    else Strip(rules.space, rules.show(p[f]))
  }

  /** What the triples of one book have contributed so far; `missing` counts triples without an object node. */
  datatype Links = Links(authors: seq<string>, keywords: seq<string>, topics: seq<string>, subjects: seq<string>,
                         category: string, publisher: string, missing: nat)

  const NO_LINKS := Links([], [], [], [], "", "", 0)

  function Link(rules: Rules, nodes: map<Key, GraphNode>, links: Links, t: Edge): Links {
    if t.target !in nodes then links.(missing := links.missing + 1)
    else
      var p := nodes[t.target].properties;
      match t.relation
      case AuthoredBy => links.(authors := links.authors + [Name(rules, p, NameField)])
      case HasKeyword => links.(keywords := links.keywords + [Name(rules, p, NameField)])
      case InTopic => links.(topics := links.topics + [Name(rules, p, NameField)])
      case HasSubjectCode => links.(subjects := links.subjects + [Name(rules, p, CodeField)])
      case PublishedBy => links.(publisher := Name(rules, p, NameField))
      case ClassifiedAs => links.(category := Name(rules, p, CodeField))
      case _ => links
  }

  function LinksOf(rules: Rules, nodes: map<Key, GraphNode>, triples: seq<Edge>): Links {
    if triples == [] then NO_LINKS
    else Link(rules, nodes, LinksOf(rules, nodes, triples[..|triples| - 1]), triples[|triples| - 1])
  }

  method CollectLinks(rules: Rules, nodes: map<Key, GraphNode>, triples: seq<Edge>) returns (links: Links)
    ensures links == LinksOf(rules, nodes, triples)
  {
    links := NO_LINKS;
    for i := 0 to |triples|
      invariant links == LinksOf(rules, nodes, triples[..i])
    {
      assert triples[..i + 1][..i] == triples[..i];
      links := Link(rules, nodes, links, triples[i]);
    }
    assert triples[..|triples|] == triples;
  }

  /** `sorted({item for item in items if item})` */
  function Unique(items: seq<string>): seq<Key> {
    SortedKeys(set s | s in items && s != "" :: Key(s))
  }

  function DateOf(year: Value, month: Value): Date {
    if year.Number? && 1000 <= year.number <= 2200 then
      Date(year.number, if month.Number? && 1 <= month.number <= 12 then month.number else 1)
    else NoDate
  }

  predicate Truthy(v: Value) {
    match v
    case None => false
    case Text(s) => s != ""
    case Number(n) => n != 0
    case Decimal(a) => a != 0.0
    case Listing(l) => l != []
  }

  function Checks(p: Properties, authors: seq<Key>, keywords: seq<Key>): seq<bool> {
    [Truthy(ValueAt(p, TitleField)), authors != [], Truthy(ValueAt(p, SummaryField)), Truthy(ValueAt(p, PublisherField)),
     ValueAt(p, YearField) != None, ValueAt(p, PagesField) != None, Truthy(ValueAt(p, IsbnField)),
     Truthy(ValueAt(p, SubjectRawField)), keywords != [], Truthy(ValueAt(p, UrlField))]
  }

  function Passed(checks: seq<bool>): nat {
    if checks == [] then 0 else Passed(checks[..|checks| - 1]) + if checks[|checks| - 1] then 1 else 0
  }

  function Quality(p: Properties, authors: seq<Key>, keywords: seq<Key>): real {
    Passed(Checks(p, authors, keywords)) as real / 10.0
  }

  function TagKey(rules: Rules, kind: Kind, name: Key): Key {
    var prefix := match kind case Keyword => "kw" case Topic => "topic" case Classification => "clc";
    Key(prefix + "-" + Cut(rules.tagDigest(kind, name), 32))
  }

  datatype TagSpec = TagSpec(kind: Kind, name: Key, weight: real, confidence: real)

  function SpecsOf(kind: Kind, names: seq<Key>, weight: real, confidence: real): seq<TagSpec> {
    seq(|names|, i requires 0 <= i < |names| => TagSpec(kind, names[i], weight, confidence))
  }

  function TagSpecs(links: Links): seq<TagSpec> {
    SpecsOf(Keyword, Unique(links.keywords), 1.0, 0.85) + SpecsOf(Topic, Unique(links.topics), 0.9, 0.9)
    + SpecsOf(Classification, Unique(links.subjects), 0.8, 0.95)
  }

  function BaseRow(rules: Rules, book: GraphNode, links: Links, availableFrom: string): CatalogRow {
    var p := book.properties;
    var authors, keywords := Unique(links.authors), Unique(links.keywords);
    CatalogRow(Key(book.entityId), Name(rules, p, TitleField), authors, ValueAt(p, SummaryField), keywords, links.category,
               ValueAt(p, YearField), DateOf(ValueAt(p, YearField), ValueAt(p, MonthField)), links.publisher,
               availableFrom, ValueAt(p, UrlField), Quality(p, authors, keywords), 1)
  }

  /** `dictionary.setdefault` and the appended resource tag, for one spec. */
  function WithTag(rules: Rules, externalId: Key, rows: Rows, spec: TagSpec): Rows {
    var name := TagKey(rules, spec.kind, spec.name);
    rows.(dictionary := if name in rows.dictionary then rows.dictionary
                        else rows.dictionary[name := Tag(spec.name, name, spec.kind)],
          tags := rows.tags + [ResourceTag(externalId, name, spec.weight, spec.confidence)])
  }

  function WithTags(rules: Rules, externalId: Key, rows: Rows, specs: seq<TagSpec>): Rows {
    if specs == [] then rows
    else WithTag(rules, externalId, WithTags(rules, externalId, rows, specs[..|specs| - 1]), specs[|specs| - 1])
  }

  method AddTags(rules: Rules, externalId: Key, rows: Rows, specs: seq<TagSpec>) returns (out: Rows)
    ensures out == WithTags(rules, externalId, rows, specs)
  {
    out := rows;
    for i := 0 to |specs|
      invariant out == WithTags(rules, externalId, rows, specs[..i])
    {
      assert specs[..i + 1][..i] == specs[..i];
      out := WithTag(rules, externalId, out, specs[i]);
    }
    assert specs[..|specs|] == specs;
  }

  predicate HasTitle(rules: Rules, book: GraphNode) {
    Name(rules, book.properties, TitleField) != ""
  }

  /** A book whose fields fit the catalog columns. */
  predicate Publishable(rules: Rules, book: GraphNode) {
    HasTitle(rules, book) && |book.entityId| <= 128 && |Name(rules, book.properties, TitleField)| <= 500
  }

  function Repeat(b: Blocker, n: nat): seq<Blocker> {
    seq(n, i => b)
  }

  function BookBlockers(rules: Rules, book: GraphNode, links: Links): seq<Blocker> {
    var id := Key(book.entityId);
    if !HasTitle(rules, book) then [Blocker(TitleMissing, id)]
    else if !Publishable(rules, book) then [Blocker(FieldLimitExceeded, id)]
    else Repeat(Blocker(ObjectMissing, id), links.missing)
  }

  /** The catalog, detail and index rows of a book. */
  function WithTables(rules: Rules, graphVersion: string, availableFrom: string, rows: Rows, book: GraphNode,
                      links: Links): Rows {
    var id := Key(book.entityId);
    var base := BaseRow(rules, book, links, availableFrom);
    var subjects := Unique(links.subjects);
    var callNumber := if subjects != [] then subjects[0].text else "";
    rows.(catalog := rows.catalog + [base],
          details := rows.details + [DetailRow(id, ValueAt(book.properties, IsbnField), callNumber)],
          index := rows.index + [IndexRow(id, rules.rowDigest(base), graphVersion)])
  }

  function WithBook(rules: Rules, graphVersion: string, availableFrom: string, rows: Rows, book: GraphNode,
                    links: Links): Rows {
    if !Publishable(rules, book) then rows
    else WithTags(rules, Key(book.entityId), WithTables(rules, graphVersion, availableFrom, rows, book, links),
                  TagSpecs(links))
  }

  method AddBook(rules: Rules, graphVersion: string, availableFrom: string, nodes: map<Key, GraphNode>,
                 rows: Rows, book: GraphNode, triples: seq<Edge>) returns (out: Rows, blockers: seq<Blocker>)
    ensures out == WithBook(rules, graphVersion, availableFrom, rows, book, LinksOf(rules, nodes, triples))
    ensures blockers == BookBlockers(rules, book, LinksOf(rules, nodes, triples))
  {
    var id := Key(book.entityId);
    var title := Name(rules, book.properties, TitleField);
    if title == "" {
      return rows, [Blocker(TitleMissing, id)];
    }
    if |book.entityId| > 128 || |title| > 500 {
      return rows, [Blocker(FieldLimitExceeded, id)];
    }
    var links := CollectLinks(rules, nodes, triples);
    blockers := Repeat(Blocker(ObjectMissing, id), links.missing);
    out := WithTables(rules, graphVersion, availableFrom, rows, book, links);
    out := AddTags(rules, id, out, TagSpecs(links));
  }

  // ---------------------------------------------------------------- all books

  function NodeMap(nodes: seq<GraphNode>): map<Key, GraphNode> {
    if nodes == [] then map[]
    else NodeMap(nodes[..|nodes| - 1])[nodes[|nodes| - 1].graphKey := nodes[|nodes| - 1]]
  }

  function Outgoing(triples: seq<Edge>, subject: Key): seq<Edge> {
    if triples == [] then []
    else
      var last := triples[|triples| - 1];
      Outgoing(triples[..|triples| - 1], subject) + if last.subject == subject then [last] else []
  }

  method IndexNodes(nodes: seq<GraphNode>) returns (m: map<Key, GraphNode>)
    ensures m == NodeMap(nodes)
  {
    m := map[];
    for i := 0 to |nodes|
      invariant m == NodeMap(nodes[..i])
    {
      assert nodes[..i + 1][..i] == nodes[..i];
      m := m[nodes[i].graphKey := nodes[i]];
    }
    assert nodes[..|nodes|] == nodes;
  }

  function ListAt(bySubject: map<Key, seq<Edge>>, subject: Key): seq<Edge> {
    if subject in bySubject then bySubject[subject] else []
  }

  method IndexTriples(triples: seq<Edge>) returns (bySubject: map<Key, seq<Edge>>)
    ensures forall s :: ListAt(bySubject, s) == Outgoing(triples, s)
  {
    bySubject := map[];
    for i := 0 to |triples|
      invariant forall s :: ListAt(bySubject, s) == Outgoing(triples[..i], s)
    {
      assert triples[..i + 1][..i] == triples[..i];
      bySubject := bySubject[triples[i].subject := ListAt(bySubject, triples[i].subject) + [triples[i]]];
    }
    assert triples[..|triples|] == triples;
  }

  function InsertBook(book: GraphNode, sorted: seq<GraphNode>): seq<GraphNode> {
    if sorted != [] && !Less(Key(book.entityId), Key(sorted[0].entityId)) then
      [sorted[0]] + InsertBook(book, sorted[1..])
    else [book] + sorted
  }

  /** The book nodes by identifier; books that share one keep their order. */
  function SortedBooks(nodes: seq<GraphNode>): seq<GraphNode> {
    if nodes == [] then []
    else
      var before := SortedBooks(nodes[..|nodes| - 1]);
      if nodes[|nodes| - 1].label_ == BookNode then InsertBook(nodes[|nodes| - 1], before) else before
  }

  datatype Output = Output(rows: Rows, blockers: seq<Blocker>)

  const NO_ROWS := Rows([], [], map[], [], [])

  function OutputOf(rules: Rules, graphVersion: string, availableFrom: string, nodes: map<Key, GraphNode>,
                    triples: seq<Edge>, books: seq<GraphNode>): Output {
    if books == [] then Output(NO_ROWS, [])
    else
      var n := |books| - 1;
      var before := OutputOf(rules, graphVersion, availableFrom, nodes, triples, books[..n]);
      var links := LinksOf(rules, nodes, Outgoing(triples, books[n].graphKey));
      Output(WithBook(rules, graphVersion, availableFrom, before.rows, books[n], links),
             before.blockers + BookBlockers(rules, books[n], links))
  }

  method BuildRows(rules: Rules, graphVersion: string, availableFrom: string, nodes: seq<GraphNode>,
                   triples: seq<Edge>) returns (rows: Rows, blockers: seq<Blocker>)
    ensures Output(rows, blockers) ==
      OutputOf(rules, graphVersion, availableFrom, NodeMap(nodes), triples, SortedBooks(nodes))
  {
    var nodeMap := IndexNodes(nodes);
    var bySubject := IndexTriples(triples);
    var books := SortedBooks(nodes);
    rows, blockers := NO_ROWS, [];
    for i := 0 to |books|
      invariant Output(rows, blockers) ==
        OutputOf(rules, graphVersion, availableFrom, nodeMap, triples, books[..i])
    {
      assert books[..i + 1][..i] == books[..i];
      var more;
      rows, more := AddBook(rules, graphVersion, availableFrom, nodeMap, rows, books[i],
                            ListAt(bySubject, books[i].graphKey));
      blockers := blockers + more;
    }
    assert books[..|books|] == books;
  }
}
