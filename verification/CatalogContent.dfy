/** What a catalog, detail or tag row holds of its book and of the nodes the book's triples reach. */
module CatalogContent {
  import opened Keys
  import opened BookRecords
  import opened GraphStore
  import opened CatalogRows
  import opened CatalogLaws

  // ---------------------------------------------------------------- what a book leads to

  /** A triple of the relation from the book to a node. */
  predicate Leads(nodes: map<Key, GraphNode>, t: Edge, book: Key, relation: Relation) {
    t.subject == book && t.relation == relation && t.target in nodes
  }

  /** The stripped text of a property of the node a triple leads to. */
  function TextAt(rules: Rules, nodes: map<Key, GraphNode>, t: Edge, f: Field): string
    requires t.target in nodes
  {
    Name(rules, nodes[t.target].properties, f)
  }

  /** Some triple of the relation leads from the book to a node of that name. */
  ghost predicate Reached(rules: Rules, nodes: map<Key, GraphNode>, triples: seq<Edge>, book: Key, relation: Relation,
                          f: Field, name: string) {
    exists t :: t in triples && Leads(nodes, t, book, relation) && TextAt(rules, nodes, t, f) == name
  }

  /** The list holds, each once and in order, the names reached that are not empty. */
  ghost predicate ListsNames(list: seq<Key>, rules: Rules, nodes: map<Key, GraphNode>, triples: seq<Edge>, book: Key,
                             relation: Relation, f: Field) {
    && StrictlySorted(list)
    && forall k :: k in list <==> k.text != "" && Reached(rules, nodes, triples, book, relation, f, k.text)
  }

  ghost predicate IsLast(nodes: map<Key, GraphNode>, triples: seq<Edge>, book: Key, relation: Relation, i: int) {
    && 0 <= i < |triples| && Leads(nodes, triples[i], book, relation)
    && forall j :: i < j < |triples| ==> !Leads(nodes, triples[j], book, relation)
  }

  /** The name the last triple of the relation leads to, or nothing when none does. */
  ghost predicate IsLastName(value: string, rules: Rules, nodes: map<Key, GraphNode>, triples: seq<Edge>, book: Key,
                             relation: Relation, f: Field) {
    && (forall i :: IsLast(nodes, triples, book, relation, i) ==> value == TextAt(rules, nodes, triples[i], f))
    && ((forall i :: 0 <= i < |triples| ==> !Leads(nodes, triples[i], book, relation)) ==> value == "")
  }

  // ---------------------------------------------------------------- links in those terms

  lemma UniqueLists(rules: Rules, nodes: map<Key, GraphNode>, triples: seq<Edge>, book: Key, relation: Relation, f: Field,
                    names: seq<string>)
    requires forall name :: name in names <==> SomeNames(rules, nodes, Outgoing(triples, book), relation, f, name)
    ensures ListsNames(Unique(names), rules, nodes, triples, book, relation, f)
  {
    forall k: Key
      ensures k in Unique(names) <==> k.text != "" && Reached(rules, nodes, triples, book, relation, f, k.text)
    {
      assert k in Unique(names) <==> k.text in names && k.text != "";
      ReachedIff(rules, nodes, triples, book, relation, f, k.text);
    }
  }

  lemma ReachedIff(rules: Rules, nodes: map<Key, GraphNode>, triples: seq<Edge>, book: Key, relation: Relation, f: Field,
                   name: string)
    ensures SomeNames(rules, nodes, Outgoing(triples, book), relation, f, name) <==>
      Reached(rules, nodes, triples, book, relation, f, name)
  {
    if SomeNames(rules, nodes, Outgoing(triples, book), relation, f, name) {
      NamedIsReached(rules, nodes, triples, book, relation, f, name);
    }
    if Reached(rules, nodes, triples, book, relation, f, name) {
      ReachedIsNamed(rules, nodes, triples, book, relation, f, name);
    }
  }

  lemma NamedIsReached(rules: Rules, nodes: map<Key, GraphNode>, triples: seq<Edge>, book: Key, relation: Relation,
                       f: Field, name: string)
    requires SomeNames(rules, nodes, Outgoing(triples, book), relation, f, name)
    ensures Reached(rules, nodes, triples, book, relation, f, name)
  {
    var t :| t in Outgoing(triples, book) && Naming(rules, nodes, relation, f, name)(t);
    OutgoingMembers(triples, book, t);
    assert Leads(nodes, t, book, relation);
  }

  lemma ReachedIsNamed(rules: Rules, nodes: map<Key, GraphNode>, triples: seq<Edge>, book: Key, relation: Relation,
                       f: Field, name: string)
    requires Reached(rules, nodes, triples, book, relation, f, name)
    ensures SomeNames(rules, nodes, Outgoing(triples, book), relation, f, name)
  {
    var t :| t in triples && Leads(nodes, t, book, relation) && TextAt(rules, nodes, t, f) == name;
    OutgoingMembers(triples, book, t);
    assert Naming(rules, nodes, relation, f, name)(t);
  }

  lemma LinksList(rules: Rules, nodes: map<Key, GraphNode>, triples: seq<Edge>, book: Key)
    ensures var links := LinksOf(rules, nodes, Outgoing(triples, book));
      && ListsNames(Unique(links.authors), rules, nodes, triples, book, AuthoredBy, NameField)
      && ListsNames(Unique(links.keywords), rules, nodes, triples, book, HasKeyword, NameField)
      && ListsNames(Unique(links.topics), rules, nodes, triples, book, InTopic, NameField)
      && ListsNames(Unique(links.subjects), rules, nodes, triples, book, HasSubjectCode, CodeField)
  {
    var out := Outgoing(triples, book);
    var links := LinksOf(rules, nodes, out);
    forall name
      ensures name in links.authors <==> SomeNames(rules, nodes, out, AuthoredBy, NameField, name)
      ensures name in links.keywords <==> SomeNames(rules, nodes, out, HasKeyword, NameField, name)
      ensures name in links.topics <==> SomeNames(rules, nodes, out, InTopic, NameField, name)
      ensures name in links.subjects <==> SomeNames(rules, nodes, out, HasSubjectCode, CodeField, name)
    {
      LinkedNames(rules, nodes, out, name);
    }
    UniqueLists(rules, nodes, triples, book, AuthoredBy, NameField, links.authors);
    UniqueLists(rules, nodes, triples, book, HasKeyword, NameField, links.keywords);
    UniqueLists(rules, nodes, triples, book, InTopic, NameField, links.topics);
    UniqueLists(rules, nodes, triples, book, HasSubjectCode, CodeField, links.subjects);
  }

  /** The value of a relation that keeps only its last name. */
  function LastName(rules: Rules, nodes: map<Key, GraphNode>, triples: seq<Edge>, book: Key, relation: Relation, f: Field)
      : string {
    if triples == [] then ""
    else
      var last := triples[|triples| - 1];
      if Leads(nodes, last, book, relation) then TextAt(rules, nodes, last, f)
      else LastName(rules, nodes, triples[..|triples| - 1], book, relation, f)
  }

  lemma LinksNext(rules: Rules, nodes: map<Key, GraphNode>, triples: seq<Edge>, t: Edge)
    ensures LinksOf(rules, nodes, triples + [t]) == Link(rules, nodes, LinksOf(rules, nodes, triples), t)
    ensures triples + [] == triples
  {
    assert (triples + [t])[..|triples|] == triples;
  }

  lemma {:induction false} LinksKeepLast(rules: Rules, nodes: map<Key, GraphNode>, triples: seq<Edge>, book: Key)
    ensures LinksOf(rules, nodes, Outgoing(triples, book)).publisher ==
      LastName(rules, nodes, triples, book, PublishedBy, NameField)
    ensures LinksOf(rules, nodes, Outgoing(triples, book)).category ==
      LastName(rules, nodes, triples, book, ClassifiedAs, CodeField)
  {
    if triples != [] {
      var n := |triples| - 1;
      LinksKeepLast(rules, nodes, triples[..n], book);
      LinksNext(rules, nodes, Outgoing(triples[..n], book), triples[n]);
    }
  }

  lemma {:induction false} LastNameIsLast(rules: Rules, nodes: map<Key, GraphNode>, triples: seq<Edge>, book: Key,
                                          relation: Relation, f: Field)
    ensures IsLastName(LastName(rules, nodes, triples, book, relation, f), rules, nodes, triples, book, relation, f)
  {
    if triples != [] {
      var n := |triples| - 1;
      var front := triples[..n];
      LastNameIsLast(rules, nodes, front, book, relation, f);
      assert forall j :: 0 <= j < n ==> front[j] == triples[j];
      forall i | IsLast(nodes, triples, book, relation, i)
        ensures LastName(rules, nodes, triples, book, relation, f) == TextAt(rules, nodes, triples[i], f)
      {
        if i < n {
          assert IsLast(nodes, front, book, relation, i);
        }
      }
    }
  }

  // ---------------------------------------------------------------- rows in those terms

  /** A catalog row says of its book: its title, names, last publisher and category, and properties. */
  ghost predicate DescribesBook(row: CatalogRow, rules: Rules, nodes: map<Key, GraphNode>, triples: seq<Edge>,
                                from: string, book: GraphNode) {
    var p, key := book.properties, book.graphKey;
    && row.externalId.text == book.entityId && row.title == Name(rules, p, TitleField)
    && row.availableFrom == from && row.metadataVersion == 1
    && ListsNames(row.authors, rules, nodes, triples, key, AuthoredBy, NameField)
    && ListsNames(row.keywords, rules, nodes, triples, key, HasKeyword, NameField)
    && IsLastName(row.publisher, rules, nodes, triples, key, PublishedBy, NameField)
    && IsLastName(row.categoryCode, rules, nodes, triples, key, ClassifiedAs, CodeField)
    && row.summary == (if SummaryField in p then p[SummaryField] else None)
    && row.url == (if UrlField in p then p[UrlField] else None)
    && row.year == (if YearField in p then p[YearField] else None)
    && DatesBook(row.date, p) && GradesBook(row.quality, p, row.authors, row.keywords)
  }

  /** A plausible year makes a date, in its month if that is one and else in January. */
  ghost predicate DatesBook(date: Date, p: Properties) {
    if YearField in p && p[YearField].Number? && 1000 <= p[YearField].number <= 2200 then
      && date.Date? && date.year == p[YearField].number
      && date.month == if MonthField in p && p[MonthField].Number? && 1 <= p[MonthField].number <= 12 then p[MonthField].number else 1
    else date == NoDate
  }

  function Point(b: bool): real {
    if b then 1.0 else 0.0
  }

  predicate HasValue(p: Properties, f: Field) {
    f in p && Truthy(p[f])
  }

  /** Ten checks, a tenth each. */
  ghost predicate GradesBook(quality: real, p: Properties, authors: seq<Key>, keywords: seq<Key>) {
    quality * 10.0 == Point(HasValue(p, TitleField)) + Point(authors != []) + Point(HasValue(p, SummaryField))
      + Point(HasValue(p, PublisherField)) + Point(YearField in p && p[YearField] != None)
      + Point(PagesField in p && p[PagesField] != None) + Point(HasValue(p, IsbnField)) + Point(HasValue(p, SubjectRawField))
      + Point(keywords != []) + Point(HasValue(p, UrlField))
  }

  /** The detail row: ISBN and the least subject code. */
  ghost predicate DetailsBook(row: DetailRow, rules: Rules, nodes: map<Key, GraphNode>, triples: seq<Edge>, book: GraphNode) {
    && row.externalId.text == book.entityId
    && row.isbn == (if IsbnField in book.properties then book.properties[IsbnField] else None)
    && exists codes: seq<Key> :: ListsNames(codes, rules, nodes, triples, book.graphKey, HasSubjectCode, CodeField) &&
         row.callNumber == if codes == [] then "" else codes[0].text
  }

  ghost predicate RowsFor(row: CatalogRow, detail: DetailRow, index: IndexRow, rules: Rules, nodes: map<Key, GraphNode>,
                          triples: seq<Edge>, version: string, from: string, book: GraphNode) {
    && DescribesBook(row, rules, nodes, triples, from, book) && DetailsBook(detail, rules, nodes, triples, book)
    && index.externalId == row.externalId && index.contentHash == rules.rowDigest(row) && index.graphVersion == version
  }

  lemma GradeIsSum(p: Properties, authors: seq<Key>, keywords: seq<Key>)
    ensures GradesBook(Quality(p, authors, keywords), p, authors, keywords)
  {
    var c := Checks(p, authors, keywords);
    assert Passed(c) as real == Point(c[0]) + Point(c[1]) + Point(c[2]) + Point(c[3]) + Point(c[4]) + Point(c[5]) + Point(c[6])
      + Point(c[7]) + Point(c[8]) + Point(c[9]) by {
      PassedOfTen(c);
    }
  }

  lemma {:induction false} PassedAt(c: seq<bool>, n: nat)
    requires n < |c|
    ensures Passed(c[..n + 1]) as real == Passed(c[..n]) as real + Point(c[n])
  {
    assert c[..n + 1][..n] == c[..n];
  }

  lemma PassedOfTen(c: seq<bool>)
    requires |c| == 10
    ensures Passed(c) as real == Point(c[0]) + Point(c[1]) + Point(c[2]) + Point(c[3]) + Point(c[4]) + Point(c[5]) + Point(c[6])
      + Point(c[7]) + Point(c[8]) + Point(c[9])
  {
    assert c[..10] == c && c[..0] == [];
    PassedAt(c, 0);
    PassedAt(c, 1);
    PassedAt(c, 2);
    PassedAt(c, 3);
    PassedAt(c, 4);
    PassedAt(c, 5);
    PassedAt(c, 6);
    PassedAt(c, 7);
    PassedAt(c, 8);
    PassedAt(c, 9);
  }

  lemma BaseRowDescribes(rules: Rules, nodes: map<Key, GraphNode>, triples: seq<Edge>, from: string, book: GraphNode)
    ensures DescribesBook(BaseRow(rules, book, LinksOf(rules, nodes, Outgoing(triples, book.graphKey)), from), rules, nodes,
                          triples, from, book)
  {
    var key := book.graphKey;
    var links := LinksOf(rules, nodes, Outgoing(triples, key));
    LinksList(rules, nodes, triples, key);
    LinksKeepLast(rules, nodes, triples, key);
    LastNameIsLast(rules, nodes, triples, key, PublishedBy, NameField);
    LastNameIsLast(rules, nodes, triples, key, ClassifiedAs, CodeField);
    GradeIsSum(book.properties, Unique(links.authors), Unique(links.keywords));
  }

  // ---------------------------------------------------------------- every row

  /** The three tables say of each listed book what it and its triples say. */
  ghost predicate RowsDescribe(rows: Rows, rules: Rules, nodes: map<Key, GraphNode>, triples: seq<Edge>, version: string,
                               from: string, books: seq<GraphNode>) {
    && |rows.catalog| == |rows.details| == |rows.index| == |books|
    && forall i {:trigger books[i]} :: 0 <= i < |books| ==>
         RowsFor(rows.catalog[i], rows.details[i], rows.index[i], rules, nodes, triples, version, from, books[i])
  }

  lemma NewRowsFor(rules: Rules, nodes: map<Key, GraphNode>, triples: seq<Edge>, version: string, from: string, rows: Rows,
                   book: GraphNode)
    ensures var out := WithTables(rules, version, from, rows, book, LinksOf(rules, nodes, Outgoing(triples, book.graphKey)));
      && |out.catalog| == |rows.catalog| + 1 && |out.details| == |rows.details| + 1 && |out.index| == |rows.index| + 1
      && out.catalog[..|rows.catalog|] == rows.catalog && out.details[..|rows.details|] == rows.details
      && out.index[..|rows.index|] == rows.index
      && RowsFor(out.catalog[|rows.catalog|], out.details[|rows.details|], out.index[|rows.index|], rules, nodes, triples,
                 version, from, book)
  {
    var links := LinksOf(rules, nodes, Outgoing(triples, book.graphKey));
    BaseRowDescribes(rules, nodes, triples, from, book);
    LinksList(rules, nodes, triples, book.graphKey);
    assert ListsNames(Unique(links.subjects), rules, nodes, triples, book.graphKey, HasSubjectCode, CodeField);
  }

  lemma DescribeNext(rows: Rows, out: Rows, rules: Rules, nodes: map<Key, GraphNode>, triples: seq<Edge>, version: string,
                     from: string, books: seq<GraphNode>, book: GraphNode)
    requires RowsDescribe(rows, rules, nodes, triples, version, from, books)
    requires |out.catalog| == |out.details| == |out.index| == |books| + 1
    requires out.catalog[..|books|] == rows.catalog && out.details[..|books|] == rows.details
    requires out.index[..|books|] == rows.index
    requires RowsFor(out.catalog[|books|], out.details[|books|], out.index[|books|], rules, nodes, triples, version, from, book)
    ensures RowsDescribe(out, rules, nodes, triples, version, from, books + [book])
  {
    forall i | 0 <= i < |books|
      ensures RowsFor(out.catalog[i], out.details[i], out.index[i], rules, nodes, triples, version, from, books[i])
    {
      assert out.catalog[i] == rows.catalog[i] && out.details[i] == rows.details[i] && out.index[i] == rows.index[i];
    }
  }

  /** Every catalog, detail and index row of the output describes the published book at its place. */
  lemma {:induction false} RowsDescribeBooks(rules: Rules, version: string, from: string, nodes: map<Key, GraphNode>,
                                             triples: seq<Edge>, books: seq<GraphNode>)
    ensures RowsDescribe(OutputOf(rules, version, from, nodes, triples, books).rows, rules, nodes, triples, version, from,
                         Kept(rules, books))
  {
    if books != [] {
      var n := |books| - 1;
      var book := books[n];
      var before := OutputOf(rules, version, from, nodes, triples, books[..n]).rows;
      var links := LinksOf(rules, nodes, Outgoing(triples, book.graphKey));
      RowsDescribeBooks(rules, version, from, nodes, triples, books[..n]);
      if Publishable(rules, book) {
        var tables := WithTables(rules, version, from, before, book, links);
        NewRowsFor(rules, nodes, triples, version, from, before, book);
        TagsKeepTables(rules, Key(book.entityId), tables, TagSpecs(links));
        DescribeNext(before, WithBook(rules, version, from, before, book, links), rules, nodes, triples, version, from,
                     Kept(rules, books[..n]), book);
      }
    }
  }

  // ---------------------------------------------------------------- resource tags

  /** A title of at most 500 characters and an identifier of at most 128. */
  predicate Fits(rules: Rules, book: GraphNode) {
    && Name(rules, book.properties, TitleField) != "" && |Name(rules, book.properties, TitleField)| <= 500
    && |book.entityId| <= 128
  }

  /** The resource tag of a name, keyed by the digest of kind and name. */
  function NameTag(rules: Rules, book: GraphNode, kind: Kind, prefix: string, name: Key, weight: real, confidence: real)
      : ResourceTag {
    ResourceTag(Key(book.entityId), Key(prefix + Cut(rules.tagDigest(kind, name), 32)), weight, confidence)
  }

  ghost predicate TagsName(t: ResourceTag, rules: Rules, nodes: map<Key, GraphNode>, triples: seq<Edge>, book: GraphNode,
                           relation: Relation, f: Field, kind: Kind, prefix: string, weight: real, confidence: real) {
    exists name: Key {:trigger NameTag(rules, book, kind, prefix, name, weight, confidence)} ::
      && name.text != "" && Reached(rules, nodes, triples, book.graphKey, relation, f, name.text)
      && t == NameTag(rules, book, kind, prefix, name, weight, confidence)
  }

  /** A tag of the book: one of its keywords, topics or subject codes, weighted by kind. */
  ghost predicate IsTagOf(t: ResourceTag, rules: Rules, nodes: map<Key, GraphNode>, triples: seq<Edge>, book: GraphNode) {
    || TagsName(t, rules, nodes, triples, book, HasKeyword, NameField, Keyword, "kw-", 1.0, 0.85)
    || TagsName(t, rules, nodes, triples, book, InTopic, NameField, Topic, "topic-", 0.9, 0.9)
    || TagsName(t, rules, nodes, triples, book, HasSubjectCode, CodeField, Classification, "clc-", 0.8, 0.95)
  }

  lemma SpecsTag(t: ResourceTag, rules: Rules, nodes: map<Key, GraphNode>, triples: seq<Edge>, book: GraphNode,
                 relation: Relation, f: Field, kind: Kind, prefix: string, weight: real, confidence: real, names: seq<Key>)
    requires ListsNames(names, rules, nodes, triples, book.graphKey, relation, f)
    requires prefix == match kind case Keyword => "kw-" case Topic => "topic-" case Classification => "clc-"
    ensures SpecTags(SpecsOf(kind, names, weight, confidence), rules, book, t) <==>
      TagsName(t, rules, nodes, triples, book, relation, f, kind, prefix, weight, confidence)
  {
    SpecTagsIff(t, rules, book, kind, prefix, weight, confidence, names);
    NamesTagIff(t, rules, nodes, triples, book, relation, f, kind, prefix, weight, confidence, names);
  }

  ghost predicate TagsOneOf(t: ResourceTag, rules: Rules, book: GraphNode, kind: Kind, prefix: string, names: seq<Key>,
                            weight: real, confidence: real) {
    exists k :: k in names && t == NameTag(rules, book, kind, prefix, k, weight, confidence)
  }

  lemma NamesTagIff(t: ResourceTag, rules: Rules, nodes: map<Key, GraphNode>, triples: seq<Edge>, book: GraphNode,
                    relation: Relation, f: Field, kind: Kind, prefix: string, weight: real, confidence: real, names: seq<Key>)
    requires ListsNames(names, rules, nodes, triples, book.graphKey, relation, f)
    ensures TagsOneOf(t, rules, book, kind, prefix, names, weight, confidence) <==>
      TagsName(t, rules, nodes, triples, book, relation, f, kind, prefix, weight, confidence)
  {
    if TagsOneOf(t, rules, book, kind, prefix, names, weight, confidence) {
      var k :| k in names && t == NameTag(rules, book, kind, prefix, k, weight, confidence);
      assert k.text != "" && Reached(rules, nodes, triples, book.graphKey, relation, f, k.text);
    }
    if TagsName(t, rules, nodes, triples, book, relation, f, kind, prefix, weight, confidence) {
      var k: Key :| k.text != "" && Reached(rules, nodes, triples, book.graphKey, relation, f, k.text) &&
        t == NameTag(rules, book, kind, prefix, k, weight, confidence);
      assert k in names;
    }
  }

  lemma SpecTagsIff(t: ResourceTag, rules: Rules, book: GraphNode, kind: Kind, prefix: string, weight: real,
                    confidence: real, names: seq<Key>)
    requires prefix == match kind case Keyword => "kw-" case Topic => "topic-" case Classification => "clc-"
    ensures SpecTags(SpecsOf(kind, names, weight, confidence), rules, book, t) <==>
      TagsOneOf(t, rules, book, kind, prefix, names, weight, confidence)
  {
    var specs := SpecsOf(kind, names, weight, confidence);
    forall k
      ensures TagFor(rules, Key(book.entityId), TagSpec(kind, k, weight, confidence)) ==
        NameTag(rules, book, kind, prefix, k, weight, confidence)
    {
    }
    if spec :| spec in specs && t == TagFor(rules, Key(book.entityId), spec) {
      assert spec == TagSpec(kind, spec.name, weight, confidence) && spec.name in names;
    }
    if k :| k in names && t == NameTag(rules, book, kind, prefix, k, weight, confidence) {
      var i :| 0 <= i < |names| && names[i] == k;
      assert specs[i] == TagSpec(kind, k, weight, confidence) && specs[i] in specs;
    }
  }

  lemma BookTagIff(t: ResourceTag, rules: Rules, nodes: map<Key, GraphNode>, triples: seq<Edge>, book: GraphNode)
    ensures TagsBook(rules, book, LinksOf(rules, nodes, Outgoing(triples, book.graphKey)), t) <==>
      IsTagOf(t, rules, nodes, triples, book)
  {
    var links := LinksOf(rules, nodes, Outgoing(triples, book.graphKey));
    LinksList(rules, nodes, triples, book.graphKey);
    SpecsTag(t, rules, nodes, triples, book, HasKeyword, NameField, Keyword, "kw-", 1.0, 0.85, Unique(links.keywords));
    SpecsTag(t, rules, nodes, triples, book, InTopic, NameField, Topic, "topic-", 0.9, 0.9, Unique(links.topics));
    SpecsTag(t, rules, nodes, triples, book, HasSubjectCode, CodeField, Classification, "clc-", 0.8, 0.95, Unique(links.subjects));
    SpecParts(links, rules, book, t);
  }

  ghost predicate SpecTags(specs: seq<TagSpec>, rules: Rules, book: GraphNode, t: ResourceTag) {
    exists spec :: spec in specs && t == TagFor(rules, Key(book.entityId), spec)
  }

  lemma SpecParts(links: Links, rules: Rules, book: GraphNode, t: ResourceTag)
    ensures TagsBook(rules, book, links, t) <==>
      || SpecTags(SpecsOf(Keyword, Unique(links.keywords), 1.0, 0.85), rules, book, t)
      || SpecTags(SpecsOf(Topic, Unique(links.topics), 0.9, 0.9), rules, book, t)
      || SpecTags(SpecsOf(Classification, Unique(links.subjects), 0.8, 0.95), rules, book, t)
  {
  }

  /** The resource tags are exactly the keywords, topics and subject codes of the books that fit. */
  lemma TagsAreNames(rules: Rules, version: string, from: string, nodes: map<Key, GraphNode>, triples: seq<Edge>,
                     books: seq<GraphNode>, t: ResourceTag)
    ensures t in OutputOf(rules, version, from, nodes, triples, books).rows.tags <==>
      exists b :: b in books && Fits(rules, b) && IsTagOf(t, rules, nodes, triples, b)
  {
    ResourceTagsExact(rules, version, from, nodes, triples, books, t);
    forall b
      ensures Tagging(rules, nodes, triples, t)(b) <==> Fits(rules, b) && IsTagOf(t, rules, nodes, triples, b)
    {
      BookTagIff(t, rules, nodes, triples, b);
    }
  }

  function NamesReached(rules: Rules, nodes: map<Key, GraphNode>, triples: seq<Edge>, book: Key, relation: Relation,
                        f: Field): set<Key> {
    set t | t in triples && Leads(nodes, t, book, relation) && TextAt(rules, nodes, t, f) != "" :: Key(TextAt(rules, nodes, t, f))
  }

  lemma ReachedMember(rules: Rules, nodes: map<Key, GraphNode>, triples: seq<Edge>, book: Key, relation: Relation, f: Field,
                      k: Key)
    ensures k in NamesReached(rules, nodes, triples, book, relation, f) <==>
      k.text != "" && Reached(rules, nodes, triples, book, relation, f, k.text)
  {
    if k.text != "" && Reached(rules, nodes, triples, book, relation, f, k.text) {
      var t :| t in triples && Leads(nodes, t, book, relation) && TextAt(rules, nodes, t, f) == k.text;
      assert Key(TextAt(rules, nodes, t, f)) in NamesReached(rules, nodes, triples, book, relation, f);
    }
    if k in NamesReached(rules, nodes, triples, book, relation, f) {
      var t :| t in triples && Leads(nodes, t, book, relation) && Key(TextAt(rules, nodes, t, f)) == k;
    }
  }

  lemma ListLength(list: seq<Key>, rules: Rules, nodes: map<Key, GraphNode>, triples: seq<Edge>, book: Key,
                   relation: Relation, f: Field)
    requires ListsNames(list, rules, nodes, triples, book, relation, f)
    ensures |list| == |NamesReached(rules, nodes, triples, book, relation, f)|
  {
    forall k: Key
      ensures k in list <==> k in NamesReached(rules, nodes, triples, book, relation, f)
    {
      assert k in list <==> k.text != "" && Reached(rules, nodes, triples, book, relation, f, k.text);
      ReachedMember(rules, nodes, triples, book, relation, f, k);
    }
    SortedKeysUnique(list, NamesReached(rules, nodes, triples, book, relation, f));
  }

  /** Keywords, topics and subject codes of all the books, each counted once for each book. */
  function NamesInAll(rules: Rules, nodes: map<Key, GraphNode>, triples: seq<Edge>, books: seq<GraphNode>): nat {
    if books == [] then 0
    else
      var key := books[|books| - 1].graphKey;
      NamesInAll(rules, nodes, triples, books[..|books| - 1])
      + |NamesReached(rules, nodes, triples, key, HasKeyword, NameField)|
      + |NamesReached(rules, nodes, triples, key, InTopic, NameField)|
      + |NamesReached(rules, nodes, triples, key, HasSubjectCode, CodeField)|
  }

  lemma SpecCount(rules: Rules, nodes: map<Key, GraphNode>, triples: seq<Edge>, book: Key)
    ensures |TagSpecs(LinksOf(rules, nodes, Outgoing(triples, book)))| ==
      |NamesReached(rules, nodes, triples, book, HasKeyword, NameField)|
      + |NamesReached(rules, nodes, triples, book, InTopic, NameField)|
      + |NamesReached(rules, nodes, triples, book, HasSubjectCode, CodeField)|
  {
    var links := LinksOf(rules, nodes, Outgoing(triples, book));
    LinksList(rules, nodes, triples, book);
    ListLength(Unique(links.keywords), rules, nodes, triples, book, HasKeyword, NameField);
    ListLength(Unique(links.topics), rules, nodes, triples, book, InTopic, NameField);
    ListLength(Unique(links.subjects), rules, nodes, triples, book, HasSubjectCode, CodeField);
  }

  /** No tag is listed twice: there are as many as the published books have names. */
  lemma {:induction false} TagsCounted(rules: Rules, version: string, from: string, nodes: map<Key, GraphNode>,
                                       triples: seq<Edge>, books: seq<GraphNode>)
    ensures |OutputOf(rules, version, from, nodes, triples, books).rows.tags| ==
      NamesInAll(rules, nodes, triples, Kept(rules, books))
  {
    if books != [] {
      var n := |books| - 1;
      var book := books[n];
      var before := OutputOf(rules, version, from, nodes, triples, books[..n]).rows;
      var links := LinksOf(rules, nodes, Outgoing(triples, book.graphKey));
      TagsCounted(rules, version, from, nodes, triples, books[..n]);
      if Publishable(rules, book) {
        TagsOfSpecs(rules, Key(book.entityId), WithTables(rules, version, from, before, book, links), TagSpecs(links));
        SpecCount(rules, nodes, triples, book.graphKey);
        assert (Kept(rules, books[..n]) + [book])[..|Kept(rules, books[..n])|] == Kept(rules, books[..n]);
      } else {
        assert Kept(rules, books[..n]) + [] == Kept(rules, books[..n]);
      }
    }
  }
}
