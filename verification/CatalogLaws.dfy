/** What the catalog rows promise about the graph they were built from. */
module CatalogLaws {
  import opened Keys
  import opened BookRecords
  import opened GraphStore
  import opened CatalogRows

  // ---------------------------------------------------------------- books in order, none lost

  type Test = GraphNode -> bool

  function Count(test: Test, nodes: seq<GraphNode>): nat {
    if nodes == [] then 0 else Count(test, nodes[..|nodes| - 1]) + if test(nodes[|nodes| - 1]) then 1 else 0
  }

  lemma {:induction false} CountFront(test: Test, first: GraphNode, rest: seq<GraphNode>)
    ensures Count(test, [first] + rest) == (if test(first) then 1 else 0) + Count(test, rest)
  {
    if rest == [] {
      assert ([first] + rest)[..0] == [];
    } else {
      var n := |rest| - 1;
      assert ([first] + rest)[..|rest|] == [first] + rest[..n];
      CountFront(test, first, rest[..n]);
    }
  }

  lemma {:induction false} CountInsert(test: Test, book: GraphNode, sorted: seq<GraphNode>)
    ensures Count(test, InsertBook(book, sorted)) == Count(test, sorted) + if test(book) then 1 else 0
  {
    if sorted != [] && !Less(Key(book.entityId), Key(sorted[0].entityId)) {
      CountInsert(test, book, sorted[1..]);
      CountFront(test, sorted[0], InsertBook(book, sorted[1..]));
      CountFront(test, sorted[0], sorted[1..]);
      assert [sorted[0]] + sorted[1..] == sorted;
    } else {
      CountFront(test, book, sorted);
    }
  }

  /** Sorting keeps every book node exactly as often as it occurs. */
  lemma {:induction false} SortedBooksCount(test: Test, nodes: seq<GraphNode>)
    ensures Count(test, SortedBooks(nodes)) == Count((n: GraphNode) => n.label_ == BookNode && test(n), nodes)
  {
    if nodes != [] {
      var n := |nodes| - 1;
      SortedBooksCount(test, nodes[..n]);
      if nodes[n].label_ == BookNode {
        CountInsert(test, nodes[n], SortedBooks(nodes[..n]));
      }
    }
  }

  lemma {:induction false} InsertMembers(book: GraphNode, sorted: seq<GraphNode>, x: GraphNode)
    ensures x in InsertBook(book, sorted) <==> x == book || x in sorted
  {
    if sorted != [] && !Less(Key(book.entityId), Key(sorted[0].entityId)) {
      InsertMembers(book, sorted[1..], x);
      assert sorted == [sorted[0]] + sorted[1..];
    }
  }

  lemma {:induction false} SortedBooksMembers(nodes: seq<GraphNode>, x: GraphNode)
    ensures x in SortedBooks(nodes) <==> x in nodes && x.label_ == BookNode
  {
    if nodes != [] {
      var n := |nodes| - 1;
      SortedBooksMembers(nodes[..n], x);
      assert nodes == nodes[..n] + [nodes[n]];
      if nodes[n].label_ == BookNode {
        InsertMembers(nodes[n], SortedBooks(nodes[..n]), x);
      }
    }
  }

  predicate NotAfter(a: GraphNode, b: GraphNode) {
    !Less(Key(b.entityId), Key(a.entityId))
  }

  ghost predicate InOrder(books: seq<GraphNode>) {
    forall i :: 0 < i < |books| ==> NotAfter(books[i - 1], books[i])
  }

  lemma {:induction false} InsertInOrder(book: GraphNode, sorted: seq<GraphNode>)
    requires InOrder(sorted)
    ensures InOrder(InsertBook(book, sorted))
  {
    if sorted != [] && !Less(Key(book.entityId), Key(sorted[0].entityId)) {
      var rest := sorted[1..];
      forall i | 0 < i < |rest|
        ensures NotAfter(rest[i - 1], rest[i])
      {
        assert NotAfter(sorted[i], sorted[i + 1]);
      }
      InsertInOrder(book, rest);
      if rest != [] {
        assert NotAfter(sorted[0], sorted[1]);
      }
    } else {
      if sorted != [] {
        LessAsymmetric(Key(book.entityId), Key(sorted[0].entityId));
      }
    }
  }

  lemma {:induction false} BooksInOrder(nodes: seq<GraphNode>)
    ensures InOrder(SortedBooks(nodes))
  {
    if nodes != [] {
      BooksInOrder(nodes[..|nodes| - 1]);
      if nodes[|nodes| - 1].label_ == BookNode {
        InsertInOrder(nodes[|nodes| - 1], SortedBooks(nodes[..|nodes| - 1]));
      }
    }
  }

  // ---------------------------------------------------------------- rows and blockers

  /** One entry of each per-book table for each publishable book, in book order. */
  ghost predicate Aligned(rules: Rules, rows: Rows, books: seq<GraphNode>) {
    && |rows.catalog| == |rows.details| == |rows.index| == |books|
    && forall i {:trigger rows.catalog[i]} {:trigger books[i]} :: 0 <= i < |books| ==>
         AlignedAt(rules, rows.catalog[i], rows.details[i], rows.index[i], books[i])
  }

  ghost predicate AlignedAt(rules: Rules, row: CatalogRow, detail: DetailRow, index: IndexRow, book: GraphNode) {
    && row.externalId == detail.externalId == index.externalId == Key(book.entityId)
    && row.title == Name(rules, book.properties, TitleField)
    && row.metadataVersion == 1
    && index.contentHash == rules.rowDigest(row)
  }

  function Kept(rules: Rules, books: seq<GraphNode>): seq<GraphNode> {
    if books == [] then []
    else
      var last := books[|books| - 1];
      Kept(rules, books[..|books| - 1]) + if Publishable(rules, last) then [last] else []
  }

  lemma {:induction false} TagsKeepTables(rules: Rules, id: Key, rows: Rows, specs: seq<TagSpec>)
    ensures var out := WithTags(rules, id, rows, specs);
      out.catalog == rows.catalog && out.details == rows.details && out.index == rows.index
  {
    if specs != [] {
      TagsKeepTables(rules, id, rows, specs[..|specs| - 1]);
    }
  }

  lemma BookAligned(rules: Rules, version: string, from: string, rows: Rows, book: GraphNode, links: Links,
                    kept: seq<GraphNode>)
    requires Aligned(rules, rows, kept)
    ensures Aligned(rules, WithBook(rules, version, from, rows, book, links),
                    kept + if Publishable(rules, book) then [book] else [])
  {
    TagsKeepTables(rules, Key(book.entityId), WithTables(rules, version, from, rows, book, links), TagSpecs(links));
  }

  /** The per-book tables list exactly the publishable books, each under its own identifier. */
  lemma {:induction false} TablesAligned(rules: Rules, version: string, from: string, nodes: map<Key, GraphNode>,
                                         triples: seq<Edge>, books: seq<GraphNode>)
    ensures Aligned(rules, OutputOf(rules, version, from, nodes, triples, books).rows, Kept(rules, books))
    ensures forall row :: row in OutputOf(rules, version, from, nodes, triples, books).rows.catalog ==>
      row.availableFrom == from
  {
    if books != [] {
      var n := |books| - 1;
      TablesAligned(rules, version, from, nodes, triples, books[..n]);
      var before := OutputOf(rules, version, from, nodes, triples, books[..n]).rows;
      var links := LinksOf(rules, nodes, Outgoing(triples, books[n].graphKey));
      BookAligned(rules, version, from, before, books[n], links, Kept(rules, books[..n]));
      BookFrom(rules, version, from, before, books[n], links);
    }
  }

  lemma BookFrom(rules: Rules, version: string, from: string, rows: Rows, book: GraphNode, links: Links)
    requires forall row :: row in rows.catalog ==> row.availableFrom == from
    ensures forall row :: row in WithBook(rules, version, from, rows, book, links).catalog ==> row.availableFrom == from
  {
    TagsKeepTables(rules, Key(book.entityId), WithTables(rules, version, from, rows, book, links), TagSpecs(links));
  }

  function Rejections(blockers: seq<Blocker>): nat {
    if blockers == [] then 0
    else Rejections(blockers[..|blockers| - 1]) + if blockers[|blockers| - 1].code != ObjectMissing then 1 else 0
  }

  lemma {:induction false} RejectionsAppend(a: seq<Blocker>, b: seq<Blocker>)
    ensures Rejections(a + b) == Rejections(a) + Rejections(b)
  {
    if b == [] {
      assert a + b == a;
    } else {
      assert (a + b)[..|a + b| - 1] == a + b[..|b| - 1];
      RejectionsAppend(a, b[..|b| - 1]);
    }
  }

  lemma {:induction false} NoRejections(b: Blocker, n: nat)
    requires b.code == ObjectMissing
    ensures Rejections(Repeat(b, n)) == 0
  {
    if n > 0 {
      NoRejections(b, n - 1);
      assert Repeat(b, n)[..n - 1] == Repeat(b, n - 1);
    }
  }

  lemma BookRejections(rules: Rules, book: GraphNode, links: Links)
    ensures Rejections(BookBlockers(rules, book, links)) == if Publishable(rules, book) then 0 else 1
  {
    var blockers := BookBlockers(rules, book, links);
    if Publishable(rules, book) {
      NoRejections(Blocker(ObjectMissing, Key(book.entityId)), links.missing);
    } else {
      assert blockers[..0] == [];
    }
  }

  /** Every book becomes one catalog row or one title or size blocker. */
  lemma {:induction false} BooksAccounted(rules: Rules, version: string, from: string, nodes: map<Key, GraphNode>,
                                          triples: seq<Edge>, books: seq<GraphNode>)
    ensures |Kept(rules, books)| + Rejections(OutputOf(rules, version, from, nodes, triples, books).blockers) == |books|
  {
    if books != [] {
      var n := |books| - 1;
      BooksAccounted(rules, version, from, nodes, triples, books[..n]);
      var links := LinksOf(rules, nodes, Outgoing(triples, books[n].graphKey));
      RejectionsAppend(OutputOf(rules, version, from, nodes, triples, books[..n]).blockers,
                       BookBlockers(rules, books[n], links));
      BookRejections(rules, books[n], links);
    }
  }

  // ---------------------------------------------------------------- objects found

  ghost predicate ObjectsFound(nodes: map<Key, GraphNode>, triples: seq<Edge>) {
    forall i :: 0 <= i < |triples| ==> triples[i].target in nodes
  }

  lemma {:induction false} MissingIffAbsent(rules: Rules, nodes: map<Key, GraphNode>, triples: seq<Edge>)
    ensures LinksOf(rules, nodes, triples).missing == 0 <==> ObjectsFound(nodes, triples)
  {
    if triples != [] {
      var n := |triples| - 1;
      MissingIffAbsent(rules, nodes, triples[..n]);
      if ObjectsFound(nodes, triples[..n]) && triples[n].target in nodes {
        forall i | 0 <= i < |triples|
          ensures triples[i].target in nodes
        {
          if i < n {
            assert triples[..n][i] == triples[i];
          }
        }
      }
      if ObjectsFound(nodes, triples) {
        assert forall i :: 0 <= i < n ==> triples[..n][i] == triples[i];
      }
    }
  }

  lemma {:induction false} OutgoingMembers(triples: seq<Edge>, subject: Key, t: Edge)
    ensures t in Outgoing(triples, subject) <==> t in triples && t.subject == subject
  {
    if triples != [] {
      var n := |triples| - 1;
      OutgoingMembers(triples[..n], subject, t);
      assert triples == triples[..n] + [triples[n]];
    }
  }

  lemma OutgoingFound(nodes: map<Key, GraphNode>, triples: seq<Edge>, subject: Key)
    requires ObjectsFound(nodes, triples)
    ensures ObjectsFound(nodes, Outgoing(triples, subject))
  {
    var out := Outgoing(triples, subject);
    forall i | 0 <= i < |out|
      ensures out[i].target in nodes
    {
      OutgoingMembers(triples, subject, out[i]);
      var j :| 0 <= j < |triples| && triples[j] == out[i];
    }
  }

  /** When every triple's object is a node, the only blockers are about titles and sizes. */
  lemma {:induction false} NoObjectMissing(rules: Rules, version: string, from: string, nodes: map<Key, GraphNode>,
                                           triples: seq<Edge>, books: seq<GraphNode>)
    requires ObjectsFound(nodes, triples)
    ensures forall b :: b in OutputOf(rules, version, from, nodes, triples, books).blockers ==> b.code != ObjectMissing
  {
    if books != [] {
      var n := |books| - 1;
      NoObjectMissing(rules, version, from, nodes, triples, books[..n]);
      OutgoingFound(nodes, triples, books[n].graphKey);
      MissingIffAbsent(rules, nodes, Outgoing(triples, books[n].graphKey));
    }
  }

  // ---------------------------------------------------------------- names a book links to

  ghost predicate Some(triples: seq<Edge>, test: Edge -> bool) {
    exists t :: t in triples && test(t)
  }

  lemma SomeNext(triples: seq<Edge>, test: Edge -> bool)
    requires triples != []
    ensures Some(triples, test) <==> Some(triples[..|triples| - 1], test) || test(triples[|triples| - 1])
  {
    assert triples == triples[..|triples| - 1] + [triples[|triples| - 1]];
  }

  /** A test for triples of the relation whose object carries the name. */
  function Naming(rules: Rules, nodes: map<Key, GraphNode>, relation: Relation, f: Field, name: string): Edge -> bool {
    (t: Edge) => t.relation == relation && t.target in nodes && Name(rules, nodes[t.target].properties, f) == name
  }

  ghost predicate SomeNames(rules: Rules, nodes: map<Key, GraphNode>, triples: seq<Edge>, relation: Relation, f: Field,
                            name: string) {
    Some(triples, Naming(rules, nodes, relation, f, name))
  }

  lemma {:induction false} LinkedNames(rules: Rules, nodes: map<Key, GraphNode>, triples: seq<Edge>, name: string)
    ensures var links := LinksOf(rules, nodes, triples);
      && (name in links.authors <==> SomeNames(rules, nodes, triples, AuthoredBy, NameField, name))
      && (name in links.keywords <==> SomeNames(rules, nodes, triples, HasKeyword, NameField, name))
      && (name in links.topics <==> SomeNames(rules, nodes, triples, InTopic, NameField, name))
      && (name in links.subjects <==> SomeNames(rules, nodes, triples, HasSubjectCode, CodeField, name))
  {
    if triples != [] {
      LinkedNames(rules, nodes, triples[..|triples| - 1], name);
      SomeNext(triples, Naming(rules, nodes, AuthoredBy, NameField, name));
      SomeNext(triples, Naming(rules, nodes, HasKeyword, NameField, name));
      SomeNext(triples, Naming(rules, nodes, InTopic, NameField, name));
      SomeNext(triples, Naming(rules, nodes, HasSubjectCode, CodeField, name));
    }
  }

  /** A row's authors are exactly the non-blank names of the author nodes the book's triples reach. */
  lemma RowAuthors(rules: Rules, nodes: map<Key, GraphNode>, triples: seq<Edge>, book: GraphNode, from: string,
                   name: string)
    ensures var links := LinksOf(rules, nodes, Outgoing(triples, book.graphKey));
      Key(name) in BaseRow(rules, book, links, from).authors <==>
      name != "" &&
      exists t :: t in triples && t.subject == book.graphKey && Naming(rules, nodes, AuthoredBy, NameField, name)(t)
  {
    var out := Outgoing(triples, book.graphKey);
    var test := Naming(rules, nodes, AuthoredBy, NameField, name);
    LinkedNames(rules, nodes, out, name);
    if t :| t in out && test(t) {
      OutgoingMembers(triples, book.graphKey, t);
    }
    if t :| t in triples && t.subject == book.graphKey && test(t) {
      OutgoingMembers(triples, book.graphKey, t);
    }
  }

  // ---------------------------------------------------------------- the tag dictionary

  /** Dictionary and resource tags refer to each other: no tag without an entry, no entry without a tag. */
  ghost predicate TagsMatch(rules: Rules, rows: Rows) {
    && (forall t :: t in rows.tags ==> t.normalizedName in rows.dictionary)
    && (forall k :: k in rows.dictionary ==> Entry(rules, rows.dictionary[k], k))
    && (forall k :: k in rows.dictionary ==> Used(rows.tags, k))
  }

  ghost predicate Entry(rules: Rules, tag: Tag, k: Key) {
    tag.normalizedName == k == TagKey(rules, tag.kind, tag.name)
  }

  ghost predicate Used(tags: seq<ResourceTag>, k: Key) {
    exists t :: t in tags && t.normalizedName == k
  }

  lemma {:induction false} TagsMatchAll(rules: Rules, id: Key, rows: Rows, specs: seq<TagSpec>)
    requires TagsMatch(rules, rows)
    ensures TagsMatch(rules, WithTags(rules, id, rows, specs))
  {
    if specs != [] {
      TagsMatchAll(rules, id, rows, specs[..|specs| - 1]);
    }
  }

  lemma BookTagsMatch(rules: Rules, version: string, from: string, rows: Rows, book: GraphNode, links: Links)
    requires TagsMatch(rules, rows)
    ensures TagsMatch(rules, WithBook(rules, version, from, rows, book, links))
  {
    TagsMatchAll(rules, Key(book.entityId), WithTables(rules, version, from, rows, book, links), TagSpecs(links));
  }

  lemma {:induction false} DictionaryMatchesTags(rules: Rules, version: string, from: string,
                                                 nodes: map<Key, GraphNode>, triples: seq<Edge>, books: seq<GraphNode>)
    ensures TagsMatch(rules, OutputOf(rules, version, from, nodes, triples, books).rows)
  {
    if books != [] {
      var n := |books| - 1;
      DictionaryMatchesTags(rules, version, from, nodes, triples, books[..n]);
      BookTagsMatch(rules, version, from, OutputOf(rules, version, from, nodes, triples, books[..n]).rows, books[n],
                    LinksOf(rules, nodes, Outgoing(triples, books[n].graphKey)));
    }
  }

  // ---------------------------------------------------------------- single values of a row

  /** Found and of that relation: the triple decides the value unless a later one does. */
  predicate Sets(nodes: map<Key, GraphNode>, t: Edge, relation: Relation) {
    t.relation == relation && t.target in nodes
  }

  /** The last publisher and the last category among a book's triples are the ones its row keeps. */
  lemma {:induction false} LastOneWins(rules: Rules, nodes: map<Key, GraphNode>, triples: seq<Edge>, i: nat)
    requires i < |triples|
    ensures Sets(nodes, triples[i], PublishedBy) && (forall j :: i < j < |triples| ==> !Sets(nodes, triples[j], PublishedBy)) ==>
      LinksOf(rules, nodes, triples).publisher == Name(rules, nodes[triples[i].target].properties, NameField)
    ensures Sets(nodes, triples[i], ClassifiedAs) && (forall j :: i < j < |triples| ==> !Sets(nodes, triples[j], ClassifiedAs)) ==>
      LinksOf(rules, nodes, triples).category == Name(rules, nodes[triples[i].target].properties, CodeField)
  {
    var n := |triples| - 1;
    if i < n {
      LastOneWins(rules, nodes, triples[..n], i);
      assert forall j :: 0 <= j < n ==> triples[..n][j] == triples[j];
    }
  }

  /** A book without a found publisher or category keeps none. */
  lemma {:induction false} NoneKept(rules: Rules, nodes: map<Key, GraphNode>, triples: seq<Edge>)
    ensures (forall j :: 0 <= j < |triples| ==> !Sets(nodes, triples[j], PublishedBy)) ==>
      LinksOf(rules, nodes, triples).publisher == ""
    ensures (forall j :: 0 <= j < |triples| ==> !Sets(nodes, triples[j], ClassifiedAs)) ==>
      LinksOf(rules, nodes, triples).category == ""
  {
    if triples != [] {
      var n := |triples| - 1;
      NoneKept(rules, nodes, triples[..n]);
      assert forall j :: 0 <= j < n ==> triples[..n][j] == triples[j];
    }
  }

  /** The call number is the least subject code, and there is none exactly when the book has no subject code. */
  lemma CallNumberIsLeast(rules: Rules, version: string, from: string, rows: Rows, book: GraphNode, links: Links)
    ensures var details := WithTables(rules, version, from, rows, book, links).details;
      var codes := set s | s in links.subjects && s != "" :: Key(s);
      && |details| == |rows.details| + 1
      && (codes == {} ==> details[|rows.details|].callNumber == "")
      && (codes != {} ==> IsMin(Key(details[|rows.details|].callNumber), codes))
  {
    var codes := set s | s in links.subjects && s != "" :: Key(s);
    assert Unique(links.subjects) == SortedKeys(codes);
    if codes != {} {
      assert IsMin(Min(codes), codes);
    }
  }

  lemma {:induction false} PassedBounds(checks: seq<bool>)
    ensures Passed(checks) <= |checks|
    ensures Passed(checks) == |checks| <==> forall i :: 0 <= i < |checks| ==> checks[i]
  {
    if checks != [] {
      var n := |checks| - 1;
      PassedBounds(checks[..n]);
      assert forall i :: 0 <= i < n ==> checks[..n][i] == checks[i];
    }
  }

  /** The quality lies in [0,1] and is 1 exactly when all ten checks pass. */
  lemma QualityBounds(p: Properties, authors: seq<Key>, keywords: seq<Key>)
    ensures 0.0 <= Quality(p, authors, keywords) <= 1.0
    ensures Quality(p, authors, keywords) == 1.0 <==> forall i :: 0 <= i < 10 ==> Checks(p, authors, keywords)[i]
  {
    PassedBounds(Checks(p, authors, keywords));
  }

  // ---------------------------------------------------------------- resource tags

  function TagFor(rules: Rules, id: Key, spec: TagSpec): ResourceTag {
    ResourceTag(id, TagKey(rules, spec.kind, spec.name), spec.weight, spec.confidence)
  }

  lemma {:induction false} TagsOfSpecs(rules: Rules, id: Key, rows: Rows, specs: seq<TagSpec>)
    ensures WithTags(rules, id, rows, specs).tags ==
      rows.tags + seq(|specs|, i requires 0 <= i < |specs| => TagFor(rules, id, specs[i]))
  {
    if specs != [] {
      TagsOfSpecs(rules, id, rows, specs[..|specs| - 1]);
    }
  }

  /** A tag of the book: one of its keyword, topic or classification names, under that kind's weight. */
  ghost predicate TagsBook(rules: Rules, book: GraphNode, links: Links, t: ResourceTag) {
    exists spec :: spec in TagSpecs(links) && t == TagFor(rules, Key(book.entityId), spec)
  }

  /** A test for published books the tag belongs to. */
  ghost function Tagging(rules: Rules, nodes: map<Key, GraphNode>, triples: seq<Edge>, t: ResourceTag): Test {
    (b: GraphNode) => Publishable(rules, b) && TagsBook(rules, b, LinksOf(rules, nodes, Outgoing(triples, b.graphKey)), t)
  }

  ghost predicate SomeBook(books: seq<GraphNode>, test: Test) {
    exists b :: b in books && test(b)
  }

  lemma SomeBookNext(books: seq<GraphNode>, test: Test)
    requires books != []
    ensures SomeBook(books, test) <==> SomeBook(books[..|books| - 1], test) || test(books[|books| - 1])
  {
    assert books == books[..|books| - 1] + [books[|books| - 1]];
  }

  lemma BookTags(rules: Rules, version: string, from: string, rows: Rows, book: GraphNode, links: Links, t: ResourceTag)
    ensures t in WithBook(rules, version, from, rows, book, links).tags <==>
      t in rows.tags || (Publishable(rules, book) && TagsBook(rules, book, links, t))
  {
    if Publishable(rules, book) {
      var specs := TagSpecs(links);
      var added := seq(|specs|, i requires 0 <= i < |specs| => TagFor(rules, Key(book.entityId), specs[i]));
      TagsOfSpecs(rules, Key(book.entityId), WithTables(rules, version, from, rows, book, links), specs);
      if TagsBook(rules, book, links, t) {
        var spec :| spec in specs && t == TagFor(rules, Key(book.entityId), spec);
        var i :| 0 <= i < |specs| && specs[i] == spec;
        assert added[i] == t;
      }
      if t in added {
        var i :| 0 <= i < |added| && added[i] == t;
        assert specs[i] in specs;
      }
    }
  }

  /** The resource tags are exactly those of the published books. */
  lemma {:induction false} ResourceTagsExact(rules: Rules, version: string, from: string, nodes: map<Key, GraphNode>,
                                             triples: seq<Edge>, books: seq<GraphNode>, t: ResourceTag)
    ensures t in OutputOf(rules, version, from, nodes, triples, books).rows.tags <==>
      SomeBook(books, Tagging(rules, nodes, triples, t))
  {
    if books != [] {
      var n := |books| - 1;
      ResourceTagsExact(rules, version, from, nodes, triples, books[..n], t);
      BookTags(rules, version, from, OutputOf(rules, version, from, nodes, triples, books[..n]).rows, books[n],
               LinksOf(rules, nodes, Outgoing(triples, books[n].graphKey)), t);
      SomeBookNext(books, Tagging(rules, nodes, triples, t));
    }
  }
}
