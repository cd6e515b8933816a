/** `analyze`: v1 nodes and triples to the ordered tuple of works. */
module Works {
  import opened Keys
  import opened Components
  import opened TitleGroups

  datatype Node = Node(entityId: Key, graphKey: Key, graphVersion: string, nodeLabel: string,
                       properties: map<string, string>)

  datatype Triple = Triple(edgeKey: Key, subjectKey: Key, relation: string, objectKey: Key,
                           properties: map<string, string>)

  /** The functions the program imports: Unicode title normalization and SHA-256 digests. */
  datatype Naming = Naming(
    normalizeTitle: string -> string,
    keyDigest: Key -> string,
    workDigest: (Key, seq<Key>, seq<Key>) -> string,
    edgeDigest: string -> string)

  datatype WorkGroup = WorkGroup(workId: string, title: string, normalizedTitle: Key,
                                 bookKeys: seq<Key>, authorKeys: seq<Key>)

  datatype Analysis = Analysis(sourceNodes: nat, sourceTriples: nat, sourceBooks: nat, works: seq<WorkGroup>)
  {
    /** The counts announced by the dry run. */
    function TargetNodes(): nat { sourceNodes + |works| }

    function TargetTriples(): nat { sourceTriples + sourceBooks }
  }

  type Books = map<Key, Node>

  /** The book table of the comprehension: the last row of a key is the one kept. */
  function BookTable(nodes: seq<Node>): Books {
    if nodes == [] then map[]
    else
      var last := nodes[|nodes| - 1];
      var before := BookTable(nodes[..|nodes| - 1]);
      if last.nodeLabel == "Book" then before[last.graphKey := last] else before
  }

  function AuthorsOf(triples: seq<Triple>, book: Key): set<Key> {
    set t | t in triples && t.relation == "AUTHORED_BY" && t.subjectKey == book :: t.objectKey
  }

  function AuthorTable(triples: seq<Triple>, books: Books): Authors {
    map b | b in books :: AuthorsOf(triples, b)
  }

  function TitleOf(book: Node): string {
    if "title" in book.properties then book.properties["title"] else ""
  }

  /** The grouping key of a book; a book without a usable title is keyed by its digest. */
  function TitleKey(naming: Naming, key: Key, book: Node): Key {
    var normalized := naming.normalizeTitle(TitleOf(book));
    if normalized == "" then Key(naming.keyDigest(key)) else Key(normalized)
  }

  function BooksTitled(naming: Naming, books: Books, title: Key): set<Key> {
    set b | b in books && TitleKey(naming, b, books[b]) == title
  }

  function TitleKeys(naming: Naming, books: Books): set<Key> {
    set b | b in books :: TitleKey(naming, b, books[b])
  }

  function AllAuthors(authors: Authors, members: seq<Key>): set<Key> {
    set b, a | b in members && b in authors && a in authors[b] :: a
  }

  function MakeWork(naming: Naming, books: Books, authors: Authors, title: Key, members: seq<Key>): WorkGroup {
    var workAuthors := SortedKeys(AllAuthors(authors, members));
    var name := if members != [] && members[0] in books then TitleOf(books[members[0]]) else "";
    WorkGroup("work:" + naming.workDigest(title, members, workAuthors), name, title, members, workAuthors)
  }

  function Groups(naming: Naming, books: Books, authors: Authors, title: Key, components: seq<seq<Key>>): seq<WorkGroup> {
    seq(|components|, i requires 0 <= i < |components| => MakeWork(naming, books, authors, title, components[i]))
  }

  // ---------------------------------------------------------------- specification

  /** The works of one title: one per connected component, in component order. */
  ghost function TitleWorks(naming: Naming, books: Books, authors: Authors, title: Key): seq<WorkGroup> {
    var B := BooksTitled(naming, books, title);
    var classes := ClassList(B, B, authors);
    seq(|classes|, i requires 0 <= i < |classes| =>
      MakeWork(naming, books, authors, title, SortedKeys(classes[i])))
  }

  ghost function WorksFrom(naming: Naming, books: Books, authors: Authors, titles: seq<Key>): seq<WorkGroup> {
    if titles == [] then []
    else TitleWorks(naming, books, authors, titles[0]) + WorksFrom(naming, books, authors, titles[1..])
  }

  /** Works as a function of the two tables only, built from connected components. */
  ghost function WorksOf(naming: Naming, books: Books, authors: Authors): seq<WorkGroup> {
    WorksFrom(naming, books, authors, SortedKeys(TitleKeys(naming, books)))
  }

  lemma {:induction false} WorksFromAppend(naming: Naming, books: Books, authors: Authors, a: seq<Key>, b: seq<Key>)
    ensures WorksFrom(naming, books, authors, a + b) ==
      WorksFrom(naming, books, authors, a) + WorksFrom(naming, books, authors, b)
  {
    if a == [] {
      assert a + b == b;
    } else {
      assert (a + b)[1..] == a[1..] + b;
      WorksFromAppend(naming, books, authors, a[1..], b);
    }
  }

  // ---------------------------------------------------------------- the program

  method CollectBooks(nodes: seq<Node>) returns (books: Books)
    ensures books == BookTable(nodes)
  {
    books := map[];
    for i := 0 to |nodes|
      invariant books == BookTable(nodes[..i])
    {
      var row := nodes[i];
      assert nodes[..i + 1][..i] == nodes[..i];
      if row.nodeLabel == "Book" {
        books := books[row.graphKey := row];
      }
    }
    assert nodes[..|nodes|] == nodes;
  }

  method CollectAuthors(triples: seq<Triple>, books: Books) returns (authors: Authors)
    ensures authors == AuthorTable(triples, books)
  {
    authors := map b | b in books :: {};
    for i := 0 to |triples|
      invariant authors.Keys == books.Keys
      invariant forall b :: b in books ==> authors[b] == AuthorsOf(triples[..i], b)
    {
      var triple := triples[i];
      assert triples[..i + 1] == triples[..i] + [triple];
      forall b | b in books {
      }
      if triple.relation == "AUTHORED_BY" && triple.subjectKey in books {
        authors := authors[triple.subjectKey := authors[triple.subjectKey] + {triple.objectKey}];
      }
    }
    assert triples[..|triples|] == triples;
  }

  ghost predicate ByTitle(byTitle: map<Key, seq<Key>>, naming: Naming, books: Books, seen: set<Key>) {
    && (forall t :: t in byTitle ==> byTitle[t] != [])
    && (forall t, b :: Listed(byTitle, t, b) <==> b in seen && b in books && TitleKey(naming, b, books[b]) == t)
  }

  /** `by_title`: the books under each grouping key. */
  method IndexByTitle(naming: Naming, books: Books) returns (byTitle: map<Key, seq<Key>>)
    ensures ByTitle(byTitle, naming, books, books.Keys)
  {
    byTitle := map[];
    var remaining := books.Keys;
    while remaining != {}
      invariant remaining <= books.Keys
      invariant ByTitle(byTitle, naming, books, books.Keys - remaining)
    {
      var key :| key in remaining;
      remaining := remaining - {key};
      var title := TitleKey(naming, key, books[key]);
      ghost var before := byTitle;
      byTitle := byTitle[title := (if title in byTitle then byTitle[title] else []) + [key]];
      assert forall t, b :: Listed(byTitle, t, b) <==> Listed(before, t, b) || (t == title && b == key);
    }
  }

  lemma ByTitleKeys(byTitle: map<Key, seq<Key>>, naming: Naming, books: Books)
    requires ByTitle(byTitle, naming, books, books.Keys)
    ensures byTitle.Keys == TitleKeys(naming, books)
    ensures forall t :: t in byTitle ==> SetOf(byTitle[t]) == BooksTitled(naming, books, t)
  {
    forall t | t in byTitle
      ensures t in TitleKeys(naming, books)
    {
      assert Listed(byTitle, t, byTitle[t][0]);
    }
    forall t | t in TitleKeys(naming, books)
      ensures t in byTitle
    {
      var b :| b in books && TitleKey(naming, b, books[b]) == t;
      assert Listed(byTitle, t, b);
    }
    forall t, b | t in byTitle
      ensures b in SetOf(byTitle[t]) <==> b in BooksTitled(naming, books, t)
    {
      assert Listed(byTitle, t, b) <==> b in byTitle[t];
    }
  }

  method WorksOfTitle(naming: Naming, books: Books, authors: Authors, title: Key, titleBooks: seq<Key>)
      returns (groups: seq<WorkGroup>)
    requires authors.Keys == books.Keys
    requires SetOf(titleBooks) == BooksTitled(naming, books, title)
    ensures groups == TitleWorks(naming, books, authors, title)
  {
    forall b | b in titleBooks
      ensures b in authors
    {
      assert b in SetOf(titleBooks);
    }
    var components := GroupTitle(titleBooks, authors);
    groups := [];
    for i := 0 to |components|
      invariant groups == Groups(naming, books, authors, title, components)[..i]
    {
      groups := groups + [MakeWork(naming, books, authors, title, components[i])];
    }
    GroupsAreTitleWorks(naming, books, authors, title, components);
  }

  lemma GroupsAreTitleWorks(naming: Naming, books: Books, authors: Authors, title: Key,
                            components: seq<seq<Key>>)
    requires var B := BooksTitled(naming, books, title);
      Tuples(components, ClassList(B, B, authors))
    ensures Groups(naming, books, authors, title, components) == TitleWorks(naming, books, authors, title)
  {
  }

  /** `for normalized_title, title_books in sorted(by_title.items())` */
  method WorksOfTitles(naming: Naming, books: Books, authors: Authors, byTitle: map<Key, seq<Key>>)
      returns (groups: seq<WorkGroup>)
    requires authors.Keys == books.Keys
    requires forall t :: t in byTitle ==> SetOf(byTitle[t]) == BooksTitled(naming, books, t)
    ensures groups == WorksFrom(naming, books, authors, SortedKeys(byTitle.Keys))
  {
    var titles := SortedKeys(byTitle.Keys);
    groups := [];
    for i := 0 to |titles|
      invariant groups == WorksFrom(naming, books, authors, titles[..i])
    {
      var title := titles[i];
      assert title in byTitle.Keys;
      var more := WorksOfTitle(naming, books, authors, title, byTitle[title]);
      NextTitle(naming, books, authors, titles, i);
      groups := groups + more;
    }
    assert titles[..|titles|] == titles;
  }

  lemma NextTitle(naming: Naming, books: Books, authors: Authors, titles: seq<Key>, i: nat)
    requires i < |titles|
    ensures WorksFrom(naming, books, authors, titles[..i + 1]) ==
      WorksFrom(naming, books, authors, titles[..i]) + TitleWorks(naming, books, authors, titles[i])
  {
    assert titles[..i + 1] == titles[..i] + [titles[i]];
    WorksFromAppend(naming, books, authors, titles[..i], [titles[i]]);
    assert WorksFrom(naming, books, authors, [titles[i]][1..]) == [];
  }

  method Analyze(naming: Naming, nodes: seq<Node>, triples: seq<Triple>) returns (r: Analysis)
    ensures r.sourceNodes == |nodes| && r.sourceTriples == |triples|
    ensures r.sourceBooks == |BookTable(nodes)|
    ensures r.works == WorksOf(naming, BookTable(nodes), AuthorTable(triples, BookTable(nodes)))
  {
    var books := CollectBooks(nodes);
    var authors := CollectAuthors(triples, books);
    var byTitle := IndexByTitle(naming, books);
    ByTitleKeys(byTitle, naming, books);
    var groups := WorksOfTitles(naming, books, authors, byTitle);
    r := Analysis(|nodes|, |triples|, |books|, groups);
  }
}
