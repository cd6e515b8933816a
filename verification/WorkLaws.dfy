/** What the tuple of works promises, for every node list and triple list. */
module WorkLaws {
  import opened Keys
  import opened Components
  import opened TitleGroups
  import opened Works

  /** A work is one component of the books of its title, with those books and their authors in order. */
  ghost predicate IsWork(w: WorkGroup, naming: Naming, books: Books, authors: Authors) {
    var B := BooksTitled(naming, books, w.normalizedTitle);
    && IsClassIn(SetOf(w.bookKeys), B, B, authors)
    && w.bookKeys == SortedKeys(SetOf(w.bookKeys))
    && w == MakeWork(naming, books, authors, w.normalizedTitle, w.bookKeys)
  }

  /** The order of the tuple: by title, then by the sorted books; no book is shared. */
  ghost predicate Before(v: WorkGroup, w: WorkGroup) {
    && SetOf(v.bookKeys) !! SetOf(w.bookKeys)
    && (Less(v.normalizedTitle, w.normalizedTitle)
        || (v.normalizedTitle == w.normalizedTitle && TupleLess(v.bookKeys, w.bookKeys)))
  }

  ghost predicate Ordered(works: seq<WorkGroup>) {
    forall i, j {:trigger Before(works[i], works[j])} :: 0 <= i < j < |works| ==> Before(works[i], works[j])
  }

  ghost predicate HasBook(works: seq<WorkGroup>, b: Key) {
    exists i :: 0 <= i < |works| && b in works[i].bookKeys
  }

  lemma SortedKeysSet(s: set<Key>)
    ensures SetOf(SortedKeys(s)) == s
  {
  }

  lemma TitleWorksAreWorks(naming: Naming, books: Books, authors: Authors, title: Key)
    ensures forall w :: w in TitleWorks(naming, books, authors, title) ==>
      w.normalizedTitle == title && IsWork(w, naming, books, authors)
  {
    var B := BooksTitled(naming, books, title);
    ClassListMembers(B, B, authors);
    var classes := ClassList(B, B, authors);
    var works := TitleWorks(naming, books, authors, title);
    forall i | 0 <= i < |works|
      ensures works[i].normalizedTitle == title && IsWork(works[i], naming, books, authors)
    {
      SortedKeysSet(classes[i]);
      assert IsClassIn(classes[i], B, B, authors);
    }
  }

  lemma TitleWorksCover(naming: Naming, books: Books, authors: Authors, title: Key, b: Key)
    requires b in BooksTitled(naming, books, title)
    ensures HasBook(TitleWorks(naming, books, authors, title), b)
  {
    var B := BooksTitled(naming, books, title);
    ClassListMembers(B, B, authors);
    assert Covers(ClassList(B, B, authors), b);
    var i :| 0 <= i < |ClassList(B, B, authors)| && b in ClassList(B, B, authors)[i];
    WorkListsClass(naming, books, authors, title, i, b);
  }

  lemma WorkListsClass(naming: Naming, books: Books, authors: Authors, title: Key, i: nat, b: Key)
    requires var B := BooksTitled(naming, books, title);
      i < |ClassList(B, B, authors)| && b in ClassList(B, B, authors)[i]
    ensures HasBook(TitleWorks(naming, books, authors, title), b)
  {
    assert b in TitleWorks(naming, books, authors, title)[i].bookKeys;
  }

  lemma TitleWorksOrdered(naming: Naming, books: Books, authors: Authors, title: Key)
    ensures Ordered(TitleWorks(naming, books, authors, title))
  {
    var B := BooksTitled(naming, books, title);
    ClassListIncreasing(B, B, authors);
    var classes := ClassList(B, B, authors);
    var works := TitleWorks(naming, books, authors, title);
    forall i, j | 0 <= i < j < |works|
      ensures Before(works[i], works[j])
    {
      assert Precedes(classes[i], classes[j]);
      SortedKeysSet(classes[i]);
      SortedKeysSet(classes[j]);
      TupleOrderIsLeastOrder(classes[i], classes[j]);
    }
  }

  lemma {:induction false} WorksFromAreWorks(naming: Naming, books: Books, authors: Authors, titles: seq<Key>)
    ensures forall w :: w in WorksFrom(naming, books, authors, titles) ==>
      w.normalizedTitle in titles && IsWork(w, naming, books, authors)
  {
    if titles != [] {
      TitleWorksAreWorks(naming, books, authors, titles[0]);
      WorksFromAreWorks(naming, books, authors, titles[1..]);
    }
  }

  lemma HasBookAppend(a: seq<WorkGroup>, c: seq<WorkGroup>, b: Key)
    ensures HasBook(a + c, b) <==> HasBook(a, b) || HasBook(c, b)
  {
    if HasBook(a, b) {
      var i :| 0 <= i < |a| && b in a[i].bookKeys;
      assert b in (a + c)[i].bookKeys;
    }
    if HasBook(c, b) {
      var i :| 0 <= i < |c| && b in c[i].bookKeys;
      assert b in (a + c)[|a| + i].bookKeys;
    }
  }

  lemma {:induction false} WorksFromCover(naming: Naming, books: Books, authors: Authors, titles: seq<Key>, b: Key)
    requires b in books && TitleKey(naming, b, books[b]) in titles
    ensures HasBook(WorksFrom(naming, books, authors, titles), b)
  {
    var first := TitleWorks(naming, books, authors, titles[0]);
    HasBookAppend(first, WorksFrom(naming, books, authors, titles[1..]), b);
    if TitleKey(naming, b, books[b]) == titles[0] {
      TitleWorksCover(naming, books, authors, titles[0], b);
    } else {
      WorksFromCover(naming, books, authors, titles[1..], b);
    }
  }

  lemma {:induction false} WorksFromOrdered(naming: Naming, books: Books, authors: Authors, titles: seq<Key>)
    requires StrictlySorted(titles)
    ensures Ordered(WorksFrom(naming, books, authors, titles))
  {
    if titles != [] {
      var first := TitleWorks(naming, books, authors, titles[0]);
      var rest := WorksFrom(naming, books, authors, titles[1..]);
      TitleWorksOrdered(naming, books, authors, titles[0]);
      TitleWorksAreWorks(naming, books, authors, titles[0]);
      WorksFromOrdered(naming, books, authors, titles[1..]);
      WorksFromAreWorks(naming, books, authors, titles[1..]);
      forall v, w | v in first && w in rest
        ensures Before(v, w)
      {
        TitlesApart(v, w, titles, naming, books, authors);
      }
      OrderedAppend(first, rest);
    }
  }

  lemma OrderedAppend(a: seq<WorkGroup>, c: seq<WorkGroup>)
    requires Ordered(a) && Ordered(c) && forall v, w :: v in a && w in c ==> Before(v, w)
    ensures Ordered(a + c)
  {
    var all := a + c;
    forall i, j | 0 <= i < j < |all|
      ensures Before(all[i], all[j])
    {
      if |a| <= i {
        assert Before(c[i - |a|], c[j - |a|]);
      } else if j < |a| {
        assert Before(a[i], a[j]);
      }
    }
  }

  lemma TitlesApart(v: WorkGroup, w: WorkGroup, titles: seq<Key>, naming: Naming, books: Books, authors: Authors)
    requires titles != [] && StrictlySorted(titles)
    requires IsWork(v, naming, books, authors) && v.normalizedTitle == titles[0]
    requires IsWork(w, naming, books, authors) && w.normalizedTitle in titles[1..]
    ensures Before(v, w)
  {
    var k :| 0 <= k < |titles[1..]| && titles[1..][k] == w.normalizedTitle;
    assert Less(titles[0], titles[k + 1]);
    LessAsymmetric(v.normalizedTitle, w.normalizedTitle);
  }

  /** Each entry is a component of its title, every book is in one, entries come in order and share no book. */
  ghost predicate IsWorkTuple(works: seq<WorkGroup>, naming: Naming, books: Books, authors: Authors) {
    && (forall i {:trigger IsWork(works[i], naming, books, authors)} ::
          0 <= i < |works| ==> IsWork(works[i], naming, books, authors))
    && (forall b {:trigger HasBook(works, b)} :: b in books ==> HasBook(works, b))
    && Ordered(works)
  }

  lemma WorksPartitionBooks(naming: Naming, books: Books, authors: Authors)
    ensures IsWorkTuple(WorksOf(naming, books, authors), naming, books, authors)
  {
    var titles := SortedKeys(TitleKeys(naming, books));
    WorksFromAreWorks(naming, books, authors, titles);
    WorksFromOrdered(naming, books, authors, titles);
    forall b | b in books
      ensures HasBook(WorksOf(naming, books, authors), b)
    {
      assert TitleKey(naming, b, books[b]) in TitleKeys(naming, books);
      WorksFromCover(naming, books, authors, titles, b);
    }
  }

  /** The books of a work are the component of each of them among the books of their title. */
  lemma WorkIsComponent(w: WorkGroup, naming: Naming, books: Books, authors: Authors, b: Key)
    requires IsWork(w, naming, books, authors) && b in w.bookKeys
    ensures b in books && TitleKey(naming, b, books[b]) == w.normalizedTitle
    ensures SetOf(w.bookKeys) == Class(BooksTitled(naming, books, w.normalizedTitle), authors, b)
  {
    assert b in SetOf(w.bookKeys);
  }

  lemma DifferentWorksDisjoint(works: seq<WorkGroup>, i: nat, j: nat)
    requires Ordered(works) && i < |works| && j < |works| && i != j
    ensures SetOf(works[i].bookKeys) !! SetOf(works[j].bookKeys)
  {
    if i < j {
      assert Before(works[i], works[j]);
    } else {
      assert Before(works[j], works[i]);
    }
  }

  lemma SharedBookSameIndex(works: seq<WorkGroup>, i: nat, j: nat, b: Key)
    requires Ordered(works) && i < |works| && j < |works|
    requires b in works[i].bookKeys && b in works[j].bookKeys
    ensures i == j
  {
    assert b in SetOf(works[i].bookKeys) && b in SetOf(works[j].bookKeys);
    if i != j {
      DifferentWorksDisjoint(works, i, j);
    }
  }

  ghost predicate OnlyIn(works: seq<WorkGroup>, i: nat, b: Key) {
    && i < |works| && b in works[i].bookKeys
    && forall j :: 0 <= j < |works| && b in works[j].bookKeys ==> j == i
  }

  lemma FindWork(works: seq<WorkGroup>, b: Key) returns (i: nat)
    requires HasBook(works, b) && Ordered(works)
    ensures OnlyIn(works, i, b)
  {
    i :| 0 <= i < |works| && b in works[i].bookKeys;
    forall j | 0 <= j < |works| && b in works[j].bookKeys
      ensures j == i
    {
      SharedBookSameIndex(works, i, j, b);
    }
  }

  /** Every book is in exactly one work. */
  lemma BookInExactlyOneWork(naming: Naming, books: Books, authors: Authors, b: Key)
    requires b in books
    ensures exists i :: OnlyIn(WorksOf(naming, books, authors), i, b)
  {
    WorksPartitionBooks(naming, books, authors);
    var _ := FindWork(WorksOf(naming, books, authors), b);
  }

  ghost predicate ShareWork(works: seq<WorkGroup>, b: Key, c: Key) {
    exists i :: 0 <= i < |works| && b in works[i].bookKeys && c in works[i].bookKeys
  }

  ghost predicate LinkedByAuthors(naming: Naming, books: Books, authors: Authors, b: Key, c: Key)
    requires b in books && c in books
  {
    && TitleKey(naming, b, books[b]) == TitleKey(naming, c, books[c])
    && Connected(BooksTitled(naming, books, TitleKey(naming, b, books[b])), authors, b, c)
  }

  lemma WorkHoldsLinked(w: WorkGroup, naming: Naming, books: Books, authors: Authors, b: Key, c: Key)
    requires IsWork(w, naming, books, authors) && b in w.bookKeys && b in books && c in books
    ensures c in w.bookKeys <==> LinkedByAuthors(naming, books, authors, b, c)
  {
    WorkIsComponent(w, naming, books, authors, b);
    assert c in w.bookKeys <==> c in SetOf(w.bookKeys);
  }

  /** Two books share a work exactly when they have the same title key and an author chain links them. */
  lemma SameWorkIffLinked(works: seq<WorkGroup>, naming: Naming, books: Books, authors: Authors, b: Key, c: Key)
    requires IsWorkTuple(works, naming, books, authors) && b in books && c in books
    ensures ShareWork(works, b, c) <==> LinkedByAuthors(naming, books, authors, b, c)
  {
    var i := FindWork(works, b);
    WorkHoldsLinked(works[i], naming, books, authors, b, c);
  }

  lemma SharersShareWork(w: WorkGroup, naming: Naming, books: Books, authors: Authors, b: Key, c: Key)
    requires IsWork(w, naming, books, authors) && b in w.bookKeys
    requires c in BooksTitled(naming, books, w.normalizedTitle) && Share(authors, b, c)
    ensures c in w.bookKeys
  {
    WorkIsComponent(w, naming, books, authors, b);
    ConnectedStep(BooksTitled(naming, books, w.normalizedTitle), authors, b, c);
    assert c in SetOf(w.bookKeys);
  }

  /** Two works of one title have no author in common. */
  lemma SameTitleWorksShareNoAuthor(works: seq<WorkGroup>, naming: Naming, books: Books, authors: Authors,
                                    i: nat, j: nat, b: Key, c: Key)
    requires IsWorkTuple(works, naming, books, authors)
    requires i < |works| && j < |works| && i != j
    requires works[i].normalizedTitle == works[j].normalizedTitle
    requires b in works[i].bookKeys && c in works[j].bookKeys
    ensures !Share(authors, b, c)
  {
    WorkIsComponent(works[j], naming, books, authors, c);
    if Share(authors, b, c) {
      SharersShareWork(works[i], naming, books, authors, b, c);
      SharedBookSameIndex(works, i, j, c);
    }
  }

  /** A book without authors is a work of its own. */
  lemma AuthorlessBookIsSingleton(w: WorkGroup, naming: Naming, books: Books, authors: Authors, b: Key)
    requires IsWork(w, naming, books, authors) && b in w.bookKeys
    requires b in authors && authors[b] == {}
    ensures w.bookKeys == [b]
  {
    WorkIsComponent(w, naming, books, authors, b);
    var B := BooksTitled(naming, books, w.normalizedTitle);
    forall c | c in Class(B, authors, b)
      ensures c == b
    {
      ConnectedCarries(B, authors, b, c, {b});
    }
    SingletonKeys(w.bookKeys, b);
  }

  lemma SingletonKeys(q: seq<Key>, b: Key)
    requires b in q && q == SortedKeys(SetOf(q)) && forall c :: c in SetOf(q) ==> c == b
    ensures q == [b]
  {
    assert SetOf(q) == {b};
    SortedKeysUnique([b], {b});
  }

  // ---------------------------------------------------------------- order independence

  /** Different book rows have different keys. */
  ghost predicate DistinctBookKeys(nodes: seq<Node>) {
    forall i, j :: 0 <= i < j < |nodes| && nodes[i].nodeLabel == "Book" && nodes[j].nodeLabel == "Book" ==>
      nodes[i].graphKey != nodes[j].graphKey
  }

  ghost predicate IsBookRow(nodes: seq<Node>, row: Node) {
    row in nodes && row.nodeLabel == "Book"
  }

  /** With distinct keys the book table is exactly the set of book rows. */
  lemma {:induction false} BookTableRows(nodes: seq<Node>)
    requires DistinctBookKeys(nodes)
    ensures forall b :: b in BookTable(nodes) ==>
      BookTable(nodes)[b].graphKey == b && IsBookRow(nodes, BookTable(nodes)[b])
    ensures forall row :: IsBookRow(nodes, row) ==>
      row.graphKey in BookTable(nodes) && BookTable(nodes)[row.graphKey] == row
  {
    if nodes != [] {
      var n := |nodes| - 1;
      var before := nodes[..n];
      assert nodes == before + [nodes[n]];
      BookTableRows(before);
      forall row | IsBookRow(nodes, row)
        ensures row.graphKey in BookTable(nodes) && BookTable(nodes)[row.graphKey] == row
      {
        if row in before {
          assert IsBookRow(before, row);
          var i :| 0 <= i < n && nodes[i] == row;
        }
      }
    }
  }

  /** The works are a function of the set of nodes and the set of triples alone: reordering nodes with
      distinct keys, and reordering or repeating triples, changes nothing. */
  lemma WorksIgnoreInputOrder(naming: Naming, nodes: seq<Node>, triples: seq<Triple>,
                              nodes': seq<Node>, triples': seq<Triple>)
    requires DistinctBookKeys(nodes) && DistinctBookKeys(nodes')
    requires forall row :: IsBookRow(nodes, row) <==> IsBookRow(nodes', row)
    requires forall t :: t in triples <==> t in triples'
    ensures BookTable(nodes) == BookTable(nodes')
    ensures WorksOf(naming, BookTable(nodes), AuthorTable(triples, BookTable(nodes))) ==
      WorksOf(naming, BookTable(nodes'), AuthorTable(triples', BookTable(nodes')))
  {
    SameBookTable(nodes, nodes');
    SameAuthorTable(triples, triples', BookTable(nodes));
  }

  lemma SameBookTable(nodes: seq<Node>, nodes': seq<Node>)
    requires DistinctBookKeys(nodes) && DistinctBookKeys(nodes')
    requires forall row :: IsBookRow(nodes, row) <==> IsBookRow(nodes', row)
    ensures BookTable(nodes) == BookTable(nodes')
  {
    BookTableRows(nodes);
    BookTableRows(nodes');
    var t, t' := BookTable(nodes), BookTable(nodes');
    forall b | b in t
      ensures b in t' && t'[b] == t[b]
    {
      assert IsBookRow(nodes', t[b]);
    }
    forall b | b in t'
      ensures b in t
    {
      assert IsBookRow(nodes, t'[b]);
    }
  }

  lemma SameAuthorTable(triples: seq<Triple>, triples': seq<Triple>, books: Books)
    requires forall t :: t in triples <==> t in triples'
    ensures AuthorTable(triples, books) == AuthorTable(triples', books)
  {
    forall b | b in books
      ensures AuthorsOf(triples, b) == AuthorsOf(triples', b)
    { }
  }
}
