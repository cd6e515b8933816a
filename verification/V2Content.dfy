/** What the rows of works and of the v2 graph hold, and how the v1 graph is read back from them. */
module V2Content {
  import opened Keys
  import opened Components
  import opened TitleGroups
  import opened Works
  import opened WorkLaws
  import opened V2Rows

  // ---------------------------------------------------------------- works

  /** Some AUTHORED_BY triple joins one of the books to the author. */
  ghost predicate Credits(triples: seq<Triple>, books: seq<Key>, author: Key) {
    exists t :: t in triples && t.relation == "AUTHORED_BY" && t.subjectKey in books && t.objectKey == author
  }

  /** A book is grouped under its normalized title, or under the digest of its key when it has none. */
  ghost predicate GroupedUnder(naming: Naming, key: Key, book: Node, title: Key) {
    var normalized := naming.normalizeTitle(if "title" in book.properties then book.properties["title"] else "");
    title.text == if normalized != "" then normalized else naming.keyDigest(key)
  }

  /** A work lists its books in order, is named after the least of them, lists in order the authors its books are
      credited with, and carries the digest of all that. */
  lemma WorkContent(w: WorkGroup, naming: Naming, nodes: seq<Node>, triples: seq<Triple>, author: Key)
    requires IsWork(w, naming, BookTable(nodes), AuthorTable(triples, BookTable(nodes)))
    ensures StrictlySorted(w.bookKeys) && w.bookKeys != [] && IsMin(w.bookKeys[0], SetOf(w.bookKeys))
    ensures w.bookKeys[0] in BookTable(nodes)
    ensures var p := BookTable(nodes)[w.bookKeys[0]].properties; w.title == if "title" in p then p["title"] else ""
    ensures StrictlySorted(w.authorKeys) && (author in w.authorKeys <==> Credits(triples, w.bookKeys, author))
    ensures w.workId == "work:" + naming.workDigest(w.normalizedTitle, w.bookKeys, w.authorKeys)
    ensures forall b :: b in w.bookKeys ==> b in BookTable(nodes) && GroupedUnder(naming, b, BookTable(nodes)[b], w.normalizedTitle)
  {
    var books := BookTable(nodes);
    var authors := AuthorTable(triples, books);
    forall b | b in w.bookKeys
      ensures b in books && GroupedUnder(naming, b, books[b], w.normalizedTitle)
    {
      WorkIsComponent(w, naming, books, authors, b);
    }
    FirstOfSorted(w.bookKeys);
    WorkIsComponent(w, naming, books, authors, w.bookKeys[0]);
    WorkAuthors(w, naming, books, triples, author);
  }

  lemma FirstOfSorted(q: seq<Key>)
    requires q == SortedKeys(SetOf(q)) && SetOf(q) != {}
    ensures StrictlySorted(q) && q != [] && IsMin(q[0], SetOf(q))
  {
  }

  lemma WorkAuthors(w: WorkGroup, naming: Naming, books: Books, triples: seq<Triple>, author: Key)
    requires IsWork(w, naming, books, AuthorTable(triples, books))
    ensures author in w.authorKeys <==> Credits(triples, w.bookKeys, author)
  {
    var authors := AuthorTable(triples, books);
    forall b | b in w.bookKeys
      ensures b in books
    {
      WorkIsComponent(w, naming, books, authors, b);
    }
    assert author in w.authorKeys <==> author in AllAuthors(authors, w.bookKeys);
    AuthorsCredited(books, triples, w.bookKeys, author);
  }

  lemma AuthorsCredited(books: Books, triples: seq<Triple>, members: seq<Key>, author: Key)
    requires forall b :: b in members ==> b in books
    ensures author in AllAuthors(AuthorTable(triples, books), members) <==> Credits(triples, members, author)
  {
    var authors := AuthorTable(triples, books);
    if author in AllAuthors(authors, members) {
      var b :| b in members && b in authors && author in authors[b];
      assert author in AuthorsOf(triples, b);
    }
    if t :| t in triples && t.relation == "AUTHORED_BY" && t.subjectKey in members && t.objectKey == author {
      assert author in authors[t.subjectKey];
    }
  }

  // ---------------------------------------------------------------- copied rows

  /** A text that starts with the v1 version and a colon has the version replaced, any other stays. */
  ghost predicate Moved(before: Key, after: Key, target: string) {
    if StartsWith(before.text, V1_VERSION + ":") then
      exists rest {:trigger V1_VERSION + ":" + rest} ::
        before.text == V1_VERSION + ":" + rest && after.text == target + ":" + rest
    else after == before
  }

  lemma RewriteMoves(k: Key, target: string)
    ensures Moved(k, RewriteKey(k, target), target)
  {
    var prefix := V1_VERSION + ":";
    if StartsWith(k.text, prefix) {
      var rest := k.text[|prefix|..];
      assert k.text == k.text[..|prefix|] + rest;
      assert k.text == V1_VERSION + ":" + rest;
    }
  }

  ghost predicate NodeCopied(before: Node, after: Node, target: string) {
    && after.entityId == before.entityId && after.nodeLabel == before.nodeLabel && after.graphVersion == target
    && Moved(before.graphKey, after.graphKey, target)
    && after.properties.Keys == before.properties.Keys
    && forall p :: p in before.properties ==>
         after.properties[p] == if before.properties[p] == V1_VERSION then target else before.properties[p]
  }

  ghost predicate TripleCopied(naming: Naming, before: Triple, after: Triple, target: string) {
    && Moved(before.subjectKey, after.subjectKey, target) && Moved(before.objectKey, after.objectKey, target)
    && after.relation == before.relation && after.properties == before.properties
    && after.edgeKey.text == "edge:" + naming.edgeDigest(target + ":" + before.edgeKey.text)
  }

  /** Every v1 row has its copy at its own place: label, entity, relation and properties are kept, except that a property
      naming the v1 version names the new one. */
  lemma RowsCopied(targetNodes: seq<Node>, targetTriples: seq<Triple>, naming: Naming, nodes: seq<Node>,
                   triples: seq<Triple>, works: seq<WorkGroup>, workOf: map<Key, Key>, target: string,
                   decimal: nat -> string)
    requires IsBuilt(targetNodes, targetTriples, naming, nodes, triples, works, workOf, target, decimal)
    ensures |targetNodes| == |nodes| + |works| && |targetTriples| == |triples| + |workOf|
    ensures forall i :: 0 <= i < |nodes| ==> NodeCopied(nodes[i], targetNodes[i], target)
    ensures forall i :: 0 <= i < |triples| ==> TripleCopied(naming, triples[i], targetTriples[i], target)
  {
    assert |workOf| == |workOf.Keys|;
    forall i | 0 <= i < |nodes|
      ensures NodeCopied(nodes[i], targetNodes[i], target)
    {
      assert targetNodes[i] == CopyNode(nodes[i], target);
      RewriteMoves(nodes[i].graphKey, target);
    }
    forall i | 0 <= i < |triples|
      ensures TripleCopied(naming, triples[i], targetTriples[i], target)
    {
      assert targetTriples[i] == CopyTriple(naming, triples[i], target);
      RewriteMoves(triples[i].subjectKey, target);
      RewriteMoves(triples[i].objectKey, target);
    }
  }

  // ---------------------------------------------------------------- added rows

  /** The node of a work: its title, grouping key and number of books. */
  ghost predicate WorkRow(w: WorkGroup, row: Node, target: string, decimal: nat -> string) {
    && row.entityId.text == w.workId && row.nodeLabel == "Work" && row.graphVersion == target
    && (forall digest :: w.workId == "work:" + digest ==> row.graphKey.text == target + ":work:" + digest)
    && row.properties.Keys == {"title", "normalized_title", "instance_count", "identity_rule"}
    && row.properties["title"] == w.title && row.properties["normalized_title"] == w.normalizedTitle.text
    && row.properties["instance_count"] == decimal(|w.bookKeys|)
    && row.properties["identity_rule"] == "normalized-title-shared-author-v1"
  }

  /** The edge from a book to its work. */
  ghost predicate InstanceRowOf(naming: Naming, book: Key, work: Key, row: Triple, target: string) {
    && Moved(book, row.subjectKey, target) && row.relation == "INSTANCE_OF" && row.objectKey == work
    && row.properties == map["identity_rule" := "normalized-title-shared-author-v1"]
    && row.edgeKey.text == "edge:" + naming.edgeDigest(target + ":" + row.subjectKey.text + ":INSTANCE_OF:" + work.text)
  }

  ghost predicate InstanceAt(naming: Naming, book: Key, workOf: map<Key, Key>, row: Triple, target: string) {
    book in workOf && InstanceRowOf(naming, book, workOf[book], row, target)
  }

  lemma WorkRowOf(w: WorkGroup, target: string, decimal: nat -> string)
    ensures WorkRow(w, WorkNode(w, target, decimal(|w.bookKeys|)), target, decimal)
  {
    forall digest | w.workId == "work:" + digest
      ensures WorkKey(w, target).text == target + ":work:" + digest
    {
      WorkKeyHoldsDigest(digest);
    }
  }

  /** After the copies come the works in their order, and an edge for each book in the order of the book keys. */
  lemma RowsAdded(targetNodes: seq<Node>, targetTriples: seq<Triple>, naming: Naming, nodes: seq<Node>,
                  triples: seq<Triple>, works: seq<WorkGroup>, workOf: map<Key, Key>, target: string,
                  decimal: nat -> string)
    requires IsBuilt(targetNodes, targetTriples, naming, nodes, triples, works, workOf, target, decimal)
    ensures |targetNodes| == |nodes| + |works| && |targetTriples| == |triples| + |workOf|
    ensures forall i :: 0 <= i < |works| ==> WorkRow(works[i], targetNodes[|nodes| + i], target, decimal)
    ensures forall k :: 0 <= k < |workOf| ==>
      InstanceAt(naming, SortedKeys(workOf.Keys)[k], workOf, targetTriples[|triples| + k], target)
  {
    assert |workOf| == |workOf.Keys|;
    forall i | 0 <= i < |works|
      ensures WorkRow(works[i], targetNodes[|nodes| + i], target, decimal)
    {
      assert targetNodes[|nodes| + i] == WorkNode(works[i], target, decimal(|works[i].bookKeys|));
      WorkRowOf(works[i], target, decimal);
    }
    var order := SortedKeys(workOf.Keys);
    forall k | 0 <= k < |order|
      ensures InstanceAt(naming, order[k], workOf, targetTriples[|triples| + k], target)
    {
      assert order[k] in order;
      InstanceRow(targetTriples, naming, triples, workOf, target, order, k);
      RewriteMoves(order[k], target);
    }
  }

  // ---------------------------------------------------------------- instance counts

  lemma {:induction false} PlacesCount(q: seq<Key>, good: set<Key>)
    requires StrictlySorted(q) && forall x :: x in good ==> x in q
    ensures |set k | 0 <= k < |q| && q[k] in good| == |good|
    decreases |q|
  {
    if q == [] {
      assert good == {};
    } else {
      var n := |q| - 1;
      var front, last := q[..n], q[n];
      forall k | 0 <= k < n
        ensures front[k] != last
      {
        LessAsymmetric(q[k], q[n]);
      }
      assert q == front + [last];
      PlacesCount(front, good - {last});
      PlacesNext(front, last, good);
    }
  }

  lemma PlacesNext(front: seq<Key>, last: Key, good: set<Key>)
    requires last !in front
    ensures |set k | 0 <= k < |front + [last]| && (front + [last])[k] in good| ==
      |set k | 0 <= k < |front| && front[k] in good - {last}| + if last in good then 1 else 0
    ensures |good| == |good - {last}| + if last in good then 1 else 0
  {
    var all := front + [last];
    var before := set k | 0 <= k < |front| && front[k] in good - {last};
    var here := if last in good then {|front|} else {};
    forall k
      ensures k in (set k | 0 <= k < |all| && all[k] in good) <==> k in before + here
    {
      assert 0 <= k < |front| ==> all[k] == front[k] && front[k] in front;
    }
    assert (set k | 0 <= k < |all| && all[k] in good) == before + here;
    assert good == (good - {last}) + if last in good then {last} else {};
  }

  /** The books that are assigned the key of the work. */
  function BooksOf(workOf: map<Key, Key>, work: Key): set<Key> {
    set b | b in workOf && workOf[b] == work
  }

  lemma BooksOfWork(naming: Naming, books: Books, authors: Authors, works: seq<WorkGroup>, workOf: map<Key, Key>,
                    target: string, i: nat)
    requires WorkDigestInjective(naming) && IsWorkTuple(works, naming, books, authors) && i < |works|
    requires Assigned(workOf, works, target)
    ensures BooksOf(workOf, WorkKey(works[i], target)) == SetOf(works[i].bookKeys)
  {
    forall b | b in workOf && workOf[b] == WorkKey(works[i], target)
      ensures b in works[i].bookKeys
    {
      BookOfWork(naming, books, authors, works, workOf, target, i, b);
    }
    forall b | b in works[i].bookKeys
      ensures b in BooksOf(workOf, WorkKey(works[i], target))
    {
      AssignedBook(works, workOf, target, i, b);
    }
  }

  lemma AssignedBook(works: seq<WorkGroup>, workOf: map<Key, Key>, target: string, i: nat, b: Key)
    requires i < |works| && b in works[i].bookKeys && Assigned(workOf, works, target)
    ensures b in BooksOf(workOf, WorkKey(works[i], target))
  {
    assert HasBook(works, b);
  }

  lemma BookOfWork(naming: Naming, books: Books, authors: Authors, works: seq<WorkGroup>, workOf: map<Key, Key>,
                   target: string, i: nat, b: Key)
    requires WorkDigestInjective(naming) && IsWorkTuple(works, naming, books, authors) && i < |works|
    requires Assigned(workOf, works, target) && b in workOf && workOf[b] == WorkKey(works[i], target)
    ensures b in works[i].bookKeys
  {
    assert HasBook(works, b);
    var j :| 0 <= j < |works| && b in works[j].bookKeys;
    assert IsWork(works[i], naming, books, authors) && IsWork(works[j], naming, books, authors);
    WorkKeysDiffer(naming, books, authors, works[i], works[j], target);
  }

  /** The places of the edges that point at the key. */
  function EdgesTo(rows: seq<Triple>, work: Key): set<int> {
    set k | 0 <= k < |rows| && rows[k].objectKey == work
  }

  /** A Work node counts as many instances as there are added edges pointing at it. */
  lemma InstancesCounted(targetNodes: seq<Node>, targetTriples: seq<Triple>, naming: Naming, nodes: seq<Node>,
                         triples: seq<Triple>, books: Books, authors: Authors, works: seq<WorkGroup>,
                         workOf: map<Key, Key>, target: string, decimal: nat -> string, i: nat)
    requires IsBuilt(targetNodes, targetTriples, naming, nodes, triples, works, workOf, target, decimal)
    requires WorkDigestInjective(naming) && IsWorkTuple(works, naming, books, authors) && i < |works|
    ensures |targetNodes| == |nodes| + |works| && "instance_count" in targetNodes[|nodes| + i].properties
    ensures |triples| <= |targetTriples|
    ensures targetNodes[|nodes| + i].properties["instance_count"] ==
      decimal(|EdgesTo(targetTriples[|triples|..], targetNodes[|nodes| + i].graphKey)|)
  {
    AddedParts(targetNodes, targetTriples, naming, nodes, triples, works, workOf, target, decimal, i);
    InstancesOfWork(naming, books, authors, works, workOf, target, i);
  }

  lemma InstancesOfWork(naming: Naming, books: Books, authors: Authors, works: seq<WorkGroup>, workOf: map<Key, Key>,
                        target: string, i: nat)
    requires WorkDigestInjective(naming) && IsWorkTuple(works, naming, books, authors) && i < |works|
    requires Assigned(workOf, works, target)
    ensures |EdgesTo(InstanceTriples(naming, SortedKeys(workOf.Keys), workOf, target), WorkKey(works[i], target))| ==
      |works[i].bookKeys|
  {
    EdgesToWork(naming, workOf, target, WorkKey(works[i], target));
    BooksOfWork(naming, books, authors, works, workOf, target, i);
    assert IsWork(works[i], naming, books, authors);
    BooksCounted(works[i], naming, books, authors);
  }

  lemma AddedParts(targetNodes: seq<Node>, targetTriples: seq<Triple>, naming: Naming, nodes: seq<Node>,
                   triples: seq<Triple>, works: seq<WorkGroup>, workOf: map<Key, Key>, target: string,
                   decimal: nat -> string, i: nat)
    requires IsBuilt(targetNodes, targetTriples, naming, nodes, triples, works, workOf, target, decimal) && i < |works|
    ensures |targetNodes| == |nodes| + |works| && |triples| <= |targetTriples|
    ensures targetNodes[|nodes| + i] == WorkNode(works[i], target, decimal(|works[i].bookKeys|))
    ensures targetTriples[|triples|..] == InstanceTriples(naming, SortedKeys(workOf.Keys), workOf, target)
  {
  }

  lemma BooksCounted(w: WorkGroup, naming: Naming, books: Books, authors: Authors)
    requires IsWork(w, naming, books, authors)
    ensures |SetOf(w.bookKeys)| == |w.bookKeys|
  {
  }

  lemma EdgesToWork(naming: Naming, workOf: map<Key, Key>, target: string, work: Key)
    ensures |EdgesTo(InstanceTriples(naming, SortedKeys(workOf.Keys), workOf, target), work)| == |BooksOf(workOf, work)|
  {
    var order := SortedKeys(workOf.Keys);
    var rows := InstanceTriples(naming, order, workOf, target);
    var places := set k | 0 <= k < |order| && order[k] in BooksOf(workOf, work);
    forall k | 0 <= k < |order|
      ensures rows[k].objectKey == work <==> order[k] in BooksOf(workOf, work)
    {
      assert order[k] in order;
    }
    assert EdgesTo(rows, work) == places;
    PlacesCount(order, BooksOf(workOf, work));
  }

  // ---------------------------------------------------------------- reading v1 back

  function ReadKey(k: Key, target: string): Key {
    if StartsWith(k.text, target + ":") then Key(V1_VERSION + ":" + k.text[|target| + 1..]) else k
  }

  function ReadNode(row: Node, target: string): Node {
    row.(graphVersion := V1_VERSION, graphKey := ReadKey(row.graphKey, target),
         properties := map p | p in row.properties ::
           if row.properties[p] == target then V1_VERSION else row.properties[p])
  }

  /** A node of the v1 graph that does not yet mention the new version. */
  ghost predicate PlainNode(row: Node, target: string) {
    && row.graphVersion == V1_VERSION && !StartsWith(row.graphKey.text, target + ":")
    && forall p :: p in row.properties ==> row.properties[p] != target
  }

  lemma KeyReadBackIff(before: Key, after: Key, target: string)
    requires IsV2Version(target) && Moved(before, after, target)
    ensures ReadKey(after, target) == before <==> !StartsWith(before.text, target + ":")
  {
    var prefix := target + ":";
    VersionsApart(before.text, target);
    if rest: string :| before.text == V1_VERSION + ":" + rest && after.text == target + ":" + rest {
      assert after.text == prefix + rest && after.text[..|prefix|] == prefix && after.text[|prefix|..] == rest;
    }
    VersionsApart(ReadKey(after, target).text, target);
  }

  lemma OneAt(s: string)
    requires StartsWith(s, V1_VERSION + ":")
    ensures |s| > 11 && s[11] == '1'
  {
    var prefix := V1_VERSION + ":";
    assert s[11] == s[..|prefix|][11] == prefix[11];
  }

  lemma TwoAt(s: string, target: string)
    requires IsV2Version(target) && StartsWith(s, target + ":")
    ensures |s| > 11 && s[11] == '2'
  {
    var prefix := target + ":";
    assert s[11] == s[..|prefix|][11] == prefix[11] == target[..13][11];
  }

  /** No text starts with both versions. */
  lemma VersionsApart(s: string, target: string)
    requires IsV2Version(target)
    ensures !(StartsWith(s, V1_VERSION + ":") && StartsWith(s, target + ":"))
  {
    if StartsWith(s, V1_VERSION + ":") {
      OneAt(s);
    }
    if StartsWith(s, target + ":") {
      TwoAt(s, target);
    }
  }

  lemma NodeReadBackIff(before: Node, after: Node, target: string)
    requires IsV2Version(target) && NodeCopied(before, after, target)
    ensures ReadNode(after, target) == before <==> PlainNode(before, target)
  {
    KeyReadBackIff(before.graphKey, after.graphKey, target);
    assert target != V1_VERSION by {
      assert V1_VERSION[11] == '1' && target[11] == target[..13][11] == '2';
    }
    assert ReadNode(after, target).properties == before.properties <==>
      (forall p :: p in before.properties ==> before.properties[p] != target);
  }

  /** The v1 nodes are read back from the v2 rows exactly when none of them already mentions the new version. */
  lemma NodesReadBackIff(targetNodes: seq<Node>, targetTriples: seq<Triple>, naming: Naming, nodes: seq<Node>,
                         triples: seq<Triple>, works: seq<WorkGroup>, workOf: map<Key, Key>, target: string,
                         decimal: nat -> string)
    requires IsBuilt(targetNodes, targetTriples, naming, nodes, triples, works, workOf, target, decimal)
    requires IsV2Version(target)
    ensures |nodes| <= |targetNodes|
    ensures seq(|nodes|, i requires 0 <= i < |nodes| => ReadNode(targetNodes[i], target)) == nodes <==>
      forall i :: 0 <= i < |nodes| ==> PlainNode(nodes[i], target)
  {
    RowsCopied(targetNodes, targetTriples, naming, nodes, triples, works, workOf, target, decimal);
    var read := seq(|nodes|, i requires 0 <= i < |nodes| => ReadNode(targetNodes[i], target));
    forall i | 0 <= i < |nodes|
      ensures read[i] == nodes[i] <==> PlainNode(nodes[i], target)
    {
      NodeReadBackIff(nodes[i], targetNodes[i], target);
    }
    if read == nodes {
      assert forall i :: 0 <= i < |nodes| ==> read[i] == nodes[i];
    }
  }

  /** A v1 triple is read back from its copy, but for the digest in its key, exactly when neither of its ends already
      carries the new version. */
  lemma TripleReadBackIff(targetNodes: seq<Node>, targetTriples: seq<Triple>, naming: Naming, nodes: seq<Node>,
                          triples: seq<Triple>, works: seq<WorkGroup>, workOf: map<Key, Key>, target: string,
                          decimal: nat -> string, i: nat)
    requires IsBuilt(targetNodes, targetTriples, naming, nodes, triples, works, workOf, target, decimal)
    requires IsV2Version(target) && i < |triples|
    ensures i < |targetTriples|
    ensures var row := targetTriples[i];
      Triple(triples[i].edgeKey, ReadKey(row.subjectKey, target), row.relation, ReadKey(row.objectKey, target), row.properties)
        == triples[i] <==>
      !StartsWith(triples[i].subjectKey.text, target + ":") && !StartsWith(triples[i].objectKey.text, target + ":")
  {
    RowsCopied(targetNodes, targetTriples, naming, nodes, triples, works, workOf, target, decimal);
    assert TripleCopied(naming, triples[i], targetTriples[i], target);
    KeyReadBackIff(triples[i].subjectKey, targetTriples[i].subjectKey, target);
    KeyReadBackIff(triples[i].objectKey, targetTriples[i].objectKey, target);
  }
}
