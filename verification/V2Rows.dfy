/** `build_rows`: the v2 rows are a copy of the v1 rows plus one Work node per work and one
    `INSTANCE_OF` edge per book. */
module V2Rows {
  import opened Keys
  import opened Components
  import opened TitleGroups
  import opened Works
  import opened WorkLaws

  const V1_VERSION := "lib-books-v1-20260810"
  const IDENTITY_RULE := "normalized-title-shared-author-v1"

  predicate StartsWith(s: string, prefix: string) {
    |prefix| <= |s| && s[..|prefix|] == prefix
  }

  predicate HasV1Prefix(k: Key) {
    StartsWith(k.text, V1_VERSION + ":")
  }

  /** `lib-books-v2-` followed by eight digits, as the command line requires. */
  predicate IsV2Version(target: string) {
    |target| == 21 && StartsWith(target, "lib-books-v2-") && forall i :: 13 <= i < 21 ==> '0' <= target[i] <= '9'
  }

  function RewriteKey(k: Key, target: string): Key {
    var prefix := V1_VERSION + ":";
    if HasV1Prefix(k) then Key(target + ":" + k.text[|prefix|..]) else k
  }

  /** A rewritten key is no longer a v1 key. */
  lemma RewrittenIsNotV1(k: Key, target: string)
    requires IsV2Version(target)
    ensures !HasV1Prefix(RewriteKey(k, target))
  {
    if HasV1Prefix(k) {
      var r := RewriteKey(k, target).text;
      assert r[11] == target[11] == target[..13][11] == "lib-books-v2-"[11] == '2';
      var prefix := V1_VERSION + ":";
      assert prefix[11] == '1';
      assert |prefix| > 11;
      if |r| >= |prefix| {
        assert r[..|prefix|][11] == '2';
      }
    }
  }

  lemma RewriteInjectiveOnV1(k: Key, l: Key, target: string)
    requires HasV1Prefix(k) && HasV1Prefix(l)
    requires RewriteKey(k, target) == RewriteKey(l, target)
    ensures k == l
  {
    var prefix := V1_VERSION + ":";
    var n := |target + ":"|;
    var a, b := RewriteKey(k, target).text, RewriteKey(l, target).text;
    assert a[n..] == k.text[|prefix|..] && b[n..] == l.text[|prefix|..];
    assert k.text == k.text[..|prefix|] + k.text[|prefix|..];
    assert l.text == l.text[..|prefix|] + l.text[|prefix|..];
  }

  ghost predicate RewriteInjectiveOn(keys: set<Key>, target: string) {
    forall k, l :: k in keys && l in keys && RewriteKey(k, target) == RewriteKey(l, target) ==> k == l
  }

  /** Exactly when rewriting keeps the keys of a v1 graph apart: no v1 key may already be there in its
      rewritten form. */
  lemma RewriteInjectiveIff(keys: set<Key>, target: string)
    requires IsV2Version(target)
    ensures RewriteInjectiveOn(keys, target) <==>
      forall k :: k in keys && HasV1Prefix(k) ==> RewriteKey(k, target) !in keys
  {
    if RewriteInjectiveOn(keys, target) {
      forall k | k in keys && HasV1Prefix(k)
        ensures RewriteKey(k, target) !in keys
      {
        RewrittenIsNotV1(k, target);
        var l := RewriteKey(k, target);
        assert RewriteKey(l, target) == l;
      }
    }
    if forall k :: k in keys && HasV1Prefix(k) ==> RewriteKey(k, target) !in keys {
      forall k, l | k in keys && l in keys && RewriteKey(k, target) == RewriteKey(l, target)
        ensures k == l
      {
        if HasV1Prefix(k) && HasV1Prefix(l) {
          RewriteInjectiveOnV1(k, l, target);
        }
      }
    }
  }

  /** A v1 key and its own rewritten form: two keys that are rewritten to the same one. */
  lemma RewriteCollides(k: Key, target: string)
    requires IsV2Version(target) && HasV1Prefix(k)
    ensures k != RewriteKey(k, target) && RewriteKey(RewriteKey(k, target), target) == RewriteKey(k, target)
    ensures !RewriteInjectiveOn({k, RewriteKey(k, target)}, target)
  {
    var keys := {k, RewriteKey(k, target)};
    RewrittenIsNotV1(k, target);
    assert HasV1Prefix(k) && RewriteKey(k, target) in keys;
    RewriteInjectiveIff(keys, target);
  }

  /** In particular, rewriting keeps apart keys that all carry the v1 prefix. */
  lemma RewriteInjectiveOnV1Keys(keys: set<Key>, target: string)
    requires forall k :: k in keys ==> HasV1Prefix(k)
    ensures RewriteInjectiveOn(keys, target)
  {
    forall k, l | k in keys && l in keys && RewriteKey(k, target) == RewriteKey(l, target)
      ensures k == l
    {
      RewriteInjectiveOnV1(k, l, target);
    }
  }

  // ---------------------------------------------------------------- rows

  function CopyNode(row: Node, target: string): Node {
    row.(graphVersion := target,
         graphKey := RewriteKey(row.graphKey, target),
         properties := map p | p in row.properties ::
           if row.properties[p] == V1_VERSION then target else row.properties[p])
  }

  /** `work_id.split(':', 1)[1]` */
  function AfterFirstColon(s: string): string {
    if s == "" then "" else if s[0] == ':' then s[1..] else AfterFirstColon(s[1..])
  }

  function WorkKey(work: WorkGroup, target: string): Key {
    Key(target + ":work:" + AfterFirstColon(work.workId))
  }

  function WorkNode(work: WorkGroup, target: string, count: string): Node {
    Node(Key(work.workId), WorkKey(work, target), target, "Work",
         map["title" := work.title, "normalized_title" := work.normalizedTitle.text,
             "instance_count" := count, "identity_rule" := IDENTITY_RULE])
  }

  function CopyTriple(naming: Naming, row: Triple, target: string): Triple {
    row.(subjectKey := RewriteKey(row.subjectKey, target),
         objectKey := RewriteKey(row.objectKey, target),
         edgeKey := Key("edge:" + naming.edgeDigest(target + ":" + row.edgeKey.text)))
  }

  function InstanceTriple(naming: Naming, book: Key, work: Key, target: string): Triple {
    var subject := RewriteKey(book, target);
    Triple(Key("edge:" + naming.edgeDigest(target + ":" + subject.text + ":INSTANCE_OF:" + work.text)),
           subject, "INSTANCE_OF", work, map["identity_rule" := IDENTITY_RULE])
  }

  /** The work key each book ends up with. */
  ghost predicate Assigned(workOf: map<Key, Key>, works: seq<WorkGroup>, target: string) {
    && (forall b {:trigger HasBook(works, b)} :: b in workOf <==> HasBook(works, b))
    && (forall i, b :: 0 <= i < |works| && b in works[i].bookKeys && b in workOf ==>
          workOf[b] == WorkKey(works[i], target))
  }

  function CopiedNodes(nodes: seq<Node>, target: string): seq<Node> {
    seq(|nodes|, i requires 0 <= i < |nodes| => CopyNode(nodes[i], target))
  }

  function WorkNodes(works: seq<WorkGroup>, target: string, decimal: nat -> string): seq<Node> {
    seq(|works|, i requires 0 <= i < |works| => WorkNode(works[i], target, decimal(|works[i].bookKeys|)))
  }

  function CopiedTriples(naming: Naming, triples: seq<Triple>, target: string): seq<Triple> {
    seq(|triples|, i requires 0 <= i < |triples| => CopyTriple(naming, triples[i], target))
  }

  function InstanceTriples(naming: Naming, order: seq<Key>, workOf: map<Key, Key>, target: string): seq<Triple>
    requires forall i :: 0 <= i < |order| ==> order[i] in workOf
  {
    seq(|order|, i requires 0 <= i < |order| => InstanceTriple(naming, order[i], workOf[order[i]], target))
  }

  method BuildNodes(nodes: seq<Node>, works: seq<WorkGroup>, target: string, decimal: nat -> string)
      returns (rows: seq<Node>, workOf: map<Key, Key>)
    requires Ordered(works)
    ensures rows == CopiedNodes(nodes, target) + WorkNodes(works, target, decimal)
    ensures Assigned(workOf, works, target)
  {
    rows := [];
    for i := 0 to |nodes|
      invariant rows == CopiedNodes(nodes, target)[..i]
    {
      rows := rows + [CopyNode(nodes[i], target)];
    }
    workOf := map[];
    ghost var copied := CopiedNodes(nodes, target);
    for i := 0 to |works|
      invariant rows == copied + WorkNodes(works, target, decimal)[..i]
      invariant Assigned(workOf, works[..i], target)
    {
      var work := works[i];
      rows := rows + [WorkNode(work, target, decimal(|work.bookKeys|))];
      workOf := AssignBooks(workOf, work, target, works, i);
    }
    assert works[..|works|] == works;
  }

  /** `for book_key in work.book_keys: work_key_by_book[book_key] = work_key` */
  method AssignBooks(before: map<Key, Key>, work: WorkGroup, target: string,
                     ghost works: seq<WorkGroup>, ghost i: nat) returns (workOf: map<Key, Key>)
    requires Ordered(works) && i < |works| && work == works[i]
    requires Assigned(before, works[..i], target)
    ensures Assigned(workOf, works[..i + 1], target)
  {
    workOf := before;
    for j := 0 to |work.bookKeys|
      invariant forall b :: b in workOf <==> b in before || b in work.bookKeys[..j]
      invariant forall b :: b in before && b !in work.bookKeys[..j] ==> workOf[b] == before[b]
      invariant forall b :: b in work.bookKeys[..j] ==> workOf[b] == WorkKey(work, target)
    {
      workOf := workOf[work.bookKeys[j] := WorkKey(work, target)];
      assert work.bookKeys[..j + 1] == work.bookKeys[..j] + [work.bookKeys[j]];
    }
    assert work.bookKeys[..|work.bookKeys|] == work.bookKeys;
    AssignedNext(before, workOf, works, i, target);
  }

  lemma AssignedNext(before: map<Key, Key>, after: map<Key, Key>, works: seq<WorkGroup>, i: nat, target: string)
    requires Ordered(works) && i < |works|
    requires Assigned(before, works[..i], target)
    requires forall b :: b in after <==> b in before || b in works[i].bookKeys
    requires forall b :: b in before && b !in works[i].bookKeys ==> after[b] == before[b]
    requires forall b :: b in works[i].bookKeys ==> after[b] == WorkKey(works[i], target)
    ensures Assigned(after, works[..i + 1], target)
  {
    assert works[..i + 1] == works[..i] + [works[i]];
    forall b
      ensures b in after <==> HasBook(works[..i + 1], b)
    {
      HasBookAppend(works[..i], [works[i]], b);
      assert HasBook([works[i]], b) <==> b in [works[i]][0].bookKeys;
    }
    forall j, b | 0 <= j < i + 1 && b in works[j].bookKeys && b in after
      ensures after[b] == WorkKey(works[j], target)
    {
      if j < i && b in works[i].bookKeys {
        SharedBookSameIndex(works, i, j, b);
      }
      if j < i {
        assert b in works[..i][j].bookKeys;
        assert HasBook(works[..i], b);
      }
    }
  }

  method BuildTriples(naming: Naming, triples: seq<Triple>, workOf: map<Key, Key>, target: string)
      returns (rows: seq<Triple>)
    ensures rows == CopiedTriples(naming, triples, target)
      + InstanceTriples(naming, SortedKeys(workOf.Keys), workOf, target)
  {
    rows := [];
    ghost var copied := CopiedTriples(naming, triples, target);
    for i := 0 to |triples|
      invariant rows == copied[..i]
    {
      rows := rows + [CopyTriple(naming, triples[i], target)];
    }
    assert rows == copied;
    var order := SortedKeys(workOf.Keys);
    rows := AppendInstances(naming, rows, order, workOf, target);
  }

  /** `for book_key, work_key in sorted(work_key_by_book.items())` */
  method AppendInstances(naming: Naming, copied: seq<Triple>, order: seq<Key>, workOf: map<Key, Key>, target: string)
      returns (rows: seq<Triple>)
    requires forall i :: 0 <= i < |order| ==> order[i] in workOf
    ensures rows == copied + InstanceTriples(naming, order, workOf, target)
  {
    rows := copied;
    for i := 0 to |order|
      invariant rows == copied + InstanceTriples(naming, order, workOf, target)[..i]
    {
      rows := rows + [InstanceTriple(naming, order[i], workOf[order[i]], target)];
    }
  }

  /** The rows are those the program promises: `workOf` gives each book the key of its work. */
  ghost predicate IsBuilt(targetNodes: seq<Node>, targetTriples: seq<Triple>, naming: Naming, nodes: seq<Node>,
                          triples: seq<Triple>, works: seq<WorkGroup>, workOf: map<Key, Key>, target: string,
                          decimal: nat -> string)
  {
    && Assigned(workOf, works, target)
    && targetNodes == CopiedNodes(nodes, target) + WorkNodes(works, target, decimal)
    && targetTriples == CopiedTriples(naming, triples, target)
         + InstanceTriples(naming, SortedKeys(workOf.Keys), workOf, target)
  }

  method BuildRows(naming: Naming, nodes: seq<Node>, triples: seq<Triple>, analysis: Analysis, target: string,
                   decimal: nat -> string)
      returns (targetNodes: seq<Node>, targetTriples: seq<Triple>, ghost workOf: map<Key, Key>)
    requires Ordered(analysis.works)
    ensures IsBuilt(targetNodes, targetTriples, naming, nodes, triples, analysis.works, workOf, target, decimal)
  {
    var byBook: map<Key, Key>;
    targetNodes, byBook := BuildNodes(nodes, analysis.works, target, decimal);
    targetTriples := BuildTriples(naming, triples, byBook, target);
    workOf := byBook;
  }

  /** The command: analyze, announce the counts, then build; the announced counts are exact. */
  method AnalyzeAndBuild(naming: Naming, nodes: seq<Node>, triples: seq<Triple>, target: string,
                         decimal: nat -> string)
      returns (analysis: Analysis, targetNodes: seq<Node>, targetTriples: seq<Triple>, ghost workOf: map<Key, Key>)
    ensures |targetNodes| == analysis.TargetNodes()
    ensures |targetTriples| == analysis.TargetTriples()
    ensures IsWorkTuple(analysis.works, naming, BookTable(nodes), AuthorTable(triples, BookTable(nodes)))
    ensures workOf.Keys == BookTable(nodes).Keys
    ensures IsBuilt(targetNodes, targetTriples, naming, nodes, triples, analysis.works, workOf, target, decimal)
  {
    analysis := Analyze(naming, nodes, triples);
    ghost var books := BookTable(nodes);
    ghost var authors := AuthorTable(triples, books);
    WorksPartitionBooks(naming, books, authors);
    targetNodes, targetTriples, workOf := BuildRows(naming, nodes, triples, analysis, target, decimal);
    AssignedKeys(workOf, analysis.works, naming, books, authors, target);
  }

  lemma WorksHoldBooks(works: seq<WorkGroup>, naming: Naming, books: Books, authors: Authors, b: Key)
    requires IsWorkTuple(works, naming, books, authors) && HasBook(works, b)
    ensures b in books
  {
    var i :| 0 <= i < |works| && b in works[i].bookKeys;
    assert IsWork(works[i], naming, books, authors);
    WorkIsComponent(works[i], naming, books, authors, b);
  }

  lemma AssignedKeys(workOf: map<Key, Key>, works: seq<WorkGroup>, naming: Naming, books: Books, authors: Authors,
                     target: string)
    requires IsWorkTuple(works, naming, books, authors) && Assigned(workOf, works, target)
    ensures workOf.Keys == books.Keys && |workOf| == |books|
  {
    forall b
      ensures b in workOf <==> b in books
    {
      assert HasBook(works, b) <==> b in workOf;
      if b in workOf {
        WorksHoldBooks(works, naming, books, authors, b);
      }
    }
    assert workOf.Keys == books.Keys;
    assert |workOf| == |workOf.Keys| && |books| == |books.Keys|;
  }

  // ---------------------------------------------------------------- what the copy keeps

  ghost predicate IsNodeKey(rows: seq<Node>, k: Key) {
    exists i :: 0 <= i < |rows| && rows[i].graphKey == k
  }

  /** A key of a v1 node becomes, rewritten, the key of a v2 node. */
  lemma CopiedKeyIsNode(nodes: seq<Node>, works: seq<WorkGroup>, target: string, decimal: nat -> string, k: Key)
    requires IsNodeKey(nodes, k)
    ensures IsNodeKey(CopiedNodes(nodes, target) + WorkNodes(works, target, decimal), RewriteKey(k, target))
  {
    var i :| 0 <= i < |nodes| && nodes[i].graphKey == k;
    var rows := CopiedNodes(nodes, target) + WorkNodes(works, target, decimal);
    assert rows[i] == CopyNode(nodes[i], target);
  }

  lemma {:induction false} BookIsNode(nodes: seq<Node>, b: Key)
    requires b in BookTable(nodes)
    ensures IsNodeKey(nodes, b)
  {
    var n := |nodes| - 1;
    if !(nodes[n].nodeLabel == "Book" && nodes[n].graphKey == b) {
      BookIsNode(nodes[..n], b);
      var i :| 0 <= i < n && nodes[..n][i].graphKey == b;
      assert nodes[i].graphKey == b;
    }
  }

  lemma WorkKeyIsNode(nodes: seq<Node>, works: seq<WorkGroup>, target: string, decimal: nat -> string, i: nat)
    requires i < |works|
    ensures IsNodeKey(CopiedNodes(nodes, target) + WorkNodes(works, target, decimal), WorkKey(works[i], target))
  {
    var rows := CopiedNodes(nodes, target) + WorkNodes(works, target, decimal);
    assert rows[|nodes| + i] == WorkNode(works[i], target, decimal(|works[i].bookKeys|));
  }

  /** No edge of the v2 graph dangles unless it dangled in v1. */
  lemma EndpointsKept(targetNodes: seq<Node>, targetTriples: seq<Triple>, naming: Naming, nodes: seq<Node>,
                      triples: seq<Triple>, works: seq<WorkGroup>, workOf: map<Key, Key>, target: string,
                      decimal: nat -> string, i: nat)
    requires IsBuilt(targetNodes, targetTriples, naming, nodes, triples, works, workOf, target, decimal)
    requires workOf.Keys == BookTable(nodes).Keys
    requires i < |targetTriples|
    ensures i < |triples| && IsNodeKey(nodes, triples[i].subjectKey) ==>
      IsNodeKey(targetNodes, targetTriples[i].subjectKey)
    ensures i < |triples| && IsNodeKey(nodes, triples[i].objectKey) ==>
      IsNodeKey(targetNodes, targetTriples[i].objectKey)
    ensures i >= |triples| ==>
      IsNodeKey(targetNodes, targetTriples[i].subjectKey) && IsNodeKey(targetNodes, targetTriples[i].objectKey)
  {
    if i < |triples| {
      assert targetTriples[i] == CopyTriple(naming, triples[i], target);
      if IsNodeKey(nodes, triples[i].subjectKey) {
        CopiedKeyIsNode(nodes, works, target, decimal, triples[i].subjectKey);
      }
      if IsNodeKey(nodes, triples[i].objectKey) {
        CopiedKeyIsNode(nodes, works, target, decimal, triples[i].objectKey);
      }
    } else {
      var order := SortedKeys(workOf.Keys);
      var b := order[i - |triples|];
      assert b in order;
      assert targetTriples[i] == InstanceTriple(naming, b, workOf[b], target);
      BookIsNode(nodes, b);
      CopiedKeyIsNode(nodes, works, target, decimal, b);
      assert HasBook(works, b);
      var w :| 0 <= w < |works| && b in works[w].bookKeys;
      WorkKeyIsNode(nodes, works, target, decimal, w);
    }
  }

  /** Row `i` is an `INSTANCE_OF` edge of the book. */
  ghost predicate InstanceEdgeOf(rows: seq<Triple>, i: nat, b: Key, target: string) {
    i < |rows| && rows[i].relation == "INSTANCE_OF" && rows[i].subjectKey == RewriteKey(b, target)
  }

  lemma {:induction false} StrictlySortedDistinct(q: seq<Key>, i: nat, j: nat)
    requires StrictlySorted(q) && i < |q| && j < |q| && q[i] == q[j]
    ensures i == j
  {
    if i < j {
      LessIrreflexive(q[i]);
    } else if j < i {
      LessIrreflexive(q[i]);
    }
  }

  lemma InstanceRow(rows: seq<Triple>, naming: Naming, triples: seq<Triple>, workOf: map<Key, Key>, target: string,
                    order: seq<Key>, k: nat)
    requires order == SortedKeys(workOf.Keys) && k < |order|
    requires forall i :: 0 <= i < |order| ==> order[i] in workOf
    requires rows == CopiedTriples(naming, triples, target) + InstanceTriples(naming, order, workOf, target)
    ensures |rows| == |triples| + |order|
    ensures rows[|triples| + k] == InstanceTriple(naming, order[k], workOf[order[k]], target)
  {
  }

  /** A v1 triple that is already an `INSTANCE_OF` edge of the book. */
  ghost predicate AlreadyInstance(triples: seq<Triple>, b: Key, target: string) {
    exists i :: 0 <= i < |triples| && triples[i].relation == "INSTANCE_OF" &&
      RewriteKey(triples[i].subjectKey, target) == RewriteKey(b, target)
  }

  /** No other book is rewritten to the same key. */
  ghost predicate AloneIn(keys: set<Key>, b: Key, target: string) {
    forall c :: c in keys && RewriteKey(c, target) == RewriteKey(b, target) ==> c == b
  }

  lemma InstanceEdgeUnique(rows: seq<Triple>, naming: Naming, triples: seq<Triple>, workOf: map<Key, Key>,
                           target: string, order: seq<Key>, k: nat, i: nat)
    requires order == SortedKeys(workOf.Keys) && k < |order|
    requires forall j :: 0 <= j < |order| ==> order[j] in workOf
    requires rows == CopiedTriples(naming, triples, target) + InstanceTriples(naming, order, workOf, target)
    requires !AlreadyInstance(triples, order[k], target) && AloneIn(workOf.Keys, order[k], target)
    requires InstanceEdgeOf(rows, i, order[k], target)
    ensures i == |triples| + k
  {
    if |triples| <= i {
      InstanceRow(rows, naming, triples, workOf, target, order, i - |triples|);
      StrictlySortedDistinct(order, i - |triples|, k);
    }
  }

  /** A v1 edge of the book stays one. */
  lemma CopiedInstanceEdge(rows: seq<Triple>, naming: Naming, triples: seq<Triple>, b: Key, target: string) returns (i: nat)
    requires |triples| <= |rows| && forall j :: 0 <= j < |triples| ==> rows[j] == CopyTriple(naming, triples[j], target)
    requires AlreadyInstance(triples, b, target)
    ensures i < |triples| && InstanceEdgeOf(rows, i, b, target)
  {
    i :| i < |triples| && triples[i].relation == "INSTANCE_OF" &&
      RewriteKey(triples[i].subjectKey, target) == RewriteKey(b, target);
  }

  /** A book rewritten to the same key adds an edge with that key. */
  lemma OtherBooksEdge(rows: seq<Triple>, naming: Naming, triples: seq<Triple>, workOf: map<Key, Key>,
                       target: string, order: seq<Key>, k: nat) returns (i: nat)
    requires order == SortedKeys(workOf.Keys) && k < |order|
    requires forall j :: 0 <= j < |order| ==> order[j] in workOf
    requires rows == CopiedTriples(naming, triples, target) + InstanceTriples(naming, order, workOf, target)
    requires !AloneIn(workOf.Keys, order[k], target)
    ensures InstanceEdgeOf(rows, i, order[k], target) && i != |triples| + k
  {
    var j := OtherPlace(workOf.Keys, target, order, k);
    i := |triples| + j;
    InstanceRow(rows, naming, triples, workOf, target, order, j);
  }

  lemma OtherPlace(keys: set<Key>, target: string, order: seq<Key>, k: nat) returns (j: nat)
    requires order == SortedKeys(keys) && k < |order| && !AloneIn(keys, order[k], target)
    ensures j < |order| && j != k && RewriteKey(order[j], target) == RewriteKey(order[k], target)
  {
    var c :| c in keys && RewriteKey(c, target) == RewriteKey(order[k], target) && c != order[k];
    assert c in order;
    j :| j < |order| && order[j] == c;
  }

  lemma CopiedRows(rows: seq<Triple>, naming: Naming, triples: seq<Triple>, added: seq<Triple>, target: string)
    requires rows == CopiedTriples(naming, triples, target) + added
    ensures |triples| <= |rows| && forall j :: 0 <= j < |triples| ==> rows[j] == CopyTriple(naming, triples[j], target)
  {
  }

  /** Every book has an `INSTANCE_OF` edge to the node of its work, and it is the only one with the book's v2 key exactly
      when no v1 edge already was one and no other book is rewritten to that key. */
  lemma OneInstanceEdge(targetNodes: seq<Node>, targetTriples: seq<Triple>, naming: Naming, nodes: seq<Node>,
                        triples: seq<Triple>, works: seq<WorkGroup>, workOf: map<Key, Key>, target: string,
                        decimal: nat -> string, b: Key) returns (e: nat)
    requires IsBuilt(targetNodes, targetTriples, naming, nodes, triples, works, workOf, target, decimal)
    requires b in workOf
    ensures InstanceEdgeOf(targetTriples, e, b, target) && targetTriples[e].objectKey == workOf[b]
    ensures (forall i: nat :: InstanceEdgeOf(targetTriples, i, b, target) ==> i == e) <==>
      !AlreadyInstance(triples, b, target) && AloneIn(workOf.Keys, b, target)
  {
    var order := SortedKeys(workOf.Keys);
    assert b in order;
    var k :| 0 <= k < |order| && order[k] == b;
    e := |triples| + k;
    InstanceRow(targetTriples, naming, triples, workOf, target, order, k);
    if !AlreadyInstance(triples, b, target) && AloneIn(workOf.Keys, b, target) {
      forall i: nat | InstanceEdgeOf(targetTriples, i, b, target)
        ensures i == e
      {
        InstanceEdgeUnique(targetTriples, naming, triples, workOf, target, order, k, i);
      }
    } else if AlreadyInstance(triples, b, target) {
      CopiedRows(targetTriples, naming, triples, InstanceTriples(naming, order, workOf, target), target);
      var i := CopiedInstanceEdge(targetTriples, naming, triples, b, target);
    } else {
      var i := OtherBooksEdge(targetTriples, naming, triples, workOf, target, order, k);
    }
  }

  /** The digest of a work tells works apart. */
  ghost predicate WorkDigestInjective(naming: Naming) {
    forall t, b, a, t', b', a' ::
      naming.workDigest(t, b, a) == naming.workDigest(t', b', a') ==> t == t' && b == b' && a == a'
  }

  lemma WorkKeyHoldsDigest(digest: string)
    ensures AfterFirstColon("work:" + digest) == digest
  {
    var s := "work:" + digest;
    assert s[1..] == "ork:" + digest;
    assert s[1..][1..] == "rk:" + digest;
    assert s[1..][1..][1..] == "k:" + digest;
    assert s[1..][1..][1..][1..] == ":" + digest;
    calc {
      AfterFirstColon(s);
      AfterFirstColon(s[1..]);
      AfterFirstColon(s[1..][1..]);
      AfterFirstColon(s[1..][1..][1..]);
      AfterFirstColon(s[1..][1..][1..][1..]);
      digest;
    }
  }

  lemma WorkKeysDiffer(naming: Naming, books: Books, authors: Authors, v: WorkGroup, w: WorkGroup, target: string)
    requires WorkDigestInjective(naming)
    requires IsWork(v, naming, books, authors) && IsWork(w, naming, books, authors)
    requires WorkKey(v, target) == WorkKey(w, target)
    ensures v.bookKeys == w.bookKeys
  {
    var dv := naming.workDigest(v.normalizedTitle, v.bookKeys, v.authorKeys);
    var dw := naming.workDigest(w.normalizedTitle, w.bookKeys, w.authorKeys);
    WorkKeyHoldsDigest(dv);
    WorkKeyHoldsDigest(dw);
    var n := |target + ":work:"|;
    assert WorkKey(v, target).text[n..] == dv && WorkKey(w, target).text[n..] == dw;
  }

  /** End to end: in the v2 graph two books point at the same Work node exactly when they have one
      normalized title and are linked by shared authors. */
  lemma SameWorkNodeIffLinked(naming: Naming, books: Books, authors: Authors, works: seq<WorkGroup>,
                              workOf: map<Key, Key>, target: string, b: Key, c: Key)
    requires WorkDigestInjective(naming)
    requires IsWorkTuple(works, naming, books, authors) && Assigned(workOf, works, target)
    requires workOf.Keys == books.Keys && b in books && c in books
    ensures workOf[b] == workOf[c] <==> LinkedByAuthors(naming, books, authors, b, c)
  {
    var i := FindWork(works, b);
    var j := FindWork(works, c);
    WorkHoldsLinked(works[i], naming, books, authors, b, c);
    assert workOf[b] == WorkKey(works[i], target) && workOf[c] == WorkKey(works[j], target);
    if workOf[b] == workOf[c] {
      WorkKeysDiffer(naming, books, authors, works[i], works[j], target);
    }
  }

  // ---------------------------------------------------------------- distinct keys

  ghost predicate DistinctNodes(rows: seq<Node>) {
    forall i, j :: 0 <= i < j < |rows| ==> rows[i].graphKey != rows[j].graphKey
  }

  function NodeKeys(nodes: seq<Node>): set<Key> {
    set i | 0 <= i < |nodes| :: nodes[i].graphKey
  }

  /** No v1 node is rewritten to the key of a Work node. */
  ghost predicate WorkKeysFree(nodes: seq<Node>, works: seq<WorkGroup>, target: string) {
    forall i, w :: 0 <= i < |nodes| && 0 <= w < |works| ==> RewriteKey(nodes[i].graphKey, target) != WorkKey(works[w], target)
  }

  lemma CopiedDistinctIff(nodes: seq<Node>, target: string)
    ensures DistinctNodes(CopiedNodes(nodes, target)) <==>
      DistinctNodes(nodes) && RewriteInjectiveOn(NodeKeys(nodes), target)
  {
    var copied := CopiedNodes(nodes, target);
    if DistinctNodes(copied) {
      forall i, j | 0 <= i < j < |nodes|
        ensures nodes[i].graphKey != nodes[j].graphKey
      {
        assert copied[i].graphKey != copied[j].graphKey;
      }
      forall k, l | k in NodeKeys(nodes) && l in NodeKeys(nodes) && RewriteKey(k, target) == RewriteKey(l, target)
        ensures k == l
      {
        var i :| 0 <= i < |nodes| && nodes[i].graphKey == k;
        var j :| 0 <= j < |nodes| && nodes[j].graphKey == l;
        assert copied[i].graphKey == copied[j].graphKey;
      }
    }
    if DistinctNodes(nodes) && RewriteInjectiveOn(NodeKeys(nodes), target) {
      forall i, j | 0 <= i < j < |copied|
        ensures copied[i].graphKey != copied[j].graphKey
      {
        assert nodes[i].graphKey in NodeKeys(nodes) && nodes[j].graphKey in NodeKeys(nodes);
      }
    }
  }

  lemma WorkNodesDistinct(naming: Naming, books: Books, authors: Authors, works: seq<WorkGroup>, target: string,
                          decimal: nat -> string)
    requires WorkDigestInjective(naming) && IsWorkTuple(works, naming, books, authors)
    ensures DistinctNodes(WorkNodes(works, target, decimal))
  {
    var rows := WorkNodes(works, target, decimal);
    forall i, j | 0 <= i < j < |rows|
      ensures rows[i].graphKey != rows[j].graphKey
    {
      assert rows[i] == WorkNode(works[i], target, decimal(|works[i].bookKeys|));
      assert rows[j] == WorkNode(works[j], target, decimal(|works[j].bookKeys|));
      if WorkKey(works[i], target) == WorkKey(works[j], target) {
        assert IsWork(works[i], naming, books, authors) && IsWork(works[j], naming, books, authors);
        WorkKeysDiffer(naming, books, authors, works[i], works[j], target);
        WorksDisjoint(works, naming, books, authors, i, j);
      }
    }
  }

  lemma WorksDisjoint(works: seq<WorkGroup>, naming: Naming, books: Books, authors: Authors, i: nat, j: nat)
    requires IsWorkTuple(works, naming, books, authors) && i < j < |works|
    ensures works[i].bookKeys != works[j].bookKeys
  {
    assert IsWork(works[i], naming, books, authors);
    if works[i].bookKeys == works[j].bookKeys {
      SharedBookSameIndex(works, i, j, works[i].bookKeys[0]);
    }
  }

  /** The v2 node keys are pairwise distinct exactly when the v1 keys are, rewriting keeps them apart, and none of them
      becomes the key of a Work node. */
  lemma DistinctNodesIff(targetNodes: seq<Node>, targetTriples: seq<Triple>, naming: Naming, nodes: seq<Node>,
                         triples: seq<Triple>, books: Books, authors: Authors, works: seq<WorkGroup>,
                         workOf: map<Key, Key>, target: string, decimal: nat -> string)
    requires IsBuilt(targetNodes, targetTriples, naming, nodes, triples, works, workOf, target, decimal)
    requires WorkDigestInjective(naming) && IsWorkTuple(works, naming, books, authors)
    ensures DistinctNodes(targetNodes) <==>
      DistinctNodes(nodes) && RewriteInjectiveOn(NodeKeys(nodes), target) && WorkKeysFree(nodes, works, target)
  {
    CopiedDistinctIff(nodes, target);
    WorkNodesDistinct(naming, books, authors, works, target, decimal);
    DistinctAppend(CopiedNodes(nodes, target), WorkNodes(works, target, decimal));
    assert WorkKeysFree(nodes, works, target) <==>
      KeysApart(CopiedNodes(nodes, target), WorkNodes(works, target, decimal)) by {
      ApartIffFree(nodes, works, target, decimal);
    }
  }

  ghost predicate KeysApart(a: seq<Node>, b: seq<Node>) {
    forall i, j :: 0 <= i < |a| && 0 <= j < |b| ==> a[i].graphKey != b[j].graphKey
  }

  lemma ApartIffFree(nodes: seq<Node>, works: seq<WorkGroup>, target: string, decimal: nat -> string)
    ensures WorkKeysFree(nodes, works, target) <==>
      KeysApart(CopiedNodes(nodes, target), WorkNodes(works, target, decimal))
  {
    var a, b := CopiedNodes(nodes, target), WorkNodes(works, target, decimal);
    if WorkKeysFree(nodes, works, target) {
      forall i, j | 0 <= i < |a| && 0 <= j < |b|
        ensures a[i].graphKey != b[j].graphKey
      {
        assert a[i] == CopyNode(nodes[i], target) && b[j] == WorkNode(works[j], target, decimal(|works[j].bookKeys|));
      }
    }
    if KeysApart(a, b) {
      forall i, w | 0 <= i < |nodes| && 0 <= w < |works|
        ensures RewriteKey(nodes[i].graphKey, target) != WorkKey(works[w], target)
      {
        assert a[i] == CopyNode(nodes[i], target) && b[w] == WorkNode(works[w], target, decimal(|works[w].bookKeys|));
        assert a[i].graphKey != b[w].graphKey;
      }
    }
  }

  lemma DistinctAppend(a: seq<Node>, b: seq<Node>)
    ensures DistinctNodes(a + b) <==> DistinctNodes(a) && DistinctNodes(b) && KeysApart(a, b)
  {
    var all := a + b;
    if DistinctNodes(all) {
      forall i, j | 0 <= i < j < |a|
        ensures a[i].graphKey != a[j].graphKey
      {
        assert all[i].graphKey != all[j].graphKey;
      }
      forall i, j | 0 <= i < j < |b|
        ensures b[i].graphKey != b[j].graphKey
      {
        assert all[|a| + i].graphKey != all[|a| + j].graphKey;
      }
      forall i, j | 0 <= i < |a| && 0 <= j < |b|
        ensures a[i].graphKey != b[j].graphKey
      {
        assert all[i].graphKey != all[|a| + j].graphKey;
      }
    }
  }

  // ---------------------------------------------------------------- distinct edge keys

  /** What an edge key is the digest of. */
  function CopiedSource(row: Triple, target: string): string {
    target + ":" + row.edgeKey.text
  }

  function InstanceSource(book: Key, work: Key, target: string): string {
    target + ":" + RewriteKey(book, target).text + ":INSTANCE_OF:" + work.text
  }

  ghost predicate EdgeDigestInjective(naming: Naming) {
    forall s, t :: naming.edgeDigest(s) == naming.edgeDigest(t) ==> s == t
  }

  ghost predicate WorkDigestLength(naming: Naming, n: nat) {
    forall t, b, a :: |naming.workDigest(t, b, a)| == n
  }

  lemma SameTail(a: string, b: string, x: string, y: string)
    requires a + x == b + y && |x| == |y|
    ensures a == b && x == y
  {
    assert a == (a + x)[..|a|] && b == (b + y)[..|a|];
    assert x == (a + x)[|a|..] && y == (b + y)[|a|..];
  }

  lemma InstanceSourceReadable(b: Key, c: Key, v: Key, w: Key, target: string)
    requires |v.text| == |w.text| && InstanceSource(b, v, target) == InstanceSource(c, w, target)
    ensures RewriteKey(b, target) == RewriteKey(c, target) && v == w
  {
    var x, y := ":INSTANCE_OF:" + v.text, ":INSTANCE_OF:" + w.text;
    var p, q := RewriteKey(b, target).text, RewriteKey(c, target).text;
    assert InstanceSource(b, v, target) == (target + ":" + p) + x;
    assert InstanceSource(c, w, target) == (target + ":" + q) + y;
    SameTail(target + ":" + p, target + ":" + q, x, y);
    assert p == (target + ":" + p)[|target + ":"|..] && q == (target + ":" + q)[|target + ":"|..];
    assert v.text == x[|":INSTANCE_OF:"|..] && w.text == y[|":INSTANCE_OF:"|..];
  }

  lemma CopiedIsNoInstance(row: Triple, b: Key, w: Key, target: string)
    requires StartsWith(row.edgeKey.text, "edge:") && HasV1Prefix(b) && StartsWith(target, "lib-books-v2-")
    ensures CopiedSource(row, target) != InstanceSource(b, w, target)
  {
    var n := |target + ":"|;
    var p := RewriteKey(b, target).text;
    assert p[0] == target[0] == target[..13][0] == 'l';
    assert row.edgeKey.text[0] == row.edgeKey.text[..5][0] == 'e';
    assert CopiedSource(row, target)[n] == 'e';
    assert InstanceSource(b, w, target) == (target + ":") + (p + ":INSTANCE_OF:" + w.text);
    assert InstanceSource(b, w, target)[n] == (p + ":INSTANCE_OF:" + w.text)[0] == 'l';
  }

  ghost predicate DistinctEdges(rows: seq<Triple>) {
    forall i, j :: 0 <= i < j < |rows| ==> rows[i].edgeKey != rows[j].edgeKey
  }

  lemma EdgeKeySame(naming: Naming, s: string, t: string)
    requires EdgeDigestInjective(naming) && Key("edge:" + naming.edgeDigest(s)) == Key("edge:" + naming.edgeDigest(t))
    ensures s == t
  {
    var a, b := naming.edgeDigest(s), naming.edgeDigest(t);
    assert a == ("edge:" + a)[5..] && b == ("edge:" + b)[5..];
  }

  lemma CopiedSourceReadable(r: Triple, s: Triple, target: string)
    requires CopiedSource(r, target) == CopiedSource(s, target)
    ensures r.edgeKey == s.edgeKey
  {
    var n := |target + ":"|;
    assert r.edgeKey.text == CopiedSource(r, target)[n..] && s.edgeKey.text == CopiedSource(s, target)[n..];
  }

  lemma AssignedKeyLength(works: seq<WorkGroup>, naming: Naming, books: Books, authors: Authors, workOf: map<Key, Key>,
                          target: string, n: nat, b: Key)
    requires WorkDigestLength(naming, n) && IsWorkTuple(works, naming, books, authors)
    requires Assigned(workOf, works, target) && b in workOf
    ensures |workOf[b].text| == |target| + 6 + n
  {
    assert HasBook(works, b);
    var i :| 0 <= i < |works| && b in works[i].bookKeys;
    assert IsWork(works[i], naming, books, authors);
    WorkKeyHoldsDigest(naming.workDigest(works[i].normalizedTitle, works[i].bookKeys, works[i].authorKeys));
  }

  /** With collision-free digests of one length, v1 books and v1 edge keys in their usual forms, distinct v1 edge keys
      give distinct v2 edge keys, the new `INSTANCE_OF` edges included. */
  lemma DistinctEdgesKept(targetNodes: seq<Node>, targetTriples: seq<Triple>, naming: Naming, nodes: seq<Node>,
                          triples: seq<Triple>, books: Books, authors: Authors, works: seq<WorkGroup>,
                          workOf: map<Key, Key>, target: string, decimal: nat -> string, n: nat)
    requires IsBuilt(targetNodes, targetTriples, naming, nodes, triples, works, workOf, target, decimal)
    requires EdgeDigestInjective(naming) && WorkDigestLength(naming, n) && IsWorkTuple(works, naming, books, authors)
    requires StartsWith(target, "lib-books-v2-") && forall b :: b in workOf ==> HasV1Prefix(b)
    requires forall i :: 0 <= i < |triples| ==> StartsWith(triples[i].edgeKey.text, "edge:")
    requires DistinctEdges(triples)
    ensures DistinctEdges(targetTriples)
  {
    var order := SortedKeys(workOf.Keys);
    forall i, j | 0 <= i < j < |targetTriples|
      ensures targetTriples[i].edgeKey != targetTriples[j].edgeKey
    {
      EdgeSource(targetTriples, naming, triples, workOf, target, order, i);
      EdgeSource(targetTriples, naming, triples, workOf, target, order, j);
      if targetTriples[i].edgeKey == targetTriples[j].edgeKey {
        EdgeKeySame(naming, SourceAt(triples, order, workOf, target, i), SourceAt(triples, order, workOf, target, j));
        SourcesDiffer(naming, triples, books, authors, works, workOf, target, n, order, i, j);
      }
    }
  }

  lemma SourcesDiffer(naming: Naming, triples: seq<Triple>, books: Books, authors: Authors, works: seq<WorkGroup>,
                      workOf: map<Key, Key>, target: string, n: nat, order: seq<Key>, i: nat, j: nat)
    requires WorkDigestLength(naming, n) && IsWorkTuple(works, naming, books, authors) && Assigned(workOf, works, target)
    requires StartsWith(target, "lib-books-v2-") && forall b :: b in workOf ==> HasV1Prefix(b)
    requires forall k :: 0 <= k < |triples| ==> StartsWith(triples[k].edgeKey.text, "edge:")
    requires DistinctEdges(triples) && StrictlySorted(order) && forall k :: 0 <= k < |order| ==> order[k] in workOf
    requires i < j < |triples| + |order|
    ensures SourceAt(triples, order, workOf, target, i) != SourceAt(triples, order, workOf, target, j)
  {
    if SourceAt(triples, order, workOf, target, i) == SourceAt(triples, order, workOf, target, j) {
      if j < |triples| {
        CopiedSourceReadable(triples[i], triples[j], target);
      } else {
        var c := order[j - |triples|];
        if i < |triples| {
          CopiedIsNoInstance(triples[i], c, workOf[c], target);
        } else {
          var b := order[i - |triples|];
          AssignedKeyLength(works, naming, books, authors, workOf, target, n, b);
          AssignedKeyLength(works, naming, books, authors, workOf, target, n, c);
          InstanceSourceReadable(b, c, workOf[b], workOf[c], target);
          RewriteInjectiveOnV1(b, c, target);
          StrictlySortedDistinct(order, i - |triples|, j - |triples|);
        }
      }
    }
  }

  function SourceAt(triples: seq<Triple>, order: seq<Key>, workOf: map<Key, Key>, target: string, i: nat): string
    requires i < |triples| + |order| && forall k :: 0 <= k < |order| ==> order[k] in workOf
  {
    if i < |triples| then CopiedSource(triples[i], target)
    else InstanceSource(order[i - |triples|], workOf[order[i - |triples|]], target)
  }

  lemma EdgeSource(rows: seq<Triple>, naming: Naming, triples: seq<Triple>, workOf: map<Key, Key>, target: string,
                   order: seq<Key>, i: nat)
    requires order == SortedKeys(workOf.Keys) && forall k :: 0 <= k < |order| ==> order[k] in workOf
    requires rows == CopiedTriples(naming, triples, target) + InstanceTriples(naming, order, workOf, target)
    requires i < |rows|
    ensures |rows| == |triples| + |order|
    ensures rows[i].edgeKey == Key("edge:" + naming.edgeDigest(SourceAt(triples, order, workOf, target, i)))
  {
    if i < |triples| {
      assert rows[i] == CopyTriple(naming, triples[i], target);
    } else {
      InstanceRow(rows, naming, triples, workOf, target, order, i - |triples|);
    }
  }
}
