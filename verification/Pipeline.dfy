/** The three builders composed: what the first guarantees makes most blockers of the later two unreachable. */
module Pipeline {
  import opened Keys
  import opened Colons
  import opened Texts
  import opened BookRecords
  import opened GraphStore
  import opened GraphPlan
  import opened GraphPlanLaws
  import opened CatalogRows
  import opened CatalogLaws
  import opened Embedding
  import opened VectorRecords
  import opened VectorContent

  // ---------------------------------------------------------------- a built graph as catalog input

  /** What the catalog builder needs from a graph: nodes under their own keys, triples with both ends. */
  ghost predicate WellBuilt(c: Scheme, g: Graph) {
    && (forall k {:trigger k in g.nodes} :: k in g.nodes ==>
          g.nodes[k].graphKey == k == GraphKey(c, g.nodes[k].label_, g.nodes[k].entityId))
    && Grounded(g)
  }

  lemma PlanIsWellBuilt(c: Scheme, batch: Batch, recordDigest: RecordDigest, files: seq<CsvFile>)
    ensures WellBuilt(c, PlanGraph(c, batch, recordDigest, files))
  {
    TriplesHaveBothEnds(c, batch, recordDigest, files);
    var log := PlanOps(c, batch, Summaries(recordDigest, files), IdentifiedRecords(recordDigest, files));
    forall k | k in ApplyAll(c, EMPTY, log).nodes
      ensures var n := ApplyAll(c, EMPTY, log).nodes[k]; n.graphKey == k == GraphKey(c, n.label_, n.entityId)
    {
      NodeIffAdded(c, log, k);
    }
  }

  lemma {:induction false} NodeMapOf(nodes: seq<GraphNode>, k: Key)
    ensures k in NodeMap(nodes) <==> exists i :: 0 <= i < |nodes| && nodes[i].graphKey == k
    ensures k in NodeMap(nodes) ==> NodeMap(nodes)[k] in nodes && NodeMap(nodes)[k].graphKey == k
  {
    if nodes != [] {
      var n := |nodes| - 1;
      NodeMapOf(nodes[..n], k);
      assert nodes == nodes[..n] + [nodes[n]];
      if i :| 0 <= i < |nodes| && nodes[i].graphKey == k {
        assert i < n ==> nodes[..n][i] == nodes[i];
      }
    }
  }

  lemma KeyOrderMember(g: Graph, k: Key)
    requires k in g.nodes
    ensures g.nodes[k] in InKeyOrder(g.nodes)
  {
    var keys := SortedKeys(g.nodes.Keys);
    assert k in keys;
    var i :| 0 <= i < |keys| && keys[i] == k;
    assert InKeyOrder(g.nodes)[i] == g.nodes[k];
  }

  lemma KeyOrderOnly(c: Scheme, g: Graph, node: GraphNode)
    requires WellBuilt(c, g) && node in InKeyOrder(g.nodes)
    ensures node.graphKey in g.nodes && g.nodes[node.graphKey] == node
  {
    var keys := SortedKeys(g.nodes.Keys);
    var i :| 0 <= i < |keys| && InKeyOrder(g.nodes)[i] == node;
    assert keys[i] in keys;
  }

  lemma NodeMapRestored(c: Scheme, g: Graph)
    requires WellBuilt(c, g)
    ensures NodeMap(InKeyOrder(g.nodes)) == g.nodes
  {
    var nodes := InKeyOrder(g.nodes);
    forall k
      ensures k in NodeMap(nodes) <==> k in g.nodes
      ensures k in NodeMap(nodes) ==> NodeMap(nodes)[k] == g.nodes[k]
    {
      NodeMapOf(nodes, k);
      if k in NodeMap(nodes) {
        KeyOrderOnly(c, g, NodeMap(nodes)[k]);
      }
      if k in g.nodes {
        KeyOrderMember(g, k);
        var i :| 0 <= i < |nodes| && nodes[i] == g.nodes[k];
        assert g.nodes[k].graphKey == k;
      }
    }
  }

  // ---------------------------------------------------------------- distinct identifiers

  ghost predicate DistinctIds(books: seq<GraphNode>) {
    forall i, j :: 0 <= i < j < |books| ==> books[i].entityId != books[j].entityId
  }

  ghost predicate Lacks(books: seq<GraphNode>, entityId: string) {
    forall i :: 0 <= i < |books| ==> books[i].entityId != entityId
  }

  lemma {:induction false} InsertLacks(book: GraphNode, sorted: seq<GraphNode>, entityId: string)
    requires Lacks(sorted, entityId) && book.entityId != entityId
    ensures Lacks(InsertBook(book, sorted), entityId)
  {
    if sorted != [] && !Less(Key(book.entityId), Key(sorted[0].entityId)) {
      InsertLacks(book, sorted[1..], entityId);
    }
  }

  lemma {:induction false} InsertDistinct(book: GraphNode, sorted: seq<GraphNode>)
    requires DistinctIds(sorted) && Lacks(sorted, book.entityId)
    ensures DistinctIds(InsertBook(book, sorted))
  {
    if sorted != [] && !Less(Key(book.entityId), Key(sorted[0].entityId)) {
      InsertDistinct(book, sorted[1..]);
      InsertLacks(book, sorted[1..], sorted[0].entityId);
    }
  }

  /** No two book nodes of the list share an identifier. */
  ghost predicate DistinctBooks(nodes: seq<GraphNode>) {
    forall i, j :: 0 <= i < j < |nodes| && nodes[i].label_ == BookNode && nodes[j].label_ == BookNode ==>
      nodes[i].entityId != nodes[j].entityId
  }

  lemma {:induction false} SortedDistinct(nodes: seq<GraphNode>)
    requires DistinctBooks(nodes)
    ensures DistinctIds(SortedBooks(nodes))
  {
    if nodes != [] {
      var n := |nodes| - 1;
      SortedDistinct(nodes[..n]);
      if nodes[n].label_ == BookNode {
        var before := SortedBooks(nodes[..n]);
        forall i | 0 <= i < |before|
          ensures before[i].entityId != nodes[n].entityId
        {
          SortedBooksMembers(nodes[..n], before[i]);
          var j :| 0 <= j < n && nodes[..n][j] == before[i];
          assert nodes[j] == before[i];
        }
        InsertDistinct(nodes[n], before);
      }
    }
  }

  lemma KeyOrderDistinct(c: Scheme, g: Graph)
    requires WellBuilt(c, g)
    ensures DistinctBooks(InKeyOrder(g.nodes))
  {
    var nodes := InKeyOrder(g.nodes);
    var keys := SortedKeys(g.nodes.Keys);
    forall i, j | 0 <= i < j < |nodes| && nodes[i].label_ == BookNode && nodes[j].label_ == BookNode
      ensures nodes[i].entityId != nodes[j].entityId
    {
      assert keys[i] in keys && keys[j] in keys;
      assert Less(keys[i], keys[j]);
      LessAsymmetric(keys[i], keys[j]);
      assert keys[i] == GraphKey(c, BookNode, nodes[i].entityId) && keys[j] == GraphKey(c, BookNode, nodes[j].entityId);
    }
  }

  lemma {:induction false} KeptMembers(rules: Rules, books: seq<GraphNode>)
    ensures forall i :: 0 <= i < |Kept(rules, books)| ==> Kept(rules, books)[i] in books && Publishable(rules, Kept(rules, books)[i])
  {
    if books != [] {
      var n := |books| - 1;
      KeptMembers(rules, books[..n]);
      assert books == books[..n] + [books[n]];
    }
  }

  lemma {:induction false} KeptDistinct(rules: Rules, books: seq<GraphNode>)
    requires DistinctIds(books)
    ensures DistinctIds(Kept(rules, books))
  {
    if books != [] {
      var n := |books| - 1;
      KeptDistinct(rules, books[..n]);
      KeptMembers(rules, books[..n]);
      var before := Kept(rules, books[..n]);
      forall i | 0 <= i < |before|
        ensures before[i].entityId != books[n].entityId
      {
        var j :| 0 <= j < n && books[..n][j] == before[i];
        assert books[j] == before[i];
      }
    }
  }

  // ---------------------------------------------------------------- counting the published books

  function PublishedKeys(rules: Rules, nodes: map<Key, GraphNode>): set<Key> {
    set k | k in nodes && nodes[k].label_ == BookNode && Publishable(rules, nodes[k])
  }

  lemma {:induction false} KeptIsCount(rules: Rules, books: seq<GraphNode>, test: Test)
    requires forall b :: test(b) <==> Publishable(rules, b)
    ensures |Kept(rules, books)| == Count(test, books)
  {
    if books != [] {
      KeptIsCount(rules, books[..|books| - 1], test);
    }
  }

  function Passing(m: map<Key, GraphNode>, keys: seq<Key>, test: Test): set<Key> {
    set k | k in keys && k in m && test(m[k])
  }

  function CountKeys(m: map<Key, GraphNode>, keys: seq<Key>, test: Test): nat {
    if keys == [] then 0
    else
      var last := keys[|keys| - 1];
      CountKeys(m, keys[..|keys| - 1], test) + if last in m && test(m[last]) then 1 else 0
  }

  ghost predicate IsAt(m: map<Key, GraphNode>, k: Key, node: GraphNode) {
    k in m && node == m[k]
  }

  ghost predicate ListsNodes(m: map<Key, GraphNode>, keys: seq<Key>, nodes: seq<GraphNode>) {
    |keys| == |nodes| && forall i :: 0 <= i < |keys| ==> IsAt(m, keys[i], nodes[i])
  }

  lemma {:induction false} CountIsCountKeys(m: map<Key, GraphNode>, keys: seq<Key>, nodes: seq<GraphNode>, test: Test)
    requires ListsNodes(m, keys, nodes)
    ensures Count(test, nodes) == CountKeys(m, keys, test)
  {
    if keys != [] {
      var n := |keys| - 1;
      assert IsAt(m, keys[n], nodes[n]);
      assert forall i :: 0 <= i < n ==> IsAt(m, keys[..n][i], nodes[..n][i]);
      CountIsCountKeys(m, keys[..n], nodes[..n], test);
    }
  }

  lemma PassingNext(m: map<Key, GraphNode>, keys: seq<Key>, last: Key, test: Test)
    requires last !in keys
    ensures |Passing(m, keys + [last], test)| == |Passing(m, keys, test)| + if last in m && test(m[last]) then 1 else 0
  {
    assert Passing(m, keys + [last], test) ==
      Passing(m, keys, test) + if last in m && test(m[last]) then {last} else {};
  }

  lemma {:induction false} CountKeysIsPassing(m: map<Key, GraphNode>, keys: seq<Key>, test: Test)
    requires StrictlySorted(keys)
    ensures CountKeys(m, keys, test) == |Passing(m, keys, test)|
  {
    if keys != [] {
      var n := |keys| - 1;
      CountKeysIsPassing(m, keys[..n], test);
      forall i | 0 <= i < n
        ensures keys[i] != keys[n]
      {
        LessAsymmetric(keys[i], keys[n]);
      }
      assert keys == keys[..n] + [keys[n]];
      PassingNext(m, keys[..n], keys[n], test);
    }
  }

  lemma KeptCount(rules: Rules, nodes: map<Key, GraphNode>)
    ensures |Kept(rules, SortedBooks(InKeyOrder(nodes)))| == |PublishedKeys(rules, nodes)|
  {
    var keys := SortedKeys(nodes.Keys);
    var listed := InKeyOrder(nodes);
    var test: Test := (b: GraphNode) => Publishable(rules, b);
    var both: Test := (b: GraphNode) => b.label_ == BookNode && test(b);
    KeptIsCount(rules, SortedBooks(listed), test);
    SortedBooksCount(test, listed);
    forall i | 0 <= i < |keys|
      ensures IsAt(nodes, keys[i], listed[i])
    {
      assert keys[i] in keys;
    }
    CountIsCountKeys(nodes, keys, listed, both);
    CountKeysIsPassing(nodes, keys, both);
    assert Passing(nodes, keys, both) == PublishedKeys(rules, nodes);
  }

  // ---------------------------------------------------------------- every row embeds

  /** The two scripts agree on white space, normalization keeps a printed character, digests are hexadecimal and the
      availability date was written in the format it is read in. */
  ghost predicate Compatible(rules: Rules, tools: Tools, availableFrom: string) {
    && rules.space == tools.space
    && (forall s :: Inked(tools.space, s) ==> Inked(tools.space, tools.normalize(s)))
    && (forall row {:trigger rules.rowDigest(row)} :: IsSha256(rules.rowDigest(row)))
    && tools.epoch(availableFrom).Seconds?
    && InRange(tools.bucket) && IsRoot(tools.root)
  }

  lemma RowEmbeds(rules: Rules, tools: Tools, availableFrom: string, row: CatalogRow)
    requires Compatible(rules, tools, availableFrom) && row.availableFrom == availableFrom
    requires Inked(tools.space, row.title)
    ensures Strip(tools.space, DocumentText(tools, row)) != ""
    ensures CanEmbed(tools, row)
  {
    var text := DocumentText(tools, row);
    InkInPart(tools.space, tools.normalize(row.title),
              "\n" + JoinNames(tools, row.keywords) + "\n" + NormalField(tools, row.summary));
    StripInk(tools.space, text);
    assert |text| >= 2;
    EmptyIffShort(text, tools.bucket, tools.root);
  }

  lemma {:induction false} IndexHolds(rows: seq<IndexRow>, id: Key, hash: string)
    requires forall i :: 0 <= i < |rows| && rows[i].externalId == id ==> rows[i].contentHash == hash
    requires exists i :: 0 <= i < |rows| && rows[i].externalId == id
    ensures id in IndexMap(rows) && IndexMap(rows)[id].contentHash == hash
  {
    var n := |rows| - 1;
    if rows[n].externalId != id {
      var i :| 0 <= i < |rows| && rows[i].externalId == id;
      assert rows[..n][i] == rows[i];
      forall k | 0 <= k < n && rows[..n][k].externalId == id
        ensures rows[..n][k].contentHash == hash
      {
        assert rows[..n][k] == rows[k];
      }
      IndexHolds(rows[..n], id, hash);
    }
  }

  /** A catalog row that meets no obstacle unless its identifier was seen. */
  ghost predicate Smooth(tools: Tools, index: map<Key, IndexRow>, row: CatalogRow) {
    && row.externalId in index && IsSha256(index[row.externalId].contentHash)
    && Strip(tools.space, DocumentText(tools, row)) != "" && CanEmbed(tools, row)
  }

  function Ids(rows: seq<CatalogRow>): set<Key> {
    if rows == [] then {} else Ids(rows[..|rows| - 1]) + {rows[|rows| - 1].externalId}
  }

  lemma {:induction false} NotAmongIds(rows: seq<CatalogRow>, id: Key)
    requires forall i :: 0 <= i < |rows| ==> rows[i].externalId != id
    ensures id !in Ids(rows)
  {
    if rows != [] {
      NotAmongIds(rows[..|rows| - 1], id);
    }
  }

  lemma {:induction false} SmoothRun(tools: Tools, version: string, index: map<Key, IndexRow>, rows: seq<CatalogRow>)
    requires DigestsDistinct(tools) && ColonFree(version)
    requires forall i :: 0 <= i < |rows| ==> Smooth(tools, index, rows[i])
    requires forall i, j :: 0 <= i < j < |rows| ==> rows[i].externalId != rows[j].externalId
    ensures Run(tools, version, index, rows).blockers == []
    ensures Run(tools, version, index, rows).seenIds == Ids(rows)
  {
    if rows != [] {
      var n := |rows| - 1;
      SmoothRun(tools, version, index, rows[..n]);
      RunSound(tools, version, index, rows[..n]);
      NotAmongIds(rows[..n], rows[n].externalId);
      assert Smooth(tools, index, rows[n]);
      FreshVectorId(tools, version, Run(tools, version, index, rows[..n]), rows[n],
                    index[rows[n].externalId].contentHash);
    }
  }

  lemma AlignedRowsAreSmooth(rules: Rules, tools: Tools, availableFrom: string, rows: Rows, books: seq<GraphNode>, i: nat)
    requires Compatible(rules, tools, availableFrom) && Aligned(rules, rows, books) && DistinctIds(books)
    requires i < |books| && Publishable(rules, books[i]) && rows.catalog[i].availableFrom == availableFrom
    ensures Smooth(tools, IndexMap(rows.index), rows.catalog[i])
  {
    var row := rows.catalog[i];
    assert AlignedAt(rules, row, rows.details[i], rows.index[i], books[i]);
    forall k | 0 <= k < |rows.index| && rows.index[k].externalId == row.externalId
      ensures k == i
    {
      assert rows.catalog[k].externalId == rows.index[k].externalId;
      assert Key(books[k].entityId) == Key(books[i].entityId);
    }
    IndexHolds(rows.index, row.externalId, rules.rowDigest(row));
    TitleIsInked(rules, books[i]);
    RowEmbeds(rules, tools, availableFrom, row);
  }

  lemma TitleIsInked(rules: Rules, book: GraphNode)
    requires Publishable(rules, book)
    ensures Inked(rules.space, Name(rules, book.properties, TitleField))
  {
    var p := book.properties;
    var raw := if TitleField !in p then "" else if p[TitleField].Text? then p[TitleField].text else rules.show(p[TitleField]);
    assert Name(rules, p, TitleField) == Strip(rules.space, raw);
    StripInk(rules.space, raw);
  }

  /** Aligned tables of publishable books with distinct identifiers become vectors without a single blocker. */
  lemma AlignedTablesRun(rules: Rules, tools: Tools, availableFrom: string, version: string, rows: Rows,
                         books: seq<GraphNode>)
    requires Compatible(rules, tools, availableFrom) && DigestsDistinct(tools) && ColonFree(version)
    requires Aligned(rules, rows, books) && DistinctIds(books)
    requires forall i :: 0 <= i < |books| ==> Publishable(rules, books[i])
    requires forall row :: row in rows.catalog ==> row.availableFrom == availableFrom
    ensures Run(tools, version, IndexMap(rows.index), rows.catalog).blockers == []
  {
    var index := IndexMap(rows.index);
    forall i | 0 <= i < |rows.catalog|
      ensures Smooth(tools, index, rows.catalog[i])
    {
      assert rows.catalog[i] in rows.catalog;
      AlignedRowsAreSmooth(rules, tools, availableFrom, rows, books, i);
    }
    forall i, j | 0 <= i < j < |rows.catalog|
      ensures rows.catalog[i].externalId != rows.catalog[j].externalId
    {
      assert AlignedAt(rules, rows.catalog[i], rows.details[i], rows.index[i], books[i]);
      assert AlignedAt(rules, rows.catalog[j], rows.details[j], rows.index[j], books[j]);
    }
    SmoothRun(tools, version, index, rows.catalog);
  }

  /** The catalog output of a graph plan. */
  function CatalogOf(rules: Rules, graphVersion: string, availableFrom: string, g: Graph): Output {
    OutputOf(rules, graphVersion, availableFrom, NodeMap(InKeyOrder(g.nodes)), InKeyOrder(g.triples),
             SortedBooks(InKeyOrder(g.nodes)))
  }

  /** Rows built from a graph plan: no object is missing, and there is one row for each publishable book node. */
  lemma CatalogOfPlan(c: Scheme, g: Graph, rules: Rules, graphVersion: string, availableFrom: string)
    requires WellBuilt(c, g)
    ensures forall b :: b in CatalogOf(rules, graphVersion, availableFrom, g).blockers ==> b.code != ObjectMissing
    ensures |CatalogOf(rules, graphVersion, availableFrom, g).rows.catalog| == |PublishedKeys(rules, g.nodes)|
  {
    CatalogIsOutput(c, g, rules, graphVersion, availableFrom);
    var books, triples := SortedBooks(InKeyOrder(g.nodes)), InKeyOrder(g.triples);
    NoObjectMissing(rules, graphVersion, availableFrom, g.nodes, triples, books);
    TablesAligned(rules, graphVersion, availableFrom, g.nodes, triples, books);
    KeptCount(rules, g.nodes);
  }

  lemma CatalogIsOutput(c: Scheme, g: Graph, rules: Rules, graphVersion: string, availableFrom: string)
    requires WellBuilt(c, g)
    ensures CatalogOf(rules, graphVersion, availableFrom, g) ==
      OutputOf(rules, graphVersion, availableFrom, g.nodes, InKeyOrder(g.triples), SortedBooks(InKeyOrder(g.nodes)))
  {
    NodeMapRestored(c, g);
  }

  /** Vectors built from those rows: no blocker at all, one vector for each publishable book node. */
  lemma VectorsOfPlan(c: Scheme, g: Graph, rules: Rules, tools: Tools, availableFrom: string, version: string)
    requires WellBuilt(c, g) && Compatible(rules, tools, availableFrom) && DigestsDistinct(tools) && ColonFree(version)
    ensures var rows := CatalogOf(rules, c.version, availableFrom, g).rows;
      var p := Run(tools, version, IndexMap(rows.index), rows.catalog);
      p.blockers == [] && |p.records| == |PublishedKeys(rules, g.nodes)|
  {
    var books := SortedBooks(InKeyOrder(g.nodes));
    var triples := InKeyOrder(g.triples);
    var rows := CatalogOf(rules, c.version, availableFrom, g).rows;
    CatalogOfPlan(c, g, rules, c.version, availableFrom);
    TablesAligned(rules, c.version, availableFrom, NodeMap(InKeyOrder(g.nodes)), triples, books);
    KeyOrderDistinct(c, g);
    SortedDistinct(InKeyOrder(g.nodes));
    KeptDistinct(rules, books);
    KeptMembers(rules, books);
    AlignedTablesRun(rules, tools, availableFrom, version, rows, Kept(rules, books));
    VectorRecords.RowsAccounted(tools, version, IndexMap(rows.index), rows.catalog);
  }

  /** CSV files to vectors in one go. Once the graph plan is built, the only things that can keep a book out of the
      vector index are a blank title and the two field limits; every other book has its row, and each row its record. */
  method BuildAll(c: Scheme, batch: Batch, recordDigest: RecordDigest, files: seq<CsvFile>, rules: Rules, tools: Tools,
                  availableFrom: string, version: string)
      returns (plan: Plan, rows: Rows, blockers: seq<Blocker>, vectors: Progress)
    requires Compatible(rules, tools, availableFrom) && DigestsDistinct(tools) && ColonFree(version)
    ensures forall b :: b in blockers ==> b.code != ObjectMissing
    ensures vectors.blockers == []
    ensures |vectors.records| == |rows.catalog| ==
      |PublishedKeys(rules, PlanGraph(c, batch, recordDigest, files).nodes)|
    ensures DistinctRecords(vectors.records)
    ensures Output(rows, blockers) == CatalogOf(rules, c.version, availableFrom, PlanGraph(c, batch, recordDigest, files))
    ensures RecordsOf(tools, version, IndexMap(rows.index), rows.catalog, vectors.records)
  {
    plan := BuildPlan(c, batch, recordDigest, files);
    ghost var g := PlanGraph(c, batch, recordDigest, files);
    PlanIsWellBuilt(c, batch, recordDigest, files);
    rows, blockers := BuildRows(rules, c.version, availableFrom, plan.nodes, plan.triples);
    assert Output(rows, blockers) == CatalogOf(rules, c.version, availableFrom, g);
    CatalogOfPlan(c, g, rules, c.version, availableFrom);
    vectors := BuildVectorRecords(tools, version, rows.catalog, rows.index);
    VectorsOfPlan(c, g, rules, tools, availableFrom, version);
    IdentifiersDistinct(tools, version, IndexMap(rows.index), rows.catalog);
    RowByRow(tools, version, IndexMap(rows.index), rows.catalog);
  }
}
