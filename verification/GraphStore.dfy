/** The node and triple dictionaries of a graph plan, and what a sequence of additions leaves in them. */
module GraphStore {
  import opened Keys
  import opened Colons
  import opened BookRecords

  datatype Label = GraphVersionNode | SourceFileNode | BookNode | SourceRecordNode | CategoryNode | TopicNode
    | AuthorNode | PublisherNode | SubjectCodeNode | KeywordNode

  datatype Relation = FromBatch | ReadFrom | Describes | InGraphVersion | ClassifiedAs | InTopic | HasTopic
    | AuthoredBy | PublishedBy | HasSubjectCode | HasKeyword

  /** Property names. */
  datatype Field = GraphVersionField | SourceIdField | StatusField | InputRootField | InputSha256Field | FileCountField
    | RecordCountField | PathField | Sha256Field | BytesField | TitleField | ForeignTitleField | IsbnField
    | IsbnRawField | PublisherField | DateRawField | YearField | MonthField | PagesField | PriceField | FormatField
    | SubjectRawField | SummaryField | UrlField | UrlSha256Field | StrategyField | RecordIdField | SourceFileField
    | SourceLineField | RawSha256Field | CodeField | NameField | CategoryCodeField | CategoryNameField | RoleField

  type Properties = map<Field, Value>

  datatype GraphNode = GraphNode(label_: Label, graphKey: Key, entityId: string, properties: Properties)

  datatype Edge = Edge(edgeKey: Key, subject: Key, relation: Relation, target: Key, properties: Properties)

  /** The graph version and the hexadecimal SHA-256 of a text and of an edge's canonical form. */
  datatype Scheme = Scheme(version: string, digest: string -> string,
                           edgeDigest: (Key, Relation, Key, Properties) -> string)

  /** A label in lower case. */
  function LabelText(l: Label): string {
    match l
    case GraphVersionNode => "graphversion"
    case SourceFileNode => "sourcefile"
    case BookNode => "book"
    case SourceRecordNode => "sourcerecord"
    case CategoryNode => "category"
    case TopicNode => "topic"
    case AuthorNode => "author"
    case PublisherNode => "publisher"
    case SubjectCodeNode => "subjectcode"
    case KeywordNode => "keyword"
  }

  function GraphKey(c: Scheme, l: Label, entityId: string): Key {
    Key(c.version + ":" + (LabelText(l) + ":" + Cut(c.digest(entityId), 32)))
  }

  function MakeEdge(c: Scheme, subject: Key, relation: Relation, target: Key, properties: Properties): Edge {
    Edge(Key("edge:" + Cut(c.edgeDigest(subject, relation, target, properties), 32)), subject, relation, target, properties)
  }

  predicate Missing(v: Value) {
    v == None || v == Text("")
  }

  function Present(properties: Properties): Properties {
    map f | f in properties && !Missing(properties[f]) :: properties[f]
  }

  /** What a later addition contributes to a node: new names only, and no empty lists. */
  function Filled(kept: Properties, more: Properties): Properties {
    map f | f in kept.Keys + more.Keys && (f in kept || more[f] != Listing([])) :: if f in kept then kept[f] else more[f]
  }

  datatype Graph = Graph(nodes: map<Key, GraphNode>, triples: map<Key, Edge>)

  datatype Op = NodeOp(label_: Label, entityId: string, properties: Properties)
    | EdgeOp(subject: Key, relation: Relation, target: Key, properties: Properties)

  function WithNode(c: Scheme, nodes: map<Key, GraphNode>, l: Label, entityId: string, properties: Properties)
      : map<Key, GraphNode> {
    var key := GraphKey(c, l, entityId);
    if key in nodes then
      nodes[key := nodes[key].(properties := Filled(nodes[key].properties, Present(properties)))]
    else nodes[key := GraphNode(l, key, entityId, Present(properties))]
  }

  function Apply(c: Scheme, g: Graph, op: Op): Graph {
    match op
    case NodeOp(l, e, p) => g.(nodes := WithNode(c, g.nodes, l, e, p))
    case EdgeOp(s, r, t, p) =>
      var edge := MakeEdge(c, s, r, t, p);
      g.(triples := g.triples[edge.edgeKey := edge])
  }

  function ApplyAll(c: Scheme, g: Graph, ops: seq<Op>): Graph {
    if ops == [] then g else Apply(c, ApplyAll(c, g, ops[..|ops| - 1]), ops[|ops| - 1])
  }

  const EMPTY := Graph(map[], map[])

  // ---------------------------------------------------------------- the program

  /** The two dictionaries under construction; the log is what has been added so far. */
  class GraphBuilder {
    const scheme: Scheme
    var nodes: map<Key, GraphNode>
    var triples: map<Key, Edge>
    ghost var log: seq<Op>

    ghost predicate Valid()
      reads this
    {
      Graph(nodes, triples) == ApplyAll(scheme, EMPTY, log)
    }

    constructor (scheme: Scheme)
      ensures Valid() && log == [] && this.scheme == scheme
    {
      this.scheme := scheme;
      nodes, triples := map[], map[];
      log := [];
    }

    /** Copies in the properties an existing node lacks, one at a time. */
    method Complete(key: Key, cleaned: Properties)
      requires key in nodes
      modifies this`nodes
      ensures nodes == old(nodes)[key := old(nodes)[key].(properties := Filled(old(nodes)[key].properties, cleaned))]
    {
      ghost var before := nodes;
      ghost var kept := nodes[key].properties;
      var remaining := cleaned.Keys;
      while remaining != {}
        invariant remaining <= cleaned.Keys
        invariant key in nodes && nodes == before[key := before[key].(properties := nodes[key].properties)]
        invariant nodes[key].properties == Filled(kept, cleaned - remaining)
      {
        var f :| f in remaining;
        if f !in nodes[key].properties && cleaned[f] != Listing([]) {
          nodes := nodes[key := nodes[key].(properties := nodes[key].properties[f := cleaned[f]])];
        }
        remaining := remaining - {f};
      }
      assert cleaned - {} == cleaned;
    }

    method AddNode(l: Label, entityId: string, properties: Properties) returns (key: Key)
      requires Valid()
      modifies this
      ensures Valid() && log == old(log) + [NodeOp(l, entityId, properties)]
      ensures key == GraphKey(scheme, l, entityId)
    {
      key := GraphKey(scheme, l, entityId);
      var cleaned := Present(properties);
      if key !in nodes {
        nodes := nodes[key := GraphNode(l, key, entityId, cleaned)];
      } else {
        Complete(key, cleaned);
      }
      log := log + [NodeOp(l, entityId, properties)];
    }

    method AddTriple(subject: Key, relation: Relation, target: Key, properties: Properties)
      requires Valid()
      modifies this`triples, this`log
      ensures Valid() && log == old(log) + [EdgeOp(subject, relation, target, properties)]
    {
      var edge := MakeEdge(scheme, subject, relation, target, properties);
      triples := triples[edge.edgeKey := edge];
      log := log + [EdgeOp(subject, relation, target, properties)];
    }
  }

  lemma {:induction false} ApplyAppend(c: Scheme, g: Graph, a: seq<Op>, b: seq<Op>)
    ensures ApplyAll(c, g, a + b) == ApplyAll(c, ApplyAll(c, g, a), b)
  {
    if b == [] {
      assert a + b == a;
    } else {
      assert (a + b)[..|a + b| - 1] == a + b[..|b| - 1];
      ApplyAppend(c, g, a, b[..|b| - 1]);
    }
  }

  // ---------------------------------------------------------------- first value wins

  /** The addition at place `i` is to the node `key`. */
  ghost predicate Adds(c: Scheme, log: seq<Op>, i: int, key: Key) {
    0 <= i < |log| && log[i].NodeOp? && GraphKey(c, log[i].label_, log[i].entityId) == key
  }

  ghost predicate FirstAdds(c: Scheme, log: seq<Op>, i: int, key: Key) {
    Adds(c, log, i, key) && forall j :: 0 <= j < i ==> !Adds(c, log, j, key)
  }

  /** The addition at place `i` offers a value that is not missing; an empty list only counts when it creates the node. */
  ghost predicate Offers(c: Scheme, log: seq<Op>, i: int, key: Key, f: Field) {
    && Adds(c, log, i, key)
    && f in log[i].properties && !Missing(log[i].properties[f])
    && (log[i].properties[f] == Listing([]) ==> FirstAdds(c, log, i, key))
  }

  ghost predicate FirstOffers(c: Scheme, log: seq<Op>, i: int, key: Key, f: Field) {
    Offers(c, log, i, key, f) && forall j :: 0 <= j < i ==> !Offers(c, log, j, key, f)
  }

  lemma AddsPrefix(c: Scheme, log: seq<Op>, op: Op, i: int, key: Key)
    requires i < |log|
    ensures Adds(c, log + [op], i, key) <==> Adds(c, log, i, key)
  {
  }

  lemma PrefixFacts(c: Scheme, log: seq<Op>, op: Op, i: int, key: Key, f: Field)
    requires i < |log|
    ensures FirstAdds(c, log + [op], i, key) <==> FirstAdds(c, log, i, key)
    ensures Offers(c, log + [op], i, key, f) <==> Offers(c, log, i, key, f)
  {
    forall j | j <= i
      ensures Adds(c, log + [op], j, key) <==> Adds(c, log, j, key)
    {
      AddsPrefix(c, log, op, j, key);
    }
  }

  ghost predicate SomeAdds(c: Scheme, log: seq<Op>, key: Key) {
    exists i {:trigger Adds(c, log, i, key)} :: Adds(c, log, i, key)
  }

  ghost predicate SomeOffers(c: Scheme, log: seq<Op>, key: Key, f: Field) {
    exists i {:trigger Offers(c, log, i, key, f)} :: Offers(c, log, i, key, f)
  }

  lemma SomeAddsNext(c: Scheme, log: seq<Op>, op: Op, key: Key)
    ensures SomeAdds(c, log + [op], key) <==> SomeAdds(c, log, key) || Adds(c, log + [op], |log|, key)
  {
    if SomeAdds(c, log, key) {
      var i :| Adds(c, log, i, key);
      AddsPrefix(c, log, op, i, key);
    }
    if SomeAdds(c, log + [op], key) {
      var i :| Adds(c, log + [op], i, key);
      if i < |log| {
        AddsPrefix(c, log, op, i, key);
      }
    }
  }

  lemma SomeOffersNext(c: Scheme, log: seq<Op>, op: Op, key: Key, f: Field)
    ensures SomeOffers(c, log + [op], key, f) <==> SomeOffers(c, log, key, f) || Offers(c, log + [op], |log|, key, f)
  {
    if SomeOffers(c, log, key, f) {
      var i :| Offers(c, log, i, key, f);
      PrefixFacts(c, log, op, i, key, f);
    }
    if SomeOffers(c, log + [op], key, f) {
      var i :| Offers(c, log + [op], i, key, f);
      if i < |log| {
        PrefixFacts(c, log, op, i, key, f);
      }
    }
  }

  /** A node exists exactly when it was added, under the label and identity of its first addition. */
  lemma {:induction false} NodeIffAdded(c: Scheme, log: seq<Op>, key: Key)
    ensures var nodes := ApplyAll(c, EMPTY, log).nodes;
      && (key in nodes <==> SomeAdds(c, log, key))
      && (key in nodes ==> nodes[key].graphKey == key == GraphKey(c, nodes[key].label_, nodes[key].entityId))
  {
    if log != [] {
      var n := |log| - 1;
      var before := log[..n];
      NodeIffAdded(c, before, key);
      assert log == before + [log[n]];
      SomeAddsNext(c, before, log[n], key);
    }
  }

  /** The first addition names the node. */
  lemma {:induction false} FirstAddition(c: Scheme, log: seq<Op>, key: Key) returns (i: nat)
    requires key in ApplyAll(c, EMPTY, log).nodes
    ensures i < |log| && log[i].NodeOp? && GraphKey(c, log[i].label_, log[i].entityId) == key
    ensures var node := ApplyAll(c, EMPTY, log).nodes[key];
      node.label_ == log[i].label_ && node.entityId == log[i].entityId
  {
    var n := |log| - 1;
    var before := ApplyAll(c, EMPTY, log[..n]).nodes;
    if key in before {
      i := FirstAddition(c, log[..n], key);
    } else {
      i := n;
    }
  }

  ghost predicate Holds(nodes: map<Key, GraphNode>, key: Key, f: Field) {
    key in nodes && f in nodes[key].properties
  }

  /** A property is there exactly when some addition offered it. */
  lemma {:induction false} PropertyIffOffered(c: Scheme, log: seq<Op>, key: Key, f: Field)
    ensures Holds(ApplyAll(c, EMPTY, log).nodes, key, f) <==> SomeOffers(c, log, key, f)
  {
    if log != [] {
      var n := |log| - 1;
      var before := log[..n];
      PropertyIffOffered(c, before, key, f);
      NodeIffAdded(c, before, key);
      assert log == before + [log[n]];
      SomeOffersNext(c, before, log[n], key, f);
      LastCreates(c, before, log[n], key);
      PropertyNext(c, ApplyAll(c, EMPTY, before), log[n], key, f);
    }
  }

  /** The effect of one addition on whether a property is there. */
  lemma PropertyNext(c: Scheme, g: Graph, op: Op, key: Key, f: Field)
    ensures Holds(Apply(c, g, op).nodes, key, f) <==>
      Holds(g.nodes, key, f) ||
      (op.NodeOp? && GraphKey(c, op.label_, op.entityId) == key && f in op.properties &&
       !Missing(op.properties[f]) && (op.properties[f] == Listing([]) ==> key !in g.nodes))
  {
  }

  lemma LastCreates(c: Scheme, log: seq<Op>, op: Op, key: Key)
    ensures FirstAdds(c, log + [op], |log|, key) <==> Adds(c, log + [op], |log|, key) && !SomeAdds(c, log, key)
  {
    forall j | j < |log|
      ensures Adds(c, log + [op], j, key) <==> Adds(c, log, j, key)
    {
      AddsPrefix(c, log, op, j, key);
    }
    if SomeAdds(c, log, key) {
      var i :| Adds(c, log, i, key);
      assert Adds(c, log + [op], i, key);
    }
  }

  /** Each property keeps the first value that was offered for it. */
  lemma {:induction false} FirstValueWins(c: Scheme, log: seq<Op>, key: Key, f: Field, i: nat)
    requires FirstOffers(c, log, i, key, f)
    ensures Holds(ApplyAll(c, EMPTY, log).nodes, key, f)
    ensures ApplyAll(c, EMPTY, log).nodes[key].properties[f] == log[i].properties[f]
  {
    var n := |log| - 1;
    var before := log[..n];
    assert log == before + [log[n]];
    assert SomeOffers(c, log, key, f);
    PropertyIffOffered(c, log, key, f);
    if i < n {
      forall j | j <= i
        ensures Offers(c, log, j, key, f) <==> Offers(c, before, j, key, f)
      {
        PrefixFacts(c, before, log[n], j, key, f);
      }
      FirstValueWins(c, before, key, f, i);
    } else {
      NothingOfferedBefore(c, before, log[n], key, f);
      PropertyIffOffered(c, before, key, f);
    }
  }

  lemma NothingOfferedBefore(c: Scheme, log: seq<Op>, op: Op, key: Key, f: Field)
    requires FirstOffers(c, log + [op], |log|, key, f)
    ensures !SomeOffers(c, log, key, f)
  {
    forall i | 0 <= i < |log|
      ensures !Offers(c, log, i, key, f)
    {
      PrefixFacts(c, log, op, i, key, f);
    }
  }

  // ---------------------------------------------------------------- repetition

  /** A node already has whatever this addition could give it. */
  ghost predicate NodeSettled(c: Scheme, g: Graph, op: Op)
    requires op.NodeOp?
  {
    var key := GraphKey(c, op.label_, op.entityId);
    && key in g.nodes
    && forall f :: f in op.properties && !Missing(op.properties[f]) && op.properties[f] != Listing([]) ==>
        f in g.nodes[key].properties
  }

  lemma SettledIsUnchanged(c: Scheme, g: Graph, op: Op)
    requires op.NodeOp? && NodeSettled(c, g, op)
    ensures Apply(c, g, op).nodes == g.nodes
  {
    var key := GraphKey(c, op.label_, op.entityId);
    assert Filled(g.nodes[key].properties, Present(op.properties)) == g.nodes[key].properties;
  }

  lemma {:induction false} AllSettled(c: Scheme, g: Graph, ops: seq<Op>, i: nat)
    requires i < |ops| && ops[i].NodeOp?
    ensures NodeSettled(c, ApplyAll(c, g, ops), ops[i])
  {
    var n := |ops| - 1;
    var before := ApplyAll(c, g, ops[..n]);
    if i < n {
      AllSettled(c, g, ops[..n], i);
      assert ops[..n][i] == ops[i];
    }
  }

  lemma {:induction false} RepeatKeepsNodes(c: Scheme, g: Graph, ops: seq<Op>)
    requires forall i :: 0 <= i < |ops| && ops[i].NodeOp? ==> NodeSettled(c, g, ops[i])
    ensures ApplyAll(c, g, ops).nodes == g.nodes
  {
    if ops != [] {
      var n := |ops| - 1;
      assert forall i :: 0 <= i < n ==> ops[..n][i] == ops[i];
      RepeatKeepsNodes(c, g, ops[..n]);
      if ops[n].NodeOp? {
        SettledIsUnchanged(c, ApplyAll(c, g, ops[..n]), ops[n]);
      }
    }
  }

  /** The triples written by a sequence of additions, the last one of an identity winning. */
  function Written(c: Scheme, ops: seq<Op>): map<Key, Edge> {
    if ops == [] then map[]
    else
      var last := ops[|ops| - 1];
      var before := Written(c, ops[..|ops| - 1]);
      if last.EdgeOp? then
        var edge := MakeEdge(c, last.subject, last.relation, last.target, last.properties);
        before[edge.edgeKey := edge]
      else before
  }

  lemma {:induction false} TriplesAreWritten(c: Scheme, g: Graph, ops: seq<Op>)
    ensures ApplyAll(c, g, ops).triples == g.triples + Written(c, ops)
  {
    if ops != [] {
      TriplesAreWritten(c, g, ops[..|ops| - 1]);
    }
  }

  /** Adding the same nodes and triples again, in the same order, changes nothing. */
  lemma RepeatChangesNothing(c: Scheme, g: Graph, ops: seq<Op>)
    ensures ApplyAll(c, ApplyAll(c, g, ops), ops) == ApplyAll(c, g, ops)
  {
    var once := ApplyAll(c, g, ops);
    var twice := ApplyAll(c, once, ops);
    forall i | 0 <= i < |ops| && ops[i].NodeOp?
      ensures NodeSettled(c, once, ops[i])
    {
      AllSettled(c, g, ops, i);
    }
    RepeatKeepsNodes(c, once, ops);
    TriplesAreWritten(c, g, ops);
    TriplesAreWritten(c, once, ops);
    assert twice.triples == once.triples;
  }

  // ---------------------------------------------------------------- grounded triples

  /** Both ends of every triple are nodes. */
  ghost predicate Grounded(g: Graph) {
    forall e {:trigger e in g.triples} :: e in g.triples ==>
      g.triples[e].subject in g.nodes && g.triples[e].target in g.nodes
  }

  ghost predicate Reaches(c: Scheme, ops: seq<Op>, known: set<Key>, key: Key) {
    key in known || key in Added(c, ops)
  }

  /** Every triple comes after additions of both its ends, or its ends are in `known`. */
  ghost predicate Ordered(c: Scheme, ops: seq<Op>, known: set<Key>) {
    forall i {:trigger ops[i]} :: 0 <= i < |ops| && ops[i].EdgeOp? ==>
      Reaches(c, ops[..i], known, ops[i].subject) && Reaches(c, ops[..i], known, ops[i].target)
  }

  function Added(c: Scheme, ops: seq<Op>): set<Key> {
    if ops == [] then {}
    else
      var op := ops[|ops| - 1];
      Added(c, ops[..|ops| - 1]) + if op.NodeOp? then {GraphKey(c, op.label_, op.entityId)} else {}
  }

  lemma {:induction false} NodeKeysAdded(c: Scheme, g: Graph, ops: seq<Op>)
    ensures ApplyAll(c, g, ops).nodes.Keys == g.nodes.Keys + Added(c, ops)
  {
    if ops != [] {
      var n := |ops| - 1;
      NodeKeysAdded(c, g, ops[..n]);
      assert ops == ops[..n] + [ops[n]];
    }
  }

  lemma OrderedPrefix(c: Scheme, ops: seq<Op>, known: set<Key>, n: nat)
    requires n < |ops| && Ordered(c, ops, known)
    ensures Ordered(c, ops[..n], known)
    ensures ops[n].EdgeOp? ==>
      Reaches(c, ops[..n], known, ops[n].subject) && Reaches(c, ops[..n], known, ops[n].target)
  {
    forall i | 0 <= i < n && ops[..n][i].EdgeOp?
      ensures Reaches(c, ops[..n][..i], known, ops[..n][i].subject)
      ensures Reaches(c, ops[..n][..i], known, ops[..n][i].target)
    {
      assert ops[..n][i] == ops[i] && ops[..n][..i] == ops[..i];
    }
  }

  lemma {:induction false} OrderedIsGrounded(c: Scheme, g: Graph, ops: seq<Op>)
    requires Grounded(g) && Ordered(c, ops, g.nodes.Keys)
    ensures Grounded(ApplyAll(c, g, ops))
  {
    if ops != [] {
      var n := |ops| - 1;
      OrderedPrefix(c, ops, g.nodes.Keys, n);
      OrderedIsGrounded(c, g, ops[..n]);
      NodeKeysAdded(c, g, ops[..n]);
    }
  }

  lemma {:induction false} AddedAppend(c: Scheme, a: seq<Op>, b: seq<Op>)
    ensures Added(c, a + b) == Added(c, a) + Added(c, b)
  {
    if b == [] {
      assert a + b == a;
    } else {
      var n := |b| - 1;
      AddedAppend(c, a, b[..n]);
      assert a + b[..n] + [b[n]] == a + b && b[..n] + [b[n]] == b;
    }
  }

  lemma OrderedAppend(c: Scheme, a: seq<Op>, b: seq<Op>, known: set<Key>, between: set<Key>)
    requires Ordered(c, a, known) && Ordered(c, b, between) && between <= known + Added(c, a)
    ensures Ordered(c, a + b, known)
  {
    forall i | 0 <= i < |a + b| && (a + b)[i].EdgeOp?
      ensures Reaches(c, (a + b)[..i], known, (a + b)[i].subject)
      ensures Reaches(c, (a + b)[..i], known, (a + b)[i].target)
    {
      if i < |a| {
        assert (a + b)[..i] == a[..i] && (a + b)[i] == a[i];
      } else {
        var k := i - |a|;
        assert (a + b)[..i] == a + b[..k] && (a + b)[i] == b[k];
        AddedAppend(c, a, b[..k]);
      }
    }
  }

  /** Keys of different labels differ, whatever the digests. */
  lemma LabelsApart(c: Scheme, l: Label, e: string, m: Label, f: string)
    requires ColonFree(c.version) && GraphKey(c, l, e) == GraphKey(c, m, f)
    ensures l == m && Cut(c.digest(e), 32) == Cut(c.digest(f), 32)
  {
    var x, y := Cut(c.digest(e), 32), Cut(c.digest(f), 32);
    FirstPart(c.version, LabelText(l) + ":" + x, c.version, LabelText(m) + ":" + y);
    LabelTextsReadable(l, m);
    FirstPart(LabelText(l), x, LabelText(m), y);
  }

  lemma LabelTextsReadable(l: Label, m: Label)
    ensures ColonFree(LabelText(l)) && ColonFree(LabelText(m))
    ensures LabelText(l) == LabelText(m) ==> l == m
  {
  }
}
