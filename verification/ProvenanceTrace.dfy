/** What the nodes of the batch, of its files and of its records carry. */
module ProvenanceTrace {
  import opened Keys
  import opened Colons
  import opened BookRecords
  import opened GraphStore
  import opened GraphPlan
  import opened GraphPlanLaws
  import opened GraphContent
  import opened BookTrace

  function Built(c: Scheme, batch: Batch, files: seq<FileSummary>, records: seq<Record>): map<Key, GraphNode> {
    ApplyAll(c, EMPTY, PlanOps(c, batch, files, records)).nodes
  }

  /** A node has a value that is not missing, and no missing one. */
  ghost predicate Holds(nodes: map<Key, GraphNode>, key: Key, f: Field, v: Value) {
    key in nodes && ValueIn(nodes, key, f) == if Missing(v) then None else v
  }

  /** Every addition of a node under the key offers the same properties. */
  ghost predicate AgreeOn(c: Scheme, ops: seq<Op>, key: Key, properties: Properties) {
    forall op :: op in ops && op.NodeOp? && GraphKey(c, op.label_, op.entityId) == key ==> op.properties == properties
  }

  lemma AgreedIsHeld(c: Scheme, ops: seq<Op>, own: Op, f: Field)
    requires own in ops && own.NodeOp? && f in own.properties && own.properties[f] != Listing([])
    requires AgreeOn(c, ops, GraphKey(c, own.label_, own.entityId), own.properties)
    ensures Holds(ApplyAll(c, EMPTY, ops).nodes, GraphKey(c, own.label_, own.entityId), f, own.properties[f])
  {
    var key, v := GraphKey(c, own.label_, own.entityId), own.properties[f];
    AddedIsNode(c, ops, own);
    forall op | op in ops
      ensures Offered(c, op, key, f) == if op.NodeOp? && GraphKey(c, op.label_, op.entityId) == key && !Missing(v) then v else None
    {
    }
    ValueIsFirst(c, ops, key, f);
    if Missing(v) {
      NoneOffered(c, ops, key, f);
    } else {
      Unanimous(c, ops, key, f, v);
    }
  }

  ghost predicate Carries(nodes: map<Key, GraphNode>, key: Key, properties: Properties) {
    forall f :: f in properties ==> Holds(nodes, key, f, properties[f])
  }

  ghost predicate NoListings(properties: Properties) {
    forall f :: f in properties ==> !properties[f].Listing?
  }

  lemma AgreedIsCarried(c: Scheme, ops: seq<Op>, l: Label, e: string, key: Key, properties: Properties)
    requires key == GraphKey(c, l, e) && NodeOp(l, e, properties) in ops && NoListings(properties)
    requires AgreeOn(c, ops, key, properties)
    ensures Carries(ApplyAll(c, EMPTY, ops).nodes, key, properties)
  {
    forall f | f in properties
      ensures Holds(ApplyAll(c, EMPTY, ops).nodes, key, f, properties[f])
    {
      AgreedIsHeld(c, ops, NodeOp(l, e, properties), f);
    }
  }

  // ---------------------------------------------------------------- who adds these nodes

  lemma OwnAdds(c: Scheme, r: Record, op: Op)
    requires op in OwnOps(c, r) && op.NodeOp?
    ensures op.label_ in {AuthorNode, PublisherNode, SubjectCodeNode, KeywordNode}
  {
    InOwn(c, r, op);
    AuthorNodes(c, BookKey(c, r), r.facts.authors, op);
    KeywordNodes(c, BookKey(c, r), r.facts.keywords, op);
  }

  lemma ShelfAdds(c: Scheme, r: Record, op: Op)
    requires op in ShelfNodes(r) + ShelfTriples(c, r) && op.NodeOp?
    ensures op.label_ in {CategoryNode, TopicNode}
  {
  }

  lemma ProvenanceAdds(c: Scheme, batch: Batch, r: Record, op: Op)
    requires op in ProvenanceNodes(batch, r) + ProvenanceTriples(c, r) && op.NodeOp?
    ensures op.label_ == BookNode || op == NodeOp(SourceRecordNode, r.source.recordId, RecordProperties(batch, r.source))
  {
  }

  lemma RecordAdds(c: Scheme, batch: Batch, r: Record, op: Op)
    requires op in RecordOps(c, batch, r) && op.NodeOp?
    ensures op.label_ != GraphVersionNode && op.label_ != SourceFileNode
    ensures op.label_ == SourceRecordNode ==>
      op == NodeOp(SourceRecordNode, r.source.recordId, RecordProperties(batch, r.source))
  {
    InRecord(c, batch, r, op);
    if op in OwnOps(c, r) {
      OwnAdds(c, r, op);
    } else if op in ShelfNodes(r) + ShelfTriples(c, r) {
      ShelfAdds(c, r, op);
    } else {
      ProvenanceAdds(c, batch, r, op);
    }
  }

  lemma RecordsAdd(c: Scheme, batch: Batch, records: seq<Record>, op: Op) returns (r: Record)
    requires op in RecordsOps(c, batch, records) && op.NodeOp?
    ensures op.label_ != GraphVersionNode && op.label_ != SourceFileNode
    ensures op.label_ == SourceRecordNode ==>
      r in records && op == NodeOp(SourceRecordNode, r.source.recordId, RecordProperties(batch, r.source))
  {
    RecordsFlatten(c, batch, records);
    var i := PartWith(RecordParts(c, batch, records), op);
    r := records[i];
    RecordAdds(c, batch, r, op);
  }

  lemma {:induction false} FilesAdd(c: Scheme, batch: Batch, files: seq<FileSummary>, op: Op)
    requires op.NodeOp?
    ensures op in FilesOps(c, batch, files) <==> exists i :: 0 <= i < |files| && op == FileOps(c, batch, files[i])[0]
  {
    if files != [] {
      var n := |files| - 1;
      FilesAdd(c, batch, files[..n], op);
      assert forall i :: 0 <= i < n ==> files[..n][i] == files[i];
    }
  }

  /** Who adds a node of one of the three labels. */
  lemma PlanAdds(c: Scheme, batch: Batch, files: seq<FileSummary>, records: seq<Record>, op: Op)
    requires op in PlanOps(c, batch, files, records) && op.NodeOp?
    ensures op.label_ == GraphVersionNode ==> op == RootOp(c, batch, |files|, |records|)
    ensures op.label_ == SourceFileNode ==> exists t :: t in files && op == FileOps(c, batch, t)[0]
    ensures op.label_ == SourceRecordNode ==>
      exists r :: r in records && op == NodeOp(SourceRecordNode, r.source.recordId, RecordProperties(batch, r.source))
  {
    FilesLabels(c, batch, files, op);
    if op in RecordsOps(c, batch, records) {
      var r := RecordsAdd(c, batch, records, op);
    } else if op in FilesOps(c, batch, files) {
      FilesAdd(c, batch, files, op);
      var i :| 0 <= i < |files| && op == FileOps(c, batch, files[i])[0];
      assert files[i] in files;
    }
  }

  lemma RootAgrees(c: Scheme, batch: Batch, files: seq<FileSummary>, records: seq<Record>)
    requires ColonFree(c.version)
    ensures AgreeOn(c, PlanOps(c, batch, files, records), RootKey(c), RootProperties(c, batch, |files|, |records|))
  {
    forall op | op in PlanOps(c, batch, files, records) && op.NodeOp? && GraphKey(c, op.label_, op.entityId) == RootKey(c)
      ensures op.properties == RootProperties(c, batch, |files|, |records|)
    {
      LabelsApart(c, GraphVersionNode, c.version, op.label_, op.entityId);
      PlanAdds(c, batch, files, records, op);
    }
  }

  function FileProperties(c: Scheme, batch: Batch, s: FileSummary): Properties {
    FileOps(c, batch, s)[0].properties
  }

  lemma RootIsAdded(c: Scheme, batch: Batch, files: seq<FileSummary>, records: seq<Record>)
    ensures NodeOp(GraphVersionNode, c.version, RootProperties(c, batch, |files|, |records|)) in
      PlanOps(c, batch, files, records)
    ensures NoListings(RootProperties(c, batch, |files|, |records|))
  {
    assert PlanOps(c, batch, files, records)[0] == RootOp(c, batch, |files|, |records|);
  }

  /** No other file has its node under the key. */
  ghost predicate AloneAmongFiles(c: Scheme, files: seq<FileSummary>, s: FileSummary) {
    s in files && forall t :: t in files && FileKey(c, t.path) == FileKey(c, s.path) ==> t == s
  }

  lemma FileAgrees(c: Scheme, batch: Batch, files: seq<FileSummary>, records: seq<Record>, s: FileSummary)
    requires ColonFree(c.version) && AloneAmongFiles(c, files, s)
    ensures AgreeOn(c, PlanOps(c, batch, files, records), FileKey(c, s.path), FileProperties(c, batch, s))
  {
    forall op | op in PlanOps(c, batch, files, records) && op.NodeOp? && GraphKey(c, op.label_, op.entityId) == FileKey(c, s.path)
      ensures op.properties == FileProperties(c, batch, s)
    {
      LabelsApart(c, SourceFileNode, s.path, op.label_, op.entityId);
      PlanAdds(c, batch, files, records, op);
    }
  }

  lemma FileIsAdded(c: Scheme, batch: Batch, files: seq<FileSummary>, records: seq<Record>, s: FileSummary)
    requires s in files
    ensures NodeOp(SourceFileNode, s.path, FileProperties(c, batch, s)) in PlanOps(c, batch, files, records)
    ensures NoListings(FileProperties(c, batch, s))
  {
    var own := NodeOp(SourceFileNode, s.path, FileProperties(c, batch, s));
    var i :| 0 <= i < |files| && files[i] == s;
    assert own == FileOps(c, batch, files[i])[0];
    FilesAdd(c, batch, files, own);
  }

  /** No other record has its node under the key. */
  ghost predicate AloneAmongRecords(c: Scheme, records: seq<Record>, r: Record) {
    r in records && forall s :: s in records && RecordKey(c, s) == RecordKey(c, r) ==> s.source == r.source
  }

  lemma RecordAgrees(c: Scheme, batch: Batch, files: seq<FileSummary>, records: seq<Record>, r: Record)
    requires ColonFree(c.version) && AloneAmongRecords(c, records, r)
    ensures AgreeOn(c, PlanOps(c, batch, files, records), RecordKey(c, r), RecordProperties(batch, r.source))
  {
    forall op | op in PlanOps(c, batch, files, records) && op.NodeOp? && GraphKey(c, op.label_, op.entityId) == RecordKey(c, r)
      ensures op.properties == RecordProperties(batch, r.source)
    {
      LabelsApart(c, SourceRecordNode, r.source.recordId, op.label_, op.entityId);
      PlanAdds(c, batch, files, records, op);
    }
  }

  // ---------------------------------------------------------------- what they carry

  ghost predicate TellsOfBatch(nodes: map<Key, GraphNode>, root: Key, c: Scheme, batch: Batch, files: nat, records: nat) {
    && Holds(nodes, root, GraphVersionField, Text(c.version)) && Holds(nodes, root, SourceIdField, Text(batch.sourceId))
    && Holds(nodes, root, StatusField, Text("READY_FOR_IMPORT_REVIEW"))
    && Holds(nodes, root, InputRootField, Text(batch.inputRoot))
    && Holds(nodes, root, InputSha256Field, Text(batch.inputDigest))
    && Holds(nodes, root, FileCountField, Number(files)) && Holds(nodes, root, RecordCountField, Number(records))
  }

  lemma BatchFields(nodes: map<Key, GraphNode>, root: Key, c: Scheme, batch: Batch, files: nat, records: nat)
    requires Carries(nodes, root, RootProperties(c, batch, files, records))
    ensures TellsOfBatch(nodes, root, c, batch, files, records)
  {
    var p := RootProperties(c, batch, files, records);
    assert GraphVersionField in p && SourceIdField in p && StatusField in p && InputRootField in p;
    assert InputSha256Field in p && FileCountField in p && RecordCountField in p;
  }

  /** The root node carries the batch and how many files and records it has. */
  lemma RootCarries(c: Scheme, batch: Batch, files: seq<FileSummary>, records: seq<Record>)
    requires ColonFree(c.version)
    ensures TellsOfBatch(Built(c, batch, files, records), RootKey(c), c, batch, |files|, |records|)
  {
    var own := RootProperties(c, batch, |files|, |records|);
    RootIsAdded(c, batch, files, records);
    RootAgrees(c, batch, files, records);
    AgreedIsCarried(c, PlanOps(c, batch, files, records), GraphVersionNode, c.version, RootKey(c), own);
    BatchFields(Built(c, batch, files, records), RootKey(c), c, batch, |files|, |records|);
  }

  ghost predicate TellsOfFile(nodes: map<Key, GraphNode>, key: Key, batch: Batch, s: FileSummary) {
    && Holds(nodes, key, PathField, Text(s.path)) && Holds(nodes, key, Sha256Field, Text(s.sha256))
    && Holds(nodes, key, BytesField, Number(s.bytes)) && Holds(nodes, key, RecordCountField, Number(s.recordCount))
    && Holds(nodes, key, SourceIdField, Text(batch.sourceId))
  }

  lemma FileFields(nodes: map<Key, GraphNode>, key: Key, c: Scheme, batch: Batch, s: FileSummary)
    requires Carries(nodes, key, FileProperties(c, batch, s))
    ensures TellsOfFile(nodes, key, batch, s)
  {
    var p := FileProperties(c, batch, s);
    assert PathField in p && Sha256Field in p && BytesField in p && RecordCountField in p && SourceIdField in p;
  }

  /** The node of a file carries its path, digest, size and number of records. */
  lemma FileCarries(c: Scheme, batch: Batch, files: seq<FileSummary>, records: seq<Record>, s: FileSummary)
    requires ColonFree(c.version) && AloneAmongFiles(c, files, s)
    ensures TellsOfFile(Built(c, batch, files, records), FileKey(c, s.path), batch, s)
  {
    var own := FileProperties(c, batch, s);
    FileAgrees(c, batch, files, records, s);
    FileIsAdded(c, batch, files, records, s);
    AgreedIsCarried(c, PlanOps(c, batch, files, records), SourceFileNode, s.path, FileKey(c, s.path), own);
    FileFields(Built(c, batch, files, records), FileKey(c, s.path), c, batch, s);
  }

  lemma RecordInPlan(c: Scheme, batch: Batch, files: seq<FileSummary>, records: seq<Record>, r: Record, op: Op)
    requires r in records && op in RecordOps(c, batch, r)
    ensures op in PlanOps(c, batch, files, records)
  {
    var parts := RecordParts(c, batch, records);
    var i :| 0 <= i < |records| && records[i] == r;
    RecordsFlatten(c, batch, records);
    InFlattened(parts, op);
    assert parts[i] in parts && op in parts[i];
  }

  lemma SourceInRecord(c: Scheme, batch: Batch, r: Record)
    ensures NodeOp(SourceRecordNode, r.source.recordId, RecordProperties(batch, r.source)) in RecordOps(c, batch, r)
  {
    var own := ProvenanceNodes(batch, r)[1];
    assert own in ProvenanceNodes(batch, r);
    InRecord(c, batch, r, own);
  }

  lemma PlainSource(batch: Batch, s: Source)
    ensures NoListings(RecordProperties(batch, s))
  {
  }

  ghost predicate TellsOfSource(nodes: map<Key, GraphNode>, key: Key, batch: Batch, s: Source) {
    && Holds(nodes, key, RecordIdField, Text(s.recordId)) && Holds(nodes, key, SourceFileField, Text(s.file))
    && Holds(nodes, key, SourceLineField, Number(s.line)) && Holds(nodes, key, RawSha256Field, Text(s.rawDigest))
    && Holds(nodes, key, SourceIdField, Text(batch.sourceId))
  }

  lemma SourceFields(nodes: map<Key, GraphNode>, key: Key, batch: Batch, s: Source)
    requires Carries(nodes, key, RecordProperties(batch, s))
    ensures TellsOfSource(nodes, key, batch, s)
  {
    var p := RecordProperties(batch, s);
    assert RecordIdField in p && SourceFileField in p && SourceLineField in p && RawSha256Field in p && SourceIdField in p;
  }

  /** The node of a record carries where the record was read. */
  lemma RecordCarries(c: Scheme, batch: Batch, files: seq<FileSummary>, records: seq<Record>, r: Record)
    requires ColonFree(c.version) && AloneAmongRecords(c, records, r)
    ensures TellsOfSource(Built(c, batch, files, records), RecordKey(c, r), batch, r.source)
  {
    var own := RecordProperties(batch, r.source);
    SourceInRecord(c, batch, r);
    RecordInPlan(c, batch, files, records, r, NodeOp(SourceRecordNode, r.source.recordId, own));
    PlainSource(batch, r.source);
    RecordAgrees(c, batch, files, records, r);
    AgreedIsCarried(c, PlanOps(c, batch, files, records), SourceRecordNode, r.source.recordId, RecordKey(c, r), own);
    SourceFields(Built(c, batch, files, records), RecordKey(c, r), batch, r.source);
  }
}
