/** `build_vector_records`: from catalog and index rows to vector records, with blockers. */
module VectorRecords {
  import opened Keys
  import opened Colons
  import opened Texts
  import opened BookRecords
  import opened CatalogRows
  import opened Embedding

  /** The functions the program imports: field normalization, `str` of a non-text value, SHA-256 in hexadecimal, the
      n-gram bucketing, the square root, and the reading of a `YYYY-MM-DD HH:MM:SS` text. */
  datatype Tools = Tools(space: Space, normalize: string -> string, show: Value -> string, digest: string -> string,
                         bucket: Bucketing, root: Root, epoch: string -> Epoch)

  datatype Epoch = Seconds(n: int) | NotATime

  datatype VectorRecord = VectorRecord(vectorId: Key, externalId: Key, contentHash: string, metadataVersion: nat,
                                       embeddingVersion: string, document: string, vector: seq<real>, availableFrom: int)

  datatype VectorCode = DuplicateExternalId | IndexStateMissing | InvalidContentHash | EmptyDocument
    | VectorBuildFailed | DuplicateVectorId

  datatype VectorBlocker = VectorBlocker(code: VectorCode, subject: Key)

  // ---------------------------------------------------------------- texts and identifiers

  /** `_normalize_field(value)`: a missing value is normalized as the empty text. */
  function NormalField(tools: Tools, v: Value): string {
    if !Truthy(v) then tools.normalize("")
    else if v.Text? then tools.normalize(v.text)
    else tools.normalize(tools.show(v))
  }

  function JoinNames(tools: Tools, names: seq<Key>): string {
    if names == [] then ""
    else
      var before := JoinNames(tools, names[..|names| - 1]);
      var last := tools.normalize(names[|names| - 1].text);
      if last == "" then before else if before == "" then last else before + " " + last
  }

  function DocumentText(tools: Tools, row: CatalogRow): string {
    tools.normalize(row.title) + ("\n" + JoinNames(tools, row.keywords) + "\n" + NormalField(tools, row.summary))
  }

  predicate IsSha256(s: string) {
    |s| == 64 && forall i :: 0 <= i < |s| ==> '0' <= s[i] <= '9' || 'a' <= s[i] <= 'f'
  }

  function DigitsOf(n: nat): string {
    if n < 10 then [(n as char) + '0'] else DigitsOf(n / 10) + [((n % 10) as char) + '0']
  }

  function VectorKey(externalId: string, contentHash: string, metadataVersion: nat, embeddingVersion: string): string {
    externalId + ":" + contentHash + ":" + DigitsOf(metadataVersion) + ":" + embeddingVersion
  }

  function VectorId(tools: Tools, externalId: Key, contentHash: string, metadataVersion: nat, embeddingVersion: string)
      : Key {
    Key("vec-" + tools.digest(VectorKey(externalId.text, contentHash, metadataVersion, embeddingVersion)))
  }

  // ---------------------------------------------------------------- the loop

  datatype Progress = Progress(records: seq<VectorRecord>, blockers: seq<VectorBlocker>, seenIds: set<Key>,
                               seenVectors: set<Key>, missingAbstracts: nat, missingKeywords: nat)

  const START := Progress([], [], {}, {}, 0, 0)

  function Blocked(p: Progress, code: VectorCode, subject: Key): Progress {
    p.(blockers := p.blockers + [VectorBlocker(code, subject)])
  }

  function IndexMap(rows: seq<IndexRow>): map<Key, IndexRow> {
    if rows == [] then map[] else IndexMap(rows[..|rows| - 1])[rows[|rows| - 1].externalId := rows[|rows| - 1]]
  }

  function Observed(tools: Tools, p: Progress, row: CatalogRow): Progress {
    p.(missingAbstracts := p.missingAbstracts + (if NormalField(tools, row.summary) == "" then 1 else 0),
       missingKeywords := p.missingKeywords +
                          (if forall k :: k in row.keywords ==> tools.normalize(k.text) == "" then 1 else 0))
  }

  ghost function RecordOf(tools: Tools, version: string, row: CatalogRow, contentHash: string): VectorRecord
    requires Embed(DocumentText(tools, row), tools.bucket, tools.root).Vector?
    requires tools.epoch(row.availableFrom).Seconds?
  {
    var text := DocumentText(tools, row);
    VectorRecord(VectorId(tools, row.externalId, contentHash, row.metadataVersion, version), row.externalId, contentHash,
                 row.metadataVersion, version, text, Embed(text, tools.bucket, tools.root).values,
                 tools.epoch(row.availableFrom).n)
  }

  ghost predicate CanEmbed(tools: Tools, row: CatalogRow) {
    && Embed(DocumentText(tools, row), tools.bucket, tools.root).Vector?
    && tools.epoch(row.availableFrom).Seconds?
  }

  /** The blocker a row meets before its vector identifier is compared, if any. */
  ghost function Obstacle(tools: Tools, index: map<Key, IndexRow>, seen: set<Key>, row: CatalogRow): (o: Obstruction)
    ensures o.Clear? ==> row.externalId in index && CanEmbed(tools, row)
  {
    if row.externalId in seen then Because(DuplicateExternalId)
    else if row.externalId !in index then Because(IndexStateMissing)
    else if !IsSha256(index[row.externalId].contentHash) then Because(InvalidContentHash)
    else if Strip(tools.space, DocumentText(tools, row)) == "" then Because(EmptyDocument)
    else if !CanEmbed(tools, row) then Because(VectorBuildFailed)
    else Clear
  }

  datatype Obstruction = Clear | Because(code: VectorCode)

  ghost predicate Reaches(o: Obstruction) {
    o.Clear? || o.code in {EmptyDocument, VectorBuildFailed}
  }

  ghost function Step(tools: Tools, version: string, index: map<Key, IndexRow>, p: Progress, row: CatalogRow): Progress {
    var o := Obstacle(tools, index, p.seenIds, row);
    var noted := if Reaches(o) then Observed(tools, p, row) else p;
    var q := noted.(seenIds := p.seenIds + {row.externalId});
    if o.Because? then Blocked(q, o.code, row.externalId)
    else
      var record := RecordOf(tools, version, row, index[row.externalId].contentHash);
      if record.vectorId in q.seenVectors then Blocked(q, DuplicateVectorId, record.vectorId)
      else q.(records := q.records + [record], seenVectors := q.seenVectors + {record.vectorId})
  }

  ghost function Run(tools: Tools, version: string, index: map<Key, IndexRow>, rows: seq<CatalogRow>): Progress {
    if rows == [] then START
    else Step(tools, version, index, Run(tools, version, index, rows[..|rows| - 1]), rows[|rows| - 1])
  }

  method IndexRows(rows: seq<IndexRow>) returns (index: map<Key, IndexRow>)
    ensures index == IndexMap(rows)
  {
    index := map[];
    for i := 0 to |rows|
      invariant index == IndexMap(rows[..i])
    {
      assert rows[..i + 1][..i] == rows[..i];
      index := index[rows[i].externalId := rows[i]];
    }
    assert rows[..|rows|] == rows;
  }

  /** One turn of the loop over the catalog rows. */
  method HandleRow(tools: Tools, version: string, index: map<Key, IndexRow>, p: Progress, row: CatalogRow)
      returns (q: Progress)
    requires InRange(tools.bucket)
    ensures q == Step(tools, version, index, p, row)
  {
    q := p.(seenIds := p.seenIds + {row.externalId});
    if row.externalId in p.seenIds {
      return Blocked(q, DuplicateExternalId, row.externalId);
    }
    if row.externalId !in index {
      return Blocked(q, IndexStateMissing, row.externalId);
    }
    var contentHash := index[row.externalId].contentHash;
    if !IsSha256(contentHash) {
      return Blocked(q, InvalidContentHash, row.externalId);
    }
    q := Observed(tools, q, row);
    var text := DocumentText(tools, row);
    if Strip(tools.space, text) == "" {
      return Blocked(q, EmptyDocument, row.externalId);
    }
    var embedded := EmbeddingVector(text, tools.bucket, tools.root);
    var epoch := tools.epoch(row.availableFrom);
    if embedded.EmptyEmbedding? || epoch.NotATime? {
      return Blocked(q, VectorBuildFailed, row.externalId);
    }
    var vectorId := VectorId(tools, row.externalId, contentHash, row.metadataVersion, version);
    if vectorId in q.seenVectors {
      return Blocked(q, DuplicateVectorId, vectorId);
    }
    q := q.(seenVectors := q.seenVectors + {vectorId},
            records := q.records + [VectorRecord(vectorId, row.externalId, contentHash, row.metadataVersion, version,
                                                 text, embedded.values, epoch.n)]);
  }

  method BuildVectorRecords(tools: Tools, version: string, catalog: seq<CatalogRow>, indexRows: seq<IndexRow>)
      returns (p: Progress)
    requires InRange(tools.bucket)
    ensures p == Run(tools, version, IndexMap(indexRows), catalog)
  {
    var index := IndexRows(indexRows);
    p := START;
    for i := 0 to |catalog|
      invariant p == Run(tools, version, index, catalog[..i])
    {
      assert catalog[..i + 1][..i] == catalog[..i];
      p := HandleRow(tools, version, index, p, catalog[i]);
    }
    assert catalog[..|catalog|] == catalog;
  }

  // ---------------------------------------------------------------- laws

  /** Each row yields exactly one record or exactly one blocker. */
  lemma {:induction false} RowsAccounted(tools: Tools, version: string, index: map<Key, IndexRow>, rows: seq<CatalogRow>)
    ensures var p := Run(tools, version, index, rows); |p.records| + |p.blockers| == |rows|
  {
    if rows != [] {
      RowsAccounted(tools, version, index, rows[..|rows| - 1]);
    }
  }

  ghost predicate DistinctRecords(records: seq<VectorRecord>) {
    forall i, j :: 0 <= i < j < |records| ==>
      records[i].externalId != records[j].externalId && records[i].vectorId != records[j].vectorId
  }

  /** A record's identifiers have been seen, and its vector identifier is computed from the record itself. */
  ghost predicate Known(tools: Tools, p: Progress, r: VectorRecord) {
    && r.externalId in p.seenIds && r.vectorId in p.seenVectors
    && r.vectorId == VectorId(tools, r.externalId, r.contentHash, r.metadataVersion, r.embeddingVersion)
    && IsSha256(r.contentHash)
  }

  ghost predicate Sound(tools: Tools, version: string, p: Progress) {
    && DistinctRecords(p.records)
    && (forall i {:trigger p.records[i]} :: 0 <= i < |p.records| ==>
          Known(tools, p, p.records[i]) && p.records[i].embeddingVersion == version)
    && (forall v :: v in p.seenVectors ==> Issued(p.records, v))
  }

  ghost predicate Issued(records: seq<VectorRecord>, v: Key) {
    exists i :: 0 <= i < |records| && records[i].vectorId == v
  }

  lemma IssuedGrows(records: seq<VectorRecord>, r: VectorRecord, v: Key)
    requires Issued(records, v) || v == r.vectorId
    ensures Issued(records + [r], v)
  {
    if Issued(records, v) {
      var i :| 0 <= i < |records| && records[i].vectorId == v;
      assert (records + [r])[i].vectorId == v;
    } else {
      assert (records + [r])[|records|].vectorId == v;
    }
  }

  lemma SoundWith(tools: Tools, version: string, p: Progress, q: Progress, r: VectorRecord)
    requires Sound(tools, version, p) && r.externalId !in p.seenIds && r.vectorId !in p.seenVectors
    requires q.records == p.records + [r] && q.seenVectors == p.seenVectors + {r.vectorId}
    requires q.seenIds == p.seenIds + {r.externalId}
    requires Known(tools, q, r) && r.embeddingVersion == version
    ensures Sound(tools, version, q)
  {
    forall v | v in q.seenVectors
      ensures Issued(q.records, v)
    {
      IssuedGrows(p.records, r, v);
    }
    forall i | 0 <= i < |p.records|
      ensures Known(tools, q, q.records[i]) && q.records[i].embeddingVersion == version
      ensures q.records[i].externalId != r.externalId && q.records[i].vectorId != r.vectorId
    {
      assert Known(tools, p, p.records[i]);
    }
  }

  lemma StepSound(tools: Tools, version: string, index: map<Key, IndexRow>, p: Progress, row: CatalogRow)
    requires Sound(tools, version, p)
    ensures Sound(tools, version, Step(tools, version, index, p, row))
  {
    var q := Step(tools, version, index, p, row);
    if |q.records| != |p.records| {
      var r := RecordOf(tools, version, row, index[row.externalId].contentHash);
      SoundWith(tools, version, p, q, r);
    }
  }

  lemma {:induction false} RunSound(tools: Tools, version: string, index: map<Key, IndexRow>, rows: seq<CatalogRow>)
    ensures Sound(tools, version, Run(tools, version, index, rows))
  {
    if rows != [] {
      RunSound(tools, version, index, rows[..|rows| - 1]);
      StepSound(tools, version, index, Run(tools, version, index, rows[..|rows| - 1]), rows[|rows| - 1]);
    }
  }

  /** Emitted external identifiers and vector identifiers are pairwise distinct. */
  lemma IdentifiersDistinct(tools: Tools, version: string, index: map<Key, IndexRow>, rows: seq<CatalogRow>)
    ensures DistinctRecords(Run(tools, version, index, rows).records)
  {
    RunSound(tools, version, index, rows);
  }

  // ---------------------------------------------------------------- the vector key reads back

  lemma {:induction false} DigitsReadable(n: nat)
    ensures ColonFree(DigitsOf(n))
  {
    if n >= 10 {
      DigitsReadable(n / 10);
    }
  }

  lemma {:induction false} DigitsApart(m: nat, n: nat)
    requires DigitsOf(m) == DigitsOf(n)
    ensures m == n
  {
    DigitsFilled(m);
    DigitsFilled(n);
    if m >= 10 && n >= 10 {
      var last := |DigitsOf(m)| - 1;
      assert DigitsOf(m / 10) == DigitsOf(m)[..last] && DigitsOf(n / 10) == DigitsOf(n)[..last];
      DigitsApart(m / 10, n / 10);
      assert DigitsOf(m)[last] == DigitsOf(n)[last];
      assert m == m / 10 * 10 + m % 10 && n == n / 10 * 10 + n % 10;
    } else if m < 10 && n < 10 {
      assert DigitsOf(m)[0] == DigitsOf(n)[0];
    }
  }

  lemma {:induction false} DigitsFilled(n: nat)
    ensures |DigitsOf(n)| >= 1 && (|DigitsOf(n)| == 1 <==> n < 10)
  {
    if n >= 10 {
      DigitsFilled(n / 10);
    }
  }

  /** Of the four parts only the external identifier may hold colons, so the key decodes to it, the content hash and the
      version number. */
  lemma VectorKeyReadable(e: string, h: string, m: nat, e': string, h': string, m': nat, version: string)
    requires ColonFree(h) && ColonFree(h') && ColonFree(version)
    requires VectorKey(e, h, m, version) == VectorKey(e', h', m', version)
    ensures e == e' && h == h' && m == m'
  {
    DigitsReadable(m);
    DigitsReadable(m');
    LastPart(e + ":" + h + ":" + DigitsOf(m), version, e' + ":" + h' + ":" + DigitsOf(m'), version);
    LastPart(e + ":" + h, DigitsOf(m), e' + ":" + h', DigitsOf(m'));
    LastPart(e, h, e', h');
    DigitsApart(m, m');
  }

  /** No two vector keys share a digest. */
  ghost predicate DigestsDistinct(tools: Tools) {
    forall a, b :: tools.digest(a) == tools.digest(b) ==> a == b
  }

  lemma VectorIdsApart(tools: Tools, version: string, e: Key, h: string, m: nat, e': Key, h': string, m': nat)
    requires DigestsDistinct(tools) && ColonFree(version) && IsSha256(h) && IsSha256(h')
    requires VectorId(tools, e, h, m, version) == VectorId(tools, e', h', m', version)
    ensures e == e'
  {
    SamePrefix("vec-", tools.digest(VectorKey(e.text, h, m, version)), tools.digest(VectorKey(e'.text, h', m', version)));
    VectorKeyReadable(e.text, h, m, e'.text, h', m', version);
  }

  ghost predicate NoneWith(blockers: seq<VectorBlocker>, code: VectorCode) {
    forall i :: 0 <= i < |blockers| ==> blockers[i].code != code
  }

  lemma FreshVectorId(tools: Tools, version: string, p: Progress, row: CatalogRow, contentHash: string)
    requires Sound(tools, version, p) && DigestsDistinct(tools) && ColonFree(version) && IsSha256(contentHash)
    requires row.externalId !in p.seenIds
    ensures VectorId(tools, row.externalId, contentHash, row.metadataVersion, version) !in p.seenVectors
  {
    var v := VectorId(tools, row.externalId, contentHash, row.metadataVersion, version);
    if v in p.seenVectors {
      assert Issued(p.records, v);
      var i :| 0 <= i < |p.records| && p.records[i].vectorId == v;
      var r := p.records[i];
      assert Known(tools, p, r);
      VectorIdsApart(tools, version, row.externalId, contentHash, row.metadataVersion,
                     r.externalId, r.contentHash, r.metadataVersion);
    }
  }

  /** With collision-free digests the duplicate-vector branch is never taken. */
  lemma {:induction false} DuplicateVectorUnreachable(tools: Tools, version: string, index: map<Key, IndexRow>,
                                                      rows: seq<CatalogRow>)
    requires DigestsDistinct(tools) && ColonFree(version)
    ensures NoneWith(Run(tools, version, index, rows).blockers, DuplicateVectorId)
  {
    if rows != [] {
      var before := Run(tools, version, index, rows[..|rows| - 1]);
      var row := rows[|rows| - 1];
      DuplicateVectorUnreachable(tools, version, index, rows[..|rows| - 1]);
      RunSound(tools, version, index, rows[..|rows| - 1]);
      if Obstacle(tools, index, before.seenIds, row).Clear? {
        FreshVectorId(tools, version, before, row, index[row.externalId].contentHash);
      }
    }
  }
}
