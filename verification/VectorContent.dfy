/** What a vector record holds of its catalog row. */
module VectorContent {
  import opened Keys
  import opened BookRecords
  import opened CatalogRows
  import opened Embedding
  import opened VectorRecords

  function Word(tools: Tools, name: Key): seq<string> {
    var word := tools.normalize(name.text);
    if word == "" then [] else [word]
  }

  /** The normalized names that are not empty, in order. */
  function Words(tools: Tools, names: seq<Key>): seq<string> {
    if names == [] then [] else Word(tools, names[0]) + Words(tools, names[1..])
  }

  /** `" ".join(words)` */
  function Joined(words: seq<string>): string {
    if words == [] then "" else if |words| == 1 then words[0] else words[0] + " " + Joined(words[1..])
  }

  lemma {:induction false} JoinedNext(words: seq<string>, last: string)
    requires forall i :: 0 <= i < |words| ==> words[i] != ""
    ensures Joined(words + [last]) == if words == [] then last else Joined(words) + " " + last
    ensures words != [] ==> Joined(words) != ""
  {
    if words != [] {
      var rest := words[1..];
      JoinedNext(rest, last);
      assert (words + [last])[1..] == rest + [last];
      if rest != [] {
        assert words[0] + " " + (Joined(rest) + " " + last) == words[0] + " " + Joined(rest) + " " + last;
      }
    }
  }

  lemma {:induction false} WordsNext(tools: Tools, names: seq<Key>, last: Key)
    ensures Words(tools, names + [last]) == Words(tools, names) + Word(tools, last)
  {
    if names == [] {
      assert Words(tools, [last][1..]) == [];
    } else {
      var rest := names[1..];
      WordsNext(tools, rest, last);
      assert (names + [last])[1..] == rest + [last];
    }
  }

  lemma {:induction false} WordsFilled(tools: Tools, names: seq<Key>)
    ensures forall i :: 0 <= i < |Words(tools, names)| ==> Words(tools, names)[i] != ""
  {
    if names != [] {
      WordsFilled(tools, names[1..]);
    }
  }

  lemma {:induction false} KeywordLine(tools: Tools, names: seq<Key>)
    ensures JoinNames(tools, names) == Joined(Words(tools, names))
  {
    if names != [] {
      var before, last := names[..|names| - 1], names[|names| - 1];
      var word := tools.normalize(last.text);
      assert names == before + [last];
      KeywordLine(tools, before);
      WordsNext(tools, before, last);
      WordsFilled(tools, before);
      JoinedNext(Words(tools, before), word);
      assert Words(tools, before) + [] == Words(tools, before);
    }
  }

  /** The document of a row: title, keywords and abstract on a line each. */
  ghost predicate IsDocument(tools: Tools, row: CatalogRow, document: string) {
    document == tools.normalize(row.title) + "\n" + Joined(Words(tools, row.keywords)) + "\n" +
      match row.summary
      case None => tools.normalize("")
      case Text(text) => tools.normalize(text)
      case _ => if Truthy(row.summary) then tools.normalize(tools.show(row.summary)) else tools.normalize("")
  }

  lemma DocumentLines(tools: Tools, row: CatalogRow)
    ensures IsDocument(tools, row, DocumentText(tools, row))
  {
    KeywordLine(tools, row.keywords);
    var t, k, a := tools.normalize(row.title), JoinNames(tools, row.keywords), NormalField(tools, row.summary);
    assert t + ("\n" + k + "\n" + a) == t + "\n" + k + "\n" + a;
  }

  /** Entry by entry the vector of a text: how many n-grams fall into the bucket, over the length of all the counts. */
  ghost predicate IsVector(tools: Tools, document: string, vector: seq<real>) {
    var norm := tools.root(Squares(PlaceCounts(document, tools.bucket)));
    && norm > 0.0 && |vector| == DIMENSION
    && forall b :: 0 <= b < DIMENSION ==> vector[b] == |Places(document, tools.bucket, b)| as real / norm
  }

  /** A record of the row, under the content hash of its index row. */
  ghost predicate IsRecordOf(tools: Tools, version: string, index: map<Key, IndexRow>, row: CatalogRow, r: VectorRecord) {
    && row.externalId in index && r.externalId == row.externalId
    && r.contentHash == index[row.externalId].contentHash
    && r.metadataVersion == row.metadataVersion && r.embeddingVersion == version
    && tools.epoch(row.availableFrom) == Seconds(r.availableFrom)
    && IsDocument(tools, row, r.document) && IsVector(tools, r.document, r.vector)
  }

  lemma VectorEntries(tools: Tools, document: string)
    requires InRange(tools.bucket) && IsRoot(tools.root) && Embed(document, tools.bucket, tools.root).Vector?
    ensures IsVector(tools, document, Embed(document, tools.bucket, tools.root).values)
  {
    EmptyIffShort(document, tools.bucket, tools.root);
    VectorOfPlaces(document, tools.bucket, tools.root, 0);
    forall b | 0 <= b < DIMENSION
      ensures Embed(document, tools.bucket, tools.root).values[b] ==
        |Places(document, tools.bucket, b)| as real / tools.root(Squares(PlaceCounts(document, tools.bucket)))
    {
      VectorOfPlaces(document, tools.bucket, tools.root, b);
    }
  }

  lemma NewRecord(tools: Tools, version: string, index: map<Key, IndexRow>, p: Progress, row: CatalogRow)
    requires InRange(tools.bucket) && IsRoot(tools.root)
    ensures var q := Step(tools, version, index, p, row);
      && p.records <= q.records && |q.records| <= |p.records| + 1
      && (|q.records| > |p.records| ==> IsRecordOf(tools, version, index, row, q.records[|p.records|]))
      && p.blockers <= q.blockers && (q.blockers == p.blockers ==> |q.records| == |p.records| + 1)
  {
    if Obstacle(tools, index, p.seenIds, row).Clear? {
      DocumentLines(tools, row);
      VectorEntries(tools, DocumentText(tools, row));
    }
  }

  /** Every record is a record of one of the rows. */
  lemma {:induction false} RecordsDescribeRows(tools: Tools, version: string, index: map<Key, IndexRow>,
                                               rows: seq<CatalogRow>, i: nat)
    requires InRange(tools.bucket) && IsRoot(tools.root) && i < |Run(tools, version, index, rows).records|
    ensures exists row :: row in rows && IsRecordOf(tools, version, index, row, Run(tools, version, index, rows).records[i])
  {
    var n := |rows| - 1;
    var before := Run(tools, version, index, rows[..n]);
    NewRecord(tools, version, index, before, rows[n]);
    assert rows == rows[..n] + [rows[n]];
    if i < |before.records| {
      RecordsDescribeRows(tools, version, index, rows[..n], i);
    }
  }

  ghost predicate RecordsOf(tools: Tools, version: string, index: map<Key, IndexRow>, rows: seq<CatalogRow>,
                            records: seq<VectorRecord>) {
    |records| == |rows| && forall i :: 0 <= i < |rows| ==> IsRecordOf(tools, version, index, rows[i], records[i])
  }

  lemma RecordsOfNext(tools: Tools, version: string, index: map<Key, IndexRow>, rows: seq<CatalogRow>,
                      records: seq<VectorRecord>, row: CatalogRow, r: VectorRecord)
    requires RecordsOf(tools, version, index, rows, records) && IsRecordOf(tools, version, index, row, r)
    ensures RecordsOf(tools, version, index, rows + [row], records + [r])
  {
  }

  lemma NoBlockerMeansRecord(tools: Tools, version: string, index: map<Key, IndexRow>, p: Progress, row: CatalogRow)
      returns (r: VectorRecord)
    requires InRange(tools.bucket) && IsRoot(tools.root) && Step(tools, version, index, p, row).blockers == []
    ensures p.blockers == []
    ensures IsRecordOf(tools, version, index, row, r) && Step(tools, version, index, p, row).records == p.records + [r]
  {
    NewRecord(tools, version, index, p, row);
    var q := Step(tools, version, index, p, row);
    r := q.records[|p.records|];
    assert q.records == p.records + [r];
  }

  /** One turn of the loop, whatever it does. */
  type Turn = (Progress, CatalogRow) -> Progress

  ghost function Turns(turn: Turn, rows: seq<CatalogRow>): Progress {
    if rows == [] then START else turn(Turns(turn, rows[..|rows| - 1]), rows[|rows| - 1])
  }

  type Claim = (seq<CatalogRow>, Progress) -> bool

  /** What holds before the first turn and is kept by every turn without a blocker holds after a run without one. */
  lemma {:induction false} TurnsKeep(turn: Turn, claim: Claim, rows: seq<CatalogRow>)
    requires claim([], START) && Turns(turn, rows).blockers == []
    requires forall p, row {:trigger turn(p, row)} :: turn(p, row).blockers == [] ==> p.blockers == []
    requires forall front, p, row {:trigger claim(front, p), turn(p, row)} ::
      claim(front, p) && turn(p, row).blockers == [] ==> claim(front + [row], turn(p, row))
    ensures claim(rows, Turns(turn, rows))
    decreases |rows|
  {
    if rows != [] {
      var n := |rows| - 1;
      var front, last := rows[..n], rows[n];
      TurnsKeep(turn, claim, front);
      assert rows == front + [last];
    }
  }

  ghost function TurnOf(tools: Tools, version: string, index: map<Key, IndexRow>): Turn {
    (p: Progress, row: CatalogRow) => Step(tools, version, index, p, row)
  }

  lemma {:induction false} RunIsTurns(tools: Tools, version: string, index: map<Key, IndexRow>, rows: seq<CatalogRow>)
    ensures Run(tools, version, index, rows) == Turns(TurnOf(tools, version, index), rows)
    decreases |rows|
  {
    if rows != [] {
      var n := |rows| - 1;
      RunIsTurns(tools, version, index, rows[..n]);
    }
  }

  lemma BlockersKept(tools: Tools, version: string, index: map<Key, IndexRow>, p: Progress, row: CatalogRow)
    requires Step(tools, version, index, p, row).blockers == []
    ensures p.blockers == []
  {
    assert p.blockers <= Step(tools, version, index, p, row).blockers;
  }

  /** A run without blockers turns each row into the record at its place. */
  lemma RowByRow(tools: Tools, version: string, index: map<Key, IndexRow>, rows: seq<CatalogRow>)
    requires InRange(tools.bucket) && IsRoot(tools.root) && Run(tools, version, index, rows).blockers == []
    ensures RecordsOf(tools, version, index, rows, Run(tools, version, index, rows).records)
  {
    var turn := TurnOf(tools, version, index);
    var claim: Claim := (front: seq<CatalogRow>, p: Progress) => RecordsOf(tools, version, index, front, p.records);
    forall p, row | turn(p, row).blockers == []
      ensures p.blockers == []
    {
      BlockersKept(tools, version, index, p, row);
    }
    forall front, p, row | claim(front, p) && turn(p, row).blockers == []
      ensures claim(front + [row], turn(p, row))
    {
      var r := NoBlockerMeansRecord(tools, version, index, p, row);
      RecordsOfNext(tools, version, index, front, p.records, row, r);
    }
    RunIsTurns(tools, version, index, rows);
    TurnsKeep(turn, claim, rows);
  }

  // ---------------------------------------------------------------- the two warning counts

  predicate LacksAbstract(tools: Tools, row: CatalogRow) {
    NormalField(tools, row.summary) == ""
  }

  predicate LacksKeyword(tools: Tools, row: CatalogRow) {
    Words(tools, row.keywords) == []
  }

  function NoAbstract(tools: Tools, rows: seq<CatalogRow>): set<int> {
    set i | 0 <= i < |rows| && LacksAbstract(tools, rows[i])
  }

  function NoKeyword(tools: Tools, rows: seq<CatalogRow>): set<int> {
    set i | 0 <= i < |rows| && LacksKeyword(tools, rows[i])
  }

  lemma NoAbstractNext(tools: Tools, rows: seq<CatalogRow>, row: CatalogRow)
    ensures |NoAbstract(tools, rows + [row])| == |NoAbstract(tools, rows)| + if LacksAbstract(tools, row) then 1 else 0
  {
    var more, last := rows + [row], if LacksAbstract(tools, row) then {|rows|} else {};
    forall i
      ensures i in NoAbstract(tools, more) <==> i in NoAbstract(tools, rows) + last
    {
      assert 0 <= i < |rows| ==> more[i] == rows[i];
    }
    assert NoAbstract(tools, more) == NoAbstract(tools, rows) + last;
  }

  lemma NoKeywordNext(tools: Tools, rows: seq<CatalogRow>, row: CatalogRow)
    ensures |NoKeyword(tools, rows + [row])| == |NoKeyword(tools, rows)| + if LacksKeyword(tools, row) then 1 else 0
  {
    var more, last := rows + [row], if LacksKeyword(tools, row) then {|rows|} else {};
    forall i
      ensures i in NoKeyword(tools, more) <==> i in NoKeyword(tools, rows) + last
    {
      assert 0 <= i < |rows| ==> more[i] == rows[i];
    }
    assert NoKeyword(tools, more) == NoKeyword(tools, rows) + last;
  }

  lemma {:induction false} NoWords(tools: Tools, names: seq<Key>)
    ensures Words(tools, names) == [] <==> forall k :: k in names ==> tools.normalize(k.text) == ""
  {
    if names != [] {
      NoWords(tools, names[1..]);
      assert names == [names[0]] + names[1..];
    }
  }

  ghost predicate Counted(tools: Tools, rows: seq<CatalogRow>, p: Progress) {
    && p.missingAbstracts == |NoAbstract(tools, rows)|
    && p.missingKeywords == |NoKeyword(tools, rows)|
  }

  lemma StepWarns(tools: Tools, version: string, index: map<Key, IndexRow>, p: Progress, row: CatalogRow)
    requires Step(tools, version, index, p, row).blockers == p.blockers
    ensures var q := Step(tools, version, index, p, row);
      && q.missingAbstracts == p.missingAbstracts + (if LacksAbstract(tools, row) then 1 else 0)
      && q.missingKeywords == p.missingKeywords + (if LacksKeyword(tools, row) then 1 else 0)
  {
    NoWords(tools, row.keywords);
  }

  lemma CountedNext(tools: Tools, rows: seq<CatalogRow>, row: CatalogRow, p: Progress, q: Progress)
    requires Counted(tools, rows, p)
    requires q.missingAbstracts == p.missingAbstracts + if LacksAbstract(tools, row) then 1 else 0
    requires q.missingKeywords == p.missingKeywords + if LacksKeyword(tools, row) then 1 else 0
    ensures Counted(tools, rows + [row], q)
  {
    NoAbstractNext(tools, rows, row);
    NoKeywordNext(tools, rows, row);
  }

  lemma StepCounted(tools: Tools, version: string, index: map<Key, IndexRow>, rows: seq<CatalogRow>, row: CatalogRow,
                    p: Progress, q: Progress)
    requires Counted(tools, rows, p) && p.blockers == []
    requires q == Step(tools, version, index, p, row) && q.blockers == []
    ensures Counted(tools, rows + [row], q)
  {
    StepWarns(tools, version, index, p, row);
    CountedNext(tools, rows, row, p, q);
  }

  /** A run without blockers counts the rows without an abstract and the rows without a keyword. */
  lemma WarningsCounted(tools: Tools, version: string, index: map<Key, IndexRow>, rows: seq<CatalogRow>)
    requires Run(tools, version, index, rows).blockers == []
    ensures Counted(tools, rows, Run(tools, version, index, rows))
  {
    var turn := TurnOf(tools, version, index);
    var claim: Claim := (front: seq<CatalogRow>, p: Progress) => Counted(tools, front, p);
    forall p, row | turn(p, row).blockers == []
      ensures p.blockers == []
    {
      BlockersKept(tools, version, index, p, row);
    }
    forall front, p, row | claim(front, p) && turn(p, row).blockers == []
      ensures claim(front + [row], turn(p, row))
    {
      BlockersKept(tools, version, index, p, row);
      StepCounted(tools, version, index, front, row, p, turn(p, row));
    }
    RunIsTurns(tools, version, index, rows);
    TurnsKeep(turn, claim, rows);
  }
}
