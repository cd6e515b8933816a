/** The checks of the G11 migration text: the scanner of the first executor, the stricter reading of the
    successor, and what the order they leave open means when a run is cut off. */
module G11Scanner {
  import opened Sql

  const IAM_TABLES: seq<string> := [
    "iam_user_account", "iam_login_identifier", "iam_password_credential", "iam_role", "iam_permission",
    "iam_role_permission_fact", "iam_user_role_fact", "iam_auth_session", "iam_refresh_token",
    "iam_action_token", "iam_security_event", "user_personalization_consent_fact"]
  const IAM_VIEWS: seq<string> := [
    "iam_effective_role_permission_v", "iam_effective_user_role_v", "user_effective_personalization_consent_v"]
  const MARKER_TABLE := "recpro_schema_migration"
  const SEED_TARGETS: seq<string> := ["iam_role", "iam_permission", "iam_role_permission_fact", MARKER_TABLE]
  const STATEMENT_COUNT: nat := 19

  /** What the prefix of a statement shows it to be. */
  datatype Shape = Table(name: string) | View(name: string) | Insert(target: string) | Other

  /** A statement with the verdicts of the two keyword searches. */
  datatype Text = Text(shape: Shape, destructive: bool, forbidden: bool)

  predicate IsSchema(t: Text) {
    t.shape.Table? || t.shape.View?
  }

  /** The schema statements, in order. */
  function SchemaPart(texts: seq<Text>): seq<Shape> {
    if texts == [] then []
    else
      var last := texts[|texts| - 1];
      SchemaPart(texts[..|texts| - 1]) + (if IsSchema(last) then [last.shape] else [])
  }

  /** The insert targets, in order. */
  function InsertPart(texts: seq<Text>): seq<string> {
    if texts == [] then []
    else
      var last := texts[|texts| - 1];
      InsertPart(texts[..|texts| - 1]) + (if last.shape.Insert? then [last.shape.target] else [])
  }

  function ExpectedSchema(): (shapes: seq<Shape>)
    ensures |shapes| == |IAM_TABLES| + |IAM_VIEWS|
  {
    seq(|IAM_TABLES|, i requires 0 <= i < |IAM_TABLES| => Table(IAM_TABLES[i]))
    + seq(|IAM_VIEWS|, i requires 0 <= i < |IAM_VIEWS| => View(IAM_VIEWS[i]))
  }

  /** An interleaving of the schema statements in fixed order with the seed inserts in fixed order. */
  ghost predicate Accepts(texts: seq<Text>) {
    && |texts| == STATEMENT_COUNT
    && (forall i :: 0 <= i < |texts| ==> !texts[i].destructive && !texts[i].shape.Other?)
    && SchemaPart(texts) == ExpectedSchema()
    && InsertPart(texts) == SEED_TARGETS
  }

  lemma {:induction false} PartsOfPrefix(texts: seq<Text>, i: nat)
    requires i <= |texts|
    ensures SchemaPart(texts[..i]) <= SchemaPart(texts) && InsertPart(texts[..i]) <= InsertPart(texts)
  {
    if i == |texts| {
      assert texts[..i] == texts;
    } else {
      var shorter := texts[..|texts| - 1];
      PartsOfPrefix(shorter, i);
      assert shorter[..i] == texts[..i];
    }
  }

  lemma PartsNext(texts: seq<Text>, i: nat)
    requires i < |texts|
    ensures SchemaPart(texts[..i + 1]) == SchemaPart(texts[..i]) + (if IsSchema(texts[i]) then [texts[i].shape] else [])
    ensures InsertPart(texts[..i + 1]) == InsertPart(texts[..i]) + (if texts[i].shape.Insert? then [texts[i].shape.target] else [])
  {
    assert texts[..i + 1][..i] == texts[..i];
  }

  /** The next schema statement of an accepted text is the next expected one. */
  lemma NextSchemaExpected(texts: seq<Text>, i: nat, n: nat)
    requires i < |texts| && IsSchema(texts[i])
    requires SchemaPart(texts) == ExpectedSchema() && n == |SchemaPart(texts[..i])|
    ensures n < |ExpectedSchema()| && texts[i].shape == ExpectedSchema()[n]
  {
    PartsNext(texts, i);
    PartsOfPrefix(texts, i + 1);
    assert SchemaPart(texts[..i + 1])[n] == texts[i].shape;
  }

  lemma NextTargetExpected(texts: seq<Text>, i: nat)
    requires i < |texts| && texts[i].shape.Insert? && InsertPart(texts) == SEED_TARGETS
    ensures texts[i].shape.target in SEED_TARGETS
  {
    PartsNext(texts, i);
    PartsOfPrefix(texts, i + 1);
    var n := |InsertPart(texts[..i])|;
    assert InsertPart(texts[..i + 1])[n] == texts[i].shape.target;
    assert SEED_TARGETS[n] == texts[i].shape.target;
  }

  /** The scanner's position after a prefix it has not refused. */
  ghost predicate Scanned(texts: seq<Text>, i: nat, tableIndex: nat, viewIndex: nat, inserts: seq<string>)
    requires i <= |texts|
  {
    && tableIndex <= |IAM_TABLES| && viewIndex <= |IAM_VIEWS|
    && (viewIndex > 0 ==> tableIndex == |IAM_TABLES|)
    && SchemaPart(texts[..i]) == ExpectedSchema()[..tableIndex + viewIndex]
    && InsertPart(texts[..i]) == inserts
    && forall j :: 0 <= j < i ==> !texts[j].destructive && !texts[j].shape.Other?
  }

  lemma ScanSchema(texts: seq<Text>, i: nat, tableIndex: nat, viewIndex: nat, inserts: seq<string>)
    requires i < |texts| && Scanned(texts, i, tableIndex, viewIndex, inserts) && !texts[i].destructive
    requires tableIndex + viewIndex < |ExpectedSchema()| && texts[i].shape == ExpectedSchema()[tableIndex + viewIndex]
    ensures tableIndex < |IAM_TABLES| ==> Scanned(texts, i + 1, tableIndex + 1, viewIndex, inserts)
    ensures tableIndex == |IAM_TABLES| ==> Scanned(texts, i + 1, tableIndex, viewIndex + 1, inserts)
  {
    PartsNext(texts, i);
    var n := tableIndex + viewIndex;
    assert ExpectedSchema()[..n + 1] == ExpectedSchema()[..n] + [ExpectedSchema()[n]];
  }

  lemma ScanInsert(texts: seq<Text>, i: nat, tableIndex: nat, viewIndex: nat, inserts: seq<string>)
    requires i < |texts| && Scanned(texts, i, tableIndex, viewIndex, inserts) && !texts[i].destructive
    requires texts[i].shape.Insert?
    ensures Scanned(texts, i + 1, tableIndex, viewIndex, inserts + [texts[i].shape.target])
  {
    PartsNext(texts, i);
  }

  /** A statement the scanner has no branch for is in no accepted text. */
  lemma ScanRefuses(texts: seq<Text>, i: nat, tableIndex: nat, viewIndex: nat, inserts: seq<string>)
    requires i < |texts| && Scanned(texts, i, tableIndex, viewIndex, inserts)
    requires texts[i].destructive
      || (texts[i].shape.Insert? && texts[i].shape.target !in SEED_TARGETS)
      || (!texts[i].shape.Insert? &&
          (tableIndex + viewIndex == |ExpectedSchema()| || texts[i].shape != ExpectedSchema()[tableIndex + viewIndex]))
    ensures !Accepts(texts)
  {
    if Accepts(texts) && !texts[i].destructive {
      if texts[i].shape.Insert? {
        NextTargetExpected(texts, i);
      } else {
        NextSchemaExpected(texts, i, tableIndex + viewIndex);
      }
    }
  }

  lemma ScanEnds(texts: seq<Text>, tableIndex: nat, viewIndex: nat, inserts: seq<string>)
    requires |texts| == STATEMENT_COUNT && Scanned(texts, |texts|, tableIndex, viewIndex, inserts)
    ensures Accepts(texts) <==>
      tableIndex == |IAM_TABLES| && viewIndex == |IAM_VIEWS| && inserts == SEED_TARGETS
  {
    assert texts[..|texts|] == texts;
    var n := tableIndex + viewIndex;
    assert |ExpectedSchema()[..n]| == n;
    if n == |ExpectedSchema()| {
      assert ExpectedSchema()[..n] == ExpectedSchema();
    }
  }

  /** `validate_migration_statements`: true when it returns, false when it raises. */
  method Validate(texts: seq<Text>) returns (ok: bool)
    ensures ok <==> Accepts(texts)
  {
    if |texts| != STATEMENT_COUNT { return false; }
    var tableIndex, viewIndex := 0, 0;
    var inserts: seq<string> := [];
    for i := 0 to |texts|
      invariant Scanned(texts, i, tableIndex, viewIndex, inserts)
    {
      var shape := texts[i].shape;
      ghost var t, v, before := tableIndex, viewIndex, inserts;
      if tableIndex < |IAM_TABLES| && shape == Table(IAM_TABLES[tableIndex]) {
        tableIndex := tableIndex + 1;
      } else if tableIndex == |IAM_TABLES| && viewIndex < |IAM_VIEWS| && shape == View(IAM_VIEWS[viewIndex]) {
        viewIndex := viewIndex + 1;
      } else if shape.Insert? {
        if shape.target !in SEED_TARGETS {
          ScanRefuses(texts, i, t, v, before);
          return false;
        }
        inserts := inserts + [shape.target];
      } else {
        ScanRefuses(texts, i, t, v, before);
        return false;
      }
      if texts[i].destructive {
        ScanRefuses(texts, i, t, v, before);
        return false;
      }
      if shape.Insert? {
        ScanInsert(texts, i, t, v, before);
      } else {
        ScanSchema(texts, i, t, v, before);
      }
    }
    ScanEnds(texts, tableIndex, viewIndex, inserts);
    ok := tableIndex == |IAM_TABLES| && viewIndex == |IAM_VIEWS| && inserts == SEED_TARGETS;
  }

  // ---------------------------------------------------------------- the successor's reading

  /** Tables, then views, then seed inserts with the marker last. */
  ghost predicate Canonical(texts: seq<Text>) {
    && |texts| == STATEMENT_COUNT
    && (forall i :: 0 <= i < 12 ==> texts[i].shape == Table(IAM_TABLES[i]))
    && (forall i :: 0 <= i < 3 ==> texts[12 + i].shape == View(IAM_VIEWS[i]))
    && (forall i :: 0 <= i < 4 ==> texts[15 + i].shape == Insert(SEED_TARGETS[i]))
  }

  lemma CanonicalTail(texts: seq<Text>)
    ensures Canonical(texts) ==>
      (forall j :: 12 <= j < 15 ==> texts[j].shape == View(IAM_VIEWS[j - 12])) &&
      (forall j :: 15 <= j < 19 ==> texts[j].shape.Insert?)
  {
    if Canonical(texts) {
      forall j | 12 <= j < 15
        ensures texts[j].shape == View(IAM_VIEWS[j - 12])
      {
        assert texts[12 + (j - 12)].shape == View(IAM_VIEWS[j - 12]);
      }
      forall j | 15 <= j < 19
        ensures texts[j].shape.Insert?
      {
        assert texts[15 + (j - 15)].shape == Insert(SEED_TARGETS[j - 15]);
      }
    }
  }

  /** `completion_statements`: the seven statements after the tables, or a refusal. */
  method Completion(texts: seq<Text>) returns (ok: bool, selected: seq<Text>)
    ensures ok ==> |texts| >= 12 && selected == texts[12..]
    ensures ok <==> Accepts(texts) && Canonical(texts) && forall i :: 12 <= i < |texts| ==> !texts[i].forbidden
  {
    selected := [];
    ok := Validate(texts);
    if !ok { return; }
    selected := texts[|IAM_TABLES|..];
    if |selected| != |IAM_VIEWS| + |SEED_TARGETS| { return false, selected; }
    CanonicalTail(texts);
    for index := 0 to |selected|
      invariant forall j :: 0 <= j < index ==> !selected[j].forbidden
      invariant forall j :: 0 <= j < index && j < 3 ==> selected[j].shape == View(IAM_VIEWS[j])
      invariant forall j :: 3 <= j < index ==> selected[j].shape.Insert?
    {
      assert selected[index] == texts[12 + index];
      if index < |IAM_VIEWS| {
        if selected[index].shape != View(IAM_VIEWS[index]) { return false, selected; }
      } else if !selected[index].shape.Insert? {
        return false, selected;
      }
      if selected[index].forbidden { return false, selected; }
    }
    ViewsThenInserts(texts, selected);
  }

  /** Once the last seven statements are the views and four inserts, the rest of the order is forced. */
  lemma ViewsThenInserts(texts: seq<Text>, selected: seq<Text>)
    requires Accepts(texts) && selected == texts[12..]
    requires forall j :: 0 <= j < 3 ==> selected[j].shape == View(IAM_VIEWS[j])
    requires forall j :: 3 <= j < 7 ==> selected[j].shape.Insert?
    ensures Canonical(texts)
  {
    InsertSuffix(texts);
    forall i | 0 <= i < 12
      ensures texts[i].shape == Table(IAM_TABLES[i])
    {
      NoInsertsBefore(texts, i);
      NextSchemaExpected(texts, i, i);
      assert ExpectedSchema()[i] == Table(IAM_TABLES[i]);
    }
  }

  lemma InsertSuffix(texts: seq<Text>)
    requires |texts| == 19 && forall j :: 15 <= j < 19 ==> texts[j].shape.Insert?
    requires InsertPart(texts) == SEED_TARGETS
    ensures forall j :: 0 <= j < 4 ==> texts[15 + j].shape == Insert(SEED_TARGETS[j])
    ensures InsertPart(texts[..15]) == []
  {
    assert texts[..19] == texts;
    PartsNext(texts, 15);
    PartsNext(texts, 16);
    PartsNext(texts, 17);
    PartsNext(texts, 18);
    var p := InsertPart(texts[..15]);
    assert |p| == 0;
    assert InsertPart(texts) == [texts[15].shape.target, texts[16].shape.target, texts[17].shape.target, texts[18].shape.target];
  }

  lemma {:induction false} NoInsertsBefore(texts: seq<Text>, i: nat)
    requires i < |texts| && i < 15 && |texts| == 19 && InsertPart(texts[..15]) == []
    requires forall j :: 0 <= j < |texts| ==> !texts[j].shape.Other?
    ensures |SchemaPart(texts[..i])| == i && IsSchema(texts[i])
  {
    PartsNext(texts, i);
    PartsOfPrefix(texts[..15], i + 1);
    assert texts[..15][..i + 1] == texts[..i + 1];
    if i > 0 {
      NoInsertsBefore(texts, i - 1);
      PartsNext(texts, i - 1);
    }
  }

  // ---------------------------------------------------------------- what the open order can cost

  /** The new table an insert needs; the marker's table was there before the migration. */
  function Needs(target: string): set<string> {
    if target == MARKER_TABLE then {} else {target}
  }

  function ToSql(shape: Shape): Statement<string, string>
    requires !shape.Other?
  {
    match shape
    case Table(name) => CreateTable(name)
    case View(name) => CreateView(name)
    case Insert(target) => InsertIgnore(Needs(target), {target})
  }

  ghost predicate AllShaped(texts: seq<Text>) {
    forall j :: 0 <= j < |texts| ==> !texts[j].shape.Other?
  }

  /** The transaction after its first `i` statements; it ends with the first statement that fails. */
  function After(texts: seq<Text>, i: nat): Effect<string, string>
    requires i <= |texts| && AllShaped(texts)
  {
    if i == 0 then Effect(Durable({}, {}), {}, 0, true)
    else
      var before := After(texts, i - 1);
      if before.ok then Execute(before.durable, before.pending, ToSql(texts[i - 1].shape), false, {}) else before
  }

  /** What survives when the run is cut off at statement `i`: a schema statement that fails or is cut off has already
      committed the open transaction; anything else, a failed insert included, loses it. */
  function CutOff(texts: seq<Text>, i: nat): Durable<string, string>
    requires i <= |texts| && AllShaped(texts)
  {
    var e := After(texts, i);
    if e.ok && i < |texts| && IsSchema(texts[i]) then Durable(e.durable.objects, e.durable.facts + e.pending) else e.durable
  }

  function Names(shapes: seq<Shape>): set<string> {
    set s | s in shapes && (s.Table? || s.View?) :: s.name
  }

  function Targets(inserts: seq<string>): set<string> {
    set t | t in inserts
  }

  /** No row comes from anywhere but an insert. */
  ghost predicate Within(e: Effect<string, string>, inserts: seq<string>) {
    e.durable.facts + e.pending <= Targets(inserts)
  }

  lemma {:induction false} AfterWithin(texts: seq<Text>, i: nat)
    requires i <= |texts| && AllShaped(texts)
    ensures Within(After(texts, i), InsertPart(texts[..i]))
  {
    if i > 0 {
      AfterWithin(texts, i - 1);
      PartsNext(texts, i - 1);
      var shorter, longer := InsertPart(texts[..i - 1]), InsertPart(texts[..i]);
      assert forall t :: t in shorter ==> t in longer;
      if texts[i - 1].shape.Insert? {
        assert longer[|longer| - 1] == texts[i - 1].shape.target;
      }
    }
  }

  /** Every statement so far has succeeded: all objects are there, and all rows are held. */
  ghost predicate Contents(e: Effect<string, string>, schema: seq<Shape>, inserts: seq<string>) {
    && e.ok && e.durable.facts + e.pending == Targets(inserts)
    && e.durable.objects == Names(schema)
  }

  lemma OneMore<T>(facts: set<T>, pending: set<T>, row: T)
    ensures facts + (pending + ({row} - {} - facts - pending)) == facts + pending + {row}
  {
  }

  lemma TargetsNext(inserts: seq<string>, target: string)
    ensures Targets(inserts + [target]) == Targets(inserts) + {target}
  {
  }

  lemma InsertContents(e: Effect<string, string>, target: string, schema: seq<Shape>, inserts: seq<string>)
    requires Contents(e, schema, inserts) && Needs(target) <= Names(schema)
    ensures Contents(Execute(e.durable, e.pending, ToSql(Insert(target)), false, {}), schema, inserts + [target])
  {
    TargetsNext(inserts, target);
    OneMore(e.durable.facts, e.pending, target);
  }

  lemma SchemaContents(e: Effect<string, string>, shape: Shape, schema: seq<Shape>, inserts: seq<string>)
    requires Contents(e, schema, inserts) && (shape.Table? || (shape.View? && shape.name !in Names(schema)))
    ensures Contents(Execute(e.durable, e.pending, ToSql(shape), false, {}), schema + [shape], inserts)
  {
    assert Names(schema + [shape]) == Names(schema) + {shape.name};
  }

  /** No two expected objects have one name. */
  lemma ViewIsNew(shapes: seq<Shape>, n: nat)
    requires 12 <= n < 15 && shapes == ExpectedSchema()[..n]
    ensures ExpectedSchema()[n].View? && ExpectedSchema()[n].name !in Names(shapes)
  {
    var view := IAM_VIEWS[n - 12];
    assert ExpectedSchema()[n] == View(view);
    forall k | 0 <= k < n
      ensures (shapes[k].Table? || shapes[k].View?) && shapes[k].name != view
    {
      if k < 12 {
        assert shapes[k] == Table(IAM_TABLES[k]);
        assert IAM_TABLES[k] != view;
      } else {
        assert shapes[k] == View(IAM_VIEWS[k - 12]);
        assert IAM_VIEWS[k - 12] != view;
      }
    }
  }

  /** A seed insert that stands before the CREATE TABLE of its own table. */
  ghost predicate EarlySeed(texts: seq<Text>, i: nat) {
    && i < |texts| && texts[i].shape.Insert? && texts[i].shape.target != MARKER_TABLE
    && Table(texts[i].shape.target) !in SchemaPart(texts[..i])
  }

  ghost predicate SomeEarlySeed(texts: seq<Text>) {
    exists i: nat :: EarlySeed(texts, i)
  }

  /** Without an early seed every statement of an accepted text succeeds. */
  lemma {:induction false} AfterContents(texts: seq<Text>, i: nat)
    requires i <= |texts| && Accepts(texts) && !SomeEarlySeed(texts)
    ensures Contents(After(texts, i), SchemaPart(texts[..i]), InsertPart(texts[..i]))
  {
    if i > 0 {
      var n := i - 1;
      AfterContents(texts, n);
      ContentsNext(texts, n);
    }
  }

  lemma ContentsNext(texts: seq<Text>, n: nat)
    requires n < |texts| && Accepts(texts) && !SomeEarlySeed(texts)
    requires Contents(After(texts, n), SchemaPart(texts[..n]), InsertPart(texts[..n]))
    ensures Contents(After(texts, n + 1), SchemaPart(texts[..n + 1]), InsertPart(texts[..n + 1]))
  {
    PartsNext(texts, n);
    if texts[n].shape.Insert? {
      SeedTableThere(texts, n);
      InsertContents(After(texts, n), texts[n].shape.target, SchemaPart(texts[..n]), InsertPart(texts[..n]));
    } else {
      NextObjectIsNew(texts, n);
      SchemaContents(After(texts, n), texts[n].shape, SchemaPart(texts[..n]), InsertPart(texts[..n]));
    }
  }

  lemma SeedTableThere(texts: seq<Text>, i: nat)
    requires i < |texts| && texts[i].shape.Insert? && !EarlySeed(texts, i)
    ensures Needs(texts[i].shape.target) <= Names(SchemaPart(texts[..i]))
  {
  }

  lemma NextObjectIsNew(texts: seq<Text>, i: nat)
    requires Accepts(texts) && i < |texts| && !texts[i].shape.Insert?
    ensures var shape := texts[i].shape;
      shape.Table? || (shape.View? && shape.name !in Names(SchemaPart(texts[..i])))
  {
    var n := |SchemaPart(texts[..i])|;
    NextSchemaExpected(texts, i, n);
    PartsOfPrefix(texts, i);
    if n >= 12 {
      ViewIsNew(SchemaPart(texts[..i]), n);
    } else {
      assert ExpectedSchema()[n] == Table(IAM_TABLES[n]);
    }
  }

  lemma {:induction false} ObjectsWithin(texts: seq<Text>, i: nat)
    requires i <= |texts| && AllShaped(texts)
    ensures After(texts, i).durable.objects <= Names(SchemaPart(texts[..i]))
  {
    if i > 0 {
      ObjectsWithin(texts, i - 1);
      PartsNext(texts, i - 1);
      var shorter, longer := SchemaPart(texts[..i - 1]), SchemaPart(texts[..i]);
      assert forall s :: s in shorter ==> s in longer;
      if IsSchema(texts[i - 1]) {
        assert longer[|longer| - 1] == texts[i - 1].shape;
      }
    }
  }

  /** A seed's table is missing until its own CREATE TABLE. */
  lemma EarlyTableMissing(texts: seq<Text>, i: nat)
    requires Accepts(texts) && EarlySeed(texts, i)
    ensures texts[i].shape.target !in Names(SchemaPart(texts[..i]))
  {
    NextTargetExpected(texts, i);
    PartsOfPrefix(texts, i);
    var target, part := texts[i].shape.target, SchemaPart(texts[..i]);
    SeedIsNoView(target);
    forall k | 0 <= k < |part|
      ensures (part[k].Table? || part[k].View?) && part[k].name != target
    {
      assert part[k] == ExpectedSchema()[k];
      if k < 12 {
        assert part[k] == Table(IAM_TABLES[k]);
      } else {
        assert part[k] == View(IAM_VIEWS[k - 12]);
      }
    }
  }

  lemma SeedIsNoView(target: string)
    requires target in SEED_TARGETS
    ensures forall v :: 0 <= v < 3 ==> IAM_VIEWS[v] != target
  {
    forall v, q | 0 <= v < 3 && 0 <= q < 4
      ensures IAM_VIEWS[v] != SEED_TARGETS[q]
    {
      assert IAM_VIEWS[v][|IAM_VIEWS[v]| - 1] == 'v';
      assert SEED_TARGETS[q][|SEED_TARGETS[q]| - 1] != 'v';
    }
  }

  /** An early seed ends the run: from then on nothing changes. */
  lemma {:induction false} EarlySeedEnds(texts: seq<Text>, i: nat, j: nat)
    requires i < j <= |texts| && Accepts(texts) && EarlySeed(texts, i)
    ensures !After(texts, j).ok && After(texts, j).durable == After(texts, i).durable
    decreases j
  {
    var m := j - 1;
    if m == i {
      EarlySeedFails(texts, i);
    } else {
      EarlySeedEnds(texts, i, m);
      StaysFailed(texts, m, j);
    }
  }

  lemma StaysFailed(texts: seq<Text>, m: nat, j: nat)
    requires AllShaped(texts) && j <= |texts| && m == j - 1 && !After(texts, m).ok
    ensures After(texts, j) == After(texts, m)
  {
  }

  lemma EarlySeedFails(texts: seq<Text>, i: nat)
    requires i < |texts| && Accepts(texts) && EarlySeed(texts, i)
    ensures !After(texts, i + 1).ok && After(texts, i + 1).durable == After(texts, i).durable
  {
    var e, target := After(texts, i), texts[i].shape.target;
    ObjectsWithin(texts, i);
    EarlyTableMissing(texts, i);
    assert target in Needs(target) && target !in e.durable.objects;
    assert Execute(e.durable, e.pending, InsertIgnore(Needs(target), {target}), false, {}) ==
      Effect(e.durable, e.pending, 0, false);
  }

  ghost predicate HasAllObjects(d: Durable<string, string>) {
    Names(ExpectedSchema()) <= d.objects
  }

  /** Wherever a run of an accepted text is cut off, a durable marker comes with all fifteen objects. */
  ghost predicate CutOffSafely(texts: seq<Text>)
    requires AllShaped(texts)
  {
    forall i :: 0 <= i <= |texts| ==> (MARKER_TABLE in CutOff(texts, i).facts ==> HasAllObjects(CutOff(texts, i)))
  }

  lemma MarkerIsFourth(q: nat)
    requires q < 4 && SEED_TARGETS[q] == MARKER_TABLE
    ensures q == 3
  {
    assert SEED_TARGETS[0][0] == SEED_TARGETS[1][0] == SEED_TARGETS[2][0] == 'i' && MARKER_TABLE[0] == 'r';
  }

  /** Before an insert of another row, or before a last marker insert, the marker has not been inserted. */
  lemma NoMarkerBefore(texts: seq<Text>, i: nat)
    requires Accepts(texts) && i < |texts| && texts[i].shape.Insert? && (texts[i].shape.target != MARKER_TABLE || i == 18)
    ensures MARKER_TABLE !in InsertPart(texts[..i])
  {
    PartsNext(texts, i);
    PartsOfPrefix(texts, i + 1);
    var part := InsertPart(texts[..i]);
    assert InsertPart(texts[..i + 1]) == part + [texts[i].shape.target];
    forall q | 0 <= q < |part|
      ensures part[q] != MARKER_TABLE
    {
      assert part[q] == SEED_TARGETS[q];
      if part[q] == MARKER_TABLE {
        MarkerIsFourth(q);
      }
    }
  }

  /** Up to there a cut leaves no marker. */
  lemma NoMarkerLeft(texts: seq<Text>, i: nat, j: nat)
    requires Accepts(texts) && j <= i < |texts| && MARKER_TABLE !in InsertPart(texts[..i])
    ensures MARKER_TABLE !in After(texts, j).durable.facts && MARKER_TABLE !in CutOff(texts, j).facts
  {
    AfterWithin(texts, j);
    PartsOfPrefix(texts[..i], j);
    assert texts[..i][..j] == texts[..j];
    var shorter, longer := InsertPart(texts[..j]), InsertPart(texts[..i]);
    forall q | 0 <= q < |shorter|
      ensures shorter[q] != MARKER_TABLE
    {
      assert shorter[q] == longer[q];
    }
  }

  lemma EarlySeedIsSafe(texts: seq<Text>, i: nat)
    requires Accepts(texts) && EarlySeed(texts, i)
    ensures CutOffSafely(texts)
  {
    NoMarkerBefore(texts, i);
    forall j: nat | j <= |texts|
      ensures MARKER_TABLE !in CutOff(texts, j).facts
    {
      if j <= i {
        NoMarkerLeft(texts, i, j);
      } else {
        NoMarkerLeft(texts, i, i);
        EarlySeedEnds(texts, i, j);
      }
    }
  }

  lemma InsertNotDurable(texts: seq<Text>, i: nat)
    requires AllShaped(texts) && i < |texts| && texts[i].shape.Insert?
    ensures After(texts, i + 1).durable == After(texts, i).durable
  {
  }

  lemma MarkerLastIsSafe(texts: seq<Text>)
    requires Accepts(texts) && texts[18].shape == Insert(MARKER_TABLE)
    ensures CutOffSafely(texts)
  {
    NoMarkerBefore(texts, 18);
    forall j: nat | j <= |texts|
      ensures MARKER_TABLE !in CutOff(texts, j).facts
    {
      if j <= 18 {
        NoMarkerLeft(texts, 18, j);
      } else {
        NoMarkerLeft(texts, 18, 18);
        InsertNotDurable(texts, 18);
      }
    }
  }

  lemma LastTarget(texts: seq<Text>)
    requires Accepts(texts) && texts[18].shape.Insert?
    ensures texts[18].shape.target == MARKER_TABLE
  {
    assert texts[..19] == texts;
    PartsNext(texts, 18);
    var before, target := InsertPart(texts[..18]), texts[18].shape.target;
    assert (before + [target])[3] == target;
  }

  lemma LastViewMissing(texts: seq<Text>)
    requires Accepts(texts) && IsSchema(texts[18])
    ensures InsertPart(texts[..18]) == SEED_TARGETS
    ensures !(Names(ExpectedSchema()) <= Names(SchemaPart(texts[..18])))
  {
    assert texts[..19] == texts;
    PartsNext(texts, 18);
    var part := SchemaPart(texts[..18]);
    assert part + [texts[18].shape] == ExpectedSchema() && |part| == 14 && part == ExpectedSchema()[..14];
    ViewIsNew(part, 14);
    assert ExpectedSchema()[14] in ExpectedSchema() && ExpectedSchema()[14].name in Names(ExpectedSchema());
  }

  /** A marker insert that is reached before the last view outlives a cut at that view. */
  lemma MarkerNotLastIsUnsafe(texts: seq<Text>)
    requires Accepts(texts) && texts[18].shape != Insert(MARKER_TABLE) && !SomeEarlySeed(texts)
    ensures MARKER_TABLE in CutOff(texts, 18).facts && !HasAllObjects(CutOff(texts, 18))
  {
    if texts[18].shape.Insert? {
      LastTarget(texts);
      assert false;
    }
    LastViewMissing(texts);
    AfterContents(texts, 18);
    assert SEED_TARGETS[3] == MARKER_TABLE && MARKER_TABLE in Targets(SEED_TARGETS);
  }

  /** The scanner alone accepts texts whose marker can outlive a missing view: exactly those whose last statement is not
      the marker insert and whose seeds all stand after their own tables, so that the run gets as far as the marker. */
  lemma SafeIff(texts: seq<Text>)
    requires Accepts(texts)
    ensures CutOffSafely(texts) <==> texts[18].shape == Insert(MARKER_TABLE) || SomeEarlySeed(texts)
  {
    if texts[18].shape == Insert(MARKER_TABLE) {
      MarkerLastIsSafe(texts);
    } else if SomeEarlySeed(texts) {
      var i: nat :| EarlySeed(texts, i);
      EarlySeedIsSafe(texts, i);
    } else {
      MarkerNotLastIsUnsafe(texts);
    }
  }

  // ---------------------------------------------------------------- an unsafe text

  function Plain(shapes: seq<Shape>): seq<Text> {
    seq(|shapes|, i requires 0 <= i < |shapes| => Text(shapes[i], false, false))
  }

  function SeedInserts(): seq<Shape> {
    seq(|SEED_TARGETS|, i requires 0 <= i < |SEED_TARGETS| => Insert(SEED_TARGETS[i]))
  }

  /** All statements in canonical order but for the last view, which comes after the marker. */
  function LateView(): seq<Text> {
    Plain(ExpectedSchema()[..14] + SeedInserts() + [ExpectedSchema()[14]])
  }

  lemma PartsOfOneMore(a: seq<Text>, x: Text)
    ensures SchemaPart(a + [x]) == SchemaPart(a) + (if IsSchema(x) then [x.shape] else [])
    ensures InsertPart(a + [x]) == InsertPart(a) + (if x.shape.Insert? then [x.shape.target] else [])
  {
    assert (a + [x])[..|a|] == a;
  }

  lemma {:induction false} PartsAppend(a: seq<Text>, b: seq<Text>)
    ensures SchemaPart(a + b) == SchemaPart(a) + SchemaPart(b) && InsertPart(a + b) == InsertPart(a) + InsertPart(b)
    decreases |b|
  {
    if b == [] {
      assert a + b == a;
    } else {
      var before, x := b[..|b| - 1], b[|b| - 1];
      PartsAppend(a, before);
      PartsOfOneMore(a + before, x);
      PartsOfOneMore(before, x);
      assert before + [x] == b && a + before + [x] == a + b;
    }
  }

  lemma {:induction false} PlainSchema(shapes: seq<Shape>)
    requires forall s :: s in shapes ==> s.Table? || s.View?
    ensures SchemaPart(Plain(shapes)) == shapes && InsertPart(Plain(shapes)) == []
  {
    if shapes != [] {
      var n := |shapes| - 1;
      PlainSchema(shapes[..n]);
      assert Plain(shapes)[..n] == Plain(shapes[..n]) && shapes == shapes[..n] + [shapes[n]];
    }
  }

  lemma {:induction false} PlainInserts(targets: seq<string>, shapes: seq<Shape>)
    requires |shapes| == |targets| && forall i :: 0 <= i < |targets| ==> shapes[i] == Insert(targets[i])
    ensures SchemaPart(Plain(shapes)) == [] && InsertPart(Plain(shapes)) == targets
  {
    if shapes != [] {
      var n := |shapes| - 1;
      PlainInserts(targets[..n], shapes[..n]);
      assert Plain(shapes)[..n] == Plain(shapes[..n]) && targets == targets[..n] + [targets[n]];
    }
  }

  lemma PlainAppend(a: seq<Shape>, b: seq<Shape>)
    ensures Plain(a + b) == Plain(a) + Plain(b)
  {
  }

  lemma LateViewParts(a: seq<Shape>, b: seq<Shape>, c: seq<Shape>)
    requires a == ExpectedSchema()[..14] && b == SeedInserts() && c == [ExpectedSchema()[14]]
    ensures SchemaPart(Plain(a + b + c)) == ExpectedSchema() && InsertPart(Plain(a + b + c)) == SEED_TARGETS
    ensures SchemaPart(Plain(a)) == a
  {
    assert forall s: Shape :: s in ExpectedSchema() ==> s.Table? || s.View?;
    PlainSchema(a);
    PlainInserts(SEED_TARGETS, b);
    PlainSchema(c);
    PlainAppend(a, b);
    PlainAppend(a + b, c);
    PartsAppend(Plain(a), Plain(b));
    PartsAppend(Plain(a + b), Plain(c));
    LateViewOrder(a, c);
  }

  lemma LateViewOrder(a: seq<Shape>, c: seq<Shape>)
    requires a == ExpectedSchema()[..14] && c == [ExpectedSchema()[14]]
    ensures a + [] + c == ExpectedSchema() && [] + SEED_TARGETS + [] == SEED_TARGETS
  {
  }

  /** The scanner accepts it, and a cut at the view leaves the marker without it. */
  lemma LateViewIsUnsafe()
    ensures Accepts(LateView()) && !CutOffSafely(LateView())
  {
    var a, b, c := ExpectedSchema()[..14], SeedInserts(), [ExpectedSchema()[14]];
    var texts := LateView();
    LateViewParts(a, b, c);
    assert forall i :: 0 <= i < |texts| ==> !texts[i].shape.Other? by {
      assert forall s: Shape :: s in a + b + c ==> !s.Other?;
    }
    assert texts[18].shape == View(IAM_VIEWS[2]);
    forall i: nat
      ensures !EarlySeed(texts, i)
    {
      if EarlySeed(texts, i) {
        LateSeed(texts, i);
      }
    }
    SafeIff(texts);
  }

  lemma LateSeed(texts: seq<Text>, i: nat)
    requires texts == LateView() && Accepts(texts) && i < |texts| && texts[i].shape.Insert?
    requires texts[i].shape.target != MARKER_TABLE
    ensures Table(texts[i].shape.target) in SchemaPart(texts[..i])
  {
    var a, b, c := ExpectedSchema()[..14], SeedInserts(), [ExpectedSchema()[14]];
    LateViewParts(a, b, c);
    assert 14 <= i < 18 && texts[i].shape == SeedInserts()[i - 14];
    assert texts[..14] == Plain(a);
    PartsOfPrefix(texts[..i], 14);
    assert texts[..i][..14] == texts[..14];
    var part := SchemaPart(texts[..i]);
    assert a <= part;
    assert part[i - 11] == a[i - 11] == Table(IAM_TABLES[i - 11]) && IAM_TABLES[i - 11] == SEED_TARGETS[i - 14];
  }
}
