/** The row budget of a G4 continuation: built from evidence, checked before and after the run. */
module ContinuationBudget {
  import opened Keys

  type Counts = map<Key, int>

  datatype Target = Target(table: Key, before: int, after: int)

  const MAX_ROWS := 128

  datatype Verdict = Accepted | Rejected(reason: string)

  // ---------------------------------------------------------------- checks

  function Change(t: Target): int {
    t.after - t.before
  }

  function Growth(targets: seq<Target>): int {
    if targets == [] then 0 else Growth(targets[..|targets| - 1]) + Change(targets[|targets| - 1])
  }

  ghost predicate Distinct(targets: seq<Target>) {
    forall i, j :: 0 <= i < j < |targets| ==> targets[i].table != targets[j].table
  }

  predicate Appends(t: Target) {
    0 <= t.before < t.after
  }

  ghost predicate Bounded(targets: seq<Target>, maxChanges: int) {
    && Distinct(targets) && (forall i :: 0 <= i < |targets| ==> Appends(targets[i]))
    && 1 <= maxChanges <= MAX_ROWS && Growth(targets) == maxChanges
  }

  method ValidatePlan(targets: seq<Target>, maxChanges: int) returns (v: Verdict)
    ensures v.Accepted? <==> Bounded(targets, maxChanges)
  {
    var tables: set<Key> := {};
    for i := 0 to |targets|
      invariant Distinct(targets[..i])
      invariant tables == set k | 0 <= k < i :: targets[k].table
    {
      if targets[i].table in tables {
        return Rejected("continuation plan contains duplicate target");
      }
      tables := tables + {targets[i].table};
    }
    var plannedRows := 0;
    for i := 0 to |targets|
      invariant forall k :: 0 <= k < i ==> Appends(targets[k])
      invariant plannedRows == Growth(targets[..i])
    {
      if !Appends(targets[i]) {
        return Rejected("continuation target has an invalid append delta");
      }
      assert targets[..i + 1][..i] == targets[..i];
      plannedRows := plannedRows + Change(targets[i]);
    }
    assert targets[..|targets|] == targets;
    if !(1 <= maxChanges <= MAX_ROWS) {
      return Rejected("append scope exceeds the bounded row budget");
    }
    if plannedRows != maxChanges {
      return Rejected("max_changes does not equal target deltas");
    }
    v := Accepted;
  }

  ghost predicate PreCounts(targets: seq<Target>, counts: Counts) {
    forall i :: 0 <= i < |targets| ==> (if targets[i].table in counts then counts[targets[i].table] else -1) == targets[i].before
  }

  method ValidatePreCounts(targets: seq<Target>, counts: Counts) returns (v: Verdict)
    ensures v.Accepted? <==> PreCounts(targets, counts)
  {
    for i := 0 to |targets|
      invariant PreCounts(targets[..i], counts)
    {
      var found := if targets[i].table in counts then counts[targets[i].table] else -1;
      if found != targets[i].before {
        return Rejected("pre-count drift");
      }
    }
    v := Accepted;
  }

  /** The planned growth of a table, zero for tables outside the plan. */
  function Planned(targets: seq<Target>, table: Key): int {
    if targets == [] then 0
    else
      Planned(targets[..|targets| - 1], table) +
      if targets[|targets| - 1].table == table then Change(targets[|targets| - 1]) else 0
  }

  /** The run moved every table by exactly its planned growth and touched no other. */
  ghost predicate MovedExactly(targets: seq<Target>, before: Counts, after: Counts) {
    && before.Keys == after.Keys
    && (forall t :: t in before ==> after[t] - before[t] == Planned(targets, t))
    && (forall i :: 0 <= i < |targets| ==> targets[i].table in before)
  }

  predicate IsTarget(targets: seq<Target>, table: Key) {
    exists i :: 0 <= i < |targets| && targets[i].table == table
  }

  method ValidatePostCounts(targets: seq<Target>, before: Counts, after: Counts) returns (v: Verdict)
    requires Distinct(targets) && forall i :: 0 <= i < |targets| ==> Appends(targets[i])
    ensures v.Accepted? <==> MovedExactly(targets, before, after)
  {
    if before.Keys != after.Keys {
      return Rejected("database table set changed");
    }
    var decreased := exists t :: t in before && after[t] < before[t];
    if decreased {
      PlannedNonNegative(targets);
      return Rejected("a table count decreased");
    }
    var unplanned := exists t :: t in before && !IsTarget(targets, t) && after[t] != before[t];
    if unplanned {
      forall t | t in before && !IsTarget(targets, t)
        ensures Planned(targets, t) == 0
      {
        NotPlanned(targets, t);
      }
      return Rejected("unplanned table changed");
    }
    for i := 0 to |targets|
      invariant forall k :: 0 <= k < i ==>
        targets[k].table in before && after[targets[k].table] - before[targets[k].table] == Change(targets[k])
    {
      var table := targets[i].table;
      PlannedIsChange(targets, i);
      if table !in before || after[table] - before[table] != Change(targets[i]) {
        return Rejected("planned delta mismatch");
      }
    }
    forall t | t in before
      ensures after[t] - before[t] == Planned(targets, t)
    {
      if IsTarget(targets, t) {
        var i :| 0 <= i < |targets| && targets[i].table == t;
        PlannedIsChange(targets, i);
      } else {
        NotPlanned(targets, t);
      }
    }
    v := Accepted;
  }

  lemma {:induction false} NotPlanned(targets: seq<Target>, table: Key)
    requires forall i :: 0 <= i < |targets| ==> targets[i].table != table
    ensures Planned(targets, table) == 0
  {
    if targets != [] {
      NotPlanned(targets[..|targets| - 1], table);
    }
  }

  lemma {:induction false} PlannedIsChange(targets: seq<Target>, i: nat)
    requires i < |targets| && Distinct(targets)
    ensures Planned(targets, targets[i].table) == Change(targets[i])
  {
    var n := |targets| - 1;
    if i < n {
      PlannedIsChange(targets[..n], i);
    } else {
      NotPlanned(targets[..n], targets[n].table);
    }
  }

  lemma {:induction false} PlannedNonNegative(targets: seq<Target>)
    requires forall i :: 0 <= i < |targets| ==> Appends(targets[i])
    ensures forall t :: Planned(targets, t) >= 0
  {
    if targets != [] {
      PlannedNonNegative(targets[..|targets| - 1]);
      assert Appends(targets[|targets| - 1]);
    }
  }

  // ---------------------------------------------------------------- conservation over the whole database

  function SumOver(tables: set<Key>, f: Key -> int): int {
    if tables == {} then 0
    else
      var t := Min(tables);
      f(t) + SumOver(tables - {t}, f)
  }

  /** Rows added to the whole database. */
  function DatabaseGrowth(before: Counts, after: Counts): int
    requires before.Keys == after.Keys
  {
    SumOver(before.Keys, (t: Key) => (if t in after then after[t] else 0) - (if t in before then before[t] else 0))
  }

  lemma {:induction false} SumEqual(tables: set<Key>, f: Key -> int, g: Key -> int)
    requires forall t :: t in tables ==> f(t) == g(t)
    ensures SumOver(tables, f) == SumOver(tables, g)
  {
    if tables != {} {
      SumEqual(tables - {Min(tables)}, f, g);
    }
  }

  lemma {:induction false} SumZero(tables: set<Key>, f: Key -> int)
    requires forall t :: t in tables ==> f(t) == 0
    ensures SumOver(tables, f) == 0
  {
    if tables != {} {
      SumZero(tables - {Min(tables)}, f);
    }
  }

  lemma {:induction false} SumPlusOne(tables: set<Key>, f: Key -> int, g: Key -> int, table: Key, change: int)
    requires table in tables
    requires forall t :: t in tables ==> g(t) == f(t) + if t == table then change else 0
    ensures SumOver(tables, g) == SumOver(tables, f) + change
  {
    var t := Min(tables);
    if t == table {
      SumEqual(tables - {t}, f, g);
    } else {
      SumPlusOne(tables - {t}, f, g, table, change);
    }
  }

  lemma {:induction false} SumOfPlanned(tables: set<Key>, targets: seq<Target>)
    requires forall i :: 0 <= i < |targets| ==> targets[i].table in tables
    ensures SumOver(tables, (t: Key) => Planned(targets, t)) == Growth(targets)
  {
    if targets == [] {
      SumZero(tables, (t: Key) => Planned(targets, t));
    } else {
      var n := |targets| - 1;
      SumOfPlanned(tables, targets[..n]);
      SumPlusOne(tables, (t: Key) => Planned(targets[..n], t), (t: Key) => Planned(targets, t), targets[n].table,
                 Change(targets[n]));
    }
  }

  /** When the post-run check accepts, the whole database has grown by exactly the approved number of rows. */
  lemma BudgetIsSpentExactly(targets: seq<Target>, maxChanges: int, before: Counts, after: Counts)
    requires Bounded(targets, maxChanges) && MovedExactly(targets, before, after)
    ensures 1 <= DatabaseGrowth(before, after) == maxChanges <= 128
  {
    SumOfPlanned(before.Keys, targets);
    SumEqual(before.Keys,
             (t: Key) => (if t in after then after[t] else 0) - (if t in before then before[t] else 0),
             (t: Key) => Planned(targets, t));
  }

  // ---------------------------------------------------------------- the builder

  datatype Built = Built(targets: seq<Target>, maxChanges: int) | NotBuilt(reason: string)

  ghost predicate Evidenced(before: Counts, deltas: map<Key, int>) {
    deltas != map[] && forall t :: t in deltas ==> t in before && deltas[t] >= 1
  }

  function TargetOf(before: Counts, deltas: map<Key, int>, table: Key): Target {
    var count := if table in before then before[table] else 0;
    Target(table, count, count + if table in deltas then deltas[table] else 0)
  }

  function TargetsOf(before: Counts, deltas: map<Key, int>, tables: seq<Key>): seq<Target> {
    seq(|tables|, i requires 0 <= i < |tables| => TargetOf(before, deltas, tables[i]))
  }

  method ListTargets(before: Counts, deltas: map<Key, int>, tables: seq<Key>) returns (targets: seq<Target>, maxChanges: int)
    requires forall i :: 0 <= i < |tables| ==> tables[i] in deltas && tables[i] in before
    ensures targets == TargetsOf(before, deltas, tables) && maxChanges == Growth(targets)
  {
    targets, maxChanges := [], 0;
    for i := 0 to |tables|
      invariant targets == TargetsOf(before, deltas, tables[..i])
      invariant maxChanges == Growth(targets)
    {
      var table := tables[i];
      var target := Target(table, before[table], before[table] + deltas[table]);
      assert (targets + [target])[..i] == targets;
      targets := targets + [target];
      maxChanges := maxChanges + deltas[table];
    }
    assert tables[..|tables|] == tables;
  }

  method CheckEvidence(before: Counts, deltas: map<Key, int>) returns (good: bool)
    ensures good <==> Evidenced(before, deltas)
  {
    good := deltas != map[] && forall t :: t in deltas ==> t in before && deltas[t] >= 1;
  }

  /** The targets in table order with their summed budget, refused outside 1 to 128 rows. */
  method BuildPlan(before: Counts, deltas: map<Key, int>) returns (r: Built)
    requires forall t :: t in before ==> before[t] >= 0
    ensures r.Built? <==>
      Evidenced(before, deltas) && Growth(TargetsOf(before, deltas, SortedKeys(deltas.Keys))) <= 128
    ensures r.Built? ==> Bounded(r.targets, r.maxChanges) && PreCounts(r.targets, before)
    ensures r.Built? ==> forall t :: Planned(r.targets, t) == if t in deltas then deltas[t] else 0
  {
    var good := CheckEvidence(before, deltas);
    if !good {
      return NotBuilt("continuation evidence has an invalid target delta");
    }
    var tables := SortedKeys(deltas.Keys);
    var targets, maxChanges := ListTargets(before, deltas, tables);
    BuiltTargets(before, deltas, tables);
    if !(1 <= maxChanges <= MAX_ROWS) {
      return NotBuilt("append scope exceeds the bounded row budget");
    }
    r := Built(targets, maxChanges);
  }

  lemma BuiltTargets(before: Counts, deltas: map<Key, int>, tables: seq<Key>)
    requires Evidenced(before, deltas) && tables == SortedKeys(deltas.Keys)
    requires forall t :: t in before ==> before[t] >= 0
    ensures var targets := TargetsOf(before, deltas, tables);
      && Distinct(targets) && (forall i :: 0 <= i < |targets| ==> Appends(targets[i])) && PreCounts(targets, before)
      && Growth(targets) >= 1 && forall t :: Planned(targets, t) == if t in deltas then deltas[t] else 0
  {
    var targets := TargetsOf(before, deltas, tables);
    forall i | 0 <= i < |targets|
      ensures tables[i] in deltas && tables[i] in before && targets[i] == TargetOf(before, deltas, tables[i])
      ensures Appends(targets[i])
    {
      assert tables[i] in tables;
    }
    forall i, j | 0 <= i < j < |targets|
      ensures targets[i].table != targets[j].table
    {
      LessAsymmetric(tables[i], tables[j]);
    }
    forall t
      ensures Planned(targets, t) == if t in deltas then deltas[t] else 0
    {
      if t in deltas {
        assert t in tables;
        var i :| 0 <= i < |tables| && tables[i] == t;
        PlannedIsChange(targets, i);
      } else {
        NotPlanned(targets, t);
      }
    }
    GrowthPositive(targets);
    assert |tables| > 0;
  }

  lemma {:induction false} GrowthPositive(targets: seq<Target>)
    requires forall i :: 0 <= i < |targets| ==> Appends(targets[i])
    ensures Growth(targets) >= |targets|
  {
    if targets != [] {
      GrowthPositive(targets[..|targets| - 1]);
      assert Appends(targets[|targets| - 1]);
    }
  }
}
