/** The row deltas a G5 feedback plan predicts before anything is written, and the budget checks on them. */
module FeedbackPlan {
  import opened Counting
  import opened ProfileReplay

  // ---------------------------------------------------------------- data

  datatype Resource = NoResource | Resource(id: int)

  /** A row of the user's behavior events; times are microseconds. */
  datatype RawEvent = RawEvent(id: int, at: int, kind: EventType, resource: Resource, reason: Reason)

  datatype Horizon = NoBehavior | Latest(at: int)

  /** What the builder has read: the user's events with the tags of their resources, the log and the profile keys, and
      the tags of the recommended resource. */
  datatype Facts = Facts(events: seq<RawEvent>, replayTags: map<int, seq<int>>, latest: Horizon, logged: set<int>,
                         interests: set<int>, negatives: set<NegativeKey>, targetTags: seq<int>, profileCount: int)

  datatype Payload = Payload(impressionAt: int, feedbackAt: int, behaviorAt: int)

  datatype Projection = Projection(feedbackCount: int, behaviorCount: int, interests: set<int>,
                                   negatives: set<NegativeKey>, logDelta: int)

  /** The ids of the three planned events. */
  datatype Ids = Ids(impression: int, feedback: int, behavior: int)

  /** Timestamps are cut to milliseconds when they are written and again when they are read. */
  function Millis(t: int): int {
    t - t % 1000
  }

  // ---------------------------------------------------------------- guards

  datatype Guarded = Accepted | Refused(reason: string)

  /** The ordering guards of the plan builder. */
  function CheckTimes(facts: Facts, p: Payload): Guarded {
    if !(p.impressionAt <= p.feedbackAt <= p.behaviorAt) then
      Refused("interaction timestamps must be ordered impression <= feedback <= behavior")
    else if facts.latest.Latest? && p.impressionAt <= facts.latest.at then
      Refused("impression timestamp must be later than the user's latest behavior")
    else Accepted
  }

  /** The latest behavior is read together with the events: none is later, and without one there are no events. */
  ghost predicate OneRead(facts: Facts) {
    forall e :: e in facts.events ==> facts.latest.Latest? && e.at <= facts.latest.at
  }

  // ---------------------------------------------------------------- replay prediction

  function MaxId(events: seq<RawEvent>): int {
    if events == [] then 0
    else
      var before := MaxId(events[..|events| - 1]);
      if events[|events| - 1].id > before then events[|events| - 1].id else before
  }

  /** A resource without a row set counts as untagged. */
  function TagsOf(facts: Facts, raw: RawEvent): seq<int> {
    if raw.resource.Resource? && raw.resource.id in facts.replayTags then facts.replayTags[raw.resource.id] else []
  }

  function Tagged(facts: Facts, raw: RawEvent): Event {
    Event(raw.id, Millis(raw.at), raw.kind, raw.reason, TagsOf(facts, raw))
  }

  function Existing(facts: Facts): seq<Event> {
    seq(|facts.events|, i requires 0 <= i < |facts.events| => Tagged(facts, facts.events[i]))
  }

  /** The impression, the refused topic and the click, all on the recommended resource. */
  function Planned(ids: Ids, p: Payload, tags: seq<int>): seq<Event> {
    [Event(ids.impression, Millis(p.impressionAt), OtherType("RECOMMENDATION_IMPRESSION"), NoReason, tags),
     Event(ids.feedback, Millis(p.feedbackAt), NotInterested, TopicNotInterested, tags),
     Event(ids.behavior, Millis(p.behaviorAt), ClickRecommendation, NoReason, tags)]
  }

  /** The three ids after the user's largest event id. */
  function NextIds(events: seq<RawEvent>): Ids {
    var m := MaxId(events);
    Ids(m + 1, m + 2, m + 3)
  }

  /** The ids of the events visible at a horizon. */
  function VisibleIds(events: seq<Event>, asOf: int): set<int> {
    set i | 0 <= i < |events| && events[i].at <= asOf :: events[i].id
  }

  function ReplayEvents(facts: Facts, p: Payload, ids: Ids): seq<Event> {
    Existing(facts) + Planned(ids, p, facts.targetTags)
  }

  /** The log rows two replays insert when each logs the events it sees that are not logged yet. */
  function LogDelta(first: set<int>, final: set<int>, logged: set<int>): nat {
    |first - logged| + |final - (logged + first)|
  }

  method ReplayProjection(facts: Facts, p: Payload) returns (r: Projection)
    ensures r == Frozen(facts, p)
  {
    var existing: seq<Event>, maxId := [], 0;
    for i := 0 to |facts.events|
      invariant maxId == MaxId(facts.events[..i])
      invariant existing == Existing(facts)[..i]
    {
      assert facts.events[..i + 1][..i] == facts.events[..i];
      var raw := facts.events[i];
      maxId := if raw.id > maxId then raw.id else maxId;
      existing := existing + [Tagged(facts, raw)];
    }
    assert facts.events[..|facts.events|] == facts.events;
    assert existing == Existing(facts);
    var all := existing + Planned(Ids(maxId + 1, maxId + 2, maxId + 3), p, facts.targetTags);
    assert all == ReplayEvents(facts, p, NextIds(facts.events));
    var first := ComputeSnapshot(all, Millis(p.feedbackAt));
    var final := ComputeSnapshot(all, Millis(p.behaviorAt));
    r := Projection(first.eventCount, final.eventCount, final.interests, final.negatives,
                    LogDelta(VisibleIds(all, Millis(p.feedbackAt)), VisibleIds(all, Millis(p.behaviorAt)), facts.logged));
  }

  /** The projection a plan freezes: the snapshot of the later horizon and the log rows of both. */
  function Frozen(facts: Facts, p: Payload): Projection {
    var all := ReplayEvents(facts, p, NextIds(facts.events));
    var first, final := SnapshotOf(all, Millis(p.feedbackAt)), SnapshotOf(all, Millis(p.behaviorAt));
    Projection(first.eventCount, final.eventCount, final.interests, final.negatives,
               LogDelta(VisibleIds(all, Millis(p.feedbackAt)), VisibleIds(all, Millis(p.behaviorAt)), facts.logged))
  }

  // ---------------------------------------------------------------- the log delta

  /** However the horizons split the events, the two replays together log what the final horizon sees unlogged. */
  lemma SplitDoesNotMatter(first: set<int>, final: set<int>, logged: set<int>)
    requires first <= final
    ensures LogDelta(first, final, logged) == |final - logged|
  {
    assert (first - logged) + (final - (logged + first)) == final - logged;
  }

  lemma LaterSeesMore(events: seq<Event>, early: int, late: int)
    requires early <= late
    ensures VisibleIds(events, early) <= VisibleIds(events, late)
  {
  }

  function EventIds(events: seq<RawEvent>): set<int> {
    set i | 0 <= i < |events| :: events[i].id
  }

  function IdSet(ids: Ids): set<int> {
    {ids.impression, ids.feedback, ids.behavior}
  }

  /** Three different ids that none of the user's events has. */
  ghost predicate NewIds(facts: Facts, ids: Ids) {
    && ids.impression != ids.feedback && ids.feedback != ids.behavior && ids.impression != ids.behavior
    && EventIds(facts.events) !! IdSet(ids)
  }

  lemma {:induction false} MaxIdBounds(events: seq<RawEvent>)
    ensures forall e :: e in events ==> e.id <= MaxId(events)
  {
    if events != [] {
      MaxIdBounds(events[..|events| - 1]);
      assert events == events[..|events| - 1] + [events[|events| - 1]];
    }
  }

  lemma NextIdsAreNew(facts: Facts)
    ensures NewIds(facts, NextIds(facts.events))
  {
    MaxIdBounds(facts.events);
    forall id | id in EventIds(facts.events)
      ensures id <= MaxId(facts.events)
    {
      var i :| 0 <= i < |facts.events| && facts.events[i].id == id;
      assert facts.events[i] in facts.events;
    }
  }

  lemma ThreeIds(facts: Facts, ids: Ids)
    requires NewIds(facts, ids)
    ensures |IdSet(ids)| == 3
  {
  }

  lemma VisibleAppend(a: seq<Event>, b: seq<Event>, asOf: int)
    ensures VisibleIds(a + b, asOf) == VisibleIds(a, asOf) + VisibleIds(b, asOf)
  {
    var all := a + b;
    forall id | id in VisibleIds(a, asOf)
      ensures id in VisibleIds(all, asOf)
    {
      var i :| 0 <= i < |a| && a[i].at <= asOf && a[i].id == id;
      assert all[i] == a[i];
    }
    forall id | id in VisibleIds(b, asOf)
      ensures id in VisibleIds(all, asOf)
    {
      var i :| 0 <= i < |b| && b[i].at <= asOf && b[i].id == id;
      assert all[|a| + i] == b[i];
    }
  }

  lemma ExistingVisible(facts: Facts, p: Payload, asOf: int)
    requires OneRead(facts) && CheckTimes(facts, p).Accepted? && Millis(p.feedbackAt) <= asOf
    ensures VisibleIds(Existing(facts), asOf) == EventIds(facts.events)
  {
    var existing := Existing(facts);
    forall i | 0 <= i < |facts.events|
      ensures existing[i].at <= asOf
    {
      assert facts.events[i] in facts.events;
    }
    forall id | id in EventIds(facts.events)
      ensures id in VisibleIds(existing, asOf)
    {
      var i :| 0 <= i < |facts.events| && facts.events[i].id == id;
      assert existing[i].id == id;
    }
  }

  lemma PlannedVisible(facts: Facts, ids: Ids, p: Payload)
    requires p.impressionAt <= p.feedbackAt <= p.behaviorAt
    ensures VisibleIds(Planned(ids, p, facts.targetTags), Millis(p.behaviorAt)) == IdSet(ids)
    ensures {ids.impression, ids.feedback} <= VisibleIds(Planned(ids, p, facts.targetTags), Millis(p.feedbackAt))
  {
    var planned := Planned(ids, p, facts.targetTags);
    assert planned[0].id == ids.impression && planned[1].id == ids.feedback && planned[2].id == ids.behavior;
  }

  /** The first replay already sees every event of the user: its horizon is never older than the profile. */
  lemma FirstReplaySeesAll(facts: Facts, p: Payload, ids: Ids)
    requires OneRead(facts) && CheckTimes(facts, p).Accepted?
    ensures EventIds(facts.events) <= VisibleIds(ReplayEvents(facts, p, ids), Millis(p.feedbackAt))
      <= EventIds(facts.events) + IdSet(ids)
    ensures VisibleIds(ReplayEvents(facts, p, ids), Millis(p.behaviorAt)) == EventIds(facts.events) + IdSet(ids)
  {
    LaterSeesMore(ReplayEvents(facts, p, ids), Millis(p.feedbackAt), Millis(p.behaviorAt));
    ReplayVisible(facts, p, ids, Millis(p.feedbackAt));
    ReplayVisible(facts, p, ids, Millis(p.behaviorAt));
    PlannedVisible(facts, ids, p);
  }

  lemma ReplayVisible(facts: Facts, p: Payload, ids: Ids, asOf: int)
    requires OneRead(facts) && CheckTimes(facts, p).Accepted? && Millis(p.feedbackAt) <= asOf
    ensures VisibleIds(ReplayEvents(facts, p, ids), asOf) ==
      EventIds(facts.events) + VisibleIds(Planned(ids, p, facts.targetTags), asOf)
  {
    VisibleAppend(Existing(facts), Planned(ids, p, facts.targetTags), asOf);
    ExistingVisible(facts, p, asOf);
  }

  /** The log rows of the two replays when the three new events are stored under the given ids. */
  function ReplayedLogDelta(facts: Facts, p: Payload, ids: Ids): nat {
    var all := ReplayEvents(facts, p, ids);
    LogDelta(VisibleIds(all, Millis(p.feedbackAt)), VisibleIds(all, Millis(p.behaviorAt)), facts.logged)
  }

  /** The two replays log the user's unlogged events and those of the three new ids nobody has logged. */
  lemma LogDeltaExact(facts: Facts, p: Payload, ids: Ids)
    requires OneRead(facts) && CheckTimes(facts, p).Accepted? && NewIds(facts, ids)
    ensures ReplayedLogDelta(facts, p, ids) ==
      |EventIds(facts.events) - facts.logged| + 3 - |IdSet(ids) * facts.logged|
  {
    FirstReplaySeesAll(facts, p, ids);
    ThreeIds(facts, ids);
    LogDeltaCounts(EventIds(facts.events), IdSet(ids),
                   VisibleIds(ReplayEvents(facts, p, ids), Millis(p.feedbackAt)), facts.logged);
  }

  lemma LogDeltaCounts(known: set<int>, planned: set<int>, first: set<int>, logged: set<int>)
    requires known !! planned && first <= known + planned
    ensures LogDelta(first, known + planned, logged) == |known - logged| + |planned| - |planned * logged|
  {
    SplitDoesNotMatter(first, known + planned, logged);
    CountMissing(known, planned, logged);
  }

  lemma CountMissing(known: set<int>, planned: set<int>, logged: set<int>)
    requires known !! planned
    ensures |known + planned - logged| == |known - logged| + |planned| - |planned * logged|
  {
    assert known + planned - logged == (known - logged) + (planned - logged);
    assert (planned - logged) + (planned * logged) == planned;
  }

  /** The plan's prediction: it stores the new events under the ids after the user's largest. */
  function PredictedLogDelta(facts: Facts, p: Payload): nat {
    ReplayedLogDelta(facts, p, NextIds(facts.events))
  }

  /** What the worker then really logs, under any three ids the database has not used yet, is the prediction exactly
      when none of the ids after the user's largest one is logged for someone else; it is never less. */
  lemma LogDeltaRightIff(facts: Facts, p: Payload, stored: Ids)
    requires OneRead(facts) && CheckTimes(facts, p).Accepted?
    requires NewIds(facts, stored) && IdSet(stored) !! facts.logged
    ensures PredictedLogDelta(facts, p) <= ReplayedLogDelta(facts, p, stored)
    ensures PredictedLogDelta(facts, p) == ReplayedLogDelta(facts, p, stored) <==>
      IdSet(NextIds(facts.events)) !! facts.logged
  {
    NextIdsAreNew(facts);
    LogDeltaExact(facts, p, NextIds(facts.events));
    LogDeltaExact(facts, p, stored);
    var clash := IdSet(NextIds(facts.events)) * facts.logged;
    assert |clash| == 0 <==> clash == {};
    assert IdSet(stored) * facts.logged == {};
  }

  /** A user whose only event is 1 while another user's event 2 is logged: the plan predicts one row too few. */
  lemma LogDeltaCanFallShort(facts: Facts, p: Payload)
    requires facts.events == [RawEvent(1, 0, ViewResource, NoResource, NoReason)] && facts.latest == Latest(0)
    requires facts.logged == {2} && p == Payload(5000, 6000, 7000)
    ensures OneRead(facts) && CheckTimes(facts, p).Accepted?
    ensures PredictedLogDelta(facts, p) == 3 && ReplayedLogDelta(facts, p, Ids(3, 4, 5)) == 4
  {
    assert facts.events[..0] == [];
    assert MaxId(facts.events) == 1;
    OnlyEventIsOne(facts);
    LogDeltaExact(facts, p, Ids(2, 3, 4));
    LogDeltaExact(facts, p, Ids(3, 4, 5));
  }

  lemma OnlyEventIsOne(facts: Facts)
    requires |facts.events| == 1 && facts.events[0].id == 1 && facts.logged == {2}
    ensures EventIds(facts.events) - facts.logged == {1} && EventIds(facts.events) == {1}
    ensures IdSet(Ids(2, 3, 4)) * facts.logged == {2} && IdSet(Ids(3, 4, 5)) * facts.logged == {}
  {
    assert facts.events[0].id == 1;
  }

  // ---------------------------------------------------------------- upserts

  /** An upsert of keys leaves the union; its inserted rows are the new keys. */
  function Upserted<K>(table: set<K>, keys: set<K>): set<K> {
    table + keys
  }

  function Inserted<K>(table: set<K>, keys: set<K>): nat {
    |keys - table|
  }

  function InsertedTwice<K>(table: set<K>, first: set<K>, final: set<K>): nat {
    Inserted(table, first) + Inserted(Upserted(table, first), final)
  }

  lemma TwoUpserts<K>(table: set<K>, first: set<K>, final: set<K>)
    ensures InsertedTwice(table, first, final) == |first + final - table|
  {
    var a, b := first - table, final - (table + first);
    assert a + b == first + final - table;
    assert a !! b;
  }

  /** The delta |final - table| is what two replays insert exactly when every key of the first replay is
      already there or is still there after the final one. */
  lemma KeyDeltaRightIff<K>(table: set<K>, first: set<K>, final: set<K>)
    ensures |final - table| <= InsertedTwice(table, first, final)
    ensures |final - table| == InsertedTwice(table, first, final) <==> first - table <= final
  {
    TwoUpserts(table, first, final);
    SubsetCount(final - table, first + final - table);
    if first - table <= final {
      assert final - table == first + final - table;
    }
    if final - table == first + final - table {
      forall k | k in first - table
        ensures k in final
      {
        assert k in first + final - table;
      }
    }
  }

  lemma NothingDropped<K>(table: set<K>, first: set<K>, final: set<K>)
    requires first <= final
    ensures |final - table| == InsertedTwice(table, first, final)
  {
    KeyDeltaRightIff(table, first, final);
  }

  // ---------------------------------------------------------------- final deltas

  datatype Table = Impression | Feedback | BehaviorEvent | Outbox | ResourceState | ReplayRun | ChangeLog
    | InterestTag | NegativePreference | StateTransition | Profile

  type Deltas = map<Table, int>

  const FIXED: Deltas := map[Impression := 1, Feedback := 1, BehaviorEvent := 3, Outbox := 2, ResourceState := 1,
    ReplayRun := 2, ChangeLog := 3, InterestTag := 0, NegativePreference := 0, StateTransition := 9, Profile := 0]

  /** The tables in the order the plan lists them. */
  function TableAt(i: nat): Table {
    match i
    case 0 => Impression case 1 => Feedback case 2 => BehaviorEvent case 3 => Outbox case 4 => ResourceState
    case 5 => ReplayRun case 6 => ChangeLog case 7 => InterestTag case 8 => NegativePreference case 9 => StateTransition
    case _ => Profile
  }

  function PlaceOf(t: Table): (i: nat)
    ensures i < 11 && TableAt(i) == t
  {
    match t
    case Impression => 0 case Feedback => 1 case BehaviorEvent => 2 case Outbox => 3 case ResourceState => 4
    case ReplayRun => 5 case ChangeLog => 6 case InterestTag => 7 case NegativePreference => 8 case StateTransition => 9
    case Profile => 10
  }

  /** Every table has its delta. */
  ghost predicate Complete(deltas: Deltas) {
    forall t: Table :: t in deltas
  }

  function Total(d: Deltas): int
    requires Complete(d)
  {
    d[Impression] + d[Feedback] + d[BehaviorEvent] + d[Outbox] + d[ResourceState] + d[ReplayRun] + d[ChangeLog]
    + d[InterestTag] + d[NegativePreference] + d[StateTransition] + d[Profile]
  }

  datatype Expected = Expected(deltas: Deltas) | Invalid(reason: string)

  datatype MaybeProjection = Historical | Projected(p: Projection)

  /** `expected_final_deltas` */
  function ExpectedFinalDeltas(facts: Facts, projection: MaybeProjection): Expected {
    if projection.Projected? && projection.p.logDelta < 0 then
      Invalid("replay_projection profile_change_log_delta must be non-negative")
    else if facts.profileCount != 0 && facts.profileCount != 1 then
      Invalid("target user must have zero or one current user_profile row")
    else
      var profile := if facts.profileCount == 0 then 1 else 0;
      match projection
      case Projected(p) =>
        Expected(FIXED[ChangeLog := p.logDelta][InterestTag := |p.interests - facts.interests|]
                      [NegativePreference := |p.negatives - facts.negatives|][Profile := profile])
      case Historical =>
        Expected(FIXED[InterestTag := |Tags(facts.targetTags) - facts.interests|]
                      [NegativePreference := |RefusedTopics(facts.targetTags) - facts.negatives|][Profile := profile])
  }

  // ---------------------------------------------------------------- targets and budget

  datatype Target = Target(table: Table, before: int, after: int)

  datatype Targets = Targets(list: seq<Target>) | NoTargets(reason: string)

  ghost predicate CoversAt(t: Target, table: Table, counts: map<Table, int>, deltas: Deltas) {
    && t.table == table && table in counts && table in deltas && deltas[table] >= 0
    && t.before == counts[table] && t.after == t.before + deltas[table]
  }

  /** The first tables of the plan's order, each with its count and delta. */
  ghost predicate Covers(list: seq<Target>, counts: map<Table, int>, deltas: Deltas) {
    |list| <= 11 && forall i :: 0 <= i < |list| ==> CoversAt(list[i], TableAt(i), counts, deltas)
  }

  ghost predicate Coverable(t: Table, counts: map<Table, int>, deltas: Deltas) {
    t in counts && t in deltas && deltas[t] >= 0
  }

  method TargetSpecs(counts: map<Table, int>, deltas: Deltas) returns (r: Targets)
    ensures r.Targets? <==> forall t: Table :: Coverable(t, counts, deltas)
    ensures r.Targets? ==> |r.list| == 11 && Covers(r.list, counts, deltas)
  {
    var targets := [];
    for i := 0 to 11
      invariant |targets| == i && Covers(targets, counts, deltas)
    {
      var table := TableAt(i);
      assert CoversAt(Target(table, 0, 0), table, counts, deltas) ==> Coverable(table, counts, deltas);
      if table !in counts {
        assert !Coverable(table, counts, deltas);
        return NoTargets("live database snapshot is missing target table");
      }
      if table !in deltas || deltas[table] < 0 {
        assert !Coverable(table, counts, deltas);
        return NoTargets("missing or negative bounded delta");
      }
      targets := targets + [Target(table, counts[table], counts[table] + deltas[table])];
    }
    forall t: Table
      ensures Coverable(t, counts, deltas)
    {
      assert CoversAt(targets[PlaceOf(t)], t, counts, deltas);
    }
    r := Targets(targets);
  }

  function Change(t: Target): int {
    t.after - t.before
  }

  function Growth(list: seq<Target>): int {
    if list == [] then 0 else Growth(list[..|list| - 1]) + Change(list[|list| - 1])
  }

  function Partial(d: Deltas, n: nat): int
    requires Complete(d)
  {
    if n == 0 then 0 else Partial(d, n - 1) + d[TableAt(n - 1)]
  }

  lemma {:induction false} GrowthIsPartial(list: seq<Target>, counts: map<Table, int>, d: Deltas)
    requires Covers(list, counts, d) && Complete(d)
    ensures Growth(list) == Partial(d, |list|)
  {
    if list != [] {
      var n := |list| - 1;
      assert forall i :: 0 <= i < n ==> list[..n][i] == list[i];
      GrowthIsPartial(list[..n], counts, d);
      assert CoversAt(list[n], TableAt(n), counts, d);
    }
  }

  lemma PartialIsTotal(d: Deltas)
    requires Complete(d)
    ensures Partial(d, 11) == Total(d)
  {
    assert Partial(d, 1) == d[Impression];
    assert Partial(d, 2) == d[Impression] + d[Feedback];
    assert Partial(d, 4) == Partial(d, 2) + d[BehaviorEvent] + d[Outbox];
    assert Partial(d, 6) == Partial(d, 4) + d[ResourceState] + d[ReplayRun];
    assert Partial(d, 8) == Partial(d, 6) + d[ChangeLog] + d[InterestTag];
    assert Partial(d, 10) == Partial(d, 8) + d[NegativePreference] + d[StateTransition];
  }

  const MAX_CHANGES := 100

  predicate Dynamic(t: Table) {
    t.ChangeLog? || t.InterestTag? || t.NegativePreference? || t.Profile?
  }

  datatype Verdict = WithinBudget | Rejected(reason: string)

  function Observed(list: seq<Target>): Deltas {
    if list == [] then map[]
    else Observed(list[..|list| - 1])[list[|list| - 1].table := Change(list[|list| - 1])]
  }

  ghost predicate Repeats(list: seq<Target>) {
    exists i, j :: 0 <= i < j < |list| && list[i].table == list[j].table
  }

  ghost predicate Drifted(observed: Deltas, t: Table)
    requires Complete(observed)
  {
    t in FIXED && !Dynamic(t) && observed[t] != FIXED[t]
  }

  /** The executor's budget checks on the targets of an approved plan. */
  ghost function ValidateBudget(list: seq<Target>, maxChanges: int): Verdict {
    var observed := Observed(list);
    if Repeats(list) then Rejected("duplicate target table")
    else if !Complete(observed) then Rejected("target set does not match the bounded G5 write set")
    else if exists t: Table :: Dynamic(t) && observed[t] < 0 then Rejected("negative projection delta")
    else if exists t: Table :: Drifted(observed, t) then Rejected("delta does not match the bounded G5 contract")
    else if maxChanges != Total(observed) then Rejected("max_changes must equal the sum of its table deltas")
    else if maxChanges > MAX_CHANGES then Rejected("max_changes exceeds the bounded safety cap")
    else WithinBudget
  }

  lemma {:induction false} ObservedAt(list: seq<Target>, counts: map<Table, int>, d: Deltas, i: nat)
    requires Covers(list, counts, d) && i < |list|
    ensures TableAt(i) in Observed(list) && TableAt(i) in d && Observed(list)[TableAt(i)] == d[TableAt(i)]
  {
    var n := |list| - 1;
    assert CoversAt(list[n], TableAt(n), counts, d);
    if i < n {
      assert forall k :: 0 <= k < n ==> list[..n][k] == list[k];
      ObservedAt(list[..n], counts, d, i);
    }
  }

  lemma TablesDistinct(list: seq<Target>, counts: map<Table, int>, d: Deltas)
    requires Covers(list, counts, d)
    ensures !Repeats(list)
  {
    forall i, j | 0 <= i < j < |list|
      ensures list[i].table != list[j].table
    {
      assert CoversAt(list[i], TableAt(i), counts, d) && CoversAt(list[j], TableAt(j), counts, d);
    }
  }

  lemma FixedPartKept(facts: Facts, projection: MaybeProjection, t: Table)
    requires ExpectedFinalDeltas(facts, projection).Expected?
    ensures t in FIXED && t in ExpectedFinalDeltas(facts, projection).deltas
    ensures ExpectedFinalDeltas(facts, projection).deltas[t] >= 0
    ensures !Dynamic(t) ==> ExpectedFinalDeltas(facts, projection).deltas[t] == FIXED[t]
  {
  }

  /** Observed deltas of a complete target list are the deltas it was built from, and they add up to its growth. */
  lemma BudgetOf(list: seq<Target>, counts: map<Table, int>, d: Deltas)
    requires |list| == 11 && Covers(list, counts, d) && Complete(d)
    ensures Complete(Observed(list)) && forall t: Table :: Observed(list)[t] == d[t]
    ensures Growth(list) == Total(d) == Total(Observed(list))
  {
    GrowthIsPartial(list, counts, d);
    PartialIsTotal(d);
    forall t: Table
      ensures t in Observed(list) && Observed(list)[t] == d[t]
    {
      ObservedAt(list, counts, d, PlaceOf(t));
    }
  }

  /** Non-negative deltas that keep the fixed part of the contract. */
  ghost predicate Contractual(d: Deltas) {
    forall t: Table :: t in d && t in FIXED && d[t] >= 0 && (!Dynamic(t) ==> d[t] == FIXED[t])
  }

  lemma ContractualFixed(d: Deltas)
    requires Contractual(d)
    ensures Complete(d) && d[Impression] == 1 && d[Feedback] == 1 && d[BehaviorEvent] == 3 && d[Outbox] == 2
    ensures d[ResourceState] == 1 && d[ReplayRun] == 2 && d[StateTransition] == 9
  {
  }

  lemma ContractualTotal(d: Deltas)
    requires Contractual(d)
    ensures Complete(d) && Total(d) == 19 + d[ChangeLog] + d[InterestTag] + d[NegativePreference] + d[Profile]
  {
    ContractualFixed(d);
  }

  lemma ContractualAccepted(d: Deltas, list: seq<Target>, counts: map<Table, int>)
    requires Contractual(d) && |list| == 11 && Covers(list, counts, d)
    ensures ValidateBudget(list, Growth(list)).WithinBudget? <==> Growth(list) <= MAX_CHANGES
  {
    BudgetOf(list, counts, d);
    TablesDistinct(list, counts, d);
    forall t: Table
      ensures !(Dynamic(t) && Observed(list)[t] < 0) && !Drifted(Observed(list), t)
    {
      assert t in d && d[t] >= 0;
    }
  }

  lemma ExpectedIsContractual(facts: Facts, projection: MaybeProjection)
    requires ExpectedFinalDeltas(facts, projection).Expected?
    ensures Contractual(ExpectedFinalDeltas(facts, projection).deltas)
  {
    forall t: Table
      ensures var d := ExpectedFinalDeltas(facts, projection).deltas;
        t in d && t in FIXED && d[t] >= 0 && (!Dynamic(t) ==> d[t] == FIXED[t])
    {
      FixedPartKept(facts, projection, t);
    }
  }

  /** On targets made from expected deltas the executor's budget checks come down to the cap. */
  lemma TargetsAcceptedIff(facts: Facts, projection: MaybeProjection, list: seq<Target>, counts: map<Table, int>)
    requires ExpectedFinalDeltas(facts, projection).Expected?
    requires |list| == 11 && Covers(list, counts, ExpectedFinalDeltas(facts, projection).deltas)
    ensures var d := ExpectedFinalDeltas(facts, projection).deltas;
      Complete(d) && Growth(list) == Total(d) == 19 + d[ChangeLog] + d[InterestTag] + d[NegativePreference] + d[Profile]
    ensures ValidateBudget(list, Growth(list)).WithinBudget? <==> Growth(list) <= MAX_CHANGES
  {
    var d := ExpectedFinalDeltas(facts, projection).deltas;
    ExpectedIsContractual(facts, projection);
    ContractualTotal(d);
    ContractualAccepted(d, list, counts);
    BudgetOf(list, counts, d);
  }

  // ---------------------------------------------------------------- the builder

  datatype Built = Built(targets: seq<Target>, maxChanges: int, projection: Projection) | NotBuilt(reason: string)

  method MaxChanges(list: seq<Target>) returns (n: int)
    ensures n == Growth(list)
  {
    n := 0;
    for i := 0 to |list|
      invariant n == Growth(list[..i])
    {
      assert list[..i + 1][..i] == list[..i];
      n := n + Change(list[i]);
    }
    assert list[..|list|] == list;
  }

  /** The horizons of the two replays: one for each outbox row, the refusal's and the click's. */
  function Replays(p: Payload): seq<int> {
    [Millis(p.feedbackAt), Millis(p.behaviorAt)]
  }

  /** The rows a plan asks for in each table: a row for the impression, the refusal, the state it sets and each planned
      event, an outbox row and a recorded run for each replay, and the transitions of the state, of every outbox row from
      created to claimed to done, and of the profile by each replay. */
  function AskedFor(facts: Facts, p: Payload, frozen: Projection, t: Table): int {
    var replays := |Replays(p)|;
    match t
    case Impression => 1
    case Feedback => 1
    case ResourceState => 1
    case BehaviorEvent => |Planned(NextIds(facts.events), p, facts.targetTags)|
    case Outbox => replays
    case ReplayRun => replays
    case StateTransition => 1 + 3 * replays + replays
    case ChangeLog => frozen.logDelta
    case InterestTag => |frozen.interests - facts.interests|
    case NegativePreference => |frozen.negatives - facts.negatives|
    case Profile => 1 - facts.profileCount
  }

  function Asked(facts: Facts, p: Payload, t: Table): int {
    AskedFor(facts, p, Frozen(facts, p), t)
  }

  /** The rows a plan with that projection asks for in all. */
  function AskedInAll(facts: Facts, p: Payload, frozen: Projection): int {
    AskedFor(facts, p, frozen, Impression) + AskedFor(facts, p, frozen, Feedback)
    + AskedFor(facts, p, frozen, ResourceState) + AskedFor(facts, p, frozen, BehaviorEvent)
    + AskedFor(facts, p, frozen, Outbox) + AskedFor(facts, p, frozen, ReplayRun)
    + AskedFor(facts, p, frozen, StateTransition) + AskedFor(facts, p, frozen, ChangeLog)
    + AskedFor(facts, p, frozen, InterestTag) + AskedFor(facts, p, frozen, NegativePreference)
    + AskedFor(facts, p, frozen, Profile)
  }

  function Budget(facts: Facts, p: Payload): int {
    AskedInAll(facts, p, Frozen(facts, p))
  }

  lemma AskedSum(facts: Facts, p: Payload, frozen: Projection)
    ensures AskedInAll(facts, p, frozen) ==
      19 + frozen.logDelta + |frozen.interests - facts.interests| + |frozen.negatives - facts.negatives| + 1 - facts.profileCount
  {
  }

  /** A target that lets its table grow by `n` rows from its present count. */
  ghost predicate GrowsBy(target: Target, t: Table, counts: map<Table, int>, n: int) {
    target.table == t && t in counts && target.before == counts[t] && target.after == counts[t] + n
  }

  /** The targets list every table once, each growing by what the plan asks for. */
  ghost predicate GrowAsAsked(targets: seq<Target>, facts: Facts, p: Payload, counts: map<Table, int>) {
    |targets| == 11 && forall t: Table :: GrowsBy(targets[PlaceOf(t)], t, counts, Asked(facts, p, t))
  }

  /** Impression, refusal and click come one after the other, and after everything the user did before. */
  predicate InOrder(facts: Facts, p: Payload) {
    && p.impressionAt <= p.feedbackAt && p.feedbackAt <= p.behaviorAt
    && (facts.latest.Latest? ==> facts.latest.at < p.impressionAt)
  }

  lemma InOrderIff(facts: Facts, p: Payload)
    ensures InOrder(facts, p) <==> CheckTimes(facts, p).Accepted?
  {
  }

  /** A plan is built exactly when the times are in order, the user has at most one profile, every table is counted and
      the budget is within the cap; a built plan spends that budget table by table and passes every budget check of its
      executor. */
  method BuildPlan(facts: Facts, p: Payload, counts: map<Table, int>) returns (r: Built)
    ensures r.Built? <==>
      && InOrder(facts, p) && facts.profileCount in {0, 1} && (forall t: Table :: t in counts)
      && Budget(facts, p) <= 100
    ensures r.Built? ==> r.projection == Frozen(facts, p)
    ensures r.Built? ==> r.maxChanges == Growth(r.targets) == Budget(facts, p)
    ensures r.Built? ==> GrowAsAsked(r.targets, facts, p, counts)
    ensures r.Built? ==> ValidateBudget(r.targets, r.maxChanges).WithinBudget?
  {
    var guard := CheckTimes(facts, p);
    InOrderIff(facts, p);
    if guard.Refused? {
      return NotBuilt(guard.reason);
    }
    var projection := ReplayProjection(facts, p);
    var expected := ExpectedFinalDeltas(facts, Projected(projection));
    if expected.Invalid? {
      return NotBuilt(expected.reason);
    }
    ExpectedCoverable(facts, Projected(projection), counts);
    var targets := TargetSpecs(counts, expected.deltas);
    if targets.NoTargets? {
      return NotBuilt(targets.reason);
    }
    var maxChanges := MaxChanges(targets.list);
    TargetsAcceptedIff(facts, Projected(projection), targets.list, counts);
    ProjectedDeltas(facts, projection);
    DeltasAsked(facts, p, projection);
    AskedSum(facts, p, projection);
    CoveredGrow(facts, p, targets.list, counts, expected.deltas);
    if maxChanges != Total(expected.deltas) {
      assert false;
    }
    if maxChanges > MAX_CHANGES {
      return NotBuilt("bounded G5 change budget exceeds safety cap");
    }
    r := Built(targets.list, maxChanges, projection);
  }

  /** The deltas of the plan are what it asks for. */
  lemma DeltasAsked(facts: Facts, p: Payload, frozen: Projection)
    requires ExpectedFinalDeltas(facts, Projected(frozen)).Expected?
    ensures var d := ExpectedFinalDeltas(facts, Projected(frozen)).deltas;
      forall t: Table :: t in d && d[t] == AskedFor(facts, p, frozen, t)
  {
    var d := ExpectedFinalDeltas(facts, Projected(frozen)).deltas;
    ProjectedDeltas(facts, frozen);
    ExpectedIsContractual(facts, Projected(frozen));
    ContractualFixed(d);
    AskedTables(facts, p, frozen, d);
  }

  lemma AskedTables(facts: Facts, p: Payload, frozen: Projection, d: Deltas)
    requires Complete(d) && d[Impression] == d[Feedback] == d[ResourceState] == 1
    requires d[BehaviorEvent] == 3 && d[Outbox] == d[ReplayRun] == 2 && d[StateTransition] == 9
    requires d[ChangeLog] == frozen.logDelta && d[InterestTag] == |frozen.interests - facts.interests|
    requires d[NegativePreference] == |frozen.negatives - facts.negatives| && d[Profile] == 1 - facts.profileCount
    ensures forall t: Table :: d[t] == AskedFor(facts, p, frozen, t)
  {
  }

  lemma CoveredGrow(facts: Facts, p: Payload, targets: seq<Target>, counts: map<Table, int>, d: Deltas)
    requires |targets| == 11 && Covers(targets, counts, d)
    requires forall t: Table :: t in d && d[t] == Asked(facts, p, t)
    ensures GrowAsAsked(targets, facts, p, counts)
  {
    forall t: Table
      ensures GrowsBy(targets[PlaceOf(t)], t, counts, Asked(facts, p, t))
    {
      assert CoversAt(targets[PlaceOf(t)], TableAt(PlaceOf(t)), counts, d);
    }
  }

  lemma ExpectedCoverable(facts: Facts, projection: MaybeProjection, counts: map<Table, int>)
    requires ExpectedFinalDeltas(facts, projection).Expected?
    ensures forall t: Table ::
      Coverable(t, counts, ExpectedFinalDeltas(facts, projection).deltas) <==> t in counts
  {
    forall t: Table
      ensures Coverable(t, counts, ExpectedFinalDeltas(facts, projection).deltas) <==> t in counts
    {
      FixedPartKept(facts, projection, t);
    }
  }

  lemma ProjectedDeltas(facts: Facts, p: Projection)
    requires ExpectedFinalDeltas(facts, Projected(p)).Expected?
    ensures var d := ExpectedFinalDeltas(facts, Projected(p)).deltas;
      && Complete(d) && d[ChangeLog] == p.logDelta && d[InterestTag] == |p.interests - facts.interests|
      && d[NegativePreference] == |p.negatives - facts.negatives| && d[Profile] == 1 - facts.profileCount
  {
    ExpectedIsContractual(facts, Projected(p));
  }

  // ---------------------------------------------------------------- the frozen deltas

  /** The profile keys the user's events amount to. */
  function UserInterests(facts: Facts): set<int> {
    set e, t | e in facts.events && Positive(e.kind) && e.resource.Resource? && e.resource.id in facts.replayTags &&
      t in facts.replayTags[e.resource.id] :: t
  }

  function UserNegatives(facts: Facts): set<NegativeKey> {
    set e, t | e in facts.events && Negative(e.kind) && e.reason == TopicNotInterested && e.resource.Resource? &&
      e.resource.id in facts.replayTags && t in facts.replayTags[e.resource.id] ::
      NegativeKey(t, TopicNotInterested)
  }

  lemma ExistingMembers(facts: Facts)
    ensures forall raw :: raw in facts.events ==> Tagged(facts, raw) in Existing(facts)
    ensures forall e :: e in Existing(facts) ==> exists raw :: raw in facts.events && e == Tagged(facts, raw)
  {
    forall raw | raw in facts.events
      ensures Tagged(facts, raw) in Existing(facts)
    {
      var i :| 0 <= i < |facts.events| && facts.events[i] == raw;
      assert Existing(facts)[i] == Tagged(facts, raw);
    }
    forall e | e in Existing(facts)
      ensures exists raw :: raw in facts.events && e == Tagged(facts, raw)
    {
      var i :| 0 <= i < |facts.events| && Existing(facts)[i] == e;
      assert facts.events[i] in facts.events;
    }
  }

  lemma ExistingInterests(facts: Facts, asOf: int)
    requires forall e :: e in Existing(facts) ==> e.at <= asOf
    ensures Interests(Existing(facts), asOf) == UserInterests(facts)
  {
    ExistingMembers(facts);
    forall t | t in Interests(Existing(facts), asOf)
      ensures t in UserInterests(facts)
    {
      var e :| e in Existing(facts) && t in InterestsOf(e);
      var raw :| raw in facts.events && e == Tagged(facts, raw);
      assert t in facts.replayTags[raw.resource.id];
    }
    forall t | t in UserInterests(facts)
      ensures t in Interests(Existing(facts), asOf)
    {
      var raw :| raw in facts.events && Positive(raw.kind) && raw.resource.Resource? &&
        raw.resource.id in facts.replayTags && t in facts.replayTags[raw.resource.id];
      assert t in InterestsOf(Tagged(facts, raw));
    }
  }

  lemma ExistingNegatives(facts: Facts, asOf: int)
    requires forall e :: e in Existing(facts) ==> e.at <= asOf
    ensures Negatives(Existing(facts), asOf) == UserNegatives(facts)
  {
    ExistingMembers(facts);
    forall k | k in Negatives(Existing(facts), asOf)
      ensures k in UserNegatives(facts)
    {
      var e :| e in Existing(facts) && k in NegativesOf(e);
      var raw :| raw in facts.events && e == Tagged(facts, raw);
      assert k.tag in facts.replayTags[raw.resource.id];
    }
    forall k | k in UserNegatives(facts)
      ensures k in Negatives(Existing(facts), asOf)
    {
      var raw, t :| raw in facts.events && Negative(raw.kind) && raw.reason == TopicNotInterested
        && raw.resource.Resource? && raw.resource.id in facts.replayTags && t in facts.replayTags[raw.resource.id]
        && k == NegativeKey(t, TopicNotInterested);
      assert k in NegativesOf(Tagged(facts, raw));
    }
  }

  lemma ExistingSnapshot(facts: Facts, p: Payload, asOf: int)
    requires OneRead(facts) && CheckTimes(facts, p).Accepted? && Millis(p.feedbackAt) <= asOf
    ensures SnapshotOf(Existing(facts), asOf) ==
      Snapshot(UserInterests(facts), UserNegatives(facts), |facts.events|)
  {
    forall e | e in Existing(facts)
      ensures e.at <= asOf
    {
      var i :| 0 <= i < |facts.events| && Existing(facts)[i] == e;
      assert facts.events[i] in facts.events;
    }
    ExistingInterests(facts, asOf);
    ExistingNegatives(facts, asOf);
    AllEligible(Existing(facts), asOf);
  }

  lemma PlannedSnapshot(ids: Ids, p: Payload, tags: seq<int>, asOf: int)
    requires p.impressionAt <= p.feedbackAt <= p.behaviorAt && Millis(p.feedbackAt) <= asOf
    ensures SnapshotOf(Planned(ids, p, tags), asOf) ==
      if Millis(p.behaviorAt) <= asOf then Snapshot(Tags(tags), RefusedTopics(tags), 3)
      else Snapshot({}, RefusedTopics(tags), 2)
  {
    var planned := Planned(ids, p, tags);
    assert planned == [planned[0]] + [planned[1]] + [planned[2]];
    SnapshotAppend([planned[0]] + [planned[1]], [planned[2]], asOf);
    SnapshotAppend([planned[0]], [planned[1]], asOf);
    SnapshotOfOne(planned[0], asOf);
    SnapshotOfOne(planned[1], asOf);
    SnapshotOfOne(planned[2], asOf);
  }

  /** Under the guards a replay from the refusal on sees all the user's events, and of the new ones the impression and
      the refusal, and the click once its time has come: it is the click that brings the interests. */
  lemma ReplaySnapshot(facts: Facts, p: Payload, ids: Ids, asOf: int)
    requires OneRead(facts) && CheckTimes(facts, p).Accepted? && Millis(p.feedbackAt) <= asOf
    ensures var clicked := Millis(p.behaviorAt) <= asOf;
      SnapshotOf(ReplayEvents(facts, p, ids), asOf) ==
      Snapshot(UserInterests(facts) + (if clicked then Tags(facts.targetTags) else {}),
               UserNegatives(facts) + RefusedTopics(facts.targetTags), |facts.events| + if clicked then 3 else 2)
  {
    SnapshotAppend(Existing(facts), Planned(ids, p, facts.targetTags), asOf);
    ExistingSnapshot(facts, p, asOf);
    PlannedSnapshot(ids, p, facts.targetTags, asOf);
  }

  /** The click falls into the millisecond of the refusal, so that both replays have the same horizon. */
  predicate OneHorizon(p: Payload) {
    p.behaviorAt / 1000 == p.feedbackAt / 1000
  }

  lemma OneHorizonIff(p: Payload)
    ensures OneHorizon(p) <==> Millis(p.behaviorAt) == Millis(p.feedbackAt)
  {
    var b, f := p.behaviorAt, p.feedbackAt;
    assert b == b / 1000 * 1000 + b % 1000 && f == f / 1000 * 1000 + f % 1000;
  }

  lemma HorizonsOrdered(p: Payload)
    requires p.feedbackAt <= p.behaviorAt
    ensures Millis(p.feedbackAt) <= Millis(p.behaviorAt)
  {
  }

  /** The rows the two replays insert into a table of keys when the new events are stored under the given ids. */
  function InsertedInterests(facts: Facts, p: Payload, stored: Ids): nat {
    var all := ReplayEvents(facts, p, stored);
    InsertedTwice(facts.interests, Interests(all, Millis(p.feedbackAt)), Interests(all, Millis(p.behaviorAt)))
  }

  function InsertedNegatives(facts: Facts, p: Payload, stored: Ids): nat {
    var all := ReplayEvents(facts, p, stored);
    InsertedTwice(facts.negatives, Negatives(all, Millis(p.feedbackAt)), Negatives(all, Millis(p.behaviorAt)))
  }

  lemma StoredIdsDoNotMatter(facts: Facts, p: Payload, ids: Ids, stored: Ids, asOf: int)
    ensures Interests(ReplayEvents(facts, p, ids), asOf) == Interests(ReplayEvents(facts, p, stored), asOf)
    ensures Negatives(ReplayEvents(facts, p, ids), asOf) == Negatives(ReplayEvents(facts, p, stored), asOf)
  {
    var a, b := ReplayEvents(facts, p, ids), ReplayEvents(facts, p, stored);
    forall i | 0 <= i < |a|
      ensures b[i] == a[i].(id := b[i].id)
    {
      if i >= |facts.events| {
        var tags := facts.targetTags;
        assert a[i] == Planned(ids, p, tags)[i - |facts.events|] && b[i] == Planned(stored, p, tags)[i - |facts.events|];
      }
    }
    KeysIgnoreIds(a, b, asOf);
  }

  /** The frozen interest and negative-preference deltas are what the two replays insert, whatever the new events are
      stored under: keys are never dropped, so what the first replay inserts the final one still has. */
  lemma FrozenDeltasExact(facts: Facts, p: Payload, stored: Ids)
    requires CheckTimes(facts, p).Accepted? && facts.profileCount in {0, 1}
    ensures ExpectedFinalDeltas(facts, Projected(Frozen(facts, p))).Expected?
    ensures var d := ExpectedFinalDeltas(facts, Projected(Frozen(facts, p))).deltas;
      Complete(d) && d[InterestTag] == InsertedInterests(facts, p, stored)
      && d[NegativePreference] == InsertedNegatives(facts, p, stored)
  {
    ProjectedDeltas(facts, Frozen(facts, p));
    FrozenKeysExact(facts, p, stored);
  }

  lemma FrozenKeysExact(facts: Facts, p: Payload, stored: Ids)
    requires CheckTimes(facts, p).Accepted?
    ensures |Frozen(facts, p).interests - facts.interests| == InsertedInterests(facts, p, stored)
    ensures |Frozen(facts, p).negatives - facts.negatives| == InsertedNegatives(facts, p, stored)
  {
    var all, early, late := ReplayEvents(facts, p, stored), Millis(p.feedbackAt), Millis(p.behaviorAt);
    StoredIdsDoNotMatter(facts, p, NextIds(facts.events), stored, late);
    KeysGrow(all, early, late);
    NothingDropped(facts.interests, Interests(all, early), Interests(all, late));
    NothingDropped(facts.negatives, Negatives(all, early), Negatives(all, late));
  }

  /** The frozen projection in terms of the user's events and the tags. */
  lemma FrozenFromFacts(facts: Facts, p: Payload)
    requires OneRead(facts) && CheckTimes(facts, p).Accepted?
    ensures var frozen, n := Frozen(facts, p), |facts.events|;
      && frozen.feedbackCount == (if OneHorizon(p) then n + 3 else n + 2) && frozen.behaviorCount == n + 3
      && frozen.interests == UserInterests(facts) + Tags(facts.targetTags)
      && frozen.negatives == UserNegatives(facts) + RefusedTopics(facts.targetTags)
      && frozen.logDelta == PredictedLogDelta(facts, p)
  {
    var next := NextIds(facts.events);
    ReplaySnapshot(facts, p, next, Millis(p.feedbackAt));
    ReplaySnapshot(facts, p, next, Millis(p.behaviorAt));
    HorizonsOrdered(p);
    OneHorizonIff(p);
  }

  /** When the guards hold, the budget counts the user's unlogged events and the keys the user's events and the
      recommended resource have beyond the ones already there. */
  lemma BudgetFromFacts(facts: Facts, p: Payload)
    requires OneRead(facts) && CheckTimes(facts, p).Accepted?
    ensures Budget(facts, p) ==
      22 + |EventIds(facts.events) - facts.logged| - |IdSet(NextIds(facts.events)) * facts.logged|
      + |UserInterests(facts) + Tags(facts.targetTags) - facts.interests|
      + |UserNegatives(facts) + RefusedTopics(facts.targetTags) - facts.negatives| + 1 - facts.profileCount
  {
    var next := NextIds(facts.events);
    NextIdsAreNew(facts);
    LogDeltaExact(facts, p, next);
    FrozenFromFacts(facts, p);
    AskedSum(facts, p, Frozen(facts, p));
  }

  lemma HistoricalTables(facts: Facts)
    requires facts.profileCount in {0, 1}
    ensures ExpectedFinalDeltas(facts, Historical).Expected?
    ensures var d := ExpectedFinalDeltas(facts, Historical).deltas;
      && Complete(d) && d[ChangeLog] == 3 && d[InterestTag] == |Tags(facts.targetTags) - facts.interests|
      && d[NegativePreference] == |RefusedTopics(facts.targetTags) - facts.negatives|
  {
    ExpectedIsContractual(facts, Historical);
  }

  /** A plan without a projection counts the target's tags alone: its deltas are at most those of the full replay, and the
      same exactly when the user's other keys are there already. */
  lemma HistoricalDeltas(facts: Facts, p: Payload)
    requires OneRead(facts) && CheckTimes(facts, p).Accepted? && facts.profileCount in {0, 1}
    ensures ExpectedFinalDeltas(facts, Historical).Expected?
    ensures var d := ExpectedFinalDeltas(facts, Historical).deltas;
      && Complete(d) && d[ChangeLog] == 3
      && AtMostAndAllIff(d[InterestTag], Asked(facts, p, InterestTag),
                     UserInterests(facts) - facts.interests <= Tags(facts.targetTags))
      && AtMostAndAllIff(d[NegativePreference], Asked(facts, p, NegativePreference),
                     UserNegatives(facts) - facts.negatives <= RefusedTopics(facts.targetTags))
  {
    HistoricalTables(facts);
    AskedKeys(facts, p);
    MoreKeys(facts.interests, UserInterests(facts), Tags(facts.targetTags));
    MoreKeys(facts.negatives, UserNegatives(facts), RefusedTopics(facts.targetTags));
  }

  /** At most `all`, and all of them exactly when the condition holds. */
  ghost predicate AtMostAndAllIff(n: int, all: int, condition: bool) {
    n <= all && (n == all <==> condition)
  }

  lemma AskedKeys(facts: Facts, p: Payload)
    requires OneRead(facts) && CheckTimes(facts, p).Accepted?
    ensures Asked(facts, p, InterestTag) == |UserInterests(facts) + Tags(facts.targetTags) - facts.interests|
    ensures Asked(facts, p, NegativePreference) ==
      |UserNegatives(facts) + RefusedTopics(facts.targetTags) - facts.negatives|
  {
    FrozenFromFacts(facts, p);
    KeysAskedFor(facts, p, Frozen(facts, p));
  }

  lemma KeysAskedFor(facts: Facts, p: Payload, frozen: Projection)
    ensures AskedFor(facts, p, frozen, InterestTag) == |frozen.interests - facts.interests|
    ensures AskedFor(facts, p, frozen, NegativePreference) == |frozen.negatives - facts.negatives|
  {
  }

  lemma MoreKeys<K>(table: set<K>, more: set<K>, keys: set<K>)
    ensures AtMostAndAllIff(|keys - table|, |more + keys - table|, more - table <= keys)
  {
    SubsetCount(keys - table, more + keys - table);
    if more - table <= keys {
      assert more + keys - table == keys - table;
    }
    if keys - table == more + keys - table {
      forall k | k in more - table
        ensures k in keys
      {
        assert k in more + keys - table;
      }
    }
  }
}
