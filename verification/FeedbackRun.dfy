/** The approved interactions and the two profile refreshes as they write to the database, and when the frozen plan
    predicts their rows. */
module FeedbackRun {
  import opened ProfileReplay
  import opened FeedbackPlan

  /** A recorded replay run: its horizon and, for the digest of its input, the events it read. */
  datatype Recorded = Recorded(asOf: int, events: seq<Event>)

  /** Rows inserted so far, table by table. */
  datatype Inserts = Inserts(impression: nat, feedback: nat, behaviorEvent: nat, outbox: nat, resourceState: nat,
                             replayRun: nat, changeLog: nat, interestTag: nat, negativePreference: nat,
                             stateTransition: nat, profile: nat)

  const NONE := Inserts(0, 0, 0, 0, 0, 0, 0, 0, 0, 0, 0)

  function Into(n: Inserts, t: Table): nat {
    match t
    case Impression => n.impression case Feedback => n.feedback case BehaviorEvent => n.behaviorEvent
    case Outbox => n.outbox case ResourceState => n.resourceState case ReplayRun => n.replayRun
    case ChangeLog => n.changeLog case InterestTag => n.interestTag case NegativePreference => n.negativePreference
    case StateTransition => n.stateTransition case Profile => n.profile
  }

  /** What the run reads and writes: the user's events, the horizons waiting in the outbox, the recorded runs, the
      logged event ids, the profile keys, whether there is a profile, and the rows inserted so far. */
  datatype Store = Store(events: seq<Event>, outbox: seq<int>, runs: set<Recorded>, logged: set<int>,
                         interests: set<int>, negatives: set<NegativeKey>, profile: bool, inserted: Inserts)

  // ---------------------------------------------------------------- steps

  /** `append_behavior`; an outbox row is created together with its first transition. */
  function AppendBehavior(s: Store, e: Event, enqueue: bool): Store {
    var n := s.inserted.(behaviorEvent := s.inserted.behaviorEvent + 1);
    if enqueue then
      s.(events := s.events + [e], outbox := s.outbox + [e.at],
         inserted := n.(outbox := n.outbox + 1, stateTransition := n.stateTransition + 1))
    else s.(events := s.events + [e], inserted := n)
  }

  /** Showing the recommendation does not refresh the profile. */
  function ShowImpression(s: Store, e: Event): Store {
    var t := AppendBehavior(s, e, false);
    t.(inserted := t.inserted.(impression := t.inserted.impression + 1))
  }

  /** Refusing the topic of a resource that has no state yet: the state is created together with its transition. */
  function Refuse(s: Store, e: Event): Store {
    var t := AppendBehavior(s, e, true);
    t.(inserted := t.inserted.(feedback := t.inserted.feedback + 1, resourceState := t.inserted.resourceState + 1,
                               stateTransition := t.inserted.stateTransition + 1))
  }

  function Click(s: Store, e: Event): Store {
    AppendBehavior(s, e, true)
  }

  function Moved(s: Store): Store {
    s.(inserted := s.inserted.(stateTransition := s.inserted.stateTransition + 1))
  }

  function Ids(events: seq<Event>): set<int> {
    set e | e in events :: e.id
  }

  /** What `apply_claim` writes for an input that is not recorded yet: the run, the profile, the keys and log rows that are
      new, and the profile's transition. */
  function Replay(s: Store, input: Recorded, ids: set<int>, interests: set<int>, negatives: set<NegativeKey>): Store {
    var n := s.inserted;
    s.(runs := s.runs + {input}, logged := s.logged + ids, interests := s.interests + interests,
       negatives := s.negatives + negatives, profile := true,
       inserted := n.(replayRun := n.replayRun + 1, profile := n.profile + (if s.profile then 0 else 1),
                      interestTag := n.interestTag + |interests - s.interests|,
                      negativePreference := n.negativePreference + |negatives - s.negatives|,
                      changeLog := n.changeLog + |ids - s.logged|, stateTransition := n.stateTransition + 1))
  }

  /** One outbox row is claimed, replayed unless its input is recorded already, and marked done. */
  function Refresh(s: Store, asOf: int): Store {
    var claimed, seen := Moved(s), Eligible(s.events, asOf);
    var input := Recorded(asOf, seen);
    Moved(if input in s.runs then claimed else Replay(claimed, input, Ids(seen), Interests(seen, asOf), Negatives(seen, asOf)))
  }

  // ---------------------------------------------------------------- the approved run

  function Start(facts: Facts, runs: set<Recorded>): Store {
    Store(Existing(facts), [], runs, facts.logged, facts.interests, facts.negatives, facts.profileCount == 1, NONE)
  }

  /** The three interactions, their events stored under the given ids. */
  function Interact(s: Store, planned: seq<Event>): Store
    requires |planned| == 3
  {
    Click(Refuse(ShowImpression(s, planned[0]), planned[1]), planned[2])
  }

  /** The worker takes the outbox rows in their order. */
  function Work(s: Store, horizons: seq<int>): Store {
    if horizons == [] then s else Refresh(Work(s, horizons[..|horizons| - 1]), horizons[|horizons| - 1])
  }

  function WholeRun(facts: Facts, p: Payload, stored: FeedbackPlan.Ids, runs: set<Recorded>): Store {
    var done := Interact(Start(facts, runs), Planned(stored, p, facts.targetTags));
    Work(done, done.outbox)
  }

  /** The recorded runs have not read any of the new events. */
  ghost predicate RunsBefore(runs: set<Recorded>, stored: FeedbackPlan.Ids) {
    forall r, e :: r in runs && e in r.events ==> e.id !in IdSet(stored)
  }

  lemma AfterInteraction(facts: Facts, p: Payload, stored: FeedbackPlan.Ids, runs: set<Recorded>)
    ensures var done := Interact(Start(facts, runs), Planned(stored, p, facts.targetTags));
      && done.events == ReplayEvents(facts, p, stored) && done.outbox == Replays(p)
      && done == Store(done.events, done.outbox, runs, facts.logged, facts.interests, facts.negatives,
                       facts.profileCount == 1, Inserts(1, 1, 3, 2, 1, 0, 0, 0, 0, 3, 0))
  {
    var planned := Planned(stored, p, facts.targetTags);
    assert Existing(facts) + [planned[0]] + [planned[1]] + [planned[2]] == Existing(facts) + planned;
    assert [] + [planned[1].at] + [planned[2].at] == Replays(p);
  }

  lemma EligibleIds(events: seq<Event>, asOf: int)
    ensures Ids(Eligible(events, asOf)) == VisibleIds(events, asOf)
  {
    EligibleMembers(events, asOf);
    forall id | id in VisibleIds(events, asOf)
      ensures id in Ids(Eligible(events, asOf))
    {
      var i :| 0 <= i < |events| && events[i].at <= asOf && events[i].id == id;
      assert events[i] in events;
    }
    forall id | id in Ids(Eligible(events, asOf))
      ensures id in VisibleIds(events, asOf)
    {
      var e :| e in Eligible(events, asOf) && e.id == id;
      var i :| 0 <= i < |events| && events[i] == e;
    }
  }

  /** The refusal is in the input of both replays, so neither input is recorded before the run. */
  lemma InputIsNew(facts: Facts, p: Payload, stored: FeedbackPlan.Ids, runs: set<Recorded>, asOf: int)
    requires RunsBefore(runs, stored) && Millis(p.feedbackAt) <= asOf
    ensures Recorded(asOf, Eligible(ReplayEvents(facts, p, stored), asOf)) !in runs
  {
    var all := ReplayEvents(facts, p, stored);
    var refusal := Planned(stored, p, facts.targetTags)[1];
    assert all[|facts.events| + 1] == refusal;
    EligibleMembers(all, asOf);
    assert refusal in Eligible(all, asOf) && refusal.id in IdSet(stored);
  }

  // ---------------------------------------------------------------- what the run inserts

  /** The store once one unrecorded input has been replayed and marked done. */
  function AfterReplay(s: Store, asOf: int): Store {
    var all := s.events;
    Moved(Replay(Moved(s), Recorded(asOf, Eligible(all, asOf)), VisibleIds(all, asOf), Interests(all, asOf), Negatives(all, asOf)))
  }

  lemma RefreshReplays(s: Store, asOf: int)
    requires Recorded(asOf, Eligible(s.events, asOf)) !in s.runs
    ensures Refresh(s, asOf) == AfterReplay(s, asOf)
  {
    KeysOfEligible(s.events, asOf);
    EligibleIds(s.events, asOf);
  }

  lemma WorkTwice(s: Store, a: int, b: int)
    ensures Work(s, [a, b]) == Refresh(Refresh(s, a), b)
  {
    assert [a, b][..1] == [a] && [a][..0] == [];
    assert Work(s, []) == s;
    assert Work(s, [a]) == Refresh(s, a);
  }

  /** The rows of a run whose replays insert that many log rows, interests, negative preferences and profiles. When both
      replays have one horizon the second finds its input recorded: it records no run and moves no profile. */
  function RunRows(p: Payload, log: nat, interests: nat, negatives: nat, profiles: nat): Inserts {
    if OneHorizon(p) then Inserts(1, 1, 3, 2, 1, 1, log, interests, negatives, 8, profiles)
    else Inserts(1, 1, 3, 2, 1, 2, log, interests, negatives, 9, profiles)
  }

  function RowsOf(facts: Facts, p: Payload, stored: FeedbackPlan.Ids): Inserts
    requires facts.profileCount in {0, 1}
  {
    RunRows(p, ReplayedLogDelta(facts, p, stored), InsertedInterests(facts, p, stored),
            InsertedNegatives(facts, p, stored), 1 - facts.profileCount)
  }

  lemma RefreshSkips(s: Store, asOf: int)
    requires Recorded(asOf, Eligible(s.events, asOf)) in s.runs
    ensures Refresh(s, asOf) == Moved(Moved(s))
  {
  }

  /** The store when the interactions are over. */
  ghost predicate Interacted(facts: Facts, p: Payload, stored: FeedbackPlan.Ids, done: Store) {
    && done.events == ReplayEvents(facts, p, stored) && done.logged == facts.logged && done.interests == facts.interests
    && done.negatives == facts.negatives && done.profile == (facts.profileCount == 1)
    && done.inserted == Inserts(1, 1, 3, 2, 1, 0, 0, 0, 0, 3, 0)
  }

  lemma WorkInserts(facts: Facts, p: Payload, stored: FeedbackPlan.Ids, done: Store)
    requires CheckTimes(facts, p).Accepted? && facts.profileCount in {0, 1} && RunsBefore(done.runs, stored)
    requires Interacted(facts, p, stored, done)
    ensures Work(done, Replays(p)).inserted == RowsOf(facts, p, stored)
  {
    var early, late := Millis(p.feedbackAt), Millis(p.behaviorAt);
    HorizonsOrdered(p);
    OneHorizonIff(p);
    WorkTwice(done, early, late);
    InputIsNew(facts, p, stored, done.runs, early);
    InputIsNew(facts, p, stored, done.runs, late);
    RefreshReplays(done, early);
    if OneHorizon(p) {
      RefreshSkips(AfterReplay(done, early), early);
      OneReplayRows(facts, p, stored, done);
    } else {
      RefreshReplays(AfterReplay(done, early), late);
      TwoReplayRows(facts, p, stored, done);
    }
  }

  /** The rows the whole run inserts. */
  lemma RunInserts(facts: Facts, p: Payload, stored: FeedbackPlan.Ids, runs: set<Recorded>)
    requires CheckTimes(facts, p).Accepted? && facts.profileCount in {0, 1} && RunsBefore(runs, stored)
    ensures WholeRun(facts, p, stored, runs).inserted == RowsOf(facts, p, stored)
  {
    AfterInteraction(facts, p, stored, runs);
    WorkInserts(facts, p, stored, Interact(Start(facts, runs), Planned(stored, p, facts.targetTags)));
  }

  lemma TwoReplayRows(facts: Facts, p: Payload, stored: FeedbackPlan.Ids, done: Store)
    requires facts.profileCount in {0, 1} && Interacted(facts, p, stored, done) && !OneHorizon(p)
    ensures AfterReplay(AfterReplay(done, Millis(p.feedbackAt)), Millis(p.behaviorAt)).inserted == RowsOf(facts, p, stored)
  {
  }

  lemma OneReplayRows(facts: Facts, p: Payload, stored: FeedbackPlan.Ids, done: Store)
    requires facts.profileCount in {0, 1} && Interacted(facts, p, stored, done) && OneHorizon(p)
    ensures Moved(Moved(AfterReplay(done, Millis(p.feedbackAt)))).inserted == RowsOf(facts, p, stored)
  {
    var all, early := done.events, Millis(p.feedbackAt);
    OneHorizonIff(p);
    NothingTwice(done.logged, VisibleIds(all, early));
    NothingTwice(done.interests, Interests(all, early));
    NothingTwice(done.negatives, Negatives(all, early));
  }

  lemma NothingTwice<K>(table: set<K>, keys: set<K>)
    ensures keys - (table + keys) == {}
  {
  }

  // ---------------------------------------------------------------- plan and run

  /** A plan with that projection asks, for every table, for exactly these rows. */
  ghost predicate AsksFor(facts: Facts, p: Payload, frozen: Projection, n: Inserts) {
    forall t: Table :: AskedFor(facts, p, frozen, t) == Into(n, t)
  }

  lemma RowsAgreeIff(facts: Facts, p: Payload, frozen: Projection, log: nat, interests: nat, negatives: nat, profiles: nat)
    requires |frozen.interests - facts.interests| == interests && |frozen.negatives - facts.negatives| == negatives
    requires profiles == 1 - facts.profileCount
    ensures AsksFor(facts, p, frozen, RunRows(p, log, interests, negatives, profiles)) <==>
      !OneHorizon(p) && frozen.logDelta == log
  {
    var rows := RunRows(p, log, interests, negatives, profiles);
    if AsksFor(facts, p, frozen, rows) {
      assert AskedFor(facts, p, frozen, ReplayRun) == Into(rows, ReplayRun);
      assert AskedFor(facts, p, frozen, ChangeLog) == Into(rows, ChangeLog);
    }
  }

  lemma RowsInAll(facts: Facts, p: Payload, frozen: Projection, log: nat, interests: nat, negatives: nat, profiles: nat)
    requires |frozen.interests - facts.interests| == interests && |frozen.negatives - facts.negatives| == negatives
    requires profiles == 1 - facts.profileCount
    ensures AskedInAll(facts, p, frozen) ==
      RunInAll(RunRows(p, log, interests, negatives, profiles)) + (if OneHorizon(p) then 2 else 0) + frozen.logDelta - log
  {
    AskedSum(facts, p, frozen);
  }

  lemma FrozenLog(facts: Facts, p: Payload)
    ensures Frozen(facts, p).logDelta == PredictedLogDelta(facts, p)
  {
  }

  lemma AskedAgreesIff(facts: Facts, p: Payload, frozen: Projection, n: Inserts, log: nat, interests: nat, negatives: nat)
    requires facts.profileCount in {0, 1} && n == RunRows(p, log, interests, negatives, 1 - facts.profileCount)
    requires |frozen.interests - facts.interests| == interests && |frozen.negatives - facts.negatives| == negatives
    ensures AsksFor(facts, p, frozen, n) <==> !OneHorizon(p) && frozen.logDelta == log
  {
    RowsAgreeIff(facts, p, frozen, log, interests, negatives, 1 - facts.profileCount);
  }

  lemma AskedExceeds(facts: Facts, p: Payload, stored: FeedbackPlan.Ids)
    requires CheckTimes(facts, p).Accepted? && facts.profileCount in {0, 1}
    ensures Budget(facts, p) == RunInAll(RowsOf(facts, p, stored))
      + (if OneHorizon(p) then 2 else 0) + PredictedLogDelta(facts, p) - ReplayedLogDelta(facts, p, stored)
  {
    FrozenKeysExact(facts, p, stored);
    FrozenLog(facts, p);
    RowsInAll(facts, p, Frozen(facts, p), ReplayedLogDelta(facts, p, stored), InsertedInterests(facts, p, stored),
              InsertedNegatives(facts, p, stored), 1 - facts.profileCount);
  }

  /** The plan asks for exactly the rows the run inserts, table by table, exactly when the two replays have different
      horizons and none of the ids after the user's largest event id is logged for someone else. */
  lemma PlanMatchesRunIff(facts: Facts, p: Payload, stored: FeedbackPlan.Ids, runs: set<Recorded>)
    requires OneRead(facts) && CheckTimes(facts, p).Accepted? && facts.profileCount in {0, 1}
    requires NewIds(facts, stored) && IdSet(stored) !! facts.logged && RunsBefore(runs, stored)
    ensures AsksFor(facts, p, Frozen(facts, p), WholeRun(facts, p, stored, runs).inserted) <==>
      !OneHorizon(p) && IdSet(NextIds(facts.events)) !! facts.logged
  {
    RunInserts(facts, p, stored, runs);
    LogDeltaRightIff(facts, p, stored);
    FrozenKeysExact(facts, p, stored);
    FrozenLog(facts, p);
    AskedAgreesIff(facts, p, Frozen(facts, p), WholeRun(facts, p, stored, runs).inserted, ReplayedLogDelta(facts, p, stored),
                   InsertedInterests(facts, p, stored), InsertedNegatives(facts, p, stored));
  }

  function RunInAll(n: Inserts): int {
    n.impression + n.feedback + n.behaviorEvent + n.outbox + n.resourceState + n.replayRun + n.changeLog + n.interestTag
    + n.negativePreference + n.stateTransition + n.profile
  }

  /** How far the budget is from what is written: two rows more when both replays have one horizon, one row less for each
      of the next three ids that is logged for someone else. */
  lemma BudgetAgainstRun(facts: Facts, p: Payload, stored: FeedbackPlan.Ids, runs: set<Recorded>)
    requires OneRead(facts) && CheckTimes(facts, p).Accepted? && facts.profileCount in {0, 1}
    requires NewIds(facts, stored) && IdSet(stored) !! facts.logged && RunsBefore(runs, stored)
    ensures Budget(facts, p) == RunInAll(WholeRun(facts, p, stored, runs).inserted)
      + (if OneHorizon(p) then 2 else 0) - |IdSet(NextIds(facts.events)) * facts.logged|
  {
    RunInserts(facts, p, stored, runs);
    AskedExceeds(facts, p, stored);
    NextIdsAreNew(facts);
    LogDeltaExact(facts, p, NextIds(facts.events));
    LogDeltaExact(facts, p, stored);
    assert IdSet(stored) * facts.logged == {};
  }

  lemma FixedAsked(facts: Facts, p: Payload, frozen: Projection)
    ensures AskedFor(facts, p, frozen, ReplayRun) == 2 && AskedFor(facts, p, frozen, StateTransition) == 9
  {
  }

  /** A click reported at the very time of the refusal passes the guards; its plan asks for two replay runs and nine
      transitions where the run makes one and eight. */
  lemma OneHorizonOverasks(facts: Facts, p: Payload, stored: FeedbackPlan.Ids)
    requires facts.events == [] && facts.latest == NoBehavior && facts.profileCount in {0, 1} && p == Payload(5000, 6000, 6000)
    ensures OneRead(facts) && CheckTimes(facts, p).Accepted?
    ensures Asked(facts, p, ReplayRun) == 2 && WholeRun(facts, p, stored, {}).inserted.replayRun == 1
    ensures Asked(facts, p, StateTransition) == 9 && WholeRun(facts, p, stored, {}).inserted.stateTransition == 8
  {
    RunInserts(facts, p, stored, {});
    FixedAsked(facts, p, Frozen(facts, p));
  }
}
