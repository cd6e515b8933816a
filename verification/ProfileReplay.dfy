/** Which profile keys a replay of behavior events yields at a horizon, and how many events it sees. */
module ProfileReplay {

  datatype EventType = ViewResource | ViewExplanation | ClickRecommendation | FavoriteResource | BorrowBook
    | AccessPaperFulltext | RateHigh | RateNeutral | NotInterested | RejectRecommendation | OtherType(name: string)

  datatype Reason = NoReason | TopicNotInterested | OtherReason(code: string)

  datatype NegativeKey = NegativeKey(tag: int, reason: Reason)

  /** A behavior event with the tags of its resource; times are microseconds. */
  datatype Event = Event(id: int, at: int, kind: EventType, reason: Reason, tags: seq<int>)

  datatype Snapshot = Snapshot(interests: set<int>, negatives: set<NegativeKey>, eventCount: nat)

  /** The event types with a positive factor. */
  predicate Positive(k: EventType) {
    || k.ViewResource? || k.ViewExplanation? || k.ClickRecommendation? || k.FavoriteResource? || k.BorrowBook?
    || k.AccessPaperFulltext? || k.RateHigh? || k.RateNeutral?
  }

  /** The event types with a negative factor. */
  predicate Negative(k: EventType) {
    k.NotInterested? || k.RejectRecommendation?
  }

  function Tags(tags: seq<int>): set<int> {
    set t | t in tags
  }

  /** Tags refused as a topic. */
  function RefusedTopics(tags: seq<int>): set<NegativeKey> {
    set t | t in tags :: NegativeKey(t, TopicNotInterested)
  }

  /** The keys one event contributes to, whatever the weight of its contribution. */
  function InterestsOf(e: Event): set<int> {
    if Positive(e.kind) then Tags(e.tags) else {}
  }

  function NegativesOf(e: Event): set<NegativeKey> {
    if Negative(e.kind) && e.reason == TopicNotInterested then RefusedTopics(e.tags) else {}
  }

  function Interests(events: seq<Event>, asOf: int): set<int> {
    set e, t | e in events && e.at <= asOf && t in InterestsOf(e) :: t
  }

  function Negatives(events: seq<Event>, asOf: int): set<NegativeKey> {
    set e, k | e in events && e.at <= asOf && k in NegativesOf(e) :: k
  }

  function Eligible(events: seq<Event>, asOf: int): seq<Event> {
    if events == [] then []
    else
      var last := events[|events| - 1];
      Eligible(events[..|events| - 1], asOf) + if last.at <= asOf then [last] else []
  }

  function SnapshotOf(events: seq<Event>, asOf: int): Snapshot {
    Snapshot(Interests(events, asOf), Negatives(events, asOf), |Eligible(events, asOf)|)
  }

  // ---------------------------------------------------------------- the program

  method KeepEligible(events: seq<Event>, asOf: int) returns (kept: seq<Event>)
    ensures kept == Eligible(events, asOf)
  {
    kept := [];
    for i := 0 to |events|
      invariant kept == Eligible(events[..i], asOf)
    {
      assert events[..i + 1][..i] == events[..i];
      if events[i].at <= asOf {
        kept := kept + [events[i]];
      }
    }
    assert events[..|events|] == events;
  }

  /** The keys of the two signal dictionaries, and the event count. The program sorts the eligible events first, which
      changes none of them (`SnapshotIgnoresOrder`). */
  method ComputeSnapshot(events: seq<Event>, asOf: int) returns (s: Snapshot)
    ensures s == SnapshotOf(events, asOf)
  {
    var eligible := KeepEligible(events, asOf);
    var interests: set<int>, negatives: set<NegativeKey> := {}, {};
    for i := 0 to |eligible|
      invariant interests == Interests(eligible[..i], asOf) && negatives == Negatives(eligible[..i], asOf)
    {
      EligibleMembers(events, asOf);
      assert eligible[i] in eligible;
      KeysOfOneMore(eligible[..i], eligible[i], asOf);
      assert eligible[..i + 1] == eligible[..i] + [eligible[i]];
      interests, negatives := AddKeys(eligible[i], interests, negatives);
    }
    assert eligible[..|eligible|] == eligible;
    KeysOfEligible(events, asOf);
    s := Snapshot(interests, negatives, |eligible|);
  }

  /** The loop over the tags of one event. */
  method AddKeys(event: Event, interests: set<int>, negatives: set<NegativeKey>)
      returns (interests': set<int>, negatives': set<NegativeKey>)
    ensures interests' == interests + InterestsOf(event) && negatives' == negatives + NegativesOf(event)
  {
    interests', negatives' := interests, negatives;
    for j := 0 to |event.tags|
      invariant interests' == interests + InterestsOf(event.(tags := event.tags[..j]))
      invariant negatives' == negatives + NegativesOf(event.(tags := event.tags[..j]))
    {
      TagsOfOneMore(event.tags, j);
      if Positive(event.kind) {
        interests' := interests' + {event.tags[j]};
      }
      if Negative(event.kind) && event.reason == TopicNotInterested {
        negatives' := negatives' + {NegativeKey(event.tags[j], TopicNotInterested)};
      }
    }
    assert event.tags[..|event.tags|] == event.tags;
  }

  lemma TagsOfOneMore(tags: seq<int>, j: nat)
    requires j < |tags|
    ensures Tags(tags[..j + 1]) == Tags(tags[..j]) + {tags[j]}
    ensures RefusedTopics(tags[..j + 1]) == RefusedTopics(tags[..j]) + {NegativeKey(tags[j], TopicNotInterested)}
  {
    assert tags[..j + 1] == tags[..j] + [tags[j]];
  }

  lemma {:induction false} EligibleMembers(events: seq<Event>, asOf: int)
    ensures forall e :: e in Eligible(events, asOf) <==> e in events && e.at <= asOf
  {
    if events != [] {
      EligibleMembers(events[..|events| - 1], asOf);
      assert events == events[..|events| - 1] + [events[|events| - 1]];
    }
  }

  lemma KeysOfEligible(events: seq<Event>, asOf: int)
    ensures Interests(Eligible(events, asOf), asOf) == Interests(events, asOf)
    ensures Negatives(Eligible(events, asOf), asOf) == Negatives(events, asOf)
  {
    EligibleMembers(events, asOf);
  }

  lemma KeysOfOneMore(events: seq<Event>, e: Event, asOf: int)
    requires e.at <= asOf
    ensures Interests(events + [e], asOf) == Interests(events, asOf) + InterestsOf(e)
    ensures Negatives(events + [e], asOf) == Negatives(events, asOf) + NegativesOf(e)
  {
    KeysAppend(events, [e], asOf);
    KeysOfOne(e, asOf);
  }

  // ---------------------------------------------------------------- laws

  function Joined(a: Snapshot, b: Snapshot): Snapshot {
    Snapshot(a.interests + b.interests, a.negatives + b.negatives, a.eventCount + b.eventCount)
  }

  /** What one event contributes on its own. */
  function Contribution(e: Event, asOf: int): Snapshot {
    if e.at <= asOf then Snapshot(InterestsOf(e), NegativesOf(e), 1) else Snapshot({}, {}, 0)
  }

  /** A snapshot is put together from the snapshots of its parts. */
  lemma SnapshotAppend(a: seq<Event>, b: seq<Event>, asOf: int)
    ensures SnapshotOf(a + b, asOf) == Joined(SnapshotOf(a, asOf), SnapshotOf(b, asOf))
  {
    KeysAppend(a, b, asOf);
    EligibleAppend(a, b, asOf);
  }

  lemma SnapshotOfOne(e: Event, asOf: int)
    ensures SnapshotOf([e], asOf) == Contribution(e, asOf)
  {
    assert [e][..0] == [];
    assert Eligible([e], asOf) == if e.at <= asOf then [e] else [];
    if e.at <= asOf {
      KeysOfOne(e, asOf);
    }
  }

  lemma KeysAppend(a: seq<Event>, b: seq<Event>, asOf: int)
    ensures Interests(a + b, asOf) == Interests(a, asOf) + Interests(b, asOf)
    ensures Negatives(a + b, asOf) == Negatives(a, asOf) + Negatives(b, asOf)
  {
  }

  lemma KeysOfOne(e: Event, asOf: int)
    requires e.at <= asOf
    ensures Interests([e], asOf) == InterestsOf(e) && Negatives([e], asOf) == NegativesOf(e)
  {
    assert e in [e];
    assert forall t :: t in InterestsOf(e) ==> t in Interests([e], asOf);
    assert forall k :: k in NegativesOf(e) ==> k in Negatives([e], asOf);
  }

  lemma {:induction false} EligibleAppend(a: seq<Event>, b: seq<Event>, asOf: int)
    ensures Eligible(a + b, asOf) == Eligible(a, asOf) + Eligible(b, asOf)
  {
    if b == [] {
      assert a + b == a;
    } else {
      var before := b[..|b| - 1];
      EligibleAppend(a, before, asOf);
      assert (a + b)[..|a + b| - 1] == a + before;
    }
  }

  /** A later horizon keeps every key: nothing decays and nothing is dropped. */
  lemma KeysGrow(events: seq<Event>, early: int, late: int)
    requires early <= late
    ensures SnapshotOf(events, early).interests <= SnapshotOf(events, late).interests
    ensures SnapshotOf(events, early).negatives <= SnapshotOf(events, late).negatives
  {
  }

  lemma {:induction false} AllEligible(events: seq<Event>, asOf: int)
    requires forall e :: e in events ==> e.at <= asOf
    ensures Eligible(events, asOf) == events
  {
    if events != [] {
      var before, last := events[..|events| - 1], events[|events| - 1];
      assert events == before + [last];
      AllEligible(before, asOf);
    }
  }

  /** A snapshot depends on which events there are, not on their order. */
  lemma SnapshotIgnoresOrder(a: seq<Event>, b: seq<Event>, asOf: int)
    requires multiset(a) == multiset(b)
    ensures SnapshotOf(a, asOf) == SnapshotOf(b, asOf)
  {
    assert forall e :: e in a <==> e in b by {
      assert forall e :: e in a <==> e in multiset(a);
      assert forall e :: e in b <==> e in multiset(b);
    }
    SameMembersSameKeys(a, b, asOf);
    forall e
      ensures multiset(Eligible(a, asOf))[e] == multiset(Eligible(b, asOf))[e]
    {
      EligibleCounts(a, asOf, e);
      EligibleCounts(b, asOf, e);
    }
    assert multiset(Eligible(a, asOf)) == multiset(Eligible(b, asOf));
    assert |Eligible(a, asOf)| == |multiset(Eligible(a, asOf))| == |Eligible(b, asOf)|;
  }

  lemma SameMembersSameKeys(a: seq<Event>, b: seq<Event>, asOf: int)
    requires forall e :: e in a <==> e in b
    ensures Interests(a, asOf) == Interests(b, asOf) && Negatives(a, asOf) == Negatives(b, asOf)
  {
  }

  lemma {:induction false} EligibleCounts(events: seq<Event>, asOf: int, e: Event)
    ensures multiset(Eligible(events, asOf))[e] == if e.at <= asOf then multiset(events)[e] else 0
  {
    if events != [] {
      var before := events[..|events| - 1];
      EligibleCounts(before, asOf, e);
      assert events == before + [events[|events| - 1]];
    }
  }

  /** The keys do not depend on the ids the events are stored under. */
  lemma KeysIgnoreIds(a: seq<Event>, b: seq<Event>, asOf: int)
    requires |a| == |b| && forall i :: 0 <= i < |a| ==> b[i] == a[i].(id := b[i].id)
    ensures Interests(a, asOf) == Interests(b, asOf) && Negatives(a, asOf) == Negatives(b, asOf)
  {
    KeysCarried(a, b, asOf);
    KeysCarried(b, a, asOf);
  }

  lemma KeysCarried(a: seq<Event>, b: seq<Event>, asOf: int)
    requires |a| == |b| && forall i :: 0 <= i < |a| ==> b[i] == a[i].(id := b[i].id)
    ensures Interests(a, asOf) <= Interests(b, asOf) && Negatives(a, asOf) <= Negatives(b, asOf)
  {
    forall e | e in a && e.at <= asOf
      ensures exists f :: f in b && f.at <= asOf && InterestsOf(f) == InterestsOf(e) && NegativesOf(f) == NegativesOf(e)
    {
      var i :| 0 <= i < |a| && a[i] == e;
      assert b[i] in b;
    }
  }

  /** Who contributes what: these eight types an interest in each tag, these two a refused topic when that is the reason. */
  lemma Contributes(e: Event, asOf: int, tag: int, reason: Reason)
    requires e.at <= asOf
    ensures tag in Interests([e], asOf) <==>
      tag in e.tags && e.kind in {ViewResource, ViewExplanation, ClickRecommendation, FavoriteResource, BorrowBook,
                                  AccessPaperFulltext, RateHigh, RateNeutral}
    ensures NegativeKey(tag, reason) in Negatives([e], asOf) <==>
      tag in e.tags && e.kind in {NotInterested, RejectRecommendation} && e.reason == reason == TopicNotInterested
  {
    KeysOfOne(e, asOf);
  }
}
