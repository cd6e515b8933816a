/** `_macro_f1`: the mean over labels of the F1 score, from truths and predictions zipped together. */
module MacroF1 {
  import opened Keys

  datatype Outcome = Outcome(truth: Key, prediction: Key)

  // ---------------------------------------------------------------- the program

  /** Python's `zip`: the longer list is cut to the shorter. */
  function Zip(expected: seq<Key>, actual: seq<Key>): (z: seq<Outcome>)
    ensures |z| == if |expected| <= |actual| then |expected| else |actual|
    ensures forall i :: 0 <= i < |z| ==> z[i] == Outcome(expected[i], actual[i])
  {
    if expected == [] || actual == [] then []
    else [Outcome(expected[0], actual[0])] + Zip(expected[1..], actual[1..])
  }

  function Tp(z: seq<Outcome>, kind: Key): nat {
    if z == [] then 0
    else Tp(z[1..], kind) + (if z[0].truth == kind && z[0].prediction == kind then 1 else 0)
  }

  function Fp(z: seq<Outcome>, kind: Key): nat {
    if z == [] then 0
    else Fp(z[1..], kind) + (if z[0].truth != kind && z[0].prediction == kind then 1 else 0)
  }

  function Fn(z: seq<Outcome>, kind: Key): nat {
    if z == [] then 0
    else Fn(z[1..], kind) + (if z[0].truth == kind && z[0].prediction != kind then 1 else 0)
  }

  function Ratio(part: nat, whole: nat): real {
    if whole != 0 then part as real / whole as real else 0.0
  }

  /** The harmonic mean of precision and recall. */
  function F1(tp: nat, fp: nat, fn: nat): real {
    var precision, recall := Ratio(tp, tp + fp), Ratio(tp, tp + fn);
    if precision + recall != 0.0 then 2.0 * precision * recall / (precision + recall) else 0.0
  }

  function LabelScore(z: seq<Outcome>, kind: Key): real {
    F1(Tp(z, kind), Fp(z, kind), Fn(z, kind))
  }

  function Labels(expected: seq<Key>, actual: seq<Key>): set<Key> {
    (set x | x in expected) + (set x | x in actual)
  }

  function Scores(z: seq<Outcome>, labels: seq<Key>): seq<real> {
    if labels == [] then [] else [LabelScore(z, labels[0])] + Scores(z, labels[1..])
  }

  function SumOf(scores: seq<real>): real {
    if scores == [] then 0.0 else scores[0] + SumOf(scores[1..])
  }

  function Mean(scores: seq<real>): real {
    if scores != [] then SumOf(scores) / |scores| as real else 0.0
  }

  function MacroScore(expected: seq<Key>, actual: seq<Key>): real {
    Mean(Scores(Zip(expected, actual), SortedKeys(Labels(expected, actual))))
  }

  lemma {:induction false} NextScore(z: seq<Outcome>, labels: seq<Key>, i: nat)
    requires i < |labels|
    ensures Scores(z, labels[..i + 1]) == Scores(z, labels[..i]) + [LabelScore(z, labels[i])]
  {
    if i == 0 {
      assert labels[..1][1..] == [];
    } else {
      NextScore(z, labels[1..], i - 1);
      assert labels[..i + 1][1..] == labels[1..][..i] && labels[..i][1..] == labels[1..][..i - 1];
    }
  }

  method Compute(expected: seq<Key>, actual: seq<Key>) returns (r: real)
    ensures r == MacroScore(expected, actual)
  {
    var labels := SortedKeys(Labels(expected, actual));
    var z := Zip(expected, actual);
    var scores := [];
    for i := 0 to |labels|
      invariant scores == Scores(z, labels[..i])
    {
      var kind := labels[i];
      NextScore(z, labels, i);
      scores := scores + [LabelScore(z, kind)];
    }
    assert labels[..|labels|] == labels;
    r := Mean(scores);
  }

  // ---------------------------------------------------------------- one label

  lemma Itself(b: real)
    requires b > 0.0
    ensures b / b == 1.0
  {
  }

  lemma QuotientBounds(a: real, b: real)
    requires 0.0 <= a <= b && b > 0.0
    ensures 0.0 <= a / b <= 1.0
    ensures a / b == 1.0 <==> a == b
    ensures a > 0.0 ==> a / b > 0.0
  {
    var q := a / b;
    assert q * b == a;
    assert (1.0 - q) * b == b - a;
    Itself(b);
  }

  /** The closed form: twice the hits over twice the hits plus all errors. */
  lemma F1ClosedForm(tp: nat, fp: nat, fn: nat)
    ensures F1(tp, fp, fn) == Ratio(2 * tp, 2 * tp + fp + fn)
  {
    if tp > 0 {
      var t, a, b := tp as real, (tp + fp) as real, (tp + fn) as real;
      var p, r := t / a, t / b;
      assert p * a == t && r * b == t;
      assert p > 0.0 && r > 0.0;
    }
  }

  lemma F1Bounds(tp: nat, fp: nat, fn: nat)
    ensures 0.0 <= F1(tp, fp, fn) <= 1.0
    ensures F1(tp, fp, fn) == 1.0 <==> tp > 0 && fp == 0 && fn == 0
  {
    F1ClosedForm(tp, fp, fn);
    if 2 * tp + fp + fn > 0 {
      QuotientBounds((2 * tp) as real, (2 * tp + fp + fn) as real);
    }
  }

  // ---------------------------------------------------------------- the mean

  ghost predicate Unit(s: real) {
    0.0 <= s <= 1.0
  }

  lemma {:induction false} SumBounds(scores: seq<real>)
    requires forall i :: 0 <= i < |scores| ==> Unit(scores[i])
    ensures 0.0 <= SumOf(scores) <= |scores| as real
    ensures SumOf(scores) == |scores| as real <==> forall i :: 0 <= i < |scores| ==> scores[i] == 1.0
  {
    if scores != [] {
      var rest := scores[1..];
      assert Unit(scores[0]);
      assert forall i :: 0 <= i < |rest| ==> rest[i] == scores[i + 1] && Unit(scores[i + 1]);
      SumBounds(rest);
      if forall i :: 0 <= i < |rest| ==> rest[i] == 1.0 {
        assert forall i :: 0 < i < |scores| ==> scores[i] == rest[i - 1];
      }
    }
  }

  lemma {:induction false} ScoreAt(z: seq<Outcome>, labels: seq<Key>, i: nat)
    requires i < |labels|
    ensures |Scores(z, labels)| == |labels|
    ensures Scores(z, labels)[i] == LabelScore(z, labels[i])
  {
    if i > 0 {
      ScoreAt(z, labels[1..], i - 1);
    } else if |labels| > 1 {
      ScoreAt(z, labels[1..], 0);
    }
  }

  lemma ScoresAreUnits(z: seq<Outcome>, labels: seq<Key>)
    ensures |Scores(z, labels)| == |labels|
    ensures forall i :: 0 <= i < |labels| ==> Scores(z, labels)[i] == LabelScore(z, labels[i])
    ensures forall i :: 0 <= i < |labels| ==> Unit(Scores(z, labels)[i])
  {
    if labels != [] {
      ScoreAt(z, labels, 0);
    }
    forall i | 0 <= i < |labels|
      ensures Scores(z, labels)[i] == LabelScore(z, labels[i]) && Unit(Scores(z, labels)[i])
    {
      ScoreAt(z, labels, i);
      F1Bounds(Tp(z, labels[i]), Fp(z, labels[i]), Fn(z, labels[i]));
    }
  }

  lemma MacroScoreBounded(expected: seq<Key>, actual: seq<Key>)
    ensures 0.0 <= MacroScore(expected, actual) <= 1.0
  {
    var labels := SortedKeys(Labels(expected, actual));
    var scores := Scores(Zip(expected, actual), labels);
    ScoresAreUnits(Zip(expected, actual), labels);
    SumBounds(scores);
    if scores != [] {
      QuotientBounds(SumOf(scores), |scores| as real);
    }
  }

  // ---------------------------------------------------------------- when the score is perfect

  lemma {:induction false} TpPositive(z: seq<Outcome>, kind: Key)
    ensures Tp(z, kind) > 0 <==> Outcome(kind, kind) in z
  {
    if z != [] {
      TpPositive(z[1..], kind);
      assert z == [z[0]] + z[1..];
    }
  }

  ghost predicate Blames(o: Outcome, kind: Key) {
    (o.truth == kind) != (o.prediction == kind)
  }

  lemma {:induction false} NoErrors(z: seq<Outcome>, kind: Key)
    ensures Fp(z, kind) == 0 && Fn(z, kind) == 0 <==> forall o :: o in z ==> !Blames(o, kind)
  {
    if z != [] {
      NoErrors(z[1..], kind);
      assert forall o :: o in z <==> o == z[0] || o in z[1..];
      assert Blames(z[0], kind) <==> Fp([z[0]], kind) + Fn([z[0]], kind) > 0;
    }
  }

  /** Every zipped pair agrees, and every label of either list is one of the zipped pairs. */
  ghost predicate AgreesAndCovers(expected: seq<Key>, actual: seq<Key>) {
    && (forall o :: o in Zip(expected, actual) ==> o.truth == o.prediction)
    && (forall l :: l in Labels(expected, actual) ==> Outcome(l, l) in Zip(expected, actual))
  }

  lemma PerfectLabelIff(z: seq<Outcome>, l: Key)
    ensures LabelScore(z, l) == 1.0 <==> Outcome(l, l) in z && forall o :: o in z ==> !Blames(o, l)
  {
    F1Bounds(Tp(z, l), Fp(z, l), Fn(z, l));
    TpPositive(z, l);
    NoErrors(z, l);
  }

  /** The mean of scores in [0,1] is 1 when every one of them is. */
  lemma MeanIsOne(z: seq<Outcome>, labels: seq<Key>)
    ensures Mean(Scores(z, labels)) == 1.0 <==>
      labels != [] && forall i :: 0 <= i < |labels| ==> LabelScore(z, labels[i]) == 1.0
  {
    var scores := Scores(z, labels);
    ScoresAreUnits(z, labels);
    SumBounds(scores);
    if scores != [] {
      QuotientBounds(SumOf(scores), |scores| as real);
    }
  }

  /** A label's score is perfect. */
  function Perfect(z: seq<Outcome>): Key -> bool {
    (l: Key) => LabelScore(z, l) == 1.0
  }

  lemma ListMeansOne(z: seq<Outcome>, listed: seq<Key>, labels: set<Key>)
    requires (forall l :: l in listed <==> l in labels) && |listed| == |labels|
    ensures Mean(Scores(z, listed)) == 1.0 <==> labels != {} && forall l :: l in labels ==> Perfect(z)(l)
  {
    MeanIsOne(z, listed);
    assert forall i :: 0 <= i < |listed| ==> (Perfect(z)(listed[i]) <==> LabelScore(z, listed[i]) == 1.0);
  }

  lemma PerfectIffAllLabels(expected: seq<Key>, actual: seq<Key>)
    ensures MacroScore(expected, actual) == 1.0 <==>
      Labels(expected, actual) != {} && forall l :: l in Labels(expected, actual) ==> Perfect(Zip(expected, actual))(l)
  {
    ListMeansOne(Zip(expected, actual), SortedKeys(Labels(expected, actual)), Labels(expected, actual));
  }

  lemma ZipHasLabels(expected: seq<Key>, actual: seq<Key>, o: Outcome)
    requires o in Zip(expected, actual)
    ensures o.truth in Labels(expected, actual) && o.prediction in Labels(expected, actual)
  {
  }

  /** For any two lists the score is 1 exactly when the common part agrees and no label is only in a tail. */
  lemma PerfectIff(expected: seq<Key>, actual: seq<Key>)
    ensures MacroScore(expected, actual) == 1.0 <==>
      (expected != [] || actual != []) && AgreesAndCovers(expected, actual)
  {
    var z := Zip(expected, actual);
    PerfectIffAllLabels(expected, actual);
    LabelsEmptyIff(expected, actual);
    forall l | l in Labels(expected, actual)
      ensures Perfect(z)(l) <==> Outcome(l, l) in z && forall o :: o in z ==> !Blames(o, l)
    {
      PerfectLabelIff(z, l);
    }
    forall o | o in z && forall l :: l in Labels(expected, actual) ==> Perfect(z)(l)
      ensures o.truth == o.prediction
    {
      ZipHasLabels(expected, actual, o);
      assert Perfect(z)(o.truth) && !Blames(o, o.truth);
    }
  }

  lemma LabelsEmptyIff(expected: seq<Key>, actual: seq<Key>)
    ensures Labels(expected, actual) == {} <==> expected == [] && actual == []
  {
    if expected != [] {
      assert expected[0] in Labels(expected, actual);
    }
    if actual != [] {
      assert actual[0] in Labels(expected, actual);
    }
  }

  lemma EqualLengthPerfectIff(expected: seq<Key>, actual: seq<Key>)
    requires |expected| == |actual|
    ensures MacroScore(expected, actual) == 1.0 <==> expected != [] && expected == actual
  {
    PerfectIff(expected, actual);
    var z := Zip(expected, actual);
    if AgreesAndCovers(expected, actual) {
      forall i | 0 <= i < |expected|
        ensures expected[i] == actual[i]
      {
        assert z[i] in z;
      }
    }
    if expected == actual {
      forall l | l in Labels(expected, actual)
        ensures Outcome(l, l) in z
      {
        var i :| 0 <= i < |expected| && expected[i] == l;
        assert z[i] == Outcome(l, l);
      }
    }
  }

  /** Unequal lengths are not noticed: a surplus prediction of a known label still scores 1. */
  lemma SurplusScoresOne(x: Key)
    ensures MacroScore([x], [x, x]) == 1.0
  {
    PerfectIff([x], [x, x]);
    assert Zip([x], [x, x]) == [Outcome(x, x)];
    assert forall l :: l in Labels([x], [x, x]) ==> l == x;
  }

  // ---------------------------------------------------------------- conservation of errors

  function Mismatches(z: seq<Outcome>): nat {
    if z == [] then 0 else Mismatches(z[1..]) + (if z[0].truth != z[0].prediction then 1 else 0)
  }

  function TotalFp(z: seq<Outcome>, labels: set<Key>): nat {
    if labels == {} then 0
    else
      var l := Min(labels);
      Fp(z, l) + TotalFp(z, labels - {l})
  }

  function TotalFn(z: seq<Outcome>, labels: set<Key>): nat {
    if labels == {} then 0
    else
      var l := Min(labels);
      Fn(z, l) + TotalFn(z, labels - {l})
  }

  /** One more outcome is charged to the label it predicted and to the label it missed, once each. */
  lemma {:induction false} OneMoreError(o: Outcome, z: seq<Outcome>, labels: set<Key>)
    ensures TotalFp([o] + z, labels) ==
      TotalFp(z, labels) + if o.truth != o.prediction && o.prediction in labels then 1 else 0
    ensures TotalFn([o] + z, labels) ==
      TotalFn(z, labels) + if o.truth != o.prediction && o.truth in labels then 1 else 0
  {
    if labels != {} {
      assert ([o] + z)[1..] == z;
      OneMoreError(o, z, labels - {Min(labels)});
    }
  }

  lemma {:induction false} NoOutcomesNoErrors(labels: set<Key>)
    ensures TotalFp([], labels) == 0 && TotalFn([], labels) == 0
  {
    if labels != {} {
      NoOutcomesNoErrors(labels - {Min(labels)});
    }
  }

  lemma {:induction false} ErrorsConserved(z: seq<Outcome>, labels: set<Key>)
    requires forall o :: o in z ==> o.truth in labels && o.prediction in labels
    ensures TotalFp(z, labels) == TotalFn(z, labels) == Mismatches(z)
  {
    if z == [] {
      NoOutcomesNoErrors(labels);
    } else {
      ErrorsConserved(z[1..], labels);
      assert z == [z[0]] + z[1..];
      OneMoreError(z[0], z[1..], labels);
    }
  }

  /** Over all labels of the run, false positives and false negatives both count the mismatched pairs. */
  lemma FalsePositivesEqualFalseNegatives(expected: seq<Key>, actual: seq<Key>)
    ensures var z := Zip(expected, actual);
      TotalFp(z, Labels(expected, actual)) == TotalFn(z, Labels(expected, actual)) == Mismatches(z)
  {
    ErrorsConserved(Zip(expected, actual), Labels(expected, actual));
  }

  // ---------------------------------------------------------------- common permutations

  lemma {:induction false} CountsRemove(z: seq<Outcome>, j: nat, kind: Key)
    requires j < |z|
    ensures var rest := z[..j] + z[j + 1..]; var head := [z[j]] + rest;
      Tp(z, kind) == Tp(head, kind) && Fp(z, kind) == Fp(head, kind) && Fn(z, kind) == Fn(head, kind)
  {
    var rest := z[..j] + z[j + 1..];
    assert ([z[j]] + rest)[1..] == rest;
    if j == 0 {
      assert z == [z[0]] + rest;
    } else {
      var tail := z[1..];
      CountsRemove(tail, j - 1, kind);
      var tailRest := tail[..j - 1] + tail[j..];
      assert ([tail[j - 1]] + tailRest)[1..] == tailRest;
      assert rest[1..] == tailRest && rest[0] == z[0];
    }
  }

  lemma MultisetWithout(z: seq<Outcome>, j: nat)
    requires j < |z|
    ensures multiset(z) == multiset(z[..j] + z[j + 1..]) + multiset{z[j]}
  {
    assert z == z[..j] + [z[j]] + z[j + 1..];
  }

  lemma SameRest(a: multiset<Outcome>, b: multiset<Outcome>, o: Outcome)
    requires a + multiset{o} == b + multiset{o}
    ensures a == b
  {
    assert a == a + multiset{o} - multiset{o};
  }

  lemma {:induction false} CountsOfPermutation(z: seq<Outcome>, z': seq<Outcome>, kind: Key)
    requires multiset(z) == multiset(z')
    ensures Tp(z, kind) == Tp(z', kind) && Fp(z, kind) == Fp(z', kind) && Fn(z, kind) == Fn(z', kind)
  {
    if z == [] {
      assert |multiset(z')| == |z'|;
    } else {
      assert z[0] in multiset(z');
      var j :| 0 <= j < |z'| && z'[j] == z[0];
      var rest := z'[..j] + z'[j + 1..];
      MultisetWithout(z', j);
      MultisetWithout(z, 0);
      assert z[..0] + z[1..] == z[1..];
      SameRest(multiset(rest), multiset(z[1..]), z[0]);
      CountsRemove(z', j, kind);
      CountsOfPermutation(z[1..], rest, kind);
      assert ([z[0]] + rest)[1..] == rest;
    }
  }

  lemma {:induction false} ScoresOfPermutation(z: seq<Outcome>, z': seq<Outcome>, labels: seq<Key>)
    requires multiset(z) == multiset(z')
    ensures Scores(z, labels) == Scores(z', labels)
  {
    if labels != [] {
      CountsOfPermutation(z, z', labels[0]);
      ScoresOfPermutation(z, z', labels[1..]);
    }
  }

  ghost predicate Mentions(z: seq<Outcome>, l: Key) {
    exists o :: o in multiset(z) && (o.truth == l || o.prediction == l)
  }

  lemma LabelIsMentioned(expected: seq<Key>, actual: seq<Key>, l: Key)
    requires |expected| == |actual|
    ensures l in Labels(expected, actual) <==> Mentions(Zip(expected, actual), l)
  {
    var z := Zip(expected, actual);
    if l in Labels(expected, actual) {
      var i :| 0 <= i < |z| && (expected[i] == l || actual[i] == l);
      assert z[i] in multiset(z);
    }
  }

  lemma SameLabels(expected: seq<Key>, actual: seq<Key>, expected': seq<Key>, actual': seq<Key>)
    requires |expected| == |actual| && |expected'| == |actual'|
    requires multiset(Zip(expected, actual)) == multiset(Zip(expected', actual'))
    ensures Labels(expected, actual) == Labels(expected', actual')
  {
    forall l
      ensures l in Labels(expected, actual) <==> l in Labels(expected', actual')
    {
      LabelIsMentioned(expected, actual, l);
      LabelIsMentioned(expected', actual', l);
    }
  }

  /** The score depends only on how often each pair occurs. */
  lemma PermutationInvariant(expected: seq<Key>, actual: seq<Key>, expected': seq<Key>, actual': seq<Key>)
    requires |expected| == |actual| && |expected'| == |actual'|
    requires multiset(Zip(expected, actual)) == multiset(Zip(expected', actual'))
    ensures MacroScore(expected, actual) == MacroScore(expected', actual')
  {
    SameLabels(expected, actual, expected', actual');
    ScoresOfPermutation(Zip(expected, actual), Zip(expected', actual'), SortedKeys(Labels(expected, actual)));
  }

  // ---------------------------------------------------------------- the score in terms of counts

  function Truths(z: seq<Outcome>): seq<Key> {
    seq(|z|, i requires 0 <= i < |z| => z[i].truth)
  }

  function Predictions(z: seq<Outcome>): seq<Key> {
    seq(|z|, i requires 0 <= i < |z| => z[i].prediction)
  }

  lemma {:induction false} HitsCounted(z: seq<Outcome>, kind: Key)
    ensures Tp(z, kind) == multiset(z)[Outcome(kind, kind)]
  {
    if z != [] {
      HitsCounted(z[1..], kind);
      assert z == [z[0]] + z[1..];
    }
  }

  lemma {:induction false} TruthsCounted(z: seq<Outcome>, kind: Key)
    ensures Tp(z, kind) + Fn(z, kind) == multiset(Truths(z))[kind]
  {
    if z != [] {
      TruthsCounted(z[1..], kind);
      assert Truths(z) == [z[0].truth] + Truths(z[1..]);
    }
  }

  lemma {:induction false} PredictionsCounted(z: seq<Outcome>, kind: Key)
    ensures Tp(z, kind) + Fp(z, kind) == multiset(Predictions(z))[kind]
  {
    if z != [] {
      PredictionsCounted(z[1..], kind);
      assert Predictions(z) == [z[0].prediction] + Predictions(z[1..]);
    }
  }

  /** A label's score: twice its hits over its occurrences among truths and predictions together. */
  function CountScore(z: seq<Outcome>, kind: Key): real {
    Ratio(2 * multiset(z)[Outcome(kind, kind)], multiset(Truths(z))[kind] + multiset(Predictions(z))[kind])
  }

  lemma LabelScoreCounts(z: seq<Outcome>, kind: Key)
    ensures LabelScore(z, kind) == CountScore(z, kind)
  {
    HitsCounted(z, kind);
    TruthsCounted(z, kind);
    PredictionsCounted(z, kind);
    F1ClosedForm(Tp(z, kind), Fp(z, kind), Fn(z, kind));
  }

  function CountScores(z: seq<Outcome>, labels: seq<Key>): real {
    if labels == [] then 0.0 else CountScore(z, labels[0]) + CountScores(z, labels[1..])
  }

  lemma {:induction false} SumOfCounts(z: seq<Outcome>, labels: seq<Key>)
    ensures SumOf(Scores(z, labels)) == CountScores(z, labels) && |Scores(z, labels)| == |labels|
  {
    if labels != [] {
      SumOfCounts(z, labels[1..]);
      LabelScoreCounts(z, labels[0]);
      assert Scores(z, labels)[1..] == Scores(z, labels[1..]);
    }
  }

  /** The macro score is the mean of the label scores, over every label expected or predicted. */
  lemma MacroScoreCounts(expected: seq<Key>, actual: seq<Key>)
    ensures var labels := SortedKeys(Labels(expected, actual));
      MacroScore(expected, actual) ==
        if labels == [] then 0.0 else CountScores(Zip(expected, actual), labels) / |labels| as real
  {
    var labels := SortedKeys(Labels(expected, actual));
    SumOfCounts(Zip(expected, actual), labels);
  }
}
