/** `_recall` and `_mrr`, and how the two agree about the first relevant place. */
module Retrieval {
  import opened Counting
  import opened Ndcg

  /** A judgment of 2 or more counts as relevant. */
  function Positives(rel: Relevance): set<int> {
    set id | id in rel && rel[id] >= 2
  }

  function FirstK(ids: seq<int>, k: nat): set<int> {
    set i | 0 <= i < Least(k, |ids|) :: ids[i]
  }

  function Recall(ids: seq<int>, rel: Relevance, k: nat): real {
    var positives := Positives(rel);
    if positives != {} then |positives * FirstK(ids, k)| as real / |positives| as real else 0.0
  }

  method Mrr(ids: seq<int>, rel: Relevance) returns (r: real)
    ensures r == ReciprocalRank(ids, rel, 0)
  {
    for i := 0 to |ids|
      invariant ReciprocalRank(ids, rel, 0) == ReciprocalRank(ids, rel, i)
    {
      if ValueOf(rel, ids[i]) >= 2 {
        return 1.0 / (i + 1) as real;
      }
    }
    r := 0.0;
  }

  /** The reciprocal of the first relevant place from `i` on. */
  function ReciprocalRank(ids: seq<int>, rel: Relevance, i: nat): real
    decreases |ids| - i
  {
    if i >= |ids| then 0.0
    else if ValueOf(rel, ids[i]) >= 2 then 1.0 / (i + 1) as real
    else ReciprocalRank(ids, rel, i + 1)
  }

  lemma FractionBounds(a: nat, b: nat)
    requires a <= b && b > 0
    ensures var q := a as real / b as real; 0.0 <= q <= 1.0 && (q == 1.0 <==> a == b) && (q > 0.0 <==> a > 0)
  {
    Quotient(a as real, b as real);
  }

  /** Recall is 1 exactly when there is something to find and all of it is within the first `k` results. */
  lemma RecallBounds(ids: seq<int>, rel: Relevance, k: nat)
    ensures 0.0 <= Recall(ids, rel, k) <= 1.0
    ensures Recall(ids, rel, k) == 1.0 <==> Positives(rel) != {} && Positives(rel) <= FirstK(ids, k)
    ensures Recall(ids, rel, k) > 0.0 <==> Positives(rel) * FirstK(ids, k) != {}
  {
    var positives := Positives(rel);
    if positives != {} {
      var found := positives * FirstK(ids, k);
      SubsetCount(found, positives);
      FractionBounds(|found|, |positives|);
      assert found == positives <==> positives <= FirstK(ids, k);
    }
  }

  lemma RecallGrows(ids: seq<int>, rel: Relevance, k: nat, m: nat)
    requires k <= m
    ensures Recall(ids, rel, k) <= Recall(ids, rel, m)
  {
    var positives := Positives(rel);
    if positives != {} {
      SubsetCount(positives * FirstK(ids, k), positives * FirstK(ids, m));
      Quotients(|positives * FirstK(ids, k)|, |positives * FirstK(ids, m)|, |positives|);
    }
  }

  lemma Quotients(a: nat, b: nat, c: nat)
    requires a <= b && c > 0
    ensures a as real / c as real <= b as real / c as real
  {
    assert (b as real / c as real - a as real / c as real) * c as real == (b - a) as real;
  }

  lemma InverseOrder(a: nat, b: nat)
    requires 0 < a && 0 < b
    ensures 1.0 / a as real >= 1.0 / b as real <==> a <= b
  {
    if a > b { } else if a < b { }
  }

  lemma {:induction false} RankReached(ids: seq<int>, rel: Relevance, i: nat, k: nat)
    requires k > 0
    ensures ReciprocalRank(ids, rel, i) >= 1.0 / k as real <==>
      exists j: nat :: i <= j < Least(k, |ids|) && ValueOf(rel, ids[j]) >= 2
    decreases |ids| - i
  {
    if i < |ids| {
      if ValueOf(rel, ids[i]) >= 2 {
        InverseOrder(i + 1, k);
        assert i < Least(k, |ids|) <==> i + 1 <= k;
      } else {
        RankReached(ids, rel, i + 1, k);
      }
    } else {
      assert 1.0 / k as real > 0.0;
    }
  }

  /** The reciprocal rank reaches `1 / k` exactly when recall at `k` is not zero. */
  lemma RankAgreesWithRecall(ids: seq<int>, rel: Relevance, k: nat)
    requires k > 0
    ensures ReciprocalRank(ids, rel, 0) >= 1.0 / k as real <==> Recall(ids, rel, k) > 0.0
  {
    RankReached(ids, rel, 0, k);
    RecallBounds(ids, rel, k);
    if x :| x in Positives(rel) * FirstK(ids, k) {
      var j: nat :| j < Least(k, |ids|) && ids[j] == x;
      assert ValueOf(rel, ids[j]) >= 2;
    }
    forall j: nat | j < Least(k, |ids|) && ValueOf(rel, ids[j]) >= 2
      ensures Positives(rel) * FirstK(ids, k) != {}
    {
      assert ids[j] in Positives(rel) * FirstK(ids, k);
    }
  }

  /** The place holds a relevant resource not listed before. */
  predicate NewHit(ids: seq<int>, rel: Relevance, k: nat)
    requires k < |ids|
  {
    ValueOf(rel, ids[k]) >= 2 && ids[k] !in FirstK(ids, k)
  }

  lemma HitsNext(ids: seq<int>, rel: Relevance, k: nat)
    requires k < |ids|
    ensures FirstK(ids, 0) == {}
    ensures |Positives(rel) * FirstK(ids, k + 1)| == |Positives(rel) * FirstK(ids, k)| + if NewHit(ids, rel, k) then 1 else 0
  {
    var before := Positives(rel) * FirstK(ids, k);
    assert FirstK(ids, k + 1) == FirstK(ids, k) + {ids[k]};
    if NewHit(ids, rel, k) {
      assert Positives(rel) * FirstK(ids, k + 1) == before + {ids[k]};
    } else {
      assert Positives(rel) * FirstK(ids, k + 1) == before;
    }
  }

  /** One place more raises recall by one share of the relevant resources exactly when it holds one not listed before. */
  lemma RecallStep(ids: seq<int>, rel: Relevance, k: nat)
    requires k < |ids| && Positives(rel) != {}
    ensures Recall(ids, rel, 0) == 0.0
    ensures Recall(ids, rel, k + 1) == Recall(ids, rel, k)
      + if ValueOf(rel, ids[k]) >= 2 && ids[k] !in FirstK(ids, k) then 1.0 / |Positives(rel)| as real else 0.0
  {
    HitsNext(ids, rel, k);
    Shares(|Positives(rel) * FirstK(ids, k)|, |Positives(rel)|);
  }

  lemma Shares(a: nat, b: nat)
    requires b > 0
    ensures (a + 1) as real / b as real == a as real / b as real + 1.0 / b as real
  {
  }

  /** The reciprocal rank is that of the first relevant place, and nothing without one. */
  lemma {:induction false} RankIsFirst(ids: seq<int>, rel: Relevance, i: nat, j: nat)
    requires i <= j <= |ids| && forall m :: i <= m < j ==> ValueOf(rel, ids[m]) < 2
    ensures j == |ids| ==> ReciprocalRank(ids, rel, i) == 0.0
    ensures j < |ids| && ValueOf(rel, ids[j]) >= 2 ==> ReciprocalRank(ids, rel, i) == 1.0 / (j + 1) as real
    decreases j - i
  {
    if i < j {
      RankIsFirst(ids, rel, i + 1, j);
    }
  }
}
