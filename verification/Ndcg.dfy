/** Discounted cumulative gain and its normalization, over an arbitrary positive non-increasing discount in
    place of `1 / log2(rank + 2)`. */
module Ndcg {
  import opened Counting

  type Discount = nat -> real

  ghost predicate Decreasing(d: Discount) {
    forall i: nat, j: nat :: i <= j ==> d(i) >= d(j) > 0.0
  }

  ghost predicate StrictlyDecreasing(d: Discount) {
    forall i: nat, j: nat :: i < j ==> d(i) > d(j) > 0.0
  }

  // ---------------------------------------------------------------- the program

  function Pow2Nat(n: nat): (r: real)
    ensures r >= 1.0
    ensures n > 0 ==> r >= 2.0
  {
    if n == 0 then 1.0 else 2.0 * Pow2Nat(n - 1)
  }

  /** Python's `2 ** n`, a fraction for negative `n`. */
  function Pow2(n: int): real {
    if n >= 0 then Pow2Nat(n) else 1.0 / Pow2Nat(-n)
  }

  /** `2 ** relevance - 1` */
  function Gain(v: int): real {
    Pow2(v) - 1.0
  }

  type Relevance = map<int, int>

  /** `relevance.get(resource_id, 0)` */
  function ValueOf(rel: Relevance, id: int): int {
    if id in rel then rel[id] else 0
  }

  function GainOf(rel: Relevance, id: int): real {
    Gain(ValueOf(rel, id))
  }

  function Least(a: nat, b: nat): nat {
    if a <= b then a else b
  }

  /** The sum over the first `n` places of the list. */
  function DcgSum(ids: seq<int>, rel: Relevance, d: Discount, n: nat): real
    requires n <= |ids|
  {
    if n == 0 then 0.0 else DcgSum(ids, rel, d, n - 1) + GainOf(rel, ids[n - 1]) * d(n - 1)
  }

  function Dcg(ids: seq<int>, rel: Relevance, k: nat, d: Discount): real {
    DcgSum(ids, rel, d, Least(k, |ids|))
  }

  ghost predicate Distinct(ids: seq<int>) {
    forall i, j :: 0 <= i < j < |ids| ==> ids[i] != ids[j]
  }

  /** A member of `keys` of the highest relevance. */
  predicate IsTop(rel: Relevance, keys: set<int>, x: int) {
    x in keys && x in rel && forall y :: y in keys && y in rel ==> rel[y] <= rel[x]
  }

  lemma Member<T>(s: set<T>) returns (x: T)
    requires s != {}
    ensures x in s
  {
    x :| x in s;
  }

  lemma {:induction false} TopExists(rel: Relevance, keys: set<int>)
    requires keys <= rel.Keys && keys != {}
    ensures exists x :: IsTop(rel, keys, x)
  {
    var z := Member(keys);
    if keys == {z} {
      assert IsTop(rel, keys, z);
    } else {
      TopExists(rel, keys - {z});
      var m :| IsTop(rel, keys - {z}, m);
      assert IsTop(rel, keys, if rel[z] > rel[m] then z else m);
    }
  }

  /** The judged resources in an order that sorts their relevance descending. */
  ghost function Ranked(rel: Relevance, keys: set<int>): (order: seq<int>)
    requires keys <= rel.Keys
    ensures |order| == |keys|
  {
    if keys == {} then []
    else
      TopExists(rel, keys);
      var x :| IsTop(rel, keys, x);
      [x] + Ranked(rel, keys - {x})
  }

  ghost function Ranking(rel: Relevance): (order: seq<int>)
    ensures |order| == |rel|
  {
    assert |rel| == |rel.Keys|;
    Ranked(rel, rel.Keys)
  }

  /** The ranking lists each judged resource once. */
  lemma {:induction false} RankedMembers(rel: Relevance, keys: set<int>)
    requires keys <= rel.Keys
    ensures forall x :: x in Ranked(rel, keys) <==> x in keys
    ensures Distinct(Ranked(rel, keys))
  {
    if keys != {} {
      var order := Ranked(rel, keys);
      var rest := Ranked(rel, keys - {order[0]});
      RankedMembers(rel, keys - {order[0]});
      assert IsTop(rel, keys, order[0]);
      assert order == [order[0]] + rest;
      assert forall j :: 0 < j < |order| ==> order[j] == rest[j - 1] && rest[j - 1] in rest;
    }
  }

  lemma {:induction false} RankedSorted(rel: Relevance, keys: set<int>, i: nat, j: nat)
    requires keys <= rel.Keys && i <= j < |keys|
    ensures ValueOf(rel, Ranked(rel, keys)[j]) <= ValueOf(rel, Ranked(rel, keys)[i])
  {
    var order := Ranked(rel, keys);
    var rest := keys - {order[0]};
    assert IsTop(rel, keys, order[0]);
    assert order == [order[0]] + Ranked(rel, rest);
    if i > 0 {
      assert order[i] == Ranked(rel, rest)[i - 1] && order[j] == Ranked(rel, rest)[j - 1];
      RankedSorted(rel, rest, i - 1, j - 1);
    } else {
      RankedMembers(rel, keys);
      assert order[j] in order;
    }
  }

  /** `sorted(relevance.values(), reverse=True)` */
  ghost function SortedValues(rel: Relevance): (values: seq<int>)
    ensures |values| == |rel|
  {
    var order := Ranking(rel);
    seq(|order|, i requires 0 <= i < |order| => ValueOf(rel, order[i]))
  }

  ghost predicate Descending(values: seq<int>) {
    forall i, j :: 0 <= i <= j < |values| ==> values[j] <= values[i]
  }

  lemma SortedValuesDescend(rel: Relevance)
    ensures Descending(SortedValues(rel))
  {
    forall i, j | 0 <= i <= j < |rel|
      ensures SortedValues(rel)[j] <= SortedValues(rel)[i]
    {
      RankedSorted(rel, rel.Keys, i, j);
    }
  }

  function ValueSum(values: seq<int>, d: Discount, n: nat): real
    requires n <= |values|
  {
    if n == 0 then 0.0 else ValueSum(values, d, n - 1) + Gain(values[n - 1]) * d(n - 1)
  }

  ghost function IdealDcg(rel: Relevance, k: nat, d: Discount): real {
    ValueSum(SortedValues(rel), d, Least(k, |rel|))
  }

  /** `_ndcg` */
  ghost function Ndcg(ids: seq<int>, rel: Relevance, k: nat, d: Discount): real {
    var ideal := IdealDcg(rel, k, d);
    if ideal != 0.0 then Dcg(ids, rel, k, d) / ideal else 0.0
  }

  // ---------------------------------------------------------------- gains

  lemma {:induction false} Pow2NatMonotone(a: nat, b: nat)
    requires a <= b
    ensures Pow2Nat(a) <= Pow2Nat(b)
  {
    if a < b {
      Pow2NatMonotone(a, b - 1);
    }
  }

  lemma Reciprocals(p: real, q: real)
    requires p >= q >= 1.0
    ensures 1.0 / p <= 1.0 / q
    ensures p > 1.0 ==> 1.0 / p < 1.0
  {
    var a, b := 1.0 / p, 1.0 / q;
    assert a * p == 1.0 && b * q == 1.0;
    assert a * q <= a * p;
    assert (b - a) * q >= 0.0;
    if p > 1.0 {
      assert (1.0 - a) * p > 0.0;
    }
  }

  lemma GainMonotone(a: int, b: int)
    requires a <= b
    ensures Gain(a) <= Gain(b)
  {
    if a >= 0 {
      Pow2NatMonotone(a, b);
    } else if b < 0 {
      Pow2NatMonotone(-b, -a);
      Reciprocals(Pow2Nat(-a), Pow2Nat(-b));
    }
  }

  /** One more point of relevance doubles the gain and adds one; with `Gain(0)` at zero this fixes every gain. */
  lemma GainDoubles(v: int)
    ensures Gain(0) == 0.0 && Gain(v + 1) == 2.0 * Gain(v) + 1.0
  {
    if v < 0 {
      var n := -v;
      assert Pow2Nat(n) == 2.0 * Pow2Nat(n - 1);
      HalfReciprocal(Pow2Nat(n - 1));
      assert Pow2(v + 1) == 1.0 / Pow2Nat(n - 1);
    }
  }

  lemma HalfReciprocal(p: real)
    requires p > 0.0
    ensures 2.0 * (1.0 / (2.0 * p)) == 1.0 / p
  {
  }

  // ---------------------------------------------------------------- summation by parts

  ghost function PrefixSum(f: seq<real>, n: nat): real
    requires n <= |f|
  {
    if n == 0 then 0.0 else PrefixSum(f, n - 1) + f[n - 1]
  }

  ghost function Weighted(f: seq<real>, d: Discount, n: nat): real
    requires n <= |f|
  {
    if n == 0 then 0.0 else Weighted(f, d, n - 1) + f[n - 1] * d(n - 1)
  }

  /** How far `g` is ahead of `f` after `n` places. */
  ghost function Lead(g: seq<real>, f: seq<real>, n: nat): real
    requires n <= |f| && |f| == |g|
  {
    PrefixSum(g, n) - PrefixSum(f, n)
  }

  ghost function WeightedLead(g: seq<real>, f: seq<real>, d: Discount, n: nat): real
    requires n <= |f| && |f| == |g|
  {
    Weighted(g, d, n) - Weighted(f, d, n)
  }

  /** `g` is ahead of `f` at every prefix. */
  ghost predicate Dominates(g: seq<real>, f: seq<real>) {
    |f| == |g| && forall n: nat :: n <= |f| ==> Lead(g, f, n) >= 0.0
  }

  lemma Product(a: real, b: real)
    requires a >= 0.0 && b >= 0.0
    ensures a * b >= 0.0
    ensures a > 0.0 && b > 0.0 ==> a * b > 0.0
  {
  }

  lemma LeadStep(g: seq<real>, f: seq<real>, d: Discount, n: nat)
    requires n < |f| == |g|
    ensures Lead(g, f, n + 1) == Lead(g, f, n) + (g[n] - f[n])
    ensures WeightedLead(g, f, d, n + 1) == WeightedLead(g, f, d, n) + (g[n] - f[n]) * d(n)
  {
  }

  /** The lead in weighted sums is at least the lead in plain sums times the last discount. */
  lemma {:induction false} WeightedLeadBound(g: seq<real>, f: seq<real>, d: Discount, n: nat)
    requires Decreasing(d) && Dominates(g, f) && n < |f|
    ensures WeightedLead(g, f, d, n + 1) >= Lead(g, f, n + 1) * d(n)
  {
    LeadStep(g, f, d, n);
    if n > 0 {
      WeightedLeadBound(g, f, d, n - 1);
      Product(Lead(g, f, n), d(n - 1) - d(n));
    }
  }

  lemma WeightedLeadNonNegative(g: seq<real>, f: seq<real>, d: Discount, n: nat)
    requires Decreasing(d) && Dominates(g, f) && n <= |f|
    ensures WeightedLead(g, f, d, n) >= 0.0
  {
    if n > 0 {
      WeightedLeadBound(g, f, d, n - 1);
      Product(Lead(g, f, n), d(n - 1));
    }
  }

  lemma StrictIsDecreasing(d: Discount)
    requires StrictlyDecreasing(d)
    ensures Decreasing(d)
  {
    forall i: nat, j: nat | i <= j
      ensures d(i) >= d(j) > 0.0
    {
      assert d(j) > d(j + 1);
    }
  }

  /** With a strictly decreasing discount no weighted lead means no plain lead, one place earlier too. */
  lemma NoLead(g: seq<real>, f: seq<real>, d: Discount, n: nat)
    requires StrictlyDecreasing(d) && Dominates(g, f) && n < |f|
    requires WeightedLead(g, f, d, n + 1) == 0.0
    ensures Lead(g, f, n + 1) == 0.0 && Lead(g, f, n) == 0.0
  {
    StrictIsDecreasing(d);
    LeadStep(g, f, d, n);
    if n > 0 {
      WeightedLeadBound(g, f, d, n - 1);
      ZeroLead(Lead(g, f, n), g[n] - f[n], d(n - 1), d(n), WeightedLead(g, f, d, n));
    } else {
      ZeroLead(0.0, g[0] - f[0], d(0) + 1.0, d(0), 0.0);
    }
  }

  lemma ZeroLead(lead: real, gain: real, before: real, now: real, weighted: real)
    requires lead >= 0.0 && lead + gain >= 0.0 && before > now > 0.0
    requires weighted >= lead * before && weighted + gain * now == 0.0
    ensures lead == 0.0 && lead + gain == 0.0
  {
    Product(lead + gain, now);
    Product(lead, before - now);
  }

  lemma {:induction false} NoLeadMeansEqual(g: seq<real>, f: seq<real>, d: Discount, n: nat)
    requires StrictlyDecreasing(d) && Dominates(g, f) && n <= |f|
    requires WeightedLead(g, f, d, n) == 0.0
    ensures f[..n] == g[..n]
  {
    if n > 0 {
      NoLead(g, f, d, n - 1);
      LeadStep(g, f, d, n - 1);
      assert (g[n - 1] - f[n - 1]) * d(n - 1) == 0.0;
      NoLeadMeansEqual(g, f, d, n - 1);
      assert f[..n] == f[..n - 1] + [f[n - 1]] && g[..n] == g[..n - 1] + [g[n - 1]];
    }
  }

  // ---------------------------------------------------------------- the first k gains, padded

  function ListGain(ids: seq<int>, rel: Relevance, i: nat): real {
    if i < |ids| then GainOf(rel, ids[i]) else 0.0
  }

  /** The gains of the first `k` places of the list, zeros past its end. */
  function ListGains(ids: seq<int>, rel: Relevance, k: nat): seq<real> {
    seq(k, i requires 0 <= i < k => ListGain(ids, rel, i))
  }

  function ValueGain(values: seq<int>, i: nat): real {
    if i < |values| then Gain(values[i]) else 0.0
  }

  function ValueGains(values: seq<int>, k: nat): seq<real> {
    seq(k, i requires 0 <= i < k => ValueGain(values, i))
  }

  /** The gains of the first `k` sorted judgments, zeros past the last. */
  ghost function IdealGains(rel: Relevance, k: nat): seq<real> {
    ValueGains(SortedValues(rel), k)
  }

  lemma {:induction false} ListWeighted(f: seq<real>, ids: seq<int>, rel: Relevance, d: Discount, n: nat)
    requires n <= |f| && f == ListGains(ids, rel, |f|)
    ensures Weighted(f, d, n) == DcgSum(ids, rel, d, Least(n, |ids|))
  {
    if n > 0 {
      var m := n - 1;
      ListWeighted(f, ids, rel, d, m);
    }
  }

  lemma {:induction false} ValuesWeighted(f: seq<real>, values: seq<int>, d: Discount, n: nat)
    requires n <= |f| && f == ValueGains(values, |f|)
    ensures Weighted(f, d, n) == ValueSum(values, d, Least(n, |values|))
  {
    if n > 0 {
      var m := n - 1;
      ValuesWeighted(f, values, d, m);
      assert f[m] == ValueGain(values, m);
    }
  }

  lemma WeightedIsDcg(ids: seq<int>, rel: Relevance, k: nat, d: Discount)
    ensures Weighted(ListGains(ids, rel, k), d, k) == Dcg(ids, rel, k, d)
    ensures Weighted(IdealGains(rel, k), d, k) == IdealDcg(rel, k, d)
  {
    ListWeighted(ListGains(ids, rel, k), ids, rel, d, k);
    ValuesWeighted(IdealGains(rel, k), SortedValues(rel), d, k);
  }

  // ---------------------------------------------------------------- what a judgment and a place are worth

  /** A gain at a place of the given discount. */
  function At(gain: real, discount: real): real {
    gain * discount
  }

  lemma Spread(a: real, b: real, w: real)
    ensures At(a - b, w) == a * w - b * w
  {
  }

  /** Raising one gain by `h` moves the weighted sum by `h` times the discount of its place. */
  lemma {:induction false} WeightedWith(f: seq<real>, d: Discount, r: nat, y: real, h: real, n: nat)
    requires r < n <= |f| && y - f[r] == h
    ensures Weighted(f[r := y], d, n) - Weighted(f, d, n) == At(h, d(r))
  {
    var m := n - 1;
    if r < m {
      WeightedWith(f, d, r, y, h, m);
    } else {
      WeightedSame(f, d, r, y, m);
      Spread(y, f[r], d(r));
    }
  }

  lemma {:induction false} WeightedSame(f: seq<real>, d: Discount, r: nat, y: real, n: nat)
    requires n <= r < |f|
    ensures Weighted(f[r := y], d, n) == Weighted(f, d, n)
  {
    if n > 0 {
      WeightedSame(f, d, r, y, n - 1);
    }
  }

  /** The resource stands at place `r` of the first `k`, and nowhere else among them. */
  ghost predicate OnlyAt(ids: seq<int>, x: int, r: nat, k: nat) {
    r < k && r < |ids| && ids[r] == x && forall i :: 0 <= i < k && i < |ids| && ids[i] == x ==> i == r
  }

  /** Judging a resource anew moves the score by the change `h` of its gain times the discount of its place. */
  lemma JudgmentMovesScore(ids: seq<int>, rel: Relevance, k: nat, d: Discount, x: int, v: int, w: int, r: nat, h: real)
    requires OnlyAt(ids, x, r, k) && Gain(w) - Gain(v) == h
    ensures Dcg(ids, rel[x := w], k, d) - Dcg(ids, rel[x := v], k, d) == At(h, d(r))
  {
    var f, g := ListGains(ids, rel[x := v], k), ListGains(ids, rel[x := w], k);
    GainsWithJudgment(ids, rel, k, x, v, w, r);
    WeightedWith(f, d, r, g[r], h, k);
    WeightedIsDcg(ids, rel[x := v], k, d);
    WeightedIsDcg(ids, rel[x := w], k, d);
  }

  lemma GainsWithJudgment(ids: seq<int>, rel: Relevance, k: nat, x: int, v: int, w: int, r: nat)
    requires OnlyAt(ids, x, r, k)
    ensures var f, g := ListGains(ids, rel[x := v], k), ListGains(ids, rel[x := w], k);
      f[r] == Gain(v) && g[r] == Gain(w) && g == f[r := g[r]]
  {
    forall i {:trigger ListGain(ids, rel[x := w], i)} | 0 <= i < k && i != r
      ensures ListGain(ids, rel[x := w], i) == ListGain(ids, rel[x := v], i)
    {
      if i < |ids| {
        assert ids[i] != x;
        assert ValueOf(rel[x := w], ids[i]) == ValueOf(rel[x := v], ids[i]);
      }
    }
  }

  lemma StepsDouble(ids: seq<int>, rel: Relevance, k: nat, d: Discount, x: int, v: int, r: nat, h: real)
    requires OnlyAt(ids, x, r, k) && Gain(v + 1) - Gain(v) == h && Gain(v + 2) - Gain(v + 1) == 2.0 * h
    ensures Dcg(ids, rel[x := v + 2], k, d) - Dcg(ids, rel[x := v + 1], k, d) ==
      2.0 * (Dcg(ids, rel[x := v + 1], k, d) - Dcg(ids, rel[x := v], k, d))
  {
    JudgmentMovesScore(ids, rel, k, d, x, v, v + 1, r, h);
    JudgmentMovesScore(ids, rel, k, d, x, v + 1, v + 2, r, 2.0 * h);
    Twice(Dcg(ids, rel[x := v], k, d), Dcg(ids, rel[x := v + 1], k, d), Dcg(ids, rel[x := v + 2], k, d), h, d(r));
  }

  /** A result listed once within the first `k`: its first point of relevance is worth the discount of its place, and
      each further one twice as much as the one before. */
  lemma EachPointDoubles(ids: seq<int>, rel: Relevance, k: nat, d: Discount, x: int, v: int, r: nat)
    requires OnlyAt(ids, x, r, k)
    ensures Dcg(ids, rel[x := 1], k, d) - Dcg(ids, rel[x := 0], k, d) == d(r)
    ensures Dcg(ids, rel[x := v + 2], k, d) - Dcg(ids, rel[x := v + 1], k, d) ==
      2.0 * (Dcg(ids, rel[x := v + 1], k, d) - Dcg(ids, rel[x := v], k, d))
  {
    GainDoubles(0);
    GainDoubles(v);
    GainDoubles(v + 1);
    JudgmentMovesScore(ids, rel, k, d, x, 0, 1, r, 1.0);
    StepsDouble(ids, rel, k, d, x, v, r, Gain(v) + 1.0);
  }

  lemma Twice(p: real, q: real, s: real, h: real, w: real)
    requires q - p == At(h, w) && s - q == At(2.0 * h, w)
    ensures s - q == 2.0 * (q - p)
  {
  }

  /** Exchanging two of the first `k` results moves the score by the difference `h` of their gains times the difference
      of their discounts: a better result gains by standing earlier. */
  lemma ExchangeMovesDcg(ids: seq<int>, rel: Relevance, k: nat, d: Discount, i: nat, j: nat, h: real)
    requires i < j < |ids| && j < k && GainOf(rel, ids[j]) - GainOf(rel, ids[i]) == h
    ensures Dcg(ids[i := ids[j]][j := ids[i]], rel, k, d) - Dcg(ids, rel, k, d) == At(h, d(i) - d(j))
  {
    var f := ListGains(ids, rel, k);
    var a, b := f[i], f[j];
    GainsExchanged(ids, rel, k, i, j);
    WeightedWith(f, d, i, b, h, k);
    WeightedWith(f[i := b], d, j, a, -h, k);
    WeightedIsDcg(ids, rel, k, d);
    WeightedIsDcg(ids[i := ids[j]][j := ids[i]], rel, k, d);
    Crossed(Dcg(ids, rel, k, d), Weighted(f[i := b], d, k), Dcg(ids[i := ids[j]][j := ids[i]], rel, k, d), h, d(i), d(j));
  }

  lemma GainsExchanged(ids: seq<int>, rel: Relevance, k: nat, i: nat, j: nat)
    requires i < j < |ids| && j < k
    ensures var f := ListGains(ids, rel, k);
      ListGains(ids[i := ids[j]][j := ids[i]], rel, k) == f[i := f[j]][j := f[i]]
  {
  }

  /** The normalized score is the share of the ideal: times the ideal it is the score itself. */
  lemma ScoreIsShare(ids: seq<int>, rel: Relevance, k: nat, d: Discount)
    ensures IdealDcg(rel, k, d) != 0.0 ==> Ndcg(ids, rel, k, d) * IdealDcg(rel, k, d) == Dcg(ids, rel, k, d)
    ensures IdealDcg(rel, k, d) == 0.0 ==> Ndcg(ids, rel, k, d) == 0.0
  {
  }

  lemma Crossed(p: real, q: real, s: real, h: real, u: real, w: real)
    requires q - p == At(h, u) && s - q == At(-h, w)
    ensures s - p == At(h, u - w)
  {
  }

  // ---------------------------------------------------------------- the ideal order collects most

  /** None of the judgments that reach the first `k` places is negative. */
  ghost predicate TopNonNegative(rel: Relevance, k: nat) {
    forall i: nat :: i < Least(k, |rel|) ==> SortedValues(rel)[i] >= 0
  }

  ghost function Sum(ids: seq<int>, rel: Relevance): real {
    if ids == [] then 0.0 else Sum(ids[..|ids| - 1], rel) + GainOf(rel, ids[|ids| - 1])
  }

  lemma {:induction false} SumRemove(ids: seq<int>, rel: Relevance, j: nat)
    requires j < |ids|
    ensures Sum(ids, rel) == Sum(ids[..j] + ids[j + 1..], rel) + GainOf(rel, ids[j])
  {
    var n := |ids| - 1;
    if j == n {
      assert ids[..j] + ids[j + 1..] == ids[..n];
    } else {
      SumRemove(ids[..n], rel, j);
      var rest := ids[..j] + ids[j + 1..];
      assert rest[..|rest| - 1] == ids[..n][..j] + ids[..n][j + 1..];
      assert rest[|rest| - 1] == ids[n];
      assert ids[..n][j] == ids[j];
    }
  }

  ghost function Elements(ids: seq<int>): set<int> {
    set x | x in ids
  }

  lemma {:induction false} DistinctCount(ids: seq<int>)
    ensures |Elements(ids)| <= |ids|
    ensures Distinct(ids) ==> |Elements(ids)| == |ids|
  {
    if ids != [] {
      var n := |ids| - 1;
      DistinctCount(ids[..n]);
      assert Elements(ids) == Elements(ids[..n]) + {ids[n]};
    }
  }

  ghost predicate Avoids(order: seq<int>, n: nat, id: int) {
    forall p :: 0 <= p < n && p < |order| ==> order[p] != id
  }

  /** Some entry of a duplicate-free list is not among the first `|ids| - 1` of the ranking. */
  lemma LateEntry(ids: seq<int>, order: seq<int>) returns (j: nat)
    requires Distinct(ids) && ids != []
    ensures j < |ids| && Avoids(order, |ids| - 1, ids[j])
  {
    var head := order[..Least(|ids| - 1, |order|)];
    DistinctCount(ids);
    DistinctCount(head);
    if Elements(ids) <= Elements(head) {
      SubsetCount(Elements(ids), Elements(head));
    }
    var x :| x in Elements(ids) && x !in Elements(head);
    j :| 0 <= j < |ids| && ids[j] == x;
    forall p | 0 <= p < |head|
      ensures order[p] != ids[j]
    {
      assert head[p] in Elements(head);
    }
  }

  lemma LatePlace(rel: Relevance, n: nat, id: int)
    requires id in rel && Avoids(Ranking(rel), n, id)
    ensures n < |rel| && rel[id] <= SortedValues(rel)[n]
  {
    var order := Ranking(rel);
    RankedMembers(rel, rel.Keys);
    var p: nat :| p < |order| && order[p] == id;
    assert p >= n;
    SortedValuesDescend(rel);
    assert SortedValues(rel)[p] == rel[id];
  }

  /** An entry outside the first `n` judgments gains no more than the judgment at place `n`. */
  lemma LateGain(rel: Relevance, k: nat, n: nat, id: int)
    requires TopNonNegative(rel, k) && n < k && Avoids(Ranking(rel), n, id)
    ensures GainOf(rel, id) <= ValueGain(SortedValues(rel), n)
  {
    if id in rel {
      LatePlace(rel, n, id);
      GainMonotone(rel[id], SortedValues(rel)[n]);
    }
  }

  ghost function ValuePrefix(values: seq<int>, n: nat): real {
    if n == 0 then 0.0 else ValuePrefix(values, n - 1) + ValueGain(values, n - 1)
  }

  /** No duplicate-free list collects more plain gain than the best judgments. */
  lemma {:induction false} BestSum(ids: seq<int>, rel: Relevance, k: nat)
    requires Distinct(ids) && |ids| <= k && TopNonNegative(rel, k)
    ensures Sum(ids, rel) <= ValuePrefix(SortedValues(rel), |ids|)
    decreases |ids|
  {
    if ids != [] {
      var j := LateEntry(ids, Ranking(rel));
      SumRemove(ids, rel, j);
      BestSum(ids[..j] + ids[j + 1..], rel, k);
      LateGain(rel, k, |ids| - 1, ids[j]);
    }
  }

  lemma {:induction false} ListPrefix(f: seq<real>, ids: seq<int>, rel: Relevance, n: nat)
    requires n <= |f| && f == ListGains(ids, rel, |f|)
    ensures PrefixSum(f, n) == Sum(ids[..Least(n, |ids|)], rel)
  {
    if n > 0 {
      ListPrefix(f, ids, rel, n - 1);
      if n <= |ids| {
        assert ids[..n][..n - 1] == ids[..n - 1];
      }
    }
  }

  lemma {:induction false} ValuesPrefix(f: seq<real>, values: seq<int>, n: nat)
    requires n <= |f| && f == ValueGains(values, |f|)
    ensures PrefixSum(f, n) == ValuePrefix(values, n)
  {
    if n > 0 {
      ValuesPrefix(f, values, n - 1);
    }
  }

  lemma {:induction false} ValuePrefixGrows(values: seq<int>, m: nat, n: nat)
    requires m <= n && forall i: nat :: m <= i < n ==> ValueGain(values, i) >= 0.0
    ensures ValuePrefix(values, m) <= ValuePrefix(values, n)
  {
    if m < n {
      ValuePrefixGrows(values, m, n - 1);
    }
  }

  lemma IdealDominates(ids: seq<int>, rel: Relevance, k: nat)
    requires Distinct(ids) && TopNonNegative(rel, k)
    ensures Dominates(IdealGains(rel, k), ListGains(ids, rel, k))
  {
    forall n: nat | n <= k
      ensures Lead(IdealGains(rel, k), ListGains(ids, rel, k), n) >= 0.0
    {
      var m := Least(n, |ids|);
      ListPrefix(ListGains(ids, rel, k), ids, rel, n);
      ValuesPrefix(IdealGains(rel, k), SortedValues(rel), n);
      BestSum(ids[..m], rel, k);
      ValuePrefixGrows(SortedValues(rel), m, n);
    }
  }

  // ---------------------------------------------------------------- main results

  lemma DcgAtMostIdeal(ids: seq<int>, rel: Relevance, k: nat, d: Discount)
    requires Decreasing(d) && Distinct(ids) && TopNonNegative(rel, k)
    ensures Dcg(ids, rel, k, d) <= IdealDcg(rel, k, d)
  {
    IdealDominates(ids, rel, k);
    WeightedLeadNonNegative(IdealGains(rel, k), ListGains(ids, rel, k), d, k);
    WeightedIsDcg(ids, rel, k, d);
  }

  lemma {:induction false} TailLoses(values: seq<int>, d: Discount, i: nat, n: nat)
    requires Decreasing(d) && Descending(values) && i < n <= |values| && values[i] < 0
    ensures ValueSum(values, d, n) < ValueSum(values, d, i)
  {
    if i < n - 1 {
      TailLoses(values, d, i, n - 1);
    }
    Product(-Gain(values[n - 1]), d(n - 1));
  }

  lemma {:induction false} ListedValues(ids: seq<int>, rel: Relevance, values: seq<int>, d: Discount, n: nat)
    requires n <= |ids| <= |values| && forall i :: 0 <= i < |ids| ==> values[i] == ValueOf(rel, ids[i])
    ensures DcgSum(ids, rel, d, n) == ValueSum(values, d, n)
  {
    if n > 0 {
      ListedValues(ids, rel, values, d, n - 1);
    }
  }

  /** If a negative judgment counts as ideal, the judgments before it form a better list. */
  lemma NegativeIdealIsBeaten(rel: Relevance, k: nat, d: Discount, i: nat) returns (ids: seq<int>)
    requires Decreasing(d) && i < Least(k, |rel|) && SortedValues(rel)[i] < 0
    ensures Distinct(ids) && Dcg(ids, rel, k, d) > IdealDcg(rel, k, d)
  {
    ids := Ranking(rel)[..i];
    RankedMembers(rel, rel.Keys);
    ListedValues(ids, rel, SortedValues(rel), d, i);
    SortedValuesDescend(rel);
    TailLoses(SortedValues(rel), d, i, Least(k, |rel|));
  }

  /** DCG never exceeds the ideal for duplicate-free lists exactly when no negative judgment counts as ideal. */
  lemma BoundedIffTopNonNegative(rel: Relevance, k: nat, d: Discount)
    requires Decreasing(d)
    ensures (forall ids :: Distinct(ids) ==> Dcg(ids, rel, k, d) <= IdealDcg(rel, k, d)) <==> TopNonNegative(rel, k)
  {
    if TopNonNegative(rel, k) {
      forall ids | Distinct(ids)
        ensures Dcg(ids, rel, k, d) <= IdealDcg(rel, k, d)
      {
        DcgAtMostIdeal(ids, rel, k, d);
      }
    } else {
      var i: nat :| i < Least(k, |rel|) && SortedValues(rel)[i] < 0;
      var ids := NegativeIdealIsBeaten(rel, k, d, i);
    }
  }

  ghost predicate NonNegative(rel: Relevance) {
    forall x :: x in rel ==> rel[x] >= 0
  }

  lemma {:induction false} DcgNonNegative(ids: seq<int>, rel: Relevance, d: Discount, n: nat)
    requires Decreasing(d) && NonNegative(rel) && n <= |ids|
    ensures DcgSum(ids, rel, d, n) >= 0.0
  {
    if n > 0 {
      DcgNonNegative(ids, rel, d, n - 1);
      Product(GainOf(rel, ids[n - 1]), d(n - 1));
    }
  }

  lemma Quotient(a: real, b: real)
    requires b > 0.0
    ensures a >= 0.0 ==> a / b >= 0.0
    ensures a <= b <==> a / b <= 1.0
    ensures a / b == 1.0 <==> a == b
  {
    var q := a / b;
    assert q * b == a;
    if q < 0.0 {
      Product(-q, b);
    }
    if q > 1.0 {
      Product(q - 1.0, b);
    }
  }

  lemma NdcgBounded(ids: seq<int>, rel: Relevance, k: nat, d: Discount)
    requires Decreasing(d) && Distinct(ids) && NonNegative(rel)
    ensures 0.0 <= Ndcg(ids, rel, k, d) <= 1.0
  {
    DcgAtMostIdeal(ids, rel, k, d);
    DcgNonNegative(ids, rel, d, Least(k, |ids|));
    if IdealDcg(rel, k, d) != 0.0 {
      Quotient(Dcg(ids, rel, k, d), IdealDcg(rel, k, d));
    }
  }

  /** A perfect score means the listed gains are the ideal gains, place by place. */
  lemma PerfectIffIdealGains(ids: seq<int>, rel: Relevance, k: nat, d: Discount)
    requires StrictlyDecreasing(d) && Distinct(ids) && NonNegative(rel) && IdealDcg(rel, k, d) > 0.0
    ensures Ndcg(ids, rel, k, d) == 1.0 <==> ListGains(ids, rel, k) == IdealGains(rel, k)
  {
    var f, g := ListGains(ids, rel, k), IdealGains(rel, k);
    Quotient(Dcg(ids, rel, k, d), IdealDcg(rel, k, d));
    WeightedIsDcg(ids, rel, k, d);
    IdealDominates(ids, rel, k);
    if Weighted(f, d, k) == Weighted(g, d, k) {
      NoLeadMeansEqual(g, f, d, k);
      assert f[..k] == f && g[..k] == g;
    }
  }

  lemma {:induction false} DcgOfPrefix(ids: seq<int>, rel: Relevance, d: Discount, m: nat, n: nat)
    requires n <= m <= |ids|
    ensures DcgSum(ids[..m], rel, d, n) == DcgSum(ids, rel, d, n)
  {
    if n > 0 {
      DcgOfPrefix(ids, rel, d, m, n - 1);
    }
  }

  lemma {:induction false} RepeatedCount(ids: seq<int>)
    requires !Distinct(ids)
    ensures |Elements(ids)| < |ids|
  {
    var n := |ids| - 1;
    assert Elements(ids) == Elements(ids[..n]) + {ids[n]};
    DistinctCount(ids[..n]);
    if Distinct(ids[..n]) {
      var i, j :| 0 <= i < j < |ids| && ids[i] == ids[j];
      assert j == n && ids[..n][i] == ids[n];
      assert Elements(ids) == Elements(ids[..n]);
    } else {
      RepeatedCount(ids[..n]);
    }
  }

  /** The sum of the first `n` discounts. */
  function Discounts(d: Discount, n: nat): real {
    if n == 0 then 0.0 else Discounts(d, n - 1) + d(n - 1)
  }

  lemma {:induction false} DiscountsGrow(d: Discount, m: nat, n: nat)
    requires Decreasing(d) && m < n
    ensures Discounts(d, m) < Discounts(d, n)
  {
    if m < n - 1 {
      DiscountsGrow(d, m, n - 1);
    }
    assert d(n - 1) > 0.0;
  }

  lemma {:induction false} UnitListSum(ids: seq<int>, rel: Relevance, d: Discount, n: nat)
    requires n <= |ids| && forall i :: 0 <= i < n ==> ValueOf(rel, ids[i]) == 1
    ensures DcgSum(ids, rel, d, n) == Discounts(d, n)
  {
    if n > 0 {
      UnitListSum(ids, rel, d, n - 1);
      assert GainOf(rel, ids[n - 1]) == Gain(1) == 1.0;
    }
  }

  lemma {:induction false} UnitValueSum(values: seq<int>, d: Discount, n: nat)
    requires n <= |values| && forall i :: 0 <= i < n ==> values[i] == 1
    ensures ValueSum(values, d, n) == Discounts(d, n)
  {
    if n > 0 {
      UnitValueSum(values, d, n - 1);
      assert Gain(values[n - 1]) == 1.0;
    }
  }

  /** Every listed result is judged 1. */
  ghost function EachOne(ids: seq<int>): Relevance {
    map x | x in Elements(ids) :: 1
  }

  lemma IdealOfEachOne(ids: seq<int>, k: nat, d: Discount)
    requires |ids| <= k
    ensures IdealDcg(EachOne(ids), k, d) == Discounts(d, |Elements(ids)|)
  {
    var rel := EachOne(ids);
    assert rel.Keys == Elements(ids) && |rel| == |rel.Keys|;
    DistinctCount(ids);
    RankedMembers(rel, rel.Keys);
    forall i | 0 <= i < |rel|
      ensures SortedValues(rel)[i] == 1
    {
      assert Ranking(rel)[i] in Ranking(rel);
    }
    UnitValueSum(SortedValues(rel), d, |rel|);
  }

  /** Judging every result 1, a list with a repeat collects more discounts than there are judgments. */
  lemma RepeatScoresAboveOne(ids: seq<int>, k: nat, d: Discount)
    requires Decreasing(d) && !Distinct(ids[..Least(k, |ids|)])
    ensures NonNegative(EachOne(ids[..Least(k, |ids|)]))
    ensures Ndcg(ids, EachOne(ids[..Least(k, |ids|)]), k, d) > 1.0
  {
    var m := Least(k, |ids|);
    var rel := EachOne(ids[..m]);
    var n := |Elements(ids[..m])|;
    RepeatedCount(ids[..m]);
    IdealOfEachOne(ids[..m], k, d);
    forall i | 0 <= i < m
      ensures ValueOf(rel, ids[i]) == 1
    {
      assert ids[..m][i] in Elements(ids[..m]);
    }
    UnitListSum(ids, rel, d, m);
    DiscountsGrow(d, n, m);
    assert ids[..m][0] in Elements(ids[..m]);
    DiscountsGrow(d, 0, n);
    Quotient(Dcg(ids, rel, k, d), IdealDcg(rel, k, d));
  }

  /** Under any one discount, the program's included, a list scores at most 1 for every non-negative judgment exactly
      when its first `k` results are distinct. */
  lemma BoundedIffDistinct(ids: seq<int>, k: nat, d: Discount)
    requires Decreasing(d)
    ensures (forall rel :: NonNegative(rel) ==> Ndcg(ids, rel, k, d) <= 1.0) <==> Distinct(ids[..Least(k, |ids|)])
  {
    var m := Least(k, |ids|);
    if Distinct(ids[..m]) {
      forall rel | NonNegative(rel)
        ensures Ndcg(ids, rel, k, d) <= 1.0
      {
        DcgOfPrefix(ids, rel, d, m, m);
        NdcgBounded(ids[..m], rel, k, d);
      }
    } else {
      RepeatScoresAboveOne(ids, k, d);
    }
  }
}
