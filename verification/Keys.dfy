/** String keys under the order Python's `sorted` uses for `str`: code point by code point,
    a proper prefix first. */
module Keys {
  import opened Counting

  /** A text used as an identity; kept apart from `string` so that keys are compared, not taken apart. */
  datatype Key = Key(text: string)

  predicate TextLess(a: string, b: string) {
    if |b| == 0 then false
    else if |a| == 0 then true
    else a[0] < b[0] || (a[0] == b[0] && TextLess(a[1..], b[1..]))
  }

  predicate Less(a: Key, b: Key) {
    TextLess(a.text, b.text)
  }

  lemma {:induction false} TextLessIrreflexive(a: string)
    ensures !TextLess(a, a)
  {
    if |a| > 0 {
      TextLessIrreflexive(a[1..]);
    }
  }

  lemma {:induction false} TextLessTransitive(a: string, b: string, c: string)
    requires TextLess(a, b) && TextLess(b, c)
    ensures TextLess(a, c)
  {
    if |a| > 0 && a[0] == b[0] && b[0] == c[0] {
      TextLessTransitive(a[1..], b[1..], c[1..]);
    }
  }

  lemma {:induction false} TextLessTotal(a: string, b: string)
    ensures a == b || TextLess(a, b) || TextLess(b, a)
  {
    if |a| > 0 && |b| > 0 && a[0] == b[0] {
      TextLessTotal(a[1..], b[1..]);
      assert a == [a[0]] + a[1..] && b == [b[0]] + b[1..];
    }
  }

  lemma LessIrreflexive(a: Key)
    ensures !Less(a, a)
  {
    TextLessIrreflexive(a.text);
  }

  lemma LessTransitive(a: Key, b: Key, c: Key)
    requires Less(a, b) && Less(b, c)
    ensures Less(a, c)
  {
    TextLessTransitive(a.text, b.text, c.text);
  }

  lemma LessTotal(a: Key, b: Key)
    ensures a == b || Less(a, b) || Less(b, a)
  {
    TextLessTotal(a.text, b.text);
  }

  lemma LessAsymmetric(a: Key, b: Key)
    requires Less(a, b)
    ensures a != b && !Less(b, a)
  {
    LessIrreflexive(a);
    if Less(b, a) {
      LessTransitive(a, b, a);
    }
  }

  /** `m` is the smallest member of `s`. */
  predicate IsMin(m: Key, s: set<Key>) {
    m in s && forall y :: y in s ==> y == m || Less(m, y)
  }

  lemma {:induction false} MinExists(s: set<Key>)
    requires s != {}
    ensures exists m :: IsMin(m, s)
  {
    var x :| x in s;
    if s == {x} {
      assert IsMin(x, s);
    } else {
      MinExists(s - {x});
      var m :| IsMin(m, s - {x});
      LessTotal(x, m);
      var least := if Less(x, m) then x else m;
      forall y | y in s
        ensures y == least || Less(least, y)
      {
        if y != x && y != m && least == x {
          LessTransitive(x, m, y);
        }
      }
      assert IsMin(least, s);
    }
  }

  lemma MinUnique(s: set<Key>, a: Key, b: Key)
    requires IsMin(a, s) && IsMin(b, s)
    ensures a == b
  {
    if a != b {
      LessAsymmetric(a, b);
    }
  }

  function Min(s: set<Key>): (m: Key)
    requires s != {}
    ensures IsMin(m, s)
  {
    MinExists(s);
    assert forall a, b :: IsMin(a, s) && IsMin(b, s) ==> a == b by {
      forall a, b | IsMin(a, s) && IsMin(b, s)
        ensures a == b
      {
        MinUnique(s, a, b);
      }
    }
    var m :| IsMin(m, s);
    m
  }

  ghost predicate StrictlySorted(q: seq<Key>) {
    forall i, j :: 0 <= i < j < |q| ==> Less(q[i], q[j])
  }

  /** Python's `sorted(s)` for a set of keys. */
  function SortedKeys(s: set<Key>): (q: seq<Key>)
    ensures |q| == |s|
    ensures forall x :: x in q <==> x in s
    ensures StrictlySorted(q)
    ensures s != {} ==> q != [] && q[0] == Min(s)
  {
    if s == {} then []
    else
      var m := Min(s);
      [m] + SortedKeys(s - {m})
  }

  /** What is left of a strictly increasing listing without its first entry. */
  lemma SortedTail(q: seq<Key>, s: set<Key>)
    requires StrictlySorted(q) && q != []
    requires forall x :: x in q <==> x in s
    ensures IsMin(q[0], s) && StrictlySorted(q[1..])
    ensures forall x :: x in q[1..] <==> x in s - {q[0]}
  {
    assert q[0] in q;
    forall i | 0 < i < |q|
      ensures Less(q[0], q[i]) && q[0] != q[i]
    {
      LessAsymmetric(q[0], q[i]);
    }
    assert q == [q[0]] + q[1..];
    assert forall x :: x in q[1..] ==> exists i :: 0 < i < |q| && q[i] == x;
  }

  /** There is only one strictly increasing listing of a set. */
  lemma {:induction false} SortedKeysUnique(q: seq<Key>, s: set<Key>)
    requires StrictlySorted(q)
    requires forall x :: x in q <==> x in s
    ensures q == SortedKeys(s)
    decreases |q|
  {
    if q == [] {
      assert s == {};
    } else {
      var first, rest, others := q[0], q[1..], s - {q[0]};
      SortedTail(q, s);
      MinUnique(s, first, Min(s));
      SortedKeysUnique(rest, others);
      assert q == [first] + rest;
    }
  }

  /** How many keys of the set come before `x`; it decreases along any descending walk. */
  ghost function Rank(s: set<Key>, x: Key): nat {
    |set y | y in s && Less(y, x)|
  }

  lemma RankDecreases(s: set<Key>, a: Key, b: Key)
    requires a in s && Less(a, b)
    ensures Rank(s, a) < Rank(s, b)
  {
    var below := set y | y in s && Less(y, a);
    var above := set y | y in s && Less(y, b);
    LessIrreflexive(a);
    forall y | y in below
      ensures y in above
    {
      LessTransitive(y, a, b);
    }
    assert below < above by {
      assert a in above && a !in below;
    }
    SubsetCount(below, above);
  }

  /** Python's order on tuples of strings. */
  predicate TupleLess(a: seq<Key>, b: seq<Key>) {
    if |b| == 0 then false
    else if |a| == 0 then true
    else Less(a[0], b[0]) || (a[0] == b[0] && TupleLess(a[1..], b[1..]))
  }
}
