/** The plain meaning of "books of one title belong to one work": connected components of the
    relation "shares an author". */
module Components {
  import opened Keys

  type Authors = map<Key, set<Key>>

  ghost predicate Share(au: Authors, x: Key, y: Key) {
    x in au && y in au && au[x] * au[y] != {}
  }

  /** A chain of books of `B`, each sharing an author with the next. */
  ghost predicate Chain(B: set<Key>, au: Authors, p: seq<Key>) {
    && |p| > 0
    && (forall i :: 0 <= i < |p| ==> p[i] in B)
    && (forall i :: 0 < i < |p| ==> Share(au, p[i - 1], p[i]))
  }

  ghost predicate Connected(B: set<Key>, au: Authors, x: Key, y: Key) {
    exists p :: Chain(B, au, p) && p[0] == x && p[|p| - 1] == y
  }

  ghost function Class(B: set<Key>, au: Authors, x: Key): set<Key> {
    set y | y in B && Connected(B, au, x, y)
  }

  lemma ConnectedReflexive(B: set<Key>, au: Authors, x: Key)
    requires x in B
    ensures Connected(B, au, x, x)
  {
    assert Chain(B, au, [x]);
  }

  lemma ConnectedStep(B: set<Key>, au: Authors, x: Key, y: Key)
    requires x in B && y in B && Share(au, x, y)
    ensures Connected(B, au, x, y)
  {
    var p := [x, y];
    assert Chain(B, au, p) && p[0] == x && p[|p| - 1] == y;
  }

  lemma ConnectedSymmetric(B: set<Key>, au: Authors, x: Key, y: Key)
    requires Connected(B, au, x, y)
    ensures Connected(B, au, y, x)
  {
    var p :| Chain(B, au, p) && p[0] == x && p[|p| - 1] == y;
    var q := seq(|p|, i requires 0 <= i < |p| => p[|p| - 1 - i]);
    forall i | 0 < i < |q|
      ensures Share(au, q[i - 1], q[i])
    {
      assert Share(au, p[|p| - 1 - i], p[|p| - i]);
    }
    assert Chain(B, au, q) && q[0] == y && q[|q| - 1] == x;
  }

  lemma ConnectedTransitive(B: set<Key>, au: Authors, x: Key, y: Key, z: Key)
    requires Connected(B, au, x, y) && Connected(B, au, y, z)
    ensures Connected(B, au, x, z)
  {
    var p :| Chain(B, au, p) && p[0] == x && p[|p| - 1] == y;
    var q :| Chain(B, au, q) && q[0] == y && q[|q| - 1] == z;
    var r := p + q[1..];
    forall i | 0 < i < |r|
      ensures Share(au, r[i - 1], r[i])
    {
      if i < |p| {
        assert Share(au, p[i - 1], p[i]);
      } else {
        assert Share(au, q[i - |p|], q[i - |p| + 1]);
      }
    }
    assert Chain(B, au, r) && r[0] == x && r[|r| - 1] == z;
  }

  /** A property that spreads along shared authors spreads along chains. */
  lemma {:induction false} ChainCarries(B: set<Key>, au: Authors, p: seq<Key>, S: set<Key>)
    requires Chain(B, au, p) && p[0] in S
    requires forall u, v :: u in S && v in B && Share(au, u, v) ==> v in S
    ensures p[|p| - 1] in S
  {
    if |p| > 1 {
      assert Share(au, p[0], p[1]);
      var rest := p[1..];
      forall i | 0 < i < |rest|
        ensures Share(au, rest[i - 1], rest[i])
      {
        assert Share(au, p[i], p[i + 1]);
      }
      ChainCarries(B, au, rest, S);
    }
  }

  lemma ConnectedCarries(B: set<Key>, au: Authors, x: Key, y: Key, S: set<Key>)
    requires Connected(B, au, x, y) && x in S
    requires forall u, v :: u in S && v in B && Share(au, u, v) ==> v in S
    ensures y in S
  {
    var p :| Chain(B, au, p) && p[0] == x && p[|p| - 1] == y;
    ChainCarries(B, au, p, S);
  }

  /** Classes are equal or disjoint. */
  lemma ClassesCoincide(B: set<Key>, au: Authors, x: Key, y: Key)
    requires x in B && y in Class(B, au, x)
    ensures Class(B, au, y) == Class(B, au, x)
  {
    ConnectedSymmetric(B, au, x, y);
    forall z | z in B
      ensures z in Class(B, au, x) <==> z in Class(B, au, y)
    {
      if Connected(B, au, x, z) {
        ConnectedTransitive(B, au, y, x, z);
      }
      if Connected(B, au, y, z) {
        ConnectedTransitive(B, au, x, y, z);
      }
    }
  }

  /** The classes of the books in `rest`, by increasing least book. */
  ghost function ClassList(rest: set<Key>, B: set<Key>, au: Authors): seq<set<Key>>
    requires rest <= B
    decreases rest
  {
    if rest == {} then []
    else
      var c := Class(B, au, Min(rest));
      ConnectedReflexive(B, au, Min(rest));
      assert Min(rest) in c && Min(rest) in rest;
      [c] + ClassList(rest - c, B, au)
  }

  /** `rest` is a union of whole classes. */
  ghost predicate Saturated(rest: set<Key>, B: set<Key>, au: Authors) {
    rest <= B && forall x :: x in rest ==> Class(B, au, x) <= rest
  }

  lemma SaturatedMinusClass(rest: set<Key>, B: set<Key>, au: Authors, m: Key)
    requires Saturated(rest, B, au) && m in rest
    ensures Saturated(rest - Class(B, au, m), B, au)
  {
    var c := Class(B, au, m);
    forall x | x in rest - c
      ensures Class(B, au, x) <= rest - c
    {
      forall y | y in Class(B, au, x)
        ensures y !in c
      {
        if y in c {
          ClassesCoincide(B, au, m, y);
          ClassesCoincide(B, au, x, y);
          ConnectedReflexive(B, au, x);
        }
      }
    }
  }

  /** `t` is the class of each book in it, and these books belong to `rest`. */
  ghost predicate IsClassIn(t: set<Key>, rest: set<Key>, B: set<Key>, au: Authors) {
    t != {} && t <= rest && forall b :: b in t ==> t == Class(B, au, b)
  }

  ghost predicate Covers(q: seq<set<Key>>, b: Key) {
    exists i :: 0 <= i < |q| && b in q[i]
  }

  lemma CoversPrepend(c: set<Key>, tail: seq<set<Key>>, b: Key)
    requires b in c || Covers(tail, b)
    ensures Covers([c] + tail, b)
  {
    var all := [c] + tail;
    if b in c {
      assert b in all[0];
    } else {
      var i :| 0 <= i < |tail| && b in tail[i];
      assert b in all[i + 1];
    }
  }

  lemma ClassIsClass(rest: set<Key>, B: set<Key>, au: Authors, m: Key)
    requires Saturated(rest, B, au) && m in rest
    ensures m in Class(B, au, m) && IsClassIn(Class(B, au, m), rest, B, au)
  {
    ConnectedReflexive(B, au, m);
    forall b | b in Class(B, au, m)
      ensures Class(B, au, b) == Class(B, au, m)
    {
      ClassesCoincide(B, au, m, b);
    }
  }

  /** Each listed set is the class of each of its books, and each book is listed. */
  lemma {:induction false} ClassListMembers(rest: set<Key>, B: set<Key>, au: Authors)
    requires Saturated(rest, B, au)
    ensures forall i :: 0 <= i < |ClassList(rest, B, au)| ==> IsClassIn(ClassList(rest, B, au)[i], rest, B, au)
    ensures forall b :: b in rest ==> Covers(ClassList(rest, B, au), b)
    decreases rest
  {
    if rest != {} {
      var c := Class(B, au, Min(rest));
      ClassIsClass(rest, B, au, Min(rest));
      SaturatedMinusClass(rest, B, au, Min(rest));
      ClassListMembers(rest - c, B, au);
      var tail := ClassList(rest - c, B, au);
      var all := [c] + tail;
      forall i | 0 <= i < |all|
        ensures IsClassIn(all[i], rest, B, au)
      {
        if i > 0 {
          assert IsClassIn(tail[i - 1], rest - c, B, au);
        }
      }
      forall b | b in rest
        ensures Covers(all, b)
      {
        CoversPrepend(c, tail, b);
      }
    }
  }

  /** The first set starts earlier and shares no book with the second. */
  ghost predicate Precedes(s: set<Key>, t: set<Key>) {
    s != {} && t != {} && s !! t && Less(Min(s), Min(t))
  }

  /** A class taken from what is left after the first one comes after it. */
  lemma LaterClassFollows(rest: set<Key>, c: set<Key>, t: set<Key>)
    requires rest != {} && Min(rest) in c && c <= rest
    requires t != {} && t <= rest - c
    ensures Precedes(c, t)
  {
    assert IsMin(Min(rest), c);
    MinUnique(c, Min(rest), Min(c));
    assert Min(t) in rest && Min(t) != Min(rest);
  }

  ghost predicate Increasing(q: seq<set<Key>>) {
    forall i, j :: 0 <= i < j < |q| ==> Precedes(q[i], q[j])
  }

  /** Earlier classes come first. */
  lemma {:induction false} ClassListIncreasing(rest: set<Key>, B: set<Key>, au: Authors)
    requires Saturated(rest, B, au)
    ensures Increasing(ClassList(rest, B, au))
    decreases rest
  {
    if rest != {} {
      var c := Class(B, au, Min(rest));
      ClassIsClass(rest, B, au, Min(rest));
      SaturatedMinusClass(rest, B, au, Min(rest));
      ClassListIncreasing(rest - c, B, au);
      ClassListMembers(rest - c, B, au);
      PrependLeast(rest, c, ClassList(rest - c, B, au));
    }
  }

  lemma PrependLeast(rest: set<Key>, c: set<Key>, tail: seq<set<Key>>)
    requires rest != {} && Min(rest) in c && c <= rest
    requires forall i :: 0 <= i < |tail| ==> tail[i] != {} && tail[i] <= rest - c
    requires Increasing(tail)
    ensures Increasing([c] + tail)
  {
    var all := [c] + tail;
    forall i, j | 0 <= i < j < |all|
      ensures Precedes(all[i], all[j])
    {
      if i == 0 {
        LaterClassFollows(rest, c, all[j]);
      } else {
        assert Precedes(tail[i - 1], tail[j - 1]);
      }
    }
  }

  /** For disjoint classes the order of the sorted tuples is the order of their least books. */
  lemma TupleOrderIsLeastOrder(s: set<Key>, t: set<Key>)
    requires s != {} && t != {} && s !! t
    ensures TupleLess(SortedKeys(s), SortedKeys(t)) <==> Less(Min(s), Min(t))
  {
  }
}
