/** The union-find of `analyze`: path halving, and the larger root hung under the smaller. */
module UnionFind {
  import opened Keys

  type Parents = map<Key, Key>

  /** The parent of `x` is a key, and it does not point upwards. */
  ghost predicate Descends(p: Parents, x: Key)
    requires x in p
  {
    p[x] in p && (p[x] == x || Less(p[x], x))
  }

  ghost predicate WellFormed(p: Parents) {
    forall x {:trigger Descends(p, x)} :: x in p ==> Descends(p, x)
  }

  /** The representative that following parents ends at. */
  ghost function Root(p: Parents, x: Key): (r: Key)
    requires WellFormed(p) && x in p
    ensures r in p && p[r] == r
    decreases Rank(p.Keys, x)
  {
    assert Descends(p, x);
    if p[x] == x then x
    else
      RankDecreases(p.Keys, p[x], x);
      Root(p, p[x])
  }

  /** The map after `parent[value] = parent[parent[value]]`. */
  function Halved(p: Parents, x: Key): Parents
    requires x in p && p[x] in p
  {
    p[x := p[p[x]]]
  }

  lemma HalvingKeepsForm(p: Parents, x: Key)
    requires WellFormed(p) && x in p
    ensures p[x] in p
    ensures WellFormed(Halved(p, x)) && Halved(p, x).Keys == p.Keys
  {
    assert Descends(p, x) && Descends(p, p[x]);
    if p[x] != x && p[p[x]] != p[x] {
      LessTransitive(p[p[x]], p[x], x);
    }
    var q := Halved(p, x);
    forall y | y in q
      ensures Descends(q, y)
    {
      assert Descends(p, y);
    }
  }

  /** Pointing `x` at its grandparent changes no representative. */
  lemma {:induction false} HalvingKeepsRoots(p: Parents, x: Key, y: Key)
    requires WellFormed(p) && x in p && y in p && p[x] in p
    requires WellFormed(Halved(p, x)) && y in Halved(p, x)
    ensures Root(Halved(p, x), y) == Root(p, y)
    decreases Rank(p.Keys, y)
  {
    var q := Halved(p, x);
    assert Descends(q, y) && Descends(p, y) && Descends(p, p[y]);
    if q[y] != y {
      RankDecreases(p.Keys, q[y], y);
      HalvingKeepsRoots(p, x, q[y]);
    } else if y == x && p[x] != x {
      LessAsymmetric(p[x], x);
    }
  }

  /** The walk of `find` gets closer to a root at every round. */
  lemma HalvingDescends(p: Parents, x: Key)
    requires WellFormed(p) && x in p && p[x] != x
    ensures p[x] in p && p[p[x]] in p && Less(p[p[x]], x)
  {
    assert Descends(p, x) && Descends(p, p[x]);
    if p[p[x]] != p[x] {
      LessTransitive(p[p[x]], p[x], x);
    }
  }

  /** One round of the loop in `find`. */
  lemma HalvingRound(p: Parents, x: Key)
    requires WellFormed(p) && x in p && p[x] != x
    ensures p[x] in p && p[p[x]] in p
    ensures WellFormed(Halved(p, x)) && Halved(p, x).Keys == p.Keys
    ensures forall y :: y in p ==> Root(Halved(p, x), y) == Root(p, y)
    ensures Root(Halved(p, x), p[p[x]]) == Root(p, x)
    ensures Rank(p.Keys, p[p[x]]) < Rank(p.Keys, x)
  {
    HalvingKeepsForm(p, x);
    HalvingDescends(p, x);
    forall y | y in p
      ensures Root(Halved(p, x), y) == Root(p, y)
    {
      HalvingKeepsRoots(p, x, y);
    }
    assert Root(p, p[p[x]]) == Root(p, p[x]) == Root(p, x);
    RankDecreases(p.Keys, p[p[x]], x);
  }

  /** Hanging root `hi` under root `lo` merges exactly those two classes. */
  lemma {:induction false} LinkMergesRoots(p: Parents, lo: Key, hi: Key, y: Key)
    requires WellFormed(p) && lo in p && hi in p && y in p
    requires p[lo] == lo && p[hi] == hi && lo != hi
    requires WellFormed(p[hi := lo])
    ensures Root(p[hi := lo], y) == if Root(p, y) == hi then lo else Root(p, y)
    decreases Rank(p.Keys, y)
  {
    var q := p[hi := lo];
    assert Descends(p, y) && Descends(q, y) && Descends(q, lo);
    if y == hi {
      assert Root(q, lo) == lo;
    } else if p[y] != y {
      RankDecreases(p.Keys, p[y], y);
      LinkMergesRoots(p, lo, hi, p[y]);
    }
  }

  lemma LinkKeepsForm(p: Parents, lo: Key, hi: Key)
    requires WellFormed(p) && lo in p && hi in p && Less(lo, hi)
    ensures WellFormed(p[hi := lo])
  {
    var q := p[hi := lo];
    forall y | y in q
      ensures Descends(q, y)
    {
      assert Descends(p, y);
    }
  }

  /** What `union` leaves as the representative of a class whose representative was `r`. */
  function Merged(left: Key, right: Key, r: Key): Key {
    if r == left || r == right then Smaller(left, right) else r
  }

  function Smaller(left: Key, right: Key): Key {
    if Less(right, left) then right else left
  }

  /** The map `union` leaves, given the two different representatives. */
  function Linked(p: Parents, left: Key, right: Key): Parents {
    if Smaller(left, right) == left then p[right := left] else p[left := right]
  }

  lemma LinkMergesClasses(p: Parents, left: Key, right: Key)
    requires WellFormed(p) && left in p && right in p && p[left] == left && p[right] == right && left != right
    ensures WellFormed(Linked(p, left, right)) && Linked(p, left, right).Keys == p.Keys
    ensures forall y :: y in p ==> Root(Linked(p, left, right), y) == Merged(left, right, Root(p, y))
  {
    LessTotal(left, right);
    var lo := Smaller(left, right);
    var hi := if lo == left then right else left;
    LinkKeepsForm(p, lo, hi);
    forall y | y in p
      ensures Root(Linked(p, left, right), y) == Merged(left, right, Root(p, y))
    {
      LinkMergesRoots(p, lo, hi, y);
    }
  }

  class Forest {
    var parent: Parents

    /** `parent = {book_key: book_key for book_key in title_books}` */
    constructor (keys: set<Key>)
      ensures WellFormed(parent) && parent.Keys == keys
      ensures forall x :: x in keys ==> Root(parent, x) == x
    {
      parent := map k | k in keys :: k;
    }

    method Find(key: Key) returns (root: Key)
      requires WellFormed(parent) && key in parent
      modifies this
      ensures WellFormed(parent) && parent.Keys == old(parent.Keys)
      ensures root == Root(old(parent), key)
      ensures forall x :: x in parent ==> Root(parent, x) == Root(old(parent), x)
    {
      var value := key;
      while parent[value] != value
        invariant WellFormed(parent) && parent.Keys == old(parent.Keys)
        invariant value in parent && Root(parent, value) == Root(old(parent), key)
        invariant forall x :: x in parent ==> Root(parent, x) == Root(old(parent), x)
        decreases Rank(parent.Keys, value)
      {
        HalvingRound(parent, value);
        parent := parent[value := parent[parent[value]]];
        value := parent[value];
      }
      root := value;
    }

    method Union(left: Key, right: Key)
      requires WellFormed(parent) && left in parent && right in parent
      modifies this
      ensures WellFormed(parent) && parent.Keys == old(parent.Keys)
      // the two classes named, and no others, get one representative: the smaller of the two
      ensures forall x :: x in parent ==>
        Root(parent, x) == Merged(Root(old(parent), left), Root(old(parent), right), Root(old(parent), x))
    {
      var leftRoot := Find(left);
      var rightRoot := Find(right);
      if leftRoot != rightRoot {
        LinkMergesClasses(parent, leftRoot, rightRoot);
        if Less(rightRoot, leftRoot) {
          parent := parent[leftRoot := rightRoot];
        } else {
          parent := parent[rightRoot := leftRoot];
        }
      }
    }
  }
}
