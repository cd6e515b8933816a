/** The inner loop of `analyze`: the books of one normalized title are united along shared authors,
    and the resulting components are listed in order. */
module TitleGroups {
  import opened Keys
  import opened UnionFind
  import opened Components

  type AuthorIndex = map<Key, seq<Key>>

  function SetOf(q: seq<Key>): set<Key> {
    set x | x in q
  }

  predicate Listed(index: AuthorIndex, a: Key, b: Key) {
    a in index && b in index[a]
  }

  /** `by_author`: the books of the title under each of their authors. */
  method IndexByAuthor(titleBooks: seq<Key>, authors: Authors) returns (byAuthor: AuthorIndex)
    requires forall b :: b in titleBooks ==> b in authors
    ensures forall a :: a in byAuthor ==> byAuthor[a] != []
    ensures forall a, b :: Listed(byAuthor, a, b) <==> b in titleBooks && a in authors[b]
  {
    byAuthor := map[];
    for i := 0 to |titleBooks|
      invariant forall a :: a in byAuthor ==> byAuthor[a] != []
      invariant forall a, b :: Listed(byAuthor, a, b) <==> b in titleBooks[..i] && a in authors[b]
    {
      var book := titleBooks[i];
      var remaining := authors[book];
      while remaining != {}
        invariant remaining <= authors[book]
        invariant forall a :: a in byAuthor ==> byAuthor[a] != []
        invariant forall a, b :: Listed(byAuthor, a, b) <==>
          (b in titleBooks[..i] && a in authors[b]) || (b == book && a in authors[book] - remaining)
      {
        var author :| author in remaining;
        remaining := remaining - {author};
        ghost var before := byAuthor;
        byAuthor := byAuthor[author := (if author in byAuthor then byAuthor[author] else []) + [book]];
        assert forall a, b :: Listed(byAuthor, a, b) <==> Listed(before, a, b) || (a == author && b == book);
      }
      assert titleBooks[..i + 1] == titleBooks[..i] + [book];
    }
    assert titleBooks[..|titleBooks|] == titleBooks;
  }

  /** Each book is linked to its representative by an author chain. */
  ghost predicate Sound(p: Parents, B: set<Key>, au: Authors) {
    && WellFormed(p) && p.Keys == B
    && forall x {:trigger Root(p, x)} :: x in p ==> Connected(B, au, x, Root(p, x))
  }

  /** The listed books all have the representative of the first. */
  ghost predicate United(p: Parents, books: seq<Key>) {
    && WellFormed(p)
    && (forall i :: 0 <= i < |books| ==> books[i] in p)
    && (forall i :: 0 <= i < |books| ==> Root(p, books[i]) == Root(p, books[0]))
  }

  /** `q` is `p` after some unions: books with one representative in `p` have one in `q`. */
  ghost predicate Coarser(p: Parents, q: Parents) {
    && WellFormed(p) && WellFormed(q) && p.Keys == q.Keys
    && forall x {:trigger Follows(p, q, x)} :: x in p ==> Follows(p, q, x)
  }

  ghost predicate Follows(p: Parents, q: Parents, x: Key)
    requires WellFormed(p) && WellFormed(q) && p.Keys == q.Keys && x in p
  {
    assert Root(p, x) in q.Keys && x in q.Keys;
    Root(q, x) == Root(q, Root(p, x))
  }

  ghost predicate UnionResult(p: Parents, q: Parents, left: Key, right: Key) {
    && WellFormed(p) && WellFormed(q) && p.Keys == q.Keys && left in p && right in p
    && forall x {:trigger Root(q, x)} :: x in p ==> Root(q, x) == Merged(Root(p, left), Root(p, right), Root(p, x))
  }

  lemma UnionKeepsSound(p: Parents, q: Parents, left: Key, right: Key, B: set<Key>, au: Authors)
    requires Sound(p, B, au) && UnionResult(p, q, left, right)
    requires Share(au, left, right)
    ensures Sound(q, B, au)
  {
    var l, r := Root(p, left), Root(p, right);
    ConnectedSymmetric(B, au, left, l);
    ConnectedSymmetric(B, au, right, r);
    ConnectedStep(B, au, left, right);
    ConnectedTransitive(B, au, l, left, right);
    ConnectedTransitive(B, au, l, right, r);
    ConnectedSymmetric(B, au, l, r);
    forall x | x in q
      ensures Connected(B, au, x, Root(q, x))
    {
      assert Connected(B, au, x, Root(p, x));
      if Root(q, x) != Root(p, x) {
        assert Connected(B, au, Root(p, x), Root(q, x));
        ConnectedTransitive(B, au, x, Root(p, x), Root(q, x));
      }
    }
  }

  lemma CoarserKeepsUnited(p: Parents, q: Parents, books: seq<Key>)
    requires Coarser(p, q) && United(p, books)
    ensures United(q, books)
  {
    forall i | 0 <= i < |books|
      ensures books[i] in q && Root(q, books[i]) == Root(q, books[0])
    {
      assert Follows(p, q, books[i]) && Follows(p, q, books[0]);
    }
  }

  lemma CoarserTransitive(p: Parents, q: Parents, r: Parents)
    requires Coarser(p, q) && Coarser(q, r)
    ensures Coarser(p, r)
  {
    forall x | x in p
      ensures Follows(p, r, x)
    {
      assert Root(p, x) in q.Keys;
      assert Follows(p, q, x) && Follows(q, r, x) && Follows(q, r, Root(p, x));
    }
  }

  /** All the listed books have the author. */
  ghost predicate ByAuthor(author: Key, books: seq<Key>, B: set<Key>, au: Authors) {
    forall i :: 0 <= i < |books| ==> books[i] in B && books[i] in au && author in au[books[i]]
  }

  /** The first `i` books of the author have been united, starting from `start`. */
  ghost predicate Advanced(start: Parents, p: Parents, books: seq<Key>, i: nat, B: set<Key>, au: Authors)
    requires i <= |books|
  {
    Sound(p, B, au) && Coarser(start, p) && United(p, books[..i])
  }

  lemma UnionAdvances(start: Parents, p: Parents, q: Parents, author: Key, books: seq<Key>, i: nat,
                      B: set<Key>, au: Authors)
    requires 1 <= i < |books| && ByAuthor(author, books, B, au)
    requires Advanced(start, p, books, i, B, au)
    requires UnionResult(p, q, books[0], books[i])
    ensures Advanced(start, q, books, i + 1, B, au)
  {
    assert author in au[books[0]] * au[books[i]];
    UnionKeepsSound(p, q, books[0], books[i], B, au);
    CoarserTransitive(start, p, q);
  }

  /** `for book_key in author_books[1:]: union(author_books[0], book_key)` */
  method UniteAuthor(forest: Forest, authorBooks: seq<Key>, ghost author: Key, ghost B: set<Key>, ghost au: Authors)
    requires Sound(forest.parent, B, au)
    requires authorBooks != [] && ByAuthor(author, authorBooks, B, au)
    modifies forest
    ensures Sound(forest.parent, B, au)
    ensures Coarser(old(forest.parent), forest.parent)
    ensures United(forest.parent, authorBooks)
  {
    ghost var start := forest.parent;
    for i := 1 to |authorBooks|
      invariant WellFormed(forest.parent) && forest.parent.Keys == B
      invariant Advanced(start, forest.parent, authorBooks, i, B, au)
    {
      ghost var before := forest.parent;
      forest.Union(authorBooks[0], authorBooks[i]);
      UnionAdvances(start, before, forest.parent, author, authorBooks, i, B, au);
    }
  }

  /** All authors of the index, in whatever order the dictionary yields them. */
  method UniteAll(forest: Forest, byAuthor: AuthorIndex, ghost B: set<Key>, ghost au: Authors)
    requires Sound(forest.parent, B, au)
    requires forall a :: a in byAuthor ==> byAuthor[a] != []
    requires forall a, b :: Listed(byAuthor, a, b) <==> b in B && b in au && a in au[b]
    modifies forest
    ensures Sound(forest.parent, B, au)
    ensures forall a :: a in byAuthor ==> United(forest.parent, byAuthor[a])
  {
    var remaining := byAuthor.Keys;
    while remaining != {}
      invariant remaining <= byAuthor.Keys
      invariant Sound(forest.parent, B, au)
      invariant forall a :: a in byAuthor && a !in remaining ==> United(forest.parent, byAuthor[a])
    {
      var author :| author in remaining;
      remaining := remaining - {author};
      ghost var before := forest.parent;
      assert ByAuthor(author, byAuthor[author], B, au) by {
        assert forall i :: 0 <= i < |byAuthor[author]| ==> Listed(byAuthor, author, byAuthor[author][i]);
      }
      UniteAuthor(forest, byAuthor[author], author, B, au);
      forall a | a in byAuthor && a !in remaining
        ensures United(forest.parent, byAuthor[a])
      {
        if a != author {
          CoarserKeepsUnited(before, forest.parent, byAuthor[a]);
        }
      }
    }
  }

  /** Representatives now tell components apart exactly. */
  ghost predicate Exact(p: Parents, B: set<Key>, au: Authors) {
    && WellFormed(p) && p.Keys == B
    && forall x, y :: x in p && y in p ==> (Root(p, x) == Root(p, y) <==> Connected(B, au, x, y))
  }

  lemma UnitedIsExact(p: Parents, byAuthor: AuthorIndex, B: set<Key>, au: Authors)
    requires Sound(p, B, au)
    requires forall a, b :: Listed(byAuthor, a, b) <==> b in B && b in au && a in au[b]
    requires forall a :: a in byAuthor ==> United(p, byAuthor[a])
    ensures Exact(p, B, au)
  {
    forall x, y | x in p && y in p
      ensures Root(p, x) == Root(p, y) <==> Connected(B, au, x, y)
    {
      if Root(p, x) == Root(p, y) {
        ConnectedSymmetric(B, au, y, Root(p, y));
        ConnectedTransitive(B, au, x, Root(p, x), y);
      }
      if Connected(B, au, x, y) {
        var S := set z | z in B && Root(p, z) == Root(p, x);
        forall u, v | u in S && v in B && Share(au, u, v)
          ensures v in S
        {
          var a :| a in au[u] * au[v];
        }
        ConnectedCarries(B, au, x, y, S);
      }
    }
  }

  /** The books whose representative is `r`. */
  ghost function Part(p: Parents, books: seq<Key>, r: Key): set<Key>
    requires WellFormed(p)
  {
    set b | b in books && b in p && Root(p, b) == r
  }

  ghost predicate Collected(components: map<Key, set<Key>>, p: Parents, books: seq<Key>) {
    && WellFormed(p)
    && (forall b :: b in books ==> b in p && Root(p, b) in components)
    && (forall r :: r in components ==> components[r] == Part(p, books, r) && components[r] != {})
  }

  function AddTo(components: map<Key, set<Key>>, root: Key, book: Key): map<Key, set<Key>> {
    components[root := (if root in components then components[root] else {}) + {book}]
  }

  lemma PartNext(p: Parents, books: seq<Key>, book: Key, r: Key)
    requires WellFormed(p) && book in p
    ensures Part(p, books + [book], r) == Part(p, books, r) + if Root(p, book) == r then {book} else {}
  {
  }

  lemma CollectNext(before: map<Key, set<Key>>, p: Parents, books: seq<Key>, book: Key)
    requires Collected(before, p, books) && book in p
    ensures Collected(AddTo(before, Root(p, book), book), p, books + [book])
  {
    var root := Root(p, book);
    var after := AddTo(before, root, book);
    if root !in before {
      assert Part(p, books, root) == {};
    }
    forall r | r in after
      ensures after[r] == Part(p, books + [book], r) && after[r] != {}
    {
      PartNext(p, books, book, r);
    }
  }

  lemma CollectedAreClasses(components: map<Key, set<Key>>, p: Parents, books: seq<Key>, au: Authors)
    requires Exact(p, SetOf(books), au) && Collected(components, p, books)
    ensures components.Values == set b | b in SetOf(books) :: Class(SetOf(books), au, b)
  {
    var B := SetOf(books);
    forall b | b in B
      ensures Part(p, books, Root(p, b)) == Class(B, au, b)
    { }
    forall c | c in components.Values
      ensures exists b :: b in B && Class(B, au, b) == c
    {
      var r :| r in components && components[r] == c;
      var b :| b in c;
      assert Class(B, au, b) == c;
    }
    forall b | b in B
      ensures Class(B, au, b) in components.Values
    {
      assert components[Root(p, b)] == Class(B, au, b);
    }
  }

  /** Only the paths differ, not the representatives. */
  ghost predicate SameRoots(p: Parents, q: Parents) {
    && WellFormed(p) && WellFormed(q) && q.Keys == p.Keys
    && forall x {:trigger Root(q, x)} :: x in p ==> Root(q, x) == Root(p, x)
  }

  /** `components[find(book_key)].append(book_key)` over the books of the title. */
  method CollectComponents(forest: Forest, titleBooks: seq<Key>) returns (components: map<Key, set<Key>>)
    requires WellFormed(forest.parent) && forall b :: b in titleBooks ==> b in forest.parent
    modifies forest
    ensures Collected(components, old(forest.parent), titleBooks)
  {
    components := map[];
    ghost var p := forest.parent;
    for i := 0 to |titleBooks|
      invariant SameRoots(p, forest.parent)
      invariant Collected(components, p, titleBooks[..i])
    {
      var book := titleBooks[i];
      CollectNext(components, p, titleBooks[..i], book);
      PrefixStep(titleBooks, i);
      ghost var before := forest.parent;
      var root := forest.Find(book);
      components := AddTo(components, root, book);
    }
    assert titleBooks[..|titleBooks|] == titleBooks;
  }

  lemma PrefixStep<T>(q: seq<T>, i: nat)
    requires i < |q|
    ensures q[..i + 1] == q[..i] + [q[i]]
  {
  }

  /** `q` holds the sorted tuples of the sets of `c`. */
  ghost predicate Tuples(q: seq<seq<Key>>, c: seq<set<Key>>) {
    |q| == |c| && forall i :: 0 <= i < |q| ==> q[i] == SortedKeys(c[i])
  }

  lemma TuplesAppend(q: seq<seq<Key>>, c: seq<set<Key>>, s: set<Key>)
    requires Tuples(q, c)
    ensures Tuples(q + [SortedKeys(s)], c + [s])
  {
  }

  lemma TakeFirstClass(done: seq<set<Key>>, rest: set<Key>, B: set<Key>, au: Authors)
    requires rest <= B && rest != {}
    ensures var c := Class(B, au, Min(rest));
      done + ClassList(rest, B, au) == (done + [c]) + ClassList(rest - c, B, au)
  {
    var c := Class(B, au, Min(rest));
  }

  /** `sorted(components.values(), key=lambda item: tuple(sorted(item)))` */
  method SortComponents(components: set<set<Key>>, ghost B: set<Key>, ghost au: Authors)
      returns (ordered: seq<seq<Key>>)
    requires components == set b | b in B :: Class(B, au, b)
    ensures Tuples(ordered, ClassList(B, B, au))
  {
    ordered := [];
    var remaining := components;
    ghost var rest := B;
    ghost var done: seq<set<Key>> := [];
    while remaining != {}
      invariant Saturated(rest, B, au)
      invariant remaining == set b | b in rest :: Class(B, au, b)
      invariant Tuples(ordered, done)
      invariant done + ClassList(rest, B, au) == ClassList(B, B, au)
      decreases remaining
    {
      ghost var m := Min(rest);
      LeastComponent(remaining, rest, B, au);
      var least :| least in remaining && forall c :: c in remaining ==>
        c == least || TupleLess(SortedKeys(least), SortedKeys(c));
      LeastIsFirst(remaining, rest, B, au, least);
      TuplesAppend(ordered, done, least);
      TakeFirstClass(done, rest, B, au);
      ordered := ordered + [SortedKeys(least)];
      done := done + [least];
      SaturatedMinusClass(rest, B, au, m);
      RemoveComponent(remaining, rest, B, au, m);
      remaining := remaining - {least};
      rest := rest - least;
    }
    if rest != {} {
      SomethingLeft(remaining, rest, B, au);
    }
  }

  ghost predicate Remaining(remaining: set<set<Key>>, rest: set<Key>, B: set<Key>, au: Authors) {
    Saturated(rest, B, au) && remaining == set b | b in rest :: Class(B, au, b)
  }

  lemma SomethingLeft(remaining: set<set<Key>>, rest: set<Key>, B: set<Key>, au: Authors)
    requires Remaining(remaining, rest, B, au) && rest != {}
    ensures remaining != {}
  {
    assert Class(B, au, Min(rest)) in remaining;
  }

  lemma OtherComponentFollows(remaining: set<set<Key>>, rest: set<Key>, B: set<Key>, au: Authors, c: set<Key>)
    requires Remaining(remaining, rest, B, au) && rest != {}
    requires c in remaining && c != Class(B, au, Min(rest))
    ensures c != {} && TupleLess(SortedKeys(Class(B, au, Min(rest))), SortedKeys(c))
    ensures !TupleLess(SortedKeys(c), SortedKeys(Class(B, au, Min(rest))))
  {
    var first := Class(B, au, Min(rest));
    var b :| b in rest && c == Class(B, au, b);
    ClassIsClass(rest, B, au, b);
    ClassIsClass(rest, B, au, Min(rest));
    forall x | x in c && x in first
      ensures false
    { }
    LaterClassFollows(rest, first, c);
    TupleOrderIsLeastOrder(first, c);
    TupleOrderIsLeastOrder(c, first);
    LessAsymmetric(Min(first), Min(c));
  }

  lemma LeastComponent(remaining: set<set<Key>>, rest: set<Key>, B: set<Key>, au: Authors)
    requires Remaining(remaining, rest, B, au) && remaining != {}
    ensures rest != {} && Class(B, au, Min(rest)) in remaining
    ensures forall c :: c in remaining ==>
      c == Class(B, au, Min(rest)) || TupleLess(SortedKeys(Class(B, au, Min(rest))), SortedKeys(c))
  {
    var first := Class(B, au, Min(rest));
    forall c | c in remaining && c != first
      ensures TupleLess(SortedKeys(first), SortedKeys(c))
    {
      OtherComponentFollows(remaining, rest, B, au, c);
    }
  }

  lemma LeastIsFirst(remaining: set<set<Key>>, rest: set<Key>, B: set<Key>, au: Authors, least: set<Key>)
    requires Remaining(remaining, rest, B, au) && rest != {}
    requires least in remaining
    requires forall c :: c in remaining ==> c == least || TupleLess(SortedKeys(least), SortedKeys(c))
    ensures least == Class(B, au, Min(rest))
  {
    var first := Class(B, au, Min(rest));
    assert first in remaining;
    if least != first {
      OtherComponentFollows(remaining, rest, B, au, least);
      assert false;
    }
  }

  lemma RemoveComponent(remaining: set<set<Key>>, rest: set<Key>, B: set<Key>, au: Authors, m: Key)
    requires Remaining(remaining, rest, B, au) && m in rest
    ensures remaining - {Class(B, au, m)} == set b | b in rest - Class(B, au, m) :: Class(B, au, b)
  {
    var c := Class(B, au, m);
    ClassIsClass(rest, B, au, m);
    forall b | b in rest
      ensures b in c <==> Class(B, au, b) == c
    {
      ClassIsClass(rest, B, au, b);
    }
  }

  /** From the books of one title to its ordered components. */
  method GroupTitle(titleBooks: seq<Key>, authors: Authors) returns (ordered: seq<seq<Key>>)
    requires forall b :: b in titleBooks ==> b in authors
    ensures Tuples(ordered, ClassList(SetOf(titleBooks), SetOf(titleBooks), authors))
  {
    var B := SetOf(titleBooks);
    var forest := new Forest(B);
    forall x | x in forest.parent
      ensures Connected(B, authors, x, Root(forest.parent, x))
    {
      ConnectedReflexive(B, authors, x);
    }
    var byAuthor := IndexByAuthor(titleBooks, authors);
    UniteAll(forest, byAuthor, B, authors);
    UnitedIsExact(forest.parent, byAuthor, B, authors);
    ghost var united := forest.parent;
    var components := CollectComponents(forest, titleBooks);
    CollectedAreClasses(components, united, titleBooks, authors);
    ordered := SortComponents(components.Values, B, authors);
  }
}
