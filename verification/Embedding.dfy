/** Character n-grams hashed into buckets, scaled to length one. */
module Embedding {

  const DIMENSION := 384

  datatype Gram = Gram(size: nat, text: string)

  /** The n-grams of one size. */
  function GramsOf(text: string, size: nat): (g: seq<Gram>)
    ensures |g| == if size <= |text| then |text| - size + 1 else 0
  {
    if size <= |text| then
      seq(|text| - size + 1, i requires 0 <= i < |text| - size + 1 => Gram(size, text[i..i + size]))
    else []
  }

  /** Sizes 2 to 4, in that order. */
  function Grams(text: string): seq<Gram> {
    GramsOf(text, 2) + GramsOf(text, 3) + GramsOf(text, 4)
  }

  /** The bucket of an n-gram: the first digest bytes modulo the dimension. */
  type Bucketing = Gram -> nat

  ghost predicate InRange(bucket: Bucketing) {
    forall g {:trigger bucket(g)} :: bucket(g) < DIMENSION
  }

  function Hits(grams: seq<Gram>, bucket: Bucketing, b: nat): nat {
    if grams == [] then 0
    else Hits(grams[..|grams| - 1], bucket, b) + if bucket(grams[|grams| - 1]) == b then 1 else 0
  }

  function Total(values: seq<real>): real {
    if values == [] then 0.0 else Total(values[..|values| - 1]) + values[|values| - 1]
  }

  function Product(a: real, b: real): (r: real)
    ensures a > 0.0 && b > 0.0 ==> r > 0.0
    ensures a < 0.0 && b < 0.0 ==> r > 0.0
    ensures a == 0.0 ==> r == 0.0
  {
    a * b
  }

  function Square(x: real): (r: real)
    ensures r >= 0.0 && (r == 0.0 <==> x == 0.0)
  {
    Product(x, x)
  }

  function Squares(values: seq<real>): real {
    if values == [] then 0.0 else Squares(values[..|values| - 1]) + Square(values[|values| - 1])
  }

  ghost function Buckets(grams: seq<Gram>, bucket: Bucketing): seq<real> {
    seq(DIMENSION, b requires 0 <= b < DIMENSION => Hits(grams, bucket, b) as real)
  }

  /** `values[bucket] += 1.0` for every n-gram. */
  method CountBuckets(grams: seq<Gram>, bucket: Bucketing) returns (values: array<real>)
    requires InRange(bucket)
    ensures fresh(values) && values[..] == Buckets(grams, bucket)
  {
    values := new real[DIMENSION](i => 0.0);
    for i := 0 to |grams|
      invariant forall b :: 0 <= b < DIMENSION ==> values[b] == Hits(grams[..i], bucket, b) as real
    {
      assert grams[..i + 1][..i] == grams[..i];
      var b := bucket(grams[i]);
      values[b] := values[b] + 1.0;
    }
    assert grams[..|grams|] == grams;
  }

  method SumOfSquares(values: array<real>) returns (s: real)
    ensures s == Squares(values[..])
  {
    s := 0.0;
    for i := 0 to values.Length
      invariant s == Squares(values[..i])
    {
      assert values[..i + 1][..i] == values[..i];
      s := s + Square(values[i]);
    }
    assert values[..values.Length] == values[..];
  }

  type Root = real -> real

  ghost predicate IsRoot(root: Root) {
    forall x {:trigger root(x)} :: x >= 0.0 ==> root(x) >= 0.0 && Square(root(x)) == x
  }

  datatype Embedded = Vector(values: seq<real>) | EmptyEmbedding

  function Scaled(values: seq<real>, norm: real): seq<real>
    requires norm != 0.0
  {
    seq(|values|, i requires 0 <= i < |values| => values[i] / norm)
  }

  function Normalized(values: seq<real>, norm: real): Embedded {
    if norm == 0.0 then EmptyEmbedding else Vector(Scaled(values, norm))
  }

  ghost function Embed(text: string, bucket: Bucketing, root: Root): Embedded {
    var values := Buckets(Grams(text), bucket);
    Normalized(values, root(Squares(values)))
  }

  method EmbeddingVector(text: string, bucket: Bucketing, root: Root) returns (r: Embedded)
    requires InRange(bucket)
    ensures r == Embed(text, bucket, root)
  {
    var values := CountBuckets(Grams(text), bucket);
    var squares := SumOfSquares(values);
    r := Normalized(values[..], root(squares));
  }

  // ---------------------------------------------------------------- counts are conserved

  lemma {:induction false} TotalStep(before: seq<real>, after: seq<real>, b: nat)
    requires |before| == |after|
    requires forall i :: 0 <= i < |before| ==> after[i] == before[i] + if i == b then 1.0 else 0.0
    ensures Total(after) == Total(before) + if b < |before| then 1.0 else 0.0
  {
    if before != [] {
      var n := |before| - 1;
      assert forall i :: 0 <= i < n ==> after[..n][i] == after[i] && before[..n][i] == before[i];
      TotalStep(before[..n], after[..n], b);
    }
  }

  lemma {:induction false} TotalZero(values: seq<real>)
    requires forall i :: 0 <= i < |values| ==> values[i] == 0.0
    ensures Total(values) == 0.0
  {
    if values != [] {
      TotalZero(values[..|values| - 1]);
    }
  }

  /** The buckets hold as many hits as there are n-grams. */
  lemma {:induction false} BucketsHoldAll(grams: seq<Gram>, bucket: Bucketing)
    requires InRange(bucket)
    ensures Total(Buckets(grams, bucket)) == |grams| as real
  {
    if grams == [] {
      TotalZero(Buckets(grams, bucket));
    } else {
      var n := |grams| - 1;
      BucketsHoldAll(grams[..n], bucket);
      TotalStep(Buckets(grams[..n], bucket), Buckets(grams, bucket), bucket(grams[n]));
    }
  }

  lemma {:induction false} SquaresZeroIff(values: seq<real>)
    ensures Squares(values) >= 0.0
    ensures Squares(values) == 0.0 <==> forall i :: 0 <= i < |values| ==> values[i] == 0.0
  {
    if values != [] {
      var n := |values| - 1;
      SquaresZeroIff(values[..n]);
      assert forall i :: 0 <= i < n ==> values[..n][i] == values[i];
    }
  }

  lemma {:induction false} TotalPositive(values: seq<real>)
    requires forall i :: 0 <= i < |values| ==> values[i] >= 0.0
    ensures Total(values) >= 0.0
    ensures Total(values) == 0.0 <==> forall i :: 0 <= i < |values| ==> values[i] == 0.0
  {
    if values != [] {
      var n := |values| - 1;
      assert forall i :: 0 <= i < n ==> values[..n][i] == values[i];
      TotalPositive(values[..n]);
    }
  }

  /** The embedding is empty exactly for texts too short to hold an n-gram. */
  lemma EmptyIffShort(text: string, bucket: Bucketing, root: Root)
    requires InRange(bucket) && IsRoot(root)
    ensures Embed(text, bucket, root).EmptyEmbedding? <==> |text| < 2
  {
    var values := Buckets(Grams(text), bucket);
    BucketsHoldAll(Grams(text), bucket);
    TotalPositive(values);
    SquaresZeroIff(values);
  }

  lemma SumStep(a: real, b: real, c: real, s: real, t: real)
    requires Product(a, c) == s && Product(b, c) == t
    ensures Product(a + b, c) == s + t
  {
    assert (a + b) * c == a * c + b * c;
  }

  lemma {:induction false} ScaledSquares(values: seq<real>, norm: real)
    requires norm > 0.0
    ensures Product(Squares(Scaled(values, norm)), Square(norm)) == Squares(values)
  {
    if values != [] {
      var n := |values| - 1;
      ScaledSquares(values[..n], norm);
      assert Scaled(values, norm)[..n] == Scaled(values[..n], norm);
      SumStep(Squares(Scaled(values[..n], norm)), Square(values[n] / norm), Square(norm), Squares(values[..n]),
              Square(values[n]));
    } else {
      assert Scaled(values, norm) == [];
    }
  }

  /** Every vector has one entry per bucket and length one. */
  lemma VectorsAreUnit(text: string, bucket: Bucketing, root: Root)
    requires InRange(bucket) && IsRoot(root) && |text| >= 2
    ensures Embed(text, bucket, root).Vector?
    ensures |Embed(text, bucket, root).values| == 384
    ensures Squares(Embed(text, bucket, root).values) == 1.0
  {
    EmptyIffShort(text, bucket, root);
    var values := Buckets(Grams(text), bucket);
    SquaresZeroIff(values);
    var norm := root(Squares(values));
    assert Square(norm) == Squares(values);
    ScaledSquares(values, norm);
    UnitFactor(Squares(Scaled(values, norm)), Square(norm));
  }

  lemma UnitFactor(a: real, b: real)
    requires Product(a, b) == b && b != 0.0
    ensures a == 1.0
  {
    assert (a - 1.0) * b == 0.0;
  }

  // ---------------------------------------------------------------- what a bucket holds

  datatype Place = Place(size: nat, at: nat)

  /** The n-gram of that size at that place falls into the bucket. */
  predicate Falls(text: string, n: nat, i: nat, bucket: Bucketing, b: nat) {
    i + n <= |text| && bucket(Gram(n, text[i..i + n])) == b
  }

  ghost function PlacesOf(text: string, n: nat, bucket: Bucketing, b: nat): set<nat> {
    set i: nat | i < |text| && Falls(text, n, i, bucket, b)
  }

  /** Size and place of every n-gram of two to four characters that falls into the bucket. */
  ghost function Places(text: string, bucket: Bucketing, b: nat): set<Place> {
    set n: nat, i: nat | 2 <= n <= 4 && i < |text| && Falls(text, n, i, bucket, b) :: Place(n, i)
  }

  lemma {:induction false} HitsAppend(a: seq<Gram>, c: seq<Gram>, bucket: Bucketing, b: nat)
    ensures Hits(a + c, bucket, b) == Hits(a, bucket, b) + Hits(c, bucket, b)
  {
    if c == [] {
      assert a + c == a;
    } else {
      var m := |c| - 1;
      assert (a + c)[..|a + c| - 1] == a + c[..m];
      HitsAppend(a, c[..m], bucket, b);
    }
  }

  ghost function Hitting(grams: seq<Gram>, bucket: Bucketing, b: nat): set<nat> {
    set i: nat | i < |grams| && bucket(grams[i]) == b
  }

  lemma {:induction false} HitsCount(grams: seq<Gram>, bucket: Bucketing, b: nat)
    ensures Hits(grams, bucket, b) == |Hitting(grams, bucket, b)|
  {
    if grams != [] {
      var m := |grams| - 1;
      HitsCount(grams[..m], bucket, b);
      assert Hitting(grams, bucket, b) == Hitting(grams[..m], bucket, b) + if bucket(grams[m]) == b then {m} else {};
    }
  }

  lemma HitsOfSize(text: string, n: nat, bucket: Bucketing, b: nat)
    requires n > 0
    ensures Hits(GramsOf(text, n), bucket, b) == |PlacesOf(text, n, bucket, b)|
  {
    HitsCount(GramsOf(text, n), bucket, b);
    assert Hitting(GramsOf(text, n), bucket, b) == PlacesOf(text, n, bucket, b);
  }

  function Sized(s: set<nat>, n: nat): set<Place> {
    set i | i in s :: Place(n, i)
  }

  lemma {:induction false} SizedCount(s: set<nat>, n: nat)
    ensures |Sized(s, n)| == |s|
  {
    if s != {} {
      var x :| x in s;
      var rest := s - {x};
      SizedCount(rest, n);
      assert Sized(s, n) == Sized(rest, n) + {Place(n, x)};
    }
  }

  /** Before scaling a bucket holds the number of n-grams of two to four characters, counted by place, that fall into it. */
  lemma BucketHoldsPlaces(text: string, bucket: Bucketing, b: nat)
    requires b < DIMENSION
    ensures Buckets(Grams(text), bucket)[b] == |Places(text, bucket, b)| as real
  {
    HitsBySize(text, bucket, b);
    PlacesBySize(text, bucket, b);
  }

  lemma HitsBySize(text: string, bucket: Bucketing, b: nat)
    ensures Hits(Grams(text), bucket, b) ==
      |PlacesOf(text, 2, bucket, b)| + |PlacesOf(text, 3, bucket, b)| + |PlacesOf(text, 4, bucket, b)|
  {
    HitsAppend(GramsOf(text, 2) + GramsOf(text, 3), GramsOf(text, 4), bucket, b);
    HitsAppend(GramsOf(text, 2), GramsOf(text, 3), bucket, b);
    HitsOfSize(text, 2, bucket, b);
    HitsOfSize(text, 3, bucket, b);
    HitsOfSize(text, 4, bucket, b);
  }

  lemma PlacesBySize(text: string, bucket: Bucketing, b: nat)
    ensures |Places(text, bucket, b)| ==
      |PlacesOf(text, 2, bucket, b)| + |PlacesOf(text, 3, bucket, b)| + |PlacesOf(text, 4, bucket, b)|
  {
    var s2, s3 := Sized(PlacesOf(text, 2, bucket, b), 2), Sized(PlacesOf(text, 3, bucket, b), 3);
    var s4 := Sized(PlacesOf(text, 4, bucket, b), 4);
    SizedCount(PlacesOf(text, 2, bucket, b), 2);
    SizedCount(PlacesOf(text, 3, bucket, b), 3);
    SizedCount(PlacesOf(text, 4, bucket, b), 4);
    PlacesParted(text, bucket, b);
    ThreeParts(s2, s3, s4);
  }

  lemma PlacesParted(text: string, bucket: Bucketing, b: nat)
    ensures Places(text, bucket, b) ==
      Sized(PlacesOf(text, 2, bucket, b), 2) + Sized(PlacesOf(text, 3, bucket, b), 3) + Sized(PlacesOf(text, 4, bucket, b), 4)
  {
    var s2, s3 := Sized(PlacesOf(text, 2, bucket, b), 2), Sized(PlacesOf(text, 3, bucket, b), 3);
    var s4 := Sized(PlacesOf(text, 4, bucket, b), 4);
    forall p | p in Places(text, bucket, b)
      ensures p in s2 + s3 + s4
    {
      assert p.at in PlacesOf(text, p.size, bucket, b);
    }
    forall p | p in s2 + s3 + s4
      ensures p in Places(text, bucket, b)
    {
      assert Falls(text, p.size, p.at, bucket, b);
    }
  }

  lemma ThreeParts(a: set<Place>, b: set<Place>, c: set<Place>)
    requires a !! b && a !! c && b !! c
    ensures |a + b + c| == |a| + |b| + |c|
  {
    assert a + b !! c;
  }

  /** The counts of all buckets. */
  ghost function PlaceCounts(text: string, bucket: Bucketing): seq<real> {
    seq(DIMENSION, b requires 0 <= b < DIMENSION => |Places(text, bucket, b)| as real)
  }

  lemma BucketsArePlaces(text: string, bucket: Bucketing)
    ensures Buckets(Grams(text), bucket) == PlaceCounts(text, bucket)
  {
    forall b | 0 <= b < DIMENSION
      ensures Buckets(Grams(text), bucket)[b] == PlaceCounts(text, bucket)[b]
    {
      BucketHoldsPlaces(text, bucket, b);
    }
  }

  /** All buckets together hold one hit for each size from two to four and each place where it fits. */
  lemma PlacesInAll(text: string, bucket: Bucketing)
    requires InRange(bucket)
    ensures Total(PlaceCounts(text, bucket)) ==
      if |text| < 2 then 0.0 else if |text| == 2 then 1.0 else 3.0 * (|text| - 2) as real
  {
    BucketsArePlaces(text, bucket);
    BucketsHoldAll(Grams(text), bucket);
  }

  /** The vector of a text: each bucket's count of places divided by the length of the vector of counts. */
  lemma VectorOfPlaces(text: string, bucket: Bucketing, root: Root, b: nat)
    requires InRange(bucket) && IsRoot(root) && |text| >= 2 && b < DIMENSION
    ensures var norm := root(Squares(PlaceCounts(text, bucket)));
      && norm > 0.0 && Embed(text, bucket, root).Vector? && |Embed(text, bucket, root).values| == DIMENSION
      && Embed(text, bucket, root).values[b] == |Places(text, bucket, b)| as real / norm
  {
    EmptyIffShort(text, bucket, root);
    BucketsArePlaces(text, bucket);
    SquaresZeroIff(PlaceCounts(text, bucket));
  }
}
