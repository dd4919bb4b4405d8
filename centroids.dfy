/**
 * The post-clustering tail of the extraction worker: KMeans centres are
 * truncated to integers, each is annotated with its luminance in a fourth
 * column, and the rows are stably sorted ascending by that column.
 *
 * `numpy.insert` converts the inserted luminances to the integer type of the
 * truncated centres, so the fourth column holds trunc(sqrt(S)) with
 * S = 0.299 R^2 + 0.587 G^2 + 0.114 B^2. Since S >= 0 that is the largest
 * natural number whose square does not exceed S, which is computed here
 * exactly (no square root is needed).
 */
module Centroids {

  /** A cluster centre as the clustering library returns it (floating point). */
  datatype Centre = Centre(r: real, g: real, b: real)

  /** A centre after conversion to integers. */
  datatype Rgb = Rgb(r: int, g: int, b: int)

  /** One row of the worker's result: integer channels and integer luminance. */
  datatype LumColor = LumColor(r: int, g: int, b: int, lum: int)

  /** Float-to-integer conversion, truncating toward zero. */
  function Truncate(x: real): (n: int)
    ensures 0.0 <= x ==> 0 <= n && n as real <= x < n as real + 1.0
    ensures x < 0.0 ==> n <= 0 && n as real - 1.0 < x <= n as real
  {
    if x >= 0.0 then x.Floor else -((-x).Floor)
  }

  function TruncateCentre(c: Centre): Rgb {
    Rgb(Truncate(c.r), Truncate(c.g), Truncate(c.b))
  }

  /** The element-wise integer conversion of the whole centre list. */
  function TruncateAll(cs: seq<Centre>): seq<Rgb> {
    seq(|cs|, i requires 0 <= i < |cs| => TruncateCentre(cs[i]))
  }

  /** The quantity under the square root of the luminance formula. */
  function WeightedSquares(c: Rgb): (s: real)
    ensures 0.0 <= s
  {
    0.299 * (c.r * c.r) as real + 0.587 * (c.g * c.g) as real + 0.114 * (c.b * c.b) as real
  }

  lemma SquareMonotone(a: nat, b: nat)
    requires a <= b
    ensures a * a <= b * b
  {
    assert a * a <= a * b <= b * b;
  }

  /** The largest natural number at least n whose square does not exceed s. */
  function FloorSqrtFrom(s: real, n: nat): (r: nat)
    requires (n * n) as real <= s
    ensures n <= r
    ensures (r * r) as real <= s < ((r + 1) * (r + 1)) as real
    decreases s.Floor - n
  {
    if s < ((n + 1) * (n + 1)) as real then n
    else
      assert n + 1 <= (n + 1) * (n + 1);
      FloorSqrtFrom(s, n + 1)
  }

  /** trunc(sqrt(s)) for s >= 0. */
  function FloorSqrt(s: real): (r: nat)
    requires 0.0 <= s
    ensures (r * r) as real <= s < ((r + 1) * (r + 1)) as real
  {
    FloorSqrtFrom(s, 0)
  }

  /** The square-root bracket determines the result: FloorSqrt is the integer part of the root. */
  lemma FloorSqrtUnique(s: real, k: nat)
    requires (k * k) as real <= s < ((k + 1) * (k + 1)) as real
    ensures FloorSqrt(s) == k
  {
    var n := FloorSqrt(s);
    if n < k {
      SquareMonotone(n + 1, k);
    } else if k < n {
      SquareMonotone(k + 1, n);
    }
  }

  /** The luminance column of one centre, computed from its own three channels. */
  function Luminance(c: Rgb): (l: nat)
    ensures (l * l) as real <= WeightedSquares(c) < ((l + 1) * (l + 1)) as real
  {
    FloorSqrt(WeightedSquares(c))
  }

  /** The luminance list the worker builds, one entry per centre. */
  function Luminances(cs: seq<Rgb>): seq<int> {
    seq(|cs|, i requires 0 <= i < |cs| => Luminance(cs[i]))
  }

  /** Insertion of the luminance list as a fourth column. */
  function WithLuminance(cs: seq<Rgb>, lumins: seq<int>): (rows: seq<LumColor>)
    requires |cs| == |lumins|
    ensures |rows| == |cs|
    ensures forall i :: 0 <= i < |cs| ==>
      rows[i].r == cs[i].r && rows[i].g == cs[i].g && rows[i].b == cs[i].b && rows[i].lum == lumins[i]
  {
    if cs == [] then []
    else [LumColor(cs[0].r, cs[0].g, cs[0].b, lumins[0])] + WithLuminance(cs[1..], lumins[1..])
  }

  /** The fourth column of a row is the luminance of its own channels. */
  ghost predicate SelfAnnotated(x: LumColor) {
    x.lum == Luminance(Rgb(x.r, x.g, x.b))
  }

  function Annotated(cs: seq<Rgb>): seq<LumColor> {
    WithLuminance(cs, Luminances(cs))
  }

  lemma {:induction false} AnnotatedRows(cs: seq<Rgb>)
    ensures |Annotated(cs)| == |cs|
    ensures forall i :: 0 <= i < |cs| ==>
      Annotated(cs)[i] == LumColor(cs[i].r, cs[i].g, cs[i].b, Luminance(cs[i]))
    ensures forall x :: x in Annotated(cs) ==> SelfAnnotated(x)
  {
  }

  // ---------------------------------------------------------------------
  // The keyed, stable sort of line 293
  // ---------------------------------------------------------------------

  ghost predicate SortedByLuminance(s: seq<LumColor>) {
    forall i, j :: 0 <= i < j < |s| ==> s[i].lum <= s[j].lum
  }

  /** The elements of s whose luminance is k, in their order in s. */
  function WithKey(s: seq<LumColor>, k: int): seq<LumColor> {
    if s == [] then []
    else WithKey(s[..|s| - 1], k) + (if s[|s| - 1].lum == k then [s[|s| - 1]] else [])
  }

  /**
   * Places x into the sorted sequence s after every element whose luminance
   * does not exceed its own.
   */
  function Insert(s: seq<LumColor>, x: LumColor): (r: seq<LumColor>)
    requires SortedByLuminance(s)
    ensures SortedByLuminance(r)
    ensures multiset(r) == multiset(s) + multiset{x}
  {
    if s == [] || s[|s| - 1].lum <= x.lum then
      s + [x]
    else
      var init, last := s[..|s| - 1], s[|s| - 1];
      assert s == init + [last];
      var q := Insert(init, x);
      BoundedByLast(s, x, q);
      q + [last]
  }

  /** Every element of Insert(init, x) is at most the last element of s, when x is. */
  lemma BoundedByLast(s: seq<LumColor>, x: LumColor, q: seq<LumColor>)
    requires SortedByLuminance(s) && s != [] && x.lum < s[|s| - 1].lum
    requires multiset(q) == multiset(s[..|s| - 1]) + multiset{x}
    ensures forall i :: 0 <= i < |q| ==> q[i].lum <= s[|s| - 1].lum
  {
    var init := s[..|s| - 1];
    forall i | 0 <= i < |q| ensures q[i].lum <= s[|s| - 1].lum {
      assert q[i] in multiset(q);
      if q[i] != x {
        assert q[i] in multiset(init);
        var j :| 0 <= j < |init| && init[j] == q[i];
        assert s[j] == q[i];
      }
    }
  }

  /** The sorted copy of s; equal keys keep their order in s. */
  function SortByLuminance(s: seq<LumColor>): (r: seq<LumColor>)
    ensures SortedByLuminance(r)
    ensures multiset(r) == multiset(s)
  {
    if s == [] then []
    else
      assert s == s[..|s| - 1] + [s[|s| - 1]];
      Insert(SortByLuminance(s[..|s| - 1]), s[|s| - 1])
  }

  lemma {:induction false} WithKeyAppend(a: seq<LumColor>, b: seq<LumColor>, k: int)
    ensures WithKey(a + b, k) == WithKey(a, k) + WithKey(b, k)
    decreases |b|
  {
    if b == [] {
      assert a + b == a;
    } else {
      var init, last := b[..|b| - 1], b[|b| - 1];
      assert (a + b)[..|a + b| - 1] == a + init;
      assert (a + b)[|a + b| - 1] == last;
      WithKeyAppend(a, init, k);
    }
  }

  lemma WithKeySnoc(s: seq<LumColor>, y: LumColor, k: int)
    ensures WithKey(s + [y], k) == WithKey(s, k) + (if y.lum == k then [y] else [])
  {
    assert (s + [y])[..|s|] == s;
  }

  lemma {:induction false} InsertStable(s: seq<LumColor>, x: LumColor, k: int)
    requires SortedByLuminance(s)
    ensures WithKey(Insert(s, x), k) == WithKey(s, k) + (if x.lum == k then [x] else [])
    decreases |s|
  {
    if s == [] || s[|s| - 1].lum <= x.lum {
      WithKeySnoc(s, x, k);
    } else {
      var init, last := s[..|s| - 1], s[|s| - 1];
      InsertStable(init, x, k);
      InsertStableStep(s, x, k, Insert(init, x));
    }
  }

  /** The case where x goes before the last element of s. */
  lemma InsertStableStep(s: seq<LumColor>, x: LumColor, k: int, q: seq<LumColor>)
    requires s != [] && x.lum < s[|s| - 1].lum
    requires WithKey(q, k) == WithKey(s[..|s| - 1], k) + (if x.lum == k then [x] else [])
    ensures WithKey(q + [s[|s| - 1]], k) == WithKey(s, k) + (if x.lum == k then [x] else [])
  {
    var init, last := s[..|s| - 1], s[|s| - 1];
    WithKeySnoc(q, last, k);
    assert s == init + [last];
    WithKeySnoc(init, last, k);
  }

  /** Stability: for every key, the rows carrying it appear in the same order before and after sorting. */
  lemma {:induction false} SortStable(s: seq<LumColor>, k: int)
    ensures WithKey(SortByLuminance(s), k) == WithKey(s, k)
    decreases |s|
  {
    if s != [] {
      var init, last := s[..|s| - 1], s[|s| - 1];
      SortStable(init, k);
      InsertStable(SortByLuminance(init), last, k);
    }
  }

  /** What the worker puts on the queue as its result. */
  function Payload(centres: seq<Centre>): seq<LumColor> {
    SortByLuminance(Annotated(TruncateAll(centres)))
  }

  /**
   * The worker's result is a permutation of the annotated, truncated centres,
   * sorted ascending by luminance, stable, and every row's luminance comes
   * from its own channels.
   */
  lemma WorkerOutput(centres: seq<Centre>)
    ensures |Payload(centres)| == |centres|
    ensures SortedByLuminance(Payload(centres))
    ensures multiset(Payload(centres)) == multiset(Annotated(TruncateAll(centres)))
    ensures forall k :: WithKey(Payload(centres), k) == WithKey(Annotated(TruncateAll(centres)), k)
    ensures forall x :: x in Payload(centres) ==> SelfAnnotated(x)
    ensures forall x :: x in Payload(centres) ==>
      exists i :: 0 <= i < |centres| && Rgb(x.r, x.g, x.b) == TruncateCentre(centres[i])
  {
    var rows := Annotated(TruncateAll(centres));
    AnnotatedRows(TruncateAll(centres));
    var p := Payload(centres);
    assert |p| == |multiset(p)| == |multiset(rows)| == |rows|;
    forall k ensures WithKey(p, k) == WithKey(rows, k) {
      SortStable(rows, k);
    }
    forall x | x in p
      ensures SelfAnnotated(x)
      ensures exists i :: 0 <= i < |centres| && Rgb(x.r, x.g, x.b) == TruncateCentre(centres[i])
    {
      assert x in multiset(rows);
      var i :| 0 <= i < |rows| && rows[i] == x;
      assert Rgb(x.r, x.g, x.b) == TruncateCentre(centres[i]);
    }
  }

  /** The luminance formula on pure white, red, green and black, and on two greys. */
  lemma LuminanceExamples()
    ensures Luminance(Rgb(255, 255, 255)) == 255
    ensures Luminance(Rgb(255, 0, 0)) == 139
    ensures Luminance(Rgb(0, 255, 0)) == 195
    ensures Luminance(Rgb(0, 0, 0)) == 0
    ensures Luminance(Rgb(10, 10, 10)) == 10
    ensures Luminance(Rgb(250, 250, 250)) == 250
  {
    FloorSqrtUnique(WeightedSquares(Rgb(255, 255, 255)), 255);
    FloorSqrtUnique(WeightedSquares(Rgb(255, 0, 0)), 139);
    FloorSqrtUnique(WeightedSquares(Rgb(0, 255, 0)), 195);
    FloorSqrtUnique(WeightedSquares(Rgb(0, 0, 0)), 0);
    FloorSqrtUnique(WeightedSquares(Rgb(10, 10, 10)), 10);
    FloorSqrtUnique(WeightedSquares(Rgb(250, 250, 250)), 250);
  }

  /** The loop that builds the luminance list, one entry per centre. */
  method LuminanceList(cs: seq<Rgb>) returns (lumins: seq<int>)
    ensures |lumins| == |cs|
    ensures forall i :: 0 <= i < |cs| ==>
      0 <= lumins[i] &&
      (lumins[i] * lumins[i]) as real <= WeightedSquares(cs[i]) < ((lumins[i] + 1) * (lumins[i] + 1)) as real
    ensures lumins == Luminances(cs)
  {
    lumins := [];
    var i := 0;
    while i < |cs|
      invariant 0 <= i <= |cs|
      invariant lumins == Luminances(cs[..i])
    {
      assert Luminances(cs[..i + 1]) == Luminances(cs[..i]) + [Luminance(cs[i])];
      lumins := lumins + [Luminance(cs[i])];
      i := i + 1;
    }
    assert cs[..i] == cs;
  }
}
