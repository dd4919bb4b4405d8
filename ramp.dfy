/**
 * The value-level pieces of the ramp builder: normalisation of a result row
 * by 255, the inclusive luminance-range filter, the position of each entry in
 * [0, 1], and the rows written to the ramp table under its fixed header.
 */
module Ramp {
  import opened Centroids

  /** A cell of the ramp table: the header holds names, data rows hold numbers. */
  datatype Cell = Text(text: string) | Num(value: real)

  const Header: seq<Cell> := [Text("pos"), Text("r"), Text("g"), Text("b"), Text("luminosity"), Text("a")]

  /** Every value of a result row divided by 255: [r, g, b, luminosity]. */
  function Normalize(c: LumColor): (v: seq<real>)
    ensures |v| == 4
    ensures v[0] * 255.0 == c.r as real && v[1] * 255.0 == c.g as real
    ensures v[2] * 255.0 == c.b as real && v[3] * 255.0 == c.lum as real
  {
    [c.r as real / 255.0, c.g as real / 255.0, c.b as real / 255.0, c.lum as real / 255.0]
  }

  /** Values in 0..255 normalise into [0, 1]; 0 goes to 0 and 255 to 1. */
  lemma NormalizeRange(c: LumColor)
    requires 0 <= c.r <= 255 && 0 <= c.g <= 255 && 0 <= c.b <= 255 && 0 <= c.lum <= 255
    ensures forall k :: 0 <= k < 4 ==> 0.0 <= Normalize(c)[k] <= 1.0
    ensures Normalize(LumColor(255, 255, 255, 255)) == [1.0, 1.0, 1.0, 1.0]
    ensures Normalize(LumColor(0, 0, 0, 0)) == [0.0, 0.0, 0.0, 0.0]
  {
  }

  /** The test of the filter: a row is dropped when its last value is below lo or above hi. */
  predicate Kept(v: seq<real>, lo: real, hi: real)
    requires |v| > 0
  {
    !(v[|v| - 1] < lo || v[|v| - 1] > hi)
  }

  /** The normalised rows of cs that pass the filter, in their order in cs. */
  function Survivors(cs: seq<LumColor>, lo: real, hi: real): seq<seq<real>> {
    if cs == [] then []
    else
      var v := Normalize(cs[|cs| - 1]);
      Survivors(cs[..|cs| - 1], lo, hi) + (if Kept(v, lo, hi) then [v] else [])
  }

  /** Filtering distributes over concatenation: survivors keep their input order. */
  lemma {:induction false} SurvivorsAppend(a: seq<LumColor>, b: seq<LumColor>, lo: real, hi: real)
    ensures Survivors(a + b, lo, hi) == Survivors(a, lo, hi) + Survivors(b, lo, hi)
    decreases |b|
  {
    if b == [] {
      assert a + b == a;
    } else {
      var init := b[..|b| - 1];
      assert (a + b)[..|a + b| - 1] == a + init;
      assert (a + b)[|a + b| - 1] == b[|b| - 1];
      SurvivorsAppend(a, init, lo, hi);
    }
  }

  /** A single row survives exactly when lo <= its normalised luminosity <= hi, both bounds inclusive. */
  lemma SurvivorsSingle(c: LumColor, lo: real, hi: real)
    ensures Survivors([c], lo, hi) ==
      if lo <= c.lum as real / 255.0 <= hi then [Normalize(c)] else []
  {
    assert [c][..0] == [];
  }

  /** Membership, both directions: exactly the in-range normalised rows survive. */
  lemma {:induction false} SurvivorsMembership(cs: seq<LumColor>, lo: real, hi: real, v: seq<real>)
    ensures v in Survivors(cs, lo, hi) <==>
      exists i :: 0 <= i < |cs| && v == Normalize(cs[i]) && lo <= Normalize(cs[i])[3] <= hi
    decreases |cs|
  {
    if cs != [] {
      var init, last := cs[..|cs| - 1], cs[|cs| - 1];
      SurvivorsMembership(init, lo, hi, v);
      if exists i :: 0 <= i < |cs| && v == Normalize(cs[i]) && lo <= Normalize(cs[i])[3] <= hi {
        var i :| 0 <= i < |cs| && v == Normalize(cs[i]) && lo <= Normalize(cs[i])[3] <= hi;
        if i < |init| {
          assert init[i] == cs[i];
        }
      }
      if exists i :: 0 <= i < |init| && v == Normalize(init[i]) && lo <= Normalize(init[i])[3] <= hi {
        var i :| 0 <= i < |init| && v == Normalize(init[i]) && lo <= Normalize(init[i])[3] <= hi;
        assert cs[i] == init[i];
      }
    }
  }

  lemma {:induction false} SurvivorsLength(cs: seq<LumColor>, lo: real, hi: real)
    ensures |Survivors(cs, lo, hi)| <= |cs|
    ensures forall k :: 0 <= k < |Survivors(cs, lo, hi)| ==> |Survivors(cs, lo, hi)[k]| == 4
    decreases |cs|
  {
    if cs != [] {
      SurvivorsLength(cs[..|cs| - 1], lo, hi);
    }
  }

  /** The position of entry i among m >= 2 entries. */
  function Position(i: nat, m: nat): real
    requires 2 <= m
  {
    i as real / (m - 1) as real
  }

  lemma DivideByPositive(a: real, b: real, d: real)
    requires 0.0 < d && a <= b
    ensures a / d <= b / d
    ensures a < b ==> a / d < b / d
  {
    var p, q := a / d, b / d;
    assert p * d == a && q * d == b;
    assert (q - p) * d == b - a;
  }

  lemma PositionsIncrease(m: nat)
    requires 2 <= m
    ensures forall i, j :: 0 <= i < j < m ==> Position(i, m) < Position(j, m)
  {
    forall i, j | 0 <= i < j < m ensures Position(i, m) < Position(j, m) {
      DivideByPositive(i as real, j as real, (m - 1) as real);
    }
  }

  lemma PositionsBounded(m: nat)
    requires 2 <= m
    ensures forall i :: 0 <= i < m ==> 0.0 <= Position(i, m) <= 1.0
  {
    var d := (m - 1) as real;
    forall i | 0 <= i < m ensures 0.0 <= Position(i, m) <= 1.0 {
      DivideByPositive(0.0, i as real, d);
      DivideByPositive(i as real, d, d);
    }
  }

  /** With m >= 2 entries the first sits at 0, the last at 1, and positions strictly increase within [0, 1]. */
  lemma PositionsSpan(m: nat)
    requires 2 <= m
    ensures Position(0, m) == 0.0 && Position(m - 1, m) == 1.0
    ensures forall i, j :: 0 <= i < j < m ==> Position(i, m) < Position(j, m)
    ensures forall i :: 0 <= i < m ==> 0.0 <= Position(i, m) <= 1.0
  {
    PositionsIncrease(m);
    PositionsBounded(m);
  }

  /** Three entries sit at 0, 1/2 and 1. */
  lemma PositionsOfThree()
    ensures [Position(0, 3), Position(1, 3), Position(2, 3)] == [0.0, 0.5, 1.0]
  {
  }

  /** Entry e at index i of m after the position is inserted in front and alpha 1 appended. */
  function Placed(e: seq<real>, i: nat, m: nat): seq<real>
    requires 2 <= m
  {
    [Position(i, m)] + e + [1.0]
  }

  /** Every entry given its position and alpha; undefined for exactly one entry (division by zero). */
  function LaidOut(es: seq<seq<real>>): seq<seq<real>>
    requires |es| != 1
  {
    seq(|es|, i requires 0 <= i < |es| => Placed(es[i], i, |es|))
  }

  /** A row of numbers as table cells. */
  function Cells(e: seq<real>): seq<Cell> {
    seq(|e|, k requires 0 <= k < |e| => Num(e[k]))
  }

  function Rows(es: seq<seq<real>>): seq<seq<Cell>> {
    seq(|es|, i requires 0 <= i < |es| => Cells(es[i]))
  }

  /** The table written by the ramp builder for entries es. */
  function RampTable(es: seq<seq<real>>): seq<seq<Cell>>
    requires |es| != 1
  {
    [Header] + Rows(LaidOut(es))
  }

  /**
   * The table's shape: the header is row 0, then one row per entry of six
   * values [pos, r, g, b, luminosity, 1] with pos = i / (m - 1).
   */
  lemma RampTableShape(es: seq<seq<real>>)
    requires |es| != 1
    requires forall i :: 0 <= i < |es| ==> |es[i]| == 4
    ensures |RampTable(es)| == |es| + 1
    ensures RampTable(es)[0] == Header && |Header| == 6
    ensures forall i :: 0 <= i < |es| ==>
      |RampTable(es)[i + 1]| == 6 &&
      RampTable(es)[i + 1][0] == Num(Position(i, |es|)) &&
      RampTable(es)[i + 1][1..5] == Cells(es[i]) &&
      RampTable(es)[i + 1][5] == Num(1.0)
  {
    forall i | 0 <= i < |es|
      ensures RampTable(es)[i + 1][1..5] == Cells(es[i])
    {
      assert RampTable(es)[i + 1] == Cells(Placed(es[i], i, |es|));
    }
  }
}
