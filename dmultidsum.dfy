/**
 * DMultiDSum (src/modules/bugs/samplers/DMultiDSum.cc): the random-walk
 * step for a matrix of discrete values whose row and column sums are
 * fixed. It picks two rows and two columns and moves an integer amount
 * around the four corners they define.
 */
module DMultiDSums {
  import opened Numeric
  import opened RWDSums
  import opened Matrices
  import Rng

  /** The rows, columns and integer increment one step uses. */
  datatype Choice = Choice(r1: nat, r2: nat, c1: nat, c2: nat, inc: real)

  /** The second pick skips the first: pick(n - 1), then ++ if >= first. */
  function Other(first: nat, second: nat): nat
  {
    if second >= first then second + 1 else second
  }

  /** Two picks, the second over the n - 1 values other than the first. */
  function TwoPicks(n: nat, rng: Rng.RNG): (nat, nat, Rng.RNG)
    requires n >= 1
  {
    var i := PickOf(Scaled(rng.Uniform(), n));
    var g := rng.Next();
    (i, Other(i, PickOf(Scaled(g.Uniform(), n - 1))), g.Next())
  }

  /** For n >= 2 the two picks are distinct and both in [0, n - 1]. */
  lemma TwoPicksDistinct(n: nat, rng: Rng.RNG)
    requires rng.Valid() && n >= 2
    ensures var (i, j, _) := TwoPicks(n, rng); i < n && j < n && i != j
  {
    PickInRange(n, rng);
    PickInRange(n - 1, rng.Next());
  }

  /** The draws of step: two row picks, two column picks and one normal. */
  function ChooseSpec(nrow: nat, ncol: nat, s: real, rng: Rng.RNG): (Choice, Rng.RNG)
    requires nrow >= 1 && ncol >= 1
  {
    var rows := TwoPicks(nrow, rng);
    var cols := TwoPicks(ncol, rows.2);
    (Choice(rows.0, rows.1, cols.0, cols.1, Increment(cols.2.Normal(), s)), cols.2.Next())
  }

  /**
   * static_cast<int>(fabs(eps)) + 1 for eps = z * s, z a normal draw and
   * s the step size: an integer of at least 1.
   */
  function Increment(z: real, s: real): (inc: real)
    ensures inc >= 1.0 && IsIntegral(inc)
  {
    var n := TruncToInt(Abs(z * s)) + 1;
    assert IsIntegral(n as real);
    n as real
  }

  /**
   * Two distinct rows and two distinct columns in range, and an integer
   * increment of at least 1 (the four corners then lie in the matrix).
   */
  predicate WellChosen(ch: Choice, nrow: nat, ncol: nat)
  {
    && ch.r1 < nrow && ch.r2 < nrow && ch.r1 != ch.r2
    && ch.c1 < ncol && ch.c2 < ncol && ch.c1 != ch.c2
    && ch.inc >= 1.0 && IsIntegral(ch.inc)
    && CornersInRange(nrow, ncol, ch)
  }

  /** Whether all four corners' positions lie inside the nrow x ncol value. */
  predicate CornersInRange(nrow: nat, ncol: nat, ch: Choice)
  {
    var (a, b, c, d) := Corners(nrow, ch);
    a < nrow * ncol && b < nrow * ncol && c < nrow * ncol && d < nrow * ncol
  }

  /** Rows and columns in range put the corners in range. */
  lemma CornersInside(nrow: nat, ncol: nat, ch: Choice)
    requires ch.r1 < nrow && ch.r2 < nrow && ch.c1 < ncol && ch.c2 < ncol
    ensures CornersInRange(nrow, ncol, ch)
  {
    IdxBound(nrow, ncol, ch.r1, ch.c1);
    IdxBound(nrow, ncol, ch.r2, ch.c1);
    IdxBound(nrow, ncol, ch.r1, ch.c2);
    IdxBound(nrow, ncol, ch.r2, ch.c2);
  }

  /** For a matrix of at least 2 x 2 every step's choice is well formed. */
  lemma ChooseWellChosen(nrow: nat, ncol: nat, s: real, rng: Rng.RNG)
    requires rng.Valid() && nrow >= 2 && ncol >= 2
    ensures WellChosen(ChooseSpec(nrow, ncol, s, rng).0, nrow, ncol)
  {
    TwoPicksDistinct(nrow, rng);
    var g1 := TwoPicks(nrow, rng).2;
    TwoPicksDistinct(ncol, g1);
    CornersInside(nrow, ncol, ChooseSpec(nrow, ncol, s, rng).0);
  }

  /**
   * With one row, the second row pick is pick(0) = 0 moved past row 0:
   * row 1, one past the last row.
   */
  lemma OneRowSecondRow(ncol: nat, s: real, rng: Rng.RNG)
    requires rng.Valid() && ncol >= 1
    ensures ChooseSpec(1, ncol, s, rng).0.r1 == 0 && ChooseSpec(1, ncol, s, rng).0.r2 == 1
  {
    PickInRange(1, rng);
  }

  /**
   * With one column, the second column pick is column 1, so corner
   * (r2, c2) lies past the end of the value: every step writes out of range.
   */
  lemma OneColumnOutside(nrow: nat, s: real, rng: Rng.RNG)
    requires rng.Valid() && nrow >= 1
    ensures !CornersInRange(nrow, 1, ChooseSpec(nrow, 1, s, rng).0)
  {
    var rows := TwoPicks(nrow, rng);
    PickInRange(1, rows.2);
    var ch := ChooseSpec(nrow, 1, s, rng).0;
    assert ch.c2 == 1;
    assert Idx(nrow, ch.r2, ch.c2) >= nrow;
  }

  /** Two picks of step: pick(n), then pick(n - 1) moved past the first. */
  method PickTwo(n: nat, rng: Rng.RNG) returns (i: nat, j: nat, rng': Rng.RNG)
    requires n >= 1
    ensures (i, j, rng') == TwoPicks(n, rng)
  {
    var g;
    i, g := Pick(n, rng);
    var second;
    second, rng' := Pick(n - 1, g);
    j := Other(i, second);
  }

  /** The increment of step, from one normal draw scaled by s. */
  method DrawIncrement(s: real, rng: Rng.RNG) returns (inc: real, rng': Rng.RNG)
    ensures inc == Increment(rng.Normal(), s) && rng' == rng.Next()
  {
    var inteps := Increment(rng.Normal(), s);
    return inteps, rng.Next();
  }

  /** The picks of step: four picks and the normal draw, in the source's order. */
  method Choose(nrow: nat, ncol: nat, s: real, rng: Rng.RNG) returns (ch: Choice, rng': Rng.RNG)
    requires nrow >= 1 && ncol >= 1
    ensures (ch, rng') == ChooseSpec(nrow, ncol, s, rng)
  {
    var r1, r2, g := PickTwo(nrow, rng);
    var c1, c2;
    c1, c2, g := PickTwo(ncol, g);
    var inteps;
    inteps, rng' := DrawIncrement(s, g);
    ch := Choice(r1, r2, c1, c2, inteps);
  }

  /** The four corners' positions are in range and pairwise distinct. */
  lemma CornersDistinct(nrow: nat, ncol: nat, ch: Choice)
    requires WellChosen(ch, nrow, ncol)
    ensures var (a, b, c, d) := Corners(nrow, ch);
      && a < nrow * ncol && b < nrow * ncol && c < nrow * ncol && d < nrow * ncol
      && a != b && a != c && a != d && b != c && b != d && c != d
  {
    IdxInjective(nrow, ch.r1, ch.c1, ch.r2, ch.c1);
    IdxInjective(nrow, ch.r1, ch.c1, ch.r1, ch.c2);
    IdxInjective(nrow, ch.r1, ch.c1, ch.r2, ch.c2);
    IdxInjective(nrow, ch.r2, ch.c1, ch.r1, ch.c2);
    IdxInjective(nrow, ch.r2, ch.c1, ch.r2, ch.c2);
    IdxInjective(nrow, ch.r1, ch.c2, ch.r2, ch.c2);
  }

  /** The positions of (r1, c1), (r2, c1), (r1, c2) and (r2, c2). */
  function Corners(nrow: nat, ch: Choice): (nat, nat, nat, nat)
  {
    (Idx(nrow, ch.r1, ch.c1), Idx(nrow, ch.r2, ch.c1), Idx(nrow, ch.r1, ch.c2), Idx(nrow, ch.r2, ch.c2))
  }

  /**
   * The new value: the four updates of step in order, +inc at (r1, c1),
   * -inc at (r2, c1), -inc at (r1, c2) and +inc at (r2, c2).
   */
  function Exchange(v: seq<real>, nrow: nat, ncol: nat, ch: Choice): (w: seq<real>)
    requires |v| == nrow * ncol && CornersInRange(nrow, ncol, ch)
    ensures |w| == |v|
  {
    var (a, b, c, d) := Corners(nrow, ch);
    var v1 := v[a := v[a] + ch.inc];
    var v2 := v1[b := v1[b] - ch.inc];
    var v3 := v2[c := v2[c] - ch.inc];
    v3[d := v3[d] + ch.inc]
  }

  /** The four updates of step, in place. */
  method Apply(value: array<real>, nrow: nat, ncol: nat, ch: Choice)
    requires CornersInRange(nrow, ncol, ch) && value.Length == nrow * ncol
    modifies value
    ensures value[..] == Exchange(old(value[..]), nrow, ncol, ch)
  {
    var (a, b, c, d) := Corners(nrow, ch);
    value[a] := value[a] + ch.inc;
    value[b] := value[b] - ch.inc;
    value[c] := value[c] - ch.inc;
    value[d] := value[d] + ch.inc;
  }

  /**
   * step, in place: the picks above, then the four updates of the chosen
   * corners. The source does not check the shape: with one row or one
   * column a corner can lie outside the value, and writing there is
   * undefined behaviour. The model then writes nothing and reports it
   * (written is false). A matrix of at least 2 x 2 is always written.
   */
  method Step(value: array<real>, nrow: nat, ncol: nat, s: real, rng: Rng.RNG) returns (ch: Choice, rng': Rng.RNG, written: bool)
    requires rng.Valid() && nrow >= 1 && ncol >= 1 && value.Length == nrow * ncol
    modifies value
    ensures (ch, rng') == ChooseSpec(nrow, ncol, s, rng)
    ensures written <==> CornersInRange(nrow, ncol, ch)
    ensures written ==> value[..] == Exchange(old(value[..]), nrow, ncol, ch)
    ensures !written ==> value[..] == old(value[..])
    ensures nrow >= 2 && ncol >= 2 ==> written && WellChosen(ch, nrow, ncol)
  {
    ch, rng' := Choose(nrow, ncol, s, rng);
    if nrow >= 2 && ncol >= 2 {
      ChooseWellChosen(nrow, ncol, s, rng);
    }
    written := CornersInRange(nrow, ncol, ch);
    if written {
      Apply(value, nrow, ncol, ch);
    }
  }

  /** The change step makes at cell (r, c). */
  function Delta(ch: Choice, r: nat, c: nat): real
  {
    if (r == ch.r1 && c == ch.c1) || (r == ch.r2 && c == ch.c2) then ch.inc
    else if (r == ch.r2 && c == ch.c1) || (r == ch.r1 && c == ch.c2) then -ch.inc
    else 0.0
  }

  /**
   * Exactly the four chosen cells change, by +inc or -inc; every other
   * cell keeps its value.
   */
  lemma ExchangeCells(v: seq<real>, nrow: nat, ncol: nat, ch: Choice, r: nat, c: nat)
    requires |v| == nrow * ncol && WellChosen(ch, nrow, ncol) && r < nrow && c < ncol
    ensures Idx(nrow, r, c) < |v| && Exchange(v, nrow, ncol, ch)[Idx(nrow, r, c)] == v[Idx(nrow, r, c)] + Delta(ch, r, c)
  {
    IdxBound(nrow, ncol, r, c);
    CornersDistinct(nrow, ncol, ch);
    var (a, b, cc, d) := Corners(nrow, ch);
    var k := Idx(nrow, r, c);
    IdxInjective(nrow, r, c, ch.r1, ch.c1);
    IdxInjective(nrow, r, c, ch.r2, ch.c1);
    IdxInjective(nrow, r, c, ch.r1, ch.c2);
    IdxInjective(nrow, r, c, ch.r2, ch.c2);
    var w := Exchange(v, nrow, ncol, ch);
    assert w == v[a := v[a] + ch.inc][b := v[b] - ch.inc][cc := v[cc] - ch.inc][d := v[d] + ch.inc];
    if k == a {
      assert w[k] == v[k] + ch.inc;
    } else if k == b {
      assert w[k] == v[k] - ch.inc;
    } else if k == cc {
      assert w[k] == v[k] - ch.inc;
    } else if k == d {
      assert w[k] == v[k] + ch.inc;
    } else {
      assert w[k] == v[k];
    }
  }

  /** Moving e from one element to another keeps the sum. */
  lemma SumShifted(x: seq<real>, y: seq<real>, i: nat, j: nat, e: real)
    requires |y| == |x| && i < |x| && j < |x| && i != j
    requires forall k :: 0 <= k < |x| ==> y[k] == x[k] + (if k == i then e else if k == j then -e else 0.0)
    ensures Sum(y) == Sum(x)
  {
    assert y == x[i := x[i] + e][j := x[j] - e];
    SumTransfer(x, i, j, e);
  }

  /** step keeps every row sum. */
  lemma ExchangeKeepsRowSums(v: seq<real>, nrow: nat, ncol: nat, ch: Choice, r: nat)
    requires |v| == nrow * ncol && WellChosen(ch, nrow, ncol) && r < nrow
    ensures Sum(Row(Exchange(v, nrow, ncol, ch), nrow, ncol, r)) == Sum(Row(v, nrow, ncol, r))
  {
    var w := Exchange(v, nrow, ncol, ch);
    var row := Row(v, nrow, ncol, r);
    var e := if r == ch.r1 then ch.inc else if r == ch.r2 then -ch.inc else 0.0;
    forall c | 0 <= c < ncol
      ensures Row(w, nrow, ncol, r)[c] == row[c] + (if c == ch.c1 then e else if c == ch.c2 then -e else 0.0)
    {
      ExchangeCells(v, nrow, ncol, ch, r, c);
    }
    SumShifted(row, Row(w, nrow, ncol, r), ch.c1, ch.c2, e);
  }

  /** step keeps every column sum. */
  lemma ExchangeKeepsColSums(v: seq<real>, nrow: nat, ncol: nat, ch: Choice, c: nat)
    requires |v| == nrow * ncol && WellChosen(ch, nrow, ncol) && c < ncol
    ensures Sum(Col(Exchange(v, nrow, ncol, ch), nrow, ncol, c)) == Sum(Col(v, nrow, ncol, c))
  {
    var w := Exchange(v, nrow, ncol, ch);
    var col := Col(v, nrow, ncol, c);
    var e := if c == ch.c1 then ch.inc else if c == ch.c2 then -ch.inc else 0.0;
    forall r | 0 <= r < nrow
      ensures Col(w, nrow, ncol, c)[r] == col[r] + (if r == ch.r1 then e else if r == ch.r2 then -e else 0.0)
    {
      ExchangeCells(v, nrow, ncol, ch, r, c);
    }
    SumShifted(col, Col(w, nrow, ncol, c), ch.r1, ch.r2, e);
  }

  /**
   * With one row the in-range steps break the column sums: the first
   * chosen column gains inc, or 2 * inc when the second column is just
   * before it.
   */
  lemma OneRowColumnGain(v: seq<real>, ncol: nat, ch: Choice)
    requires |v| == ncol && CornersInRange(1, ncol, ch)
    requires ch.r1 == 0 && ch.r2 == 1 && ch.c1 != ch.c2
    ensures ch.c1 < ncol
    ensures Exchange(v, 1, ncol, ch)[ch.c1] == v[ch.c1] + (if ch.c2 + 1 == ch.c1 then 2.0 * ch.inc else ch.inc)
  {
    var (a, b, c, d) := Corners(1, ch);
    assert a == ch.c1 && b == ch.c1 + 1 && c == ch.c2 && d == ch.c2 + 1;
  }

  /**
   * So a step on a one-row matrix that stays in range changes the sum of
   * its first chosen column, which step is meant to keep.
   */
  lemma OneRowBreaksColumnSum(v: seq<real>, ncol: nat, s: real, rng: Rng.RNG)
    requires rng.Valid() && ncol >= 2 && |v| == ncol
    requires CornersInRange(1, ncol, ChooseSpec(1, ncol, s, rng).0)
    ensures var ch := ChooseSpec(1, ncol, s, rng).0;
      ch.c1 < ncol && Sum(Col(Exchange(v, 1, ncol, ch), 1, ncol, ch.c1)) != Sum(Col(v, 1, ncol, ch.c1))
  {
    var ch := ChooseSpec(1, ncol, s, rng).0;
    OneRowSecondRow(ncol, s, rng);
    TwoPicksDistinct(ncol, TwoPicks(1, rng).2);
    OneRowColumnGain(v, ncol, ch);
    var w := Exchange(v, 1, ncol, ch);
    assert Col(w, 1, ncol, ch.c1) == [w[ch.c1]];
    assert Col(v, 1, ncol, ch.c1) == [v[ch.c1]];
    SumCons(w[ch.c1], []);
    SumCons(v[ch.c1], []);
  }
}
