/**
 * RealDSum (src/modules/bugs/samplers/RealDSum.cc): the random-walk step
 * for a matrix of real values whose row sums are fixed. It picks a row
 * and two columns and moves a normal amount from one cell to the other.
 */
module RealDSums {
  import opened Numeric
  import opened RWDSums
  import opened Matrices
  import Rng

  /** The row, the two columns and the amount one step uses. */
  datatype Choice = Choice(r: nat, c1: nat, c2: nat, eps: real)

  /** The normal draw z scaled by the step size s. */
  function Scale(z: real, s: real): real { z * s }

  /** The draws of step: a row pick, two column picks and one normal. */
  function ChooseSpec(nrow: nat, ncol: nat, s: real, rng: Rng.RNG): (Choice, Rng.RNG)
    requires ncol >= 1
  {
    var r := PickOf(Scaled(rng.Uniform(), nrow));
    var g1 := rng.Next();
    var c1 := PickOf(Scaled(g1.Uniform(), ncol));
    var g2 := g1.Next();
    var second := PickOf(Scaled(g2.Uniform(), ncol - 1));
    var c2 := if second >= c1 then second + 1 else second;
    var g3 := g2.Next();
    (Choice(r, c1, c2, Scale(g3.Normal(), s)), g3.Next())
  }

  /** A row in range and two distinct columns in range (so both cells lie in the matrix). */
  predicate WellChosen(ch: Choice, nrow: nat, ncol: nat)
  {
    ch.r < nrow && ch.c1 < ncol && ch.c2 < ncol && ch.c1 != ch.c2 && CellsInRange(nrow, ncol, ch)
  }

  /** Whether both cells' positions lie inside the nrow x ncol value. */
  predicate CellsInRange(nrow: nat, ncol: nat, ch: Choice)
  {
    var (a, b) := Cells(nrow, ch);
    a < nrow * ncol && b < nrow * ncol
  }

  /** A row and columns in range put the cells in range. */
  lemma CellsInside(nrow: nat, ncol: nat, ch: Choice)
    requires ch.r < nrow && ch.c1 < ncol && ch.c2 < ncol
    ensures CellsInRange(nrow, ncol, ch)
  {
    IdxBound(nrow, ncol, ch.r, ch.c1);
    IdxBound(nrow, ncol, ch.r, ch.c2);
  }

  lemma ChooseWellChosen(nrow: nat, ncol: nat, s: real, rng: Rng.RNG)
    requires rng.Valid() && nrow >= 1 && ncol >= 2
    ensures WellChosen(ChooseSpec(nrow, ncol, s, rng).0, nrow, ncol)
  {
    PickInRange(nrow, rng);
    PickInRange(ncol, rng.Next());
    PickInRange(ncol - 1, rng.Next().Next());
    CellsInside(nrow, ncol, ChooseSpec(nrow, ncol, s, rng).0);
  }

  /**
   * With one column, the second column pick is pick(0) = 0 moved past
   * column 0: column 1, so cell (r, c2) lies past the end of the value and
   * every step writes out of range.
   */
  lemma OneColumnOutside(nrow: nat, s: real, rng: Rng.RNG)
    requires rng.Valid()
    ensures ChooseSpec(nrow, 1, s, rng).0.c2 == 1
    ensures !CellsInRange(nrow, 1, ChooseSpec(nrow, 1, s, rng).0)
  {
    PickInRange(1, rng.Next());
    var ch := ChooseSpec(nrow, 1, s, rng).0;
    assert Idx(nrow, ch.r, ch.c2) >= nrow;
  }

  /** The picks of step and the normal draw, in the source's order. */
  method Choose(nrow: nat, ncol: nat, s: real, rng: Rng.RNG) returns (ch: Choice, rng': Rng.RNG)
    requires ncol >= 1
    ensures (ch, rng') == ChooseSpec(nrow, ncol, s, rng)
  {
    var r, c1, c2, g;
    r, g := Pick(nrow, rng);
    c1, g := Pick(ncol, g);
    c2, g := Pick(ncol - 1, g);
    if c2 >= c1 {
      c2 := c2 + 1;
    }
    var eps := Scale(g.Normal(), s);
    rng' := g.Next();
    ch := Choice(r, c1, c2, eps);
  }

  /** The positions of (r, c1) and (r, c2). */
  function Cells(nrow: nat, ch: Choice): (nat, nat)
  {
    (Idx(nrow, ch.r, ch.c1), Idx(nrow, ch.r, ch.c2))
  }

  /** The two cells' positions are in range and distinct. */
  lemma CellsDistinct(nrow: nat, ncol: nat, ch: Choice)
    requires WellChosen(ch, nrow, ncol)
    ensures var (a, b) := Cells(nrow, ch); a < nrow * ncol && b < nrow * ncol && a != b
  {
    IdxInjective(nrow, ch.r, ch.c1, ch.r, ch.c2);
  }

  /** The new value: the two updates of step in order, +eps at (r, c1) and -eps at (r, c2). */
  function Transfer(v: seq<real>, nrow: nat, ncol: nat, ch: Choice): (w: seq<real>)
    requires |v| == nrow * ncol && CellsInRange(nrow, ncol, ch)
    ensures |w| == |v|
  {
    var (a, b) := Cells(nrow, ch);
    var v1 := v[a := v[a] + ch.eps];
    v1[b := v1[b] - ch.eps]
  }

  /** The two updates of step, in place. */
  method Apply(value: array<real>, nrow: nat, ncol: nat, ch: Choice)
    requires CellsInRange(nrow, ncol, ch) && value.Length == nrow * ncol
    modifies value
    ensures value[..] == Transfer(old(value[..]), nrow, ncol, ch)
  {
    var (a, b) := Cells(nrow, ch);
    value[a] := value[a] + ch.eps;
    value[b] := value[b] - ch.eps;
  }

  /**
   * step, in place: the picks, then the two updates. The source does not
   * check the shape: with one column (or no rows) a cell lies outside the
   * value, and writing there is undefined behaviour. The model then writes
   * nothing and reports it (written is false). A matrix with at least one
   * row and two columns is always written.
   */
  method Step(value: array<real>, nrow: nat, ncol: nat, s: real, rng: Rng.RNG) returns (ch: Choice, rng': Rng.RNG, written: bool)
    requires rng.Valid() && ncol >= 1 && value.Length == nrow * ncol
    modifies value
    ensures (ch, rng') == ChooseSpec(nrow, ncol, s, rng)
    ensures written <==> CellsInRange(nrow, ncol, ch)
    ensures written ==> value[..] == Transfer(old(value[..]), nrow, ncol, ch)
    ensures !written ==> value[..] == old(value[..])
    ensures nrow >= 1 && ncol >= 2 ==> written && WellChosen(ch, nrow, ncol)
  {
    ch, rng' := Choose(nrow, ncol, s, rng);
    if nrow >= 1 && ncol >= 2 {
      ChooseWellChosen(nrow, ncol, s, rng);
    }
    written := CellsInRange(nrow, ncol, ch);
    if written {
      Apply(value, nrow, ncol, ch);
    }
  }

  /** The change step makes at cell (r, c). */
  function Delta(ch: Choice, r: nat, c: nat): real
  {
    if r == ch.r && c == ch.c1 then ch.eps
    else if r == ch.r && c == ch.c2 then -ch.eps
    else 0.0
  }

  /** Only cells (r, c1) and (r, c2) change, by +eps and -eps. */
  lemma TransferCells(v: seq<real>, nrow: nat, ncol: nat, ch: Choice, r: nat, c: nat)
    requires |v| == nrow * ncol && WellChosen(ch, nrow, ncol) && r < nrow && c < ncol
    ensures Idx(nrow, r, c) < |v| && Transfer(v, nrow, ncol, ch)[Idx(nrow, r, c)] == v[Idx(nrow, r, c)] + Delta(ch, r, c)
  {
    IdxBound(nrow, ncol, r, c);
    CellsDistinct(nrow, ncol, ch);
    var (a, b) := Cells(nrow, ch);
    var k := Idx(nrow, r, c);
    IdxInjective(nrow, r, c, ch.r, ch.c1);
    IdxInjective(nrow, r, c, ch.r, ch.c2);
    var w := Transfer(v, nrow, ncol, ch);
    assert w == v[a := v[a] + ch.eps][b := v[b] - ch.eps];
    if k == a {
      assert w[k] == v[k] + ch.eps;
    } else if k == b {
      assert w[k] == v[k] - ch.eps;
    } else {
      assert w[k] == v[k];
    }
  }

  /** step keeps every row sum. */
  lemma TransferKeepsRowSums(v: seq<real>, nrow: nat, ncol: nat, ch: Choice, r: nat)
    requires |v| == nrow * ncol && WellChosen(ch, nrow, ncol) && r < nrow
    ensures Sum(Row(Transfer(v, nrow, ncol, ch), nrow, ncol, r)) == Sum(Row(v, nrow, ncol, r))
  {
    var w := Transfer(v, nrow, ncol, ch);
    var row := Row(v, nrow, ncol, r);
    var e := if r == ch.r then ch.eps else 0.0;
    forall c | 0 <= c < ncol
      ensures Row(w, nrow, ncol, r)[c] == row[c] + (if c == ch.c1 then e else if c == ch.c2 then -e else 0.0)
    {
      TransferCells(v, nrow, ncol, ch, r, c);
    }
    assert Row(w, nrow, ncol, r) == row[ch.c1 := row[ch.c1] + e][ch.c2 := row[ch.c2] - e];
    SumTransfer(row, ch.c1, ch.c2, e);
  }

  /** step keeps the sum of all elements. */
  lemma TransferKeepsTotal(v: seq<real>, nrow: nat, ncol: nat, ch: Choice)
    requires |v| == nrow * ncol && WellChosen(ch, nrow, ncol)
    ensures Sum(Transfer(v, nrow, ncol, ch)) == Sum(v)
  {
    TotalOfTransfer(v, nrow, ncol, ch, Transfer(v, nrow, ncol, ch));
  }

  lemma TotalOfTransfer(v: seq<real>, nrow: nat, ncol: nat, ch: Choice, w: seq<real>)
    requires |v| == nrow * ncol && WellChosen(ch, nrow, ncol) && w == Transfer(v, nrow, ncol, ch)
    ensures Sum(w) == Sum(v)
  {
    CellsDistinct(nrow, ncol, ch);
    var a := Idx(nrow, ch.r, ch.c1);
    var b := Idx(nrow, ch.r, ch.c2);
    TransferUpdates(v, nrow, ncol, ch, a, b);
    SumTransfer(v, a, b, ch.eps);
  }

  /** Transfer at the two cells' positions a and b. */
  lemma TransferUpdates(v: seq<real>, nrow: nat, ncol: nat, ch: Choice, a: nat, b: nat)
    requires |v| == nrow * ncol && WellChosen(ch, nrow, ncol)
    requires (a, b) == Cells(nrow, ch) && a < |v| && b < |v|
    ensures Transfer(v, nrow, ncol, ch) == v[a := v[a] + ch.eps][b := v[b] - ch.eps]
  {
  }
}
