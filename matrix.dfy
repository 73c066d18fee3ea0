/**
 * Column-major matrices stored as flat sequences, as JAGS stores every
 * array value: element (r, c) of a matrix with nrow rows sits at
 * position nrow * c + r.
 */
module Matrices {
  /** The position of element (r, c) of a column-major matrix with nrow rows. */
  function Idx(nrow: nat, r: nat, c: nat): nat
  {
    nrow * c + r
  }

  lemma IdxBound(nrow: nat, ncol: nat, r: nat, c: nat)
    requires r < nrow && c < ncol
    ensures Idx(nrow, r, c) < nrow * ncol
  {
    assert nrow * (c + 1) <= nrow * ncol by {
      MulMonotone(nrow, c + 1, ncol);
    }
  }

  lemma MulMonotone(k: nat, a: nat, b: nat)
    requires a <= b
    ensures k * a <= k * b
  {
    assert k * b == k * a + k * (b - a);
  }

  /** One past the last row of column c is the first row of column c + 1. */
  lemma IdxNextColumn(nrow: nat, c: nat)
    ensures Idx(nrow, nrow, c) == Idx(nrow, 0, c + 1)
  {
    assert nrow * (c + 1) == nrow * c + nrow;
  }

  /** Distinct cells have distinct positions. */
  lemma IdxInjective(nrow: nat, r: nat, c: nat, r': nat, c': nat)
    requires r < nrow && r' < nrow
    ensures Idx(nrow, r, c) == Idx(nrow, r', c') <==> r == r' && c == c'
  {
    if c < c' {
      MulMonotone(nrow, c + 1, c');
    } else if c' < c {
      MulMonotone(nrow, c' + 1, c);
    }
  }

  /** Row r of the matrix, left to right. */
  function Row(v: seq<real>, nrow: nat, ncol: nat, r: nat): (row: seq<real>)
    requires |v| == nrow * ncol && r < nrow
    ensures |row| == ncol
  {
    seq(ncol, c requires 0 <= c < ncol => IdxBound(nrow, ncol, r, c); v[Idx(nrow, r, c)])
  }

  /** Column c of the matrix, top to bottom. */
  function Col(v: seq<real>, nrow: nat, ncol: nat, c: nat): (col: seq<real>)
    requires |v| == nrow * ncol && c < ncol
    ensures |col| == nrow
  {
    seq(nrow, r requires 0 <= r < nrow => IdxBound(nrow, ncol, r, c); v[Idx(nrow, r, c)])
  }
}
