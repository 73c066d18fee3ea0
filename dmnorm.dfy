/**
 * DMNorm (src/modules/bugs/distributions/DMNorm.cc): the multivariate
 * normal distribution with mean mu and precision matrix T, stored
 * column-major.
 */
module DMNorms {
  import opened Wrappers
  import opened Numeric
  import opened Dims
  import opened Matrices
  import opened Distributions
  import Rng

  const Name: string := "dmnorm"

  /** M_LN_SQRT_2PI, log(sqrt(2 pi)), as the R math library defines it. */
  const LnSqrt2Pi: real := 0.918938533204672741780329736406

  /**
   * checkParameterDim: a scalar mean with a scalar precision, or a
   * vector mean with a square precision of the same size.
   */
  predicate CheckParameterDim(dims: seq<seq<nat>>)
    requires |dims| == 2
  {
    (IsScalar(dims[0]) && IsScalar(dims[1]))
    || (IsVector(dims[0]) && IsSquareMatrix(dims[1]) && dims[0][0] == dims[1][0])
  }

  /** dim: the value has the mean's dimension. */
  function Dim(dims: seq<seq<nat>>): seq<nat>
    requires |dims| == 2
  {
    dims[0]
  }

  /** Accepted dimensions give an m x m precision for a value of length m. */
  lemma CheckedDimsFit(dims: seq<seq<nat>>)
    requires |dims| == 2 && CheckParameterDim(dims)
    ensures Product(dims[1]) == Product(Dim(dims)) * Product(Dim(dims))
  {
    if !IsScalar(dims[0]) {
      assert dims[1][..1] == [dims[1][0]] && dims[1][..1][..0] == [];
    }
  }

  /**
   * checkParameterValue: the precision must pass the symmetry test and
   * then the positive-definiteness test of the matrix library, both
   * taken as given functions of the n x n matrix.
   */
  function CheckParameterValue(t: seq<real>, n: nat, checkSymmetry: (seq<real>, nat) -> bool,
                               checkIspd: (seq<real>, nat) -> bool): (ok: bool)
    ensures ok <==> checkSymmetry(t, n) && checkIspd(t, n)
  {
    checkSymmetry(t, n) && checkIspd(t, n)
  }

  /** support: every element ranges over the whole line. */
  method Support(lower: array<Ext>, upper: array<Ext>)
    requires lower != upper
    modifies lower, upper
    ensures forall i :: 0 <= i < lower.Length ==> lower[i] == NegInf
    ensures forall i :: 0 <= i < upper.Length ==> upper[i] == PosInf
  {
    var i := 0;
    while i < lower.Length
      invariant i <= lower.Length && forall k :: 0 <= k < i ==> lower[k] == NegInf
    {
      lower[i] := NegInf;
      i := i + 1;
    }
    i := 0;
    while i < upper.Length
      invariant i <= upper.Length && forall k :: 0 <= k < i ==> upper[k] == PosInf
      invariant forall k :: 0 <= k < lower.Length ==> lower[k] == NegInf
    {
      upper[i] := PosInf;
      i := i + 1;
    }
  }

  /** The support does not depend on the parameters. */
  predicate IsSupportFixed(fixmask: seq<bool>)
  {
    true
  }

  /** typicalValue: the mean. */
  method TypicalValue(x: array<real>, mu: seq<real>)
    requires x.Length == |mu|
    modifies x
    ensures x[..] == mu
  {
    var i := 0;
    while i < x.Length
      invariant i <= x.Length && x[..i] == mu[..i]
    {
      x[i] := mu[i];
      assert x[..i + 1] == x[..i] + [x[i]];
      i := i + 1;
    }
    assert x[..] == x[..i];
  }

  /** Element (i, j) of the m x m matrix t. */
  function Entry(t: seq<real>, m: nat, i: nat, j: nat): real
    requires |t| == m * m && i < m && j < m
  {
    IdxBound(m, m, i, j);
    t[Idx(m, i, j)]
  }

  predicate Symmetric(t: seq<real>, m: nat)
    requires |t| == m * m
  {
    forall i, j :: 0 <= i < m && 0 <= j < m ==> Entry(t, m, i, j) == Entry(t, m, j, i)
  }

  /** delta[i] * T[i + j * m] * delta[j]. */
  function Term(delta: seq<real>, t: seq<real>, m: nat, i: nat, j: nat): real
    requires |delta| == m && |t| == m * m && i < m && j < m
  {
    delta[i] * Entry(t, m, i, j) * delta[j]
  }

  lemma TermSymmetric(delta: seq<real>, t: seq<real>, m: nat, i: nat, j: nat)
    requires |delta| == m && |t| == m * m && i < m && j < m && Symmetric(t, m)
    ensures Term(delta, t, m, i, j) == Term(delta, t, m, j, i)
  {
    var a, b, c := delta[i], Entry(t, m, i, j), delta[j];
    assert a * b * c == c * b * a;
  }

  /** The sum of Term(i, j) over j < k. */
  function RowSum(delta: seq<real>, t: seq<real>, m: nat, i: nat, k: nat): real
    requires |delta| == m && |t| == m * m && i < m && k <= m
  {
    if k == 0 then 0.0 else RowSum(delta, t, m, i, k - 1) + Term(delta, t, m, i, k - 1)
  }

  /** The sum of Term(i, j) over i < n. */
  function ColSum(delta: seq<real>, t: seq<real>, m: nat, n: nat, j: nat): real
    requires |delta| == m && |t| == m * m && n <= m && j < m
  {
    if n == 0 then 0.0 else ColSum(delta, t, m, n - 1, j) + Term(delta, t, m, n - 1, j)
  }

  /** The sum of RowSum(i, k) over i < n. */
  function Block(delta: seq<real>, t: seq<real>, m: nat, n: nat, k: nat): real
    requires |delta| == m && |t| == m * m && n <= m && k <= m
  {
    if n == 0 then 0.0 else Block(delta, t, m, n - 1, k) + RowSum(delta, t, m, n - 1, k)
  }

  /** The full quadratic form delta' T delta over the leading k x k block. */
  function Quadratic(delta: seq<real>, t: seq<real>, m: nat, k: nat): real
    requires |delta| == m && |t| == m * m && k <= m
  {
    Block(delta, t, m, k, k)
  }

  /**
   * What the loop of logDensity subtracts over the first k rows: half
   * the diagonal term and the whole strictly lower triangle of each.
   */
  function HalfQuadratic(delta: seq<real>, t: seq<real>, m: nat, k: nat): real
    requires |delta| == m && |t| == m * m && k <= m
  {
    if k == 0 then 0.0
    else HalfQuadratic(delta, t, m, k - 1) - Term(delta, t, m, k - 1, k - 1) / 2.0 - RowSum(delta, t, m, k - 1, k - 1)
  }

  lemma {:induction false} BlockExtend(delta: seq<real>, t: seq<real>, m: nat, n: nat, k: nat)
    requires |delta| == m && |t| == m * m && n <= m && k < m
    ensures Block(delta, t, m, n, k + 1) == Block(delta, t, m, n, k) + ColSum(delta, t, m, n, k)
  {
    if n > 0 {
      BlockExtend(delta, t, m, n - 1, k);
    }
  }

  lemma {:induction false} ColSumIsRowSum(delta: seq<real>, t: seq<real>, m: nat, n: nat, k: nat)
    requires |delta| == m && |t| == m * m && n <= k < m && Symmetric(t, m)
    ensures ColSum(delta, t, m, n, k) == RowSum(delta, t, m, k, n)
  {
    if n > 0 {
      ColSumIsRowSum(delta, t, m, n - 1, k);
      TermSymmetric(delta, t, m, n - 1, k);
    }
  }

  /**
   * For a symmetric precision the loop's lower-triangle sum is minus
   * half the full quadratic form.
   */
  lemma {:induction false} HalfQuadraticIsHalf(delta: seq<real>, t: seq<real>, m: nat, k: nat)
    requires |delta| == m && |t| == m * m && k <= m && Symmetric(t, m)
    ensures HalfQuadratic(delta, t, m, k) == -Quadratic(delta, t, m, k) / 2.0
  {
    if k > 0 {
      var j := k - 1;
      HalfQuadraticIsHalf(delta, t, m, j);
      BlockExtend(delta, t, m, j, j);
      ColSumIsRowSum(delta, t, m, j, j);
      assert Block(delta, t, m, k, k) == Block(delta, t, m, j, k) + RowSum(delta, t, m, j, k);
    }
  }

  /** x - mu. */
  function Delta(x: seq<real>, mu: seq<real>): (d: seq<real>)
    requires |x| == |mu|
    ensures |d| == |x|
  {
    seq(|x|, i requires 0 <= i < |x| => x[i] - mu[i])
  }

  /**
   * logDensity: minus half the quadratic form; the likelihood adds half
   * the log determinant of T and the full density also subtracts
   * m log(sqrt(2 pi)).
   */
  function LogDensitySpec(x: seq<real>, mu: seq<real>, t: seq<real>, m: nat, pdf: PDFType, logdet: seq<real> -> real): real
    requires |x| == m && |mu| == m && |t| == m * m
  {
    var quad := HalfQuadratic(Delta(x, mu), t, m, m);
    match pdf
    case PDFPrior => quad
    case PDFLikelihood => quad + logdet(t) / 2.0
    case PDFFull => quad + logdet(t) / 2.0 - m as real * LnSqrt2Pi
  }

  /** The three densities differ by the terms constant in x and in the parameters. */
  lemma PDFTypesDiffer(x: seq<real>, mu: seq<real>, t: seq<real>, m: nat, logdet: seq<real> -> real)
    requires |x| == m && |mu| == m && |t| == m * m && Symmetric(t, m)
    ensures LogDensitySpec(x, mu, t, m, PDFPrior, logdet) == -Quadratic(Delta(x, mu), t, m, m) / 2.0
    ensures LogDensitySpec(x, mu, t, m, PDFLikelihood, logdet) == LogDensitySpec(x, mu, t, m, PDFPrior, logdet) + logdet(t) / 2.0
    ensures LogDensitySpec(x, mu, t, m, PDFFull, logdet) == LogDensitySpec(x, mu, t, m, PDFLikelihood, logdet) - m as real * LnSqrt2Pi
  {
    HalfQuadraticIsHalf(Delta(x, mu), t, m, m);
  }

  method LogDensity(x: seq<real>, mu: seq<real>, t: seq<real>, m: nat, pdf: PDFType, logdet: seq<real> -> real) returns (loglik: real)
    requires |x| == m && |mu| == m && |t| == m * m
    ensures loglik == LogDensitySpec(x, mu, t, m, pdf, logdet)
  {
    ghost var d := Delta(x, mu);
    var delta := seq(m, i => 0.0);
    loglik := 0.0;
    var i := 0;
    while i < m
      invariant i <= m && |delta| == m && delta[..i] == d[..i] && loglik == HalfQuadratic(d, t, m, i)
    {
      delta := delta[i := x[i] - mu[i]];
      assert delta[..i + 1] == d[..i + 1];
      loglik := SubtractDiagonal(loglik, delta, d, t, m, i);
      loglik := SubtractRow(loglik, delta, d, t, m, i);
      i := i + 1;
    }
    if pdf == PDFLikelihood {
      loglik := loglik + logdet(t) / 2.0;
    } else if pdf == PDFFull {
      loglik := loglik + logdet(t) / 2.0 - m as real * LnSqrt2Pi;
    }
  }

  /** The diagonal step of logDensity: subtracts delta[i] T[i, i] delta[i] / 2. */
  method SubtractDiagonal(start: real, delta: seq<real>, ghost d: seq<real>, t: seq<real>, m: nat, i: nat) returns (loglik: real)
    requires |delta| == m && |d| == m && |t| == m * m && i < m && delta[i] == d[i]
    ensures loglik == start - Term(d, t, m, i, i) / 2.0
  {
    IdxBound(m, m, i, i);
    loglik := start - (delta[i] * t[i + i * m] * delta[i]) / 2.0;
  }

  /** The inner loop of logDensity: subtracts the strictly lower terms of row i. */
  method SubtractRow(start: real, delta: seq<real>, ghost d: seq<real>, t: seq<real>, m: nat, i: nat) returns (loglik: real)
    requires |delta| == m && |d| == m && |t| == m * m && i < m && delta[..i + 1] == d[..i + 1]
    ensures loglik == start - RowSum(d, t, m, i, i)
  {
    loglik := start;
    var j := 0;
    while j < i
      invariant j <= i && loglik == start - RowSum(d, t, m, i, j)
    {
      IdxBound(m, m, i, j);
      assert delta[i] == d[i] && delta[j] == d[j];
      loglik := loglik - (delta[i] * t[i + j * m] * delta[j]);
      j := j + 1;
    }
  }

  /** The standard deviation of eigen direction i: 1/sqrt(lambda) for a precision, sqrt(lambda) for a variance. */
  function Sd(prec: bool, lambda: real, sqrt: real -> real): real
    requires prec ==> sqrt(lambda) != 0.0
  {
    if prec then 1.0 / sqrt(lambda) else sqrt(lambda)
  }

  /** Eigenvalues have the non-zero square roots a positive definite matrix gives them. */
  ghost predicate RootsNonZero(lambda: nat -> real, n: nat, sqrt: real -> real)
  {
    forall i :: 0 <= i < n ==> sqrt(lambda(i)) != 0.0
  }

  /** rnorm(0, sd_i) for i = k .. n-1: sd_i times a standard normal draw. */
  function NormalDraws(prec: bool, lambda: nat -> real, sqrt: real -> real, k: nat, n: nat, rng: Rng.RNG): (d: Rng.Draws)
    requires k <= n && (prec ==> RootsNonZero(lambda, n, sqrt))
    ensures |d.x| == n - k
    decreases n - k
  {
    if k == n then Rng.Draws([], rng)
    else
      var rest := NormalDraws(prec, lambda, sqrt, k + 1, n, rng.Next());
      Rng.Draws([NormalDraw(prec, lambda(k), sqrt, rng)] + rest.x, rest.rng)
  }

  /** rnorm(0, sd) for the eigen direction with eigenvalue lambda. */
  function NormalDraw(prec: bool, lambda: real, sqrt: real -> real, rng: Rng.RNG): real
    requires prec ==> sqrt(lambda) != 0.0
  {
    Sd(prec, lambda, sqrt) * rng.Normal()
  }

  /** The normal draws keep the generator's guarantees. */
  lemma {:induction false} NormalDrawsValid(prec: bool, lambda: nat -> real, sqrt: real -> real, k: nat, n: nat, rng: Rng.RNG)
    requires k <= n && (prec ==> RootsNonZero(lambda, n, sqrt))
    ensures rng.Valid() ==> NormalDraws(prec, lambda, sqrt, k, n, rng).rng.Valid()
    decreases n - k
  {
    if k < n {
      NormalDrawsValid(prec, lambda, sqrt, k + 1, n, rng.Next());
    }
  }

  /** The terms V[i + j * nrow] * w[j] of element i. */
  function RowTerms(v: nat -> real, w: seq<real>, nrow: nat, i: nat): (ts: seq<real>)
    requires |w| == nrow
    ensures |ts| == nrow
  {
    seq(nrow, j requires 0 <= j < nrow => v(Idx(nrow, i, j)) * w[j])
  }

  /** mu[i], or 0 when there is no mean. */
  function Base(mu: Option<seq<real>>, i: nat): real
  {
    if mu.Some? && i < |mu.value| then mu.value[i] else 0.0
  }

  /**
   * randomsample: eigen(T) gives the eigenvalues and the column-major
   * eigenvectors V (DSYEV); the sample is mu + V w with w the scaled
   * normal draws.
   */
  function DrawSpec(mu: Option<seq<real>>, t: seq<real>, prec: bool, nrow: nat,
                    eigen: seq<real> -> (nat -> real, nat -> real), sqrt: real -> real, rng: Rng.RNG): (d: Rng.Draws)
    requires prec ==> RootsNonZero(eigen(t).0, nrow, sqrt)
    ensures |d.x| == nrow
    ensures rng.Valid() ==> d.rng.Valid()
  {
    var w := NormalDraws(prec, eigen(t).0, sqrt, 0, nrow, rng);
    NormalDrawsValid(prec, eigen(t).0, sqrt, 0, nrow, rng);
    Rng.Draws(seq(nrow, i requires 0 <= i < nrow => Base(mu, i) + Sum(RowTerms(eigen(t).1, w.x, nrow, i))), w.rng)
  }

  /** The draw moves with the mean: with a mean it is the mean plus the draw without one. */
  lemma DrawShift(mu: seq<real>, t: seq<real>, prec: bool, nrow: nat,
                  eigen: seq<real> -> (nat -> real, nat -> real), sqrt: real -> real, rng: Rng.RNG, i: nat)
    requires prec ==> RootsNonZero(eigen(t).0, nrow, sqrt)
    requires |mu| == nrow && i < nrow
    ensures DrawSpec(Some(mu), t, prec, nrow, eigen, sqrt, rng).x[i] == mu[i] + DrawSpec(None, t, prec, nrow, eigen, sqrt, rng).x[i]
    ensures DrawSpec(Some(mu), t, prec, nrow, eigen, sqrt, rng).rng == DrawSpec(None, t, prec, nrow, eigen, sqrt, rng).rng
  {
  }

  /** The draws of randomsample's second loop. */
  method DrawNormals(prec: bool, lambda: nat -> real, sqrt: real -> real, nrow: nat, rng: Rng.RNG) returns (w: seq<real>, rng': Rng.RNG)
    requires prec ==> RootsNonZero(lambda, nrow, sqrt)
    ensures Rng.Draws(w, rng') == NormalDraws(prec, lambda, sqrt, 0, nrow, rng)
  {
    ghost var all := NormalDraws(prec, lambda, sqrt, 0, nrow, rng);
    w := [];
    rng' := rng;
    var i := 0;
    while i < nrow
      invariant i <= nrow && w == all.x[..i]
      invariant NormalDraws(prec, lambda, sqrt, i, nrow, rng').x == all.x[i..]
      invariant NormalDraws(prec, lambda, sqrt, i, nrow, rng').rng == all.rng
    {
      var wi;
      wi, rng' := NormalStep(prec, lambda, sqrt, i, nrow, rng');
      assert all.x[i + 1..] == all.x[i..][1..];
      assert all.x[..i + 1] == all.x[..i] + [wi];
      w := w + [wi];
      i := i + 1;
    }
    assert all.x[..nrow] == all.x;
  }

  /** One draw: w[i] = rnorm(0, sd_i). */
  method NormalStep(prec: bool, lambda: nat -> real, sqrt: real -> real, i: nat, nrow: nat, rng: Rng.RNG) returns (wi: real, rng': Rng.RNG)
    requires i < nrow && (prec ==> RootsNonZero(lambda, nrow, sqrt))
    ensures NormalDraws(prec, lambda, sqrt, i, nrow, rng)
         == Rng.Draws([wi] + NormalDraws(prec, lambda, sqrt, i + 1, nrow, rng').x, NormalDraws(prec, lambda, sqrt, i + 1, nrow, rng').rng)
  {
    wi := NormalDraw(prec, lambda(i), sqrt, rng);
    rng' := rng.Next();
  }

  method DrawMNorm(x: array<real>, mu: Option<seq<real>>, t: seq<real>, prec: bool, nrow: nat,
                   eigen: seq<real> -> (nat -> real, nat -> real), sqrt: real -> real, rng: Rng.RNG) returns (rng': Rng.RNG)
    requires x.Length == nrow && (prec ==> RootsNonZero(eigen(t).0, nrow, sqrt))
    modifies x
    ensures Rng.Draws(x[..], rng') == DrawSpec(mu, t, prec, nrow, eigen, sqrt, rng)
  {
    var eig := eigen(t);
    var w;
    w, rng' := DrawNormals(prec, eig.0, sqrt, nrow, rng);
    Transform(x, mu, eig.1, w, nrow);
    assert x[..] == DrawSpec(mu, t, prec, nrow, eigen, sqrt, rng).x;
  }

  /** The third loop of randomsample: x = mu + V w, row by row. */
  method Transform(x: array<real>, mu: Option<seq<real>>, v: nat -> real, w: seq<real>, nrow: nat)
    requires x.Length == nrow && |w| == nrow
    modifies x
    ensures x[..] == seq(nrow, i requires 0 <= i < nrow => Base(mu, i) + Sum(RowTerms(v, w, nrow, i)))
  {
    var i := 0;
    while i < nrow
      invariant i <= nrow
      invariant forall k :: 0 <= k < i ==> x[k] == Base(mu, k) + Sum(RowTerms(v, w, nrow, k))
    {
      x[i] := if mu.Some? && i < |mu.value| then mu.value[i] else 0.0;
      AccumulateRow(x, v, w, nrow, i);
      i := i + 1;
    }
  }

  /** The inner loop of the transform: x[i] += V[i + j * nrow] * w[j] for each j. */
  method AccumulateRow(x: array<real>, v: nat -> real, w: seq<real>, nrow: nat, i: nat)
    requires |w| == nrow && i < x.Length
    modifies x
    ensures x[i] == old(x[i]) + Sum(RowTerms(v, w, nrow, i))
    ensures forall k :: 0 <= k < x.Length && k != i ==> x[k] == old(x[k])
  {
    ghost var ts := RowTerms(v, w, nrow, i);
    var j := 0;
    while j < nrow
      invariant j <= nrow && x[i] == old(x[i]) + Sum(ts[..j])
      invariant forall k :: 0 <= k < x.Length && k != i ==> x[k] == old(x[k])
    {
      SumPrefixStep(ts, j);
      assert i + j * nrow == Idx(nrow, i, j);
      x[i] := x[i] + v(i + j * nrow) * w[j];
      j := j + 1;
    }
    assert ts[..nrow] == ts;
  }

  /** randomSample: randomsample with the mean and the precision. */
  method RandomSample(x: array<real>, mu: seq<real>, t: seq<real>, m: nat,
                      eigen: seq<real> -> (nat -> real, nat -> real), sqrt: real -> real, rng: Rng.RNG) returns (rng': Rng.RNG)
    requires x.Length == m && |mu| == m && RootsNonZero(eigen(t).0, m, sqrt)
    modifies x
    ensures Rng.Draws(x[..], rng') == DrawSpec(Some(mu), t, true, m, eigen, sqrt, rng)
  {
    rng' := DrawMNorm(x, Some(mu), t, true, m, eigen, sqrt, rng);
  }
}
