/**
 * DMT (src/modules/bugs/distributions/DMT.cc): the multivariate t
 * distribution with location mu, precision-like matrix T and k degrees
 * of freedom. Sampling reuses the multivariate normal draw of DMNorm.
 */
module DMTs {
  import opened Wrappers
  import opened Numeric
  import opened Dims
  import opened Matrices
  import opened Distributions
  import DMNorms
  import Rng

  const Name: string := "dmt"
  const NPar: nat := 3

  /** M_PI. */
  const Pi: real := 3.14159265358979323846

  /** checkParameterDim: a vector mu, a square T of the same size and a scalar k. */
  predicate CheckParameterDim(dims: seq<seq<nat>>)
    requires |dims| == 3
  {
    IsVector(dims[0]) && IsSquareMatrix(dims[1]) && dims[0][0] == dims[1][0] && IsScalar(dims[2])
  }

  /** dim: the value has mu's dimension. */
  function Dim(dims: seq<seq<nat>>): seq<nat>
    requires |dims| == 3
  {
    dims[0]
  }

  /**
   * Accepted dimensions give a value of length m > 1, an m x m matrix T
   * and a single degrees-of-freedom parameter.
   */
  lemma CheckedDimsFit(dims: seq<seq<nat>>)
    requires |dims| == 3 && CheckParameterDim(dims)
    ensures Product(Dim(dims)) > 1
    ensures Product(dims[1]) == Product(Dim(dims)) * Product(Dim(dims))
    ensures Product(dims[2]) == 1
  {
    assert dims[1][..1] == [dims[1][0]] && dims[1][..1][..0] == [];
  }

  /**
   * checkParameterValue: only the degrees of freedom are examined; at
   * least two of them make ip/k and rchisq(k) well defined.
   */
  function CheckParameterValue(mu: seq<real>, t: seq<real>, k: real): (ok: bool)
    ensures ok <==> k >= 2.0
    ensures ok ==> k > 0.0
  {
    k >= 2.0
  }

  /** support: the whole space, as for the multivariate normal. */
  method Support(lower: array<Ext>, upper: array<Ext>)
    requires lower != upper
    modifies lower, upper
    ensures forall i :: 0 <= i < lower.Length ==> lower[i] == NegInf
    ensures forall i :: 0 <= i < upper.Length ==> upper[i] == PosInf
  {
    DMNorms.Support(lower, upper);
  }

  /** The support does not depend on the parameters. */
  predicate IsSupportFixed(fixmask: seq<bool>)
  {
    true
  }

  /** delta[i] * T[i * m + j] * delta[j]: T read row by row, as Ti = T + i * m does. */
  function LowerTerm(delta: seq<real>, t: seq<real>, m: nat, i: nat, j: nat): real
    requires |delta| == m && |t| == m * m && i < m && j < m
  {
    2.0 * delta[i] * DMNorms.Entry(t, m, j, i) * delta[j]
  }

  /** The sum of LowerTerm(i, j) over j < k. */
  function LowerSum(delta: seq<real>, t: seq<real>, m: nat, i: nat, k: nat): real
    requires |delta| == m && |t| == m * m && i < m && k <= m
  {
    if k == 0 then 0.0 else LowerSum(delta, t, m, i, k - 1) + LowerTerm(delta, t, m, i, k - 1)
  }

  /** The inner product ip accumulated by logDensity over the first n rows. */
  function InnerProduct(delta: seq<real>, t: seq<real>, m: nat, n: nat): real
    requires |delta| == m && |t| == m * m && n <= m
  {
    if n == 0 then 0.0
    else InnerProduct(delta, t, m, n - 1) + DMNorms.Term(delta, t, m, n - 1, n - 1) + LowerSum(delta, t, m, n - 1, n - 1)
  }

  lemma LowerTermDoubles(delta: seq<real>, t: seq<real>, m: nat, i: nat, j: nat)
    requires |delta| == m && |t| == m * m && i < m && j < m && DMNorms.Symmetric(t, m)
    ensures LowerTerm(delta, t, m, i, j) == 2.0 * DMNorms.Term(delta, t, m, i, j)
  {
    var a, b, c := delta[i], DMNorms.Entry(t, m, i, j), delta[j];
    assert DMNorms.Entry(t, m, j, i) == b;
    assert 2.0 * a * b * c == 2.0 * (a * b * c);
  }

  lemma {:induction false} LowerSumDoubles(delta: seq<real>, t: seq<real>, m: nat, i: nat, k: nat)
    requires |delta| == m && |t| == m * m && i < m && k <= m && DMNorms.Symmetric(t, m)
    ensures LowerSum(delta, t, m, i, k) == 2.0 * DMNorms.RowSum(delta, t, m, i, k)
  {
    if k > 0 {
      LowerSumDoubles(delta, t, m, i, k - 1);
      LowerTermDoubles(delta, t, m, i, k - 1);
    }
  }

  /**
   * For a symmetric T the row-wise lower-triangle sum of logDensity is the
   * full quadratic form t(x - mu) T (x - mu).
   */
  lemma {:induction false} InnerProductIsQuadratic(delta: seq<real>, t: seq<real>, m: nat, n: nat)
    requires |delta| == m && |t| == m * m && n <= m && DMNorms.Symmetric(t, m)
    ensures InnerProduct(delta, t, m, n) == DMNorms.Quadratic(delta, t, m, n)
  {
    InnerProductDoublesHalf(delta, t, m, n);
    DMNorms.HalfQuadraticIsHalf(delta, t, m, n);
  }

  lemma {:induction false} InnerProductDoublesHalf(delta: seq<real>, t: seq<real>, m: nat, n: nat)
    requires |delta| == m && |t| == m * m && n <= m && DMNorms.Symmetric(t, m)
    ensures InnerProduct(delta, t, m, n) == -2.0 * DMNorms.HalfQuadratic(delta, t, m, n)
  {
    if n > 0 {
      InnerProductDoublesHalf(delta, t, m, n - 1);
      LowerSumDoubles(delta, t, m, n - 1, n - 1);
    }
  }

  /** The kernel -((k + d)/2) log(1 + ip/k). */
  function Kernel(ip: real, k: real, d: real, log: real -> real): real
    requires k > 0.0
  {
    -((k + d) / 2.0) * log(1.0 + ip / k)
  }

  /** logdet(T)/2 + lgamma((k + d)/2) - lgamma(k/2) - (d/2) log(k) - (d/2) log(pi). */
  function Normalising(t: seq<real>, k: real, d: real, log: real -> real, logdet: seq<real> -> real, lgamma: real -> real): real
  {
    logdet(t) / 2.0 + lgamma((k + d) / 2.0) - lgamma(k / 2.0) - (d / 2.0) * log(k) - (d / 2.0) * log(Pi)
  }

  /**
   * logDensity: the prior density is the kernel alone; the likelihood and
   * the full density add the normalising constant.
   */
  function LogDensitySpec(x: seq<real>, mu: seq<real>, t: seq<real>, k: real, m: nat, pdf: PDFType,
                          log: real -> real, logdet: seq<real> -> real, lgamma: real -> real): real
    requires |x| == m && |mu| == m && |t| == m * m && k > 0.0
  {
    var d := m as real;
    var kernel := Kernel(InnerProduct(DMNorms.Delta(x, mu), t, m, m), k, d, log);
    if pdf == PDFPrior then kernel
    else kernel + Normalising(t, k, d, log, logdet, lgamma)
  }

  /**
   * With a symmetric T the prior density is the kernel of the quadratic
   * form, the likelihood is the full density, and the full density
   * differs from the prior by a term that does not depend on x.
   */
  lemma LogDensityParts(x: seq<real>, x': seq<real>, mu: seq<real>, t: seq<real>, k: real, m: nat,
                        log: real -> real, logdet: seq<real> -> real, lgamma: real -> real)
    requires |x| == m && |x'| == m && |mu| == m && |t| == m * m && k > 0.0 && DMNorms.Symmetric(t, m)
    ensures LogDensitySpec(x, mu, t, k, m, PDFPrior, log, logdet, lgamma)
         == Kernel(DMNorms.Quadratic(DMNorms.Delta(x, mu), t, m, m), k, m as real, log)
    ensures LogDensitySpec(x, mu, t, k, m, PDFLikelihood, log, logdet, lgamma)
         == LogDensitySpec(x, mu, t, k, m, PDFFull, log, logdet, lgamma)
    ensures LogDensitySpec(x, mu, t, k, m, PDFFull, log, logdet, lgamma) - LogDensitySpec(x, mu, t, k, m, PDFPrior, log, logdet, lgamma)
         == LogDensitySpec(x', mu, t, k, m, PDFFull, log, logdet, lgamma) - LogDensitySpec(x', mu, t, k, m, PDFPrior, log, logdet, lgamma)
  {
    InnerProductIsQuadratic(DMNorms.Delta(x, mu), t, m, m);
  }

  method LogDensity(x: seq<real>, mu: seq<real>, t: seq<real>, k: real, m: nat, pdf: PDFType,
                    log: real -> real, logdet: seq<real> -> real, lgamma: real -> real) returns (r: real)
    requires |x| == m && |mu| == m && |t| == m * m && CheckParameterValue(mu, t, k)
    ensures r == LogDensitySpec(x, mu, t, k, m, pdf, log, logdet, lgamma)
  {
    var ip := AccumulateInnerProduct(x, mu, t, m);
    var d := m as real;
    r := Kernel(ip, k, d, log);
    if pdf != PDFPrior {
      r := r + Normalising(t, k, d, log, logdet, lgamma);
    }
  }

  /** The loops of logDensity that accumulate ip = t(x - mu) T (x - mu). */
  method AccumulateInnerProduct(x: seq<real>, mu: seq<real>, t: seq<real>, m: nat) returns (ip: real)
    requires |x| == m && |mu| == m && |t| == m * m
    ensures ip == InnerProduct(DMNorms.Delta(x, mu), t, m, m)
  {
    ghost var dl := DMNorms.Delta(x, mu);
    var delta := seq(m, i => 0.0);
    ip := 0.0;
    var i := 0;
    while i < m
      invariant i <= m && |delta| == m && delta[..i] == dl[..i] && ip == InnerProduct(dl, t, m, i)
    {
      delta := delta[i := x[i] - mu[i]];
      assert delta[..i + 1] == dl[..i + 1];
      ip := AddDiagonal(ip, delta, dl, t, m, i);
      ip := AddRow(ip, delta, dl, t, m, i);
      i := i + 1;
    }
  }

  /** The diagonal step of logDensity: adds delta[i] T[i * m + i] delta[i]. */
  method AddDiagonal(start: real, delta: seq<real>, ghost dl: seq<real>, t: seq<real>, m: nat, i: nat) returns (ip: real)
    requires |delta| == m && |dl| == m && |t| == m * m && i < m && delta[i] == dl[i]
    ensures ip == start + DMNorms.Term(dl, t, m, i, i)
  {
    IdxBound(m, m, i, i);
    ip := start + (delta[i] * t[i * m + i] * delta[i]);
  }

  /** The inner loop of logDensity: adds 2 delta[i] T[i * m + j] delta[j] for j < i. */
  method AddRow(start: real, delta: seq<real>, ghost dl: seq<real>, t: seq<real>, m: nat, i: nat) returns (ip: real)
    requires |delta| == m && |dl| == m && |t| == m * m && i < m && delta[..i + 1] == dl[..i + 1]
    ensures ip == start + LowerSum(dl, t, m, i, i)
  {
    ip := start;
    var j := 0;
    while j < i
      invariant j <= i && ip == start + LowerSum(dl, t, m, i, j)
    {
      IdxBound(m, m, j, i);
      assert delta[i] == dl[i] && delta[j] == dl[j];
      ip := ip + 2.0 * delta[i] * t[i * m + j] * delta[j];
      j := j + 1;
    }
  }

  /** x = mu + (z - mu) / c, element by element. */
  function Rescale(mu: seq<real>, z: seq<real>, c: real): (x: seq<real>)
    requires |z| == |mu| && c != 0.0
    ensures |x| == |z|
  {
    seq(|z|, i requires 0 <= i < |z| => Shrunk(mu[i], z[i], c))
  }

  /** m + (z - m) / c: z moved towards m by the factor 1 / c. */
  function Shrunk(m: real, z: real, c: real): real
    requires c != 0.0
  {
    m + (z - m) / c
  }

  /** A square root that is positive on positive numbers. */
  ghost predicate PositiveRoot(sqrt: real -> real)
  {
    forall c :: c > 0.0 ==> sqrt(c) > 0.0
  }

  /** The scale C = sqrt(rchisq(k) / k) of randomSample. */
  function Scale(k: real, sqrt: real -> real, rng: Rng.RNG): (c: real)
    requires k > 0.0 && rng.Valid() && PositiveRoot(sqrt)
    ensures c > 0.0
  {
    var chi := rng.ChiSq(k);
    assert chi / k > 0.0;
    sqrt(chi / k)
  }

  /**
   * randomSample: a multivariate normal draw z with mean mu and precision
   * T, then x = mu + (z - mu) / C for one chi-squared scale C.
   */
  function SampleSpec(mu: seq<real>, t: seq<real>, k: real, m: nat,
                      eigen: seq<real> -> (nat -> real, nat -> real), sqrt: real -> real, rng: Rng.RNG): (d: Rng.Draws)
    requires |mu| == m && DMNorms.RootsNonZero(eigen(t).0, m, sqrt)
    requires k > 0.0 && rng.Valid() && PositiveRoot(sqrt)
    ensures |d.x| == m
  {
    var z := DMNorms.DrawSpec(Some(mu), t, true, m, eigen, sqrt, rng);
    Rng.Draws(Rescale(mu, z.x, Scale(k, sqrt, z.rng)), z.rng.Next())
  }

  /**
   * The t draw is mu plus a zero-mean normal draw divided by the positive
   * scale C, so it is centred where the normal draw is.
   */
  lemma SampleCentred(mu: seq<real>, t: seq<real>, k: real, m: nat,
                      eigen: seq<real> -> (nat -> real, nat -> real), sqrt: real -> real, rng: Rng.RNG, i: nat)
    requires |mu| == m && DMNorms.RootsNonZero(eigen(t).0, m, sqrt)
    requires k > 0.0 && rng.Valid() && PositiveRoot(sqrt) && i < m
    ensures var c := Scale(k, sqrt, DMNorms.DrawSpec(None, t, true, m, eigen, sqrt, rng).rng);
            SampleSpec(mu, t, k, m, eigen, sqrt, rng).x[i]
            == mu[i] + DMNorms.DrawSpec(None, t, true, m, eigen, sqrt, rng).x[i] / c
  {
    DMNorms.DrawShift(mu, t, true, m, eigen, sqrt, rng, i);
  }

  method RandomSample(x: array<real>, mu: seq<real>, t: seq<real>, k: real, m: nat,
                      eigen: seq<real> -> (nat -> real, nat -> real), sqrt: real -> real, rng: Rng.RNG) returns (rng': Rng.RNG)
    requires x.Length == m && |mu| == m && DMNorms.RootsNonZero(eigen(t).0, m, sqrt)
    requires CheckParameterValue(mu, t, k) && rng.Valid() && PositiveRoot(sqrt)
    modifies x
    ensures Rng.Draws(x[..], rng') == SampleSpec(mu, t, k, m, eigen, sqrt, rng)
  {
    rng' := DMNorms.RandomSample(x, mu, t, m, eigen, sqrt, rng);
    var c := sqrt(rng'.ChiSq(k) / k);
    assert c == Scale(k, sqrt, rng');
    rng' := rng'.Next();
    RescaleInPlace(x, mu, c);
  }

  /** The final loop of randomSample: x[i] = mu[i] + (x[i] - mu[i]) / C. */
  method RescaleInPlace(x: array<real>, mu: seq<real>, c: real)
    requires x.Length == |mu| && c != 0.0
    modifies x
    ensures x[..] == Rescale(mu, old(x[..]), c)
  {
    ghost var z := x[..];
    var i := 0;
    while i < x.Length
      invariant i <= x.Length
      invariant forall j :: 0 <= j < i ==> x[j] == Shrunk(mu[j], z[j], c)
      invariant forall j :: i <= j < x.Length ==> x[j] == z[j]
    {
      x[i] := Shrunk(mu[i], x[i], c);
      i := i + 1;
    }
    assert x[..] == Rescale(mu, z, c);
  }
}
