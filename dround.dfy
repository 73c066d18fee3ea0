/**
 * DRound (src/modules/bugs/distributions/DRound.cc): the degenerate
 * distribution of a value rounded to ndigits decimal places. Every member
 * is an expression over fround(t, ndigits), which is a parameter here.
 */
module DRounds {
  import opened Numeric
  import Rng

  const Name: string := "dround"
  const NPar: nat := 2

  /** value(par): the rounded parameter. */
  function Value(t: real, ndigits: real, fround: (real, real) -> real): real
  {
    fround(t, ndigits)
  }

  /** checkParameterValue: every parameter value is accepted. */
  predicate CheckParameterValue(t: real, ndigits: real)
  {
    true
  }

  /** checkParameterDiscrete: the number of digits must be an integer. */
  function CheckParameterDiscrete(mask: seq<bool>): (ok: bool)
    requires |mask| == 2
    ensures ok <==> mask[1]
  {
    mask[1]
  }

  /** logDensity: all the mass sits within tol of the rounded value. */
  function LogDensity(y: real, t: real, ndigits: real, fround: (real, real) -> real): (d: Ext)
    ensures d == Fin(0.0) || d == NegInf
    ensures d == Fin(0.0) <==> Abs(y - Value(t, ndigits, fround)) < Tolerance
  {
    if Abs(y - Value(t, ndigits, fround)) < Tolerance then Fin(0.0) else NegInf
  }

  /** randomSample: the rounded value; no draw is taken from the generator. */
  function RandomSample(t: real, ndigits: real, fround: (real, real) -> real, rng: Rng.RNG): (d: Rng.Draws)
    ensures d.rng == rng && |d.x| == 1
  {
    Rng.Draws([Value(t, ndigits, fround)], rng)
  }

  /** The sample does not depend on the generator and has log density 0. */
  lemma SampleIsDeterministic(t: real, ndigits: real, fround: (real, real) -> real, rng: Rng.RNG, rng': Rng.RNG)
    ensures RandomSample(t, ndigits, fround, rng).x == RandomSample(t, ndigits, fround, rng').x
    ensures LogDensity(RandomSample(t, ndigits, fround, rng).x[0], t, ndigits, fround) == Fin(0.0)
  {
    assert Tolerance > 0.0;
  }

  /** df: the distribution has no degrees of freedom. */
  function Df(): (n: nat)
    ensures n == 0
  {
    0
  }

  /** l: the lower limit is a point of positive density. */
  function L(t: real, ndigits: real, fround: (real, real) -> real): (l: real)
    ensures LogDensity(l, t, ndigits, fround) == Fin(0.0)
  {
    assert Tolerance > 0.0;
    Value(t, ndigits, fround)
  }

  /** u: the upper limit is a point of positive density. */
  function U(t: real, ndigits: real, fround: (real, real) -> real): (u: real)
    ensures LogDensity(u, t, ndigits, fround) == Fin(0.0)
  {
    assert Tolerance > 0.0;
    Value(t, ndigits, fround)
  }

  /** The support collapses to the sample: l = u = the value randomSample returns. */
  lemma LimitsAreSample(t: real, ndigits: real, fround: (real, real) -> real, rng: Rng.RNG)
    ensures L(t, ndigits, fround) == U(t, ndigits, fround) == RandomSample(t, ndigits, fround, rng).x[0]
  {
  }

  /** isSupportFixed: the support moves unless both parameters are fixed. */
  function IsSupportFixed(fixmask: seq<bool>): (ok: bool)
    requires |fixmask| == 2
    ensures ok <==> fixmask[0] && fixmask[1]
  {
    fixmask[0] && fixmask[1]
  }

  /** KL: zero between equal rounded values, infinite otherwise. */
  function KL(t0: real, n0: real, t1: real, n1: real, fround: (real, real) -> real): (k: Ext)
    ensures k == Fin(0.0) || k == PosInf
  {
    if Value(t0, n0, fround) == Value(t1, n1, fround) then Fin(0.0) else PosInf
  }

  /**
   * The divergence is zero exactly when the two parameter sets put their
   * mass at the same point, so it is zero from a distribution to itself
   * and symmetric.
   */
  lemma KLZeroIffSamePoint(t0: real, n0: real, t1: real, n1: real, fround: (real, real) -> real, rng: Rng.RNG)
    ensures KL(t0, n0, t1, n1, fround) == Fin(0.0)
            <==> RandomSample(t0, n0, fround, rng).x == RandomSample(t1, n1, fround, rng).x
    ensures KL(t0, n0, t0, n0, fround) == Fin(0.0)
    ensures KL(t0, n0, t1, n1, fround) == KL(t1, n1, t0, n0, fround)
  {
  }
}
