/**
 * DNormMix (src/modules/mix/distributions/DNormMix.cc): a finite mixture
 * of normal distributions with means mu, precisions tau and (unnormalised)
 * mixing weights prob, all of length Ncat.
 */
module DNormMixes {
  import opened Numeric
  import Rng

  const Name: string := "dnormmix"
  const NPar: nat := 3

  /**
   * checkParameterLength: a single component is not a mixture; otherwise
   * the three parameters have one entry per component.
   */
  function CheckParameterLength(lengths: seq<nat>): (ok: bool)
    requires |lengths| == 3
    ensures ok ==> lengths[0] != 1 && lengths[1] == lengths[0] && lengths[2] == lengths[0]
    ensures lengths[0] != 1 && lengths[1] == lengths[0] && lengths[2] == lengths[0] ==> ok
  {
    if lengths[0] == 1 then false
    else lengths[0] == lengths[1] && lengths[0] == lengths[2]
  }

  /** Every component has a positive precision and a positive weight. */
  ghost predicate ValidParameters(tau: seq<real>, prob: seq<real>, ncat: nat)
    requires ncat <= |tau| && ncat <= |prob|
  {
    forall i :: 0 <= i < ncat ==> tau[i] > 0.0 && prob[i] > 0.0
  }

  /** checkParameterValue: the first non-positive tau or prob rejects. */
  method CheckParameterValue(tau: seq<real>, prob: seq<real>, ncat: nat) returns (ok: bool)
    requires ncat <= |tau| && ncat <= |prob|
    ensures ok <==> ValidParameters(tau, prob, ncat)
  {
    var i := 0;
    while i < ncat
      invariant i <= ncat && forall j :: 0 <= j < i ==> tau[j] > 0.0 && prob[j] > 0.0
    {
      if tau[i] <= 0.0 {
        return false;
      }
      if prob[i] <= 0.0 {
        return false;
      }
      i := i + 1;
    }
    return true;
  }

  /** length: the value is a scalar whatever the parameter lengths. */
  function Length(parlengths: seq<nat>): (n: nat)
    ensures n == 1
  {
    1
  }

  /** support: the whole real line. */
  function Support(): (b: (Ext, Ext))
    ensures b.0 == NegInf && b.1 == PosInf
  {
    (NegInf, PosInf)
  }

  /** The support does not depend on the parameters. */
  predicate IsSupportFixed(fixmask: seq<bool>)
  {
    true
  }

  /** The component densities dnorm(x, mu[i], 1 / sqrt(tau[i])). */
  function ComponentDensities(x: real, mu: seq<real>, tau: seq<real>,
                              dnorm: (real, real, real) -> real, sqrt: real -> real): (g: seq<real>)
    requires |mu| == |tau|
    requires forall i :: 0 <= i < |tau| ==> sqrt(tau[i]) != 0.0
    ensures |g| == |tau|
    ensures forall i :: 0 <= i < |tau| ==> g[i] == dnorm(x, mu[i], 1.0 / sqrt(tau[i]))
  {
    seq(|tau|, i requires 0 <= i < |tau| => dnorm(x, mu[i], 1.0 / sqrt(tau[i])))
  }

  /** The weighted densities prob[i] * g[i]. */
  function Weighted(prob: seq<real>, g: seq<real>): (w: seq<real>)
    requires |g| == |prob|
    ensures |w| == |prob| && forall i :: 0 <= i < |prob| ==> w[i] == prob[i] * g[i]
  {
    seq(|prob|, i requires 0 <= i < |prob| => prob[i] * g[i])
  }

  /** The weighted density and the total weight, whose logs logDensity subtracts. */
  function Totals(prob: seq<real>, g: seq<real>): (real, real)
    requires |g| == |prob|
  {
    (Sum(Weighted(prob, g)), Sum(prob))
  }

  /**
   * logDensity: one loop accumulates the weighted component densities and
   * the total weight, and the result is the difference of their logs.
   */
  method LogDensity(x: real, mu: seq<real>, tau: seq<real>, prob: seq<real>,
                    dnorm: (real, real, real) -> real, sqrt: real -> real, log: real -> real)
    returns (d: real)
    requires |mu| == |prob| && |tau| == |prob|
    requires forall i :: 0 <= i < |tau| ==> sqrt(tau[i]) != 0.0
    ensures var t := Totals(prob, ComponentDensities(x, mu, tau, dnorm, sqrt));
            d == log(t.0) - log(t.1)
  {
    var density, psum := Accumulate(prob, ComponentDensities(x, mu, tau, dnorm, sqrt));
    d := log(density) - log(psum);
  }

  /** The loop of logDensity, given the component densities g. */
  method Accumulate(prob: seq<real>, g: seq<real>) returns (density: real, psum: real)
    requires |g| == |prob|
    ensures (density, psum) == Totals(prob, g)
  {
    ghost var w := Weighted(prob, g);
    density := 0.0;
    psum := 0.0;
    var i := 0;
    while i < |prob|
      invariant i <= |prob| && density == Sum(w[..i]) && psum == Sum(prob[..i])
    {
      SumPrefixStep(w, i);
      SumPrefixStep(prob, i);
      density := density + prob[i] * g[i];
      psum := psum + prob[i];
      i := i + 1;
    }
    assert w[..|prob|] == w;
    assert prob[..|prob|] == prob;
  }

  /**
   * The weights need not be normalised: scaling them all by c scales the
   * weighted density and the total weight alike, so the difference of
   * their logs is unchanged for c > 0.
   */
  lemma TotalsScaleFree(prob: seq<real>, g: seq<real>, c: real)
    requires |g| == |prob|
    ensures Totals(ScaleBy(c, prob), g) == (c * Totals(prob, g).0, c * Totals(prob, g).1)
  {
    WeightedScaled(prob, g, c);
    SumScaled(c, prob);
    assert Sum(Weighted(ScaleBy(c, prob), g)) == c * Sum(Weighted(prob, g));
    assert Sum(ScaleBy(c, prob)) == c * Sum(prob);
    assert Totals(ScaleBy(c, prob), g).0 == c * Totals(prob, g).0;
    assert Totals(ScaleBy(c, prob), g).1 == c * Totals(prob, g).1;
  }

  /** Scaling the weights by c scales the weighted density by c. */
  lemma WeightedScaled(prob: seq<real>, g: seq<real>, c: real)
    requires |g| == |prob|
    ensures Sum(Weighted(ScaleBy(c, prob), g)) == c * Sum(Weighted(prob, g))
  {
    WeightsScaleTerms(prob, g, c);
    SumScaled(c, Weighted(prob, g));
  }

  /** Each weighted term scales with its weight. */
  lemma WeightsScaleTerms(prob: seq<real>, g: seq<real>, c: real)
    requires |g| == |prob|
    ensures Weighted(ScaleBy(c, prob), g) == ScaleBy(c, Weighted(prob, g))
  {
    var w := Weighted(prob, g);
    var w' := Weighted(ScaleBy(c, prob), g);
    forall i | 0 <= i < |prob|
      ensures w'[i] == ScaleBy(c, w)[i]
    {
      MulAssociates(c, prob[i], g[i]);
    }
  }

  /**
   * The component randomSample chooses for a uniform draw u: the first
   * i < Ncat - 1 whose running weight exceeds u times the total weight,
   * else the last one.
   */
  function Component(prob: seq<real>, u: real): (r: nat)
    requires |prob| >= 1
    ensures r < |prob|
    ensures r < |prob| - 1 ==> RunningSum(prob, r) > Threshold(prob, u)
    ensures forall j :: 0 <= j < r ==> RunningSum(prob, j) <= Threshold(prob, u)
  {
    CumulativeChoice(prob, Threshold(prob, u))
  }

  /** pRand: the uniform draw u scaled by the total weight. */
  function Threshold(prob: seq<real>, u: real): real
  {
    u * Sum(prob)
  }

  /** With positive weights every component can be chosen: the weight of the chosen one is positive. */
  lemma ComponentPositive(prob: seq<real>, u: real)
    requires |prob| >= 1 && 0.0 <= u < 1.0
    requires forall i :: 0 <= i < |prob| ==> prob[i] > 0.0
    ensures prob[Component(prob, u)] > 0.0
  {
    SumPositive(prob, 0);
    ScaledBelow(u, Sum(prob), Threshold(prob, u));
    CumulativeChoicePositive(prob, Threshold(prob, u));
  }

  /**
   * randomSample: the chosen component's normal draw
   * mu[r] + norm_rand / sqrt(tau[r]), after one uniform draw.
   */
  function SampleSpec(mu: seq<real>, tau: seq<real>, prob: seq<real>, sqrt: real -> real, rng: Rng.RNG): (d: Rng.Draws)
    requires |prob| >= 1 && |mu| == |prob| && |tau| == |prob|
    requires forall i :: 0 <= i < |tau| ==> sqrt(tau[i]) != 0.0
    ensures |d.x| == 1
  {
    var r := Component(prob, rng.Uniform());
    var g := rng.Next();
    Rng.Draws([ComponentDraw(mu[r], sqrt(tau[r]), g.Normal())], g.Next())
  }

  /** The normal draw of a component given its mean, the root of its precision and norm_rand. */
  function ComponentDraw(m: real, root: real, z: real): real
    requires root != 0.0
  {
    m + (1.0 / root) * z
  }

  method RandomSample(mu: seq<real>, tau: seq<real>, prob: seq<real>, sqrt: real -> real, rng: Rng.RNG) returns (x: real, rng': Rng.RNG)
    requires |prob| >= 1 && |mu| == |prob| && |tau| == |prob|
    requires forall i :: 0 <= i < |tau| ==> sqrt(tau[i]) != 0.0
    ensures Rng.Draws([x], rng') == SampleSpec(mu, tau, prob, sqrt, rng)
  {
    var sump := TotalWeight(prob);
    var pRand := rng.Uniform() * sump;
    assert pRand == Threshold(prob, rng.Uniform());
    rng' := rng.Next();
    var r := SelectComponent(prob, pRand);
    x := ComponentDraw(mu[r], sqrt(tau[r]), rng'.Normal());
    SampleOfComponent(mu, tau, prob, sqrt, rng, r);
    rng' := rng'.Next();
  }

  /** SampleSpec once the component r is known. */
  lemma SampleOfComponent(mu: seq<real>, tau: seq<real>, prob: seq<real>, sqrt: real -> real, rng: Rng.RNG, r: nat)
    requires |prob| >= 1 && |mu| == |prob| && |tau| == |prob|
    requires forall i :: 0 <= i < |tau| ==> sqrt(tau[i]) != 0.0
    requires r == CumulativeChoice(prob, Threshold(prob, rng.Uniform()))
    ensures SampleSpec(mu, tau, prob, sqrt, rng)
         == Rng.Draws([ComponentDraw(mu[r], sqrt(tau[r]), rng.Next().Normal())], rng.Next().Next())
  {
    assert r == Component(prob, rng.Uniform());
  }

  /** The first loop of randomSample: sump = prob[0] + ... + prob[Ncat - 1]. */
  method TotalWeight(prob: seq<real>) returns (sump: real)
    ensures sump == Sum(prob)
  {
    sump := 0.0;
    var i := 0;
    while i < |prob|
      invariant i <= |prob| && sump == Sum(prob[..i])
    {
      SumPrefixStep(prob, i);
      sump := sump + prob[i];
      i := i + 1;
    }
    assert prob[..|prob|] == prob;
  }

  /** The second loop of randomSample: the running sum stops at the first weight past pRand. */
  method SelectComponent(prob: seq<real>, pRand: real) returns (r: nat)
    requires |prob| >= 1
    ensures r == CumulativeChoice(prob, pRand)
  {
    var ncat := |prob|;
    var sump := 0.0;
    r := ncat - 1;
    var i := 0;
    while i < ncat - 1
      invariant i <= ncat - 1 && r == ncat - 1
      invariant sump == Sum(prob[..i])
      invariant forall j :: 0 <= j < i ==> RunningSum(prob, j) <= pRand
    {
      SumPrefixStep(prob, i);
      sump := sump + prob[i];
      if sump > pRand {
        r := i;
        break;
      }
      i := i + 1;
    }
    CumulativeChoiceUnique(prob, pRand, r);
  }
}
