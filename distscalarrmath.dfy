/**
 * DistScalarRmath (src/lib/distribution/DistScalarRmath.cc): the
 * truncation logic shared by the scalar distributions that evaluate
 * through the R math library's p/q/d/r functions.
 */
module DistScalarRmaths {
  import opened Wrappers
  import opened Numeric
  import Rng

  /**
   * A scalar distribution with its parameters fixed: p(x, lowerTail,
   * giveLog) is the distribution function, q(prob, lowerTail, logP) the
   * quantile function, d(x, giveLog) the density, r a random draw and
   * support the support's (lower, upper) limits.
   */
  datatype RmathDist = RmathDist(
    discrete: bool,
    p: (Ext, bool, bool) -> Ext,
    q: (Ext, bool, bool) -> Ext,
    d: (Ext, bool) -> Ext,
    r: Rng.RNG -> (Ext, Rng.RNG),
    support: (Ext, Ext))

  /** calPlower: P(X < lower), which is P(X <= lower - 1) for a discrete distribution. */
  function CalPlower(dist: RmathDist, lower: Ext): (pl: Ext)
    ensures dist.discrete ==> pl == dist.p(Sub(lower, Fin(1.0)), true, false)
    ensures !dist.discrete ==> pl == dist.p(lower, true, false)
  {
    if dist.discrete then dist.p(Sub(lower, Fin(1.0)), true, false) else dist.p(lower, true, false)
  }

  /** calPupper: P(X <= upper). */
  function CalPupper(dist: RmathDist, upper: Ext): (pu: Ext)
    ensures pu == dist.p(upper, true, false)
  {
    dist.p(upper, true, false)
  }

  /** The distribution function never decreases. */
  ghost predicate MonotoneCdf(dist: RmathDist)
  {
    forall a, b :: Le(a, b) ==> Le(dist.p(a, true, false), dist.p(b, true, false))
  }

  lemma LeTransitive(a: Ext, b: Ext, c: Ext)
    requires Le(a, b) && Le(b, c)
    ensures Le(a, c)
  {
  }

  /** For ordered bounds the probability below the lower bound is at most that up to the upper bound. */
  lemma CalBoundsOrdered(dist: RmathDist, lower: Ext, upper: Ext)
    requires MonotoneCdf(dist) && Le(lower, upper)
    ensures Le(CalPlower(dist, lower), CalPupper(dist, upper))
  {
    if dist.discrete {
      var below := Sub(lower, Fin(1.0));
      assert Le(below, lower);
      LeTransitive(below, lower, upper);
    }
  }

  /** The larger of two doubles as std::max computes it: (a < b) ? b : a. */
  function Max(a: Ext, b: Ext): (m: Ext)
    ensures m == a || m == b
    ensures Lt(a, b) ==> m == b
  {
    if Lt(a, b) then b else a
  }

  /** The smaller of two doubles as std::min computes it: (b < a) ? b : a. */
  function Min(a: Ext, b: Ext): (m: Ext)
    ensures m == a || m == b
    ensures Lt(b, a) ==> m == b
  {
    if Lt(b, a) then b else a
  }

  /** The limits typicalScalar works with: the support clipped by the bounds. */
  function Limits(dist: RmathDist, lower: Option<Ext>, upper: Option<Ext>): (lim: (Ext, Ext))
    ensures lower.None? ==> lim.0 == dist.support.0
    ensures upper.None? ==> lim.1 == dist.support.1
    ensures lower.Some? ==> lim.0 == Max(dist.support.0, lower.value)
    ensures upper.Some? ==> lim.1 == Min(dist.support.1, upper.value)
  {
    (if lower.Some? then Max(dist.support.0, lower.value) else dist.support.0,
     if upper.Some? then Min(dist.support.1, upper.value) else dist.support.1)
  }

  /** The probabilities of the limits: 0 and 1 for an absent bound. */
  function LimitProbabilities(dist: RmathDist, lower: Option<Ext>, upper: Option<Ext>): (pr: (Ext, Ext))
    ensures lower.None? ==> pr.0 == Fin(0.0)
    ensures upper.None? ==> pr.1 == Fin(1.0)
    ensures lower.Some? ==> pr.0 == CalPlower(dist, Limits(dist, lower, upper).0)
    ensures upper.Some? ==> pr.1 == CalPupper(dist, Limits(dist, lower, upper).1)
  {
    var lim := Limits(dist, lower, upper);
    (if lower.Some? then CalPlower(dist, lim.0) else Fin(0.0),
     if upper.Some? then CalPupper(dist, lim.1) else Fin(1.0))
  }

  /** (plower + pupper) / 2. */
  function Midpoint(pr: (Ext, Ext)): Ext
  {
    Scale(0.5, Add(pr.0, pr.1))
  }

  /**
   * The probability whose quantile typicalScalar returns: the middle
   * one when the median's log density is at least that of both limits;
   * otherwise the one 10% in from the end with the higher density.
   */
  function TypicalProbability(dist: RmathDist, lower: Option<Ext>, upper: Option<Ext>): (prob: Ext)
  {
    var lim := Limits(dist, lower, upper);
    var pr := LimitProbabilities(dist, lower, upper);
    var med := dist.q(Midpoint(pr), true, false);
    var dllimit := dist.d(lim.0, true);
    var dulimit := dist.d(lim.1, true);
    var dmed := dist.d(med, true);
    ChooseProbability(pr, dllimit, dulimit, dmed)
  }

  /**
   * The choice of typicalScalar between the limit probabilities pr given
   * the log densities at the limits and at the median.
   */
  function ChooseProbability(pr: (Ext, Ext), dllimit: Ext, dulimit: Ext, dmed: Ext): Ext
  {
    if Le(dllimit, dmed) && Le(dulimit, dmed) then Midpoint(pr)
    else if Lt(dllimit, dulimit) then Add(Scale(0.1, pr.0), Scale(0.9, pr.1))
    else Add(Scale(0.9, pr.0), Scale(0.1, pr.1))
  }

  /** typicalScalar: the quantile of TypicalProbability. */
  function TypicalScalar(dist: RmathDist, lower: Option<Ext>, upper: Option<Ext>): (v: Ext)
    ensures v == dist.q(TypicalProbability(dist, lower, upper), true, false)
  {
    dist.q(TypicalProbability(dist, lower, upper), true, false)
  }

  /**
   * When both limit probabilities are finite and ordered, the chosen
   * probability lies between them, and strictly inside when a
   * boundary end is picked and the limits differ.
   */
  lemma TypicalProbabilityInside(dist: RmathDist, lower: Option<Ext>, upper: Option<Ext>)
    requires var pr := LimitProbabilities(dist, lower, upper);
      pr.0.Fin? && pr.1.Fin? && pr.0.r <= pr.1.r
    ensures var pr := LimitProbabilities(dist, lower, upper);
      var prob := TypicalProbability(dist, lower, upper);
      && prob.Fin? && pr.0.r <= prob.r <= pr.1.r
      && (prob != Midpoint(pr) && pr.0.r < pr.1.r ==> pr.0.r < prob.r < pr.1.r)
  {
    var lim := Limits(dist, lower, upper);
    var pr := LimitProbabilities(dist, lower, upper);
    var med := dist.q(Midpoint(pr), true, false);
    ChosenInside(pr, dist.d(lim.0, true), dist.d(lim.1, true), dist.d(med, true));
  }

  /** Whatever the densities, the chosen probability lies between ordered finite limit probabilities. */
  lemma ChosenInside(pr: (Ext, Ext), dllimit: Ext, dulimit: Ext, dmed: Ext)
    requires pr.0.Fin? && pr.1.Fin? && pr.0.r <= pr.1.r
    ensures var prob := ChooseProbability(pr, dllimit, dulimit, dmed);
      && prob.Fin? && pr.0.r <= prob.r <= pr.1.r
      && (prob != Midpoint(pr) && pr.0.r < pr.1.r ==> pr.0.r < prob.r < pr.1.r)
  {
    CandidatesInside(pr.0.r, pr.1.r);
  }

  /**
   * The three probabilities typicalScalar chooses from lie between the
   * limit probabilities a <= b; the two 10%-in ones strictly when a < b.
   */
  lemma CandidatesInside(a: real, b: real)
    requires a <= b
    ensures var m := Midpoint((Fin(a), Fin(b))); m.Fin? && a <= m.r <= b
    ensures var v := Add(Scale(0.1, Fin(a)), Scale(0.9, Fin(b))); v.Fin? && a <= v.r <= b && (a < b ==> a < v.r < b)
    ensures var v := Add(Scale(0.9, Fin(a)), Scale(0.1, Fin(b))); v.Fin? && a <= v.r <= b && (a < b ==> a < v.r < b)
  {
  }

  /** Without bounds the median is the quantile of one half. */
  lemma TypicalUnboundedMedian(dist: RmathDist)
    ensures Midpoint(LimitProbabilities(dist, None, None)) == Fin(0.5)
    ensures TypicalProbability(dist, None, None) in {Fin(0.5), Fin(0.9), Fin(0.1)}
  {
  }

  /** lower - 1 for a discrete distribution, lower otherwise; 0 without a lower bound. */
  function EffectiveLower(dist: RmathDist, lower: Option<Ext>): Ext
  {
    if lower.None? then Fin(0.0) else if dist.discrete then Sub(lower.value, Fin(1.0)) else lower.value
  }

  /** x lies outside the bounds, or the bounds are the wrong way round. */
  predicate OutOfBounds(x: Ext, lower: Option<Ext>, upper: Option<Ext>)
  {
    || (lower.Some? && Lt(x, lower.value))
    || (upper.Some? && Lt(upper.value, x))
    || (upper.Some? && lower.Some? && Lt(upper.value, lower.value))
  }

  /**
   * scalarLogLikelihood: the log density, made -inf outside the bounds
   * and otherwise corrected by the log probability of the interval,
   * taken from the upper tails when P(X > ll) < 0.5 and from the lower
   * tails otherwise, or from the one tail whose probability is
   * positive. log is std::log.
   */
  function ScalarLogLikelihood(dist: RmathDist, log: Ext -> Ext, x: Ext, lower: Option<Ext>, upper: Option<Ext>): (l: Ext)
    ensures lower.None? && upper.None? ==> l == dist.d(x, true)
    ensures (lower.Some? || upper.Some?) && OutOfBounds(x, lower, upper) ==> l == NegInf
  {
    var loglik := dist.d(x, true);
    if lower.None? && upper.None? then loglik
    else if OutOfBounds(x, lower, upper) then NegInf
    else
      var ll := EffectiveLower(dist, lower);
      var haveLower := lower.Some? && Lt(Fin(0.0), dist.p(ll, true, false));
      var haveUpper := upper.Some? && Lt(Fin(0.0), dist.p(upper.value, false, false));
      if haveLower && haveUpper then
        if Lt(dist.p(ll, false, false), Fin(0.5)) then
          Sub(loglik, log(Sub(dist.p(ll, false, false), dist.p(upper.value, false, false))))
        else
          Sub(loglik, log(Sub(dist.p(upper.value, true, false), dist.p(ll, true, false))))
      else if haveLower then Sub(loglik, dist.p(ll, false, true))
      else if haveUpper then Sub(loglik, dist.p(upper.value, true, true))
      else loglik
  }

  /**
   * At the point y the two tail probabilities are finite probabilities
   * adding up to one, and the log tails are their logs.
   */
  predicate ExactAt(dist: RmathDist, log: Ext -> Ext, y: Ext)
  {
    && dist.p(y, true, false).Fin? && dist.p(y, false, false).Fin?
    && 0.0 <= dist.p(y, true, false).r <= 1.0 && 0.0 <= dist.p(y, false, false).r <= 1.0
    && dist.p(y, false, false).r == 1.0 - dist.p(y, true, false).r
    && dist.p(y, true, true) == log(dist.p(y, true, false))
    && dist.p(y, false, true) == log(dist.p(y, false, false))
  }

  /** Exact tails at both bounds that are present, and log 1 = 0. */
  predicate ExactTails(dist: RmathDist, log: Ext -> Ext, lower: Option<Ext>, upper: Option<Ext>)
  {
    && (lower.Some? ==> ExactAt(dist, log, EffectiveLower(dist, lower)))
    && (upper.Some? ==> ExactAt(dist, log, upper.value))
    && log(Fin(1.0)) == Fin(0.0)
  }

  /** P(ll < X <= upper) from the lower-tail distribution function, with an absent bound left open. */
  function TruncationMass(dist: RmathDist, log: Ext -> Ext, lower: Option<Ext>, upper: Option<Ext>): real
    requires ExactTails(dist, log, lower, upper)
  {
    var fUpper := if upper.Some? then dist.p(upper.value, true, false).r else 1.0;
    var fLower := if lower.Some? then dist.p(EffectiveLower(dist, lower), true, false).r else 0.0;
    fUpper - fLower
  }

  /**
   * With exact tail probabilities, every branch of scalarLogLikelihood
   * inside the bounds is the textbook truncated log density: the log
   * density minus the log probability of the interval.
   */
  lemma LogLikelihoodIsTruncated(dist: RmathDist, log: Ext -> Ext, x: Ext, lower: Option<Ext>, upper: Option<Ext>)
    requires ExactTails(dist, log, lower, upper)
    requires (lower.Some? || upper.Some?) && !OutOfBounds(x, lower, upper)
    ensures ScalarLogLikelihood(dist, log, x, lower, upper)
         == Sub(dist.d(x, true), log(Fin(TruncationMass(dist, log, lower, upper))))
  {
    var ll := EffectiveLower(dist, lower);
    var haveLower := lower.Some? && Lt(Fin(0.0), dist.p(ll, true, false));
    var haveUpper := upper.Some? && Lt(Fin(0.0), dist.p(upper.value, false, false));
    if haveLower && haveUpper {
      TruncatedBothTails(dist, log, x, lower, upper);
    } else if haveLower {
      TruncatedLowerTail(dist, log, x, lower, upper);
    } else if haveUpper {
      TruncatedUpperTail(dist, log, x, lower, upper);
    } else {
      TruncatedWhole(dist, log, x, lower, upper);
    }
  }

  /** The branch with probability in both tails. */
  lemma TruncatedBothTails(dist: RmathDist, log: Ext -> Ext, x: Ext, lower: Option<Ext>, upper: Option<Ext>)
    requires ExactTails(dist, log, lower, upper) && !OutOfBounds(x, lower, upper)
    requires lower.Some? && Lt(Fin(0.0), dist.p(EffectiveLower(dist, lower), true, false))
    requires upper.Some? && Lt(Fin(0.0), dist.p(upper.value, false, false))
    ensures ScalarLogLikelihood(dist, log, x, lower, upper)
         == Sub(dist.d(x, true), log(Fin(TruncationMass(dist, log, lower, upper))))
  {
    MassBothTails(dist, log, lower, upper);
  }

  /** The branch with probability below the upper bound only. */
  lemma TruncatedLowerTail(dist: RmathDist, log: Ext -> Ext, x: Ext, lower: Option<Ext>, upper: Option<Ext>)
    requires ExactTails(dist, log, lower, upper) && !OutOfBounds(x, lower, upper)
    requires lower.Some? && Lt(Fin(0.0), dist.p(EffectiveLower(dist, lower), true, false))
    requires upper.Some? ==> !Lt(Fin(0.0), dist.p(upper.value, false, false))
    ensures ScalarLogLikelihood(dist, log, x, lower, upper)
         == Sub(dist.d(x, true), log(Fin(TruncationMass(dist, log, lower, upper))))
  {
    MassLowerTail(dist, log, lower, upper);
  }

  /** The branch with probability above the lower bound only. */
  lemma TruncatedUpperTail(dist: RmathDist, log: Ext -> Ext, x: Ext, lower: Option<Ext>, upper: Option<Ext>)
    requires ExactTails(dist, log, lower, upper) && !OutOfBounds(x, lower, upper)
    requires lower.Some? ==> !Lt(Fin(0.0), dist.p(EffectiveLower(dist, lower), true, false))
    requires upper.Some? && Lt(Fin(0.0), dist.p(upper.value, false, false))
    ensures ScalarLogLikelihood(dist, log, x, lower, upper)
         == Sub(dist.d(x, true), log(Fin(TruncationMass(dist, log, lower, upper))))
  {
    MassUpperTail(dist, log, lower, upper);
  }

  /** The branch where neither bound cuts off any probability. */
  lemma TruncatedWhole(dist: RmathDist, log: Ext -> Ext, x: Ext, lower: Option<Ext>, upper: Option<Ext>)
    requires ExactTails(dist, log, lower, upper) && !OutOfBounds(x, lower, upper)
    requires lower.Some? || upper.Some?
    requires lower.Some? ==> !Lt(Fin(0.0), dist.p(EffectiveLower(dist, lower), true, false))
    requires upper.Some? ==> !Lt(Fin(0.0), dist.p(upper.value, false, false))
    ensures ScalarLogLikelihood(dist, log, x, lower, upper)
         == Sub(dist.d(x, true), log(Fin(TruncationMass(dist, log, lower, upper))))
  {
    MassWhole(dist, log, lower, upper);
    assert Sub(dist.d(x, true), Fin(0.0)) == dist.d(x, true);
  }

  /** With both bounds, either difference of tails is the interval's probability. */
  lemma MassBothTails(dist: RmathDist, log: Ext -> Ext, lower: Option<Ext>, upper: Option<Ext>)
    requires ExactTails(dist, log, lower, upper) && lower.Some? && upper.Some?
    ensures var ll := EffectiveLower(dist, lower);
      var mass := Fin(TruncationMass(dist, log, lower, upper));
      && Sub(dist.p(ll, false, false), dist.p(upper.value, false, false)) == mass
      && Sub(dist.p(upper.value, true, false), dist.p(ll, true, false)) == mass
  {
  }

  /** An upper bound with no upper tail leaves the interval's probability to the lower tail. */
  lemma MassLowerTail(dist: RmathDist, log: Ext -> Ext, lower: Option<Ext>, upper: Option<Ext>)
    requires ExactTails(dist, log, lower, upper) && lower.Some?
    requires upper.Some? ==> !Lt(Fin(0.0), dist.p(upper.value, false, false))
    ensures dist.p(EffectiveLower(dist, lower), false, false) == Fin(TruncationMass(dist, log, lower, upper))
  {
  }

  /** A lower bound with no lower tail leaves the interval's probability to the upper bound's distribution function. */
  lemma MassUpperTail(dist: RmathDist, log: Ext -> Ext, lower: Option<Ext>, upper: Option<Ext>)
    requires ExactTails(dist, log, lower, upper) && upper.Some?
    requires lower.Some? ==> !Lt(Fin(0.0), dist.p(EffectiveLower(dist, lower), true, false))
    ensures dist.p(upper.value, true, false) == Fin(TruncationMass(dist, log, lower, upper))
  {
  }

  /** When neither bound cuts off any probability the interval holds all of it. */
  lemma MassWhole(dist: RmathDist, log: Ext -> Ext, lower: Option<Ext>, upper: Option<Ext>)
    requires ExactTails(dist, log, lower, upper)
    requires lower.Some? ==> !Lt(Fin(0.0), dist.p(EffectiveLower(dist, lower), true, false))
    requires upper.Some? ==> !Lt(Fin(0.0), dist.p(upper.value, false, false))
    ensures TruncationMass(dist, log, lower, upper) == 1.0
  {
  }

  /** The bound probabilities of a bounded sample: 0 and 1 for an absent bound. */
  function BoundProbabilities(dist: RmathDist, lower: Option<Ext>, upper: Option<Ext>): (pr: (Ext, Ext))
    ensures pr.0 == if lower.Some? then CalPlower(dist, lower.value) else Fin(0.0)
    ensures pr.1 == if upper.Some? then CalPupper(dist, upper.value) else Fin(1.0)
  {
    (if lower.Some? then CalPlower(dist, lower.value) else Fin(0.0),
     if upper.Some? then CalPupper(dist, upper.value) else Fin(1.0))
  }

  /** plower + u * (pupper - plower). */
  function SampleProbability(pr: (Ext, Ext), u: real): Ext
  {
    Add(pr.0, Scale(u, Sub(pr.1, pr.0)))
  }

  /**
   * scalarRandomSample: a bounded sample inverts the distribution
   * function at a uniform point between the bound probabilities; an
   * unbounded one is a plain draw.
   */
  function ScalarRandomSample(dist: RmathDist, lower: Option<Ext>, upper: Option<Ext>, rng: Rng.RNG): (s: (Ext, Rng.RNG))
    ensures lower.None? && upper.None? ==> s == dist.r(rng)
    ensures lower.Some? || upper.Some? ==>
      s == (dist.q(SampleProbability(BoundProbabilities(dist, lower, upper), rng.Uniform()), true, false), rng.Next())
  {
    if lower.Some? || upper.Some? then
      (dist.q(SampleProbability(BoundProbabilities(dist, lower, upper), rng.Uniform()), true, false), rng.Next())
    else
      dist.r(rng)
  }

  /** The point a bounded sample inverts lies between the bound probabilities. */
  lemma SampleProbabilityInside(pr: (Ext, Ext), u: real)
    requires pr.0.Fin? && pr.1.Fin? && pr.0.r <= pr.1.r && 0.0 <= u < 1.0
    ensures SampleProbability(pr, u) == Fin(Interpolate(pr.0.r, pr.1.r, u))
    ensures pr.0.r <= SampleProbability(pr, u).r <= pr.1.r
  {
    var a, b := pr.0.r, pr.1.r;
    assert Sub(pr.1, pr.0) == Fin(b - a);
  }
}
