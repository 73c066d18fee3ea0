/**
 * Censored (src/modules/bugs/samplers/Censored.cc): Gibbs sampling of a
 * continuous scalar node t observed only through an interval-censored
 * child y ~ dinterval(t, breaks), by drawing t from its prior truncated
 * to the interval that y names.
 */
module CensoredSamplers {
  import opened Wrappers
  import opened Numeric
  import Rng

  /** What canSample reads of the node and its graph view. */
  datatype CensoredInfo = CensoredInfo(
    discreteValued: bool,
    length: nat,
    canBound: bool,              // distribution()->canBound()
    bounded: bool,               // isBounded(snode)
    nstochastic: nat,            // stochasticChildren().size()
    ndeterministic: nat,         // deterministicChildren().size()
    childDist: string,           // name of the single stochastic child's distribution
    breaksAreNode: bool)         // schild[0]->parents()[1] == snode

  ghost predicate CanSampleSpec(info: CensoredInfo)
  {
    && !info.discreteValued && info.length == 1
    && info.canBound && !info.bounded
    && info.nstochastic == 1 && info.ndeterministic == 0
    && info.childDist == "dinterval" && !info.breaksAreNode
  }

  /** canSample: the sequence of early returns. */
  method CanSample(info: CensoredInfo) returns (b: bool)
    ensures b == CanSampleSpec(info)
  {
    if info.discreteValued || info.length != 1 {
      return false;
    }
    if !info.canBound {
      return false;
    }
    if info.bounded {
      return false;
    }
    if info.nstochastic != 1 {
      return false;
    }
    if info.ndeterministic != 0 {
      return false;
    }
    if info.childDist != "dinterval" {
      return false;
    }
    if info.breaksAreNode {
      return false;
    }
    return true;
  }

  /**
   * The truncation bounds for indicator y: none below when y = 0, none
   * above when y = nbreaks, and otherwise [b[y-1], b[y]).
   */
  function Bounds(y: nat, b: seq<real>): (bounds: (Option<real>, Option<real>))
    requires y <= |b|
    ensures bounds.0.None? <==> y == 0
    ensures bounds.1.None? <==> y == |b|
    ensures y > 0 ==> bounds.0 == Some(b[y - 1])
    ensures y < |b| ==> bounds.1 == Some(b[y])
  {
    (if y == 0 then None else Some(b[y - 1]), if y == |b| then None else Some(b[y]))
  }

  /** t lies in the half-open interval [lower, upper) that dinterval uses. */
  predicate Within(t: real, bounds: (Option<real>, Option<real>))
  {
    (bounds.0.None? || bounds.0.value <= t) && (bounds.1.None? || t < bounds.1.value)
  }

  predicate Ascending(b: seq<real>)
  {
    forall i, j :: 0 <= i <= j < |b| ==> b[i] <= b[j]
  }

  /** The dinterval indicator of t: the number of breaks at or below t. */
  function Indicator(t: real, b: seq<real>): (y: nat)
    ensures y <= |b|
  {
    if |b| == 0 then 0
    else Indicator(t, b[..|b| - 1]) + (if b[|b| - 1] <= t then 1 else 0)
  }

  /** With ascending breaks the breaks at or below t form a prefix. */
  lemma {:induction false} IndicatorPrefix(t: real, b: seq<real>)
    requires Ascending(b)
    ensures forall k :: 0 <= k < Indicator(t, b) ==> b[k] <= t
    ensures forall k :: Indicator(t, b) <= k < |b| ==> t < b[k]
    decreases |b|
  {
    if |b| > 0 {
      var n := |b| - 1;
      IndicatorPrefix(t, b[..n]);
      if b[n] <= t {
        assert forall k :: 0 <= k < n ==> b[k] <= b[n];
      }
    }
  }

  /** A prefix split of the breaks at t fixes the indicator. */
  lemma {:induction false} IndicatorOfSplit(t: real, b: seq<real>, y: nat)
    requires y <= |b|
    requires forall k :: 0 <= k < y ==> b[k] <= t
    requires forall k :: y <= k < |b| ==> t < b[k]
    ensures Indicator(t, b) == y
    decreases |b|
  {
    if |b| > 0 {
      var n := |b| - 1;
      if y == |b| {
        IndicatorOfSplit(t, b[..n], n);
      } else {
        IndicatorOfSplit(t, b[..n], y);
      }
    }
  }

  /**
   * The bounds update uses are exactly the censoring interval: with
   * ascending breaks, t lies within Bounds(y) iff y is t's indicator.
   */
  lemma BoundsMatchIndicator(t: real, b: seq<real>, y: nat)
    requires Ascending(b) && y <= |b|
    ensures Within(t, Bounds(y, b)) <==> Indicator(t, b) == y
  {
    IndicatorPrefix(t, b);
    if Within(t, Bounds(y, b)) {
      IndicatorOfSplit(t, b, y);
    }
  }

  /** The indicator is usable in every chain: 0 <= y <= nbreaks. */
  ghost predicate IndicatorsInRange(indicator: nat -> real, nbreaks: nat, nchain: nat)
  {
    forall ch :: 0 <= ch < nchain ==> 0.0 <= indicator(ch) <= nbreaks as real
  }

  class Censored {
    /** The sampled node's value in each chain. */
    var values: seq<real>
    const node: nat
    const nchain: nat
    const nbreaks: nat                       // breaks(gv)->length()
    const indicator: nat -> real             // the child's value, per chain
    const breaks: nat -> seq<real>           // the breaks' value, per chain
    /** truncatedSample of the node's prior: value and generator afterwards. */
    const truncatedSample: (Rng.RNG, nat, Option<real>, Option<real>) -> (real, Rng.RNG)

    constructor Init(values: seq<real>, node: nat, nchain: nat, nbreaks: nat, indicator: nat -> real,
                     breaks: nat -> seq<real>, truncatedSample: (Rng.RNG, nat, Option<real>, Option<real>) -> (real, Rng.RNG))
      ensures this.values == values && this.node == node && this.nchain == nchain && this.nbreaks == nbreaks
      ensures this.indicator == indicator && this.breaks == breaks && this.truncatedSample == truncatedSample
    {
      this.values := values;
      this.node := node;
      this.nchain := nchain;
      this.nbreaks := nbreaks;
      this.indicator := indicator;
      this.breaks := breaks;
      this.truncatedSample := truncatedSample;
    }

    /**
     * The constructor: a NodeError for the node when some chain's
     * indicator is below 0 or above the number of breaks.
     */
    static method Create(values: seq<real>, node: nat, nchain: nat, nbreaks: nat, indicator: nat -> real,
                         breaks: nat -> seq<real>, truncatedSample: (Rng.RNG, nat, Option<real>, Option<real>) -> (real, Rng.RNG))
      returns (r: Result<Censored>)
      ensures r.Err? <==> !IndicatorsInRange(indicator, nbreaks, nchain)
      ensures r.Err? ==> r.error == NodeError(node)
      ensures r.Ok? ==> r.value.Valid() && r.value.values == values && r.value.nchain == nchain
    {
      var ch := 0;
      while ch < nchain
        invariant ch <= nchain
        invariant forall c :: 0 <= c < ch ==> 0.0 <= indicator(c) <= nbreaks as real
      {
        var y := indicator(ch);
        if y < 0.0 || y > nbreaks as real {
          return Err(NodeError(node));
        }
        ch := ch + 1;
      }
      var c := new Censored.Init(values, node, nchain, nbreaks, indicator, breaks, truncatedSample);
      return Ok(c);
    }

    ghost predicate Valid()
    {
      IndicatorsInRange(indicator, nbreaks, nchain)
    }

    /** static_cast<unsigned long> of the indicator in a chain. */
    function Index(ch: nat): (y: nat)
      requires Valid() && ch < nchain
      ensures y <= nbreaks
    {
      TruncMonotone(indicator(ch), nbreaks as real);
      TruncToInt(indicator(ch))
    }

    /**
     * update: the node's value in this chain (and no other) becomes the
     * truncated draw between the bounds named by the indicator.
     */
    method Update(ch: nat, rng: Rng.RNG) returns (rng': Rng.RNG)
      requires Valid() && ch < nchain && ch < |values| && |breaks(ch)| == nbreaks
      modifies this
      ensures values == old(values)[ch := truncatedSample(rng, ch, Bounds(Index(ch), breaks(ch)).0,
                                                          Bounds(Index(ch), breaks(ch)).1).0]
      ensures rng' == truncatedSample(rng, ch, Bounds(Index(ch), breaks(ch)).0, Bounds(Index(ch), breaks(ch)).1).1
    {
      var y := Index(ch);
      var b := breaks(ch);
      var ymax := nbreaks;
      var lower := if y == 0 then None else Some(b[y - 1]);
      var upper := if y == ymax then None else Some(b[y]);
      var draw := truncatedSample(rng, ch, lower, upper);
      values := values[ch := draw.0];
      rng' := draw.1;
    }
  }
}
