/**
 * FiniteMethod (src/modules/basesamplers/FiniteMethod.cc): Gibbs sampling
 * of a scalar discrete node with a small finite support, by evaluating the
 * full conditional likelihood at every support point and picking one by
 * the cumulative-sum search.
 */
module FiniteMethods {
  import opened Wrappers
  import opened Numeric
  import Rng

  /** What canSample and the constructor read of the stochastic node. */
  datatype SNode = SNode(
    discreteValued: bool,   // distribution()->isDiscreteValued()
    length: nat,
    df: nat,
    supportFixed: bool,
    nchain: nat,
    support: nat -> (Ext, Ext), // (lower, upper) limits of the support, per chain
    id: nat)

  /** Bounds of chain ch usable by the sampler: finite, 2 to 20 values. */
  predicate ChainBounded(node: SNode, ch: nat)
  {
    var (l, u) := node.support(ch);
    l.Fin? && u.Fin? && 1.0 < u.r - l.r + 1.0 <= 20.0
  }

  /** canSample: what the loop below decides. */
  predicate CanSampleSpec(node: SNode)
  {
    && node.discreteValued && node.length == 1 && node.df != 0 && node.supportFixed
    && forall ch :: 0 <= ch < node.nchain ==> ChainBounded(node, ch)
  }

  /** canSample: the node tests, then the per-chain loop over the limits. */
  method CanSample(node: SNode) returns (b: bool)
    ensures b == CanSampleSpec(node)
  {
    if !node.discreteValued || node.length != 1 || node.df == 0 || !node.supportFixed {
      return false;
    }
    var ch := 0;
    while ch < node.nchain
      invariant ch <= node.nchain
      invariant forall c :: 0 <= c < ch ==> ChainBounded(node, c)
    {
      var (llimit, ulimit) := node.support(ch);
      if !llimit.Fin? || !ulimit.Fin? {
        assert !ChainBounded(node, ch);
        return false;
      }
      var n := ulimit.r - llimit.r + 1.0;
      if n <= 1.0 || n > 20.0 {
        assert !ChainBounded(node, ch);
        return false;
      }
      ch := ch + 1;
    }
    return true;
  }

  /**
   * A likelihood oracle is exp of a log density: never negative and
   * never -inf.
   */
  ghost predicate LikelihoodValid(lik: real -> Ext)
  {
    forall x :: lik(x) != NegInf && (lik(x).Fin? ==> lik(x).r >= 0.0)
  }

  predicate NonNegative(s: seq<Ext>)
  {
    forall j :: 0 <= j < |s| ==> s[j].Fin? ==> s[j].r >= 0.0
  }

  /**
   * The selection of update: with a finite, non-zero sum of non-negative
   * likelihoods, the index chosen by the cumulative-sum search for a
   * uniform draw times the sum, whose likelihood is positive.
   */
  method Draw(lik: array<Ext>, liksum: Ext, rng: Rng.RNG) returns (k: nat, rng': Rng.RNG)
    requires rng.Valid() && lik.Length >= 1 && NonNegative(lik[..])
    requires liksum == ExtSum(lik[..]) && liksum.Fin? && liksum != Fin(0.0)
    ensures rng' == rng.Next() && rng'.Valid()
    ensures AllFinite(lik[..]) && k < lik.Length
    ensures k == CumulativeChoice(Values(lik[..]), Target(rng.Uniform(), lik[..]))
    ensures lik[k].r > 0.0
  {
    var u := rng.Uniform();
    var urand := u * liksum.r;
    DrawFacts(lik[..], liksum, u);
    rng' := rng.Next();
    k := Select(lik, urand);
  }

  /** What Draw needs of the likelihoods, the sum it is given and the uniform draw. */
  lemma DrawFacts(liks: seq<Ext>, liksum: Ext, u: real)
    requires |liks| >= 1 && NonNegative(liks) && liksum == ExtSum(liks) && liksum.Fin? && liksum != Fin(0.0)
    requires 0.0 <= u < 1.0
    ensures AllFinite(liks) && Target(u, liks) == u * liksum.r
    ensures Values(liks)[CumulativeChoice(Values(liks), Target(u, liks))] > 0.0
  {
    ExtSumFinite(liks);
    ChoicePositive(liks, u, Target(u, liks));
    TargetOf(u, liks, liksum);
  }

  /** The target in terms of the sum Draw is given. */
  lemma TargetOf(u: real, liks: seq<Ext>, liksum: Ext)
    requires liksum == ExtSum(liks) && liksum.Fin?
    ensures Target(u, liks) == u * liksum.r
  {
  }

  /**
   * With a finite, non-zero sum of non-negative likelihoods, the
   * cumulative-sum search for a draw in [0, 1) times the sum picks a
   * likelihood that is positive.
   */
  lemma ChoicePositive(liks: seq<Ext>, u: real, target: real)
    requires |liks| >= 1 && NonNegative(liks) && ExtSum(liks).Fin? && ExtSum(liks) != Fin(0.0)
    requires 0.0 <= u < 1.0 && target == Target(u, liks)
    ensures AllFinite(liks) && Values(liks)[CumulativeChoice(Values(liks), target)] > 0.0
  {
    ExtSumFinite(liks);
    var w := Values(liks);
    assert forall j :: 0 <= j < |w| ==> w[j] >= 0.0 by {
      forall j | 0 <= j < |w| ensures w[j] >= 0.0 {
        assert liks[j].Fin?;
      }
    }
    SumNonNegative(w);
    TargetBelow(u, liks);
    CumulativeChoicePositive(w, target);
  }

  /** A draw in [0, 1) times a positive likelihood sum lies in [0, sum). */
  lemma TargetBelow(u: real, liks: seq<Ext>)
    requires ExtSum(liks).Fin? && ExtSum(liks).r > 0.0 && 0.0 <= u < 1.0
    ensures 0.0 <= Target(u, liks) < ExtSum(liks).r
  {
    ScaledBelow(u, ExtSum(liks).r, Target(u, liks));
  }

  /** The selection loop: the first i < size - 1 whose running sum exceeds target. */
  method Select(lik: array<Ext>, target: real) returns (i: nat)
    requires lik.Length >= 1 && AllFinite(lik[..])
    ensures i == CumulativeChoice(Values(lik[..]), target)
  {
    ghost var w := Values(lik[..]);
    var liksum := 0.0;
    i := 0;
    while i < lik.Length - 1
      invariant i <= lik.Length - 1
      invariant i > 0 ==> liksum == RunningSum(w, i - 1)
      invariant i == 0 ==> liksum == 0.0
      invariant forall j :: 0 <= j < i ==> RunningSum(w, j) <= target
    {
      SumPrefixStep(w, i);
      if i > 0 {
        assert w[..(i - 1) + 1] == w[..i];
      } else {
        assert w[..0] == [];
      }
      liksum := liksum + lik[i].r;
      if liksum > target {
        break;
      }
      i := i + 1;
    }
    CumulativeChoiceUnique(w, target, i);
  }

  /** The search target of update: the uniform draw times the likelihood sum. */
  function Target(u: real, liks: seq<Ext>): real
    requires ExtSum(liks).Fin?
  {
    u * ExtSum(liks).r
  }

  class FiniteMethod {
    const lower: int
    const upper: int
    /** exp(logFullConditional) of the sampled chain at a node value. */
    const likelihood: real -> Ext
    const node: nat
    /** The sampled node's value in the sampler's chain. */
    var value: real

    constructor Init(lower: int, upper: int, likelihood: real -> Ext, node: nat, value: real)
      ensures this.lower == lower && this.upper == upper && this.likelihood == likelihood
      ensures this.node == node && this.value == value
    {
      this.lower := lower;
      this.upper := upper;
      this.likelihood := likelihood;
      this.node := node;
      this.value := value;
    }

    /**
     * The constructor: logic_error unless canSample holds; otherwise the
     * bounds are chain 0's support limits cast to int.
     */
    static method Create(snode: SNode, likelihood: real -> Ext, value: real) returns (r: Result<FiniteMethod>)
      requires snode.nchain >= 1
      ensures r.Err? <==> !CanSampleSpec(snode)
      ensures r.Err? ==> r.error == LogicError
      ensures r.Ok? ==> (
        && fresh(r.value) && ChainBounded(snode, 0)
        && r.value.lower == TruncToInt(snode.support(0).0.r)
        && r.value.upper == TruncToInt(snode.support(0).1.r)
        && r.value.lower <= r.value.upper
        && r.value.likelihood == likelihood && r.value.node == snode.id && r.value.value == value)
    {
      var ok := CanSample(snode);
      if !ok {
        return Err(LogicError);
      }
      assert ChainBounded(snode, 0);
      var (l, u) := snode.support(0);
      TruncMonotone(l.r, u.r);
      var fm := new FiniteMethod.Init(TruncToInt(l.r), TruncToInt(u.r), likelihood, snode.id, value);
      return Ok(fm);
    }

    /** The likelihoods of the support points lower, lower + 1, ..., upper. */
    ghost function Likelihoods(): (s: seq<Ext>)
      ensures |s| == if upper >= lower then upper - lower + 1 else 0
    {
      seq(if upper >= lower then upper - lower + 1 else 0, i => likelihood((lower + i) as real))
    }

    /**
     * update: NodeError when the likelihoods sum to zero or to a
     * non-finite value; otherwise the new value is lower plus the index
     * chosen by the cumulative-sum search for u * liksum, so it lies in
     * [lower, upper] and has positive likelihood.
     */
    method Update(rng: Rng.RNG) returns (res: Outcome, rng': Rng.RNG)
      requires rng.Valid() && LikelihoodValid(likelihood) && upper >= lower
      modifies this
      ensures rng'.Valid()
      ensures res.Fail? <==> ExtSum(Likelihoods()) == Fin(0.0) || !ExtSum(Likelihoods()).Fin?
      ensures res.Fail? ==> res.error == NodeError(node) && rng' == rng
      ensures res.Pass? ==> (
        && AllFinite(Likelihoods()) && rng' == rng.Next()
        && value == (lower + CumulativeChoice(Values(Likelihoods()), Target(rng.Uniform(), Likelihoods()))) as real
        && lower as real <= value <= upper as real
        && likelihood(value).Fin? && likelihood(value).r > 0.0)
    {
      ghost var liks := Likelihoods();
      var lik, liksum := Evaluate();
      if liksum == Fin(0.0) || !liksum.Fin? {
        return Fail(NodeError(node)), rng;
      }
      WeightsNonNegative();
      var k;
      k, rng' := Draw(lik, liksum, rng);
      value := (lower + k) as real;
      LikelihoodAt(k);
      return Pass, rng';
    }

    lemma LikelihoodAt(k: nat)
      requires k < |Likelihoods()|
      ensures Likelihoods()[k] == likelihood((lower + k) as real)
    {
    }

    /** The likelihoods of a valid oracle are never negative. */
    lemma WeightsNonNegative()
      requires LikelihoodValid(likelihood)
      ensures NonNegative(Likelihoods())
    {
      var liks := Likelihoods();
      forall j | 0 <= j < |liks| ensures liks[j].Fin? ==> liks[j].r >= 0.0 {
        assert liks[j] == likelihood((lower + j) as real);
      }
    }

    /**
     * The first loop of update: the likelihood at each support point,
     * lower to upper in turn, and their running IEEE sum.
     */
    method Evaluate() returns (lik: array<Ext>, liksum: Ext)
      requires upper >= lower
      modifies this
      ensures fresh(lik) && lik[..] == Likelihoods() && liksum == ExtSum(Likelihoods())
    {
      ghost var liks := Likelihoods();
      var size := upper - lower + 1;
      lik := new Ext[size];
      liksum := Fin(0.0);
      var i := 0;
      while i < size
        invariant 0 <= i <= size
        invariant forall k :: 0 <= k < i ==> lik[k] == liks[k]
        invariant liksum == ExtSum(liks[..i])
      {
        var ivalue := (lower + i) as real;
        value := ivalue;
        lik[i] := likelihood(ivalue);
        assert liks[..i + 1] == liks[..i] + [lik[i]];
        liksum := Add(liksum, lik[i]);
        i := i + 1;
      }
      assert liks[..size] == liks;
      assert lik[..] == liks;
    }

    /** adaptOff: nothing to adapt; the answer is true. */
    method AdaptOff() returns (b: bool)
      ensures b
    {
      return true;
    }
  }
}
