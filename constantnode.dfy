/**
 * ConstantNode (src/include/graph/ConstantNode.h): a parentless node whose
 * value is fixed at construction and shared by every chain.
 */
module ConstantNodes {
  import Rng
  import Dims

  /** The random-variable status of a node (RVStatus). */
  datatype RVStatus = RvFalse | RvTrueUnobserved | RvTrueObserved

  datatype ConstantNode = ConstantNode(dim: seq<nat>, value: seq<real>, nchain: nat, observed: bool)
  {
    /** The node's value in chain ch: the same for every chain. */
    function Value(ch: nat): seq<real> { value }

    function Parents(): seq<nat> { [] }

    /** (stochastic depth, deterministic depth). */
    function Depth(): (int, int) { (0, 0) }

    /** randomSample does nothing to the node or to the random number generator. */
    function RandomSample(rng: Rng.RNG, ch: nat): (ConstantNode, Rng.RNG) { (this, rng) }

    function CheckParentValues(ch: nat): bool { true }

    function IsFixed(): bool { true }

    /** Observed constants are observed random variables; other constants are not random variables. */
    function RandomVariableStatus(): RVStatus
    {
      if observed then RvTrueObserved else RvFalse
    }

    function LogDensity(ch: nat): real { 0.0 }

    function Df(): nat { 0 }

    function KL(ch1: nat, ch2: nat): real { 0.0 }

    function IsConstant(): bool { true }

    function IsDeterministic(): bool { false }

    function IsStochastic(): bool { false }
  }

  /** The scalar constructor ConstantNode(value, nchain, observed). */
  function ScalarConstant(v: real, nchain: nat, observed: bool): (c: ConstantNode)
    ensures Dims.IsScalar(c.dim) && c.Value(0) == [v] && c.nchain == nchain && c.observed == observed
  {
    ConstantNode([1], [v], nchain, observed)
  }

  /** A constant node has no parents and one value shared by all chains. */
  lemma SharedValue(c: ConstantNode, ch1: nat, ch2: nat)
    ensures c.Parents() == []
    ensures c.Value(ch1) == c.Value(ch2) == c.value
  {
  }

  /**
   * What the header promises of every constant node: it is fixed, accepts
   * its (absent) parents' values and has depth zero; it is an observed
   * random variable exactly when constructed as observed, and never an
   * unobserved one; it adds nothing to the log density, the degrees of
   * freedom or the divergence; and it counts as a constant only.
   */
  lemma ConstantNodeContract(c: ConstantNode, ch1: nat, ch2: nat)
    ensures c.IsFixed() && c.CheckParentValues(ch1) && c.Depth() == (0, 0)
    ensures c.RandomVariableStatus() == RvTrueObserved <==> c.observed
    ensures c.RandomVariableStatus() != RvTrueUnobserved
    ensures c.LogDensity(ch1) == 0.0 && c.Df() == 0 && c.KL(ch1, ch2) == 0.0
    ensures c.IsConstant() && !c.IsDeterministic() && !c.IsStochastic()
  {
  }

  /** randomSample leaves the value and the generator's state unchanged. */
  lemma RandomSampleIsNoOp(c: ConstantNode, rng: Rng.RNG, ch: nat)
    ensures c.RandomSample(rng, ch).0 == c
    ensures c.RandomSample(rng, ch).1.drawn == rng.drawn
    ensures c.RandomSample(rng, ch).1 == rng
  {
  }
}
