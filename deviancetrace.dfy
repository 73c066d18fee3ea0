/**
 * DevianceTrace (src/modules/dic/DevianceTrace.cc): the monitor that
 * records, at every iteration and for every chain, the deviance
 * -2 * sum of the full log densities of its stochastic nodes.
 */
module DevianceTraces {
  import opened Numeric

  const Name: string := "trace"

  /** toNode: the stochastic nodes seen as nodes, in the same order. */
  method ToNode(snodes: seq<nat>) returns (ans: seq<nat>)
    ensures |ans| == |snodes| && forall i :: 0 <= i < |snodes| ==> ans[i] == snodes[i]
  {
    var a := new nat[|snodes|];
    var i := 0;
    while i < |snodes|
      invariant i <= |snodes| && forall k :: 0 <= k < i ==> a[k] == snodes[k]
    {
      a[i] := snodes[i];
      i := i + 1;
    }
    ans := a[..];
  }

  /** The full log densities of the nodes in chain ch. */
  function LogDensities(snodes: seq<nat>, logDensity: (nat, nat) -> real, ch: nat): (l: seq<real>)
    ensures |l| == |snodes| && forall i :: 0 <= i < |snodes| ==> l[i] == logDensity(snodes[i], ch)
  {
    seq(|snodes|, i requires 0 <= i < |snodes| => logDensity(snodes[i], ch))
  }

  /** The deviance of chain ch: -2 times the total log density. */
  function Deviance(snodes: seq<nat>, logDensity: (nat, nat) -> real, ch: nat): real
  {
    -2.0 * Sum(LogDensities(snodes, logDensity, ch))
  }

  /** The deviance moves by -2 times the change of any one node's log density. */
  lemma DevianceOfOneNode(snodes: seq<nat>, logDensity: (nat, nat) -> real, logDensity': (nat, nat) -> real, ch: nat, k: nat)
    requires k < |snodes|
    requires forall i :: 0 <= i < |snodes| && i != k ==> logDensity'(snodes[i], ch) == logDensity(snodes[i], ch)
    ensures Deviance(snodes, logDensity', ch)
         == Deviance(snodes, logDensity, ch) - 2.0 * (logDensity'(snodes[k], ch) - logDensity(snodes[k], ch))
  {
    var l := LogDensities(snodes, logDensity, ch);
    var l' := LogDensities(snodes, logDensity', ch);
    assert l' == l[k := logDensity'(snodes[k], ch)];
    SumUpdate(l, k, logDensity'(snodes[k], ch));
  }

  class DevianceTrace {
    const snodes: seq<nat>
    const nodes: seq<nat>
    const nchain: nat
    /** One history of deviances per chain. */
    var values: seq<seq<real>>

    /** One history per chain, and the same number of iterations in each. */
    ghost predicate Valid()
      reads this
    {
      |values| == nchain && forall ch :: 0 <= ch < nchain ==> |values[ch]| == |values[0]|
    }

    /**
     * The monitor watches the stochastic nodes and starts with an empty
     * history for each of the chains of the first one.
     */
    constructor (snodes: seq<nat>, nchain: nat)
      requires |snodes| >= 1
      ensures this.snodes == snodes && this.nodes == snodes && this.nchain == nchain
      ensures values == seq(nchain, ch => [])
      ensures Valid()
    {
      this.snodes := snodes;
      var n := ToNode(snodes);
      this.nodes := n;
      this.nchain := nchain;
      values := seq(nchain, ch => []);
    }

    /** dim: one deviance per iteration. */
    function Dim(): (d: seq<nat>)
      ensures d == [1]
    {
      [1]
    }

    /** value(chain): that chain's history. */
    function Value(chain: nat): seq<real>
      requires chain < |values|
      reads this
    {
      values[chain]
    }

    /** Chains are kept apart. */
    predicate PoolChains()
    {
      false
    }

    /** Iterations are kept apart. */
    predicate PoolIterations()
    {
      false
    }

    /** update: appends each chain's current deviance to its history, and nothing else. */
    method Update(logDensity: (nat, nat) -> real)
      requires Valid()
      modifies this
      ensures Valid()
      ensures |values| == |old(values)|
      ensures forall ch :: 0 <= ch < nchain ==> values[ch] == old(values[ch]) + [Deviance(snodes, logDensity, ch)]
    {
      var ch := 0;
      while ch < nchain
        invariant ch <= nchain && |values| == nchain
        invariant forall c :: 0 <= c < ch ==> values[c] == old(values[c]) + [Deviance(snodes, logDensity, c)]
        invariant forall c :: ch <= c < nchain ==> values[c] == old(values[c])
      {
        var loglik := TotalLogDensity(snodes, logDensity, ch);
        values := values[ch := values[ch] + [-2.0 * loglik]];
        ch := ch + 1;
      }
    }
  }

  /** The inner loop of update: loglik accumulates the nodes' log densities. */
  method TotalLogDensity(snodes: seq<nat>, logDensity: (nat, nat) -> real, ch: nat) returns (loglik: real)
    ensures loglik == Sum(LogDensities(snodes, logDensity, ch))
  {
    ghost var l := LogDensities(snodes, logDensity, ch);
    loglik := 0.0;
    var i := 0;
    while i < |snodes|
      invariant i <= |snodes| && loglik == Sum(l[..i])
    {
      SumPrefixStep(l, i);
      loglik := loglik + logDensity(snodes[i], ch);
      i := i + 1;
    }
    assert l[..|snodes|] == l;
  }
}
