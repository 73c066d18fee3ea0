/**
 * ConjugateMNormal (src/modules/bugs/samplers/ConjugateMNormal.cc):
 * conjugate Gibbs sampling of a multivariate normal node whose
 * stochastic children are normal or multivariate normal with means
 * linear in the node.
 */
module ConjugateMNormals {
  import opened Wrappers
  import opened Numeric
  import opened Matrices
  import opened ConjugateDists
  import Rng

  /*
   * The betas array: child j owns a contiguous block of
   * nrow_child * nrow entries, blocks in children order, and entry
   * nrow * k + i of block j is the coefficient of x[i] in mu_j[k].
   */

  /** Where the block of child j starts: the sizes of the blocks before it. */
  function BlockStart(lengths: seq<nat>, nrow: nat, j: nat): nat
    requires j <= |lengths|
  {
    if j == 0 then 0 else BlockStart(lengths, nrow, j - 1) + lengths[j - 1] * nrow
  }

  lemma {:induction false} BlockStartMonotone(lengths: seq<nat>, nrow: nat, j: nat, j': nat)
    requires j <= j' <= |lengths|
    ensures BlockStart(lengths, nrow, j) <= BlockStart(lengths, nrow, j')
    decreases j' - j
  {
    if j < j' {
      BlockStartMonotone(lengths, nrow, j, j' - 1);
    }
  }

  /** A (child, element of child, element of node) triple in range. */
  predicate InRange(lengths: seq<nat>, nrow: nat, j: nat, k: nat, i: nat)
  {
    j < |lengths| && k < lengths[j] && i < nrow
  }

  /** The position of coefficient (j, k, i). */
  function Pos(lengths: seq<nat>, nrow: nat, j: nat, k: nat, i: nat): nat
    requires j < |lengths|
  {
    BlockStart(lengths, nrow, j) + Idx(nrow, i, k)
  }

  /** Coefficient (j, k, i) lies in block j. */
  lemma PosInBlock(lengths: seq<nat>, nrow: nat, j: nat, k: nat, i: nat)
    requires InRange(lengths, nrow, j, k, i)
    ensures BlockStart(lengths, nrow, j) <= Pos(lengths, nrow, j, k, i) < BlockStart(lengths, nrow, j + 1)
  {
    IdxBound(nrow, lengths[j], i, k);
    assert nrow * lengths[j] == lengths[j] * nrow;
  }

  /** The triple stored at position p, found block by block from block j. */
  function DecodeFrom(lengths: seq<nat>, nrow: nat, j: nat, p: nat): (t: (nat, nat, nat))
    requires j < |lengths| && BlockStart(lengths, nrow, j) <= p < BlockStart(lengths, nrow, |lengths|)
    ensures InRange(lengths, nrow, t.0, t.1, t.2) && Pos(lengths, nrow, t.0, t.1, t.2) == p
    decreases |lengths| - j
  {
    if p < BlockStart(lengths, nrow, j + 1) then
      var off := p - BlockStart(lengths, nrow, j);
      DecodeInBlock(off, nrow, lengths[j]);
      (j, off / nrow, off % nrow)
    else
      DecodeFrom(lengths, nrow, j + 1, p)
  }

  lemma DecodeInBlock(off: nat, nrow: nat, len: nat)
    requires off < len * nrow
    ensures nrow > 0 && off % nrow < nrow && off / nrow < len && Idx(nrow, off % nrow, off / nrow) == off
  {
    var k, i := off / nrow, off % nrow;
    assert nrow * k + i == off;
    assert off < nrow * len;
    if k >= len {
      MulMonotone(nrow, len, k);
    }
  }

  /** The triple stored at position p of the betas. */
  function Decode(lengths: seq<nat>, nrow: nat, p: nat): (t: (nat, nat, nat))
    requires p < BlockStart(lengths, nrow, |lengths|)
    ensures InRange(lengths, nrow, t.0, t.1, t.2) && Pos(lengths, nrow, t.0, t.1, t.2) == p
  {
    DecodeFrom(lengths, nrow, 0, p)
  }

  /** Distinct triples have distinct positions, so Decode inverts Pos. */
  lemma PosInjective(lengths: seq<nat>, nrow: nat, j: nat, k: nat, i: nat, j': nat, k': nat, i': nat)
    requires InRange(lengths, nrow, j, k, i) && InRange(lengths, nrow, j', k', i')
    requires Pos(lengths, nrow, j, k, i) == Pos(lengths, nrow, j', k', i')
    ensures j == j' && k == k' && i == i'
  {
    PosInBlock(lengths, nrow, j, k, i);
    PosInBlock(lengths, nrow, j', k', i');
    if j < j' {
      BlockStartMonotone(lengths, nrow, j + 1, j');
    } else if j' < j {
      BlockStartMonotone(lengths, nrow, j' + 1, j);
    } else {
      IdxInjective(nrow, i, k, i', k');
    }
  }

  lemma DecodePos(lengths: seq<nat>, nrow: nat, j: nat, k: nat, i: nat)
    requires InRange(lengths, nrow, j, k, i)
    ensures Pos(lengths, nrow, j, k, i) < BlockStart(lengths, nrow, |lengths|)
    ensures Decode(lengths, nrow, Pos(lengths, nrow, j, k, i)) == (j, k, i)
  {
    PosInBlock(lengths, nrow, j, k, i);
    BlockStartMonotone(lengths, nrow, j + 1, |lengths|);
    var t := Decode(lengths, nrow, Pos(lengths, nrow, j, k, i));
    PosInjective(lengths, nrow, j, k, i, t.0, t.1, t.2);
  }

  /** The sum of the first j children's lengths. */
  function ChildrenLength(lengths: seq<nat>, j: nat): nat
    requires j <= |lengths|
  {
    if j == 0 then 0 else ChildrenLength(lengths, j - 1) + lengths[j - 1]
  }

  /** The betas array has (sum of children's lengths) * nrow entries. */
  lemma {:induction false} BlockStartIsProduct(lengths: seq<nat>, nrow: nat, j: nat)
    requires j <= |lengths|
    ensures BlockStart(lengths, nrow, j) == ChildrenLength(lengths, j) * nrow
  {
    if j > 0 {
      BlockStartIsProduct(lengths, nrow, j - 1);
      var a, b := ChildrenLength(lengths, j - 1), lengths[j - 1];
      assert (a + b) * nrow == a * nrow + b * nrow;
    }
  }

  /** sumChildrenLength: adds up the stochastic children's lengths. */
  method SumChildrenLength(lengths: seq<nat>) returns (n: nat)
    ensures n == ChildrenLength(lengths, |lengths|)
  {
    n := 0;
    var i := 0;
    while i < |lengths|
      invariant i <= |lengths| && n == ChildrenLength(lengths, i)
    {
      n := n + lengths[i];
      i := i + 1;
    }
  }

  /** x + e_i: the node's value with element i increased by one. */
  function AddUnit(x: seq<real>, i: nat): (y: seq<real>)
    requires i < |x|
    ensures |y| == |x| && y[i] == x[i] + 1.0
    ensures forall i' :: 0 <= i' < |x| && i' != i ==> y[i'] == x[i']
  {
    x[i := x[i] + 1.0]
  }

  /**
   * The linear coefficients calBeta computes, position by position:
   * position p holds mu_j[k](x + e_i) - mu_j[k](x) for the triple
   * (j, k, i) stored at p.  mean(ch, j, k, x) is mu_j[k] in chain ch
   * when the node has value x.
   */
  function Betas(mean: (nat, nat, nat, seq<real>) -> real, ch: nat, lengths: seq<nat>, nrow: nat, x: seq<real>): (b: seq<real>)
    requires |x| == nrow
    ensures |b| == BlockStart(lengths, nrow, |lengths|)
  {
    seq(BlockStart(lengths, nrow, |lengths|), p requires 0 <= p < BlockStart(lengths, nrow, |lengths|) =>
      var t := Decode(lengths, nrow, p);
      mean(ch, t.0, t.1, AddUnit(x, t.2)) - mean(ch, t.0, t.1, x))
  }

  /** Entry nrow * k + i of child j's block is the change in mu_j[k] when x[i] grows by one. */
  lemma BetasEntry(mean: (nat, nat, nat, seq<real>) -> real, ch: nat, lengths: seq<nat>, nrow: nat, x: seq<real>,
                   j: nat, k: nat, i: nat)
    requires |x| == nrow && InRange(lengths, nrow, j, k, i)
    ensures Pos(lengths, nrow, j, k, i) < |Betas(mean, ch, lengths, nrow, x)|
    ensures Betas(mean, ch, lengths, nrow, x)[BlockStart(lengths, nrow, j) + nrow * k + i]
         == mean(ch, j, k, AddUnit(x, i)) - mean(ch, j, k, x)
  {
    DecodePos(lengths, nrow, j, k, i);
  }

  /** The betas hold one block per child, of length nrow_child * nrow, and nothing else. */
  lemma BetasLayout(mean: (nat, nat, nat, seq<real>) -> real, ch: nat, lengths: seq<nat>, nrow: nat, x: seq<real>, j: nat)
    requires |x| == nrow && j < |lengths|
    ensures |Betas(mean, ch, lengths, nrow, x)| == ChildrenLength(lengths, |lengths|) * nrow
    ensures BlockStart(lengths, nrow, j + 1) == BlockStart(lengths, nrow, j) + lengths[j] * nrow
    ensures BlockStart(lengths, nrow, j + 1) <= |Betas(mean, ch, lengths, nrow, x)|
  {
    BlockStartIsProduct(lengths, nrow, |lengths|);
    BlockStartMonotone(lengths, nrow, j + 1, |lengths|);
  }

  /**
   * The part of a SingletonGraphView the sampler uses: the node's value
   * in each chain, its length, its stochastic children's lengths and
   * their means as functions of the node's value.
   */
  class MNormalView {
    var values: seq<seq<real>>
    const nrow: nat
    const lengths: seq<nat>
    const mean: (nat, nat, nat, seq<real>) -> real

    constructor(values: seq<seq<real>>, nrow: nat, lengths: seq<nat>, mean: (nat, nat, nat, seq<real>) -> real)
      ensures this.values == values && this.nrow == nrow && this.lengths == lengths && this.mean == mean
    {
      this.values := values;
      this.nrow := nrow;
      this.lengths := lengths;
      this.mean := mean;
    }

    function Total(): nat
    {
      BlockStart(lengths, nrow, |lengths|)
    }

    /** What stage one of calBeta leaves at position p: minus mu at x. */
    function Initial(ch: nat, x: seq<real>, p: nat): real
      requires p < Total()
    {
      var t := Decode(lengths, nrow, p);
      -mean(ch, t.0, t.1, x)
    }

    /** What calBeta leaves at position p: the entry of Betas at x. */
    function Final(ch: nat, x: seq<real>, p: nat): real
      requires |x| == nrow && p < Total()
    {
      Betas(mean, ch, lengths, nrow, x)[p]
    }

    /** Whether stage two has reached position p before column i, child j, element k. */
    predicate Done(p: nat, i: nat, j: nat, k: nat)
      requires p < Total()
    {
      var t := Decode(lengths, nrow, p);
      t.2 < i || (t.2 == i && (t.0 < j || (t.0 == j && t.1 < k)))
    }
  }

  /** Stage one of calBeta: every entry of child j's block gets -mu_j[k]. */
  method InitBetas(betas: array<real>, gv: MNormalView, ch: nat, x: seq<real>)
    requires betas.Length == gv.Total()
    modifies betas
    ensures forall p :: 0 <= p < betas.Length ==> betas[p] == gv.Initial(ch, x, p)
  {
    var cursor := 0;
    var j := 0;
    while j < |gv.lengths|
      invariant j <= |gv.lengths| && cursor == BlockStart(gv.lengths, gv.nrow, j) <= betas.Length
      invariant forall p :: 0 <= p < cursor ==> betas[p] == gv.Initial(ch, x, p)
    {
      BlockStartMonotone(gv.lengths, gv.nrow, j + 1, |gv.lengths|);
      InitBlock(betas, gv, ch, x, j);
      j := j + 1;
      cursor := BlockStart(gv.lengths, gv.nrow, j);
    }
  }

  /** The block of child j, given that every earlier position is done. */
  method InitBlock(betas: array<real>, gv: MNormalView, ch: nat, x: seq<real>, j: nat)
    requires betas.Length == gv.Total() && j < |gv.lengths|
    requires BlockStart(gv.lengths, gv.nrow, j + 1) <= betas.Length
    requires forall p :: 0 <= p < BlockStart(gv.lengths, gv.nrow, j) ==> betas[p] == gv.Initial(ch, x, p)
    modifies betas
    ensures forall p :: 0 <= p < BlockStart(gv.lengths, gv.nrow, j + 1) ==> betas[p] == gv.Initial(ch, x, p)
  {
    var start := BlockStart(gv.lengths, gv.nrow, j);
    var k := 0;
    while k < gv.lengths[j]
      invariant k <= gv.lengths[j]
      invariant forall p :: 0 <= p < start + Idx(gv.nrow, 0, k) ==> betas[p] == gv.Initial(ch, x, p)
    {
      IdxNextColumn(gv.nrow, k);
      MulMonotone(gv.nrow, k + 1, gv.lengths[j]);
      InitRow(betas, gv, ch, x, j, k);
      k := k + 1;
    }
    assert Idx(gv.nrow, 0, gv.lengths[j]) == gv.lengths[j] * gv.nrow;
  }

  /** Elements i = 0 .. nrow-1 for element k of child j. */
  method InitRow(betas: array<real>, gv: MNormalView, ch: nat, x: seq<real>, j: nat, k: nat)
    requires betas.Length == gv.Total() && j < |gv.lengths| && k < gv.lengths[j]
    requires Pos(gv.lengths, gv.nrow, j, k, gv.nrow) <= betas.Length
    requires forall p :: 0 <= p < Pos(gv.lengths, gv.nrow, j, k, 0) ==> betas[p] == gv.Initial(ch, x, p)
    modifies betas
    ensures forall p :: 0 <= p < Pos(gv.lengths, gv.nrow, j, k, gv.nrow) ==> betas[p] == gv.Initial(ch, x, p)
  {
    var i := 0;
    while i < gv.nrow
      invariant i <= gv.nrow
      invariant forall p :: 0 <= p < Pos(gv.lengths, gv.nrow, j, k, i) ==> betas[p] == gv.Initial(ch, x, p)
    {
      DecodePos(gv.lengths, gv.nrow, j, k, i);
      betas[Pos(gv.lengths, gv.nrow, j, k, i)] := -gv.mean(ch, j, k, x);
      i := i + 1;
    }
  }

  /**
   * calBeta: fills betas with the coefficients of the children's means
   * in the node's value in chain ch, by setting the node to x + e_i for
   * each i in turn, and leaves the node's value as it found it.
   */
  method CalBeta(betas: array<real>, gv: MNormalView, ch: nat)
    requires ch < |gv.values| && |gv.values[ch]| == gv.nrow && betas.Length == gv.Total()
    modifies betas, gv
    ensures gv.values == old(gv.values)
    ensures betas[..] == Betas(gv.mean, ch, gv.lengths, gv.nrow, old(gv.values[ch]))
  {
    var x := gv.values[ch];
    var xnew := x;
    InitBetas(betas, gv, ch, x);
    var i := 0;
    while i < gv.nrow
      invariant i <= gv.nrow && xnew == x
      invariant |gv.values| == |old(gv.values)| && gv.values == old(gv.values)[ch := gv.values[ch]]
      invariant forall p :: 0 <= p < betas.Length ==>
        betas[p] == if gv.Done(p, i, 0, 0) then gv.Final(ch, x, p) else gv.Initial(ch, x, p)
    {
      xnew := xnew[i := xnew[i] + 1.0];
      gv.values := gv.values[ch := xnew];
      AddColumn(betas, gv, ch, x, i);
      xnew := xnew[i := xnew[i] - 1.0];
      i := i + 1;
    }
    gv.values := gv.values[ch := xnew];
    assert forall p :: 0 <= p < betas.Length ==> betas[p] == gv.Final(ch, x, p);
  }

  /** Stage two for column i: adds mu_j[k](x + e_i) to entry (j, k, i) of every child. */
  method AddColumn(betas: array<real>, gv: MNormalView, ch: nat, x: seq<real>, i: nat)
    requires ch < |gv.values| && |x| == gv.nrow && i < gv.nrow && gv.values[ch] == AddUnit(x, i)
    requires betas.Length == gv.Total()
    requires forall p :: 0 <= p < betas.Length ==>
      betas[p] == if gv.Done(p, i, 0, 0) then gv.Final(ch, x, p) else gv.Initial(ch, x, p)
    modifies betas
    ensures forall p :: 0 <= p < betas.Length ==>
      betas[p] == if gv.Done(p, i + 1, 0, 0) then gv.Final(ch, x, p) else gv.Initial(ch, x, p)
  {
    var j := 0;
    while j < |gv.lengths|
      invariant j <= |gv.lengths|
      invariant forall p :: 0 <= p < betas.Length ==>
        betas[p] == if gv.Done(p, i, j, 0) then gv.Final(ch, x, p) else gv.Initial(ch, x, p)
    {
      AddChild(betas, gv, ch, x, i, j);
      j := j + 1;
    }
  }

  /** Stage two for column i and child j. */
  method AddChild(betas: array<real>, gv: MNormalView, ch: nat, x: seq<real>, i: nat, j: nat)
    requires ch < |gv.values| && |x| == gv.nrow && i < gv.nrow && gv.values[ch] == AddUnit(x, i)
    requires betas.Length == gv.Total() && j < |gv.lengths|
    requires forall p :: 0 <= p < betas.Length ==>
      betas[p] == if gv.Done(p, i, j, 0) then gv.Final(ch, x, p) else gv.Initial(ch, x, p)
    modifies betas
    ensures forall p :: 0 <= p < betas.Length ==>
      betas[p] == if gv.Done(p, i, j + 1, 0) then gv.Final(ch, x, p) else gv.Initial(ch, x, p)
  {
    var k := 0;
    while k < gv.lengths[j]
      invariant k <= gv.lengths[j]
      invariant forall p :: 0 <= p < betas.Length ==>
        betas[p] == if gv.Done(p, i, j, k) then gv.Final(ch, x, p) else gv.Initial(ch, x, p)
    {
      DecodePos(gv.lengths, gv.nrow, j, k, i);
      var pos := Pos(gv.lengths, gv.nrow, j, k, i);
      betas[pos] := betas[pos] + gv.mean(ch, j, k, gv.values[ch]);
      k := k + 1;
    }
  }

  /** The facts canSample reads about one stochastic child. */
  datatype MNormChild = MNormChild(dist: ConjugateDist, bounded: bool, precisionDependent: bool)

  /** A child the sampler can handle: normal or multivariate normal, unbounded, precision free of the node. */
  predicate ChildOk(c: MNormChild)
  {
    (c.dist == MNorm || c.dist == Norm) && !c.bounded && !c.precisionDependent
  }

  /**
   * The node is multivariate normal and unbounded, every stochastic
   * child is acceptable, and the deterministic descendants are linear
   * (checkLinear(gv, false), given as linear).
   */
  predicate CanSampleSpec(dist: ConjugateDist, bounded: bool, children: seq<MNormChild>, linear: bool)
  {
    dist == MNorm && !bounded && (forall i :: 0 <= i < |children| ==> ChildOk(children[i])) && linear
  }

  method CanSample(dist: ConjugateDist, bounded: bool, children: seq<MNormChild>, linear: bool) returns (b: bool)
    ensures b == CanSampleSpec(dist, bounded, children, linear)
  {
    if dist != MNorm || bounded {
      return false;
    }
    var i := 0;
    while i < |children|
      invariant i <= |children| && forall i' :: 0 <= i' < i ==> ChildOk(children[i'])
    {
      var c := children[i];
      if c.dist != MNorm && c.dist != Norm {
        return false;
      }
      if c.bounded {
        return false;
      }
      if c.precisionDependent {
        return false;
      }
      i := i + 1;
    }
    if !linear {
      return false;
    }
    return true;
  }

  /** priorprec[i * nrow + i2] * (priormean[i2] - xold[i2]). */
  function Term(prec: seq<real>, mean: seq<real>, x: seq<real>, nrow: nat, i: nat, i2: nat): real
    requires |prec| == nrow * nrow && |mean| == nrow && |x| == nrow && i < nrow && i2 < nrow
  {
    IdxBound(nrow, nrow, i2, i);
    prec[Idx(nrow, i2, i)] * (mean[i2] - x[i2])
  }

  /**
   * The prior part of b with the origin moved to xold: row i of the
   * prior precision times (priormean - xold).
   */
  function PriorB(prec: seq<real>, mean: seq<real>, x: seq<real>, nrow: nat): (b: seq<real>)
    requires |prec| == nrow * nrow && |mean| == nrow && |x| == nrow
    ensures |b| == nrow
  {
    seq(nrow, i requires 0 <= i < nrow => Sum(seq(nrow, i2 requires 0 <= i2 < nrow => Term(prec, mean, x, nrow, i, i2))))
  }

  lemma {:induction false} SumZeros(s: seq<real>)
    requires forall i :: 0 <= i < |s| ==> s[i] == 0.0
    ensures Sum(s) == 0.0
  {
    if |s| > 0 {
      SumZeros(s[..|s| - 1]);
    }
  }

  /** When the node sits at its prior mean, the prior pulls it nowhere: b is zero. */
  lemma PriorBAtMean(prec: seq<real>, mean: seq<real>, nrow: nat)
    requires |prec| == nrow * nrow && |mean| == nrow
    ensures forall i :: 0 <= i < nrow ==> PriorB(prec, mean, mean, nrow)[i] == 0.0
  {
    forall i | 0 <= i < nrow
      ensures PriorB(prec, mean, mean, nrow)[i] == 0.0
    {
      SumZeros(seq(nrow, i2 requires 0 <= i2 < nrow => Term(prec, mean, mean, nrow, i, i2)));
    }
  }

  /** The set-up loops of update: A is a copy of the prior precision and b is PriorB. */
  method SetUp(prec: seq<real>, mean: seq<real>, x: seq<real>, nrow: nat) returns (a: seq<real>, b: seq<real>)
    requires |prec| == nrow * nrow && |mean| == nrow && |x| == nrow
    ensures a == prec && b == PriorB(prec, mean, x, nrow)
  {
    b := [];
    var i := 0;
    while i < nrow
      invariant i <= nrow && b == PriorB(prec, mean, x, nrow)[..i]
    {
      var bi := RowSum(prec, mean, x, nrow, i);
      b := b + [bi];
      i := i + 1;
    }
    a := [];
    var n := nrow * nrow;
    var m := 0;
    while m < n
      invariant m <= n && a == prec[..m]
    {
      a := a + [prec[m]];
      m := m + 1;
    }
  }

  /** b[i] accumulated over i2 from zero. */
  method RowSum(prec: seq<real>, mean: seq<real>, x: seq<real>, nrow: nat, i: nat) returns (bi: real)
    requires |prec| == nrow * nrow && |mean| == nrow && |x| == nrow && i < nrow
    ensures bi == PriorB(prec, mean, x, nrow)[i]
  {
    ghost var terms := seq(nrow, i2 requires 0 <= i2 < nrow => Term(prec, mean, x, nrow, i, i2));
    bi := 0.0;
    var i2 := 0;
    while i2 < nrow
      invariant i2 <= nrow && bi == Sum(terms[..i2])
    {
      SumPrefixStep(terms, i2);
      bi := bi + Term(prec, mean, x, nrow, i, i2);
      i2 := i2 + 1;
    }
    assert terms[..nrow] == terms;
  }

  /**
   * The BLAS and LAPACK steps of update, as given functions:
   * accumulate adds the children's contributions to (A, b), given the
   * betas (None when there are no deterministic children, so beta is
   * the identity); solve is DPOSV, returning info and the solution of
   * A x = b; sample is DMNorm::randomsample with mean and precision A.
   */
  datatype LinearAlgebra = LinearAlgebra(
    accumulate: (nat, seq<real>, seq<real>, Option<seq<real>>) -> (seq<real>, seq<real>),
    solve: (seq<real>, seq<real>) -> (int, nat -> real),
    sample: (seq<real>, seq<real>, Rng.RNG) -> (nat -> real, Rng.RNG))

  /**
   * The prior of the node in each chain.
   */
  datatype Prior = Prior(mean: nat -> seq<real>, precision: nat -> seq<real>)

  class ConjugateMNormal {
    const gv: MNormalView
    const node: nat
    const prior: Prior
    const hasDetChildren: bool
    const lengthBetas: nat
    /** The betas computed once at construction (_betas), when they are fixed. */
    const betas: Option<seq<real>>

    /**
     * Betas are precomputed from chain 0 only when there are
     * deterministic children and they are fixed linear functions of the
     * node (checkLinear(gv, true), given as fixedLinear).
     */
    constructor(gv: MNormalView, node: nat, prior: Prior, hasDetChildren: bool, fixedLinear: bool)
      requires |gv.values| > 0 && |gv.values[0]| == gv.nrow
      modifies gv
      ensures this.gv == gv && this.node == node && this.prior == prior && this.hasDetChildren == hasDetChildren
      ensures lengthBetas == ChildrenLength(gv.lengths, |gv.lengths|) * gv.nrow
      ensures betas == if hasDetChildren && fixedLinear
                       then Some(Betas(gv.mean, 0, gv.lengths, gv.nrow, old(gv.values[0])))
                       else None
      ensures gv.values == old(gv.values)
    {
      var n := SumChildrenLength(gv.lengths);
      var len := n * gv.nrow;
      this.gv := gv;
      this.node := node;
      this.prior := prior;
      this.hasDetChildren := hasDetChildren;
      this.lengthBetas := len;
      if hasDetChildren && fixedLinear {
        BlockStartIsProduct(gv.lengths, gv.nrow, |gv.lengths|);
        var a := new real[len];
        CalBeta(a, gv, 0);
        this.betas := Some(a[..]);
      } else {
        this.betas := None;
      }
    }

    /** The betas update uses in chain ch at node value x. */
    function Coefficients(ch: nat, x: seq<real>): Option<seq<real>>
      requires |x| == gv.nrow
    {
      if !hasDetChildren then None
      else if betas.Some? then betas
      else Some(Betas(gv.mean, ch, gv.lengths, gv.nrow, x))
    }

    /** Whether the prior's parameters in chain ch have the node's shape. */
    predicate PriorFits(ch: nat)
    {
      |prior.mean(ch)| == gv.nrow && |prior.precision(ch)| == gv.nrow * gv.nrow
    }

    /**
     * What update does in chain ch from node value x: the outcome, the
     * new value (None when the value is left alone) and the generator.
     */
    function Posterior(ch: nat, x: seq<real>, la: LinearAlgebra, rng: Rng.RNG): (r: (Outcome, Option<seq<real>>, Rng.RNG))
      requires |x| == gv.nrow && PriorFits(ch)
      ensures r.0.Fail? <==> r.1.None?
      ensures r.0.Fail? ==> r.0 == Fail(NodeError(node)) && r.2 == rng
      ensures r.1.Some? ==> |r.1.value| == gv.nrow
    {
      var a0 := prior.precision(ch);
      var b0 := PriorB(a0, prior.mean(ch), x, gv.nrow);
      var ab := la.accumulate(ch, a0, b0, Coefficients(ch, x));
      var solved := la.solve(ab.0, ab.1);
      if solved.0 != 0 then
        (Fail(NodeError(node)), None, rng)
      else
        var postMean := seq(gv.nrow, i requires 0 <= i < gv.nrow => solved.1(i) + x[i]);
        var draw := la.sample(postMean, ab.0, rng);
        (Pass, Some(seq(gv.nrow, i requires 0 <= i => draw.0(i))), draw.1)
    }

    /**
     * update: builds A and b from the prior with the origin at xold,
     * adds the children's terms, solves for the posterior mean and
     * draws the new value; a failed solve is a NodeError for the node
     * and leaves its value alone.
     */
    method Update(ch: nat, la: LinearAlgebra, rng: Rng.RNG) returns (res: Outcome, rng': Rng.RNG)
      requires ch < |gv.values| && |gv.values[ch]| == gv.nrow && PriorFits(ch)
      modifies gv
      ensures var r := Posterior(ch, old(gv.values[ch]), la, rng);
        res == r.0 && rng' == r.2 &&
        gv.values == if r.1.Some? then old(gv.values)[ch := r.1.value] else old(gv.values)
    {
      var x := gv.values[ch];
      var a, b := SetUp(prior.precision(ch), prior.mean(ch), x, gv.nrow);
      var coef: Option<seq<real>> := None;
      if hasDetChildren {
        if betas.None? {
          var temp := new real[gv.Total()];
          CalBeta(temp, gv, ch);
          coef := Some(temp[..]);
        } else {
          coef := betas;
        }
      }
      var ab := la.accumulate(ch, a, b, coef);
      var solved := la.solve(ab.0, ab.1);
      if solved.0 != 0 {
        return Fail(NodeError(node)), rng;
      }
      var postMean := seq(gv.nrow, i requires 0 <= i < gv.nrow => solved.1(i) + x[i]);
      var draw := la.sample(postMean, ab.0, rng);
      var xnew := seq(gv.nrow, i requires 0 <= i => draw.0(i));
      gv.values := gv.values[ch := xnew];
      return Pass, draw.1;
    }
  }
}
