/**
 * ShiftedMultinomial (src/modules/bugs/samplers/ShiftedMultinomial.cc):
 * a multinomial node X whose binomial children Y[j] have size X[i] for at
 * most one child per element i is sampled as a shifted multinomial.
 */
module ShiftedMultinomials {
  import opened Numeric
  import opened ConjugateDists
  import Rng

  /** A count held in an unsigned long; UlongMax marks an element no child is attached to. */
  type Count = n: nat | n <= UlongMax

  function Zeros(m: nat): (x: seq<real>)
    ensures |x| == m && forall k :: 0 <= k < m ==> x[k] == 0.0
  {
    seq(m, k => 0.0)
  }

  /** The unit vector e_i of length m. */
  function Unit(m: nat, i: nat): (x: seq<real>)
    ensures |x| == m && forall k :: 0 <= k < m ==> x[k] == (if k == i then 1.0 else 0.0)
  {
    seq(m, k => if k == i then 1.0 else 0.0)
  }

  datatype ChildInfo = ChildInfo(dist: ConjugateDist, bounded: bool, probDependent: bool)

  /**
   * The sampled node seen through its SingletonGraphView: its value in
   * every chain (what setValue writes), and what the sampler reads of the
   * node and its binomial children.
   */
  class GraphView {
    var values: seq<seq<real>>
    const m: nat                                // gv->length()
    const nchildren: Count                        // J
    /** SIZE(CHILD(j)) in a chain when the node's value is x. */
    const childSize: (nat, nat, seq<real>) -> real
    /** The value of child j in a chain. */
    const childValue: (nat, nat) -> real
    /** PROB(CHILD(j)) in a chain. */
    const childProb: (nat, nat) -> real
    /** SIZE(snode) and PROB(snode) in a chain. */
    const nodeSize: nat -> real
    const nodeProb: nat -> seq<real>

    constructor (values: seq<seq<real>>, m: nat, nchildren: Count, childSize: (nat, nat, seq<real>) -> real,
                 childValue: (nat, nat) -> real, childProb: (nat, nat) -> real,
                 nodeSize: nat -> real, nodeProb: nat -> seq<real>)
      ensures this.values == values && this.m == m && this.nchildren == nchildren
      ensures this.childSize == childSize && this.childValue == childValue && this.childProb == childProb
      ensures this.nodeSize == nodeSize && this.nodeProb == nodeProb
    {
      this.values := values;
      this.m := m;
      this.nchildren := nchildren;
      this.childSize := childSize;
      this.childValue := childValue;
      this.childProb := childProb;
      this.nodeSize := nodeSize;
      this.nodeProb := nodeProb;
    }

    /** Every child has size zero when the node is zero. */
    predicate ZeroSizes(ch: nat)
    {
      forall j :: 0 <= j < nchildren ==> childSize(ch, j, Zeros(m)) == 0.0
    }

    /** No child has size above one at a unit vector. */
    predicate UnitSizes(ch: nat)
    {
      forall i, j :: 0 <= i < m && 0 <= j < nchildren ==> !(childSize(ch, j, Unit(m, i)) > 1.0)
    }

    /** The last child j < k whose size at e_i is exactly 1, or ULONG_MAX. */
    function LastUnit(ch: nat, i: nat, k: Count): (j: nat)
      ensures j == UlongMax || (j < k && childSize(ch, j, Unit(m, i)) == 1.0)
      ensures forall j' :: (j == UlongMax || j < j') && 0 <= j' < k ==> childSize(ch, j', Unit(m, i)) != 1.0
    {
      if k == 0 then UlongMax
      else if childSize(ch, k - 1, Unit(m, i)) == 1.0 then k - 1
      else LastUnit(ch, i, k - 1)
    }

    /** What makeIndex as written returns for a chain. */
    function IndexSpec(ch: nat): seq<nat>
    {
      if !ZeroSizes(ch) || !UnitSizes(ch) then []
      else seq(m, i requires 0 <= i => LastUnit(ch, i, nchildren))
    }

    /** No two children both have size exactly 1 at e_i. */
    predicate UniqueUnitAt(ch: nat, i: nat, k: nat)
    {
      forall j1, j2 :: 0 <= j1 < j2 < k ==>
        !(childSize(ch, j1, Unit(m, i)) == 1.0 && childSize(ch, j2, Unit(m, i)) == 1.0)
    }

    /** At every unit vector at most one child has size exactly 1. */
    predicate UniqueUnits(ch: nat)
    {
      forall i :: 0 <= i < m ==> UniqueUnitAt(ch, i, nchildren)
    }

    /**
     * What makeIndex returns once its "more than one stochastic child
     * depends on X[i]" test can fire: also empty when two children have
     * size 1 at the same unit vector.
     */
    function IndexSpecIntended(ch: nat): seq<nat>
    {
      if !ZeroSizes(ch) || !UnitSizes(ch) || !UniqueUnits(ch) then []
      else seq(m, i requires 0 <= i => LastUnit(ch, i, nchildren))
    }

    /**
     * The first loop of makeIndex, run with the node set to zero: do all
     * children have size zero?
     */
    method ScanZero(ch: nat) returns (ok: bool)
      requires ch < |values| && values[ch] == Zeros(m)
      ensures ok == ZeroSizes(ch)
    {
      var j := 0;
      while j < nchildren
        invariant j <= nchildren
        invariant forall j' :: 0 <= j' < j ==> childSize(ch, j', Zeros(m)) == 0.0
      {
        if childSize(ch, j, values[ch]) != 0.0 {
          return false;
        }
        j := j + 1;
      }
      return true;
    }

    /**
     * The inner loop of makeIndex, run with the node set to e_i: fails
     * when some child size exceeds one, and otherwise yields the child
     * recorded for element i. found_index is reset for every child, so
     * its "more than one child" test never fires and the last child of
     * size one wins.
     */
    method ScanUnit(ch: nat, i: nat) returns (ok: bool, j: nat)
      requires ch < |values| && i < m && values[ch] == Unit(m, i)
      ensures ok == forall j' :: 0 <= j' < nchildren ==> !(childSize(ch, j', Unit(m, i)) > 1.0)
      ensures ok ==> j == LastUnit(ch, i, nchildren)
    {
      j := UlongMax;
      var k := 0;
      while k < nchildren
        invariant k <= nchildren
        invariant forall j' :: 0 <= j' < k ==> !(childSize(ch, j', Unit(m, i)) > 1.0)
        invariant j == LastUnit(ch, i, k)
      {
        var foundIndex := false;
        var nj := childSize(ch, k, values[ch]);
        if nj > 1.0 {
          return false, j;
        }
        if nj == 1.0 {
          if foundIndex {
            return false, j;
          } else {
            j := k;
            foundIndex := true;
          }
        }
        k := k + 1;
      }
      return true, j;
    }

    /**
     * The inner loop of makeIndex with found_index declared before the
     * loop over the children, so that a second child of size one at e_i
     * is refused.
     */
    method ScanUnitIntended(ch: nat, i: nat) returns (ok: bool, j: nat)
      requires ch < |values| && i < m && values[ch] == Unit(m, i)
      ensures ok == ((forall j' :: 0 <= j' < nchildren ==> !(childSize(ch, j', Unit(m, i)) > 1.0))
                     && UniqueUnitAt(ch, i, nchildren))
      ensures ok ==> j == LastUnit(ch, i, nchildren)
    {
      j := UlongMax;
      var foundIndex := false;
      var k := 0;
      while k < nchildren
        invariant k <= nchildren
        invariant forall j' :: 0 <= j' < k ==> !(childSize(ch, j', Unit(m, i)) > 1.0)
        invariant UniqueUnitAt(ch, i, k)
        invariant j == LastUnit(ch, i, k)
        invariant foundIndex <==> j != UlongMax
      {
        var nj := childSize(ch, k, values[ch]);
        if nj > 1.0 {
          return false, j;
        }
        if nj == 1.0 {
          if foundIndex {
            assert childSize(ch, j, Unit(m, i)) == 1.0 && j < k;
            return false, j;
          } else {
            j := k;
            foundIndex := true;
          }
        }
        k := k + 1;
      }
      return true, j;
    }

    /**
     * makeIndex: with the node set to zero every child size must be zero,
     * and with the node set to each unit vector no child size may exceed
     * one; index[i] is then the child whose size is one at e_i (the last
     * such child), or ULONG_MAX. The node's value is restored on every
     * return path.
     */
    method MakeIndex(ch: nat) returns (index: seq<nat>)
      requires ch < |values|
      modifies this
      ensures values == old(values)
      ensures index == IndexSpec(ch)
    {
      var xold := values[ch];
      values := values[ch := Zeros(m)];
      var zeroOk := ScanZero(ch);
      if !zeroOk {
        values := values[ch := xold];
        return [];
      }
      index := seq(m, i => UlongMax);
      var i := 0;
      while i < m
        invariant i <= m && |index| == m && |values| == |old(values)|
        invariant values == old(values)[ch := values[ch]]
        invariant forall i', j' :: 0 <= i' < i && 0 <= j' < nchildren ==> !(childSize(ch, j', Unit(m, i')) > 1.0)
        invariant forall i' :: 0 <= i' < i ==> index[i'] == LastUnit(ch, i', nchildren)
      {
        values := values[ch := Unit(m, i)];
        var ok, j := ScanUnit(ch, i);
        if !ok {
          values := values[ch := xold];
          return [];
        }
        index := index[i := j];
        values := values[ch := Zeros(m)];
        i := i + 1;
      }
      values := values[ch := xold];
      assert index == seq(m, i requires 0 <= i => LastUnit(ch, i, nchildren));
    }


    /** makeIndex with the duplicate test in force (see ScanUnitIntended). */
    method MakeIndexIntended(ch: nat) returns (index: seq<nat>)
      requires ch < |values|
      modifies this
      ensures values == old(values)
      ensures index == IndexSpecIntended(ch)
    {
      var xold := values[ch];
      values := values[ch := Zeros(m)];
      var zeroOk := ScanZero(ch);
      if !zeroOk {
        values := values[ch := xold];
        return [];
      }
      index := seq(m, i => UlongMax);
      var i := 0;
      while i < m
        invariant i <= m && |index| == m && |values| == |old(values)|
        invariant values == old(values)[ch := values[ch]]
        invariant forall i', j' :: 0 <= i' < i && 0 <= j' < nchildren ==> !(childSize(ch, j', Unit(m, i')) > 1.0)
        invariant forall i' :: 0 <= i' < i ==> UniqueUnitAt(ch, i', nchildren)
        invariant forall i' :: 0 <= i' < i ==> index[i'] == LastUnit(ch, i', nchildren)
      {
        values := values[ch := Unit(m, i)];
        var ok, j := ScanUnitIntended(ch, i);
        if !ok {
          values := values[ch := xold];
          return [];
        }
        index := index[i := j];
        values := values[ch := Zeros(m)];
        i := i + 1;
      }
      values := values[ch := xold];
      assert index == seq(m, i requires 0 <= i => LastUnit(ch, i, nchildren));
    }
  }

  /**
   * The shape makeIndex promises: empty, or one entry per element that is
   * a child index below J or ULONG_MAX.
   */
  lemma IndexShape(gv: GraphView, ch: nat)
    ensures var index := gv.IndexSpec(ch);
      index == [] || (|index| == gv.m && forall i :: 0 <= i < gv.m ==> index[i] < gv.nchildren || index[i] == UlongMax)
  {
  }

  /**
   * The child chosen for element i has size one at e_i and is the last
   * child that does, so a second child attached to the same element is
   * silently ignored.
   */
  lemma IndexLastWins(gv: GraphView, ch: nat, i: nat)
    requires gv.IndexSpec(ch) != [] && i < gv.m
    ensures var j := gv.IndexSpec(ch)[i];
      && (j != UlongMax ==> j < gv.nchildren && gv.childSize(ch, j, Unit(gv.m, i)) == 1.0)
      && forall j' :: (j == UlongMax || j < j') && 0 <= j' < gv.nchildren ==> gv.childSize(ch, j', Unit(gv.m, i)) != 1.0
  {
  }

  /**
   * With the duplicate test in force, a non-empty index records for each
   * element the only child of size one at e_i, or ULONG_MAX when there is
   * none.
   */
  lemma IndexIntendedOnlyChild(gv: GraphView, ch: nat, i: nat)
    requires gv.IndexSpecIntended(ch) != [] && i < gv.m
    ensures var j := gv.IndexSpecIntended(ch)[i];
      && (j != UlongMax ==> j < gv.nchildren && gv.childSize(ch, j, Unit(gv.m, i)) == 1.0)
      && forall j' :: 0 <= j' < gv.nchildren && j' != j ==> gv.childSize(ch, j', Unit(gv.m, i)) != 1.0
  {
    assert gv.UniqueUnitAt(ch, i, gv.nchildren);
  }

  /** Where the corrected index is non-empty, the index as written is the same. */
  lemma IndexIntendedAgrees(gv: GraphView, ch: nat)
    requires gv.IndexSpecIntended(ch) != []
    ensures gv.IndexSpec(ch) == gv.IndexSpecIntended(ch)
  {
  }

  /**
   * A one-element node with two children that both have size X[0]: as
   * written makeIndex records child 1, while the duplicate test refuses
   * the node.
   */
  lemma TwoUnitChildrenDiffer(gv: GraphView, ch: nat)
    requires gv.m == 1 && gv.nchildren == 2
    requires gv.childSize(ch, 0, Zeros(1)) == 0.0 && gv.childSize(ch, 1, Zeros(1)) == 0.0
    requires gv.childSize(ch, 0, Unit(1, 0)) == 1.0 && gv.childSize(ch, 1, Unit(1, 0)) == 1.0
    ensures gv.IndexSpec(ch) == [1]
    ensures gv.IndexSpecIntended(ch) == []
  {
    assert !gv.UniqueUnitAt(ch, 0, 2);
    assert gv.LastUnit(ch, 0, 2) == 1;
  }

  /**
   * canSample: an unbounded multinomial node whose stochastic children
   * are all unbounded binomials with a probability parameter that does
   * not depend on the node, whose deterministic descendants are fixed
   * scale functions, and whose index (for chain 0) is non-empty and the
   * same in every chain.
   */
  ghost predicate CanSampleSpec(gv: GraphView, dist: ConjugateDist, bounded: bool,
                                children: seq<ChildInfo>, linear: bool, nchain: nat)
    reads gv
  {
    && dist == Multi && !bounded
    && (forall c :: 0 <= c < |children| ==>
          children[c].dist == Bin && !children[c].bounded && !children[c].probDependent)
    && linear
    && gv.IndexSpecIntended(0) != []
    && forall ch :: 1 <= ch < nchain ==> gv.IndexSpecIntended(ch) == gv.IndexSpecIntended(0)
  }

  method CanSample(gv: GraphView, dist: ConjugateDist, bounded: bool,
                   children: seq<ChildInfo>, linear: bool, nchain: nat) returns (b: bool)
    requires 1 <= nchain <= |gv.values|
    modifies gv
    ensures gv.values == old(gv.values)
    ensures b == old(CanSampleSpec(gv, dist, bounded, children, linear, nchain))
  {
    if dist != Multi || bounded {
      return false;
    }
    var c := 0;
    while c < |children|
      invariant c <= |children|
      invariant forall c' :: 0 <= c' < c ==>
        children[c'].dist == Bin && !children[c'].bounded && !children[c'].probDependent
    {
      if children[c].dist != Bin || children[c].bounded || children[c].probDependent {
        return false;
      }
      c := c + 1;
    }
    if !linear {
      return false;
    }
    var index := gv.MakeIndexIntended(0);
    if index == [] {
      return false;
    }
    var ch := 1;
    while ch < nchain
      invariant 1 <= ch <= nchain
      invariant gv.values == old(gv.values)
      invariant forall ch' :: 1 <= ch' < ch ==> gv.IndexSpecIntended(ch') == index
    {
      var other := gv.MakeIndexIntended(ch);
      if index != other {
        return false;
      }
      ch := ch + 1;
    }
    return true;
  }

  /** A probability over the remaining mass; zero when nothing remains. */
  function Ratio(a: real, b: real): real
  {
    if b == 0.0 then 0.0 else a / b
  }

  /**
   * The multinomial draw as a series of binomials from element i on:
   * element i gets binomial(n, prob[i] / sump) unless nothing remains
   * (then 0, with no draw taken), and the last element gets what is left.
   */
  function Binomials(prob: seq<real>, i: nat, n: real, sump: real, rng: Rng.RNG): (d: Rng.Draws)
    requires i < |prob|
    ensures |d.x| == |prob| - i
    decreases |prob| - i
  {
    if i == |prob| - 1 then Rng.Draws([n], rng)
    else if n == 0.0 then
      var d := Binomials(prob, i + 1, n, sump, rng);
      Rng.Draws([0.0] + d.x, d.rng)
    else
      var b := rng.Binomial(n, Ratio(prob[i], sump));
      var d := Binomials(prob, i + 1, n - b, sump - prob[i], rng.Next());
      Rng.Draws([b] + d.x, d.rng)
  }

  /** The draws add up to the size n, whatever the generator returns. */
  lemma {:induction false} BinomialsSum(prob: seq<real>, i: nat, n: real, sump: real, rng: Rng.RNG)
    requires i < |prob|
    ensures Sum(Binomials(prob, i, n, sump, rng).x) == n
    decreases |prob| - i
  {
    if i == |prob| - 1 {
      SumCons(n, []);
      assert [n] + [] == [n];
    } else if n == 0.0 {
      var d := Binomials(prob, i + 1, n, sump, rng);
      BinomialsSum(prob, i + 1, n, sump, rng);
      SumCons(0.0, d.x);
    } else {
      var b := rng.Binomial(n, Ratio(prob[i], sump));
      var d := Binomials(prob, i + 1, n - b, sump - prob[i], rng.Next());
      BinomialsSum(prob, i + 1, n - b, sump - prob[i], rng.Next());
      SumCons(b, d.x);
    }
  }

  /** With a valid generator and a non-negative size no draw is negative. */
  lemma {:induction false} BinomialsNonNegative(prob: seq<real>, i: nat, n: real, sump: real, rng: Rng.RNG)
    requires i < |prob| && rng.Valid() && n >= 0.0
    ensures forall k :: 0 <= k < |prob| - i ==> Binomials(prob, i, n, sump, rng).x[k] >= 0.0
    decreases |prob| - i
  {
    if i < |prob| - 1 {
      if n == 0.0 {
        BinomialsNonNegative(prob, i + 1, n, sump, rng);
      } else {
        var b := rng.Binomial(n, Ratio(prob[i], sump));
        BinomialsNonNegative(prob, i + 1, n - b, sump - prob[i], rng.Next());
      }
    }
  }

  /** Once the remaining size is zero every later element is zero. */
  lemma {:induction false} BinomialsZero(prob: seq<real>, i: nat, sump: real, rng: Rng.RNG)
    requires i < |prob|
    ensures Binomials(prob, i, 0.0, sump, rng) == Rng.Draws(seq(|prob| - i, k => 0.0), rng)
    decreases |prob| - i
  {
    if i < |prob| - 1 {
      BinomialsZero(prob, i + 1, sump, rng);
      assert [0.0] + seq(|prob| - i - 1, k => 0.0) == seq(|prob| - i, k => 0.0);
    }
  }

  /** y[i]: the value of the binomial child attached to element i, or 0. */
  function Observed(gv: GraphView, index: seq<nat>, ch: nat): (y: seq<real>)
    ensures |y| == |index|
  {
    seq(|index|, i requires 0 <= i < |index| =>
      if index[i] != UlongMax then gv.childValue(ch, index[i]) else 0.0)
  }

  /** prob[i] scaled by 1 - pi for the child attached to element i. */
  function Thinned(p: seq<real>, gv: GraphView, index: seq<nat>, ch: nat): (q: seq<real>)
    requires |p| == |index|
    ensures |q| == |p|
  {
    seq(|index|, i requires 0 <= i < |index| =>
      if index[i] != UlongMax then Thin(p[i], gv.childProb(ch, index[i])) else p[i])
  }

  /** A cell probability p scaled by 1 - pi. */
  function Thin(p: real, pi: real): real
  {
    p * (1.0 - pi)
  }

  function Plus(a: seq<real>, b: seq<real>): (c: seq<real>)
    requires |a| == |b|
    ensures |c| == |a| && forall i :: 0 <= i < |a| ==> c[i] == a[i] + b[i]
  {
    seq(|a|, i requires 0 <= i < |a| => a[i] + b[i])
  }

  /**
   * The new value update computes: the observed child values are taken
   * out of the size, the cell probabilities are thinned, the rest is
   * drawn as a multinomial and the child values are added back.
   */
  function UpdateSpec(gv: GraphView, index: seq<nat>, ch: nat, rng: Rng.RNG): (d: Rng.Draws)
    requires |index| == gv.m == |gv.nodeProb(ch)| && gv.m >= 1
    ensures |d.x| == gv.m
  {
    var y := Observed(gv, index, ch);
    var q := Thinned(gv.nodeProb(ch), gv, index, ch);
    var b := Binomials(q, 0, gv.nodeSize(ch) - Sum(y), Sum(q), rng);
    Rng.Draws(Plus(b.x, y), b.rng)
  }

  /**
   * The sampled value always sums to the multinomial size N: the shift by
   * the child values exactly undoes their subtraction.
   */
  lemma UpdateSumsToSize(gv: GraphView, index: seq<nat>, ch: nat, rng: Rng.RNG)
    requires |index| == gv.m == |gv.nodeProb(ch)| && gv.m >= 1
    ensures Sum(UpdateSpec(gv, index, ch, rng).x) == gv.nodeSize(ch)
  {
    var y := Observed(gv, index, ch);
    var q := Thinned(gv.nodeProb(ch), gv, index, ch);
    var b := Binomials(q, 0, gv.nodeSize(ch) - Sum(y), Sum(q), rng);
    BinomialsSum(q, 0, gv.nodeSize(ch) - Sum(y), Sum(q), rng);
    PlusSum(b.x, y);
  }

  lemma {:induction false} PlusSum(a: seq<real>, b: seq<real>)
    requires |a| == |b|
    ensures Sum(Plus(a, b)) == Sum(a) + Sum(b)
    decreases |a|
  {
    if |a| > 0 {
      var n := |a| - 1;
      assert Plus(a, b)[..n] == Plus(a[..n], b[..n]);
      PlusSum(a[..n], b[..n]);
    }
  }

  /**
   * Every element of the new value is at least its child's value, when
   * the generator is valid and the child values do not exceed N.
   */
  lemma UpdateAboveObserved(gv: GraphView, index: seq<nat>, ch: nat, rng: Rng.RNG)
    requires |index| == gv.m == |gv.nodeProb(ch)| && gv.m >= 1
    requires rng.Valid() && Sum(Observed(gv, index, ch)) <= gv.nodeSize(ch)
    ensures forall i :: 0 <= i < gv.m ==>
      UpdateSpec(gv, index, ch, rng).x[i] >= Observed(gv, index, ch)[i]
  {
    var y := Observed(gv, index, ch);
    var q := Thinned(gv.nodeProb(ch), gv, index, ch);
    BinomialsNonNegative(q, 0, gv.nodeSize(ch) - Sum(y), Sum(q), rng);
  }

  /**
   * The first loop of update: y takes the observed child values, N loses
   * them and the probabilities of the attached elements are thinned.
   */
  method TakeObserved(gv: GraphView, index: seq<nat>, ch: nat) returns (y: seq<real>, prob: seq<real>, n: real)
    requires |index| == gv.m == |gv.nodeProb(ch)|
    ensures y == Observed(gv, index, ch)
    ensures prob == Thinned(gv.nodeProb(ch), gv, index, ch)
    ensures n == gv.nodeSize(ch) - Sum(y)
  {
    var m := gv.m;
    var p := gv.nodeProb(ch);
    n := gv.nodeSize(ch);
    prob := p;
    y := seq(m, i => 0.0);
    ghost var yspec := Observed(gv, index, ch);
    ghost var qspec := Thinned(p, gv, index, ch);
    var i := 0;
    while i < m
      invariant i <= m && |y| == m && |prob| == m
      invariant forall k :: 0 <= k < i ==> y[k] == yspec[k] && prob[k] == qspec[k]
      invariant forall k :: i <= k < m ==> y[k] == 0.0 && prob[k] == p[k]
      invariant n == gv.nodeSize(ch) - Sum(y[..i])
    {
      var j := index[i];
      if j != UlongMax {
        y := y[i := gv.childValue(ch, j)];
        n := n - y[i];
        var pi := gv.childProb(ch, j);
        prob := prob[i := Thin(prob[i], pi)];
      }
      SumPrefixStep(y, i);
      i := i + 1;
    }
    assert y == y[..m];
  }

  /** The normalising loop: sump is the sum of the thinned probabilities. */
  method SumOf(prob: seq<real>) returns (sump: real)
    ensures sump == Sum(prob)
  {
    sump := 0.0;
    var i := 0;
    while i < |prob|
      invariant i <= |prob| && sump == Sum(prob[..i])
    {
      SumPrefixStep(prob, i);
      sump := sump + prob[i];
      i := i + 1;
    }
    assert prob[..|prob|] == prob;
  }

  /** One element of the binomial series. */
  method BinomialStep(prob: seq<real>, i: nat, left: real, rest: real, rng: Rng.RNG)
    returns (b: real, left': real, rest': real, rng': Rng.RNG)
    requires i < |prob| - 1
    ensures Binomials(prob, i, left, rest, rng)
      == Rng.Draws([b] + Binomials(prob, i + 1, left', rest', rng').x, Binomials(prob, i + 1, left', rest', rng').rng)
  {
    if left == 0.0 {
      b, left', rest', rng' := 0.0, left, rest, rng;
    } else {
      b := rng.Binomial(left, Ratio(prob[i], rest));
      rng' := rng.Next();
      left' := left - b;
      rest' := rest - prob[i];
    }
  }

  /** The binomial series of update, as Binomials describes it. */
  method DrawBinomials(prob: seq<real>, n: real, sump: real, rng: Rng.RNG) returns (xnew: seq<real>, rng': Rng.RNG)
    requires |prob| >= 1
    ensures Rng.Draws(xnew, rng') == Binomials(prob, 0, n, sump, rng)
  {
    var m := |prob|;
    ghost var whole := Binomials(prob, 0, n, sump, rng);
    var left, rest := n, sump;
    xnew := seq(m, i => 0.0);
    rng' := rng;
    var i := 0;
    while i < m - 1
      invariant i <= m - 1 && |xnew| == m
      invariant xnew[..i] + Binomials(prob, i, left, rest, rng').x == whole.x
      invariant Binomials(prob, i, left, rest, rng').rng == whole.rng
    {
      ghost var before := xnew[..i];
      ghost var now := Binomials(prob, i, left, rest, rng');
      var b;
      b, left, rest, rng' := BinomialStep(prob, i, left, rest, rng');
      ghost var next := Binomials(prob, i + 1, left, rest, rng');
      xnew := xnew[i := b];
      assert xnew[..i + 1] == before + [b];
      DrawsShift(before, b, next, now);
      i := i + 1;
    }
    xnew := xnew[m - 1 := left];
    assert xnew == xnew[..m - 1] + Binomials(prob, m - 1, left, rest, rng').x;
  }

  /** Moving the first draw of a series onto the values drawn before it. */
  lemma DrawsShift(before: seq<real>, b: real, next: Rng.Draws, now: Rng.Draws)
    requires now == Rng.Draws([b] + next.x, next.rng)
    ensures before + now.x == (before + [b]) + next.x && now.rng == next.rng
  {
  }

  /** The shift loop: xnew[i] += y[i]. */
  method AddBack(x: seq<real>, y: seq<real>) returns (xnew: seq<real>)
    requires |x| == |y|
    ensures xnew == Plus(x, y)
  {
    xnew := x;
    var i := 0;
    while i < |x|
      invariant i <= |x| && |xnew| == |x|
      invariant forall k :: 0 <= k < i ==> xnew[k] == x[k] + y[k]
      invariant forall k :: i <= k < |x| ==> xnew[k] == x[k]
    {
      xnew := xnew[i := xnew[i] + y[i]];
      i := i + 1;
    }
  }

  /** The body of update up to setValue. */
  method Sample(gv: GraphView, index: seq<nat>, ch: nat, rng: Rng.RNG) returns (xnew: seq<real>, rng': Rng.RNG)
    requires |index| == gv.m == |gv.nodeProb(ch)| && gv.m >= 1
    ensures Rng.Draws(xnew, rng') == UpdateSpec(gv, index, ch, rng)
  {
    var y, prob, n := TakeObserved(gv, index, ch);
    var sump := SumOf(prob);
    var x;
    x, rng' := DrawBinomials(prob, n, sump, rng);
    xnew := AddBack(x, y);
    UpdateSpecOf(gv, index, ch, rng, y, prob, n, sump);
  }

  /** UpdateSpec in terms of the values the first loops of update compute. */
  lemma UpdateSpecOf(gv: GraphView, index: seq<nat>, ch: nat, rng: Rng.RNG, y: seq<real>, prob: seq<real>, n: real, sump: real)
    requires |index| == gv.m == |gv.nodeProb(ch)| && gv.m >= 1
    requires y == Observed(gv, index, ch) && prob == Thinned(gv.nodeProb(ch), gv, index, ch)
    requires n == gv.nodeSize(ch) - Sum(y) && sump == Sum(prob)
    ensures UpdateSpec(gv, index, ch, rng) == Rng.Draws(Plus(Binomials(prob, 0, n, sump, rng).x, y), Binomials(prob, 0, n, sump, rng).rng)
  {
  }

  /** The ShiftedMultinomial sampler: its graph view and its index. */
  class ShiftedMultinomial {
    const gv: GraphView
    const index: seq<nat>

    /** The index is computed once, for chain 0. */
    constructor (gv: GraphView)
      requires |gv.values| >= 1
      modifies gv
      ensures this.gv == gv && gv.values == old(gv.values)
      ensures index == gv.IndexSpecIntended(0)
    {
      this.gv := gv;
      var idx := gv.MakeIndexIntended(0);
      this.index := idx;
    }

    /** update: draws the new value for a chain and writes it back. */
    method Update(ch: nat, rng: Rng.RNG) returns (rng': Rng.RNG)
      requires ch < |gv.values| && |index| == gv.m == |gv.nodeProb(ch)| && gv.m >= 1
      modifies gv
      ensures gv.values == old(gv.values)[ch := UpdateSpec(gv, index, ch, rng).x]
      ensures rng' == UpdateSpec(gv, index, ch, rng).rng
    {
      var xnew;
      xnew, rng' := Sample(gv, index, ch, rng);
      gv.values := gv.values[ch := xnew];
    }
  }
}
