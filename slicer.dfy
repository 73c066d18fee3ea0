/**
 * Slicer (src/lib/sampler/Slicer.cc): univariate slice sampling by
 * stepping out and by doubling, with adaptation of the initial interval
 * width. The log full conditional density of the sampled node is a
 * function of its value; the node's limits are given.
 */
module Slicers {
  import opened Wrappers
  import opened Numeric
  import Rng
  import Nodes

  /** MIN_ADAPT: the updates before the width is adapted. */
  const MinAdapt: nat := 10

  /** The interval width adaptation of one update moving from xold to xnew. */
  function AdaptedWidth(width: real, sumdiff: real, iter: nat): (w: real)
    requires sumdiff >= 0.0 && width >= 0.0
    ensures w >= 0.0
    ensures iter > MinAdapt ==> w == 2.0 * sumdiff / (iter as real) / ((iter - 1) as real)
    ensures iter <= MinAdapt ==> w == width
  {
    if iter > MinAdapt then 2.0 * sumdiff / (iter as real) / ((iter - 1) as real) else width
  }

  /** The adaptation sum after a move from xold to xnew at iteration iter: each move weighs iter |xnew - xold|. */
  function AddedDiff(sumdiff: real, iter: nat, xold: real, xnew: real): (s: real)
    ensures sumdiff >= 0.0 ==> s >= sumdiff
  {
    MulNonNegative(iter as real, Abs(xnew - xold));
    sumdiff + (iter as real) * Abs(xnew - xold)
  }

  /** 2 to the power n, as a real: the growth of a doubled interval. */
  function Pow2(n: nat): (p: real)
    ensures p >= 1.0
  {
    if n == 0 then 1.0 else 2.0 * Pow2(n - 1)
  }

  /** The whole number of lengths 1.1 w in len (none when w is not positive). */
  function Units(len: real, w: real): int
  {
    if w > 0.0 then (len / (1.1 * w)).Floor else 0
  }

  /** Halving a length more than 1.1 w lowers its whole number of units, which stays non-negative. */
  lemma HalvedUnits(len: real, w: real)
    requires w > 0.0 && len > 1.1 * w
    ensures 0 <= Units(len / 2.0, w) < Units(len, w)
  {
    var x := len / (1.1 * w);
    assert x > 1.0 by {
      assert len / (1.1 * w) > (1.1 * w) / (1.1 * w);
    }
    assert (len / 2.0) / (1.1 * w) == x / 2.0;
    var n := x.Floor;
    assert x < (n as real) + 1.0;
    assert (x / 2.0) < ((n as real) + 1.0) / 2.0 <= n as real;
  }

  /** The length of an interval of width w doubled d times. */
  function DoubledWidth(d: nat, w: real): real
  {
    Pow2(d) * w
  }

  /** One more doubling doubles a non-negative interval length. */
  lemma DoubledLength(d: nat, w: real)
    requires w >= 0.0
    ensures DoubledWidth(d, w) >= 0.0 && DoubledWidth(d + 1, w) == 2.0 * DoubledWidth(d, w)
  {
    MulNonNegative(Pow2(d), w);
  }

  /** The initial interval of updateStep: width w at offset u w to the left of xold, so it holds xold. */
  method InitialInterval(xold: real, u: real, w: real) returns (lo: real, hi: real)
    requires 0.0 <= u < 1.0 && w >= 0.0
    ensures lo <= xold <= hi && hi == lo + w && xold - lo <= w
  {
    lo := xold - u * w;
    hi := lo + w;
    MulNonNegative(u, w);
    MulNonNegative(1.0 - u, w);
  }

  /** j = (int)(u max) steps left and k = max - 1 - j steps right: max - 1 steps in all. */
  method StepSplit(u: real, max: nat) returns (j: int, k: int)
    requires 0.0 <= u < 1.0
    ensures k == (max as int) - 1 - j
    ensures max >= 1 ==> 0 <= j < max && Steps(j) + Steps(k) == max - 1
  {
    j := TruncToInt(u * (max as real));
    k := (max as int) - 1 - j;
    MulNonNegative(u, max as real);
    MulNonNegative(1.0 - u, max as real);
  }

  /** An interval of width w stepped out by a + b = max - 1 steps of w is at most max w long. */
  lemma TotalWidth(lo0: real, hi0: real, lo: real, hi: real, a: nat, b: nat, w: real, max: nat)
    requires max >= 1 && a + b == max - 1 && hi0 == lo0 + w
    requires lo >= lo0 - (a as real) * w && hi <= hi0 + (b as real) * w
    ensures hi - lo <= (max as real) * w
  {
    assert (a as real) * w + (b as real) * w == ((max - 1) as real) * w;
    assert ((max - 1) as real) * w + w == (max as real) * w;
  }

  /** The number of stepping-out steps a counter n allows (none when n <= 0). */
  function Steps(n: int): nat
  {
    if n > 0 then n else 0
  }

  class Slicer {
    var width: real
    var adapt: bool
    const max: nat
    var sumdiff: real
    var iter: nat
    /** The sampled node's current value (what setValue writes). */
    var value: real
    /** logFullConditional as a function of the node's value. */
    const lfc: real -> Ext
    /** getLimits: -DBL_MAX and DBL_MAX for an unbounded node. */
    const lower: real
    const upper: real
    /** nodes()[0], named by NodeError. */
    const node: Nodes.NodeId

    ghost predicate Valid()
      reads this
    {
      width >= 0.0 && sumdiff >= 0.0
    }

    constructor (width: real, max: nat, x: real, lfc: real -> Ext, lower: real, upper: real, node: Nodes.NodeId)
      requires width > 0.0
      ensures Valid()
      ensures this.width == width && this.max == max && value == x && this.lfc == lfc
      ensures this.lower == lower && this.upper == upper && this.node == node
      ensures adapt && sumdiff == 0.0 && iter == 0
    {
      this.width := width;
      this.adapt := true;
      this.max := max;
      this.sumdiff := 0.0;
      this.iter := 0;
      this.value := x;
      this.lfc := lfc;
      this.lower := lower;
      this.upper := upper;
      this.node := node;
    }

    /** Stepping out to the left: at most j steps of width, never below lower. */
    method StepLeft(l: real, j: int, z: Ext) returns (l': real)
      requires Valid()
      modifies this
      ensures l' >= lower
      ensures l' >= l - (Steps(j) as real) * width
      ensures l' <= l || l' == lower
      ensures width == old(width) && adapt == old(adapt) && sumdiff == old(sumdiff) && iter == old(iter)
    {
      l' := l;
      MulNonNegative(Steps(j) as real, width);
      if l' < lower {
        l' := lower;
        return;
      }
      value := l';
      var steps := j;
      ghost var taken: nat := 0;
      while steps > 0 && Lt(z, lfc(value))
        invariant lower <= l' <= l && taken <= Steps(j) && steps == j - taken
        invariant l' >= l - (taken as real) * width
        invariant width == old(width) && adapt == old(adapt) && sumdiff == old(sumdiff) && iter == old(iter)
        decreases steps
      {
        steps := steps - 1;
        l' := l' - width;
        assert (taken as real + 1.0) * width == (taken as real) * width + width;
        taken := taken + 1;
        if l' < lower {
          l' := lower;
          break;
        }
        value := l';
      }
      MulNonNegative((Steps(j) - taken) as real, width);
      assert ((Steps(j) - taken) as real) * width == (Steps(j) as real) * width - (taken as real) * width;
    }

    /** Stepping out to the right: at most k steps of width, never above upper. */
    method StepRight(r: real, k: int, z: Ext) returns (r': real)
      requires Valid()
      modifies this
      ensures r' <= upper
      ensures r' <= r + (Steps(k) as real) * width
      ensures r' >= r || r' == upper
      ensures width == old(width) && adapt == old(adapt) && sumdiff == old(sumdiff) && iter == old(iter)
    {
      r' := r;
      MulNonNegative(Steps(k) as real, width);
      if r' > upper {
        r' := upper;
        return;
      }
      value := r';
      var steps := k;
      ghost var taken: nat := 0;
      while steps > 0 && Lt(z, lfc(value))
        invariant r <= r' <= upper && taken <= Steps(k) && steps == k - taken
        invariant r' <= r + (taken as real) * width
        invariant width == old(width) && adapt == old(adapt) && sumdiff == old(sumdiff) && iter == old(iter)
        decreases steps
      {
        steps := steps - 1;
        r' := r' + width;
        assert (taken as real + 1.0) * width == (taken as real) * width + width;
        taken := taken + 1;
        if r' > upper {
          r' := upper;
          break;
        }
        value := r';
      }
      MulNonNegative((Steps(k) - taken) as real, width);
      assert ((Steps(k) - taken) as real) * width == (Steps(k) as real) * width - (taken as real) * width;
    }

    /** The adaptation at the end of an update that moved from xold to xnew. */
    method Adapt(xold: real, xnew: real)
      requires Valid()
      modifies this
      ensures Valid()
      ensures old(adapt) ==> (
        && sumdiff == AddedDiff(old(sumdiff), old(iter), xold, xnew)
        && iter == old(iter) + 1
        && width == AdaptedWidth(old(width), sumdiff, iter))
      ensures !old(adapt) ==> width == old(width) && sumdiff == old(sumdiff) && iter == old(iter)
      ensures adapt == old(adapt) && value == old(value)
    {
      if adapt {
        sumdiff := AddedDiff(sumdiff, iter, xold, xnew);
        iter := iter + 1;
        width := AdaptedWidth(width, sumdiff, iter);
      }
    }

    /**
     * updateStep: slice sampling by stepping out. A current log density of
     * +inf leaves everything unchanged; -inf or -DBL_MAX is a NodeError.
     * Otherwise the accepted value has log density at least
     * z - DBL_EPSILON, where z is the current log density less an
     * exponential draw. The final interval [l, r] lies within the limits,
     * contains the old value and the new one, and is at most max widths
     * long. Shrinking is bounded by fuel (Fail(RuntimeError) when it runs out).
     */
    method UpdateStep(rng: Rng.RNG, fuel: nat) returns (res: Outcome, rng': Rng.RNG, ghost l: real, ghost r: real)
      requires Valid() && rng.Valid()
      modifies this
      ensures Valid() && rng'.Valid() && rng'.drawn >= rng.drawn
      ensures lfc(old(value)) == PosInf ==> (res == Pass && rng' == rng && value == old(value)
        && width == old(width) && sumdiff == old(sumdiff) && iter == old(iter))
      ensures lfc(old(value)) in {NegInf, Fin(-DblMax)} ==> (res == Fail(NodeError(node))
        && value == old(value) && width == old(width) && sumdiff == old(sumdiff) && iter == old(iter))
      ensures res.Fail? ==> res == Fail(NodeError(node)) || res == Fail(RuntimeError)
      ensures res == Pass && lfc(old(value)) != PosInf ==> (
        && Le(Sub(Sub(lfc(old(value)), Fin(rng.Exponential())), Fin(DblEpsilon)), lfc(value))
        && (lower <= old(value) <= upper ==> lower <= l <= old(value) <= r <= upper && l <= value <= r)
        && (max >= 1 && lower <= old(value) <= upper ==> r - l <= (max as real) * old(width)))
      ensures res == Pass && lfc(old(value)) != PosInf ==> (
        && (old(adapt) ==> (
             && sumdiff == AddedDiff(old(sumdiff), old(iter), old(value), value)
             && iter == old(iter) + 1 && width == AdaptedWidth(old(width), sumdiff, iter)))
        && (!old(adapt) ==> width == old(width) && sumdiff == old(sumdiff) && iter == old(iter)))
      ensures adapt == old(adapt)
    {
      rng' := rng;
      l, r := 0.0, 0.0;
      var g0 := lfc(value);
      if g0 == PosInf {
        return Pass, rng', l, r;
      }
      if g0 == NegInf || g0 == Fin(-DblMax) {
        return Fail(NodeError(node)), rng', l, r;
      }
      var z := Sub(g0, Fin(rng'.Exponential()));
      rng' := rng'.Next();
      var xold := value;
      var lo, hi;
      lo, hi, rng' := StepOut(xold, z, rng');
      var ok, xnew;
      ok, xnew, l, r, rng' := Shrink(xold, z, lo, hi, rng', fuel);
      if !ok {
        return Fail(RuntimeError), rng', l, r;
      }
      Adapt(xold, xnew);
      return Pass, rng', l, r;
    }

    /**
     * The initial interval of updateStep: width long around xold at a
     * uniform offset, then stepped out j steps left and max - 1 - j steps
     * right (j uniform), within the limits.
     */
    method StepOut(xold: real, z: Ext, rng: Rng.RNG) returns (lo: real, hi: real, rng': Rng.RNG)
      requires Valid() && rng.Valid()
      modifies this
      ensures rng'.Valid() && rng'.drawn >= rng.drawn
      ensures lower <= lo && hi <= upper
      ensures lower <= xold <= upper ==> lo <= xold <= hi
      ensures max >= 1 && lower <= xold <= upper ==> hi - lo <= (max as real) * width
      ensures width == old(width) && adapt == old(adapt) && sumdiff == old(sumdiff) && iter == old(iter)
    {
      rng' := rng;
      var w := width;
      var u := rng'.Uniform();
      rng' := rng'.Next();
      lo, hi := InitialInterval(xold, u, w);
      var u2 := rng'.Uniform();
      rng' := rng'.Next();
      var j, k := StepSplit(u2, max);
      ghost var lo0, hi0 := lo, hi;
      lo := StepLeft(lo, j, z);
      hi := StepRight(hi, k, z);
      if max >= 1 {
        TotalWidth(lo0, hi0, lo, hi, Steps(j), Steps(k), w, max);
      }
    }

    /**
     * The shrinking loop of updateStep: a uniform point of [lo, hi] is
     * accepted when its log density is at least z - DBL_EPSILON; otherwise
     * it replaces the end on its side of xold. False when fuel runs out.
     */
    method Shrink(xold: real, z: Ext, lo: real, hi: real, rng: Rng.RNG, fuel: nat)
      returns (ok: bool, xnew: real, l: real, r: real, rng': Rng.RNG)
      requires rng.Valid()
      modifies this
      ensures rng'.Valid() && rng'.drawn >= rng.drawn
      ensures ok ==> value == xnew && Le(Sub(z, Fin(DblEpsilon)), lfc(xnew))
      ensures lo <= xold <= hi ==> lo <= l <= xold <= r <= hi
      ensures ok && lo <= xold <= hi ==> l <= xnew <= r
      ensures width == old(width) && adapt == old(adapt) && sumdiff == old(sumdiff) && iter == old(iter)
    {
      rng' := rng;
      l, r := lo, hi;
      xnew := xold;
      var f := fuel;
      while true
        invariant rng'.Valid() && rng'.drawn >= rng.drawn
        invariant lo <= xold <= hi ==> lo <= l <= xold <= r <= hi
        invariant width == old(width) && adapt == old(adapt) && sumdiff == old(sumdiff) && iter == old(iter)
        decreases f
      {
        if f == 0 {
          return false, xnew, l, r, rng';
        }
        f := f - 1;
        var u := rng'.Uniform();
        rng' := rng'.Next();
        xnew := Interpolate(l, r, u);
        value := xnew;
        if Le(Sub(z, Fin(DblEpsilon)), lfc(xnew)) {
          return true, xnew, l, r, rng';
        }
        if xnew < xold {
          l := xnew;
        } else {
          r := xnew;
        }
      }
    }

    /**
     * updateDouble: slice sampling by doubling. A current log density below
     * zero that is -inf or -DBL_MAX is a NodeError; +inf or DBL_MAX leaves
     * everything unchanged. Otherwise the accepted value has log density at
     * least z, the current log density less an exponential draw; the doubled
     * interval [l, r] has length width * 2^d for at most max doublings d and
     * contains the old value and the new one. Shrinking is bounded by fuel
     * (Fail(RuntimeError) when it runs out).
     */
    method UpdateDouble(rng: Rng.RNG, fuel: nat) returns (res: Outcome, rng': Rng.RNG, l: real, r: real, ghost d: nat)
      requires Valid() && rng.Valid()
      modifies this
      ensures Valid() && rng'.Valid() && rng'.drawn >= rng.drawn
      ensures lfc(old(value)) in {PosInf, Fin(DblMax)} ==> (res == Pass && rng' == rng && value == old(value)
        && width == old(width) && sumdiff == old(sumdiff) && iter == old(iter))
      ensures lfc(old(value)) in {NegInf, Fin(-DblMax)} ==> (res == Fail(NodeError(node))
        && value == old(value) && width == old(width) && sumdiff == old(sumdiff) && iter == old(iter))
      ensures res.Fail? ==> res == Fail(NodeError(node)) || res == Fail(RuntimeError)
      ensures res == Pass && lfc(old(value)) !in {PosInf, Fin(DblMax)} ==> (
        && Le(Sub(lfc(old(value)), Fin(rng.Exponential())), lfc(value))
        && d <= max && r - l == DoubledWidth(d, old(width))
        && l <= old(value) <= r && l <= value <= r)
      ensures res == Pass && lfc(old(value)) !in {PosInf, Fin(DblMax)} ==> (
        && (old(adapt) ==> (
             && sumdiff == AddedDiff(old(sumdiff), old(iter), old(value), value)
             && iter == old(iter) + 1 && width == AdaptedWidth(old(width), sumdiff, iter)))
        && (!old(adapt) ==> width == old(width) && sumdiff == old(sumdiff) && iter == old(iter)))
      ensures adapt == old(adapt)
    {
      rng' := rng;
      l, r, d := 0.0, 0.0, 0;
      var g0 := lfc(value);
      if Lt(g0, Fin(0.0)) {
        if g0 == Fin(-DblMax) || g0 == NegInf {
          return Fail(NodeError(node)), rng', l, r, d;
        }
      } else if g0 == Fin(DblMax) || g0 == PosInf {
        return Pass, rng', l, r, d;
      }
      var z := Sub(g0, Fin(rng'.Exponential()));
      rng' := rng'.Next();
      var xold := value;
      l, r, rng', d := Doubling(xold, z, rng');
      var ok, xnew;
      ok, xnew, rng' := ShrinkDouble(xold, z, l, r, rng', fuel);
      if !ok {
        return Fail(RuntimeError), rng', l, r, d;
      }
      Adapt(xold, xnew);
      return Pass, rng', l, r, d;
    }

    /**
     * The doubling loop of updateDouble: an interval width long around
     * xold, doubled on a uniformly chosen side at most max times, until
     * both ends have log density below z or lie beyond the limits.
     */
    method Doubling(xold: real, z: Ext, rng: Rng.RNG) returns (l: real, r: real, rng': Rng.RNG, ghost d: nat)
      requires Valid() && rng.Valid()
      modifies this
      ensures rng'.Valid() && rng'.drawn >= rng.drawn
      ensures d <= max && r - l == DoubledWidth(d, width) && l <= xold <= r
      ensures width == old(width) && adapt == old(adapt) && sumdiff == old(sumdiff) && iter == old(iter)
    {
      rng' := rng;
      var u := rng'.Uniform();
      rng' := rng'.Next();
      l, r := InitialInterval(xold, u, width);
      d := 0;
      ghost var len := width;
      assert len == DoubledWidth(0, width);
      var leftOk, rightOk := false, false;
      var i := 0;
      while i < max
        invariant rng'.Valid() && rng'.drawn >= rng.drawn
        invariant d <= i <= max && r - l == len && l <= xold <= r
        invariant len == DoubledWidth(d, width)
        invariant width == old(width) && adapt == old(adapt) && sumdiff == old(sumdiff) && iter == old(iter)
      {
        ghost var doubled;
        DoubledLength(d, width);
        l, r, leftOk, rightOk, rng', doubled := DoubleOnce(l, r, z, leftOk, rightOk, rng');
        if doubled {
          d := d + 1;
          len := 2.0 * len;
        }
        if leftOk && rightOk {
          break;
        }
        i := i + 1;
      }
    }

    /** One step of the doubling loop: a uniform draw picks the side to double. */
    method DoubleOnce(l: real, r: real, z: Ext, leftOk: bool, rightOk: bool, rng: Rng.RNG)
      returns (l': real, r': real, leftOk': bool, rightOk': bool, rng': Rng.RNG, ghost doubled: bool)
      requires rng.Valid() && l <= r
      modifies this
      ensures rng' == rng.Next() && rng'.Valid()
      ensures doubled ==> r' - l' == 2.0 * (r - l) && l' <= l && r <= r'
      ensures !doubled ==> l' == l && r' == r
      ensures width == old(width) && adapt == old(adapt) && sumdiff == old(sumdiff) && iter == old(iter)
    {
      l', r', leftOk', rightOk', doubled := l, r, leftOk, rightOk, false;
      var v := rng.Uniform();
      rng' := rng.Next();
      if v < 0.5 {
        if l >= lower {
          l' := 2.0 * l - r;
          doubled := true;
          value := l';
          leftOk' := Lt(lfc(l'), z);
        } else {
          leftOk' := true;
        }
      } else {
        if r <= upper {
          r' := 2.0 * r - l;
          doubled := true;
          value := r';
          rightOk' := Lt(lfc(r'), z);
        } else {
          rightOk' := true;
        }
      }
    }

    /**
     * The shrinking loop of updateDouble: a uniform point of the shrinking
     * interval is taken when its log density is at least z and accept
     * agrees; otherwise it replaces the end on its side of xold.
     * False when fuel runs out.
     */
    method ShrinkDouble(xold: real, z: Ext, l: real, r: real, rng: Rng.RNG, fuel: nat)
      returns (ok: bool, xnew: real, rng': Rng.RNG)
      requires Valid() && rng.Valid()
      requires l <= xold <= r && (width == 0.0 ==> r - l <= 0.0)
      modifies this
      ensures rng'.Valid() && rng'.drawn >= rng.drawn
      ensures ok ==> value == xnew && Le(z, lfc(xnew)) && l <= xnew <= r
      ensures width == old(width) && adapt == old(adapt) && sumdiff == old(sumdiff) && iter == old(iter)
    {
      rng' := rng;
      var lbar, rbar := l, r;
      xnew := xold;
      var f := fuel;
      while true
        invariant rng'.Valid() && rng'.drawn >= rng.drawn
        invariant l <= lbar <= xold <= rbar <= r
        invariant width == old(width) && adapt == old(adapt) && sumdiff == old(sumdiff) && iter == old(iter)
        decreases f
      {
        if f == 0 {
          return false, xnew, rng';
        }
        f := f - 1;
        var u := rng'.Uniform();
        rng' := rng'.Next();
        xnew := Interpolate(lbar, rbar, u);
        value := xnew;
        var g := lfc(xnew);
        if Le(z, g) {
          var acc, _, _, _ := Accept(xold, xnew, z, l, r);
          if acc {
            value := xnew;
            return true, xnew, rng';
          }
        }
        if xnew <= xold {
          lbar := xnew;
        } else {
          rbar := xnew;
        }
      }
    }

    /**
     * accept: the acceptance test of the doubling procedure. [l, r] is
     * halved, towards xnew, while longer than 1.1 widths; d records that a
     * halving separated xold from xnew, after which the answer is false
     * as soon as both ends of the halved interval have log density below z.
     */
    method Accept(xold: real, xnew: real, z: Ext, l: real, r: real) returns (ok: bool, l': real, r': real, d: bool)
      requires Valid()
      requires width == 0.0 ==> r - l <= 0.0
      modifies this
      ensures l <= xnew <= r ==> l' <= xnew <= r'
      ensures l <= xold < r ==> (d <==> !(l' <= xold < r'))
      ensures ok ==> r' - l' <= 1.1 * width
      ensures !ok ==> d && Lt(lfc(l'), z) && Lt(lfc(r'), z)
      ensures width == old(width) && adapt == old(adapt) && sumdiff == old(sumdiff) && iter == old(iter)
    {
      l', r', d := l, r, false;
      while r' - l' > 1.1 * width
        invariant width == 0.0 ==> r' - l' <= 0.0
        invariant l <= xnew <= r ==> l' <= xnew <= r'
        invariant l <= xold < r ==> (d <==> !(l' <= xold < r'))
        invariant width == old(width) && adapt == old(adapt) && sumdiff == old(sumdiff) && iter == old(iter)
        decreases Units(r' - l', width)
      {
        ghost var len := r' - l';
        var m := (l' + r') / 2.0;
        if (xold < m && xnew >= m) || (xold >= m && xnew < m) {
          d := true;
        }
        if xnew < m {
          r' := m;
        } else {
          l' := m;
        }
        assert r' - l' == len / 2.0;
        HalvedUnits(len, width);
        if d {
          value := r';
          var rightOk := Lt(lfc(r'), z);
          value := l';
          var leftOk := Lt(lfc(l'), z);
          if leftOk && rightOk {
            return false, l', r', d;
          }
        }
      }
      return true, l', r', d;
    }

    /** adaptOff: adaptation stops and the answer is true. */
    method AdaptOff() returns (b: bool)
      modifies this
      ensures b && !adapt
      ensures width == old(width) && sumdiff == old(sumdiff) && iter == old(iter) && value == old(value)
    {
      adapt := false;
      return true;
    }
  }
}
