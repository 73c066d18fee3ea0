/**
 * Numeric vocabulary shared by the model: IEEE-style extended reals,
 * the double-precision constants the core compares against, C++ casts,
 * and sums over sequences of reals.
 */
module Numeric {

  /** A double: a finite value, one of the two infinities, or not-a-number. */
  datatype Ext = Fin(r: real) | PosInf | NegInf | NaN

  /** DBL_EPSILON, 2^-52. */
  const DblEpsilon: real := 0.0000000000000002220446049250313080847263336181640625

  /** DBL_MAX, (2 - 2^-52) * 2^1023. */
  const DblMax: real := 179769313486231570814527423731704356798070567525844996598917476803157260780028538760589558632766878171540458953514382464234321326889464182768467546703537516986049910576551282076245490090389328944075868508455133942304583236903222948165808559332123348274797826204144723168738177180919299881250404026184124858368.0

  /** 16 * DBL_EPSILON, the tolerance of the equality tests. */
  const Tolerance: real := 16.0 * DblEpsilon

  /** ULONG_MAX of a 64-bit unsigned long. */
  const UlongMax: nat := 0xFFFF_FFFF_FFFF_FFFF

  /** Unsigned subtraction n - 1, which wraps to ULONG_MAX at zero. */
  function PredUlong(n: nat): (m: nat)
    ensures n >= 1 ==> m + 1 == n
    ensures n == 0 ==> m == UlongMax
  {
    if n == 0 then UlongMax else n - 1
  }

  /** fabs. */
  function Abs(x: real): (a: real)
    ensures a >= 0.0 && (a == x || a == -x)
  {
    if x < 0.0 then -x else x
  }

  predicate IsFinite(a: Ext) { a.Fin? }

  function Neg(a: Ext): Ext
  {
    match a
    case Fin(x) => Fin(-x)
    case PosInf => NegInf
    case NegInf => PosInf
    case NaN => NaN
  }

  /** IEEE addition: the two infinities of opposite sign give NaN. */
  function Add(a: Ext, b: Ext): Ext
  {
    match (a, b)
    case (NaN, _) => NaN
    case (_, NaN) => NaN
    case (Fin(x), Fin(y)) => Fin(x + y)
    case (PosInf, NegInf) => NaN
    case (NegInf, PosInf) => NaN
    case (PosInf, _) => PosInf
    case (_, PosInf) => PosInf
    case (NegInf, _) => NegInf
    case (_, NegInf) => NegInf
  }

  function Sub(a: Ext, b: Ext): Ext { Add(a, Neg(b)) }

  /** IEEE product of a finite scalar with a double: zero times an infinity is NaN. */
  function Scale(c: real, a: Ext): Ext
  {
    match a
    case Fin(x) => Fin(c * x)
    case NaN => NaN
    case PosInf => if c > 0.0 then PosInf else if c < 0.0 then NegInf else NaN
    case NegInf => if c > 0.0 then NegInf else if c < 0.0 then PosInf else NaN
  }

  /** IEEE `<`: every comparison with NaN is false. */
  predicate Lt(a: Ext, b: Ext)
  {
    match (a, b)
    case (Fin(x), Fin(y)) => x < y
    case (NegInf, Fin(_)) => true
    case (NegInf, PosInf) => true
    case (Fin(_), PosInf) => true
    case _ => false
  }

  /** IEEE `<=`. */
  predicate Le(a: Ext, b: Ext)
  {
    Lt(a, b) || (a == b && a != NaN)
  }

  /** static_cast<int> (or <long>) of a double: truncation toward zero. */
  function TruncToInt(x: real): (n: int)
    ensures x >= 0.0 ==> n as real <= x < n as real + 1.0
    ensures x <= 0.0 ==> n as real - 1.0 < x <= n as real
  {
    if x >= 0.0 then x.Floor else -((-x).Floor)
  }

  /** Truncation toward zero is monotone. */
  lemma TruncMonotone(x: real, y: real)
    requires x <= y
    ensures TruncToInt(x) <= TruncToInt(y)
  {
  }

  /** The C++ test `x == static_cast<long>(x)`. */
  predicate IsIntegral(x: real)
  {
    TruncToInt(x) as real == x
  }

  /** Left-to-right sum, as an accumulating loop computes it. */
  function Sum(s: seq<real>): real
  {
    if |s| == 0 then 0.0 else Sum(s[..|s| - 1]) + s[|s| - 1]
  }

  /** Left-to-right IEEE sum of doubles, starting from 0. */
  function ExtSum(s: seq<Ext>): Ext
  {
    if |s| == 0 then Fin(0.0) else Add(ExtSum(s[..|s| - 1]), s[|s| - 1])
  }

  predicate AllFinite(s: seq<Ext>)
  {
    forall i :: 0 <= i < |s| ==> s[i].Fin?
  }

  /** The finite values of a sequence of finite doubles. */
  function Values(s: seq<Ext>): (v: seq<real>)
    requires AllFinite(s)
    ensures |v| == |s| && forall i :: 0 <= i < |s| ==> v[i] == s[i].r
  {
    if |s| == 0 then [] else Values(s[..|s| - 1]) + [s[|s| - 1].r]
  }

  /**
   * A finite IEEE sum has only finite terms, and then it is the real sum
   * of their values.
   */
  lemma {:induction false} ExtSumFinite(s: seq<Ext>)
    requires ExtSum(s).Fin?
    ensures AllFinite(s) && ExtSum(s) == Fin(Sum(Values(s)))
  {
    if |s| > 0 {
      var init := s[..|s| - 1];
      ExtSumFinite(init);
      assert Values(s)[..|s| - 1] == Values(init);
    }
  }

  /** A product of two non-negative reals is non-negative. */
  lemma MulNonNegative(a: real, b: real)
    requires a >= 0.0 && b >= 0.0
    ensures a * b >= 0.0
  {
  }

  /** A uniform draw in [0, 1) scales a positive total to a target below it. */
  lemma ScaledBelow(u: real, total: real, target: real)
    requires 0.0 <= u < 1.0 && total > 0.0 && target == u * total
    ensures 0.0 <= target < total
  {
    MulNonNegative(u, total);
    MulNonNegative(1.0 - u, total);
    assert total - u * total == (1.0 - u) * total;
    assert (1.0 - u) * total > 0.0;
  }

  /** The point lo + u * (hi - lo); with u in [0, 1) it lies in [lo, hi]. */
  function Interpolate(lo: real, hi: real, u: real): (x: real)
    ensures lo <= hi && 0.0 <= u < 1.0 ==> lo <= x <= hi
  {
    if lo <= hi && 0.0 <= u < 1.0 then
      MulNonNegative(u, hi - lo);
      MulNonNegative(1.0 - u, hi - lo);
      lo + u * (hi - lo)
    else
      lo + u * (hi - lo)
  }

  lemma {:induction false} SumAppend(a: seq<real>, b: seq<real>)
    ensures Sum(a + b) == Sum(a) + Sum(b)
    decreases |b|
  {
    if |b| == 0 {
      assert a + b == a;
    } else {
      assert (a + b)[..|a + b| - 1] == a + b[..|b| - 1];
      SumAppend(a, b[..|b| - 1]);
    }
  }

  /** c times every element. */
  function ScaleBy(c: real, a: seq<real>): (s: seq<real>)
    ensures |s| == |a| && forall i :: 0 <= i < |a| ==> s[i] == c * a[i]
  {
    seq(|a|, i requires 0 <= i < |a| => c * a[i])
  }

  lemma {:induction false} SumScaled(c: real, s: seq<real>)
    ensures Sum(ScaleBy(c, s)) == c * Sum(s)
    decreases |s|
  {
    if |s| > 0 {
      var n := |s| - 1;
      assert forall i :: 0 <= i < n ==> ScaleBy(c, s)[..n][i] == ScaleBy(c, s[..n])[i];
      assert ScaleBy(c, s)[..n] == ScaleBy(c, s[..n]);
      SumScaled(c, s[..n]);
      assert c * Sum(s[..n]) + c * s[n] == c * (Sum(s[..n]) + s[n]);
    }
  }

  lemma MulAssociates(c: real, x: real, y: real)
    ensures (c * x) * y == c * (x * y)
  {
  }

  lemma SumCons(a: real, s: seq<real>)
    ensures Sum([a] + s) == a + Sum(s)
  {
    SumAppend([a], s);
    assert [a][..0] == [];
  }

  lemma SumPrefixStep(s: seq<real>, i: nat)
    requires i < |s|
    ensures Sum(s[..i + 1]) == Sum(s[..i]) + s[i]
  {
    assert s[..i + 1][..i] == s[..i];
  }

  lemma {:induction false} SumUpdate(s: seq<real>, k: nat, v: real)
    requires k < |s|
    ensures Sum(s[k := v]) == Sum(s) - s[k] + v
    decreases |s|
  {
    var n := |s| - 1;
    if k == n {
      assert s[k := v][..n] == s[..n];
    } else {
      assert s[k := v][..n] == s[..n][k := v];
      SumUpdate(s[..n], k, v);
    }
  }

  lemma {:induction false} SumNonNegative(s: seq<real>)
    requires forall i :: 0 <= i < |s| ==> s[i] >= 0.0
    ensures Sum(s) >= 0.0
    decreases |s|
  {
    if |s| > 0 {
      SumNonNegative(s[..|s| - 1]);
    }
  }

  lemma {:induction false} SumPositive(s: seq<real>, k: nat)
    requires forall i :: 0 <= i < |s| ==> s[i] >= 0.0
    requires k < |s| && s[k] > 0.0
    ensures Sum(s) > 0.0
    decreases |s|
  {
    var n := |s| - 1;
    if k == n {
      SumNonNegative(s[..n]);
    } else {
      SumPositive(s[..n], k);
    }
  }

  /** The running sum w[0] + ... + w[j]. */
  function RunningSum(w: seq<real>, j: nat): real
    requires j < |w|
  {
    Sum(w[..j + 1])
  }

  /**
   * The category chosen by the cumulative-sum search that the finite sampler
   * and the normal mixture share: the first index i below |w| - 1 whose
   * running sum exceeds target, and |w| - 1 if there is none.
   */
  function CumulativeChoice(w: seq<real>, target: real): (i: nat)
    requires |w| >= 1
    ensures i < |w|
    ensures i < |w| - 1 ==> RunningSum(w, i) > target
    ensures forall j :: 0 <= j < i ==> RunningSum(w, j) <= target
  {
    ChoiceFrom(w, target, 0)
  }

  function ChoiceFrom(w: seq<real>, target: real, from: nat): (i: nat)
    requires from < |w|
    requires forall j :: 0 <= j < from ==> RunningSum(w, j) <= target
    ensures from <= i < |w|
    ensures i < |w| - 1 ==> RunningSum(w, i) > target
    ensures forall j :: 0 <= j < i ==> RunningSum(w, j) <= target
    decreases |w| - from
  {
    if from == |w| - 1 then from
    else if RunningSum(w, from) > target then from
    else ChoiceFrom(w, target, from + 1)
  }

  /**
   * The choice is the unique index with those two properties, so any loop
   * that establishes them has computed CumulativeChoice.
   */
  lemma CumulativeChoiceUnique(w: seq<real>, target: real, i: nat)
    requires |w| >= 1 && i < |w|
    requires i < |w| - 1 ==> RunningSum(w, i) > target
    requires forall j :: 0 <= j < i ==> RunningSum(w, j) <= target
    ensures i == CumulativeChoice(w, target)
  {
  }

  /**
   * With non-negative weights and a target below their total, the chosen
   * category has positive weight: a zero-weight category is never chosen.
   */
  lemma {:induction false} CumulativeChoicePositive(w: seq<real>, target: real)
    requires |w| >= 1
    requires forall k :: 0 <= k < |w| ==> w[k] >= 0.0
    requires 0.0 <= target < Sum(w)
    ensures w[CumulativeChoice(w, target)] > 0.0
  {
    var i := CumulativeChoice(w, target);
    SumPrefixStep(w, i);
    if i == |w| - 1 {
      assert w[..i + 1] == w;
    }
    if i > 0 {
      assert RunningSum(w, i - 1) <= target;
      assert w[..(i - 1) + 1] == w[..i];
    } else {
      assert w[..0] == [];
    }
  }
}
