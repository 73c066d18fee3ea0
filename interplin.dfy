/**
 * InterpLin (src/modules/bugs/functions/InterpLin.cc): interp.lin(xnew,
 * x, y), the piecewise-linear interpolant through the points (x[i], y[i]),
 * constant beyond the first and the last knot.
 */
module InterpLins {
  import opened Numeric

  const Name: string := "interp.lin"
  const NPar: nat := 3

  /** xnew lies in the interval [x[i], x[i + 1]). */
  predicate InInterval(x: seq<real>, xnew: real, i: nat)
    requires i + 1 < |x|
  {
    xnew >= x[i] && xnew < x[i + 1]
  }

  /** The search of scalarEval from index i on: the first interval holding xnew, or N - 1. */
  function Bracket(x: seq<real>, xnew: real, i: nat): (k: nat)
    requires 1 <= |x| && i <= |x| - 1
    ensures i <= k <= |x| - 1
    ensures k < |x| - 1 ==> InInterval(x, xnew, k)
    ensures forall j :: i <= j < k ==> !InInterval(x, xnew, j)
    decreases |x| - i
  {
    if i == |x| - 1 then i
    else if InInterval(x, xnew, i) then i
    else Bracket(x, xnew, i + 1)
  }

  /** y[i] + (xnew - x[i]) (y[i + 1] - y[i]) / (x[i + 1] - x[i]). */
  function Line(x: seq<real>, y: seq<real>, xnew: real, i: nat): real
    requires i + 1 < |x| && |y| == |x| && InInterval(x, xnew, i)
  {
    y[i] + (xnew - x[i]) * (y[i + 1] - y[i]) / (x[i + 1] - x[i])
  }

  /** scalarEval: constant outside [x[0], x[N - 1]), linear on the interval holding xnew. */
  function InterpSpec(xnew: real, x: seq<real>, y: seq<real>): Ext
    requires 1 <= |x| && |y| == |x|
  {
    var n := |x|;
    if xnew < x[0] then Fin(y[0])
    else if xnew >= x[n - 1] then Fin(y[n - 1])
    else
      var i := Bracket(x, xnew, 0);
      if i == n - 1 then NaN else Fin(Line(x, y, xnew, i))
  }

  method ScalarEval(xnew: real, x: seq<real>, y: seq<real>) returns (r: Ext)
    requires 1 <= |x| && |y| == |x|
    ensures r == InterpSpec(xnew, x, y)
  {
    var n := |x|;
    if xnew < x[0] {
      return Fin(y[0]);
    } else if xnew >= x[n - 1] {
      return Fin(y[n - 1]);
    }
    var i := 0;
    while i < n - 1
      invariant i <= n - 1 && Bracket(x, xnew, i) == Bracket(x, xnew, 0)
    {
      if xnew >= x[i] && xnew < x[i + 1] {
        break;
      }
      i := i + 1;
    }
    if i == n - 1 {
      return NaN;
    }
    return Fin(y[i] + (xnew - x[i]) * (y[i + 1] - y[i]) / (x[i + 1] - x[i]));
  }

  /**
   * A point of [x[k], x[N - 1]) lies in some interval from k on, whatever
   * the order of the knots.
   */
  lemma {:induction false} BracketFound(x: seq<real>, xnew: real, k: nat)
    requires 1 <= |x| && k < |x| - 1 && x[k] <= xnew < x[|x| - 1]
    ensures Bracket(x, xnew, k) < |x| - 1
    decreases |x| - k
  {
    if !InInterval(x, xnew, k) {
      BracketFound(x, xnew, k + 1);
    }
  }

  /** The NaN branch cannot be taken: every value is finite, even for unordered knots. */
  lemma NaNUnreachable(xnew: real, x: seq<real>, y: seq<real>)
    requires 1 <= |x| && |y| == |x|
    ensures InterpSpec(xnew, x, y).Fin?
  {
    if x[0] <= xnew < x[|x| - 1] {
      BracketFound(x, xnew, 0);
    }
  }

  lemma FractionBelowOne(num: real, den: real)
    requires 0.0 <= num < den
    ensures 0.0 <= num / den < 1.0
  {
  }

  /** (xnew - lo) / (hi - lo) lies in [0, 1) when lo <= xnew < hi. */
  lemma FractionInUnit(lo: real, hi: real, xnew: real, a: real, b: real)
    requires lo <= xnew < hi
    ensures var v := a + (xnew - lo) * (b - a) / (hi - lo);
            (a <= b ==> a <= v <= b) && (b <= a ==> b <= v <= a)
  {
    var t := (xnew - lo) / (hi - lo);
    FractionBelowOne(xnew - lo, hi - lo);
    assert (xnew - lo) * (b - a) / (hi - lo) == t * (b - a);
    if a <= b {
      MulNonNegative(t, b - a);
      MulNonNegative(1.0 - t, b - a);
      assert (b - a) - t * (b - a) == (1.0 - t) * (b - a);
    } else {
      MulNonNegative(t, a - b);
      MulNonNegative(1.0 - t, a - b);
      assert t * (b - a) == -(t * (a - b));
      assert (a - b) - t * (a - b) == (1.0 - t) * (a - b);
    }
  }

  /** Inside [x[0], x[N - 1]) the value lies between the y values of its interval's ends. */
  lemma BetweenNeighbours(xnew: real, x: seq<real>, y: seq<real>)
    requires 1 <= |x| && |y| == |x| && x[0] <= xnew < x[|x| - 1]
    ensures var i := Bracket(x, xnew, 0);
            i < |x| - 1
            && InterpSpec(xnew, x, y) == Fin(Line(x, y, xnew, i))
            && (y[i] <= y[i + 1] ==> y[i] <= Line(x, y, xnew, i) <= y[i + 1])
            && (y[i + 1] <= y[i] ==> y[i + 1] <= Line(x, y, xnew, i) <= y[i])
  {
    BracketFound(x, xnew, 0);
    var i := Bracket(x, xnew, 0);
    FractionInUnit(x[i], x[i + 1], xnew, y[i], y[i + 1]);
  }

  /** checkParameterValue's condition: the knots increase strictly. */
  ghost predicate Increasing(x: seq<real>)
  {
    forall i :: 1 <= i < |x| ==> x[i] > x[i - 1]
  }

  /** Adjacent increase gives increase between any two knots. */
  lemma {:induction false} IncreasingOrdered(x: seq<real>, i: nat, j: nat)
    requires Increasing(x) && i < j < |x|
    ensures x[i] < x[j]
    decreases j - i
  {
    if i + 1 < j {
      IncreasingOrdered(x, i, j - 1);
    }
  }

  /** With increasing knots the interpolant passes through every point (x[k], y[k]). */
  lemma AtKnot(x: seq<real>, y: seq<real>, k: nat)
    requires 1 <= |x| && |y| == |x| && k < |x| && Increasing(x)
    ensures InterpSpec(x[k], x, y) == Fin(y[k])
  {
    var n := |x|;
    if 0 < k {
      IncreasingOrdered(x, 0, k);
    }
    if k < n - 1 {
      IncreasingOrdered(x, k, n - 1);
      BracketAtKnot(x, k, 0);
      assert x[k + 1] > x[k];
      LineAtLeftEnd(x, y, k);
    }
  }

  /** The line of interval i starts at (x[i], y[i]). */
  lemma LineAtLeftEnd(x: seq<real>, y: seq<real>, i: nat)
    requires i + 1 < |x| && |y| == |x| && x[i] < x[i + 1]
    ensures Line(x, y, x[i], i) == y[i]
  {
    assert (x[i] - x[i]) * (y[i + 1] - y[i]) == 0.0;
  }

  /** At knot k the search from any i <= k stops at k. */
  lemma {:induction false} BracketAtKnot(x: seq<real>, k: nat, i: nat)
    requires Increasing(x) && i <= k < |x| - 1
    ensures Bracket(x, x[k], i) == k
    decreases k - i
  {
    if i < k {
      if i + 1 < k {
        IncreasingOrdered(x, i + 1, k);
      }
      assert !InInterval(x, x[k], i);
      BracketAtKnot(x, k, i + 1);
    }
  }

  /** checkParameterLength: a scalar xnew, non-empty knots and as many y as x. */
  function CheckParameterLength(lengths: seq<nat>): (ok: bool)
    requires |lengths| == 3
    ensures ok <==> lengths[0] == 1 && lengths[1] >= 1 && lengths[2] == lengths[1]
  {
    lengths[0] == 1 && lengths[1] != 0 && lengths[2] == lengths[1]
  }

  /** checkParameterValue: the first non-increasing step rejects. */
  method CheckParameterValue(x: seq<real>) returns (ok: bool)
    ensures ok <==> Increasing(x)
  {
    var i := 1;
    while i < |x|
      invariant 1 <= i <= |x| || |x| == 0
      invariant forall j :: 1 <= j < i && j < |x| ==> x[j] > x[j - 1]
    {
      if x[i] <= x[i - 1] {
        return false;
      }
      i := i + 1;
    }
    return true;
  }
}
