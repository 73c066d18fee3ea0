/**
 * Seq (src/modules/base/functions/Seq.cc): the ":" operator, which gives
 * the integers from lhs to rhs, both arguments truncated toward zero.
 */
module Seqs {
  import opened Numeric

  const Name: string := ":"
  const NPar: nat := 2

  /** length: rhs - lhs + 1 elements, or none when rhs < lhs. */
  function Length(a: real, b: real): (n: nat)
    ensures TruncToInt(b) < TruncToInt(a) ==> n == 0
    ensures TruncToInt(b) >= TruncToInt(a) ==> n as int == TruncToInt(b) - TruncToInt(a) + 1
  {
    var lhs := TruncToInt(a);
    var rhs := TruncToInt(b);
    if rhs < lhs then 0 else rhs - lhs + 1
  }

  /** The values evaluate writes: lhs, lhs + 1, ..., rhs. */
  function Values(a: real, b: real): (v: seq<real>)
    ensures |v| == Length(a, b)
  {
    var lhs := TruncToInt(a);
    seq(Length(a, b), i => (lhs + i) as real)
  }

  /**
   * The sequence runs from lhs to rhs in unit steps, and every element is
   * an integer, as isDiscreteValued promises.
   */
  lemma ValuesAreUnitSteps(a: real, b: real)
    ensures Length(a, b) > 0 ==> Values(a, b)[0] == TruncToInt(a) as real
    ensures Length(a, b) > 0 ==> Values(a, b)[Length(a, b) - 1] == TruncToInt(b) as real
    ensures forall i :: 0 <= i < Length(a, b) - 1 ==> Values(a, b)[i + 1] == Values(a, b)[i] + 1.0
    ensures forall i :: 0 <= i < Length(a, b) ==> IsIntegral(Values(a, b)[i])
  {
    var v := Values(a, b);
    forall i | 0 <= i < |v|
      ensures IsIntegral(v[i])
    {
      IntegralOfInt(TruncToInt(a) + i);
    }
  }

  /** An integer converted to real is integral. */
  lemma IntegralOfInt(n: int)
    ensures IsIntegral(n as real)
  {
    assert TruncToInt(n as real) == n;
  }

  /**
   * evaluate: writes value[i] = lhs + i for each of the Length(a, b)
   * elements, and nothing when rhs < lhs.
   */
  method Evaluate(value: array<real>, a: real, b: real)
    requires value.Length >= Length(a, b)
    modifies value
    ensures value[..Length(a, b)] == Values(a, b)
    ensures value[Length(a, b)..] == old(value[Length(a, b)..])
  {
    var lhs := TruncToInt(a);
    var rhs := TruncToInt(b);
    if rhs < lhs {
      return;
    }
    var n := rhs - lhs + 1;
    var i := 0;
    while i < n
      invariant 0 <= i <= n && n == Length(a, b)
      invariant value[..i] == Values(a, b)[..i]
      invariant value[n..] == old(value[n..])
    {
      value[i] := (lhs + i) as real;
      assert value[..i + 1] == value[..i] + [value[i]];
      i := i + 1;
    }
  }

  /** checkParameterLength: both arguments are scalars. */
  function CheckParameterLength(len: seq<nat>): (ok: bool)
    requires |len| == 2
    ensures ok <==> len[0] == 1 && len[1] == 1
  {
    (len[0] == 1) && (len[1] == 1)
  }

  /** isDiscreteValued: the values are integers whatever the arguments. */
  predicate IsDiscreteValued(mask: seq<bool>)
  {
    true
  }

  /** checkParameterDiscrete: both arguments must be discrete. */
  function CheckParameterDiscrete(mask: seq<bool>): (ok: bool)
    requires |mask| == 2
    ensures ok <==> mask[0] && mask[1]
  {
    mask[0] && mask[1]
  }

  /** checkParameterFixed: both arguments must be fixed, so the length is fixed. */
  function CheckParameterFixed(mask: seq<bool>): (ok: bool)
    requires |mask| == 2
    ensures ok <==> mask[0] && mask[1]
  {
    mask[0] && mask[1]
  }

  /** deparse: "a:b". */
  function Deparse(par: seq<string>): (s: string)
    requires |par| == 2
    ensures |s| == |par[0]| + 1 + |par[1]|
    ensures s[..|par[0]|] == par[0] && s[|par[0]|] == ':' && s[|par[0]| + 1..] == par[1]
  {
    par[0] + ":" + par[1]
  }
}
