/**
 * InProd (src/modules/bugs/functions/InProd.cc): inprod(a, b), the inner
 * product of two vectors of the same length, which the source hands to
 * the BLAS routine ddot and which is modelled here as the sum it computes.
 */
module InProds {
  import opened Numeric

  const Name: string := "inprod"
  const NPar: nat := 2

  /** The products a[i] * b[i] for i < n. */
  function Products(a: seq<real>, b: seq<real>, n: nat): (p: seq<real>)
    requires n <= |a| && n <= |b|
    ensures |p| == n && forall i :: 0 <= i < n ==> p[i] == a[i] * b[i]
  {
    seq(n, i requires 0 <= i < n => a[i] * b[i])
  }

  /** scalarEval: ddot over the first lengths[0] elements. */
  function ScalarEval(a: seq<real>, b: seq<real>, n: nat): real
    requires n <= |a| && n <= |b|
  {
    Sum(Products(a, b, n))
  }

  /** The inner product is symmetric. */
  lemma ScalarEvalSymmetric(a: seq<real>, b: seq<real>, n: nat)
    requires n <= |a| && n <= |b|
    ensures ScalarEval(a, b, n) == ScalarEval(b, a, n)
  {
    assert Products(a, b, n) == Products(b, a, n);
  }

  /** Scaling the first argument scales the inner product. */
  lemma ScalarEvalScales(c: real, a: seq<real>, b: seq<real>, n: nat)
    requires n <= |a| && n <= |b|
    ensures ScalarEval(ScaleBy(c, a), b, n) == c * ScalarEval(a, b, n)
  {
    var p := Products(ScaleBy(c, a), b, n);
    var q := Products(a, b, n);
    forall i | 0 <= i < n
      ensures p[i] == ScaleBy(c, q)[i]
    {
      MulAssociates(c, a[i], b[i]);
    }
    assert p == ScaleBy(c, q);
    SumScaled(c, q);
  }

  /** checkParameterLength: two non-empty vectors of the same length. */
  function CheckParameterLength(lengths: seq<nat>): (ok: bool)
    requires |lengths| == 2
    ensures ok <==> lengths[0] >= 1 && lengths[1] == lengths[0]
  {
    (lengths[0] > 0) && (lengths[0] == lengths[1])
  }

  /** isDiscreteValued: both arguments are discrete. */
  function IsDiscreteValued(mask: seq<bool>): (ok: bool)
    ensures ok <==> forall i :: 0 <= i < |mask| ==> mask[i]
  {
    forall i :: 0 <= i < |mask| ==> mask[i]
  }

  /**
   * isScale: not when both arguments depend on the node (the result is
   * then quadratic); otherwise each argument must depend on the node or
   * be fixed, unless there is no fix mask at all.
   */
  function IsScale(mask: seq<bool>, fix: seq<bool>): (ok: bool)
    requires |mask| == 2 && (|fix| == 0 || |fix| == 2)
    ensures mask[0] && mask[1] ==> !ok
  {
    if mask[0] && mask[1] then false
    else if |fix| == 0 then true
    else (mask[0] || fix[0]) && (mask[1] || fix[1])
  }

  /**
   * What a positive isScale answer means: the argument that depends on
   * the node enters linearly, so scaling it by c scales the result by c.
   */
  lemma IsScaleSound(mask: seq<bool>, fix: seq<bool>, c: real, a: seq<real>, b: seq<real>, n: nat)
    requires |mask| == 2 && (|fix| == 0 || |fix| == 2) && IsScale(mask, fix)
    requires n <= |a| && n <= |b|
    ensures mask[0] ==> ScalarEval(ScaleBy(c, a), b, n) == c * ScalarEval(a, b, n)
    ensures mask[1] ==> ScalarEval(a, ScaleBy(c, b), n) == c * ScalarEval(a, b, n)
  {
    ScalarEvalScales(c, a, b, n);
    ScalarEvalSymmetric(a, ScaleBy(c, b), n);
    ScalarEvalScales(c, b, a, n);
    ScalarEvalSymmetric(a, b, n);
  }
}
