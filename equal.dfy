/**
 * Equal (src/modules/base/functions/Equal.cc): the infix operator "==",
 * which gives 1 when its arguments are equal and 0 otherwise.
 */
module EqualOperator {

  const Name: string := "=="

  function EvaluateScalar(a: real, b: real): (r: real)
    ensures r == 0.0 || r == 1.0
    ensures r == 1.0 <==> a == b
  {
    if a == b then 1.0 else 0.0
  }

  /** The result is 0 or 1 whatever the arguments. */
  predicate IsDiscreteValued(mask: seq<bool>)
  {
    true
  }

  /** Exact equality is reflexive and symmetric. */
  lemma ReflexiveSymmetric(a: real, b: real)
    ensures EvaluateScalar(a, a) == 1.0
    ensures EvaluateScalar(a, b) == EvaluateScalar(b, a)
  {
  }
}
