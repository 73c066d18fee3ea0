/**
 * LessOrEqual (src/modules/basefunctions/LessOrEqual.cc): the infix
 * operator "<=", which gives 1 when its first argument is at most its
 * second and 0 otherwise.
 */
module LessOrEqualOperator {

  const Name: string := "<="

  function EvaluateScalar(a: real, b: real): (r: real)
    ensures r == 0.0 || r == 1.0
    ensures r == 1.0 <==> a <= b
  {
    if a <= b then 1.0 else 0.0
  }

  /** The result is 0 or 1 whatever the arguments. */
  predicate IsDiscreteValued(mask: seq<bool>)
  {
    true
  }

  /** The relation is reflexive, antisymmetric and total. */
  lemma IsTotalOrder(a: real, b: real)
    ensures EvaluateScalar(a, a) == 1.0
    ensures EvaluateScalar(a, b) == 1.0 && EvaluateScalar(b, a) == 1.0 ==> a == b
    ensures EvaluateScalar(a, b) == 1.0 || EvaluateScalar(b, a) == 1.0
  {
  }
}
