/**
 * NotEqual (src/modules/basefunctions/NotEqual.cc): the infix operator
 * "!=", which gives 1 when its arguments differ and 0 otherwise.
 */
module NotEqualOperator {
  import EqualOperator

  const Name: string := "!="

  function EvaluateScalar(a: real, b: real): (r: real)
    ensures r == 0.0 || r == 1.0
    ensures r == 1.0 <==> a != b
  {
    if a != b then 1.0 else 0.0
  }

  /** The result is 0 or 1 whatever the arguments. */
  predicate IsDiscreteValued(mask: seq<bool>)
  {
    true
  }

  /** "!=" is symmetric, 0 on equal arguments, and the complement of "==". */
  lemma ComplementOfEqual(a: real, b: real)
    ensures EvaluateScalar(a, a) == 0.0
    ensures EvaluateScalar(a, b) == EvaluateScalar(b, a)
    ensures EvaluateScalar(a, b) == 1.0 - EqualOperator.EvaluateScalar(a, b)
  {
  }
}
