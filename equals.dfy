/**
 * Equals (src/modules/bugs/functions/Equals.cc): the function
 * equals(a, b), which gives 1 when its arguments are within 16 times the
 * machine epsilon of each other and 0 otherwise.
 */
module EqualsFunction {
  import opened Numeric

  const Name: string := "equals"
  const NPar: nat := 2

  function Eval(a: real, b: real): (r: real)
    ensures r == 0.0 || r == 1.0
    ensures r == 1.0 <==> Abs(a - b) < Tolerance
  {
    if Abs(a - b) < Tolerance then 1.0 else 0.0
  }

  /** The result is 0 or 1 whatever the arguments. */
  predicate IsDiscreteValued(mask: seq<bool>)
  {
    true
  }

  /** The tolerance test is reflexive and symmetric. */
  lemma ReflexiveSymmetric(a: real, b: real)
    ensures Eval(a, a) == 1.0
    ensures Eval(a, b) == Eval(b, a)
  {
    assert Tolerance > 0.0;
    assert Abs(a - b) == Abs(b - a);
  }

  /** It is not transitive: 0 ~ tol * 0.6 ~ tol * 1.2, but 0 and tol * 1.2 are too far apart. */
  lemma NotTransitive()
    ensures var t := Tolerance;
            Eval(0.0, 0.6 * t) == 1.0 && Eval(0.6 * t, 1.2 * t) == 1.0 && Eval(0.0, 1.2 * t) == 0.0
  {
    var t := Tolerance;
    assert Abs(0.0 - 0.6 * t) == 0.6 * t;
    assert Abs(0.6 * t - 1.2 * t) == 0.6 * t;
    assert Abs(0.0 - 1.2 * t) == 1.2 * t;
  }
}
