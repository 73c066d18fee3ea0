/**
 * DFunction (src/lib/function/DFunction.cc): the function dxxx(x, par...)
 * giving the density of the scalar distribution dxxx at x.
 */
module DFunctions {
  import opened Numeric
  import opened Distributions
  import PFunctions

  /** The name is the distribution's own name. */
  function Name(dist: RScalarDist): (s: string)
    ensures s == dist.name
  {
    dist.name
  }

  /** evaluate: d(x, PDF_FULL, par, log = false) with x = args[0] and par = args[1..]. */
  method Evaluate(dist: RScalarDist, args: seq<real>) returns (r: real)
    requires |args| >= 1
    ensures r == dist.d(args[0], PDFFull, args[1..], false)
  {
    var x := args[0];
    var param := ShiftArguments(args, |args| - 1);
    assert param == args[1..];
    r := dist.d(x, PDFFull, param, false);
  }

  /**
   * checkParameterValue: a discrete distribution needs an integer x;
   * then the arguments must pass the shared argument check.
   */
  function CheckParameterValue(dist: RScalarDist, args: seq<real>): (ok: bool)
    requires |args| >= 1
    ensures dist.discrete && !IsIntegral(args[0]) ==> !ok
    ensures !(dist.discrete && !IsIntegral(args[0])) ==> (ok <==> dist.checkArgs(args))
  {
    if dist.discrete && args[0] != TruncToInt(args[0]) as real then false
    else dist.checkArgs(args)
  }

  /**
   * The d and p functions of a distribution accept exactly the same
   * arguments, and their names differ only in the first letter.
   */
  lemma SameChecksAsP(dist: RScalarDist, args: seq<real>)
    requires |args| >= 1 && |dist.name| >= 1
    ensures CheckParameterValue(dist, args) == PFunctions.CheckParameterValue(dist, args)
    ensures |PFunctions.Name(dist)| == |Name(dist)| && PFunctions.Name(dist)[1..] == Name(dist)[1..]
  {
  }
}
