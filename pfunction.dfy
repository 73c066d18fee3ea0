/**
 * PFunction (src/lib/function/PFunction.cc): the function pxxx(x, par...)
 * giving the lower-tail distribution function of the scalar distribution
 * dxxx at x.
 */
module PFunctions {
  import opened Numeric
  import opened Distributions

  /** The name: "p" followed by the distribution's name without its leading "d". */
  function Name(dist: RScalarDist): (s: string)
    requires |dist.name| >= 1
    ensures |s| == |dist.name| && s[0] == 'p' && s[1..] == dist.name[1..]
  {
    "p" + dist.name[1..]
  }

  /** evaluate: p(x, par, lower = true, log = false) with x = args[0] and par = args[1..]. */
  method Evaluate(dist: RScalarDist, args: seq<real>) returns (r: real)
    requires |args| >= 1
    ensures r == dist.p(args[0], args[1..], true, false)
  {
    var x := args[0];
    var param := ShiftArguments(args, |args| - 1);
    assert param == args[1..];
    r := dist.p(x, param, true, false);
  }

  /**
   * checkParameterValue: a discrete distribution needs an integer x;
   * then the arguments must pass the shared argument check.
   */
  function CheckParameterValue(dist: RScalarDist, args: seq<real>): (ok: bool)
    requires |args| >= 1
    ensures dist.discrete && !IsIntegral(args[0]) ==> !ok
    ensures !(dist.discrete && !IsIntegral(args[0])) ==> (ok <==> dist.checkArgs(args))
  {
    if dist.discrete && args[0] != TruncToInt(args[0]) as real then false
    else dist.checkArgs(args)
  }
}
