/**
 * ArrayLogDensity (src/lib/function/ArrayLogDensity.cc): the function
 * logdensity.xxx(x, par...) that evaluates the full log density of the
 * array distribution dxxx at x; its arguments are the value followed by
 * the distribution's parameters.
 */
module ArrayLogDensities {
  import opened Numeric
  import opened Dims
  import opened Distributions

  /** The name: "logdensity." followed by the distribution's name without its leading "d". */
  function Name(dist: ArrayDist): (s: string)
    requires |dist.name| >= 1
    ensures |s| == |"logdensity."| + |dist.name| - 1
    ensures s[..|"logdensity."|] == "logdensity." && s[|"logdensity."|..] == dist.name[1..]
  {
    "logdensity." + dist.name[1..]
  }

  /** One more argument than the distribution has parameters: the value comes first. */
  function NPar(dist: ArrayDist): (n: nat)
    ensures n == dist.npar + 1
  {
    dist.npar + 1
  }

  /** dim: the log density is a scalar. */
  function Dim(dims: seq<seq<nat>>): (d: seq<nat>)
    ensures d == [1]
  {
    [1]
  }

  /**
   * evaluate: the full log density of x = args[0], of length
   * product(dims[0]), with parameters args[1..npar] of dimensions
   * dims[1..npar] and no bounds.
   */
  method Evaluate(dist: ArrayDist, args: seq<seq<real>>, dims: seq<seq<nat>>) returns (value: real)
    requires |args| == dist.npar + 1 && |dims| == dist.npar + 1
    ensures value == dist.logDensity(args[0], Product(dims[0]), PDFFull, args[1..], dims[1..])
  {
    var dargs := ShiftArguments(args, dist.npar);
    var ddims := ShiftArguments(dims, dist.npar);
    assert dargs == args[1..] && ddims == dims[1..];
    value := dist.logDensity(args[0], Product(dims[0]), PDFFull, dargs, ddims);
  }

  /**
   * checkParameterDim: the distribution accepts the parameter dimensions
   * and the value has the dimension it gives them.
   */
  method CheckParameterDim(dist: ArrayDist, dims: seq<seq<nat>>) returns (ok: bool)
    requires |dims| == dist.npar + 1
    ensures ok <==> dist.checkParameterDim(dims[1..]) && dims[0] == dist.dim(dims[1..])
  {
    var ddim := ShiftArguments(dims, dist.npar);
    assert ddim == dims[1..];
    if !dist.checkParameterDim(ddim) {
      return false;
    }
    if dims[0] != dist.dim(ddim) {
      return false;
    }
    return true;
  }

  /** The integer mask of the parameters: whether the first element of each is an integer. */
  function IntegerMask(args: seq<seq<real>>): (mask: seq<bool>)
    requires |args| >= 1 && forall i :: 0 <= i < |args| ==> |args[i]| >= 1
    ensures |mask| == |args| - 1
    ensures forall i :: 0 <= i < |mask| ==> (mask[i] <==> IsIntegral(args[i + 1][0]))
  {
    seq(|args| - 1, i requires 0 <= i < |args| - 1 => IsIntegral(args[i + 1][0]))
  }

  /**
   * What checkParameterValue accepts: parameters whose integrality the
   * distribution allows, an integer value if the distribution is then
   * discrete-valued, and parameter values the distribution accepts.
   */
  predicate ValueAccepted(dist: ArrayDist, args: seq<seq<real>>, dims: seq<seq<nat>>)
    requires |args| == dist.npar + 1 && |dims| == dist.npar + 1
    requires forall i :: 0 <= i < |args| ==> |args[i]| >= 1
  {
    var mask := IntegerMask(args);
    && dist.checkParameterDiscrete(mask)
    && (dist.isDiscreteValued(mask) ==> IsIntegral(args[0][0]))
    && dist.checkParameterValue(args[1..], dims[1..])
  }

  method CheckParameterValue(dist: ArrayDist, args: seq<seq<real>>, dims: seq<seq<nat>>) returns (ok: bool)
    requires |args| == dist.npar + 1 && |dims| == dist.npar + 1
    requires forall i :: 0 <= i < |args| ==> |args[i]| >= 1
    ensures ok <==> ValueAccepted(dist, args, dims)
  {
    var mask := MakeMask(args, dist.npar);
    if !dist.checkParameterDiscrete(mask) {
      return false;
    }
    if dist.isDiscreteValued(mask) {
      if !IsIntegral(args[0][0]) {
        return false;
      }
    }
    var dargs := ShiftArguments(args, dist.npar);
    var ddims := ShiftArguments(dims, dist.npar);
    assert dargs == args[1..] && ddims == dims[1..];
    return dist.checkParameterValue(dargs, ddims);
  }

  /** The first loop of checkParameterValue: mask[i] = (p == static_cast<long>(p)) for p = args[i + 1][0]. */
  method MakeMask(args: seq<seq<real>>, npar: nat) returns (mask: seq<bool>)
    requires |args| == npar + 1 && forall i :: 0 <= i < |args| ==> |args[i]| >= 1
    ensures mask == IntegerMask(args)
  {
    mask := [];
    var i := 0;
    while i < npar
      invariant i <= npar && mask == IntegerMask(args)[..i]
    {
      var p := args[i + 1][0];
      mask := mask + [p == TruncToInt(p) as real];
      i := i + 1;
    }
  }
}
