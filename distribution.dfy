/**
 * Vocabulary shared by the modelled distributions.
 */
module Distributions {
  /**
   * Which part of a log density is wanted: the full density, or a part
   * that may drop the terms constant in the parameters (prior) or in
   * the value (likelihood).
   */
  datatype PDFType = PDFPrior | PDFLikelihood | PDFFull

  /** s with element i taken out. */
  function Remove<T>(s: seq<T>, i: nat): (r: seq<T>)
    requires i < |s|
    ensures |r| == |s| - 1
    ensures forall k :: 0 <= k < i ==> r[k] == s[k]
    ensures forall k :: i <= k < |r| ==> r[k] == s[k + 1]
  {
    s[..i] + s[i + 1..]
  }

  /**
   * An array-valued distribution as the functions that wrap it see it:
   * its name, its number of parameters and its virtual members (log
   * density with no bounds, dimension and value checks).
   */
  datatype ArrayDist = ArrayDist(
    name: string,
    npar: nat,
    logDensity: (seq<real>, nat, PDFType, seq<seq<real>>, seq<seq<nat>>) -> real,
    checkParameterDim: seq<seq<nat>> -> bool,
    dim: seq<seq<nat>> -> seq<nat>,
    checkParameterDiscrete: seq<bool> -> bool,
    isDiscreteValued: seq<bool> -> bool,
    checkParameterValue: (seq<seq<real>>, seq<seq<nat>>) -> bool)

  /**
   * A scalar distribution with R-style p and d functions, as the p* and
   * d* functions see it; checkArgs is the argument check the two share.
   */
  datatype RScalarDist = RScalarDist(
    name: string,
    discrete: bool,
    p: (real, seq<real>, bool, bool) -> real,      // p(x, par, lower, give_log)
    d: (real, PDFType, seq<real>, bool) -> real,   // d(x, type, par, give_log)
    checkArgs: seq<real> -> bool)

  /**
   * The distribution's parameters inside a function call: the n arguments
   * after the first, copied one by one.
   */
  method ShiftArguments<T>(args: seq<T>, n: nat) returns (d: seq<T>)
    requires n < |args|
    ensures d == args[1..n + 1]
  {
    d := [];
    var i := 0;
    while i < n
      invariant i <= n && d == args[1..i + 1]
    {
      d := d + [args[i + 1]];
      i := i + 1;
    }
  }
}
