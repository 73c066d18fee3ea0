/**
 * VectorFunction (src/lib/function/VectorFunction.cc): the base class of
 * functions whose arguments are vectors; it rejects empty arguments and
 * accepts every argument value.
 */
module VectorFunctions {

  class VectorFunction {
    const name: string
    const npar: nat

    /** The constructor passes the name and the number of parameters to Function unchanged. */
    constructor (name: string, npar: nat)
      ensures this.name == name && this.npar == npar
    {
      this.name := name;
      this.npar := npar;
    }

    /** checkParameterValue: every argument value is accepted. */
    predicate CheckParameterValue(args: seq<seq<real>>, lengths: seq<nat>)
    {
      true
    }

    /** checkParameterLength: the first empty argument rejects; no argument at all is fine. */
    method CheckParameterLength(arglen: seq<nat>) returns (ok: bool)
      ensures ok <==> forall i :: 0 <= i < |arglen| ==> arglen[i] != 0
      ensures |arglen| == 0 ==> ok
    {
      var i := 0;
      while i < |arglen|
        invariant i <= |arglen| && forall j :: 0 <= j < i ==> arglen[j] != 0
      {
        if arglen[i] == 0 {
          return false;
        }
        i := i + 1;
      }
      return true;
    }
  }
}
