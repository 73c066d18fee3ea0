/**
 * IWLSFactory (src/modules/glm/samplers/IWLSFactory.cc): which nodes
 * and outcome families the iteratively weighted least squares GLM
 * sampler accepts.
 */
module IWLSFactories {
  /** The outcome family of a GLM node, as GLMMethod::getFamily classifies it. */
  datatype GLMFamily = GLMNormal | GLMBernoulli | GLMBinomial | GLMPoisson | GLMUnknown

  /**
   * checkOutcome: a normal outcome is accepted only without a link
   * node, an unknown family never, and any other family only with a
   * link node (hasLink says whether lnode is non-null).
   */
  function CheckOutcome(family: GLMFamily, hasLink: bool): (ok: bool)
    ensures family == GLMNormal ==> (ok <==> !hasLink)
    ensures family == GLMUnknown ==> !ok
    ensures family != GLMNormal && family != GLMUnknown ==> (ok <==> hasLink)
  {
    match family
    case GLMNormal => !hasLink
    case GLMUnknown => false
    case _ => hasLink
  }

  /**
   * Every known family is accepted with exactly one of "link" and "no
   * link", and the unknown family with neither.
   */
  lemma CheckOutcomeExactlyOne(family: GLMFamily)
    ensures family != GLMUnknown <==> CheckOutcome(family, true) != CheckOutcome(family, false)
    ensures !(CheckOutcome(family, true) && CheckOutcome(family, false))
  {
  }

  /** The node's facts canSample reads. */
  predicate CanSampleSpec(nparents: nat, observed: bool, bounded: bool)
  {
    (nparents == 0 || observed) && !bounded
  }

  /**
   * canSample: a node with at least one parent must be observed (the
   * test sits inside the loop over the parents, so a parentless node
   * is not asked), and the node must not be bounded.
   */
  method CanSample(nparents: nat, observed: bool, bounded: bool) returns (b: bool)
    ensures b == CanSampleSpec(nparents, observed, bounded)
    ensures b ==> !bounded
    ensures nparents > 0 && !observed ==> !b
  {
    var i := 0;
    while i < nparents
      invariant i <= nparents && (i > 0 ==> observed)
    {
      if !observed {
        return false;
      }
      i := i + 1;
    }
    return !bounded;
  }
}
