/**
 * DensityMethod (src/lib/sampler/DensityMethod.cc): the sample method
 * of a DensitySampler, which remembers the sampler and the chain it
 * works for.
 */
module DensityMethods {
  import opened Wrappers

  /** The sampler is a handle; None is the null pointer. */
  class DensityMethod {
    var sampler: Option<nat>
    var chain: nat

    /** A new method belongs to no sampler and to chain 0. */
    constructor()
      ensures sampler == None && chain == 0
    {
      sampler := None;
      chain := 0;
    }

    /** setData overwrites both the sampler and the chain. */
    method SetData(s: Option<nat>, ch: nat)
      modifies this
      ensures sampler == s && chain == ch
    {
      sampler := s;
      chain := ch;
    }

    /** The default initialize does nothing. */
    method Initialize(s: Option<nat>, ch: nat)
      ensures sampler == old(sampler) && chain == old(chain)
    {
    }
  }
}
