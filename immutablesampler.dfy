/**
 * ImmutableSampler (src/lib/sampler/ImmutableSampler.cc): a sampler
 * whose method has nothing to adapt; update hands the chain and the
 * generator to its sample method.
 */
module ImmutableSamplers {
  import Rng

  /**
   * The sampler over a state of type S (the values of the nodes of its
   * graph view); step is the ImmutableSampleMethod's update.
   */
  class ImmutableSampler<S> {
    var state: S
    const step: (nat, S, Rng.RNG) -> (S, Rng.RNG)
    const nchain: nat
    const name: string

    constructor(state: S, step: (nat, S, Rng.RNG) -> (S, Rng.RNG), nchain: nat, name: string)
      ensures this.state == state && this.step == step && this.nchain == nchain && this.name == name
    {
      this.state := state;
      this.step := step;
      this.nchain := nchain;
      this.name := name;
    }

    /** update forwards to the method's update. */
    method Update(ch: nat, rng: Rng.RNG) returns (rng': Rng.RNG)
      modifies this
      ensures (state, rng') == step(ch, old(state), rng)
    {
      var r := step(ch, state, rng);
      state := r.0;
      rng' := r.1;
    }

    /** adaptOff has nothing to switch off: the state stays as it is. */
    method AdaptOff()
      ensures state == old(state)
    {
    }

    /** The name given at construction. */
    function Name(): (n: string)
      ensures n == name
    {
      name
    }
  }

  /** An immutable sampler never adapts. */
  function IsAdaptive(): (b: bool)
    ensures !b
  {
    false
  }

  /** Its adaptation check therefore always passes. */
  function CheckAdaptation(): (b: bool)
    ensures b
  {
    true
  }
}
