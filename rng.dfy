/**
 * A random number generator as a value: fixed streams of draws indexed by
 * how many draws have been taken so far. The streams are arbitrary except
 * for the ranges every JAGS RNG guarantees, collected in Valid().
 */
module Rng {

  datatype RNG = RNG(
    uniforms: nat -> real,               // rng->uniform()
    normals: nat -> real,                // rng->normal() / norm_rand
    exponentials: nat -> real,           // rng->exponential() / exp_rand
    gammas: (nat, real) -> real,         // rgamma(shape, 1)
    chisqs: (nat, real) -> real,         // rchisq(df)
    binomials: (nat, real, real) -> real,// rbinom(N, p)
    drawn: nat)
  {
    ghost predicate Valid()
    {
      && (forall n :: 0.0 <= uniforms(n) < 1.0)
      && (forall n :: exponentials(n) >= 0.0)
      && (forall n, a :: a > 0.0 ==> gammas(n, a) > 0.0)
      && (forall n, k :: k > 0.0 ==> chisqs(n, k) > 0.0)
      && (forall n, size, p :: size >= 0.0 ==> 0.0 <= binomials(n, size, p) <= size)
    }

    /** The next uniform draw, in [0, 1). */
    function Uniform(): (u: real)
      ensures Valid() ==> 0.0 <= u < 1.0
    {
      uniforms(drawn)
    }

    function Normal(): real { normals(drawn) }

    /** The next standard exponential draw, never negative. */
    function Exponential(): (e: real)
      ensures Valid() ==> e >= 0.0
    {
      exponentials(drawn)
    }

    /** The next gamma(shape, 1) draw, positive for a positive shape. */
    function Gamma(shape: real): (g: real)
      ensures Valid() && shape > 0.0 ==> g > 0.0
    {
      gammas(drawn, shape)
    }

    /** The next chi-squared draw, positive for positive degrees of freedom. */
    function ChiSq(df: real): (c: real)
      ensures Valid() && df > 0.0 ==> c > 0.0
    {
      chisqs(drawn, df)
    }

    /** The next binomial(size, p) draw, between 0 and size. */
    function Binomial(size: real, p: real): (b: real)
      ensures Valid() && size >= 0.0 ==> 0.0 <= b <= size
    {
      binomials(drawn, size, p)
    }

    /** The generator after one more draw. */
    function Next(): (r: RNG)
      ensures Valid() ==> r.Valid()
      ensures r.drawn == drawn + 1
    {
      this.(drawn := drawn + 1)
    }
  }

  /** A sequence of draws and the generator after them. */
  datatype Draws = Draws(x: seq<real>, rng: RNG)
}
