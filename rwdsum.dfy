/**
 * What the two random-walk dsum samplers (DMultiDSum and RealDSum) share:
 * the static pick function each of the two source files defines in the
 * same words, and the column-major layout of the nrow x ncol value.
 */
module RWDSums {
  import opened Numeric
  import opened Matrices
  import Rng

  /**
   * u * n, written as a repeated sum so that proofs about it stay linear
   * (ScaledIsProduct shows it is the product).
   */
  function Scaled(u: real, n: nat): real
  {
    if n == 0 then 0.0 else Scaled(u, n - 1) + u
  }

  lemma {:induction false} ScaledIsProduct(u: real, n: nat)
    ensures Scaled(u, n) == u * n as real
  {
    if n > 0 {
      ScaledIsProduct(u, n - 1);
      assert u * n as real == u * (n - 1) as real + u;
    }
  }

  /** For u in [0, 1) and n >= 1, u * n lies in [0, n). */
  lemma {:induction false} ScaledRange(u: real, n: nat)
    requires 0.0 <= u < 1.0 && n >= 1
    ensures 0.0 <= Scaled(u, n) < n as real
  {
    if n > 1 {
      ScaledRange(u, n - 1);
    }
  }

  /** The integer pick returns for x = u * n: the least k >= 0 with k + 1 >= x. */
  function PickOf(x: real): (k: nat)
    ensures (k + 1) as real >= x
    ensures k == 0 || k as real < x
  {
    if x <= 1.0 then 0
    else if x.Floor as real == x then x.Floor - 1
    else x.Floor
  }

  /**
   * pick(n, rng): counts i up from 1 while i < u * n and returns i - 1,
   * taking one uniform draw.
   */
  method Pick(n: nat, rng: Rng.RNG) returns (k: nat, rng': Rng.RNG)
    ensures k == PickOf(Scaled(rng.Uniform(), n))
    ensures rng' == rng.Next()
  {
    var u := Scaled(rng.Uniform(), n);
    rng' := rng.Next();
    var i: nat := 1;
    while (i as real) < u
      invariant i >= 1 && (i == 1 || ((i - 1) as real) < u)
      decreases u.Floor + 1 - i
    {
      i := i + 1;
    }
    k := i - 1;
  }

  /** For n >= 1 and a valid generator, pick returns an integer in [0, n - 1]. */
  lemma PickInRange(n: nat, rng: Rng.RNG)
    requires rng.Valid() && n >= 1
    ensures PickOf(Scaled(rng.Uniform(), n)) < n
  {
    ScaledRange(rng.Uniform(), n);
    PickBelow(Scaled(rng.Uniform(), n), n);
  }

  lemma PickBelow(x: real, n: nat)
    requires 0.0 <= x < n as real && n >= 1
    ensures PickOf(x) < n
  {
  }

  /** Adding e at one position and taking it away at another keeps the sum. */
  lemma SumTransfer(s: seq<real>, i: nat, j: nat, e: real)
    requires i < |s| && j < |s| && i != j
    ensures Sum(s[i := s[i] + e][j := s[j] - e]) == Sum(s)
  {
    SumUpdate(s, i, s[i] + e);
    SumUpdate(s[i := s[i] + e], j, s[j] - e);
  }
}
