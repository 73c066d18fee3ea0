/**
 * The dimension predicates the distributions and functions use to check
 * parameter shapes (JAGS util/dim.h): a scalar has dimension [1], a vector
 * [n] with n > 1, a square matrix [n, n].
 */
module Dims {

  predicate IsScalar(d: seq<nat>) { |d| == 1 && d[0] == 1 }

  predicate IsVector(d: seq<nat>) { |d| == 1 && d[0] > 1 }

  predicate IsSquareMatrix(d: seq<nat>) { |d| == 2 && d[0] == d[1] }

  /** The number of elements of an array with dimension d. */
  function Product(d: seq<nat>): (p: nat)
    ensures IsScalar(d) ==> p == 1
    ensures |d| == 1 ==> p == d[0]
    ensures (exists i :: 0 <= i < |d| && d[i] == 0) ==> p == 0
  {
    if |d| == 0 then 1 else Product(d[..|d| - 1]) * d[|d| - 1]
  }
}
