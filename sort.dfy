/**
 * Sort (src/modules/bugs/functions/Sort.cc): the sort function, which
 * copies its vector argument into the value array and sorts it there.
 */
module Sorts {
  import opened Numeric
  import opened Dims

  const Name: string := "sort"
  const NPar: nat := 1

  /** Ascending order. */
  ghost predicate Sorted(s: seq<real>)
  {
    forall m, n :: 0 <= m < n < |s| ==> s[m] <= s[n]
  }

  /**
   * evaluate: the first len values of value are the first len arguments
   * in ascending order; the argument array is left alone.
   */
  method Evaluate(value: array<real>, arg: array<real>, len: nat)
    requires value != arg && len <= value.Length && len <= arg.Length
    modifies value
    ensures Sorted(value[..len])
    ensures multiset(value[..len]) == multiset(arg[..len])
    ensures value[len..] == old(value[len..])
  {
    var i := 0;
    while i < len
      invariant i <= len && value[..i] == arg[..i]
      invariant value[len..] == old(value[len..])
    {
      value[i] := arg[i];
      assert value[..i + 1] == value[..i] + [value[i]];
      i := i + 1;
    }
    SortPrefix(value, len);
  }

  /** sort(value, value + len): sorts the first len elements in place (insertion sort). */
  method SortPrefix(a: array<real>, len: nat)
    requires len <= a.Length
    modifies a
    ensures Sorted(a[..len])
    ensures multiset(a[..len]) == multiset(old(a[..len]))
    ensures a[len..] == old(a[len..])
  {
    if len == 0 {
      return;
    }
    var i := 1;
    while i < len
      invariant 1 <= i <= len
      invariant forall m, n :: 0 <= m < n < i ==> a[m] <= a[n]
      invariant multiset(a[..len]) == multiset(old(a[..len]))
      invariant a[len..] == old(a[len..])
    {
      Insert(a, len, i);
      i := i + 1;
    }
    assert a[..len] == a[..i];
  }

  /** Moves a[i] down into the sorted prefix a[..i] by adjacent swaps. */
  method Insert(a: array<real>, len: nat, i: nat)
    requires i < len <= a.Length
    requires forall m, n :: 0 <= m < n < i ==> a[m] <= a[n]
    modifies a
    ensures forall m, n :: 0 <= m < n <= i ==> a[m] <= a[n]
    ensures multiset(a[..len]) == multiset(old(a[..len]))
    ensures a[len..] == old(a[len..])
  {
    var j := i;
    while j > 0 && a[j - 1] > a[j]
      invariant 0 <= j <= i
      invariant forall m, n :: 0 <= m < n <= i && m != j && n != j ==> a[m] <= a[n]
      invariant forall n :: j < n <= i ==> a[j] <= a[n]
      invariant multiset(a[..len]) == multiset(old(a[..len]))
      invariant a[len..] == old(a[len..])
    {
      Swap(a, len, j - 1);
      j := j - 1;
    }
  }

  /** Exchanges a[k] and a[k + 1]. */
  method Swap(a: array<real>, len: nat, k: nat)
    requires k + 1 < len <= a.Length
    modifies a
    ensures a[k] == old(a[k + 1]) && a[k + 1] == old(a[k])
    ensures forall m :: 0 <= m < a.Length && m != k && m != k + 1 ==> a[m] == old(a[m])
    ensures multiset(a[..len]) == multiset(old(a[..len]))
    ensures a[len..] == old(a[len..])
  {
    a[k], a[k + 1] := a[k + 1], a[k];
  }

  /** dim: the value has the argument's dimension. */
  function Dim(dims: seq<seq<nat>>): seq<nat>
    requires |dims| == 1
  {
    dims[0]
  }

  /** checkParameterDim: a vector or a scalar. */
  function CheckParameterDim(dims: seq<seq<nat>>): (ok: bool)
    requires |dims| == 1
    ensures ok ==> |Dim(dims)| == 1 && Product(Dim(dims)) >= 1
  {
    IsVector(dims[0]) || IsScalar(dims[0])
  }

  /** The number of false entries of the mask: count(mask.begin(), mask.end(), false). */
  function CountFalse(mask: seq<bool>): (n: nat)
    ensures n <= |mask|
    ensures n == 0 <==> forall i :: 0 <= i < |mask| ==> mask[i]
  {
    if |mask| == 0 then 0
    else CountFalse(mask[..|mask| - 1]) + (if mask[|mask| - 1] then 0 else 1)
  }

  /**
   * isDiscreteValued as compiled on most platforms: the count of
   * non-discrete arguments converted to bool, which is true exactly when
   * some argument is NOT discrete.
   */
  function IsDiscreteValuedAsWritten(mask: seq<bool>): (b: bool)
    ensures b <==> exists i :: 0 <= i < |mask| && !mask[i]
  {
    CountFalse(mask) != 0
  }

  /**
   * The compiled branch inverts the answer: a discrete argument is
   * reported as giving a non-discrete result, and a continuous one as
   * giving a discrete result.
   */
  lemma IsDiscreteValuedAsWrittenInverted()
    ensures !IsDiscreteValuedAsWritten([true])
    ensures IsDiscreteValuedAsWritten([false])
  {
    assert !([false][0]);
  }

  /** isDiscreteValued as intended (the Solaris branch, n == 0): every argument is discrete. */
  function IsDiscreteValued(mask: seq<bool>): (b: bool)
    ensures b <==> forall i :: 0 <= i < |mask| ==> mask[i]
  {
    CountFalse(mask) == 0
  }

  /**
   * The intended answer is sound: when the argument is discrete so is the
   * sorted value, because it holds the same elements.
   */
  lemma SortedValueDiscrete(arg: seq<real>, value: seq<real>, mask: seq<bool>)
    requires |mask| == 1 && IsDiscreteValued(mask)
    requires mask[0] ==> forall i :: 0 <= i < |arg| ==> IsIntegral(arg[i])
    requires multiset(value) == multiset(arg)
    ensures forall i :: 0 <= i < |value| ==> IsIntegral(value[i])
  {
    forall i | 0 <= i < |value|
      ensures IsIntegral(value[i])
    {
      assert value[i] in multiset(value);
      assert value[i] in arg;
    }
  }
}
