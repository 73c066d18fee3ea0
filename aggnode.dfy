/**
 * AggNode (src/lib/graph/AggNode.cc): a deterministic node whose elements
 * are single elements of its parents. Aggregates of aggregates are
 * flattened at construction so that no stored parent is an AggNode.
 */
module AggNodes {
  import opened Wrappers
  import opened Nodes
  import Dims

  /**
   * What sub_parents and sub_offsets need to stay inside their vectors:
   * sub_offsets reads parents[i] for every offset, sub_parents reads
   * offsets[i] for every aggregate parent, and then the aggregate parent's
   * own parents and offsets at that offset.
   */
  ghost predicate Substitutable(arena: Arena, parents: seq<NodeId>, offsets: seq<nat>)
  {
    && |offsets| <= |parents|
    && forall i :: 0 <= i < |parents| && arena(parents[i]).aggregate ==>
         i < |offsets|
         && offsets[i] < |arena(parents[i]).parents|
         && |arena(parents[i]).offsets| == |arena(parents[i]).parents|
  }

  /** An aggregate node whose own stored parents are not aggregates. */
  ghost predicate Flat(arena: Arena, n: NodeId)
  {
    forall j :: 0 <= j < |arena(n).parents| ==> !arena(arena(n).parents[j]).aggregate
  }

  /** sub_parents: an aggregate parent is replaced by its own parent at that offset. */
  function SubParents(arena: Arena, parents: seq<NodeId>, offsets: seq<nat>): (r: seq<NodeId>)
    requires Substitutable(arena, parents, offsets)
    ensures |r| == |parents|
    ensures forall i :: 0 <= i < |parents| ==>
      r[i] == if arena(parents[i]).aggregate then arena(parents[i]).parents[offsets[i]] else parents[i]
    ensures (forall i :: 0 <= i < |parents| && arena(parents[i]).aggregate ==> Flat(arena, parents[i]))
      ==> forall i :: 0 <= i < |r| ==> !arena(r[i]).aggregate
  {
    seq(|parents|, i requires 0 <= i < |parents| =>
      if arena(parents[i]).aggregate then arena(parents[i]).parents[offsets[i]] else parents[i])
  }

  /** sub_offsets: an aggregate parent's offset is replaced by its own offset there. */
  function SubOffsets(arena: Arena, parents: seq<NodeId>, offsets: seq<nat>): (r: seq<nat>)
    requires Substitutable(arena, parents, offsets)
    ensures |r| == |offsets|
    ensures forall i :: 0 <= i < |offsets| ==>
      r[i] == if arena(parents[i]).aggregate then arena(parents[i]).offsets[offsets[i]] else offsets[i]
  {
    seq(|offsets|, i requires 0 <= i < |offsets| =>
      if arena(parents[i]).aggregate then arena(parents[i]).offsets[offsets[i]] else offsets[i])
  }

  /**
   * The constructor's argument checks, done after substitution: a length
   * mismatch between the node, the parents and the offsets is a length
   * error, and a stored offset beyond its stored parent is out of range.
   * On success, the stored parents and offsets.
   */
  function CheckArguments(arena: Arena, dim: seq<nat>, parents: seq<NodeId>, offsets: seq<nat>)
    : (r: Result<(seq<NodeId>, seq<nat>)>)
    requires Substitutable(arena, parents, offsets)
    ensures (Dims.Product(dim) != |parents| || Dims.Product(dim) != |offsets|) <==> r == Err(LengthError)
    ensures r.Ok? ==> (r.value.0 == SubParents(arena, parents, offsets)
      && r.value.1 == SubOffsets(arena, parents, offsets))
    ensures r.Ok? ==> (|r.value.0| == Dims.Product(dim) == |r.value.1|
      && forall i :: 0 <= i < |r.value.0| ==> r.value.1[i] < arena(r.value.0[i]).length())
    ensures r == Err(OutOfRange) <==>
      Dims.Product(dim) == |parents| == |offsets|
      && exists i :: 0 <= i < |parents|
          && SubOffsets(arena, parents, offsets)[i] >= arena(SubParents(arena, parents, offsets)[i]).length()
    ensures r.Ok? || r == Err(LengthError) || r == Err(OutOfRange)
  {
    var ps := SubParents(arena, parents, offsets);
    var os := SubOffsets(arena, parents, offsets);
    var len := Dims.Product(dim);
    if len != |parents| || len != |offsets| then Err(LengthError)
    else if exists i :: 0 <= i < len && os[i] >= arena(ps[i]).length() then Err(OutOfRange)
    else Ok((ps, os))
  }

  /**
   * The example in the comment of AggNode.cc: X <- A[4:8] and then
   * Y <- X[3:4]. The aggregate Y is built on A directly, at A's elements
   * 6 and 7 (offsets 5 and 6); the comment's "A[7:8]" is off by one.
   */
  lemma SubsetOfSubset(arena: Arena)
    requires arena(1) == NodeInfo([], {}, {}, [10], false, false, false, false, [], "")
    requires arena(2) == NodeInfo([1, 1, 1, 1, 1], {}, {}, [5], false, false, false, true, [3, 4, 5, 6, 7], "")
    ensures Substitutable(arena, [2, 2], [2, 3])
    ensures SubParents(arena, [2, 2], [2, 3]) == [1, 1]
    ensures SubOffsets(arena, [2, 2], [2, 3]) == [5, 6]
  {
  }

  /** The ancestor-closure classes of a deterministic function (ClosedFuncClass). */
  datatype ClosedFuncClass = Additive | Scale | ScaleMix | Linear | Power

  /**
   * DNODE_ADDITIVE: the parents that are ancestors are all the same node
   * p, their offsets are distinct and cover every element of p, and when
   * fixed is requested every other parent is fixed.
   */
  ghost predicate AdditiveClosed(arena: Arena, parents: seq<NodeId>, offsets: seq<nat>,
                                  ancestors: set<NodeId>, fixed: bool)
    requires |offsets| == |parents|
  {
    && (forall i, j :: (0 <= i < |parents| && 0 <= j < |parents|
          && parents[i] in ancestors && parents[j] in ancestors) ==> parents[i] == parents[j])
    && (forall i, j :: (0 <= i < j < |parents|
          && parents[i] in ancestors && parents[j] in ancestors) ==> offsets[i] != offsets[j])
    && (forall i :: 0 <= i < |parents| && parents[i] in ancestors ==>
          forall t :: 0 <= t < arena(parents[i]).length() ==> t in UsedOffsets(parents, offsets, ancestors, |parents|))
    && (fixed ==> forall i :: 0 <= i < |parents| && parents[i] !in ancestors ==> arena(parents[i]).fixed)
  }

  /** The offsets at which the first n parents use an ancestor. */
  ghost function UsedOffsets(parents: seq<NodeId>, offsets: seq<nat>, ancestors: set<NodeId>, n: nat): set<nat>
    requires n <= |parents| == |offsets|
  {
    set k | 0 <= k < n && parents[k] in ancestors :: offsets[k]
  }

  /** One more parent adds its offset when it is an ancestor. */
  lemma UsedOffsetsStep(parents: seq<NodeId>, offsets: seq<nat>, ancestors: set<NodeId>, n: nat)
    requires n < |parents| == |offsets|
    ensures UsedOffsets(parents, offsets, ancestors, n + 1)
         == UsedOffsets(parents, offsets, ancestors, n) + (if parents[n] in ancestors then {offsets[n]} else {})
  {
  }

  ghost predicate ClosedSpec(arena: Arena, parents: seq<NodeId>, offsets: seq<nat>,
                             ancestors: set<NodeId>, fc: ClosedFuncClass, fixed: bool)
    requires |offsets| == |parents|
  {
    match fc
    case Additive => AdditiveClosed(arena, parents, offsets, ancestors, fixed)
    case Scale => forall i :: 0 <= i < |parents| ==> parents[i] in ancestors
    case ScaleMix => |parents| > 0 && parents[0] in ancestors
                     && forall i :: 0 <= i < |parents| ==> parents[i] == parents[0]
    case Linear => true
    case Power => false
  }

  /** The constructor's discreteness loop: stops at the first continuous parent. */
  method AllDiscrete(arena: Arena, ps: seq<NodeId>) returns (discrete: bool)
    ensures discrete <==> forall k :: 0 <= k < |ps| ==> arena(ps[k]).discrete
  {
    discrete := true;
    var i := 0;
    while i < |ps|
      invariant 0 <= i <= |ps|
      invariant discrete <==> forall k :: 0 <= k < i ==> arena(ps[k]).discrete
    {
      if !arena(ps[i]).discrete {
        return false;
      }
      i := i + 1;
    }
  }

  /**
   * What the scan of the DNODE_ADDITIVE branch knows after the first i
   * parents: pnode is the ancestor parent seen so far, if any, pmask marks
   * the offsets used so far, no offset was used twice, and, when fixed is
   * requested, every other parent so far is fixed.
   */
  ghost predicate ScanInv(arena: Arena, parents: seq<NodeId>, offsets: seq<nat>, ancestors: set<NodeId>, fixed: bool,
                          i: nat, pnode: Option<NodeId>, pmask: seq<bool>)
    requires i <= |parents| == |offsets|
  {
    && (pnode.None? <==> forall k :: 0 <= k < i ==> parents[k] !in ancestors)
    && (pnode.None? ==> pmask == [])
    && (pnode.Some? ==> (|pmask| == arena(pnode.value).length()
          && forall k :: 0 <= k < i && parents[k] in ancestors ==> parents[k] == pnode.value))
    && (forall t :: 0 <= t < |pmask| ==> (pmask[t] <==> t in UsedOffsets(parents, offsets, ancestors, i)))
    && (forall k, l :: 0 <= k < l < i && parents[k] in ancestors && parents[l] in ancestors ==> offsets[k] != offsets[l])
    && (fixed ==> forall k :: 0 <= k < i && parents[k] !in ancestors ==> arena(parents[k]).fixed)
  }

  /**
   * The DNODE_ADDITIVE branch of isClosed: one pass over the parents that
   * fixes the ancestor parent at its first appearance and marks its offsets
   * in a mask, failing on a second ancestor, a repeated offset or, when
   * fixed is requested, a parent that is not fixed; then every element of
   * the mask must be marked.
   */
  method AdditiveScan(arena: Arena, parents: seq<NodeId>, offsets: seq<nat>, ancestors: set<NodeId>, fixedFlag: bool)
    returns (b: bool)
    requires |offsets| == |parents|
    requires forall i :: 0 <= i < |parents| ==> offsets[i] < arena(parents[i]).length()
    ensures b == AdditiveClosed(arena, parents, offsets, ancestors, fixedFlag)
  {
    var pnode: Option<NodeId> := None;
    var pmask: seq<bool> := [];
    var i := 0;
    while i < |parents|
      invariant 0 <= i <= |parents|
      invariant ScanInv(arena, parents, offsets, ancestors, fixedFlag, i, pnode, pmask)
    {
      var ok;
      ok, pnode, pmask := ScanStep(arena, parents, offsets, ancestors, fixedFlag, i, pnode, pmask);
      if !ok {
        return false;
      }
      i := i + 1;
    }
    b := forall t :: 0 <= t < |pmask| ==> pmask[t];
    ScanVerdict(arena, parents, offsets, ancestors, fixedFlag, pnode, pmask);
  }

  /** The body of the scan for parent i. */
  method ScanStep(arena: Arena, parents: seq<NodeId>, offsets: seq<nat>, ancestors: set<NodeId>, fixedFlag: bool,
                  i: nat, pnode: Option<NodeId>, pmask: seq<bool>)
    returns (ok: bool, pnode': Option<NodeId>, pmask': seq<bool>)
    requires i < |parents| == |offsets| && offsets[i] < arena(parents[i]).length()
    requires ScanInv(arena, parents, offsets, ancestors, fixedFlag, i, pnode, pmask)
    ensures ok ==> ScanInv(arena, parents, offsets, ancestors, fixedFlag, i + 1, pnode', pmask')
    ensures !ok ==> !AdditiveClosed(arena, parents, offsets, ancestors, fixedFlag)
  {
    UsedOffsetsStep(parents, offsets, ancestors, i);
    pnode', pmask' := pnode, pmask;
    if parents[i] in ancestors {
      if pnode.None? {
        pnode' := Some(parents[i]);
        pmask' := seq(arena(parents[i]).length(), _ => false);
      } else {
        if parents[i] != pnode.value {
          var k :| 0 <= k < i && parents[k] in ancestors;
          SecondAncestor(arena, parents, offsets, ancestors, fixedFlag, k, i);
          return false, pnode', pmask';
        }
        if pmask[offsets[i]] {
          assert offsets[i] in UsedOffsets(parents, offsets, ancestors, i);
          var k :| 0 <= k < i && parents[k] in ancestors && offsets[k] == offsets[i];
          RepeatedOffset(arena, parents, offsets, ancestors, fixedFlag, k, i);
          return false, pnode', pmask';
        }
      }
      pmask' := pmask'[offsets[i] := true];
    } else if fixedFlag {
      if !arena(parents[i]).fixed {
        return false, pnode', pmask';
      }
    }
    ok := true;
  }

  /** After the last parent the scan's verdict is whether the mask is complete. */
  lemma ScanVerdict(arena: Arena, parents: seq<NodeId>, offsets: seq<nat>, ancestors: set<NodeId>, fixed: bool,
                    pnode: Option<NodeId>, pmask: seq<bool>)
    requires |parents| == |offsets|
    requires ScanInv(arena, parents, offsets, ancestors, fixed, |parents|, pnode, pmask)
    ensures (forall t :: 0 <= t < |pmask| ==> pmask[t]) == AdditiveClosed(arena, parents, offsets, ancestors, fixed)
  {
    if !forall t :: 0 <= t < |pmask| ==> pmask[t] {
      var t :| 0 <= t < |pmask| && !pmask[t];
      var k :| 0 <= k < |parents| && parents[k] in ancestors;
      assert t !in UsedOffsets(parents, offsets, ancestors, |parents|);
    }
  }

  /** Two different ancestor parents break DNODE_ADDITIVE closure. */
  lemma SecondAncestor(arena: Arena, parents: seq<NodeId>, offsets: seq<nat>, ancestors: set<NodeId>, fixed: bool, k: nat, i: nat)
    requires |offsets| == |parents| && k < i < |parents|
    requires parents[k] in ancestors && parents[i] in ancestors && parents[k] != parents[i]
    ensures !AdditiveClosed(arena, parents, offsets, ancestors, fixed)
  {
  }

  /** An ancestor element used twice breaks DNODE_ADDITIVE closure. */
  lemma RepeatedOffset(arena: Arena, parents: seq<NodeId>, offsets: seq<nat>, ancestors: set<NodeId>, fixed: bool, k: nat, i: nat)
    requires |offsets| == |parents| && k < i < |parents|
    requires parents[k] in ancestors && parents[i] in ancestors && offsets[k] == offsets[i]
    ensures !AdditiveClosed(arena, parents, offsets, ancestors, fixed)
  {
  }

  class AggNode {
    const dim: seq<nat>
    const length: nat
    const nchain: nat
    const parents: seq<NodeId>
    const offsets: seq<nat>
    const discrete: bool
    const fixed: bool
    /** The node's value in each chain. */
    var data: seq<seq<real>>

    ghost predicate Valid(arena: Arena)
      reads this
    {
      && |parents| == length && |offsets| == length && |data| == nchain
      && (forall ch :: 0 <= ch < nchain ==> |data[ch]| == length)
      && (forall i :: 0 <= i < length ==> offsets[i] < arena(parents[i]).length())
    }

    /** The chain-ch value that deterministicSample computes. */
    ghost function Gathered(values: NodeId -> seq<seq<real>>, ch: nat, arena: Arena): (v: seq<real>)
      reads this
      requires Valid(arena) && ValuesFit(arena, values, nchain) && ch < nchain
      ensures |v| == length
    {
      seq(length, i requires 0 <= i < length => values(parents[i])[ch][offsets[i]])
    }

    constructor Init(dim: seq<nat>, nchain: nat, parents: seq<NodeId>, offsets: seq<nat>,
                     discrete: bool, fixed: bool, data: seq<seq<real>>)
      ensures this.dim == dim && this.length == Dims.Product(dim) && this.nchain == nchain
      ensures this.parents == parents && this.offsets == offsets
      ensures this.discrete == discrete && this.fixed == fixed && this.data == data
    {
      this.dim := dim;
      this.length := Dims.Product(dim);
      this.nchain := nchain;
      this.parents := parents;
      this.offsets := offsets;
      this.discrete := discrete;
      this.fixed := fixed;
      this.data := data;
    }

    /**
     * The AggNode constructor: substitution, the argument checks, the
     * discreteness flag, and, for a node whose parents are all fixed, the
     * value of every chain.
     */
    static method Create(arena: Arena, values: NodeId -> seq<seq<real>>,
                         dim: seq<nat>, nchain: nat, parents: seq<NodeId>, offsets: seq<nat>)
      returns (r: Result<AggNode>)
      requires Substitutable(arena, parents, offsets)
      requires ValuesFit(arena, values, nchain)
      ensures r.Err? ==> CheckArguments(arena, dim, parents, offsets) == Err(r.error)
      ensures CheckArguments(arena, dim, parents, offsets).Ok? <==> r.Ok?
      ensures r.Ok? ==> (fresh(r.value) && r.value.Valid(arena)
        && r.value.parents == SubParents(arena, parents, offsets)
        && r.value.offsets == SubOffsets(arena, parents, offsets)
        && r.value.nchain == nchain
        && (r.value.discrete <==> forall i :: 0 <= i < |r.value.parents| ==> arena(r.value.parents[i]).discrete)
        && (r.value.fixed <==> forall i :: 0 <= i < |r.value.parents| ==> arena(r.value.parents[i]).fixed)
        && (r.value.fixed ==> forall ch :: 0 <= ch < nchain ==> r.value.data[ch] == r.value.Gathered(values, ch, arena)))
    {
      var check := CheckArguments(arena, dim, parents, offsets);
      if check.Err? {
        return Err(check.error);
      }
      var ps, os := check.value.0, check.value.1;
      var discrete := AllDiscrete(arena, ps);
      var fixed := forall k :: 0 <= k < |ps| ==> arena(ps[k]).fixed;
      var node := new AggNode.Init(dim, nchain, ps, os, discrete, fixed,
                                   seq(nchain, _ => seq(|ps|, _ => 0.0)));
      if fixed {
        node.SampleAll(arena, values);
      }
      return Ok(node);
    }

    /** The constructor's loop over the chains of a fixed node. */
    method SampleAll(arena: Arena, values: NodeId -> seq<seq<real>>)
      requires Valid(arena) && ValuesFit(arena, values, nchain)
      modifies this
      ensures Valid(arena)
      ensures forall ch :: 0 <= ch < nchain ==> data[ch] == Gathered(values, ch, arena)
    {
      var ch := 0;
      while ch < nchain
        invariant 0 <= ch <= nchain
        invariant Valid(arena)
        invariant forall c :: 0 <= c < ch ==> data[c] == Gathered(values, c, arena)
      {
        DeterministicSample(arena, values, ch);
        ch := ch + 1;
      }
    }

    /**
     * deterministicSample(ch): element i of chain ch becomes element
     * offsets[i] of stored parent i's chain-ch value; other chains keep
     * their values.
     */
    method DeterministicSample(arena: Arena, values: NodeId -> seq<seq<real>>, ch: nat)
      requires Valid(arena) && ValuesFit(arena, values, nchain) && ch < nchain
      modifies this
      ensures Valid(arena)
      ensures |data[ch]| == length
      ensures forall i :: 0 <= i < length ==> data[ch][i] == values(parents[i])[ch][offsets[i]]
      ensures forall c :: 0 <= c < nchain && c != ch ==> data[c] == old(data[c])
    {
      var row := data[ch];
      var i := 0;
      while i < length
        invariant 0 <= i <= length && |row| == length
        invariant forall k :: 0 <= k < i ==> row[k] == values(parents[k])[ch][offsets[k]]
      {
        row := row[i := values(parents[i])[ch][offsets[i]]];
        i := i + 1;
      }
      data := data[ch := row];
    }

    /** isDiscreteValued. */
    function IsDiscreteValued(arena: Arena): (b: bool)
      reads this
      requires discrete <==> forall i :: 0 <= i < |parents| ==> arena(parents[i]).discrete
      ensures b <==> forall i :: 0 <= i < |parents| ==> arena(parents[i]).discrete
    {
      discrete
    }

    /**
     * isClosed(ancestors, fc, fixed). For DNODE_ADDITIVE a mask over the
     * elements of the one ancestor parent records which offsets are used.
     */
    method IsClosed(arena: Arena, ancestors: set<NodeId>, fc: ClosedFuncClass, fixedFlag: bool)
      returns (b: bool)
      requires Valid(arena)
      requires fc == ScaleMix ==> length > 0
      ensures b == ClosedSpec(arena, parents, offsets, ancestors, fc, fixedFlag)
    {
      match fc {
        case Additive =>
          b := IsAdditiveClosed(arena, ancestors, fixedFlag);
        case Scale =>
          var i := 0;
          while i < |parents|
            invariant 0 <= i <= |parents|
            invariant forall k :: 0 <= k < i ==> parents[k] in ancestors
          {
            if parents[i] !in ancestors {
              return false;
            }
            i := i + 1;
          }
          return true;
        case ScaleMix =>
          if parents[0] !in ancestors {
            return false;
          }
          var i := 1;
          while i < |parents|
            invariant 1 <= i <= |parents|
            invariant forall k :: 0 <= k < i ==> parents[k] == parents[0]
          {
            if parents[i] != parents[0] {
              return false;
            }
            i := i + 1;
          }
          return true;
        case Linear =>
          return true;
        case Power =>
          return false;
      }
    }

    method IsAdditiveClosed(arena: Arena, ancestors: set<NodeId>, fixedFlag: bool) returns (b: bool)
      requires Valid(arena)
      ensures b == AdditiveClosed(arena, parents, offsets, ancestors, fixedFlag)
    {
      b := AdditiveScan(arena, parents, offsets, ancestors, fixedFlag);
    }
  }
}
