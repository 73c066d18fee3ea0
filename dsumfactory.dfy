/**
 * DSumFactory (src/modules/bugs/samplers/DSumFactory.cc): builds a
 * DSumMethod sampler for the stochastic parents of an observed dsum node
 * when they all lie in the set of nodes to be sampled.
 */
module DSumFactories {
  import opened Wrappers
  import opened Nodes

  /** An observed stochastic node with the "dsum" distribution. */
  predicate IsObservedDSum(arena: Arena, c: NodeId)
  {
    arena(c).observed && arena(c).distName == "dsum"
  }

  /** The first node of s, in set order, that is an observed dsum node. */
  function FirstDSum(arena: Arena, s: set<NodeId>): (r: Option<NodeId>)
    ensures r.None? <==> forall c :: c in s ==> !IsObservedDSum(arena, c)
    ensures r.Some? ==> r.value in s && IsObservedDSum(arena, r.value)
    ensures r.Some? ==> forall c :: c in s && c < r.value ==> !IsObservedDSum(arena, c)
    decreases s
  {
    if s == {} then None
    else
      var c := SetMin(s);
      if IsObservedDSum(arena, c) then Some(c) else FirstDSum(arena, s - {c})
  }

  /**
   * getDSumChild: nothing for a node that is not scalar and
   * discrete-valued; otherwise its first observed dsum child.
   */
  function GetDSumChild(arena: Arena, node: NodeId): (r: Option<NodeId>)
    ensures arena(node).length() != 1 || !arena(node).discrete ==> r.None?
    ensures arena(node).length() == 1 && arena(node).discrete ==> r == FirstDSum(arena, arena(node).stochChildren)
  {
    if arena(node).length() != 1 || !arena(node).discrete then None
    else FirstDSum(arena, arena(node).stochChildren)
  }

  /** The dsum child found by the first node of s, in set order, that has one. */
  function FirstDSumChild(arena: Arena, s: set<NodeId>): (r: Option<NodeId>)
    ensures r.None? <==> forall p :: p in s ==> GetDSumChild(arena, p).None?
    ensures r.Some? ==> exists p :: p in s && GetDSumChild(arena, p) == r
    decreases s
  {
    if s == {} then None
    else
      var p := SetMin(s);
      var c := GetDSumChild(arena, p);
      if c.Some? then c else FirstDSumChild(arena, s - {p})
  }

  /** The sampler makeSampler builds: its sampled nodes and one method per chain. */
  datatype DSumSampler = DSumSampler(parameters: seq<NodeId>, nmethods: nat)

  /** What makeSampler returns; None stands for the null pointer. */
  function MakeSamplerSpec(arena: Arena, nodes: set<NodeId>, canSample: seq<NodeId> -> bool, nchain: nat): Option<DSumSampler>
  {
    var d := FirstDSumChild(arena, nodes);
    if d.None? then None
    else
      var parents := arena(d.value).parents;
      if exists i :: 0 <= i < |parents| && parents[i] !in nodes then None
      else if !canSample(parents) then None
      else Some(DSumSampler(parents, nchain))
  }

  /**
   * A sampler is built only for the parents, in order, of an observed
   * dsum child of a scalar discrete node of the set, when every parent
   * is in the set and DSumMethod::canSample accepts them; it has one
   * method per chain.
   */
  lemma MakeSamplerSound(arena: Arena, nodes: set<NodeId>, canSample: seq<NodeId> -> bool, nchain: nat)
    requires MakeSamplerSpec(arena, nodes, canSample, nchain).Some?
    ensures var s := MakeSamplerSpec(arena, nodes, canSample, nchain).value;
      && (exists p, d :: p in nodes && arena(p).length() == 1 && arena(p).discrete && d in arena(p).stochChildren
            && IsObservedDSum(arena, d) && s.parameters == arena(d).parents)
      && (forall i :: 0 <= i < |s.parameters| ==> s.parameters[i] in nodes)
      && canSample(s.parameters) && s.nmethods == nchain
  {
    var d := FirstDSumChild(arena, nodes);
    var p :| p in nodes && GetDSumChild(arena, p) == d;
    assert p in nodes && d.value in arena(p).stochChildren;
  }

  /** No sampler when no node of the set has an observed dsum child. */
  lemma MakeSamplerNoChild(arena: Arena, nodes: set<NodeId>, canSample: seq<NodeId> -> bool, nchain: nat)
    requires forall p :: p in nodes ==> GetDSumChild(arena, p).None?
    ensures MakeSamplerSpec(arena, nodes, canSample, nchain).None?
  {
  }

  /** getDSumChild's loop over the node's stochastic children. */
  method FindDSumChild(arena: Arena, node: NodeId) returns (r: Option<NodeId>)
    ensures r == GetDSumChild(arena, node)
  {
    if arena(node).length() != 1 || !arena(node).discrete {
      return None;
    }
    var rest := arena(node).stochChildren;
    while rest != {}
      invariant FirstDSum(arena, rest) == FirstDSum(arena, arena(node).stochChildren)
      decreases rest
    {
      var p := SetMin(rest);
      if IsObservedDSum(arena, p) {
        return Some(p);
      }
      rest := rest - {p};
    }
    return None;
  }

  /** The first loop of makeSampler: stop at the first node with a dsum child. */
  method FindInSet(arena: Arena, nodes: set<NodeId>) returns (dsum: Option<NodeId>)
    ensures dsum == FirstDSumChild(arena, nodes)
  {
    dsum := None;
    var rest := nodes;
    while rest != {}
      invariant FirstDSumChild(arena, rest) == FirstDSumChild(arena, nodes)
      invariant dsum.None?
      decreases rest
    {
      var p := SetMin(rest);
      dsum := FindDSumChild(arena, p);
      if dsum.Some? {
        assert dsum == FirstDSumChild(arena, rest);
        return;
      }
      rest := rest - {p};
    }
  }

  /**
   * The loop over the dsum node's parents: each is looked up in the
   * sample set and appended; a parent outside the set ends the search.
   */
  method CollectParameters(parents: seq<NodeId>, nodes: set<NodeId>) returns (ok: bool, parameters: seq<NodeId>)
    ensures ok <==> forall i :: 0 <= i < |parents| ==> parents[i] in nodes
    ensures ok ==> parameters == parents
  {
    parameters := [];
    var i := 0;
    while i < |parents|
      invariant i <= |parents| && parameters == parents[..i]
      invariant forall k :: 0 <= k < i ==> parents[k] in nodes
    {
      if parents[i] in nodes {
        parameters := parameters + [parents[i]];
      } else {
        return false, parameters;
      }
      i := i + 1;
    }
    assert parameters == parents;
    return true, parameters;
  }

  /**
   * makeSampler: the search over the sample set, the collection of the
   * dsum node's parents from the set, the canSample test and one method
   * per chain.
   */
  method MakeSampler(arena: Arena, nodes: set<NodeId>, canSample: seq<NodeId> -> bool, nchain: nat)
    returns (r: Option<DSumSampler>)
    ensures r == MakeSamplerSpec(arena, nodes, canSample, nchain)
  {
    var dsum := FindInSet(arena, nodes);
    if dsum.None? {
      return None;
    }
    var ok, parameters := CollectParameters(arena(dsum.value).parents, nodes);
    if !ok {
      return None;
    }
    if !canSample(parameters) {
      return None;
    }
    return Some(DSumSampler(parameters, nchain));
  }
}
