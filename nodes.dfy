/**
 * The node graph as the samplers, factories and aggregate nodes see it.
 * Nodes are integer handles; ordering by handle stands for the pointer
 * ordering of JAGS's std::set<Node*> containers.
 */
module Nodes {
  import Dims

  type NodeId = nat

  datatype NodeInfo = NodeInfo(
    parents: seq<NodeId>,
    stochChildren: set<NodeId>,
    detChildren: set<NodeId>,
    dim: seq<nat>,
    discrete: bool,        // isDiscreteValued()
    fixed: bool,           // isFixed()
    observed: bool,        // a stochastic node with observed data
    aggregate: bool,       // the node is an AggNode
    offsets: seq<nat>,     // an AggNode's offsets into its parents
    distName: string)      // a stochastic node's distribution name
  {
    /** The number of elements of the node's value. */
    function length(): nat { Dims.Product(dim) }
  }

  /** Every handle names some node: the model's nodes, looked up by handle. */
  type Arena = NodeId -> NodeInfo

  /** Every node has a value of its own length in every one of nchain chains. */
  ghost predicate ValuesFit(arena: Arena, values: NodeId -> seq<seq<real>>, nchain: nat)
  {
    forall p :: |values(p)| == nchain && forall ch :: 0 <= ch < nchain ==> |values(p)[ch]| == arena(p).length()
  }

  function Children(n: NodeInfo): set<NodeId>
  {
    n.stochChildren + n.detChildren
  }

  /** Descending from an element of s by smaller elements reaches a least one. */
  lemma {:induction false} MinBelow(s: set<nat>, y: nat)
    requires y in s
    ensures exists m :: m in s && forall x :: x in s ==> m <= x
    decreases y
  {
    if forall x :: x in s ==> y <= x {
      assert y in s;
    } else {
      var x :| x in s && x < y;
      MinBelow(s, x);
    }
  }

  /** The smallest handle of a non-empty set: the first element std::set visits. */
  function SetMin(s: set<nat>): (m: nat)
    requires s != {}
    ensures m in s
    ensures forall x :: x in s ==> m <= x
  {
    var y :| y in s;
    MinBelow(s, y);
    var m :| m in s && forall x :: x in s ==> m <= x;
    m
  }
}
