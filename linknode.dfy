/**
 * LinkNode (src/lib/graph/LinkNode.cc): a scalar logical node holding the
 * inverse link function of a generalized linear model applied to a scalar
 * parent.
 */
module LinkNodes {
  import opened Wrappers
  import opened Nodes
  import Dims

  /** A link function: its name, its inverse and the gradient of the inverse. */
  datatype LinkFunction = LinkFunction(linkName: string, inverseLink: real -> real, grad: real -> real)

  class LinkNode {
    const func: LinkFunction
    const nchain: nat
    const parents: seq<NodeId>
    const fixed: bool
    /** The node's value in each chain. */
    var data: seq<real>

    ghost predicate Valid()
      reads this
    {
      |parents| > 0 && |data| == nchain
    }

    constructor Init(func: LinkFunction, nchain: nat, parents: seq<NodeId>, fixed: bool)
      requires |parents| > 0
      ensures Valid()
      ensures this.func == func && this.nchain == nchain && this.parents == parents && this.fixed == fixed
    {
      this.func := func;
      this.nchain := nchain;
      this.parents := parents;
      this.fixed := fixed;
      this.data := seq(nchain, _ => 0.0);
    }

    /** The node's dimension: always a scalar. */
    function Dim(): (d: seq<nat>)
      ensures Dims.IsScalar(d)
    {
      [1]
    }

    /**
     * The LinkNode constructor: a first parent that is not scalar is a
     * runtime error; a node whose parents are all fixed gets its value in
     * every chain at once.
     */
    static method Create(arena: Arena, values: NodeId -> seq<seq<real>>, func: LinkFunction,
                         nchain: nat, parents: seq<NodeId>)
      returns (r: Result<LinkNode>)
      requires |parents| > 0
      requires ValuesFit(arena, values, nchain)
      ensures r.Err? <==> !Dims.IsScalar(arena(parents[0]).dim)
      ensures r.Err? ==> r.error == RuntimeError
      ensures r.Ok? ==> (fresh(r.value) && r.value.Valid()
        && r.value.func == func && r.value.parents == parents && r.value.nchain == nchain
        && (r.value.fixed <==> forall i :: 0 <= i < |parents| ==> arena(parents[i]).fixed)
        && (r.value.fixed ==> forall ch :: 0 <= ch < nchain ==>
              r.value.data[ch] == func.inverseLink(values(parents[0])[ch][0])))
    {
      if !Dims.IsScalar(arena(parents[0]).dim) {
        return Err(RuntimeError);
      }
      var fixed := forall i :: 0 <= i < |parents| ==> arena(parents[i]).fixed;
      var node := new LinkNode.Init(func, nchain, parents, fixed);
      if fixed {
        var ch := 0;
        while ch < nchain
          invariant 0 <= ch <= nchain
          invariant node.Valid() && node.parents == parents && node.func == func
          invariant forall c :: 0 <= c < ch ==> node.data[c] == func.inverseLink(values(parents[0])[c][0])
        {
          node.DeterministicSample(arena, values, ch);
          ch := ch + 1;
        }
      }
      return Ok(node);
    }

    /** deterministicSample(ch): only chain ch changes, to the inverse link of the parent's value. */
    method DeterministicSample(arena: Arena, values: NodeId -> seq<seq<real>>, ch: nat)
      requires Valid() && ValuesFit(arena, values, nchain) && ch < nchain
      requires Dims.IsScalar(arena(parents[0]).dim)
      modifies this
      ensures Valid()
      ensures data == old(data)[ch := func.inverseLink(values(parents[0])[ch][0])]
    {
      data := data[ch := func.inverseLink(Eta(arena, values, ch))];
    }

    /**
     * eta(ch): the linear predictor, the parent's chain-ch value. The
     * contract is the getter itself, stated so that callers need not
     * unfold it.
     */
    function Eta(arena: Arena, values: NodeId -> seq<seq<real>>, ch: nat): (e: real)
      reads this
      requires Valid() && ValuesFit(arena, values, nchain) && ch < nchain
      requires Dims.IsScalar(arena(parents[0]).dim)
      ensures e == values(parents[0])[ch][0]
    {
      values(parents[0])[ch][0]
    }

    /**
     * grad(ch): the gradient of the inverse link at eta(ch). Like Eta, the
     * contract is the getter itself.
     */
    function Grad(arena: Arena, values: NodeId -> seq<seq<real>>, ch: nat): (g: real)
      reads this
      requires Valid() && ValuesFit(arena, values, nchain) && ch < nchain
      requires Dims.IsScalar(arena(parents[0]).dim)
      ensures g == func.grad(Eta(arena, values, ch))
    {
      func.grad(values(parents[0])[ch][0])
    }

    /** checkParentValues accepts every parent value. */
    function CheckParentValues(ch: nat): (ok: bool)
      ensures ok
    {
      true
    }
  }
}
