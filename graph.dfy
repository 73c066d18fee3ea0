/**
 * Graph (src/lib/graph/Graph.cc): a set of nodes with its stochastic
 * subset, closure checking and the layer-peeling topological sort.
 */
module GraphModel {
  import opened Wrappers
  import opened Nodes

  /** Whether node n has a stochastic or deterministic child in S. */
  function ChildInSet(n: NodeInfo, S: set<NodeId>): (r: bool)
    ensures r <==> exists c :: c in S && c in Children(n)
  {
    if n.stochChildren * S != {} then
      var c :| c in n.stochChildren * S; assert c in Children(n); true
    else if n.detChildren * S != {} then
      var c :| c in n.detChildren * S; assert c in Children(n); true
    else
      assert forall c :: c in S && c in Children(n) ==> c in n.stochChildren * S || c in n.detChildren * S;
      false
  }

  /** Every member's parents and children are members. */
  ghost predicate Closed(arena: Arena, members: set<NodeId>)
  {
    forall n :: n in members ==>
      (forall j :: 0 <= j < |arena(n).parents| ==> arena(n).parents[j] in members)
      && Children(arena(n)) <= members
  }

  /** n is a member with a parent outside the members. */
  ghost predicate HasBadParent(arena: Arena, members: set<NodeId>, n: NodeId)
  {
    n in members && exists j :: 0 <= j < |arena(n).parents| && arena(n).parents[j] !in members
  }

  /** c is outside the members but is a child of one of them. */
  ghost predicate IsBadChild(arena: Arena, members: set<NodeId>, c: NodeId)
  {
    c !in members && exists n :: n in members && c in Children(arena(n))
  }

  /** No element occurs twice. */
  predicate Distinct(s: seq<NodeId>)
  {
    forall i, j :: 0 <= i < j < |s| ==> s[i] != s[j]
  }

  /** Every node that has a child in T also has it there: T cannot be peeled. */
  ghost predicate Stuck(arena: Arena, T: set<NodeId>)
  {
    forall n :: n in T ==> ChildInSet(arena(n), T)
  }

  /** Whenever out[j] is a child of out[i], out[i] comes first. */
  ghost predicate ParentsFirst(arena: Arena, out: seq<NodeId>)
  {
    forall i, j :: 0 <= i < |out| && 0 <= j < |out| && out[j] in Children(arena(out[i])) ==> i < j
  }

  /** Whenever pushed[k] is a child of pushed[i], it was pushed first. */
  ghost predicate ChildrenPushedFirst(arena: Arena, pushed: seq<NodeId>)
  {
    forall i, k :: 0 <= i < |pushed| && 0 <= k < |pushed| && pushed[k] in Children(arena(pushed[i])) ==> k < i
  }

  function Reverse(s: seq<NodeId>): (r: seq<NodeId>)
    ensures |r| == |s|
    ensures forall i :: 0 <= i < |s| ==> r[i] == s[|s| - 1 - i]
  {
    if |s| == 0 then [] else [s[|s| - 1]] + Reverse(s[..|s| - 1])
  }

  /**
   * Reversing a sequence in which children are pushed before their parents
   * gives one in which parents come before their children.
   */
  lemma ReverseParentsFirst(arena: Arena, pushed: seq<NodeId>)
    requires ChildrenPushedFirst(arena, pushed)
    ensures ParentsFirst(arena, Reverse(pushed))
  {
    var out := Reverse(pushed);
    var n := |pushed|;
    forall i, j | 0 <= i < n && 0 <= j < n && out[j] in Children(arena(out[i]))
      ensures i < j
    {
      assert out[i] == pushed[n - 1 - i] && out[j] == pushed[n - 1 - j];
    }
  }

  /**
   * A graph with a rank that strictly decreases from parent to child has
   * no directed cycle, and then no non-empty node set is stuck.
   */
  ghost predicate Ranked(arena: Arena, rank: NodeId -> nat)
  {
    forall p, c :: c in Children(arena(p)) ==> rank(c) < rank(p)
  }

  lemma {:induction false} SinkBelow(arena: Arena, T: set<NodeId>, rank: NodeId -> nat, n: NodeId)
    requires Ranked(arena, rank)
    requires n in T
    ensures exists m :: m in T && !ChildInSet(arena(m), T)
    decreases rank(n)
  {
    if ChildInSet(arena(n), T) {
      var c :| c in T && c in Children(arena(n));
      SinkBelow(arena, T, rank, c);
    }
  }

  lemma RankedNeverStuck(arena: Arena, T: set<NodeId>, rank: NodeId -> nat)
    requires Ranked(arena, rank)
    requires T != {}
    ensures !Stuck(arena, T)
  {
    var n :| n in T;
    SinkBelow(arena, T, rank, n);
  }

  /**
   * The state of the sort after some nodes have been moved from S to the
   * pushed sequence and the rest are still to be sorted.
   */
  ghost predicate SortState(arena: Arena, S: set<NodeId>, pushed: seq<NodeId>, rest: set<NodeId>)
  {
    && rest <= S
    && (forall x :: x in pushed <==> x in S && x !in rest)
    && Distinct(pushed)
    && |pushed| + |rest| == |S|
    && (forall i, c :: 0 <= i < |pushed| && c in S && c in Children(arena(pushed[i])) ==> c !in rest)
    && ChildrenPushedFirst(arena, pushed)
  }

  /** Moving a node with no child left in rest keeps the sort state. */
  lemma PushKeepsState(arena: Arena, S: set<NodeId>, pushed: seq<NodeId>, rest: set<NodeId>, n: NodeId)
    requires SortState(arena, S, pushed, rest)
    requires n in rest && !ChildInSet(arena(n), rest)
    ensures SortState(arena, S, pushed + [n], rest - {n})
  {
    PushKeepsOrder(arena, S, pushed, rest, n);
    PushKeepsDistinct(pushed, rest, n);
    assert |rest - {n}| == |rest| - 1;
  }

  /** The node pushed last has no child left in rest, so every earlier push keeps its place. */
  lemma PushKeepsOrder(arena: Arena, S: set<NodeId>, pushed: seq<NodeId>, rest: set<NodeId>, n: NodeId)
    requires ChildrenPushedFirst(arena, pushed)
    requires forall i, c :: 0 <= i < |pushed| && c in S && c in Children(arena(pushed[i])) ==> c !in rest
    requires n in rest && rest <= S && !ChildInSet(arena(n), rest)
    ensures ChildrenPushedFirst(arena, pushed + [n])
  {
    var p := pushed + [n];
    var last := |pushed|;
    forall i, k | 0 <= i < |p| && 0 <= k < |p| && p[k] in Children(arena(p[i]))
      ensures k < i
    {
      if k < last && i < last {
        assert pushed[k] in Children(arena(pushed[i]));
      }
    }
  }

  /** A node taken from rest is not yet pushed. */
  lemma PushKeepsDistinct(pushed: seq<NodeId>, rest: set<NodeId>, n: NodeId)
    requires Distinct(pushed) && n in rest && forall i :: 0 <= i < |pushed| ==> pushed[i] !in rest
    ensures Distinct(pushed + [n])
  {
  }

  /**
   * One sweep over rest in handle order (the inner loop of getSortedNodes):
   * each visited node with no child left in rest is moved to pushed.
   */
  method Sweep(arena: Arena, ghost S: set<NodeId>, pushed: seq<NodeId>, rest: set<NodeId>)
    returns (pushed': seq<NodeId>, rest': set<NodeId>, progress: bool)
    requires SortState(arena, S, pushed, rest)
    ensures SortState(arena, S, pushed', rest')
    ensures progress ==> |rest'| < |rest|
    ensures !progress ==> rest' == rest && Stuck(arena, rest)
  {
    pushed', rest', progress := pushed, rest, false;
    var todo := rest;
    while todo != {}
      invariant todo <= rest' <= rest
      invariant SortState(arena, S, pushed', rest')
      invariant !progress ==> rest' == rest
      invariant !progress ==> forall x :: x in rest - todo ==> ChildInSet(arena(x), rest)
      invariant progress ==> |rest'| < |rest|
      decreases |todo|
    {
      var n := SetMin(todo);
      todo := todo - {n};
      if !ChildInSet(arena(n), rest') {
        PushKeepsState(arena, S, pushed', rest', n);
        progress := true;
        pushed' := pushed' + [n];
        rest' := rest' - {n};
      }
    }
  }

  /**
   * getSortedNodes(S, sortednodes): repeatedly sweeps S in handle order,
   * moving every node with no child left in S to the output, then reverses
   * the output. Returns the output and what is left of S.
   */
  method GetSortedNodes(arena: Arena, S: set<NodeId>, sorted: seq<NodeId>)
    returns (r: Result<seq<NodeId>>, rest: set<NodeId>)
    ensures sorted != [] ==> r == Err(LogicError) && rest == S
    ensures r.Ok? ==> (rest == {}
      && |r.value| == |S| && Distinct(r.value)
      && (forall x :: x in r.value <==> x in S)
      && ParentsFirst(arena, r.value))
    ensures r.Err? ==> r.error == LogicError
    ensures r.Err? && sorted == [] ==> rest != {} && rest <= S && Stuck(arena, rest)
  {
    if sorted != [] {
      return Err(LogicError), S;
    }
    var pushed: seq<NodeId> := [];
    rest := S;
    while rest != {}
      invariant SortState(arena, S, pushed, rest)
      decreases |rest|
    {
      var progress;
      pushed, rest, progress := Sweep(arena, S, pushed, rest);
      if !progress {
        return Err(LogicError), rest;
      }
    }
    ReverseParentsFirst(arena, pushed);
    var out := Reverse(pushed);
    forall i, j | 0 <= i < j < |out|
      ensures out[i] != out[j]
    {
      assert out[i] == pushed[|pushed| - 1 - i] && out[j] == pushed[|pushed| - 1 - j];
    }
    forall x
      ensures x in out <==> x in pushed
    {
      if x in pushed {
        var k :| 0 <= k < |pushed| && pushed[k] == x;
        assert out[|pushed| - 1 - k] == x;
      }
    }
    return Ok(out), rest;
  }

  class Graph {
    var nodes: set<NodeId>
    var stochNodes: set<NodeId>

    constructor()
      ensures nodes == {} && stochNodes == {}
    {
      nodes := {};
      stochNodes := {};
    }

    function Contains(n: NodeId): bool
      reads this
    {
      n in nodes
    }

    function Size(): nat
      reads this
    {
      |nodes|
    }

    /** add(StochasticNode*): a null node is an invalid argument. */
    method AddStochastic(snode: Option<NodeId>) returns (r: Outcome)
      modifies this
      ensures snode.None? ==> r == Fail(InvalidArgument)
      ensures snode.Some? ==> r == Pass
      ensures snode.None? || snode.value in old(nodes) ==>
        nodes == old(nodes) && stochNodes == old(stochNodes)
      ensures snode.Some? && snode.value !in old(nodes) ==>
        nodes == old(nodes) + {snode.value} && stochNodes == old(stochNodes) + {snode.value}
    {
      if snode.None? {
        return Fail(InvalidArgument);
      }
      if !Contains(snode.value) {
        nodes := nodes + {snode.value};
        stochNodes := stochNodes + {snode.value};
      }
      return Pass;
    }

    /** add(Node*): only the node set grows. */
    method Add(node: Option<NodeId>) returns (r: Outcome)
      modifies this
      ensures node.None? ==> r == Fail(InvalidArgument)
      ensures node.Some? ==> r == Pass
      ensures stochNodes == old(stochNodes)
      ensures nodes == if node.Some? then old(nodes) + {node.value} else old(nodes)
    {
      if node.None? {
        return Fail(InvalidArgument);
      }
      if !Contains(node.value) {
        nodes := nodes + {node.value};
      }
      return Pass;
    }

    /** remove(StochasticNode*): a member leaves both sets; a non-member changes nothing. */
    method RemoveStochastic(snode: NodeId)
      modifies this
      ensures snode in old(nodes) ==>
        nodes == old(nodes) - {snode} && stochNodes == old(stochNodes) - {snode}
      ensures snode !in old(nodes) ==> nodes == old(nodes) && stochNodes == old(stochNodes)
    {
      if Contains(snode) {
        stochNodes := stochNodes - {snode};
        nodes := nodes - {snode};
      }
    }

    /** remove(Node*): only the node set shrinks. */
    method Remove(node: NodeId)
      modifies this
      ensures nodes == old(nodes) - {node}
      ensures stochNodes == old(stochNodes)
    {
      if Contains(node) {
        nodes := nodes - {node};
      }
    }

    /** clear empties the node set only. */
    method Clear()
      modifies this
      ensures nodes == {}
      ensures stochNodes == old(stochNodes)
    {
      nodes := {};
    }

    /**
     * isClosed: visits the members in order and throws at the first member
     * with a parent outside the graph (naming the member) or at the first
     * child outside the graph (naming the child). It never returns false.
     */
    method IsClosed(arena: Arena) returns (r: Result<bool>)
      ensures r.Ok? ==> r.value
      ensures r.Ok? <==> Closed(arena, nodes)
      ensures r.Err? ==> (r.error.NodeError?
        && (HasBadParent(arena, nodes, r.error.node) || IsBadChild(arena, nodes, r.error.node)))
    {
      var todo := nodes;
      while todo != {}
        invariant todo <= nodes
        invariant forall n :: n in nodes - todo ==>
          (forall j :: 0 <= j < |arena(n).parents| ==> arena(n).parents[j] in nodes)
          && Children(arena(n)) <= nodes
        decreases |todo|
      {
        var i := SetMin(todo);
        todo := todo - {i};
        var ps := arena(i).parents;
        var j := 0;
        while j < |ps|
          invariant 0 <= j <= |ps|
          invariant forall k :: 0 <= k < j ==> ps[k] in nodes
        {
          if !Contains(ps[j]) {
            return Err(NodeError(i));
          }
          j := j + 1;
        }
        var badStoch := arena(i).stochChildren - nodes;
        if badStoch != {} {
          return Err(NodeError(SetMin(badStoch)));
        }
        var badDet := arena(i).detChildren - nodes;
        if badDet != {} {
          return Err(NodeError(SetMin(badDet)));
        }
        forall c | c in Children(arena(i))
          ensures c in nodes
        {
          if c in arena(i).stochChildren {
            assert c !in badStoch;
          } else {
            assert c !in badDet;
          }
        }
      }
      return Ok(true);
    }

    /** The const overload of getSortedNodes: sorts a copy of the node set. */
    method GetSortedMembers(arena: Arena, sorted: seq<NodeId>) returns (r: Result<seq<NodeId>>)
      ensures sorted != [] ==> r == Err(LogicError)
      ensures r.Ok? ==> (|r.value| == |nodes| && Distinct(r.value)
        && (forall x :: x in r.value <==> x in nodes)
        && ParentsFirst(arena, r.value))
      ensures r.Err? && sorted == [] ==> exists T :: T <= nodes && T != {} && Stuck(arena, T)
    {
      var rest;
      r, rest := GetSortedNodes(arena, nodes, sorted);
    }
  }
}
