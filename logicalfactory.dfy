/**
 * LogicalFactory (src/lib/compiler/LogicalFactory.cc): chooses the kind of
 * logical node for a function and its parents, and memoises nodes so that
 * the same function applied to the same parents gives the same node.
 */
module LogicalFactories {
  import opened Wrappers
  import opened Nodes
  import Dims

  /**
   * A FunctionPtr holds one pointer per kind of function; 0 stands for a
   * null pointer and a positive number for an address.
   */
  datatype FunctionPtr = FunctionPtr(scalarFn: nat, linkFn: nat, vectorFn: nat, arrayFn: nat)
  {
    predicate IsNull() { scalarFn == 0 && linkFn == 0 && vectorFn == 0 && arrayFn == 0 }
  }

  /**
   * lt(FunctionPtr, FunctionPtr) as written: it is true as soon as any
   * component of arg1 is below the same component of arg2, whether or not
   * the earlier components were equal.
   */
  predicate FunctionLtAsWritten(f1: FunctionPtr, f2: FunctionPtr)
  {
    if f1.scalarFn < f2.scalarFn then true
    else if f1.linkFn < f2.linkFn then true
    else if f1.vectorFn < f2.vectorFn then true
    else if f1.arrayFn < f2.arrayFn then true
    else false
  }

  /**
   * A scalar function and a link function are each "less" than the other
   * under the comparison as written, so it is not a strict weak order.
   */
  lemma FunctionLtAsWrittenNotAsymmetric()
    ensures FunctionLtAsWritten(FunctionPtr(1, 0, 0, 0), FunctionPtr(0, 1, 0, 0))
    ensures FunctionLtAsWritten(FunctionPtr(0, 1, 0, 0), FunctionPtr(1, 0, 0, 0))
    ensures exists f1, f2 :: FunctionLtAsWritten(f1, f2) && FunctionLtAsWritten(f2, f1)
  {
    assert FunctionLtAsWritten(FunctionPtr(1, 0, 0, 0), FunctionPtr(0, 1, 0, 0));
  }

  /** The evident intent: the lexicographic order on the four pointers. */
  predicate FunctionLt(f1: FunctionPtr, f2: FunctionPtr)
  {
    f1.scalarFn < f2.scalarFn
    || (f1.scalarFn == f2.scalarFn && (f1.linkFn < f2.linkFn
    || (f1.linkFn == f2.linkFn && (f1.vectorFn < f2.vectorFn
    || (f1.vectorFn == f2.vectorFn && f1.arrayFn < f2.arrayFn)))))
  }

  /** FunctionLt is a strict total order. */
  lemma FunctionLtStrictTotal(f1: FunctionPtr, f2: FunctionPtr, f3: FunctionPtr)
    ensures !FunctionLt(f1, f1)
    ensures FunctionLt(f1, f2) ==> !FunctionLt(f2, f1)
    ensures FunctionLt(f1, f2) && FunctionLt(f2, f3) ==> FunctionLt(f1, f3)
    ensures f1 != f2 ==> FunctionLt(f1, f2) || FunctionLt(f2, f1)
  {
  }

  /** The lexicographic order of parent vectors. */
  predicate ParentsLt(p1: seq<NodeId>, p2: seq<NodeId>)
  {
    if |p1| == 0 then |p2| > 0
    else if |p2| == 0 then false
    else p1[0] < p2[0] || (p1[0] == p2[0] && ParentsLt(p1[1..], p2[1..]))
  }

  /** A (function, parents) key of the memo table. */
  type LogicalPair = (FunctionPtr, seq<NodeId>)

  /**
   * lt(LogicalPair, LogicalPair): by function first, and by parents only
   * when neither function is less than the other.
   */
  predicate PairLt(lt: (FunctionPtr, FunctionPtr) -> bool, a: LogicalPair, b: LogicalPair)
  {
    if lt(a.0, b.0) then true
    else if lt(b.0, a.0) then false
    else ParentsLt(a.1, b.1)
  }

  /** Under the corrected function order, pairs are compared lexicographically. */
  lemma PairLtLexicographic(a: LogicalPair, b: LogicalPair)
    ensures PairLt(FunctionLt, a, b) <==> FunctionLt(a.0, b.0) || (a.0 == b.0 && ParentsLt(a.1, b.1))
  {
    FunctionLtStrictTotal(a.0, b.0, a.0);
  }

  /** The kinds of logical node newNode creates. */
  datatype LogicalKind = ScalarLogical | VSLogical | LinkLogical | VectorLogical | ArrayLogical

  /** Two parents longer than 1 whose lengths differ. */
  ghost predicate IncompatibleLengths(arena: Arena, parents: seq<NodeId>)
  {
    exists i, j :: 0 <= i < |parents| && 0 <= j < |parents|
      && arena(parents[i]).length() > 1 && arena(parents[j]).length() > 1
      && arena(parents[i]).length() != arena(parents[j]).length()
  }

  /**
   * newNode. A scalar function gives a scalar logical node when every
   * parent has length at most 1, a vectorised scalar node when all longer
   * parents share one length, and a runtime error otherwise. A link
   * function needs every parent of length 1 and, for the LinkNode
   * constructor, a first parent of scalar shape. A null function is an
   * invalid argument.
   */
  method NewNode(arena: Arena, func: FunctionPtr, parents: seq<NodeId>) returns (r: Result<LogicalKind>)
    ensures func.scalarFn != 0 ==> (
      && (r == Err(RuntimeError) <==> IncompatibleLengths(arena, parents))
      && (r == Ok(ScalarLogical) <==> forall i :: 0 <= i < |parents| ==> arena(parents[i]).length() <= 1)
      && (r.Ok? ==> r == Ok(ScalarLogical) || r == Ok(VSLogical))
      && (r.Err? ==> r == Err(RuntimeError)))
    ensures func.scalarFn == 0 && func.linkFn != 0 ==>
      r == (if (forall i :: 0 <= i < |parents| ==> arena(parents[i]).length() == 1)
               && |parents| > 0 && Dims.IsScalar(arena(parents[0]).dim)
            then Ok(LinkLogical) else Err(RuntimeError))
    ensures func.scalarFn == 0 && func.linkFn == 0 ==>
      r == (if func.vectorFn != 0 then Ok(VectorLogical)
            else if func.arrayFn != 0 then Ok(ArrayLogical)
            else Err(InvalidArgument))
  {
    if func.scalarFn != 0 {
      var arglength: nat := 1;
      var i := 0;
      ghost var first := 0;
      while i < |parents|
        invariant 0 <= i <= |parents|
        invariant arglength != 0 ==> (
          && (arglength == 1 <==> forall k :: 0 <= k < i ==> arena(parents[k]).length() <= 1)
          && (arglength > 1 ==> first < i && arena(parents[first]).length() == arglength)
          && forall k :: 0 <= k < i && arena(parents[k]).length() > 1 ==> arena(parents[k]).length() == arglength)
        invariant arglength == 0 ==> IncompatibleLengths(arena, parents)
      {
        var len := arena(parents[i]).length();
        if len > 1 {
          if arglength == 1 {
            arglength := len;
            first := i;
          } else if len != arglength {
            arglength := 0;
            break;
          }
        }
        i := i + 1;
      }
      if arglength == 0 {
        return Err(RuntimeError);
      } else if arglength == 1 {
        return Ok(ScalarLogical);
      } else {
        return Ok(VSLogical);
      }
    } else if func.linkFn != 0 {
      var ok := true;
      var i := 0;
      while i < |parents|
        invariant 0 <= i <= |parents|
        invariant ok <==> forall k :: 0 <= k < i ==> arena(parents[k]).length() == 1
      {
        if arena(parents[i]).length() != 1 {
          ok := false;
          break;
        }
        i := i + 1;
      }
      if !ok {
        return Err(RuntimeError);
      } else if |parents| == 0 || !Dims.IsScalar(arena(parents[0]).dim) {
        // The LinkNode constructor rejects a first parent that is not scalar.
        return Err(RuntimeError);
      } else {
        return Ok(LinkLogical);
      }
    } else if func.vectorFn != 0 {
      return Ok(VectorLogical);
    } else if func.arrayFn != 0 {
      return Ok(ArrayLogical);
    } else {
      return Err(InvalidArgument);
    }
  }

  /** A logical node the factory created: its kind, function and parents. */
  datatype LogicalNode = LogicalNode(kind: LogicalKind, func: FunctionPtr, parents: seq<NodeId>)

  /** The nodes added to the model, in order; a node's handle is its position. */
  class ModelNodes {
    var nodes: seq<LogicalNode>

    constructor ()
      ensures nodes == []
    {
      nodes := [];
    }

    method AddNode(n: LogicalNode) returns (id: NodeId)
      modifies this
      ensures nodes == old(nodes) + [n] && id == |old(nodes)|
    {
      id := |nodes|;
      nodes := nodes + [n];
    }
  }

  class LogicalFactory {
    var logicalmap: map<LogicalPair, NodeId>

    constructor ()
      ensures logicalmap == map[]
    {
      logicalmap := map[];
    }

    /** Every recorded node is in the model, created for its own key. */
    ghost predicate Valid(model: ModelNodes)
      reads this, model
    {
      forall key | key in logicalmap ::
        logicalmap[key] < |model.nodes|
        && model.nodes[logicalmap[key]].func == key.0
        && model.nodes[logicalmap[key]].parents == key.1
    }

    /**
     * getNode. A null function is an invalid argument. A key already in
     * the map gives its node and changes nothing; a new key creates one
     * node, records it and adds it to the model once. When newNode fails
     * nothing is recorded.
     */
    method GetNode(arena: Arena, func: FunctionPtr, parents: seq<NodeId>, model: ModelNodes)
      returns (r: Result<NodeId>)
      requires Valid(model)
      modifies this, model
      ensures Valid(model)
      ensures func.IsNull() ==> r == Err(InvalidArgument)
      ensures !func.IsNull() && (func, parents) in old(logicalmap) ==> r == Ok(old(logicalmap)[(func, parents)])
      ensures (r.Err? || (func, parents) in old(logicalmap)) ==>
        logicalmap == old(logicalmap) && model.nodes == old(model.nodes)
      ensures r.Ok? ==> (r.value < |model.nodes| && model.nodes[r.value].func == func
        && model.nodes[r.value].parents == parents)
      ensures r.Ok? && (func, parents) !in old(logicalmap) ==> (
        && r.value == |old(model.nodes)|
        && model.nodes == old(model.nodes) + [model.nodes[r.value]]
        && logicalmap == old(logicalmap)[(func, parents) := r.value])
    {
      if func.IsNull() {
        return Err(InvalidArgument);
      }
      var lpair := (func, parents);
      if lpair in logicalmap {
        return Ok(logicalmap[lpair]);
      }
      var kind := NewNode(arena, func, parents);
      if kind.Err? {
        return Err(kind.error);
      }
      var id := model.AddNode(LogicalNode(kind.value, func, parents));
      logicalmap := logicalmap[lpair := id];
      return Ok(id);
    }
  }
}
