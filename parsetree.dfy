/**
 * ParseTree (src/lib/compiler/ParseTree.cc): the mutable tree the parser
 * builds. Name and value accessors are gated by the tree class, and
 * setParameters links each argument to its new parent, refusing any
 * argument that already has one.
 */
module ParseTrees {
  import opened Wrappers
  import opened Syntax

  class ParseTree {
    const tclass: TreeClass
    const line: nat
    var parameters: seq<ParseTree?>
    var parent: ParseTree?
    var name: string
    var value: real

    /** A fresh tree has no parameters, no parent, an empty name and value 0. */
    constructor (tclass: TreeClass, line: nat)
      ensures this.tclass == tclass && this.line == line
      ensures parameters == [] && parent == null && name == "" && value == 0.0
    {
      this.tclass := tclass;
      this.line := line;
      parameters := [];
      parent := null;
      name := "";
      value := 0.0;
    }

    /** setName: allowed for the named classes only, otherwise a logic error. */
    method SetName(n: string) returns (o: Outcome)
      modifies this
      ensures HasName(tclass) ==> o == Pass && name == n
      ensures !HasName(tclass) ==> o == Fail(LogicError) && name == old(name)
      ensures parameters == old(parameters) && parent == old(parent) && value == old(value)
    {
      if HasName(tclass) {
        name := n;
        return Pass;
      }
      return Fail(LogicError);
    }

    /** name(): the stored name for the named classes, otherwise a logic error. */
    function GetName(): (r: Result<string>)
      reads this
      ensures r.Ok? <==> HasName(tclass)
      ensures r.Ok? ==> r.value == name
      ensures r.Err? ==> r.error == LogicError
    {
      if HasName(tclass) then Ok(name) else Err(LogicError)
    }

    /** setValue: allowed for a PValue tree only, otherwise a logic error. */
    method SetValue(v: real) returns (o: Outcome)
      modifies this
      ensures tclass == PValue ==> o == Pass && value == v
      ensures tclass != PValue ==> o == Fail(LogicError) && value == old(value)
      ensures parameters == old(parameters) && parent == old(parent) && name == old(name)
    {
      if tclass == PValue {
        value := v;
        return Pass;
      }
      return Fail(LogicError);
    }

    /** value(): the stored value of a PValue tree, otherwise a logic error. */
    function GetValue(): (r: Result<real>)
      reads this
      ensures r.Ok? <==> tclass == PValue
      ensures r.Ok? ==> r.value == value
      ensures r.Err? ==> r.error == LogicError
    {
      if tclass == PValue then Ok(value) else Err(LogicError)
    }

    /**
     * setParameters. A tree that already has parameters, or already has a
     * parent, is refused. Then the arguments are linked in order; the tree
     * itself, or a non-null argument with a parent (including one linked
     * earlier in the same call), is refused at that point, and the arguments
     * linked before it keep their new parent. The forest discipline of
     * every tree in the ghost set trees is preserved, whether or not the
     * call succeeds.
     */
    method SetParameters(params: seq<ParseTree?>, ghost trees: set<ParseTree>) returns (o: Outcome, ghost failedAt: nat)
      requires Forest(trees)
      modifies this, set p: ParseTree | p in params
      ensures Forest(trees)
      ensures o.Fail? ==> o.error == LogicError
      ensures (old(parameters) != [] || old(parent) != null) ==> (o.Fail? && parameters == old(parameters)
        && forall p: ParseTree | p in params :: p.parent == old(p.parent))
      ensures o.Pass? <==> (old(parameters) == [] && old(parent) == null
        && forall i :: 0 <= i < |params| ==> Linkable(params, i, this, old(ParentOf(params[i]))))
      ensures o.Pass? ==> (parameters == params
        && forall i :: 0 <= i < |params| && params[i] != null ==> params[i].parent == this)
      ensures (o.Fail? && old(parameters) == [] && old(parent) == null) ==> (
        && failedAt < |params| && parameters == old(parameters)
        && !Linkable(params, failedAt, this, old(ParentOf(params[failedAt])))
        && (forall i :: 0 <= i < failedAt ==> Linkable(params, i, this, old(ParentOf(params[i]))))
        && (forall i :: 0 <= i < failedAt && params[i] != null ==> params[i].parent == this)
        && forall p: ParseTree | p in params && p !in params[..failedAt] :: p.parent == old(p.parent))
      ensures parent == old(parent) && name == old(name) && value == old(value)
      ensures forall p: ParseTree | p in params ::
        p.name == old(p.name) && p.value == old(p.value) && p.parameters == old(p.parameters)
    {
      failedAt := 0;
      if parameters != [] || parent != null {
        return Fail(LogicError), 0;
      }
      var i := 0;
      while i < |params|
        invariant 0 <= i <= |params|
        invariant parameters == [] && parent == null
        invariant forall k :: 0 <= k < i ==> Linkable(params, k, this, old(ParentOf(params[k])))
        invariant forall k :: 0 <= k < i && params[k] != null ==> params[k].parent == this
        invariant forall p: ParseTree | p in params && p !in params[..i] :: p.parent == old(p.parent)
        invariant forall t | t in trees :: t.parameters == old(t.parameters)
        invariant forall p: ParseTree | p in params ::
          p.name == old(p.name) && p.value == old(p.value) && p.parameters == old(p.parameters)
        invariant name == old(name) && value == old(value)
        invariant Forest(trees)
      {
        if params[i] == this {
          return Fail(LogicError), i;
        }
        if params[i] != null {
          if params[i].parent == null {
            params[i].parent := this;
          } else {
            return Fail(LogicError), i;
          }
        }
        assert params[..i + 1] == params[..i] + [params[i]];
        i := i + 1;
      }
      assert params[..|params|] == params;
      parameters := params;
      return Pass, 0;
    }
  }

  /**
   * Argument i of params can be linked to t: it is not t itself and, if
   * non-null, it had no parent before the call and does not repeat an
   * earlier argument (which would then already have t as its parent).
   */
  predicate Linkable(params: seq<ParseTree?>, i: nat, t: ParseTree, oldParent: ParseTree?)
    requires i < |params|
  {
    params[i] != t && (params[i] != null ==> oldParent == null && params[i] !in params[..i])
  }

  /** The parent of a possibly null tree (null for null). */
  function ParentOf(p: ParseTree?): ParseTree?
    reads if p == null then {} else {p}
  {
    if p == null then null else p.parent
  }

  /**
   * The single-parent discipline over a set of trees: every non-null
   * parameter of a tree has that tree as its parent and is not the tree
   * itself.
   */
  ghost predicate Forest(trees: set<ParseTree>)
    reads trees, set t, i | t in trees && 0 <= i < |t.parameters| && t.parameters[i] != null :: t.parameters[i]
  {
    forall t, i | t in trees && 0 <= i < |t.parameters| && t.parameters[i] != null ::
      t.parameters[i].parent == t && t.parameters[i] != t
  }

  /** In a forest no tree is a parameter of two different trees. */
  lemma OneParent(trees: set<ParseTree>, t1: ParseTree, t2: ParseTree, i: nat, j: nat)
    requires Forest(trees) && t1 in trees && t2 in trees
    requires i < |t1.parameters| && j < |t2.parameters|
    requires t1.parameters[i] != null && t1.parameters[i] == t2.parameters[j]
    ensures t1 == t2
  {
  }
}
