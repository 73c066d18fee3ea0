/**
 * The classes of parse-tree node the BUGS parser produces, and a finished
 * parse tree as an immutable value: the form in which the data reader and
 * the console walk a tree after parsing.
 */
module Syntax {

  datatype TreeClass =
    | PVar | PCounter | PFunction | PDensity | PLink | PArray
    | PRange | PBounds | PValue | PStochRel | PDetrmRel | PFor
    | PRelations | PVector | PDim | PLength | PSubset | PInterval

  /** The classes whose trees carry a name. */
  predicate HasName(c: TreeClass)
  {
    c in {PVar, PCounter, PFunction, PDensity, PLink, PArray}
  }

  /**
   * A finished tree. Null stands for a null parameter pointer; a node's
   * name is meaningful only when HasName(tclass), its value only for PValue.
   */
  datatype Tree =
    | Null
    | Node(tclass: TreeClass, name: string, value: real, params: seq<Tree>)
}
