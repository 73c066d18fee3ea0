/**
 * readRData (src/terminal/ReadData.cc): decodes the parse of an R dump
 * file into a table from variable names to arrays, and picks up the name
 * of the random number generator from a ".RNG.name" assignment.
 */
module ReadData {
  import opened Wrappers
  import opened Syntax
  import Dims
  import Numeric

  /** An array: its dimension and its values in input order. */
  datatype SArray = SArray(dim: seq<nat>, values: seq<real>)

  const RngNameKey: string := ".RNG.name"

  predicate IsValue(t: Tree) { t.Node? && t.tclass == PValue }

  /** A tree whose parameters are all value trees. */
  predicate ValuesOnly(t: Tree)
  {
    t.Node? && forall i :: 0 <= i < |t.params| ==> IsValue(t.params[i])
  }

  /** A dimension attribute as the parser builds it. */
  predicate DimShape(pdim: Tree)
  {
    && pdim.Node?
    && (pdim.tclass == PVector ==> ValuesOnly(pdim))
    && (pdim.tclass == PRange ==> |pdim.params| >= 2 && IsValue(pdim.params[0]) && IsValue(pdim.params[1]))
  }

  /** An entry that can be read as an array: its data vector and optional dimension. */
  predicate Decodable(e: Tree)
  {
    && e.Node? && 1 <= |e.params| <= 2 && ValuesOnly(e.params[0])
    && (|e.params| == 2 ==> DimShape(e.params[1]))
  }

  /**
   * What the parser guarantees of a data file: no null entries, array
   * entries of array shape, and a ".RNG.name"-shaped assignment whose
   * right-hand side has only value parameters.
   */
  predicate WellFormed(list: seq<Tree>)
  {
    forall k :: 0 <= k < |list| ==>
      && list[k].Node?
      && (list[k].tclass == PArray ==> Decodable(list[k]))
      && (list[k].tclass == PVar && |list[k].params| == 1 && list[k].params[0].Node? ==> ValuesOnly(list[k].params[0]))
  }

  /** The first pass accepts ".RNG.name" assignments of one variable, and arrays. */
  predicate Accepted(e: Tree)
    requires e.Node?
  {
    if e.tclass == PVar then
      e.name == RngNameKey && |e.params| == 1 && e.params[0].Node? && e.params[0].tclass == PVar
    else e.tclass == PArray
  }

  /** The first pass from entry i: whether it passes, and the generator name it leaves. */
  function FirstPass(list: seq<Tree>, i: nat, rngname: string): (r: (bool, string))
    requires WellFormed(list) && i <= |list|
    ensures r.0 <==> forall k :: i <= k < |list| ==> Accepted(list[k])
    decreases |list| - i
  {
    if i == |list| then (true, rngname)
    else if !Accepted(list[i]) then (false, rngname)
    else FirstPass(list, i + 1, if list[i].tclass == PVar then list[i].params[0].name else rngname)
  }

  /** The values of a data vector, in input order. */
  function Values(vec: Tree): (v: seq<real>)
    requires ValuesOnly(vec)
    ensures |v| == |vec.params|
    ensures forall i :: 0 <= i < |v| ==> v[i] == vec.params[i].value
  {
    seq(|vec.params|, i requires 0 <= i < |vec.params| => vec.params[i].value)
  }

  /** The cast of a positive double to unsigned long. */
  function ToCount(x: real): (n: nat)
    requires x >= 0.0
    ensures n as real <= x < n as real + 1.0
  {
    Numeric.TruncToInt(x)
  }

  /** The dimensions named by a vector attribute c(d1, ..., dn), each positive. */
  function VectorDims(pdim: Tree): (d: seq<nat>)
    requires ValuesOnly(pdim)
    requires forall i :: 0 <= i < |pdim.params| ==> pdim.params[i].value > 0.0
    ensures |d| == |pdim.params|
    ensures forall i :: 0 <= i < |d| ==> d[i] == ToCount(pdim.params[i].value)
  {
    seq(|pdim.params|, i requires 0 <= i < |pdim.params| => ToCount(pdim.params[i].value))
  }

  /** The dimensions named by a range attribute lower:upper. */
  function RangeDims(lower: real, upper: real): (d: seq<nat>)
    requires 0.0 <= lower < upper
    ensures |d| == ToCount(upper - lower + 1.0) && |d| >= 1
    ensures forall i :: 0 <= i < |d| ==> d[i] == ToCount(lower + i as real)
  {
    seq(ToCount(upper - lower + 1.0), i requires 0 <= i => ToCount(lower + i as real))
  }

  /**
   * The dimension of an entry with a dimension attribute: None when a
   * vector attribute has a non-positive entry, a range a:b has a < 0 or
   * b <= a, the attribute is of another class, or the dimensions do not
   * multiply to the number of values.
   */
  function DecodeDim(pdim: Tree, length: nat): (r: Option<seq<nat>>)
    requires DimShape(pdim)
    ensures r.Some? ==> Dims.Product(r.value) == length
  {
    var dims :=
      if pdim.tclass == PVector then
        if exists i :: 0 <= i < |pdim.params| && pdim.params[i].value <= 0.0 then None
        else Some(VectorDims(pdim))
      else if pdim.tclass == PRange then
        var lower, upper := pdim.params[0].value, pdim.params[1].value;
        if lower < 0.0 || upper <= lower then None else Some(RangeDims(lower, upper))
      else None;
    if dims.Some? && Dims.Product(dims.value) == length then dims else None
  }

  /** The array an entry stands for: with no attribute, a vector of all its values. */
  function DecodeArray(e: Tree): (r: Option<SArray>)
    requires Decodable(e)
    ensures r.Some? ==> r.value.values == Values(e.params[0])
    ensures r.Some? ==> Dims.Product(r.value.dim) == |e.params[0].params|
  {
    var values := Values(e.params[0]);
    if |e.params| == 1 then Some(SArray([|values|], values))
    else match DecodeDim(e.params[1], |values|)
      case None => None
      case Some(d) => Some(SArray(d, values))
  }

  /**
   * The dimension checks: a vector attribute needs every entry positive, a
   * range a:b needs 0 <= a < b, any other attribute is refused, and the
   * dimensions must multiply to the number of values.
   */
  lemma DecodeDimCases(pdim: Tree, length: nat)
    requires DimShape(pdim)
    ensures pdim.tclass == PVector ==>
      (DecodeDim(pdim, length).Some? <==>
        (forall i :: 0 <= i < |pdim.params| ==> pdim.params[i].value > 0.0)
        && Dims.Product(VectorDims(pdim)) == length)
    ensures pdim.tclass == PRange ==>
      (DecodeDim(pdim, length).Some? <==>
        0.0 <= pdim.params[0].value < pdim.params[1].value
        && Dims.Product(RangeDims(pdim.params[0].value, pdim.params[1].value)) == length)
    ensures pdim.tclass != PVector && pdim.tclass != PRange ==> DecodeDim(pdim, length).None?
  {
  }

  /**
   * An entry with no attribute is a vector of all its values; one with an
   * attribute is decoded exactly when its dimension is.
   */
  lemma DecodeArrayCases(e: Tree)
    requires Decodable(e)
    ensures |e.params| == 1 ==> DecodeArray(e) == Some(SArray([|e.params[0].params|], Values(e.params[0])))
    ensures |e.params| == 2 ==> (DecodeArray(e).Some? <==> DecodeDim(e.params[1], |e.params[0].params|).Some?)
    ensures |e.params| == 2 && DecodeArray(e).Some? ==>
      DecodeArray(e).value.dim == DecodeDim(e.params[1], |e.params[0].params|).value
  {
  }

  /**
   * The second pass from entry i. An assignment is skipped together with
   * the check on the entry after it, which is read as an array whatever
   * its class; an assignment at the end stops the pass. A name already in
   * the table is removed before the entry is decoded, so a failing entry
   * leaves its name out of the table.
   */
  function SecondPass(list: seq<Tree>, i: nat, table: map<string, SArray>): (r: (bool, map<string, SArray>))
    requires AllDecodable(list) && i <= |list|
  {
    Pass(list, Decodes(list), i, table)
  }

  /** The array each entry decodes to, if any. */
  function Decodes(list: seq<Tree>): (d: seq<Option<SArray>>)
    requires AllDecodable(list)
    ensures |d| == |list| && forall k :: 0 <= k < |list| ==> d[k] == DecodeArray(list[k])
  {
    seq(|list|, k requires 0 <= k < |list| => DecodeArray(list[k]))
  }

  /** The second pass from entry i, with d[k] the decoding of entry k. */
  function Pass(list: seq<Tree>, d: seq<Option<SArray>>, i: nat, table: map<string, SArray>): (r: (bool, map<string, SArray>))
    requires AllNodes(list) && |d| == |list| && i <= |list|
    decreases |list| - i
  {
    if i == |list| then (true, table)
    else
      var j := if list[i].tclass == PVar then i + 1 else i;
      if j == |list| then (true, table)
      else
        var t := table - {list[j].name};
        match d[j]
        case None => (false, t)
        case Some(a) => Pass(list, d, j + 1, t[list[j].name := a])
  }

  /** Every entry is a tree node. */
  predicate AllNodes(list: seq<Tree>)
  {
    forall k :: 0 <= k < |list| ==> list[k].Node?
  }

  /** Every entry can be read as an array. */
  predicate AllDecodable(list: seq<Tree>)
  {
    forall k :: 0 <= k < |list| ==> Decodable(list[k])
  }

  /** Once the first pass succeeds on a well-formed list, every entry can be read as an array. */
  lemma AcceptedDecodable(list: seq<Tree>)
    requires WellFormed(list) && FirstPass(list, 0, "").0
    ensures AllDecodable(list)
  {
    forall k | 0 <= k < |list|
      ensures Decodable(list[k])
    {
      assert Accepted(list[k]);
    }
  }

  /** The indices the second pass decodes, from entry i. */
  function Decoded(list: seq<Tree>, i: nat): (s: set<nat>)
    requires AllNodes(list) && i <= |list|
    ensures forall k :: k in s ==> i <= k < |list|
    decreases |list| - i
  {
    if i == |list| then {}
    else
      var j := if list[i].tclass == PVar then i + 1 else i;
      if j == |list| then {} else {j} + Decoded(list, j + 1)
  }

  /** readRData: (success, the new table, the new generator name). */
  function ReadRDataSpec(list: seq<Tree>, table: map<string, SArray>, rngname: string)
    : (r: (bool, map<string, SArray>, string))
    requires WellFormed(list)
    ensures !FirstPass(list, 0, rngname).0 ==> r == (false, table, FirstPass(list, 0, rngname).1)
  {
    var (ok, name) := FirstPass(list, 0, rngname);
    FirstPassIndependent(list, 0, rngname, "");
    if !ok then (false, table, name)
    else (
      AcceptedDecodable(list);
      var (ok2, t) := SecondPass(list, 0, table);
      (ok2, t, name))
  }

  /** Whether the first pass succeeds does not depend on the generator name. */
  lemma {:induction false} FirstPassIndependent(list: seq<Tree>, i: nat, a: string, b: string)
    requires WellFormed(list) && i <= |list|
    ensures FirstPass(list, i, a).0 == FirstPass(list, i, b).0
    decreases |list| - i
  {
    if i < |list| && Accepted(list[i]) {
      var n := list[i].tclass == PVar;
      FirstPassIndependent(list, i + 1, if n then list[i].params[0].name else a,
                           if n then list[i].params[0].name else b);
    }
  }

  /**
   * The generator name the first pass leaves: that of the last assignment,
   * or the one given when there is none.
   */
  lemma {:induction false} FirstPassName(list: seq<Tree>, i: nat, rngname: string)
    requires WellFormed(list) && i <= |list|
    requires forall k :: i <= k < |list| ==> Accepted(list[k])
    ensures (forall k :: i <= k < |list| ==> list[k].tclass != PVar) ==> FirstPass(list, i, rngname).1 == rngname
    ensures forall k :: i <= k < |list| && list[k].tclass == PVar
                 && (forall l :: k < l < |list| ==> list[l].tclass != PVar)
               ==> FirstPass(list, i, rngname).1 == list[k].params[0].name
    decreases |list| - i
  {
    if i < |list| {
      FirstPassName(list, i + 1, if list[i].tclass == PVar then list[i].params[0].name else rngname);
    }
  }

  /** One step of the second pass from entry i. */
  lemma PassStep(list: seq<Tree>, d: seq<Option<SArray>>, i: nat, table: map<string, SArray>)
    requires AllNodes(list) && |d| == |list| && i < |list|
    ensures var j := if list[i].tclass == PVar then i + 1 else i;
            && (j == |list| ==> Pass(list, d, i, table) == (true, table))
            && (j < |list| && d[j].None? ==> Pass(list, d, i, table) == (false, table - {list[j].name}))
            && (j < |list| && d[j].Some? ==>
                  Pass(list, d, i, table) == Pass(list, d, j + 1, (table - {list[j].name})[list[j].name := d[j].value]))
  {
  }

  /** A name no decoded entry uses keeps its binding, whether or not the pass succeeds. */
  lemma SecondPassFrame(list: seq<Tree>, i: nat, table: map<string, SArray>, key: string)
    requires AllDecodable(list) && i <= |list|
    requires forall k :: k in Decoded(list, i) ==> list[k].name != key
    ensures key in SecondPass(list, i, table).1 <==> key in table
    ensures key in table ==> SecondPass(list, i, table).1[key] == table[key]
  {
    PassFrame(list, Decodes(list), i, table, key);
  }

  lemma {:induction false} PassFrame(list: seq<Tree>, d: seq<Option<SArray>>, i: nat, table: map<string, SArray>, key: string)
    requires AllNodes(list) && |d| == |list| && i <= |list|
    requires forall k :: k in Decoded(list, i) ==> list[k].name != key
    ensures key in Pass(list, d, i, table).1 <==> key in table
    ensures key in table ==> Pass(list, d, i, table).1[key] == table[key]
    decreases |list| - i
  {
    if i < |list| {
      var j := if list[i].tclass == PVar then i + 1 else i;
      if j < |list| {
        assert j in Decoded(list, i);
        var t := table - {list[j].name};
        if d[j].Some? {
          PassFrame(list, d, j + 1, t[list[j].name := d[j].value], key);
        }
      }
    }
  }

  /**
   * On success, each name used by a decoded entry is bound to the array of
   * the last decoded entry with that name: a later entry replaces an
   * earlier one.
   */
  lemma SecondPassLastWins(list: seq<Tree>, i: nat, table: map<string, SArray>, k: nat)
    requires AllDecodable(list) && i <= |list|
    requires SecondPass(list, i, table).0
    requires k in Decoded(list, i)
    requires forall l :: l in Decoded(list, i) && l > k ==> list[l].name != list[k].name
    ensures Decodable(list[k]) && DecodeArray(list[k]).Some?
    ensures list[k].name in SecondPass(list, i, table).1
    ensures SecondPass(list, i, table).1[list[k].name] == DecodeArray(list[k]).value
  {
    PassLastWins(list, Decodes(list), i, table, k);
  }

  lemma {:induction false} PassLastWins(list: seq<Tree>, d: seq<Option<SArray>>, i: nat, table: map<string, SArray>, k: nat)
    requires AllNodes(list) && |d| == |list| && i <= |list|
    requires Pass(list, d, i, table).0
    requires k in Decoded(list, i)
    requires forall l :: l in Decoded(list, i) && l > k ==> list[l].name != list[k].name
    ensures d[k].Some?
    ensures list[k].name in Pass(list, d, i, table).1
    ensures Pass(list, d, i, table).1[list[k].name] == d[k].value
    decreases |list| - i
  {
    var j := if list[i].tclass == PVar then i + 1 else i;
    var t := table - {list[j].name};
    var a := d[j].value;
    if k == j {
      PassFrame(list, d, j + 1, t[list[j].name := a], list[j].name);
    } else {
      PassLastWins(list, d, j + 1, t[list[j].name := a], k);
    }
  }

  /** The dimensions of a vector attribute, or None at a non-positive entry. */
  method ReadVectorDims(pdim: Tree) returns (r: Option<seq<nat>>)
    requires ValuesOnly(pdim)
    ensures r.Some? <==> forall i :: 0 <= i < |pdim.params| ==> pdim.params[i].value > 0.0
    ensures r.Some? ==> r.value == VectorDims(pdim)
  {
    var dim := [];
    var i := 0;
    while i < |pdim.params|
      invariant 0 <= i <= |pdim.params| && |dim| == i
      invariant forall k :: 0 <= k < i ==> pdim.params[k].value > 0.0 && dim[k] == ToCount(pdim.params[k].value)
    {
      var dimI := pdim.params[i].value;
      if dimI <= 0.0 {
        return None;
      }
      dim := dim + [ToCount(dimI)];
      i := i + 1;
    }
    return Some(dim);
  }

  /** The dimensions of a range attribute lower:upper with 0 <= lower < upper. */
  method ReadRangeDims(lower: real, upper: real) returns (dim: seq<nat>)
    requires 0.0 <= lower < upper
    ensures dim == RangeDims(lower, upper)
  {
    var ndim := ToCount(upper - lower + 1.0);
    dim := [];
    var i := 0;
    while i < ndim
      invariant 0 <= i <= ndim && |dim| == i
      invariant forall k :: 0 <= k < i ==> dim[k] == ToCount(lower + k as real)
    {
      dim := dim + [ToCount(lower + i as real)];
      i := i + 1;
    }
  }

  /** The product of the dimensions (the dimprod accumulator). */
  method DimProduct(dim: seq<nat>) returns (dimprod: nat)
    ensures dimprod == Dims.Product(dim)
  {
    dimprod := 1;
    var i := 0;
    while i < |dim|
      invariant 0 <= i <= |dim|
      invariant dimprod == Dims.Product(dim[..i])
    {
      assert dim[..i + 1][..i] == dim[..i];
      dimprod := dimprod * dim[i];
      i := i + 1;
    }
    assert dim[..|dim|] == dim;
  }

  /** The dimension attribute's decoding. */
  method ReadDim(pdim: Tree, length: nat) returns (r: Option<seq<nat>>)
    requires DimShape(pdim)
    ensures r == DecodeDim(pdim, length)
  {
    var dim: seq<nat>;
    if pdim.tclass == PVector {
      var d := ReadVectorDims(pdim);
      if d.None? {
        return None;
      }
      dim := d.value;
    } else if pdim.tclass == PRange {
      var lower, upper := pdim.params[0].value, pdim.params[1].value;
      if lower < 0.0 || upper <= lower {
        return None;
      }
      dim := ReadRangeDims(lower, upper);
    } else {
      return None;
    }
    var dimprod := DimProduct(dim);
    if dimprod != length {
      return None;
    }
    return Some(dim);
  }

  /** The values of the data vector, in order. */
  method ReadValues(vec: Tree) returns (values: seq<real>)
    requires ValuesOnly(vec)
    ensures values == Values(vec)
  {
    values := [];
    var i := 0;
    while i < |vec.params|
      invariant 0 <= i <= |vec.params| && |values| == i
      invariant forall k :: 0 <= k < i ==> values[k] == vec.params[k].value
    {
      values := values + [vec.params[i].value];
      i := i + 1;
    }
  }

  /** The decoding of one entry (the body of the second loop). */
  method ReadArray(e: Tree) returns (r: Option<SArray>)
    requires Decodable(e)
    ensures r == DecodeArray(e)
  {
    var vec := e.params[0];
    var length := |vec.params|;
    var dim: seq<nat>;
    if |e.params| == 2 {
      var d := ReadDim(e.params[1], length);
      if d.None? {
        return None;
      }
      dim := d.value;
    } else {
      dim := [length];
    }
    var values := ReadValues(vec);
    return Some(SArray(dim, values));
  }

  /** The first loop of readRData. */
  method CheckEntries(list: seq<Tree>, rngname: string) returns (ok: bool, rngname': string)
    requires WellFormed(list)
    ensures (ok, rngname') == FirstPass(list, 0, rngname)
  {
    rngname' := rngname;
    var i := 0;
    while i < |list|
      invariant 0 <= i <= |list|
      invariant FirstPass(list, 0, rngname) == FirstPass(list, i, rngname')
    {
      var e := list[i];
      if e.tclass == PVar {
        if e.name != RngNameKey {
          return false, rngname';
        }
        if |e.params| != 1 || e.params[0].Null? || e.params[0].tclass != PVar {
          return false, rngname';
        }
        rngname' := e.params[0].name;
      } else if e.tclass != PArray {
        return false, rngname';
      }
      i := i + 1;
    }
    return true, rngname';
  }

  /** The second loop of readRData. */
  method ReadEntries(list: seq<Tree>, table: map<string, SArray>) returns (ok: bool, table': map<string, SArray>)
    requires AllDecodable(list)
    ensures (ok, table') == SecondPass(list, 0, table)
  {
    ghost var d := Decodes(list);
    table' := table;
    var p := 0;
    while p < |list|
      invariant 0 <= p <= |list|
      invariant Pass(list, d, 0, table) == Pass(list, d, p, table')
      decreases |list| - p
    {
      var stop;
      stop, ok, p, table' := ReadEntry(list, d, p, table');
      if stop {
        return ok, table';
      }
    }
    return true, table';
  }

  /**
   * One turn of the second loop: skips an assignment and, unless that was
   * the last entry, removes the next entry's name and decodes the entry
   * into the table; stops at the end or at an entry that fails.
   */
  method ReadEntry(list: seq<Tree>, ghost d: seq<Option<SArray>>, p: nat, table: map<string, SArray>)
    returns (stop: bool, ok: bool, p': nat, table': map<string, SArray>)
    requires AllNodes(list) && |d| == |list| && p < |list|
    requires Decodable(list[p]) && d[p] == DecodeArray(list[p])
    requires p + 1 < |list| ==> Decodable(list[p + 1]) && d[p + 1] == DecodeArray(list[p + 1])
    ensures p < p' <= |list|
    ensures stop ==> (ok, table') == Pass(list, d, p, table)
    ensures !stop ==> Pass(list, d, p, table) == Pass(list, d, p', table')
  {
    PassStep(list, d, p, table);
    p', table' := p, table;
    if list[p'].tclass == PVar {
      p' := p' + 1;
      if p' == |list| {
        return true, true, p', table';
      }
    }
    var e := list[p'];
    var name := e.name;
    ghost var t := table' - {name};
    if name in table' {
      table' := table' - {name};
    } else {
      assert table' == t;
    }
    var a := ReadArray(e);
    assert a == d[p'];
    if a.None? {
      return true, false, p' + 1, table';
    }
    table' := table'[name := a.value];
    p' := p' + 1;
    stop, ok := false, true;
  }

  /**
   * readRData. The first pass refuses anything but ".RNG.name"
   * assignments and arrays before the table is touched, recording the
   * generator name as it goes; the second pass decodes the arrays into
   * the table.
   */
  method ReadRData(list: seq<Tree>, table: map<string, SArray>, rngname: string)
    returns (ok: bool, table': map<string, SArray>, rngname': string)
    requires WellFormed(list)
    ensures (ok, table', rngname') == ReadRDataSpec(list, table, rngname)
  {
    ok, rngname' := CheckEntries(list, rngname);
    if !ok {
      return false, table, rngname';
    }
    FirstPassIndependent(list, 0, rngname, "");
    AcceptedDecodable(list);
    ok, table' := ReadEntries(list, table);
  }
}
