/**
 * The Console helpers (src/lib/Console.cc): collecting the variable names
 * of a parsed model, switching factories on and off and listing them,
 * seeding the random number generator factories, and the argument checks
 * of compile, setParameters, dumpState and setMonitor.
 */
module Console {
  import opened Wrappers
  import opened Syntax
  import BUGSModels

  /**
   * A tree getVariableNames can walk: every parameter of a for-loop has a
   * counter (with non-null range expressions) and a body.
   */
  predicate ForShaped(t: Tree)
    decreases t, 1
  {
    t.Node? && ParamsShaped(t.params)
  }

  predicate ParamsShaped(ps: seq<Tree>)
    decreases ps, 0
  {
    forall i :: 0 <= i < |ps| ==> ParamShaped(ps[i])
  }

  /** Trees each walked from its own root (a counter's range expressions). */
  predicate RootsShaped(ps: seq<Tree>)
    decreases ps, 3
  {
    forall i :: 0 <= i < |ps| ==> ForShaped(ps[i])
  }

  predicate ParamShaped(p: Tree)
    decreases p, 2
  {
    p.Null? ||
    (if p.tclass == PFor then
       |p.params| >= 2 && p.params[0].Node? && p.params[0].tclass == PCounter
       && RootsShaped(p.params[0].params) && ForShaped(p.params[1])
     else ForShaped(p))
  }

  /**
   * The variable names of t in the order getVariableNames meets them,
   * repeats included, leaving out the names of enclosing counters.
   */
  function Occ(t: Tree, counters: seq<string>): seq<string>
    requires ForShaped(t)
    decreases t, 1
  {
    (if t.tclass == PVar && t.name !in counters then [t.name] else []) + OccParams(t.params, counters)
  }

  function OccParams(ps: seq<Tree>, counters: seq<string>): seq<string>
    requires ParamsShaped(ps)
    decreases ps, 0
  {
    if ps == [] then [] else OccParam(ps[0], counters) + OccParams(ps[1..], counters)
  }

  /** The names met walking each tree of ps from its root, in order. */
  function OccRoots(ps: seq<Tree>, counters: seq<string>): seq<string>
    requires RootsShaped(ps)
    decreases ps, 3
  {
    if ps == [] then [] else Occ(ps[0], counters) + OccRoots(ps[1..], counters)
  }

  /**
   * A null parameter is skipped; a for-loop's counter range is scanned
   * with the enclosing counters and its body with the counter pushed.
   */
  function OccParam(p: Tree, counters: seq<string>): seq<string>
    requires ParamShaped(p)
    decreases p, 2
  {
    if p.Null? then []
    else if p.tclass == PFor then
      OccRoots(p.params[0].params, counters) + Occ(p.params[1], counters + [p.params[0].name])
    else Occ(p, counters)
  }

  /** Appending names to (namelist, nameset): a name already in the set is not appended again. */
  function AppendNew(names: (seq<string>, set<string>), occ: seq<string>): (seq<string>, set<string>)
    decreases |occ|
  {
    if occ == [] then names
    else if occ[0] in names.1 then AppendNew(names, occ[1..])
    else AppendNew((names.0 + [occ[0]], names.1 + {occ[0]}), occ[1..])
  }

  lemma {:induction false} AppendNewConcat(names: (seq<string>, set<string>), a: seq<string>, b: seq<string>)
    ensures AppendNew(names, a + b) == AppendNew(AppendNew(names, a), b)
    decreases |a|
  {
    if a != [] {
      assert (a + b)[1..] == a[1..] + b;
      if a[0] in names.1 {
        AppendNewConcat(names, a[1..], b);
      } else {
        AppendNewConcat((names.0 + [a[0]], names.1 + {a[0]}), a[1..], b);
      }
    } else {
      assert a + b == b;
    }
  }

  predicate Distinct(s: seq<string>)
  {
    forall i, j :: 0 <= i < j < |s| ==> s[i] != s[j]
  }

  /**
   * When the name set holds exactly the names of a list without repeats,
   * appending keeps the list as a prefix, adds each new name once, and
   * leaves a list without repeats whose names are the old ones and those
   * met.
   */
  lemma {:induction false} AppendNewDistinct(names: (seq<string>, set<string>), occ: seq<string>)
    requires Distinct(names.0) && names.1 == set x | x in names.0
    ensures Distinct(AppendNew(names, occ).0)
    ensures AppendNew(names, occ).1 == set x | x in AppendNew(names, occ).0
    ensures AppendNew(names, occ).1 == names.1 + set x | x in occ
    ensures names.0 <= AppendNew(names, occ).0
    decreases |occ|
  {
    if occ != [] {
      if occ[0] in names.1 {
        AppendNewDistinct(names, occ[1..]);
        assert (set x | x in occ) == {occ[0]} + set x | x in occ[1..];
      } else {
        var next := (names.0 + [occ[0]], names.1 + {occ[0]});
        assert (set x | x in next.0) == names.1 + {occ[0]};
        AppendNewDistinct(next, occ[1..]);
        assert (set x | x in occ) == {occ[0]} + set x | x in occ[1..];
      }
    }
  }

  /**
   * getVariableNames: the names met are appended once each, and the
   * counter stack is restored.
   */
  method GetVariableNames(t: Tree, nameset: set<string>, namelist: seq<string>, counters: seq<string>)
    returns (nameset': set<string>, namelist': seq<string>, counters': seq<string>)
    requires ForShaped(t)
    ensures (namelist', nameset') == AppendNew((namelist, nameset), Occ(t, counters))
    ensures counters' == counters
    decreases t
  {
    nameset', namelist', counters' := nameset, namelist, counters;
    if t.tclass == PVar {
      var v := t.name;
      if v !in counters' {
        if v !in nameset' {
          nameset' := nameset' + {v};
          namelist' := namelist' + [v];
        }
      }
    }
    ghost var start := (namelist', nameset');
    assert start == AppendNew((namelist, nameset), if t.tclass == PVar && t.name !in counters then [t.name] else []);
    var param := t.params;
    var i := 0;
    while i < |param|
      invariant 0 <= i <= |param| && counters' == counters
      invariant (namelist', nameset') == AppendNew(start, OccParams(param[..i], counters))
    {
      OccParamsSnoc(param, i, counters);
      AppendNewConcat(start, OccParams(param[..i], counters), OccParam(param[i], counters));
      var p := param[i];
      if p.Null? {
        i := i + 1;
        continue;
      }
      if p.tclass == PFor {
        var counter := p.params[0];
        ghost var before := (namelist', nameset');
        var k := 0;
        while k < |counter.params|
          invariant 0 <= k <= |counter.params| && counters' == counters
          invariant RootsShaped(counter.params[..k])
          invariant (namelist', nameset') == AppendNew(before, OccRoots(counter.params[..k], counters))
        {
          OccRootsSnoc(counter.params, k, counters);
          AppendNewConcat(before, OccRoots(counter.params[..k], counters), Occ(counter.params[k], counters));
          nameset', namelist', counters' := GetVariableNames(counter.params[k], nameset', namelist', counters');
          k := k + 1;
        }
        assert counter.params[..k] == counter.params;
        AppendNewConcat(before, OccRoots(counter.params, counters), Occ(p.params[1], counters + [counter.name]));
        counters' := counters' + [counter.name];
        nameset', namelist', counters' := GetVariableNames(p.params[1], nameset', namelist', counters');
        counters' := counters'[..|counters'| - 1];
      } else {
        nameset', namelist', counters' := GetVariableNames(p, nameset', namelist', counters');
      }
      i := i + 1;
    }
    assert param[..i] == param;
    AppendNewConcat((namelist, nameset), if t.tclass == PVar && t.name !in counters then [t.name] else [],
                    OccParams(param, counters));
  }

  lemma {:induction false} OccParamsSnoc(ps: seq<Tree>, i: nat, counters: seq<string>)
    requires ParamsShaped(ps) && i < |ps|
    ensures ParamsShaped(ps[..i]) && ParamsShaped(ps[..i + 1])
    ensures OccParams(ps[..i + 1], counters) == OccParams(ps[..i], counters) + OccParam(ps[i], counters)
    decreases i
  {
    if i == 0 {
      assert ps[..1][1..] == [];
    } else {
      var tail := ps[1..];
      OccParamsSnoc(tail, i - 1, counters);
      assert ps[..i + 1][1..] == tail[..i];
      assert ps[..i][1..] == tail[..i - 1];
    }
  }

  lemma {:induction false} OccRootsSnoc(ps: seq<Tree>, i: nat, counters: seq<string>)
    requires RootsShaped(ps) && i < |ps|
    ensures RootsShaped(ps[..i]) && RootsShaped(ps[..i + 1])
    ensures OccRoots(ps[..i + 1], counters) == OccRoots(ps[..i], counters) + Occ(ps[i], counters)
    decreases i
  {
    if i == 0 {
      assert ps[..1][1..] == [];
    } else {
      var tail := ps[1..];
      OccRootsSnoc(tail, i - 1, counters);
      assert ps[..i + 1][1..] == tail[..i];
      assert ps[..i][1..] == tail[..i - 1];
    }
  }

  /**
   * set*Active: every entry with the name takes the flag, the others are
   * unchanged, and the answer says whether any entry matched.
   */
  method SetActive(faclist: seq<(string, bool)>, name: string, flag: bool)
    returns (ans: bool, faclist': seq<(string, bool)>)
    ensures |faclist'| == |faclist|
    ensures forall i :: 0 <= i < |faclist| ==>
      faclist'[i] == (if faclist[i].0 == name then (name, flag) else faclist[i])
    ensures ans <==> exists i :: 0 <= i < |faclist| && faclist[i].0 == name
  {
    ans := false;
    faclist' := faclist;
    var i := 0;
    while i < |faclist'|
      invariant 0 <= i <= |faclist'| && |faclist'| == |faclist|
      invariant forall k :: 0 <= k < i ==> faclist'[k] == (if faclist[k].0 == name then (name, flag) else faclist[k])
      invariant forall k :: i <= k < |faclist| ==> faclist'[k] == faclist[k]
      invariant ans <==> exists k :: 0 <= k < i && faclist[k].0 == name
    {
      if faclist'[i].0 == name {
        faclist' := faclist'[i := (name, flag)];
        ans := true;
      }
      i := i + 1;
    }
  }

  datatype FactoryType = SamplerFactory | MonitorFactory | RngFactory

  /**
   * The three global factory lists, each a list of (factory name, active
   * flag), and the seed last given to the generator factories.
   */
  class Factories {
    var samplers: seq<(string, bool)>
    var monitors: seq<(string, bool)>
    var rngs: seq<(string, bool)>
    /** The seed each generator factory was last given (0: none). */
    var rngSeeds: seq<nat>
    /** rngSeed(): the seed last recorded (0: none). */
    var seed: nat

    ghost predicate Valid()
      reads this
    {
      |rngSeeds| == |rngs|
    }

    constructor (samplers: seq<(string, bool)>, monitors: seq<(string, bool)>, rngs: seq<(string, bool)>)
      ensures Valid()
      ensures this.samplers == samplers && this.monitors == monitors && this.rngs == rngs
      ensures rngSeeds == seq(|rngs|, _ => 0) && seed == 0
    {
      this.samplers := samplers;
      this.monitors := monitors;
      this.rngs := rngs;
      rngSeeds := seq(|rngs|, _ => 0);
      seed := 0;
    }

    function List(ftype: FactoryType): seq<(string, bool)>
      reads this
    {
      match ftype
      case SamplerFactory => samplers
      case MonitorFactory => monitors
      case RngFactory => rngs
    }

    /** setFactoryActive: the list of that type is updated by set*Active, the others are not. */
    method SetFactoryActive(name: string, ftype: FactoryType, flag: bool) returns (ok: bool)
      requires Valid()
      modifies this
      ensures Valid()
      ensures |List(ftype)| == |old(List(ftype))|
      ensures forall i :: 0 <= i < |List(ftype)| ==>
        List(ftype)[i] == (if old(List(ftype))[i].0 == name then (name, flag) else old(List(ftype))[i])
      ensures ok <==> exists i :: 0 <= i < |old(List(ftype))| && old(List(ftype))[i].0 == name
      ensures forall other: FactoryType :: other != ftype ==> List(other) == old(List(other))
      ensures rngSeeds == old(rngSeeds) && seed == old(seed)
    {
      match ftype {
        case SamplerFactory =>
          ok, samplers := SetActive(samplers, name, flag);
        case MonitorFactory =>
          ok, monitors := SetActive(monitors, name, flag);
        case RngFactory =>
          ok, rngs := SetActive(rngs, name, flag);
      }
    }

    /** listFactories: the (name, flag) pairs of that type, in registry order. */
    method ListFactories(ftype: FactoryType) returns (ans: seq<(string, bool)>)
      ensures ans == List(ftype)
    {
      var flist := List(ftype);
      ans := [];
      var i := 0;
      while i < |flist|
        invariant 0 <= i <= |flist| && ans == flist[..i]
      {
        assert flist[..i + 1] == flist[..i] + [flist[i]];
        ans := ans + [flist[i]];
        i := i + 1;
      }
      assert flist[..i] == flist;
    }

    /** setRNGSeed: seed 0 is ignored; otherwise every generator factory is seeded and the seed recorded. */
    method SetRNGSeed(s: nat)
      requires Valid()
      modifies this
      ensures Valid()
      ensures s == 0 ==> rngSeeds == old(rngSeeds) && seed == old(seed)
      ensures s != 0 ==> rngSeeds == seq(|rngs|, _ => s) && seed == s
      ensures samplers == old(samplers) && monitors == old(monitors) && rngs == old(rngs)
    {
      if s == 0 {
        return;
      }
      var i := 0;
      while i < |rngSeeds|
        invariant 0 <= i <= |rngSeeds| && |rngSeeds| == |rngs|
        invariant forall k :: 0 <= k < i ==> rngSeeds[k] == s
        invariant samplers == old(samplers) && monitors == old(monitors) && rngs == old(rngs)
      {
        rngSeeds := rngSeeds[i := s];
        i := i + 1;
      }
      seed := s;
    }
  }

  /** compile: at least one chain. */
  function CompileCheck(nchain: nat): (o: Outcome)
    ensures o.Pass? <==> nchain > 0
  {
    if nchain == 0 then Fail(InvalidArgument) else Pass
  }

  /**
   * setParameters: a model is needed and the user's 1-based chain must be
   * in 1..nchain; the model is given the 0-based chain.
   */
  function SetParametersChain(hasModel: bool, chain: nat, nchain: nat): (r: Result<nat>)
    ensures r.Ok? <==> hasModel && 1 <= chain <= nchain
    ensures r.Ok? ==> r.value == chain - 1 && r.value < nchain
  {
    if !hasModel then Err(LogicError)
    else if chain == 0 || chain > nchain then Err(InvalidArgument)
    else Ok(chain - 1)
  }

  /** dumpState: a model, a non-empty symbol table and a chain in 1..nchain. */
  function DumpStateCheck(hasModel: bool, symtabSize: nat, chain: nat, nchain: nat): (o: Outcome)
    ensures o.Pass? <==> hasModel && symtabSize > 0 && 1 <= chain <= nchain
  {
    if !hasModel then Fail(LogicError)
    else if symtabSize == 0 then Fail(LogicError)
    else if chain == 0 || chain > nchain then Fail(InvalidArgument)
    else Pass
  }

  /** The console's model: the BUGS model and whether it is still adapting. */
  class ConsoleModel {
    var model: BUGSModels.BUGSModel
    var adapting: bool

    constructor (model: BUGSModels.BUGSModel, adapting: bool)
      ensures this.model == model && this.adapting == adapting
    {
      this.model := model;
      this.adapting := adapting;
    }
  }

  /**
   * setMonitor: refused without a model or with thinning interval 0;
   * otherwise adaptation is switched off before the model registers the
   * monitor, and the answer is the model's.
   */
  method SetMonitor(cm: ConsoleModel?, key: BUGSModels.MonitorKey, thin: nat,
                    faclist: seq<(BUGSModels.MonitorFactory, bool)>)
    returns (ok: bool)
    requires cm != null ==> cm.model.Valid()
    modifies if cm == null then {} else {cm, cm.model}
    ensures cm == null || thin == 0 ==> !ok
    ensures cm != null && thin == 0 ==> (cm.adapting == old(cm.adapting)
      && cm.model.bugsMonitors == old(cm.model.bugsMonitors) && cm.model.monitors == old(cm.model.monitors))
    ensures cm != null && thin > 0 ==> (
      && !cm.adapting
      && (ok <==> !BUGSModels.HasKey(old(cm.model.bugsMonitors), key)
                  && BUGSModels.FactoryScan(faclist, key, 0).0.Some?))
    ensures cm != null ==> cm.model == old(cm.model) && cm.model.Valid()
  {
    if cm == null {
      return false;
    }
    if thin == 0 {
      return false;
    }
    if cm.adapting {
      cm.adapting := false;
    }
    var m := cm.model;
    var msg;
    ok, msg := m.SetMonitor(key, thin, faclist);
  }
}
