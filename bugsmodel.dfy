/**
 * BUGSModel (src/lib/model/BUGSModel.cc): the registry of user monitors,
 * the sampler and observed-node listings, and the checks on the random
 * number generator entries of a table of initial values.
 */
module BUGSModels {
  import opened Wrappers
  import Nodes
  import Numeric
  import ReadData

  /** A range of array indices, compared for equality only. */
  datatype Range = Range(lower: seq<int>, upper: seq<int>)

  /** What identifies a user monitor: variable name, range and monitor type. */
  datatype MonitorKey = MonitorKey(name: string, range: Range, mtype: string)

  /** A user monitor: the monitor (a handle) and its key. */
  datatype MonitorInfo = MonitorInfo(monitor: nat, key: MonitorKey)

  /** A monitor factory: getMonitor gives a monitor or none, and a message. */
  datatype MonitorFactory = MonitorFactory(getMonitor: MonitorKey -> (Option<nat>, string))

  /** A sampler: its name and the stochastic nodes it updates. */
  datatype SamplerInfo = SamplerInfo(name: string, nodes: seq<Nodes.NodeId>)

  const DuplicateMessage: string := "Monitor already exists and cannot be duplicated"

  /**
   * The factory scan of setMonitor from position j: enabled factories in
   * list order, stopping at the first that gives a monitor or a message.
   */
  function FactoryScan(faclist: seq<(MonitorFactory, bool)>, key: MonitorKey, j: nat): (r: (Option<nat>, string))
    requires j <= |faclist|
    ensures r.0.None? && r.1 == "" <==>
      forall k :: j <= k < |faclist| && faclist[k].1 ==> faclist[k].0.getMonitor(key) == (None, "")
    decreases |faclist| - j
  {
    if j == |faclist| then (None, "")
    else if faclist[j].1 && (faclist[j].0.getMonitor(key).0.Some? || faclist[j].0.getMonitor(key).1 != "")
    then faclist[j].0.getMonitor(key)
    else FactoryScan(faclist, key, j + 1)
  }

  /** The first enabled factory that answers gives the scan's result. */
  lemma {:induction false} FactoryScanFirst(faclist: seq<(MonitorFactory, bool)>, key: MonitorKey, j: nat, m: nat)
    requires j <= m < |faclist| && faclist[m].1
    requires faclist[m].0.getMonitor(key).0.Some? || faclist[m].0.getMonitor(key).1 != ""
    requires forall k :: j <= k < m && faclist[k].1 ==> faclist[k].0.getMonitor(key) == (None, "")
    ensures FactoryScan(faclist, key, j) == faclist[m].0.getMonitor(key)
    decreases m - j
  {
    if j < m {
      FactoryScanFirst(faclist, key, j + 1, m);
    }
  }

  /** No two user monitors share a key. */
  predicate DistinctKeys(ms: seq<MonitorInfo>)
  {
    forall i, j :: 0 <= i < j < |ms| ==> ms[i].key != ms[j].key
  }

  predicate HasKey(ms: seq<MonitorInfo>, key: MonitorKey)
  {
    exists i :: 0 <= i < |ms| && ms[i].key == key
  }

  /** The stochastic nodes of snodes that are fixed, in order. */
  function FixedNodes(arena: Nodes.Arena, snodes: seq<Nodes.NodeId>): (r: seq<Nodes.NodeId>)
    ensures |r| <= |snodes|
  {
    if snodes == [] then []
    else FixedNodes(arena, snodes[..|snodes| - 1])
         + (if arena(snodes[|snodes| - 1]).fixed then [snodes[|snodes| - 1]] else [])
  }

  /** FixedNodes holds exactly the fixed nodes of snodes. */
  lemma {:induction false} FixedNodesMembers(arena: Nodes.Arena, snodes: seq<Nodes.NodeId>)
    ensures forall n :: n in FixedNodes(arena, snodes) <==> n in snodes && arena(n).fixed
    decreases |snodes|
  {
    if snodes != [] {
      var init := snodes[..|snodes| - 1];
      FixedNodesMembers(arena, init);
      assert snodes == init + [snodes[|snodes| - 1]];
    }
  }

  /**
   * FixedNodes keeps the order of the stochastic nodes: filtering a
   * concatenation concatenates the filtered parts.
   */
  lemma {:induction false} FixedNodesAppend(arena: Nodes.Arena, a: seq<Nodes.NodeId>, b: seq<Nodes.NodeId>)
    ensures FixedNodes(arena, a + b) == FixedNodes(arena, a) + FixedNodes(arena, b)
    decreases |b|
  {
    if b == [] {
      assert a + b == a;
    } else {
      var b' := b[..|b| - 1];
      var last := b[|b| - 1];
      var tail := if arena(last).fixed then [last] else [];
      assert (a + b)[..|a + b| - 1] == a + b' && (a + b)[|a + b| - 1] == last;
      assert FixedNodes(arena, a + b) == FixedNodes(arena, a + b') + tail;
      assert FixedNodes(arena, b) == FixedNodes(arena, b') + tail;
      FixedNodesAppend(arena, a, b');
    }
  }

  /** One row of samplerNames: the sampler name, then its nodes' names. */
  function SamplerRow(s: SamplerInfo, nodeName: Nodes.NodeId -> string): (row: seq<string>)
    ensures |row| == |s.nodes| + 1 && row[0] == s.name
    ensures forall j :: 0 <= j < |s.nodes| ==> row[j + 1] == nodeName(s.nodes[j])
  {
    [s.name] + seq(|s.nodes|, j requires 0 <= j < |s.nodes| => nodeName(s.nodes[j]))
  }

  class BUGSModel {
    /** The user monitors, in the order they were set. */
    var bugsMonitors: seq<MonitorInfo>
    /** The model's monitor list: each monitor with its thinning interval. */
    var monitors: seq<(nat, nat)>
    var samplers: seq<SamplerInfo>
    var stochasticNodes: seq<Nodes.NodeId>
    var observedStochasticNodes: seq<Nodes.NodeId>

    ghost predicate Valid()
      reads this
    {
      DistinctKeys(bugsMonitors)
    }

    constructor (samplers: seq<SamplerInfo>, stochasticNodes: seq<Nodes.NodeId>)
      ensures Valid()
      ensures bugsMonitors == [] && monitors == [] && observedStochasticNodes == []
      ensures this.samplers == samplers && this.stochasticNodes == stochasticNodes
    {
      bugsMonitors := [];
      monitors := [];
      this.samplers := samplers;
      this.stochasticNodes := stochasticNodes;
      observedStochasticNodes := [];
    }

    /**
     * setMonitor. A key already registered is refused with a message and
     * nothing changes. Otherwise the enabled factories are asked in order;
     * a monitor is registered once in both lists, and a failure records
     * nothing.
     */
    method SetMonitor(key: MonitorKey, thin: nat, faclist: seq<(MonitorFactory, bool)>)
      returns (ok: bool, msg: string)
      requires Valid()
      modifies this
      ensures Valid()
      ensures HasKey(old(bugsMonitors), key) ==> !ok && msg == DuplicateMessage
      ensures !HasKey(old(bugsMonitors), key) ==> (
        && (ok <==> FactoryScan(faclist, key, 0).0.Some?)
        && msg == FactoryScan(faclist, key, 0).1)
      ensures ok ==> (
        && bugsMonitors == old(bugsMonitors) + [MonitorInfo(FactoryScan(faclist, key, 0).0.value, key)]
        && monitors == old(monitors) + [(FactoryScan(faclist, key, 0).0.value, thin)])
      ensures !ok ==> bugsMonitors == old(bugsMonitors) && monitors == old(monitors)
      ensures samplers == old(samplers) && stochasticNodes == old(stochasticNodes)
      ensures observedStochasticNodes == old(observedStochasticNodes)
    {
      var i := 0;
      while i < |bugsMonitors|
        invariant 0 <= i <= |bugsMonitors|
        invariant forall k :: 0 <= k < i ==> bugsMonitors[k].key != key
      {
        if bugsMonitors[i].key == key {
          return false, DuplicateMessage;
        }
        i := i + 1;
      }
      msg := "";
      var monitor: Option<nat> := None;
      var j := 0;
      while j < |faclist|
        invariant 0 <= j <= |faclist|
        invariant FactoryScan(faclist, key, 0) == FactoryScan(faclist, key, j)
        invariant monitor == None && msg == ""
      {
        if faclist[j].1 {
          var answer := faclist[j].0.getMonitor(key);
          if answer.0.Some? || answer.1 != "" {
            monitor, msg := answer.0, answer.1;
            break;
          }
        }
        j := j + 1;
      }
      if monitor.Some? {
        monitors := monitors + [(monitor.value, thin)];
        bugsMonitors := bugsMonitors + [MonitorInfo(monitor.value, key)];
        return true, msg;
      }
      return false, msg;
    }

    /**
     * deleteMonitor: the first user monitor with the key is removed from
     * both lists and the answer is true; with no match nothing changes.
     */
    method DeleteMonitor(key: MonitorKey) returns (found: bool, ghost at: nat)
      requires Valid()
      modifies this
      ensures Valid()
      ensures found <==> HasKey(old(bugsMonitors), key)
      ensures found ==> (
        && at < |old(bugsMonitors)| && old(bugsMonitors)[at].key == key
        && (forall k :: 0 <= k < at ==> old(bugsMonitors)[k].key != key)
        && bugsMonitors == old(bugsMonitors)[..at] + old(bugsMonitors)[at + 1..]
        && monitors == RemoveMonitor(old(monitors), old(bugsMonitors)[at].monitor))
      ensures !found ==> bugsMonitors == old(bugsMonitors) && monitors == old(monitors)
      ensures samplers == old(samplers) && stochasticNodes == old(stochasticNodes)
      ensures observedStochasticNodes == old(observedStochasticNodes)
      ensures !HasKey(bugsMonitors, key)
    {
      var i := 0;
      while i < |bugsMonitors|
        invariant 0 <= i <= |bugsMonitors|
        invariant forall k :: 0 <= k < i ==> bugsMonitors[k].key != key
      {
        if bugsMonitors[i].key == key {
          monitors := RemoveMonitor(monitors, bugsMonitors[i].monitor);
          ghost var before := bugsMonitors;
          bugsMonitors := bugsMonitors[..i] + bugsMonitors[i + 1..];
          assert forall k :: 0 <= k < |bugsMonitors| ==> bugsMonitors[k] == (if k < i then before[k] else before[k + 1]);
          return true, i;
        }
        i := i + 1;
      }
      return false, 0;
    }

    /** samplerNames: one row per sampler, in order. */
    method SamplerNames(nodeName: Nodes.NodeId -> string) returns (names: seq<seq<string>>)
      ensures |names| == |samplers|
      ensures forall i :: 0 <= i < |samplers| ==> names[i] == SamplerRow(samplers[i], nodeName)
    {
      names := [];
      var i := 0;
      while i < |samplers|
        invariant 0 <= i <= |samplers| && |names| == i
        invariant forall k :: 0 <= k < i ==> names[k] == SamplerRow(samplers[k], nodeName)
      {
        var row := [samplers[i].name];
        var nodes := samplers[i].nodes;
        var j := 0;
        while j < |nodes|
          invariant 0 <= j <= |nodes| && |row| == j + 1 && row[0] == samplers[i].name
          invariant forall k :: 0 <= k < j ==> row[k + 1] == nodeName(nodes[k])
        {
          row := row + [nodeName(nodes[j])];
          j := j + 1;
        }
        names := names + [row];
        i := i + 1;
      }
    }

    /** observedStochasticNodes: the fixed stochastic nodes, in stochasticNodes order. */
    method ObservedStochasticNodes(arena: Nodes.Arena) returns (r: seq<Nodes.NodeId>)
      modifies this
      ensures r == FixedNodes(arena, stochasticNodes) && observedStochasticNodes == r
      ensures bugsMonitors == old(bugsMonitors) && monitors == old(monitors)
      ensures samplers == old(samplers) && stochasticNodes == old(stochasticNodes)
    {
      var snodes := stochasticNodes;
      var observed := [];
      var i := 0;
      while i < |snodes|
        invariant 0 <= i <= |snodes|
        invariant observed == FixedNodes(arena, snodes[..i])
      {
        assert snodes[..i + 1][..i] == snodes[..i];
        if arena(snodes[i]).fixed {
          observed := observed + [snodes[i]];
        }
        i := i + 1;
      }
      assert snodes[..|snodes|] == snodes;
      observedStochasticNodes := observed;
      r := observed;
    }
  }

  /** removeMonitor: the model's list without that monitor. */
  function RemoveMonitor(ms: seq<(nat, nat)>, m: nat): (r: seq<(nat, nat)>)
    ensures forall e :: e in r <==> e in ms && e.0 != m
  {
    if ms == [] then []
    else (if ms[0].0 == m then [] else [ms[0]]) + RemoveMonitor(ms[1..], m)
  }

  /** What the random number generator of a chain is given. */
  datatype RngInput = RngInput(seed: Option<int>, state: Option<seq<int>>)

  /** The double-to-int casts of the state values. */
  function IntState(values: seq<real>): (s: seq<int>)
    ensures |s| == |values|
    ensures forall i :: 0 <= i < |s| ==> s[i] == Numeric.TruncToInt(values[i])
  {
    seq(|values|, i requires 0 <= i < |values| => Numeric.TruncToInt(values[i]))
  }

  /**
   * The random number generator part of setParameters. A ".RNG.seed"
   * entry needs a generator, one value, and a non-negative one; it is cast
   * to int. A ".RNG.state" entry needs a generator and a state the
   * generator accepts. Each failure is a runtime error.
   */
  function RngParameters(table: map<string, ReadData.SArray>, hasRng: bool, setState: seq<int> -> bool)
    : (r: Result<RngInput>)
    ensures r.Err? ==> r.error == RuntimeError
    ensures r.Ok? <==> (
      && (".RNG.seed" in table ==> hasRng && |table[".RNG.seed"].values| == 1 && table[".RNG.seed"].values[0] >= 0.0)
      && (".RNG.state" in table ==> hasRng && setState(IntState(table[".RNG.state"].values))))
    ensures r.Ok? ==> (
      && (".RNG.seed" in table <==> r.value.seed.Some?)
      && (".RNG.seed" in table ==> r.value.seed.value == Numeric.TruncToInt(table[".RNG.seed"].values[0]))
      && (r.value.seed.Some? ==> r.value.seed.value >= 0)
      && (".RNG.state" in table <==> r.value.state.Some?)
      && (".RNG.state" in table ==> r.value.state.value == IntState(table[".RNG.state"].values)))
  {
    var seed :=
      if ".RNG.seed" !in table then Ok(None)
      else if !hasRng then Err(RuntimeError)
      else if |table[".RNG.seed"].values| != 1 then Err(RuntimeError)
      else if table[".RNG.seed"].values[0] < 0.0 then Err(RuntimeError)
      else Ok(Some(Numeric.TruncToInt(table[".RNG.seed"].values[0])));
    if seed.Err? then Err(RuntimeError)
    else if ".RNG.state" !in table then Ok(RngInput(seed.value, None))
    else if !hasRng then Err(RuntimeError)
    else
      var istate := IntState(table[".RNG.state"].values);
      if !setState(istate) then Err(RuntimeError) else Ok(RngInput(seed.value, Some(istate)))
  }
}
