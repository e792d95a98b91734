/** The topology index: `nodes` is a cache of the devices extracted from `rawSlices` under `rules`.
    It is patched on every slice event and rebuilt when the rules change. */
module TopologyIndex {
  import opened Collections
  import opened Topology
  import opened Extraction

  datatype RawDevice = RawDevice(
    name: string, attributes: Attributes, capacity: map<string, Quantity>, consumes: seq<CounterConsumption>)

  /** A ResourceSlice, and also the copy of it that is kept for re-extraction. */
  datatype Slice = Slice(name: string, driver: string, node: string, pool: string, devices: seq<RawDevice>)

  type RawSlices = map<string, Slice>
  type SliceTable = map<string, seq<TopologyDevice>>
  type Nodes = map<string, SliceTable>

  // ---------------------------------------------------------------------
  // The devices a slice stands for
  // ---------------------------------------------------------------------

  function ContextOf(slice: Slice, rules: seq<TopologyRule>): Context {
    Context(slice.driver, rules, KNOWN_ALIASES)
  }

  function Assemble(slice: Slice, d: RawDevice, p: Placement): TopologyDevice {
    TopologyDevice(slice.driver, d.name, slice.node, slice.pool,
      p.numaNode, [], p.pcieRoot, [], p.socket, p.extended, d.capacity, d.consumes)
  }

  ghost predicate DeviceFrom(slice: Slice, d: RawDevice, rules: seq<TopologyRule>, td: TopologyDevice) {
    exists p :: Extracts(ContextOf(slice, rules), d.attributes, p) && td == Assemble(slice, d, p)
  }

  ghost predicate DevicesFrom(slice: Slice, rules: seq<TopologyRule>, tds: seq<TopologyDevice>) {
    && |tds| == |slice.devices|
    && forall i :: 0 <= i < |tds| ==> DeviceFrom(slice, slice.devices[i], rules, tds[i])
  }

  method ExtractSlice(slice: Slice, rules: seq<TopologyRule>) returns (tds: seq<TopologyDevice>)
    ensures DevicesFrom(slice, rules, tds)
  {
    tds := [];
    for i := 0 to |slice.devices|
      invariant |tds| == i
      invariant forall j :: 0 <= j < i ==> DeviceFrom(slice, slice.devices[j], rules, tds[j])
    {
      var p := ExtractTopologyDevice(ContextOf(slice, rules), slice.devices[i].attributes);
      tds := tds + [Assemble(slice, slice.devices[i], p)];
    }
  }

  // ---------------------------------------------------------------------
  // Agreement of the cache with its sources
  // ---------------------------------------------------------------------

  predicate Holds(nodes: Nodes, n: string, s: string) {
    n in nodes && s in nodes[n]
  }

  predicate StoredOn(raws: RawSlices, n: string, s: string) {
    s in raws && raws[s].node == n
  }

  /** `nodes` holds exactly one entry per stored slice, extracted under `rules`, and no empty node. */
  ghost predicate Agrees(nodes: Nodes, raws: RawSlices, rules: seq<TopologyRule>) {
    && (forall n, s :: Holds(nodes, n, s) <==> StoredOn(raws, n, s))
    && (forall n :: n in nodes ==> nodes[n] != map[])
    && (forall n, s :: Holds(nodes, n, s) ==> DevicesFrom(raws[s], rules, nodes[n][s]))
  }

  function TableAt(nodes: Nodes, n: string): SliceTable {
    if n in nodes then nodes[n] else map[]
  }

  function PutSlice(nodes: Nodes, n: string, s: string, tds: seq<TopologyDevice>): Nodes {
    nodes[n := TableAt(nodes, n)[s := tds]]
  }

  function DropSlice(nodes: Nodes, n: string, s: string): Nodes {
    if n !in nodes then nodes
    else if nodes[n] - {s} == map[] then nodes - {n}
    else nodes[n := nodes[n] - {s}]
  }

  lemma PutAgrees(nodes: Nodes, raws: RawSlices, rules: seq<TopologyRule>, slice: Slice, tds: seq<TopologyDevice>)
    requires Agrees(nodes, raws, rules)
    requires slice.name in raws ==> raws[slice.name].node == slice.node
    requires DevicesFrom(slice, rules, tds)
    ensures Agrees(PutSlice(nodes, slice.node, slice.name, tds), raws[slice.name := slice], rules)
  {
    var nodes', raws' := PutSlice(nodes, slice.node, slice.name, tds), raws[slice.name := slice];
    forall n, s ensures Holds(nodes', n, s) <==> StoredOn(raws', n, s) {
      assert Holds(nodes, n, s) <==> StoredOn(raws, n, s);
    }
    assert slice.name in nodes'[slice.node];
    forall n, s | Holds(nodes', n, s) ensures DevicesFrom(raws'[s], rules, nodes'[n][s]) {
      assert Holds(nodes, n, s) || s == slice.name;
    }
  }

  lemma DropAgrees(nodes: Nodes, raws: RawSlices, rules: seq<TopologyRule>, node: string, name: string)
    requires Agrees(nodes, raws, rules)
    requires name in raws ==> raws[name].node == node
    ensures Agrees(DropSlice(nodes, node, name), raws - {name}, rules)
  {
    var nodes', raws' := DropSlice(nodes, node, name), raws - {name};
    forall n, s ensures Holds(nodes', n, s) <==> StoredOn(raws', n, s) {
      assert Holds(nodes, n, s) <==> StoredOn(raws, n, s);
      assert n in nodes ==> (s in nodes[n] - {name} <==> s in nodes[n] && s != name);
    }
    forall n, s | Holds(nodes', n, s) ensures DevicesFrom(raws'[s], rules, nodes'[n][s]) {
      assert Holds(nodes, n, s);
    }
  }

  // ---------------------------------------------------------------------
  // The class
  // ---------------------------------------------------------------------

  datatype State = State(nodes: Nodes, raws: RawSlices, rules: seq<TopologyRule>)
  {
    ghost predicate InSync() { Agrees(nodes, raws, rules) }
  }

  datatype Event = Update(slice: Slice) | Remove(slice: Slice) | SetRules(rules: seq<TopologyRule>)

  /** What one call may do to the index. */
  ghost predicate Steps(s: State, e: Event, s': State) {
    match e
    case Update(slice) =>
      if slice.node == "" then s' == s else
        exists tds :: DevicesFrom(slice, s.rules, tds) &&
          s' == State(PutSlice(s.nodes, slice.node, slice.name, tds), s.raws[slice.name := slice], s.rules)
    case Remove(slice) =>
      if slice.node == "" then s' == s else
        s' == State(DropSlice(s.nodes, slice.node, slice.name), s.raws - {slice.name}, s.rules)
    case SetRules(rules) =>
      s'.raws == s.raws && s'.rules == rules && Agrees(s'.nodes, s.raws, rules)
  }

  class TopologyModel {
    var nodes: Nodes
    var rules: seq<TopologyRule>
    var rawSlices: RawSlices

    ghost function Abs(): State
      reads this
    {
      State(nodes, rawSlices, rules)
    }

    /** A slice is stored under its own name. */
    ghost predicate Valid()
      reads this
    {
      forall s :: s in rawSlices ==> rawSlices[s].name == s
    }

    constructor ()
      ensures Valid()
      ensures Abs() == State(map[], map[], []) && Abs().InSync()
    {
      nodes, rules, rawSlices := map[], [], map[];
    }

    /** Rebuilding restores agreement from any state, in sync or not. */
    method SetRules(newRules: seq<TopologyRule>)
      requires Valid()
      modifies this
      ensures Valid()
      ensures Steps(old(Abs()), Event.SetRules(newRules), Abs())
    {
      rules := newRules;
      nodes := map[];
      var todo := rawSlices.Keys;
      ghost var done: RawSlices := map[];
      while todo != {}
        invariant todo <= rawSlices.Keys
        invariant done == map s | s in rawSlices && s !in todo :: rawSlices[s]
        invariant rules == newRules && rawSlices == old(rawSlices)
        invariant Agrees(nodes, done, rules)
        decreases |todo|
      {
        var s :| s in todo;
        var raw := rawSlices[s];
        var tds := ExtractSlice(raw, rules);
        PutAgrees(nodes, done, rules, raw, tds);
        nodes := PutSlice(nodes, raw.node, raw.name, tds);
        done := done[s := raw];
        todo := todo - {s};
      }
      assert done == rawSlices;
    }

    method UpdateFromResourceSlice(slice: Slice)
      requires Valid()
      modifies this
      ensures Valid()
      ensures Steps(old(Abs()), Update(slice), Abs())
    {
      if slice.node == "" { return; }
      rawSlices := rawSlices[slice.name := slice];
      var tds := ExtractSlice(rawSlices[slice.name], rules);
      var table := if slice.node in nodes then nodes[slice.node] else map[];
      nodes := nodes[slice.node := table[slice.name := tds]];
    }

    method RemoveResourceSlice(slice: Slice)
      requires Valid()
      modifies this
      ensures Valid()
      ensures Steps(old(Abs()), Remove(slice), Abs())
    {
      if slice.node == "" { return; }
      rawSlices := rawSlices - {slice.name};
      if slice.node !in nodes { return; }
      var table := nodes[slice.node] - {slice.name};
      if table == map[] {
        nodes := nodes - {slice.node};
      } else {
        nodes := nodes[slice.node := table];
      }
    }
  }

  // ---------------------------------------------------------------------
  // Whole runs
  // ---------------------------------------------------------------------

  /** The event names the node under which its slice is stored, if it is stored at all. */
  predicate KeepsNode(s: State, e: Event) {
    match e
    case Update(slice) => slice.node == "" || slice.name !in s.raws || s.raws[slice.name].node == slice.node
    case Remove(slice) => slice.node == "" || slice.name !in s.raws || s.raws[slice.name].node == slice.node
    case SetRules(_) => true
  }

  /** One event keeps the cache in agreement exactly when it does not move a slice between nodes. */
  lemma StepAgreesIff(s: State, e: Event, s': State)
    requires s.InSync() && Steps(s, e, s')
    ensures s'.InSync() <==> KeepsNode(s, e)
  {
    match e
    case Update(slice) =>
      if slice.node != "" {
        var tds :| DevicesFrom(slice, s.rules, tds) &&
          s' == State(PutSlice(s.nodes, slice.node, slice.name, tds), s.raws[slice.name := slice], s.rules);
        if KeepsNode(s, e) {
          PutAgrees(s.nodes, s.raws, s.rules, slice, tds);
        } else {
          var was := s.raws[slice.name].node;
          assert Holds(s.nodes, was, slice.name) by { assert StoredOn(s.raws, was, slice.name); }
          assert Holds(s'.nodes, was, slice.name) && !StoredOn(s'.raws, was, slice.name);
        }
      }
    case Remove(slice) =>
      if slice.node != "" {
        if KeepsNode(s, e) {
          DropAgrees(s.nodes, s.raws, s.rules, slice.node, slice.name);
        } else {
          var was := s.raws[slice.name].node;
          assert Holds(s.nodes, was, slice.name) by { assert StoredOn(s.raws, was, slice.name); }
          assert Holds(s'.nodes, was, slice.name) && !StoredOn(s'.raws, was, slice.name);
        }
      }
    case SetRules(_) =>
  }

  /** The last live version of every slice after a run of events. */
  function Live(events: seq<Event>): RawSlices {
    if events == [] then map[] else
      var before := Live(events[..|events| - 1]);
      match events[|events| - 1]
      case Update(slice) => if slice.node == "" then before else before[slice.name := slice]
      case Remove(slice) => if slice.node == "" then before else before - {slice.name}
      case SetRules(_) => before
  }

  function RulesAfter(events: seq<Event>): seq<TopologyRule> {
    if events == [] then [] else
      match events[|events| - 1]
      case SetRules(rules) => rules
      case _ => RulesAfter(events[..|events| - 1])
  }

  /** A run from the empty index in which no event moves a slice between nodes. */
  ghost predicate IsRun(events: seq<Event>, states: seq<State>) {
    && |states| == |events| + 1
    && states[0] == State(map[], map[], [])
    && (forall i {:trigger events[i]} :: 0 <= i < |events| ==>
          Steps(states[i], events[i], states[i + 1]) && KeepsNode(states[i], events[i]))
  }

  /** After any run the index agrees with a rebuild from the last live version of every slice. */
  lemma {:induction false} RunAgrees(events: seq<Event>, states: seq<State>)
    requires IsRun(events, states)
    ensures var final := states[|events|];
      final.InSync() && final.raws == Live(events) && final.rules == RulesAfter(events)
  {
    if events != [] {
      var n := |events| - 1;
      RunAgrees(events[..n], states[..n + 1]);
      StepAgreesIff(states[n], events[n], states[n + 1]);
    }
  }

  // ---------------------------------------------------------------------
  // With unambiguous attributes, the index is a function of its sources
  // ---------------------------------------------------------------------

  ghost predicate AllUnambiguous(raws: RawSlices, rules: seq<TopologyRule>) {
    forall s, i :: s in raws && 0 <= i < |raws[s].devices| ==>
      Unambiguous(ContextOf(raws[s], rules), raws[s].devices[i].attributes)
  }

  lemma DevicesFromUnique(slice: Slice, rules: seq<TopologyRule>, tds: seq<TopologyDevice>, tds': seq<TopologyDevice>)
    requires forall i :: 0 <= i < |slice.devices| ==> Unambiguous(ContextOf(slice, rules), slice.devices[i].attributes)
    requires DevicesFrom(slice, rules, tds) && DevicesFrom(slice, rules, tds')
    ensures tds == tds'
  {
    forall i | 0 <= i < |tds| ensures tds[i] == tds'[i] {
      var d := slice.devices[i];
      var p :| Extracts(ContextOf(slice, rules), d.attributes, p) && tds[i] == Assemble(slice, d, p);
      var p' :| Extracts(ContextOf(slice, rules), d.attributes, p') && tds'[i] == Assemble(slice, d, p');
      UnambiguousExtracts(ContextOf(slice, rules), d.attributes, p, p');
    }
  }

  lemma AgreesUnique(nodes: Nodes, nodes': Nodes, raws: RawSlices, rules: seq<TopologyRule>)
    requires AllUnambiguous(raws, rules)
    requires Agrees(nodes, raws, rules) && Agrees(nodes', raws, rules)
    ensures nodes == nodes'
  {
    forall n, s ensures Holds(nodes, n, s) == Holds(nodes', n, s) {}
    forall n | n in nodes ensures n in nodes' && nodes[n] == nodes'[n] {
      var s0 :| s0 in nodes[n];
      assert Holds(nodes, n, s0) && Holds(nodes', n, s0);
      forall s ensures s in nodes[n] <==> s in nodes'[n] {
        assert Holds(nodes, n, s) == Holds(nodes', n, s);
      }
      forall s | s in nodes[n] ensures nodes[n][s] == nodes'[n][s] {
        assert Holds(nodes, n, s);
        DevicesFromUnique(raws[s], rules, nodes[n][s], nodes'[n][s]);
      }
    }
    forall n | n in nodes' ensures n in nodes {
      var s0 :| s0 in nodes'[n];
      assert Holds(nodes', n, s0) && Holds(nodes, n, s0);
    }
  }

  /** Two histories that end with the same live slices and rules leave the same index. */
  lemma {:induction false} HistoryForgotten(events: seq<Event>, states: seq<State>, events': seq<Event>,
                                            states': seq<State>)
    requires IsRun(events, states) && IsRun(events', states')
    requires Live(events) == Live(events') && RulesAfter(events) == RulesAfter(events')
    requires AllUnambiguous(Live(events), RulesAfter(events))
    ensures states[|events|] == states'[|events'|]
  {
    var final, final' := states[|events|], states'[|events'|];
    assert final.InSync() && final.raws == Live(events) && final.rules == RulesAfter(events) by {
      RunAgrees(events, states);
    }
    assert final'.InSync() && final'.raws == Live(events) && final'.rules == RulesAfter(events) by {
      RunAgrees(events', states');
    }
    AgreesUnique(final.nodes, final'.nodes, Live(events), RulesAfter(events));
  }

  /** Replaying stored slices, or the current rules, into an index in sync changes nothing. */
  lemma {:induction false} ReplayStutters(s: State, e: Event, s': State)
    requires s.InSync() && AllUnambiguous(s.raws, s.rules)
    requires e.Update? ==> e.slice.name in s.raws && s.raws[e.slice.name] == e.slice
    requires e.SetRules? ==> e.rules == s.rules
    requires !e.Remove?
    requires Steps(s, e, s')
    ensures s' == s
  {
    StepAgreesIff(s, e, s');
    if e.Update? {
      assert s.raws[e.slice.name := e.slice] == s.raws;
    }
    AgreesUnique(s.nodes, s'.nodes, s.raws, s.rules);
  }
}
