/** What the index holds about a device, field by field, and what follows for counting: variants of one counter
    set that a live slice publishes are one device of the node. */
module IndexFacts {
  import opened Collections
  import opened Text
  import opened Topology
  import opened Extraction
  import opened TopologyIndex
  import opened IndexRuns
  import opened CounterGroups
  import opened Refinement
  import opened PartitionBuilder
  import opened PartitionLaws
  import opened Satisfiability

  /** The device as its slice publishes it: everything but the placement is taken over unchanged. */
  predicate Describes(slice: Slice, raw: RawDevice, td: TopologyDevice) {
    && td.driverName == slice.driver && td.nodeName == slice.node && td.poolName == slice.pool
    && td.deviceName == raw.name && td.capacity == raw.capacity && td.consumes == raw.consumes
    && td.numaNodes == [] && td.pcieRoots == []
  }

  /** Its placement comes from some visiting order of its attributes. */
  ghost predicate PlacedBy(slice: Slice, raw: RawDevice, rules: seq<TopologyRule>, td: TopologyDevice) {
    exists p :: Extracts(ContextOf(slice, rules), raw.attributes, p) &&
      td.numaNode == p.numaNode && td.pcieRoot == p.pcieRoot && td.socket == p.socket && td.extended == p.extended
  }

  ghost predicate EntryOk(slice: Slice, rules: seq<TopologyRule>, tds: seq<TopologyDevice>) {
    && |tds| == |slice.devices|
    && forall i :: 0 <= i < |tds| ==>
         Describes(slice, slice.devices[i], tds[i]) && PlacedBy(slice, slice.devices[i], rules, tds[i])
  }

  lemma DevicesDescribed(slice: Slice, rules: seq<TopologyRule>, tds: seq<TopologyDevice>)
    requires DevicesFrom(slice, rules, tds)
    ensures EntryOk(slice, rules, tds)
  {
    hide Extracts;
    forall i | 0 <= i < |tds|
      ensures Describes(slice, slice.devices[i], tds[i]) && PlacedBy(slice, slice.devices[i], rules, tds[i])
    {
      assert DeviceFrom(slice, slice.devices[i], rules, tds[i]);
    }
  }

  /** Every entry of an index in agreement lists the devices of its slice, in order, as the slice publishes them. */
  lemma EntriesDescribed(nodes: Nodes, raws: RawSlices, rules: seq<TopologyRule>, n: string, s: string)
    requires Agrees(nodes, raws, rules) && Holds(nodes, n, s)
    ensures s in raws && raws[s].node == n && EntryOk(raws[s], rules, nodes[n][s])
  {
    hide DevicesFrom, EntryOk;
    assert StoredOn(raws, n, s);
    DevicesDescribed(raws[s], rules, nodes[n][s]);
  }

  /** After any run, moves included, every live slice is indexed on its node, as it publishes its devices. */
  lemma LiveDescribed(events: seq<Event>, states: seq<State>, s: string)
    requires IsAnyRun(events, states) && s in Live(events)
    ensures var slice, nodes := Live(events)[s], states[|events|].nodes;
      Holds(nodes, slice.node, s) && EntryOk(slice, RulesAfter(events), nodes[slice.node][s])
  {
    hide Steps, DevicesFrom, EntryOk;
    RunBehind(events, states);
    var slice := Live(events)[s];
    assert PlaceOk(states[|events|], Behind(events), slice.node, s);
    DevicesDescribed(slice, RulesAfter(events), states[|events|].nodes[slice.node][s]);
  }

  // ---------------------------------------------------------------------
  // Counting variants
  // ---------------------------------------------------------------------

  lemma {:induction false} InConcat(table: SliceTable, order: seq<string>, s: string, d: TopologyDevice)
    requires (forall x :: x in order ==> x in table) && s in order && d in table[s]
    ensures d in Concat(table, order)
  {
    var init, last := order[..|order| - 1], order[|order| - 1];
    assert order == init + [last];
    if s != last { InConcat(table, init, s, d); }
  }

  lemma NodeHasDevice(nodes: Nodes, n: string, s: string, d: TopologyDevice, all: seq<TopologyDevice>)
    requires Holds(nodes, n, s) && d in nodes[n][s] && Enumerates(nodes[n], all)
    ensures d in all
  {
    var order :| ListsSet(order, nodes[n].Keys) && all == Concat(nodes[n], order);
    InConcat(nodes[n], order, s, d);
  }

  /** A device of a live slice that draws on a counter set: of all devices of the node that draw on the set first,
      from the same driver and pool, exactly one is effective. */
  lemma VariantsCountOnce(nodes: Nodes, raws: RawSlices, rules: seq<TopologyRule>, n: string, s: string, i: nat,
                          all: seq<TopologyDevice>)
    requires Agrees(nodes, raws, rules) && Holds(nodes, n, s) && Enumerates(nodes[n], all)
    requires s in raws && i < |raws[s].devices| && raws[s].devices[i].consumes != []
    ensures var set0 := raws[s].devices[i].consumes[0].counterSet;
      |Filter(Effective(all), DrawsFirst(raws[s].driver, raws[s].pool, set0))| == 1
  {
    hide Agrees, Enumerates, Effective, Filter;
    EntriesDescribed(nodes, raws, rules, n, s);
    var slice, d := raws[s], nodes[n][s][i];
    assert Describes(slice, slice.devices[i], d);
    assert d in nodes[n][s];
    NodeHasDevice(nodes, n, s, d, all);
    var ck := GroupKey(slice.driver, slice.pool, slice.devices[i].consumes[0].counterSet);
    assert CounterKey(d) == Some(ck);
    EffectiveVariants(all, ck);
    FilterSame(Effective(all), KeyIs(CounterKey, Some(ck)), DrawsFirst(slice.driver, slice.pool, ck.counterSet));
  }

  /** Devices of a driver and pool whose first counter set is the given one. */
  function DrawsFirst(driver: string, pool: string, counterSet: string): TopologyDevice -> bool {
    (d: TopologyDevice) => d.driverName == driver && d.poolName == pool && d.consumes != [] &&
      d.consumes[0].counterSet == counterSet
  }

  /** If all devices of the driver on the node are such variants, the full partition counts one device. */
  lemma FullCountsOne(node: string, profile: string, nodes: Nodes, raws: RawSlices, rules: seq<TopologyRule>, n: string,
                      s: string, i: nat, all: seq<TopologyDevice>)
    requires Agrees(nodes, raws, rules) && Holds(nodes, n, s) && Enumerates(nodes[n], all)
    requires s in raws && i < |raws[s].devices| && raws[s].devices[i].consumes != []
    requires forall d :: d in all && Base(d) == BaseDriver(raws[s].driver) ==>
      DrawsFirst(raws[s].driver, raws[s].pool, raws[s].devices[i].consumes[0].counterSet)(d)
    ensures FullCount(node, profile, Effective(all), BaseDriver(raws[s].driver)) == 1
  {
    hide Agrees, Enumerates, Effective, Filter, FullCount;
    var b, p := BaseDriver(raws[s].driver),
      DrawsFirst(raws[s].driver, raws[s].pool, raws[s].devices[i].consumes[0].counterSet);
    VariantsCountOnce(nodes, raws, rules, n, s, i, all);
    EffectiveNoOverlap(all);
    FullCountIs(node, profile, Effective(all), b);
    EffectiveMembers(all);
    FilterSame(Effective(all), KeyIs(Base, b), p);
  }
}
