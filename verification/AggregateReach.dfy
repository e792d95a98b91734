/** Reach through NUMA lists.  A device that comes from the index lists no NUMA nodes, so no driver reaches other
    partitions, and an aggregate of built partitions has exactly the drivers that are on all of them. */
module AggregateReach {
  import opened Collections
  import opened Text
  import opened Topology
  import opened TopologyIndex
  import opened CounterGroups
  import opened Refinement
  import opened SplitRuns
  import opened NumaGroups
  import opened PartitionBuilder
  import opened Satisfiability
  import opened PartitionConfigs
  import opened Aggregates
  import opened ClassKeys
  import opened ClusterPartitions
  import opened DeviceClasses
  import opened BuiltClasses
  import opened NodeTiers
  import opened RailNames

  /** No device lists NUMA nodes. */
  ghost predicate NoLists(devices: seq<TopologyDevice>) {
    forall d :: d in devices ==> d.numaNodes == []
  }

  lemma NothingReached(driver: string, numas: seq<int>, devices: seq<TopologyDevice>)
    requires NoLists(devices)
    ensures !ReachableToAll(driver, numas, devices)
  {
    if numas != [] { assert numas[0] in numas && !Reached(driver, numas[0], devices); }
  }

  /** Without lists, a driver is in the aggregate if and only if it is on all representatives. */
  lemma OnlyEverywhere(seen: Seen, members: set<string>, partType: PartitionType, st: AggregateState,
                       counts: map<string, int>, driver: string)
    requires members <= seen.Keys && members != {} && StateFor(seen, members, st)
    requires IsIntersection(partType, st, st.driverSeen.Keys, counts)
    requires forall k :: k in members ==> NoLists(seen[k].rep.devices)
    ensures driver in counts <==> Having(seen, members, driver) == members
  {
    hide IsMinimum, ReachableToAll, IntersectedValue;
    assert DriverOk(seen, members, driver, st.driverSeen, st.minCounts);
    assert NoLists(st.devices);
    NothingReached(driver, st.partitionNumas, st.devices);
    var having := Having(seen, members, driver);
    if |having| == |members| { SameSize(having, members); }
  }

  lemma SameSize(a: set<string>, b: set<string>)
    requires a <= b && |a| == |b|
    ensures a == b
  {
    assert b == a + (b - a);
  }

  // ---------------------------------------------------------------------
  // Built partitions
  // ---------------------------------------------------------------------

  lemma IndexHasNoLists(nodes: Nodes, raws: RawSlices, rules: seq<TopologyRule>, n: string, all: seq<TopologyDevice>)
    requires Agrees(nodes, raws, rules) && n in nodes && Enumerates(nodes[n], all)
    ensures NoLists(all)
  {
    hide Agrees, Concat;
    var order :| ListsSet(order, nodes[n].Keys) && all == Concat(nodes[n], order);
    forall d | d in all ensures d.numaNodes == [] {
      var s := SliceOf(nodes[n], order, d);
      EntryHasNoLists(nodes, raws, rules, n, s, d);
    }
  }

  lemma EntryHasNoLists(nodes: Nodes, raws: RawSlices, rules: seq<TopologyRule>, n: string, s: string,
                        d: TopologyDevice)
    requires Agrees(nodes, raws, rules) && n in nodes && s in nodes[n] && d in nodes[n][s]
    ensures d.numaNodes == []
  {
    assert Holds(nodes, n, s);
    var i :| 0 <= i < |nodes[n][s]| && nodes[n][s][i] == d;
    assert DeviceFrom(raws[s], raws[s].devices[i], rules, d);
  }

  lemma {:induction false} SliceOf(table: SliceTable, order: seq<string>, d: TopologyDevice) returns (s: string)
    requires (forall s :: s in order ==> s in table) && d in Concat(table, order)
    ensures s in table && d in table[s]
  {
    var init, last := order[..|order| - 1], order[|order| - 1];
    assert order == init + [last];
    assert last in order;
    if d in table[last] {
      s := last;
    } else {
      s := SliceOf(table, init, d);
    }
  }

  lemma NumaDevices(node: string, profile: string, e: seq<TopologyDevice>, rules: seq<TopologyRule>,
                    numa: seq<Partition>,
                    p: Partition)
    requires NumaPartitions(node, profile, NumaGroupsOf(e), rules, numa) && p in numa && NoLists(e)
    ensures NoLists(p.devices)
  {
    hide SplitsAll, SortedStrings, NumaGroupsOf, PartsOf, IsPartition, FirstCapacity, FirstExtended, Tally, Effective;
    hide SortedInts;
    var final :| SplitsAll(NumaGroupsOf(e), rules, final) &&
      numa == NumaPartitionsOf(node, profile, final, SortedStrings(final.Keys));
    var keys, placed := SortedStrings(final.Keys), Filter(e, HasNuma);
    var i :| 0 <= i < |keys| && p == NumaPartitionFrom(node, profile, i, final[keys[i]]);
    assert keys[i] in keys;
    NumaSplitExact(e);
    PartitionParts(NumaGroupsOf(e), placed);
    RunParts(NumaGroupsOf(e), placed, rules, final);
    PartInside(final, placed, keys[i]);
    FilterMembers(e, HasNuma);
  }

  lemma PartInside(groups: Groups, devices: seq<TopologyDevice>, k: string)
    requires PartsOf(groups, devices) && k in groups
    ensures forall d :: d in groups[k] ==> d in devices
  {
    FilterMembers(devices, In(groups[k]));
  }

  lemma NodeNumaDevices(node: string, all: seq<TopologyDevice>, rules: seq<TopologyRule>, profile: string,
                        ps: seq<Partition>, p: Partition)
    requires NodePartitions(node, all, rules, profile, ps) && p in ps && p.partType.NumaPartition? && NoLists(all)
    ensures NoLists(p.devices)
  {
    hide NumaPartitions, PciePartitionsOf, PartitionFrom, SortedStrings, Effective, Tally, InferProfile, PcieRootsOf;
    hide NumaGroupsOf;
    var e := Effective(all);
    EffectiveMembers(all);
    var roots := SortedStrings(PcieRootsOf(e));
    var numa :|
      && NumaPartitions(node, profile, NumaGroupsOf(e), rules, numa)
      && ps == PciePartitionsOf(node, profile, e, roots) + numa +
               [PartitionFrom(node + "-full-0", profile, FullPartition, e)];
    FullTyped(node + "-full-0", profile, e);
    if p in PciePartitionsOf(node, profile, e, roots) { PcieTyped(node, profile, e, roots, p); }
    NumaDevices(node, profile, e, rules, numa, p);
  }

  /** For partitions built from an index in agreement with its sources: a driver is in the NUMA aggregate if and only
      if it is on every representative. */
  lemma IndexAggregate(nodes: Nodes, raws: RawSlices, indexRules: seq<TopologyRule>, grouping: seq<TopologyRule>,
                       results: seq<PartitionResult>, naming: Naming, matching: seq<TopologyRule>, seen: Seen,
                       profile: string, st: AggregateState, counts: map<string, int>, driver: string)
    requires Agrees(nodes, raws, indexRules) && Builds(nodes, nodes.Keys, grouping, results)
    requires SeenFor(naming, matching, ItemsOf(results), seen)
    requires var members := Members(seen, seen.Keys, AggregateKey(profile, NumaPartition));
      members != {} && StateFor(seen, members, st)
    requires IsIntersection(NumaPartition, st, st.driverSeen.Keys, counts)
    ensures var members := Members(seen, seen.Keys, AggregateKey(profile, NumaPartition));
      driver in counts <==> Having(seen, members, driver) == members
  {
    hide Agrees, SeenFor, StateFor, IsIntersection, NodePartitions, Enumerates, ItemsOf, KeyOf;
    var members := Members(seen, seen.Keys, AggregateKey(profile, NumaPartition));
    forall k | k in members ensures NoLists(seen[k].rep.devices) {
      var item := EntryItem(naming, matching, ItemsOf(results), seen, k);
      ItemsFrom(results, item);
      var r :| r in results && item.partition in r.partitions;
      var i :| 0 <= i < |results| && results[i] == r;
      var all :| Enumerates(nodes[r.node], all) && NodePartitions(r.node, all, grouping, r.profile, r.partitions);
      IndexHasNoLists(nodes, raws, indexRules, r.node, all);
      NodeNumaDevices(r.node, all, grouping, r.profile, r.partitions, item.partition);
    }
    OnlyEverywhere(seen, members, NumaPartition, st, counts, driver);
  }
}
