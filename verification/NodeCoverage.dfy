/** No device is left out: every effective device of a node is in the partitions that its place calls for, and every
    partition of every node has a key. */
module NodeCoverage {
  import opened Collections
  import opened Text
  import opened Topology
  import opened CounterGroups
  import opened Refinement
  import opened NumaGroups
  import opened PartitionBuilder
  import opened RootShares
  import opened RootMembers
  import opened ClusterPartitions
  import opened GroupingBuilder
  import opened GroupingClasses
  import opened PartitionConfigs
  import opened ClassKeys
  import opened DeviceClasses
  import opened Aggregates
  import opened NumaKeys

  // ---------------------------------------------------------------------
  // Per node
  // ---------------------------------------------------------------------

  lemma PcieIsTyped(node: string, profile: string, i: nat, root: string, e: seq<TopologyDevice>)
    ensures PciePartitionFrom(node, profile, i, root, e).partType.PcieRootPartition?
  {
    hide Enrich, ParentNuma, RootsOn, Effective, Tally, OnRoot, OnNuma;
    var own := OnRoot(e, root);
    EnrichKeepsPcie(PartitionFrom(node + "-pcieRoot-" + Decimal(i), profile, PcieRootPartition, own),
      OnNuma(e, ParentNuma(own)), |RootsOn(e, ParentNuma(own))|);
  }

  lemma {:induction false} EnrichKeepsPcie(p: Partition, devices: seq<TopologyDevice>, roots: int)
    ensures Enrich(p, devices, roots).partType == p.partType
  {
    if devices != [] { EnrichKeepsPcie(p, devices[..|devices| - 1], roots); }
  }

  /** A partition of the type with the device in it. */
  predicate HeldBy(ps: seq<Partition>, t: PartitionType, d: TopologyDevice) {
    exists p :: p in ps && p.partType == t && d in p.devices
  }

  lemma RootHeld(node: string, profile: string, e: seq<TopologyDevice>, d: TopologyDevice)
    requires d in e && d.pcieRoot.Some? && d.pcieRoot.value != ""
    ensures HeldBy(PciePartitionsOf(node, profile, e, SortedStrings(PcieRootsOf(e))), PcieRootPartition, d)
  {
    hide PciePartitionFrom, SortedStrings, LentTo;
    var root, roots := d.pcieRoot.value, SortedStrings(PcieRootsOf(e));
    assert PcieKey(d) == root;
    assert root in PcieRootsOf(e);
    var i :| 0 <= i < |roots| && roots[i] == root;
    var p := PciePartitionFrom(node, profile, i, root, e);
    PcieIsTyped(node, profile, i, root, e);
    RootDevicesIff(node, profile, i, root, e, d);
    assert PciePartitionsOf(node, profile, e, roots)[i] == p;
  }

  lemma NumaHeld(node: string, profile: string, e: seq<TopologyDevice>, rules: seq<TopologyRule>, numa: seq<Partition>,
                 d: TopologyDevice)
    requires NumaPartitions(node, profile, NumaGroupsOf(e), rules, numa) && |NumaGroupsOf(e)| >= 2
    requires d in e && HasNuma(d) && AllPlain(Filter(e, HasNuma), Earlier(rules))
    ensures HeldBy(numa, NumaPartition, d)
  {
    hide NumaPartitionFrom, SortedStrings, SplitsAll, NumaGroupsOf, IsPartition, Separated, AllPlain, Filter;
    var final :| SplitsAll(NumaGroupsOf(e), rules, final) &&
      numa == NumaPartitionsOf(node, profile, final, SortedStrings(final.Keys));
    NumaSplitExact(e);
    SplitSound(NumaGroupsOf(e), Filter(e, HasNuma), rules, final);
    FilterMembers(e, HasNuma);
    CoversPlaced(final, Filter(e, HasNuma), d);
    var k :| Sits(final, d, k);
    var keys := SortedStrings(final.Keys);
    assert k in keys;
    var i :| 0 <= i < |keys| && keys[i] == k;
    NumaDevices(node, profile, i, final[k]);
    assert numa[i] in numa;
  }

  lemma CoversPlaced(final: Groups, devices: seq<TopologyDevice>, d: TopologyDevice)
    requires IsPartition(final, devices) && d in devices
    ensures exists k :: Sits(final, d, k)
  {
  }

  lemma NumaDevices(node: string, profile: string, i: nat, devices: seq<TopologyDevice>)
    ensures NumaPartitionFrom(node, profile, i, devices).devices == devices
    ensures NumaPartitionFrom(node, profile, i, devices).partType.NumaPartition?
  {
    hide Effective, Tally, FirstCapacity;
  }

  lemma FullDevices(name: string, profile: string, e: seq<TopologyDevice>)
    ensures PartitionFrom(name, profile, FullPartition, e).devices == e
    ensures PartitionFrom(name, profile, FullPartition, e).partType.FullPartition?
  {
    hide Effective, Tally;
  }

  /** Every effective device is in the full partition; in a PCIe root partition if it has a named root; and in a NUMA
      partition if it has a NUMA node, the node has several, and the rules before the last have dash-free values. */
  lemma DevicesHeld(node: string, all: seq<TopologyDevice>, rules: seq<TopologyRule>, profile: string,
                    ps: seq<Partition>, d: TopologyDevice)
    requires NodePartitions(node, all, rules, profile, ps) && d in Effective(all)
    ensures HeldBy(ps, FullPartition, d)
    ensures d.pcieRoot.Some? && d.pcieRoot.value != "" ==> HeldBy(ps, PcieRootPartition, d)
    ensures var placed := Filter(Effective(all), HasNuma);
      HasNuma(d) && |NumaSet(Effective(all))| >= 2 && AllPlain(placed, Earlier(rules)) ==> HeldBy(ps, NumaPartition, d)
  {
    hide Effective, NumaPartitions, PciePartitionsOf, Tally, InferProfile, PcieRootsOf, SortedStrings, Filter;
    hide NumaGroupsOf;
    hide PartitionFrom, NumaSet, AllPlain;
    var e := Effective(all);
    var pcie := PciePartitionsOf(node, profile, e, SortedStrings(PcieRootsOf(e)));
    var full := PartitionFrom(node + "-full-0", profile, FullPartition, e);
    var numa :| NumaPartitions(node, profile, NumaGroupsOf(e), rules, numa) && ps == pcie + numa + [full];
    FullDevices(node + "-full-0", profile, e);
    assert full in ps;
    if d.pcieRoot.Some? && d.pcieRoot.value != "" {
      RootHeld(node, profile, e, d);
      var p :| p in pcie && p.partType == PcieRootPartition && d in p.devices;
      assert p in ps;
    }
    if HasNuma(d) && |NumaSet(e)| >= 2 && AllPlain(Filter(e, HasNuma), Earlier(rules)) {
      NumaKeyCount(e);
      NumaHeld(node, profile, e, rules, numa, d);
      var p :| p in numa && p.partType == NumaPartition && d in p.devices;
      assert p in ps;
    }
  }

  /** A node whose devices are on fewer than two NUMA nodes has no NUMA partition. */
  lemma OneNodeNoNuma(node: string, all: seq<TopologyDevice>, rules: seq<TopologyRule>, profile: string,
                      ps: seq<Partition>, p: Partition)
    requires NodePartitions(node, all, rules, profile, ps) && |NumaSet(Effective(all))| < 2 && p in ps
    ensures !p.partType.NumaPartition?
  {
    hide Effective, Tally, InferProfile, PcieRootsOf, SortedStrings, NumaGroupsOf, PartitionFrom, NumaSet;
    hide PciePartitionFrom;
    var e := Effective(all);
    var roots := SortedStrings(PcieRootsOf(e));
    var full := PartitionFrom(node + "-full-0", profile, FullPartition, e);
    NumaKeyCount(e);
    FullDevices(node + "-full-0", profile, e);
    var pcie := PciePartitionsOf(node, profile, e, roots);
    assert ps == pcie + [] + [full];
    if p in pcie {
      var i :| 0 <= i < |roots| && p == PciePartitionFrom(node, profile, i, roots[i], e);
      PcieIsTyped(node, profile, i, roots[i], e);
    }
  }

  // ---------------------------------------------------------------------
  // Over all nodes
  // ---------------------------------------------------------------------

  lemma {:induction false} ItemsIff(results: seq<PartitionResult>, profile: string, p: Partition)
    ensures Item(profile, p) in ItemsOf(results) <==>
      exists r :: r in results && r.profile == profile && p in r.partitions
  {
    if results != [] {
      var init, last := results[..|results| - 1], results[|results| - 1];
      assert results == init + [last];
      ItemsIff(init, profile, p);
      if p in last.partitions && last.profile == profile {
        var j :| 0 <= j < |last.partitions| && last.partitions[j] == p;
        assert ItemsIn(last)[j] == Item(profile, p);
      }
    }
  }

  /** Every partition of every node has an entry under its key, and the entry counts the partitions with that key. */
  lemma PartitionSeen(naming: Naming, rules: seq<TopologyRule>, results: seq<PartitionResult>, seen: Seen,
                      r: PartitionResult, p: Partition)
    requires SeenFor(naming, rules, ItemsOf(results), seen) && r in results && p in r.partitions
    ensures var k := PartitionKey(naming.truncate(r.profile), p, CouplingOf(p, rules));
      k in seen && seen[k].count == |Filter(ItemsOf(results), KeyIs(ItemKey(naming, rules), k))| >= 1
  {
    hide PartitionKey, CouplingOf, Filter, ItemsOf;
    ItemsIff(results, r.profile, p);
    var item := Item(r.profile, p);
    assert ItemKey(naming, rules)(item) in KeySet(ItemsOf(results), ItemKey(naming, rules));
  }

  lemma {:induction false} InstancesIff(results: seq<GroupingResult>, inst: GroupingInstance)
    ensures inst in InstancesOf(results) <==> exists r :: r in results && inst in r.instances
  {
    if results != [] {
      var init, last := results[..|results| - 1], results[|results| - 1];
      assert results == init + [last];
      InstancesIff(init, inst);
    }
  }

  /** Every instance of every node has a representative under its key, of its own grouping's key. */
  lemma InstanceSeen(truncate: string -> string, results: seq<GroupingResult>, seen: SeenInstances, r: GroupingResult,
                     inst: GroupingInstance)
    requires FirstPerKey(truncate, InstancesOf(results), seen) && r in results && inst in r.instances
    ensures var k := GroupingKey(truncate, inst); k in seen && GroupingKey(truncate, seen[k]) == k
  {
    hide GroupingKey, Filter, InstancesOf;
    InstancesIff(results, inst);
    var key, k := InstanceKey(truncate), GroupingKey(truncate, inst);
    assert key(inst) == k && k in KeySet(InstancesOf(results), key);
    var same := Filter(InstancesOf(results), KeyIs(key, k));
    FilterMembers(InstancesOf(results), KeyIs(key, k));
    assert same[0] in same;
  }

  // ---------------------------------------------------------------------
  // Sanitized names
  // ---------------------------------------------------------------------

  predicate IsSeparator(c: char) {
    c == '/' || c == '.' || c == ':' || c == '-'
  }

  /** Equal but for the case of a letter, or both separators. */
  predicate SameSafe(c: char, d: char) {
    c == d || (IsSeparator(c) && IsSeparator(d)) || ('A' <= c <= 'Z' && d as int == c as int + 32)
    || ('A' <= d <= 'Z' && c as int == d as int + 32)
  }

  /** Sanitizing identifies texts of one length that differ in separators and in the case of letters only. */
  lemma SanitizedIff(a: string, b: string)
    ensures SanitizeForName(a) == SanitizeForName(b) <==>
      |a| == |b| && forall i :: 0 <= i < |a| ==> SameSafe(a[i], b[i])
  {
    forall c, d ensures SafeChar(c) == SafeChar(d) <==> SameSafe(c, d) {}
    if SanitizeForName(a) == SanitizeForName(b) {
      forall i | 0 <= i < |a| ensures SameSafe(a[i], b[i]) {
        assert SanitizeForName(a)[i] == SanitizeForName(b)[i];
      }
    }
  }
}
