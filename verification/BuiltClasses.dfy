/** The partitions that the builder makes satisfy what garbage collection needs, so a sync of built
    partitions never deletes a class that it has just published. */
module BuiltClasses {
  import opened Collections
  import opened Text
  import opened Topology
  import opened TopologyIndex
  import opened CounterGroups
  import opened Refinement
  import opened NumaGroups
  import opened PartitionBuilder
  import opened ClassKeys
  import opened ClusterPartitions
  import opened DeviceClasses

  lemma PcieNamed(node: string, profile: string, e: seq<TopologyDevice>, p: Partition)
    requires p in PciePartitionsOf(node, profile, e, SortedStrings(PcieRootsOf(e)))
    ensures RootNamed(p)
  {
    hide PciePartitionFrom, SortedStrings;
    var roots := SortedStrings(PcieRootsOf(e));
    var i :| 0 <= i < |roots| && p == PciePartitionFrom(node, profile, i, roots[i], e);
    assert roots[i] in roots;
    BuiltRootsNamed(node, profile, i, roots[i], e);
  }

  lemma NumaTyped(node: string, profile: string, valid: Groups, rules: seq<TopologyRule>, ps: seq<Partition>,
                  p: Partition)
    requires NumaPartitions(node, profile, valid, rules, ps) && p in ps
    ensures p.partType.NumaPartition?
  {
    hide SplitsAll, SortedStrings, FirstCapacity, FirstExtended, Tally, Effective, SortedInts;
  }

  lemma FullTyped(name: string, profile: string, devices: seq<TopologyDevice>)
    ensures PartitionFrom(name, profile, FullPartition, devices).partType.FullPartition?
  {
  }

  lemma NodeNamed(node: string, all: seq<TopologyDevice>, rules: seq<TopologyRule>, profile: string,
                  ps: seq<Partition>, p: Partition)
    requires NodePartitions(node, all, rules, profile, ps) && p in ps
    ensures RootNamed(p)
  {
    hide NumaPartitions, PciePartitionsOf, PartitionFrom, SortedStrings, Effective, Tally, InferProfile, PcieRootsOf;
    hide NumaGroupsOf;
    var e := Effective(all);
    var numa :|
      && NumaPartitions(node, profile, NumaGroupsOf(e), rules, numa)
      && ps == PciePartitionsOf(node, profile, e, SortedStrings(PcieRootsOf(e))) + numa +
               [PartitionFrom(node + "-full-0", profile, FullPartition, e)];
    if p in PciePartitionsOf(node, profile, e, SortedStrings(PcieRootsOf(e))) {
      PcieNamed(node, profile, e, p);
    } else if p in numa {
      NumaTyped(node, profile, NumaGroupsOf(e), rules, numa, p);
    } else {
      FullTyped(node + "-full-0", profile, e);
    }
  }

  lemma {:induction false} ItemsFrom(results: seq<PartitionResult>, item: Item)
    requires item in ItemsOf(results)
    ensures exists r :: r in results && item.partition in r.partitions
  {
    if results != [] {
      var init, last := results[..|results| - 1], results[|results| - 1];
      if item in ItemsOf(init) {
        ItemsFrom(init, item);
        var r :| r in init && item.partition in r.partitions;
        assert r in results;
      } else {
        assert last in results;
      }
    }
  }

  /** Every partition of every node has a key that its labels give back. */
  lemma BuiltItemsNamed(nodes: Nodes, rules: seq<TopologyRule>, results: seq<PartitionResult>)
    requires Builds(nodes, nodes.Keys, rules, results)
    ensures RootsNamed(ItemsOf(results))
  {
    hide NodePartitions, ItemsOf, RootNamed;
    forall item | item in ItemsOf(results) ensures RootNamed(item.partition) {
      ItemsFrom(results, item);
      var r :| r in results && item.partition in r.partitions;
      var i :| 0 <= i < |results| && results[i] == r;
      assert BuiltFrom(nodes[r.node], rules, r);
      var all :| NodePartitions(r.node, all, rules, r.profile, r.partitions);
      NodeNamed(r.node, all, rules, r.profile, r.partitions, item.partition);
    }
  }
}
