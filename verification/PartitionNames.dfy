/** The partitions of a node have different names. */
module PartitionNames {
  import opened Collections
  import opened Text
  import opened Topology
  import opened CounterGroups
  import opened Refinement
  import opened NumaGroups
  import opened PartitionBuilder
  import opened GroupingBuilder

  function Numbered(base: string, i: nat): string {
    base + Decimal(i)
  }

  lemma NumberedApart(base: string, i: nat, j: nat)
    ensures Numbered(base, i) == Numbered(base, j) <==> i == j
  {
    if Numbered(base, i) == Numbered(base, j) {
      assert Numbered(base, i)[|base|..] == Decimal(i) && Numbered(base, j)[|base|..] == Decimal(j);
      DecimalInjective(i, j);
    }
  }

  /** The three kinds of names differ after the node's name. */
  lemma KindsApart(node: string, i: nat, j: nat)
    ensures Numbered(node + "-pcieRoot-", i) != Numbered(node + "-numa-", j)
    ensures Numbered(node + "-pcieRoot-", i) != node + "-full-0" && Numbered(node + "-numa-", j) != node + "-full-0"
  {
    hide Decimal;
    var n := |node| + 1;
    assert Numbered(node + "-pcieRoot-", i)[n] == 'p' && Numbered(node + "-numa-", j)[n] == 'n';
    assert (node + "-full-0")[n] == 'f';
  }

  lemma {:induction false} EnrichKeepsName(p: Partition, devices: seq<TopologyDevice>, roots: int)
    ensures Enrich(p, devices, roots).name == p.name
  {
    if devices != [] { EnrichKeepsName(p, devices[..|devices| - 1], roots); }
  }

  lemma PcieName(node: string, profile: string, i: nat, root: string, devices: seq<TopologyDevice>)
    ensures PciePartitionFrom(node, profile, i, root, devices).name == Numbered(node + "-pcieRoot-", i)
  {
    hide Enrich, ParentNuma, RootsOn, Effective, Tally, OnRoot, OnNuma;
    var own := OnRoot(devices, root);
    EnrichKeepsName(PartitionFrom(node + "-pcieRoot-" + Decimal(i), profile, PcieRootPartition, own),
      OnNuma(devices, ParentNuma(own)), |RootsOn(devices, ParentNuma(own))|);
  }

  lemma NumaName(node: string, profile: string, i: nat, devices: seq<TopologyDevice>)
    ensures NumaPartitionFrom(node, profile, i, devices).name == Numbered(node + "-numa-", i)
  {
    hide Effective, Tally, FirstCapacity;
  }

  ghost predicate NamesNumbered(ps: seq<Partition>, base: string) {
    forall i :: 0 <= i < |ps| ==> ps[i].name == Numbered(base, i)
  }

  lemma PcieNames(node: string, profile: string, devices: seq<TopologyDevice>, roots: seq<string>)
    ensures NamesNumbered(PciePartitionsOf(node, profile, devices, roots), node + "-pcieRoot-")
  {
    hide PciePartitionFrom, Numbered;
    forall i | 0 <= i < |roots|
      ensures PciePartitionFrom(node, profile, i, roots[i], devices).name == Numbered(node + "-pcieRoot-", i) {
      PcieName(node, profile, i, roots[i], devices);
    }
  }

  lemma NumaNames(node: string, profile: string, valid: Groups, rules: seq<TopologyRule>, ps: seq<Partition>)
    requires NumaPartitions(node, profile, valid, rules, ps)
    ensures NamesNumbered(ps, node + "-numa-")
  {
    hide NumaPartitionFrom, Numbered, SplitsAll, SortedStrings;
    if |valid| > 1 {
      var final :| SplitsAll(valid, rules, final) &&
        ps == NumaPartitionsOf(node, profile, final, SortedStrings(final.Keys));
      var keys := SortedStrings(final.Keys);
      forall i | 0 <= i < |keys|
        ensures NumaPartitionFrom(node, profile, i, final[keys[i]]).name == Numbered(node + "-numa-", i) {
        assert keys[i] in keys;
        NumaName(node, profile, i, final[keys[i]]);
      }
    }
  }

  /** All partitions of one node have different names. */
  lemma PartitionNamesApart(node: string, all: seq<TopologyDevice>, rules: seq<TopologyRule>, profile: string,
                            ps: seq<Partition>, i: nat, j: nat)
    requires NodePartitions(node, all, rules, profile, ps) && i < j < |ps|
    ensures ps[i].name != ps[j].name
  {
    hide Effective, NumaPartitions, PciePartitionsOf, Tally, InferProfile, Numbered, PcieRootsOf, SortedStrings;
    var e := Effective(all);
    var pcie := PciePartitionsOf(node, profile, e, SortedStrings(PcieRootsOf(e)));
    var full := PartitionFrom(node + "-full-0", profile, FullPartition, e);
    var numa :| NumaPartitions(node, profile, NumaGroupsOf(e), rules, numa) && ps == pcie + numa + [full];
    PcieNames(node, profile, e, SortedStrings(PcieRootsOf(e)));
    NumaNames(node, profile, NumaGroupsOf(e), rules, numa);
    FullName(node, profile, e);
    NamedApart(node, pcie, numa, full, i, j);
  }

  lemma FullName(node: string, profile: string, e: seq<TopologyDevice>)
    ensures PartitionFrom(node + "-full-0", profile, FullPartition, e).name == node + "-full-0"
  {
  }

  lemma NamedApart(node: string, pcie: seq<Partition>, numa: seq<Partition>, full: Partition, i: nat, j: nat)
    requires NamesNumbered(pcie, node + "-pcieRoot-") && NamesNumbered(numa, node + "-numa-")
    requires full.name == node + "-full-0" && i < j < |pcie + numa + [full]|
    ensures (pcie + numa + [full])[i].name != (pcie + numa + [full])[j].name
  {
    hide Numbered;
    var a, b := |pcie|, |pcie| + |numa|;
    if j < a {
      NumberedApart(node + "-pcieRoot-", i, j);
    } else if j < b {
      if i < a { KindsApart(node, i, j - a); } else { NumberedApart(node + "-numa-", i - a, j - a); }
    } else {
      if i < a { KindsApart(node, i, 0); } else { KindsApart(node, 0, i - a); }
    }
  }

  /** So do the instances of one pass. */
  lemma InstanceNamesApart(node: string, grouping: DeviceGrouping, alignment: Alignment, classOf: string -> string,
                           plan: seq<seq<TopologyDevice>>, i: nat, j: nat)
    requires i < j < |plan|
    ensures var all := InstancesFrom(node, grouping, alignment, classOf, plan); all[i].name != all[j].name
  {
    hide ClassTally, CapacityOf, Decimal;
    var base := node + "-" + grouping.name + "-" + AlignmentName(alignment) + "-";
    NumberedApart(base, i, j);
  }
}
