/** Keys and names of NUMA partitions: partitions on different NUMA nodes get different classes. */
module NumaKeys {
  import opened Collections
  import opened Text
  import opened Topology
  import opened CounterGroups
  import opened Refinement
  import opened NumaGroups
  import opened PartitionBuilder
  import opened Joining
  import opened PartitionConfigs
  import opened Aggregates
  import opened ClassKeys
  import opened Tiers
  import opened ClusterPartitions
  import opened DeviceClasses
  import opened AggregateCounts
  import opened BuiltClasses
  import opened NodeTiers
  import opened RootKeysApart
  import opened RailNames

  // ---------------------------------------------------------------------
  // The suffix
  // ---------------------------------------------------------------------

  lemma {:induction false} TailJoins(first: int, rest: seq<int>)
    ensures JoinWith(Decimals([first] + rest), "-") == Decimal(first) + DashedTail(rest)
  {
    hide Decimal;
    var all := Decimals([first] + rest);
    if rest == [] {
      assert all == [Decimal(first)];
    } else {
      var init, last := rest[..|rest| - 1], rest[|rest| - 1];
      TailJoins(first, init);
      JoinStep(all, '-');
      assert all[..|all| - 1] == Decimals([first] + init);
      assert all[|all| - 1] == Decimal(last);
    }
  }

  /** The suffix of a non-empty list is "-numa" and the joined numbers. */
  lemma SuffixJoins(numas: seq<int>)
    requires numas != []
    ensures NumaKeySuffix(numas) == "-numa" + JoinWith(Decimals(numas), "-")
  {
    hide Decimal, JoinWith;
    TailJoins(numas[0], numas[1..]);
    assert numas == [numas[0]] + numas[1..];
    assert "-numa" + Decimal(numas[0]) + DashedTail(numas[1..]) ==
      "-numa" + (Decimal(numas[0]) + DashedTail(numas[1..]));
  }

  /** Lists of node numbers have one suffix if and only if they are equal. */
  lemma SuffixIff(a: seq<int>, b: seq<int>)
    requires NonNegative(a) && NonNegative(b)
    ensures NumaKeySuffix(a) == NumaKeySuffix(b) <==> a == b
  {
    hide JoinWith;
    NoNumaPart();
    if a != [] { SuffixJoins(a); }
    if b != [] { SuffixJoins(b); }
    if a != [] && b != [] {
      JoinedNodesIff(a, b);
      CancelIff("-numa", JoinWith(Decimals(a), "-"), JoinWith(Decimals(b), "-"));
    }
  }

  lemma CancelIff(head: string, x: string, y: string)
    ensures head + x == head + y <==> x == y
  {
    if head + x == head + y { CancelHead(head, x, y); }
  }

  // ---------------------------------------------------------------------
  // Keys
  // ---------------------------------------------------------------------

  /** What a NUMA part and a coupling join to can be read back. */
  lemma NumaAndCoupling(a: seq<int>, c: Coupling, b: seq<int>, d: Coupling)
    requires a != [] && b != []
    requires NumaKeySuffix(a) + DashIf(CouplingName(c)) == NumaKeySuffix(b) + DashIf(CouplingName(d))
    ensures NumaKeySuffix(a) == NumaKeySuffix(b) && c == d
  {
    hide NumaKeySuffix;
    NumaPartShape(a);
    NumaPartShape(b);
    CouplingTexts();
    var m, n := NumaKeySuffix(a), NumaKeySuffix(b);
    var x, y := DashIf(CouplingName(c)), DashIf(CouplingName(d));
    var s := m + x;
    assert |s| == |n + y|;
    assert c != NoCoupling ==> s[|s| - 1] == x[5];
    assert d != NoCoupling ==> s[|s| - 1] == y[5];
    assert c == NoCoupling ==> s[|s| - 1] == m[|m| - 1] && (|m| > 5 ==> m[|m| - 1] == m[5..][|m| - 6]);
    assert d == NoCoupling ==> s[|s| - 1] == n[|n| - 1] && (|n| > 5 ==> n[|n| - 1] == n[5..][|n| - 6]);
    SuffixLonger(a);
    SuffixLonger(b);
    assert c == d;
    assert m == s[..|m|] && n == s[..|n|];
  }

  lemma CouplingTexts()
    ensures DashIf(CouplingName(Tight)) == "-tight" && DashIf(CouplingName(Loose)) == "-loose"
    ensures DashIf(CouplingName(NoCoupling)) == "" && "-tight"[5] == 't' && "-loose"[5] == 'e'
  {
  }

  lemma SuffixLonger(numas: seq<int>)
    requires numas != []
    ensures |NumaKeySuffix(numas)| > 5
  {
  }

  lemma NumaKeyForm(naming: Naming, rules: seq<TopologyRule>, item: Item)
    requires item.partition.partType.NumaPartition? && item.partition.numaNodes != []
    ensures KeyOf(naming, rules, item) == naming.truncate(item.profile) + "-numa" +
      (NumaKeySuffix(item.partition.numaNodes) + DashIf(CouplingName(CouplingOf(item.partition, rules))))
  {
    hide CouplingOf, NumaKeySuffix, CouplingName, DashIf;
    var head, n, c := naming.truncate(item.profile) + "-numa", NumaKeySuffix(item.partition.numaNodes),
      DashIf(CouplingName(CouplingOf(item.partition, rules)));
    assert Suffix(item.partition.partType, item.partition) == n;
    assert head + n + c == head + (n + c);
  }

  /** NUMA partitions of one profile share a key if and only if they have the same NUMA nodes and coupling. */
  lemma NumaKeysIff(naming: Naming, rules: seq<TopologyRule>, a: Item, b: Item)
    requires a.partition.partType.NumaPartition? && b.partition.partType.NumaPartition? && a.profile == b.profile
    requires a.partition.numaNodes != [] && b.partition.numaNodes != []
    requires NonNegative(a.partition.numaNodes) && NonNegative(b.partition.numaNodes)
    ensures KeyOf(naming, rules, a) == KeyOf(naming, rules, b) <==>
      a.partition.numaNodes == b.partition.numaNodes && CouplingOf(a.partition, rules) == CouplingOf(b.partition, rules)
  {
    hide KeyOf, CouplingOf, NumaKeySuffix, CouplingName, DashIf;
    NumaKeyForm(naming, rules, a);
    NumaKeyForm(naming, rules, b);
    var c, d, m, n := CouplingOf(a.partition, rules), CouplingOf(b.partition, rules), a.partition.numaNodes,
      b.partition.numaNodes;
    CancelIff(naming.truncate(a.profile) + "-numa", NumaKeySuffix(m) + DashIf(CouplingName(c)),
      NumaKeySuffix(n) + DashIf(CouplingName(d)));
    SuffixIff(m, n);
    if NumaKeySuffix(m) + DashIf(CouplingName(c)) == NumaKeySuffix(n) + DashIf(CouplingName(d)) {
      NumaAndCoupling(m, c, n, d);
    }
  }

  // ---------------------------------------------------------------------
  // Entries and names
  // ---------------------------------------------------------------------

  /** The NUMA partitions are on different NUMA nodes. */
  ghost predicate NumaApart(items: seq<Item>) {
    var numa := Filter(items, TypeIs(NumaPartition));
    && (forall x :: x in numa ==> x.partition.numaNodes != [] && NonNegative(x.partition.numaNodes))
    && forall i, j :: 0 <= i < j < |numa| ==> numa[i].partition.numaNodes != numa[j].partition.numaNodes
  }

  /** Then there are as many NUMA entries as NUMA partitions. */
  lemma NumaEntries(naming: Naming, rules: seq<TopologyRule>, items: seq<Item>, seen: Seen, profile: string)
    requires SeenFor(naming, rules, items, seen) && (forall x :: x in items ==> x.profile == profile)
    requires NumaApart(items)
    ensures |TypeEntries(seen, NumaPartition)| == |Filter(items, TypeIs(NumaPartition))|
  {
    hide SeenFor, Filter, KeyOf, TypeEntries, CouplingOf;
    var numa, keys := Filter(items, TypeIs(NumaPartition)), TypeKeys(naming, rules, items, NumaPartition);
    FilterMembers(items, TypeIs(NumaPartition));
    forall i, j | 0 <= i < j < |keys| ensures keys[i] != keys[j] {
      assert numa[i] in numa && numa[j] in numa;
      NumaKeysIff(naming, rules, numa[i], numa[j]);
    }
    EntryCountIff(naming, rules, items, seen, profile, NumaPartition);
  }

  /** And they are published under as many names. */
  lemma NumaNamesApart(naming: Naming, rules: seq<TopologyRule>, items: seq<Item>, seen: Seen, profile: string,
                       rails: map<string, nat>, j: string, k: string)
    requires SeenFor(naming, rules, items, seen) && forall x :: x in items ==> x.profile == profile
    requires j in TypeEntries(seen, NumaPartition) && k in TypeEntries(seen, NumaPartition) && j != k
    ensures EntryName(naming, j, seen[j], rails) != EntryName(naming, k, seen[k], rails)
  {
    hide SeenFor, KeyOf, BaseName;
    var a := EntryItem(naming, rules, items, seen, j);
    var b := EntryItem(naming, rules, items, seen, k);
    if BaseName(naming, seen[j]) == BaseName(naming, seen[k]) { BaseNamesApart(naming, rules, a, b, seen[j], seen[k]); }
  }

  // ---------------------------------------------------------------------
  // A node
  // ---------------------------------------------------------------------

  /** A group of one NUMA node makes a partition that knows exactly this node. */
  lemma OneNumaNode(name: string, profile: string, devices: seq<TopologyDevice>, n: int)
    requires devices != [] && forall d :: d in devices ==> d.numaNode == Some(n)
    ensures PartitionFrom(name, profile, NumaPartition, devices).numaNodes == [n]
  {
    hide SortedStrings, Tally, Effective, FirstExtended;
    assert devices[0] in devices;
    assert NumaSet(devices) == {n};
    var r := SortedInts({n});
    assert |r| == 1 && r[0] in r;
  }

  /** The node number of a NUMA group. */
  lemma GroupNode(e: seq<TopologyDevice>, k: string) returns (n: int)
    requires k in NumaGroupsOf(e)
    ensures k == Decimal(n) && NumaGroupsOf(e)[k] != [] && forall d :: d in NumaGroupsOf(e)[k] ==> d.numaNode == Some(n)
  {
    hide NumaGroupsOf, Decimal;
    NumaGroupFacts(e, k);
    n :| k == Decimal(n);
    forall d | d in NumaGroupsOf(e)[k] ensures d.numaNode == Some(n) { DecimalInjective(d.numaNode.value, n); }
  }

  /** Without grouping rules, a node with at least two non-negative NUMA nodes gets one NUMA entry per NUMA node. */
  lemma NodeNumaEntries(naming: Naming, matching: seq<TopologyRule>, node: string, all: seq<TopologyDevice>,
                        profile: string,
                        ps: seq<Partition>, seen: Seen)
    requires NodePartitions(node, all, [], profile, ps)
    requires SeenFor(naming, matching, ItemsOf([PartitionResult(node, profile, ps)]), seen)
    requires |NumaSet(Effective(all))| >= 2 && forall n :: n in NumaSet(Effective(all)) ==> n >= 0
    ensures |TypeEntries(seen, NumaPartition)| == |NumaSet(Effective(all))|
  {
    hide NodePartitions, SeenFor, Effective, Filter, ItemsOf, TypeEntries, NumaSet, NumaApart;
    OneProfileItems(node, profile, ps);
    NodeNumaApart(node, all, profile, ps);
    NumaEntries(naming, matching, ItemsOf([PartitionResult(node, profile, ps)]), seen, profile);
  }

  /** The partition of a group knows exactly the node that the group's key renders. */
  lemma GroupItemNode(node: string, profile: string, i: nat, e: seq<TopologyDevice>, k: string, item: Item)
    requires k in NumaGroupsOf(e) && MadeOf(node, profile, i, NumaGroupsOf(e)[k], item)
    ensures |item.partition.numaNodes| == 1 && item.partition.numaNodes[0] in NumaSet(e)
    ensures Decimal(item.partition.numaNodes[0]) == k
  {
    hide NumaGroupsOf, NumaSet, Decimal, PartitionFrom;
    var n := GroupNode(e, k);
    OneNumaNode(node + "-numa-" + Decimal(i), profile, NumaGroupsOf(e)[k], n);
    GroupNodeCounted(e, k, n);
  }

  lemma NodeNumaApart(node: string, all: seq<TopologyDevice>, profile: string, ps: seq<Partition>)
    requires NodePartitions(node, all, [], profile, ps)
    requires |NumaSet(Effective(all))| >= 2 && forall n :: n in NumaSet(Effective(all)) ==> n >= 0
    ensures var items := ItemsOf([PartitionResult(node, profile, ps)]);
      NumaApart(items) && |Filter(items, TypeIs(NumaPartition))| == |NumaSet(Effective(all))|
  {
    hide NodePartitions, Effective, Filter, ItemsOf, NumaSet, NumaGroupsOf, Decimal, MadeOf, SortedStrings;
    var e := Effective(all);
    var numa := NumaItems(node, all, profile, ps);
    var keys := SortedStrings(NumaGroupsOf(e).Keys);
    ListDistinct(keys, NumaGroupsOf(e).Keys);
    NumaKeyCount(e);
    forall i | 0 <= i < |numa|
      ensures |numa[i].partition.numaNodes| == 1 && numa[i].partition.numaNodes[0] in NumaSet(e)
      ensures Decimal(numa[i].partition.numaNodes[0]) == keys[i]
    {
      assert keys[i] in keys;
      GroupItemNode(node, profile, i, e, keys[i], numa[i]);
    }
    forall x | x in numa ensures x.partition.numaNodes != [] && NonNegative(x.partition.numaNodes) {
      var i :| 0 <= i < |numa| && numa[i] == x;
    }
  }

  lemma OneProfileItems(node: string, profile: string, ps: seq<Partition>)
    ensures forall x :: x in ItemsOf([PartitionResult(node, profile, ps)]) ==> x.profile == profile
  {
    OneNode(node, profile, ps);
  }

  lemma GroupNodeCounted(e: seq<TopologyDevice>, k: string, n: int)
    requires k in NumaGroupsOf(e) && NumaGroupsOf(e)[k] != [] && forall d :: d in NumaGroupsOf(e)[k] ==>
      d.numaNode == Some(n)
    ensures n in NumaSet(e)
  {
    hide NumaGroupsOf;
    NumaGroupFacts(e, k);
    var d := NumaGroupsOf(e)[k][0];
    assert d in NumaGroupsOf(e)[k];
  }

  function Renders(ns: set<int>): set<string> {
    set n | n in ns :: Decimal(n)
  }

  lemma RendersSize(ns: set<int>)
    ensures |Renders(ns)| == |ns|
  {
    hide Decimal;
    forall m: int, n: int | Decimal(m) == Decimal(n) ensures m == n { DecimalInjective(m, n); }
    ImageSize(ns, (n: int) => Decimal(n));
    assert Renders(ns) == Image(ns, (n: int) => Decimal(n));
  }

  /** There is one NUMA group per NUMA node. */
  lemma NumaKeyCount(e: seq<TopologyDevice>)
    ensures |NumaGroupsOf(e)| == |NumaSet(e)|
  {
    hide Decimal, NumaGroupsOf;
    forall k ensures k in NumaGroupsOf(e).Keys <==> k in Renders(NumaSet(e)) {
      if k in NumaGroupsOf(e) {
        var n := GroupNode(e, k);
        GroupNodeCounted(e, k, n);
      }
      if k in Renders(NumaSet(e)) {
        var n :| n in NumaSet(e) && k == Decimal(n);
        var d :| d in e && d.numaNode == Some(n);
        Start(e, d);
      }
    }
    assert NumaGroupsOf(e).Keys == Renders(NumaSet(e));
    RendersSize(NumaSet(e));
  }

  predicate MadeOf(node: string, profile: string, i: nat, devices: seq<TopologyDevice>, item: Item) {
    item.partition.numaNodes == PartitionFrom(node + "-numa-" + Decimal(i), profile, NumaPartition, devices).numaNodes
  }

  /** The NUMA items of a node without grouping rules, in key order. */
  lemma NumaItems(node: string, all: seq<TopologyDevice>, profile: string, ps: seq<Partition>)
    returns (items: seq<Item>)
    requires NodePartitions(node, all, [], profile, ps) && |NumaSet(Effective(all))| >= 2
    ensures items == Filter(ItemsOf([PartitionResult(node, profile, ps)]), TypeIs(NumaPartition))
    ensures var groups := NumaGroupsOf(Effective(all));
      var keys := SortedStrings(groups.Keys);
      |items| == |keys| && forall i :: 0 <= i < |items| ==> MadeOf(node, profile, i, groups[keys[i]], items[i])
  {
    hide PartitionFrom, SortedStrings, Effective, Tally, InferProfile, PcieRootsOf, NumaGroupsOf, Filter, FirstCapacity;
    hide PciePartitionsOf, Decimal, NumaSet;
    var e := Effective(all);
    var groups, roots := NumaGroupsOf(e), SortedStrings(PcieRootsOf(e));
    var keys := SortedStrings(groups.Keys);
    var pcie, full := PciePartitionsOf(node, profile, e, roots),
      PartitionFrom(node + "-full-0", profile, FullPartition, e);
    var numa :| NumaPartitions(node, profile, groups, [], numa) && ps == pcie + numa + [full];
    NumaKeyCount(e);
    assert numa == NumaPartitionsOf(node, profile, groups, keys);
    forall p | p in pcie ensures p.partType == PcieRootPartition { PcieTyped(node, profile, e, roots, p); }
    forall p | p in numa ensures p.partType == NumaPartition { NumaTyped(node, profile, groups, [], numa, p); }
    FullTyped(node + "-full-0", profile, e);
    OneNode(node, profile, ps);
    NumaMiddle(profile, pcie, numa, full);
    items := Wrap(profile, numa);
  }

  lemma NumaMiddle(profile: string, pcie: seq<Partition>, numa: seq<Partition>, full: Partition)
    requires forall p :: p in pcie ==> p.partType == PcieRootPartition
    requires forall p :: p in numa ==> p.partType == NumaPartition
    requires full.partType == FullPartition
    ensures Filter(Wrap(profile, pcie + numa + [full]), TypeIs(NumaPartition)) == Wrap(profile, numa)
  {
    hide Filter;
    var p := TypeIs(NumaPartition);
    forall x | x in Wrap(profile, pcie) ensures !p(x) {
      var i :| 0 <= i < |pcie| && x.partition == pcie[i];
      assert pcie[i] in pcie;
    }
    forall x | x in Wrap(profile, numa) ensures p(x) {
      var i :| 0 <= i < |numa| && x.partition == numa[i];
      assert numa[i] in numa;
    }
    FilterNone(Wrap(profile, pcie), p);
    FilterAll(Wrap(profile, numa), p);
    FilterNone(Wrap(profile, [full]), p);
    FilterConcat(Wrap(profile, pcie), Wrap(profile, numa), p);
    FilterConcat(Wrap(profile, pcie) + Wrap(profile, numa), Wrap(profile, [full]), p);
    assert Wrap(profile, pcie + numa + [full]) == Wrap(profile, pcie) + Wrap(profile, numa) + Wrap(profile, [full]);
  }
}
