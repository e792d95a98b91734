/** When the PCIe root partitions of a node have distinct keys.  Sanitized root names can merge; names in the
    shape of PCI addresses ("pci0000:17") stay apart. */
module RootKeysApart {
  import opened Collections
  import opened Text
  import opened Topology
  import opened CounterGroups
  import opened Refinement
  import opened NumaGroups
  import opened PartitionBuilder
  import opened PartitionConfigs
  import opened Aggregates
  import opened ClassKeys
  import opened Tiers
  import opened ClusterPartitions
  import opened DeviceClasses
  import opened AggregateCounts
  import opened BuiltClasses
  import opened NodeTiers

  // ---------------------------------------------------------------------
  // Reading a key
  // ---------------------------------------------------------------------

  predicate IsNumaChar(c: char) {
    IsDigit(c) || c == '-'
  }

  ghost predicate NumaText(s: string) {
    forall i :: 0 <= i < |s| ==> IsNumaChar(s[i])
  }

  lemma DecimalIsNumaText(n: int)
    ensures NumaText(Decimal(n))
  {
    var d := Digits(if n < 0 then -n else n);
    forall i | 0 <= i < |d| ensures IsDigit(d[i]) { assert d[i] in d; }
  }

  lemma {:induction false} TailIsNumaText(numas: seq<int>)
    ensures NumaText(DashedTail(numas))
  {
    if numas != [] {
      TailIsNumaText(numas[..|numas| - 1]);
      DecimalIsNumaText(numas[|numas| - 1]);
    }
  }

  /** "-numa" followed by digits and dashes, or nothing. */
  lemma NumaPartShape(numas: seq<int>)
    ensures var s := NumaKeySuffix(numas);
      numas != [] ==> |s| >= 5 && s[..5] == "-numa" && NumaText(s[5..])
  {
    if numas != [] {
      DecimalIsNumaText(numas[0]);
      TailIsNumaText(numas[1..]);
      var tail := Decimal(numas[0]) + DashedTail(numas[1..]);
      assert NumaKeySuffix(numas) == "-numa" + tail;
    }
  }

  /** Two texts that start with digits and dashes and go on with a letter break at the same place. */
  lemma SameBreak(a: string, x: string, b: string, y: string)
    requires NumaText(a) && NumaText(b) && x != "" && y != "" && x[0] == 'p' && y[0] == 'p' && a + x == b + y
    ensures |a| == |b|
  {
    assert (a + x)[|a|] == 'p' && (b + y)[|b|] == 'p';
  }

  /** The part of a root key behind the NUMA part. */
  function RootPart(root: string, coupling: Coupling): string {
    SanitizeForName(root) + DashIf(CouplingName(coupling))
  }

  lemma RootPartsEqual(numas: seq<int>, x: string, numas': seq<int>, y: string)
    requires x != "" && y != "" && x[0] == 'p' && y[0] == 'p'
    requires NumaKeySuffix(numas) + "-" + x == NumaKeySuffix(numas') + "-" + y
    ensures x == y
  {
    hide NumaKeySuffix;
    NumaPartShape(numas);
    NumaPartShape(numas');
    NoNumaPart();
    var s, s' := NumaKeySuffix(numas), NumaKeySuffix(numas');
    var t, t' := s + "-" + x, s' + "-" + y;
    if numas == [] || numas' == [] {
      assert t[1] == if numas == [] then 'p' else 'n';
      assert t'[1] == if numas' == [] then 'p' else 'n';
      assert t[1..] == x && t'[1..] == y;
    } else {
      var a, b := s[5..] + "-", s'[5..] + "-";
      assert t[5..] == a + x && t'[5..] == b + y;
      SameBreak(a, x, b, y);
      assert (a + x)[|a|..] == x && (b + y)[|b|..] == y;
    }
  }

  lemma NoNumaPart()
    ensures NumaKeySuffix([]) == ""
  {
  }

  // ---------------------------------------------------------------------
  // Root partitions
  // ---------------------------------------------------------------------

  /** A root partition that knows its root. */
  predicate OnRootOnly(p: Partition, root: string) {
    p.partType.PcieRootPartition? && p.pcieRoots == [root]
  }

  lemma RootKeyForm(naming: Naming, rules: seq<TopologyRule>, item: Item, root: string)
    requires OnRootOnly(item.partition, root)
    ensures KeyOf(naming, rules, item) == naming.truncate(item.profile) + "-pcieroot" +
      (NumaKeySuffix(item.partition.numaNodes) + "-" + RootPart(root, CouplingOf(item.partition, rules)))
  {
    hide CouplingOf, NumaKeySuffix, SanitizeForName, CouplingName;
    NoNumaPart();
    var n, s, c := NumaKeySuffix(item.partition.numaNodes), SanitizeForName(root),
      DashIf(CouplingName(CouplingOf(item.partition, rules)));
    var head := naming.truncate(item.profile) + "-pcieroot";
    assert Suffix(item.partition.partType, item.partition) == n + ("-" + s);
    assert head + (n + ("-" + s)) + c == head + (n + "-" + (s + c));
  }

  /** A name in the shape of a PCI address, as long as the others. */
  predicate PciName(root: string, length: nat) {
    |root| == length > 0 && SafeChar(root[0]) == 'p'
  }

  lemma CouplingNamesApart(c: Coupling, d: Coupling)
    requires DashIf(CouplingName(c)) == DashIf(CouplingName(d))
    ensures c == d
  {
    assert "-tight"[1] == 't' && "-loose"[1] == 'l' && |"-tight"| == 6 && |"-loose"| == 6;
    assert DashIf("tight") == "-tight" && DashIf("loose") == "-loose" && DashIf("") == "";
  }

  /** Roots with PCI names of one length share a key if and only if their sanitized names, their NUMA suffixes and
      their couplings are equal. */
  lemma PciRootKeysIff(naming: Naming, rules: seq<TopologyRule>, a: Item, b: Item, x: string, y: string, length: nat)
    requires OnRootOnly(a.partition, x) && OnRootOnly(b.partition, y) && a.profile == b.profile
    requires PciName(x, length) && PciName(y, length)
    ensures KeyOf(naming, rules, a) == KeyOf(naming, rules, b) <==>
      && SanitizeForName(x) == SanitizeForName(y)
      && NumaKeySuffix(a.partition.numaNodes) == NumaKeySuffix(b.partition.numaNodes)
      && CouplingOf(a.partition, rules) == CouplingOf(b.partition, rules)
  {
    hide KeyOf, CouplingOf, NumaKeySuffix, CouplingName, DashIf;
    RootKeyForm(naming, rules, a, x);
    RootKeyForm(naming, rules, b, y);
    var head := naming.truncate(a.profile) + "-pcieroot";
    var c, d := CouplingOf(a.partition, rules), CouplingOf(b.partition, rules);
    var s, t := RootPart(x, c), RootPart(y, d);
    var m, n := NumaKeySuffix(a.partition.numaNodes), NumaKeySuffix(b.partition.numaNodes);
    var u, v := m + "-" + s, n + "-" + t;
    if KeyOf(naming, rules, a) == KeyOf(naming, rules, b) {
      assert (head + u)[|head|..] == u && (head + v)[|head|..] == v;
      RootPartsEqual(a.partition.numaNodes, s, b.partition.numaNodes, t);
      assert s[..length] == SanitizeForName(x) && t[..length] == SanitizeForName(y);
      assert s[length..] == DashIf(CouplingName(c)) && t[length..] == DashIf(CouplingName(d));
      CouplingNamesApart(c, d);
      assert u[..|m|] == m && v[..|n|] == n;
    }
  }

  /** Two different root names that sanitizing makes equal: on the same NUMA nodes and with the same coupling they
      share a key, and the tier is computed from fewer roots than the node has. */
  lemma SanitizedRootsMerge(naming: Naming, rules: seq<TopologyRule>, a: Item, b: Item)
    requires OnRootOnly(a.partition, "pci0:0") && OnRootOnly(b.partition, "pci0.0") && a.profile == b.profile
    requires a.partition.numaNodes == b.partition.numaNodes
    requires CouplingOf(a.partition, rules) == CouplingOf(b.partition, rules)
    ensures a.partition.pcieRoots != b.partition.pcieRoots && KeyOf(naming, rules, a) == KeyOf(naming, rules, b)
  {
    hide KeyOf, CouplingOf, NumaKeySuffix, CouplingName;
    assert "pci0:0"[4] == ':' && "pci0.0"[4] == '.';
    assert SanitizeForName("pci0:0") == "pci0-0" == SanitizeForName("pci0.0");
    PciRootKeysIff(naming, rules, a, b, "pci0:0", "pci0.0", 6);
  }

  // ---------------------------------------------------------------------
  // The roots of a node
  // ---------------------------------------------------------------------

  /** A built root partition knows exactly the root it was built for. */
  lemma BuiltOnRoot(node: string, profile: string, i: nat, root: string, e: seq<TopologyDevice>)
    requires root in PcieRootsOf(e)
    ensures OnRootOnly(PciePartitionFrom(node, profile, i, root, e), root)
  {
    hide Enrich, PartitionFrom, SortedStrings, RootsOn, OnNuma, ParentNuma;
    var own, name := OnRoot(e, root), node + "-pcieRoot-" + Decimal(i);
    var p := PartitionFrom(name, profile, PcieRootPartition, own);
    BuiltRootsNamed(node, profile, i, root, e);
    RootPartitionType(name, profile, own);
    RootsField(name, profile, own);
    EnrichKeepsRoots(p, OnNuma(e, ParentNuma(own)), |RootsOn(e, ParentNuma(own))|);
    EnrichKeepsType(p, OnNuma(e, ParentNuma(own)), |RootsOn(e, ParentNuma(own))|);
    RootIsPresent(e, root);
  }

  lemma RootIsPresent(e: seq<TopologyDevice>, root: string)
    requires root in PcieRootsOf(e)
    ensures SortedStrings(PcieSet(OnRoot(e, root))) != []
  {
    hide SortedStrings;
    var d :| d in e && PcieKey(d) == root;
    FilterMembers(e, KeyIs(PcieKey, root));
    assert d in OnRoot(e, root);
    assert root in PcieSet(OnRoot(e, root));
  }

  /** Sanitizing merges no two of the roots. */
  ghost predicate SanitizedApart(roots: set<string>) {
    forall x, y :: x in roots && y in roots && SanitizeForName(x) == SanitizeForName(y) ==> x == y
  }

  /** With PCI names that sanitizing keeps apart, the root partitions of a node have distinct keys. */
  lemma NodeRootKeysDistinct(naming: Naming, matching: seq<TopologyRule>, node: string, all: seq<TopologyDevice>,
                             grouping: seq<TopologyRule>, profile: string, ps: seq<Partition>, length: nat)
    requires NodePartitions(node, all, grouping, profile, ps)
    requires forall root :: root in PcieRootsOf(Effective(all)) ==> PciName(root, length)
    requires SanitizedApart(PcieRootsOf(Effective(all)))
    ensures Distinct(RootKeys(naming, matching, ItemsOf([PartitionResult(node, profile, ps)])))
  {
    hide NodePartitions, KeyOf, PcieRootsOf, Effective, SanitizeForName, PciName, SortedStrings, PciePartitionFrom;
    var e := Effective(all);
    var roots := SortedStrings(PcieRootsOf(e));
    var items := RootItems(node, all, grouping, profile, ps);
    ListDistinct(roots, PcieRootsOf(e));
    var keys := RootKeys(naming, matching, ItemsOf([PartitionResult(node, profile, ps)]));
    forall i, j | 0 <= i < j < |keys| ensures keys[i] != keys[j] {
      assert roots[i] in roots && roots[j] in roots;
      BuiltOnRoot(node, profile, i, roots[i], e);
      BuiltOnRoot(node, profile, j, roots[j], e);
      if keys[i] == keys[j] {
        PciRootKeysIff(naming, matching, items[i], items[j], roots[i], roots[j], length);
      }
    }
  }

  /** The root items of a node, in the order of its roots. */
  lemma RootItems(node: string, all: seq<TopologyDevice>, grouping: seq<TopologyRule>, profile: string,
                  ps: seq<Partition>)
    returns (items: seq<Item>)
    requires NodePartitions(node, all, grouping, profile, ps)
    ensures items == Filter(ItemsOf([PartitionResult(node, profile, ps)]), TypeIs(PcieRootPartition))
    ensures var roots := SortedStrings(PcieRootsOf(Effective(all)));
      |items| == |roots| && forall i :: 0 <= i < |roots| ==>
        items[i] == Item(profile, PciePartitionFrom(node, profile, i, roots[i], Effective(all)))
  {
    hide NumaPartitions, PciePartitionFrom, PartitionFrom, SortedStrings, Effective, Tally, InferProfile, PcieRootsOf;
    hide NumaGroupsOf, Filter;
    var e := Effective(all);
    var roots, full := SortedStrings(PcieRootsOf(e)), PartitionFrom(node + "-full-0", profile, FullPartition, e);
    var pcie := PciePartitionsOf(node, profile, e, roots);
    var numa :| NumaPartitions(node, profile, NumaGroupsOf(e), grouping, numa) && ps == pcie + numa + [full];
    forall p | p in pcie ensures p.partType == PcieRootPartition { PcieTyped(node, profile, e, roots, p); }
    forall p | p in numa ensures p.partType ==
      NumaPartition { NumaTyped(node, profile, NumaGroupsOf(e), grouping, numa, p); }
    FullTyped(node + "-full-0", profile, e);
    OneNode(node, profile, ps);
    RootsFirst(profile, pcie, numa, full);
    items := Wrap(profile, pcie);
  }

  lemma RootsFirst(profile: string, pcie: seq<Partition>, numa: seq<Partition>, full: Partition)
    requires forall p :: p in pcie ==> p.partType == PcieRootPartition
    requires forall p :: p in numa ==> p.partType == NumaPartition
    requires full.partType == FullPartition
    ensures Filter(Wrap(profile, pcie + numa + [full]), TypeIs(PcieRootPartition)) == Wrap(profile, pcie)
  {
    hide Filter;
    var p := TypeIs(PcieRootPartition);
    var rest := Wrap(profile, numa + [full]);
    forall item | item in Wrap(profile, pcie) ensures p(item) {
      var i :| 0 <= i < |pcie| && item.partition == pcie[i];
      assert pcie[i] in pcie;
    }
    forall item | item in rest ensures !p(item) {
      var i :| 0 <= i < |numa + [full]| && item.partition == (numa + [full])[i];
      if i < |numa| { assert numa[i] in numa; }
    }
    FilterAll(Wrap(profile, pcie), p);
    FilterNone(rest, p);
    FilterConcat(Wrap(profile, pcie), rest, p);
    assert Wrap(profile, pcie + numa + [full]) == Wrap(profile, pcie) + rest;
  }

  /** On one node whose R >= 1 roots have PCI names that sanitizing keeps apart, with M >= 2 NUMA partitions. */
  lemma PciNodeTier(naming: Naming, matching: seq<TopologyRule>, node: string, all: seq<TopologyDevice>,
                    grouping: seq<TopologyRule>, profile: string, ps: seq<Partition>, plan: Plan, m: nat, length: nat)
    requires NodePartitions(node, all, grouping, profile, ps)
    requires PlanFor(naming, matching, ItemsOf([PartitionResult(node, profile, ps)]), plan)
    requires m == |Filter(ItemsOf([PartitionResult(node, profile, ps)]), TypeIs(NumaPartition))| >= 2
    requires |PcieRootsOf(Effective(all))| > 0
    requires forall root :: root in PcieRootsOf(Effective(all)) ==> PciName(root, length)
    requires SanitizedApart(PcieRootsOf(Effective(all)))
    ensures NamedFor(TierAt(plan, AggregateKey(profile, NumaPartition)), m, |PcieRootsOf(Effective(all))|)
  {
    hide NodePartitions, PlanFor, Filter, ItemsOf, PcieRootsOf, Effective, RootKeys, PciName, SanitizedApart, NamedFor;
    NodeRootKeysDistinct(naming, matching, node, all, grouping, profile, ps, length);
    NodeTier(naming, matching, node, all, grouping, profile, ps, plan, m);
  }

  /** Three roots and two NUMA partitions: the NUMA aggregate is called a third of the node. */
  lemma ThirdOfThree()
    ensures TierOf(3 / 2, 3) == "third"
  {
    assert 3 * 1 == 3 && Divides(1, 3);
    assert 3 / 2 == 1 && 3 / 1 == 3;
  }
}
