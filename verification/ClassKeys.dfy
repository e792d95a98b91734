/** The key of a partition and the labels that its DeviceClass carries.  Garbage collection rebuilds
    the key from the labels, so the two must agree. */
module ClassKeys {
  import opened Collections
  import opened Text
  import opened Topology
  import opened PartitionBuilder
  import opened PartitionConfigs
  import opened Tiers

  /** '/', '.' and ':' become '-', and letters become lower case. */
  function SafeChar(c: char): char {
    if c == '/' || c == '.' || c == ':' then '-'
    else if 'A' <= c <= 'Z' then (c as int + 32) as char else c
  }

  function SanitizeForName(s: string): (r: string)
    ensures |r| == |s|
  {
    seq(|s|, i requires 0 <= i < |s| => SafeChar(s[i]))
  }

  function DashedTail(numas: seq<int>): string {
    if numas == [] then "" else DashedTail(numas[..|numas| - 1]) + "-" + Decimal(numas[|numas| - 1])
  }

  /** "-numa0" for one node, "-numa0-1" for two. */
  function NumaKeySuffix(numas: seq<int>): string {
    if numas == [] then "" else "-numa" + Decimal(numas[0]) + DashedTail(numas[1..])
  }

  function Suffix(partType: PartitionType, p: Partition): string {
    (if p.numaNodes != [] && !partType.FullPartition? then NumaKeySuffix(p.numaNodes) else "") +
    (if partType.PcieRootPartition? && p.pcieRoots != [] then "-" + SanitizeForName(p.pcieRoots[0]) else "")
  }

  function CouplingName(c: Coupling): string {
    match c
    case Tight => "tight"
    case Loose => "loose"
    case NoCoupling => ""
  }

  function DashIf(s: string): string {
    if s == "" then "" else "-" + s
  }

  function WithRail(base: string, rail: int): string {
    base + "-rail" + Decimal(rail)
  }

  /** The key under which a partition is remembered; `profile` is the truncated profile. */
  function PartitionKey(profile: string, p: Partition, coupling: Coupling): string {
    profile + "-" + TypeName(p.partType) + Suffix(p.partType, p) + DashIf(CouplingName(coupling))
  }

  /** The labels of a managed class; a missing label reads as "". */
  datatype Labels =
    | PartitionLabels(profile: string, partitionType: string, tierName: string, numa: string, coupling: string)
    | GroupingLabels(grouping: string, alignment: string)
    | Unmanaged

  /** The classes of the cluster, by name. */
  type Store = map<string, Labels>

  function TrimDash(s: string): string {
    if s != "" && s[0] == '-' then s[1..] else s
  }

  function LabelsFor(profile: string, partType: PartitionType, p: Partition, coupling: Coupling): Labels {
    PartitionLabels(profile, TypeName(partType), "", TrimDash(Suffix(partType, p)), CouplingName(coupling))
  }

  /** The key that cleanup rebuilds from the labels. */
  function KeyFromLabels(l: Labels): string
    requires l.PartitionLabels?
  {
    if l.tierName != "" then l.profile + "-" + l.tierName
    else l.profile + "-" + l.partitionType + DashIf(l.numa) + DashIf(l.coupling)
  }

  /** The suffix starts with a '-', and is a lone '-' only for a PCIe root without a name and without NUMA nodes. */
  lemma SuffixShape(partType: PartitionType, p: Partition)
    ensures Suffix(partType, p) != "" ==> Suffix(partType, p)[0] == '-'
    ensures Suffix(partType, p) == "-" <==>
      partType.PcieRootPartition? && p.numaNodes == [] && p.pcieRoots != [] && p.pcieRoots[0] == ""
  {
    if p.numaNodes != [] {
      assert NumaKeySuffix(p.numaNodes)[0] == '-' && |NumaKeySuffix(p.numaNodes)| > 1;
    }
  }

  /** Labels give back the key they were published under, except for a nameless root without NUMA nodes. */
  lemma KeyRoundTripIff(profile: string, p: Partition, coupling: Coupling)
    ensures KeyFromLabels(LabelsFor(profile, p.partType, p, coupling)) == PartitionKey(profile, p, coupling) <==>
      !(p.partType.PcieRootPartition? && p.numaNodes == [] && p.pcieRoots != [] && p.pcieRoots[0] == "")
  {
    var s := Suffix(p.partType, p);
    SuffixShape(p.partType, p);
    var head, tail := profile + "-" + TypeName(p.partType), DashIf(CouplingName(coupling));
    if s == "-" {
      assert TrimDash(s) == "";
      assert |head + s + tail| == |head + tail| + 1;
      assert head + DashIf("") + tail == head + tail;
    } else {
      assert DashIf(TrimDash(s)) == s;
    }
  }

  lemma RootsOfOneRoot(devices: seq<TopologyDevice>, root: string)
    ensures PcieSet(OnRoot(devices, root)) <= {root}
  {
    FilterMembers(devices, KeyIs(PcieKey, root));
  }

  lemma SortedAtMostOne(s: set<string>, root: string)
    requires s <= {root}
    ensures SortedStrings(s) == [] || SortedStrings(s) == [root]
  {
    hide SortedStrings;
    var r := SortedStrings(s);
    assert s == {} || s == {root};
    assert s == {root} ==> |r| == 1 && r[0] in r;
  }

  lemma RootsField(name: string, profile: string, own: seq<TopologyDevice>)
    ensures PartitionFrom(name, profile, PcieRootPartition, own).pcieRoots == SortedStrings(PcieSet(own))
  {
  }

  /** The partitions that the builder makes never have a nameless root. */
  lemma BuiltRootsNamed(node: string, profile: string, i: nat, root: string, devices: seq<TopologyDevice>)
    requires root != ""
    ensures var roots := PciePartitionFrom(node, profile, i, root, devices).pcieRoots; roots == [] || roots == [root]
  {
    hide Enrich, PartitionFrom, SortedStrings, PcieSet, RootsOn, OnNuma, OnRoot, ParentNuma;
    var own := OnRoot(devices, root);
    var name := node + "-pcieRoot-" + Decimal(i);
    RootsOfOneRoot(devices, root);
    SortedAtMostOne(PcieSet(own), root);
    RootsField(name, profile, own);
    EnrichKeepsRoots(PartitionFrom(name, profile, PcieRootPartition, own),
      OnNuma(devices, ParentNuma(own)), |RootsOn(devices, ParentNuma(own))|);
  }

  lemma {:induction false} EnrichKeepsRoots(p: Partition, devices: seq<TopologyDevice>, roots: int)
    ensures Enrich(p, devices, roots).pcieRoots == p.pcieRoots
  {
    if devices != [] { EnrichKeepsRoots(p, devices[..|devices| - 1], roots); }
  }
}
