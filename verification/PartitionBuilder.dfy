/** The partitions of a node: one per PCIe root with a share of its NUMA node's capacity, one per
    NUMA group, and one for the whole node. */
module PartitionBuilder {
  import opened Collections
  import opened Text
  import opened Topology
  import opened CounterGroups
  import opened Refinement
  import opened NumaGroups

  datatype PartitionType = PcieRootPartition | NumaPartition | FullPartition

  type Capacity = map<string, Quantity>

  datatype Partition = Partition(
    name: string,
    profile: string,
    partType: PartitionType,
    numaNodes: seq<int>,
    pcieRoots: seq<string>,
    sockets: seq<int>,
    deviceCounts: map<string, int>,
    deviceCapacity: map<string, Capacity>,
    devices: seq<TopologyDevice>,
    extended: map<AttributeName, AttributeValue>)

  function CountIn(counts: map<string, int>, b: string): int {
    if b in counts then counts[b] else 0
  }

  // ---------------------------------------------------------------------
  // A partition from a list of devices
  // ---------------------------------------------------------------------

  function NumaSet(devices: seq<TopologyDevice>): set<int> {
    set d | d in devices && d.numaNode.Some? :: d.numaNode.value
  }

  function PcieSet(devices: seq<TopologyDevice>): set<string> {
    set d | d in devices && d.pcieRoot.Some? :: d.pcieRoot.value
  }

  function SocketSet(devices: seq<TopologyDevice>): set<int> {
    set d | d in devices && d.socket.Some? :: d.socket.value
  }

  lemma PlacesSnoc(devices: seq<TopologyDevice>, d: TopologyDevice)
    ensures NumaSet(devices + [d]) == NumaSet(devices) + if d.numaNode.Some? then {d.numaNode.value} else {}
    ensures PcieSet(devices + [d]) == PcieSet(devices) + if d.pcieRoot.Some? then {d.pcieRoot.value} else {}
    ensures SocketSet(devices + [d]) == SocketSet(devices) + if d.socket.Some? then {d.socket.value} else {}
  {
  }

  lemma NoPlaces()
    ensures NumaSet([]) == {} && PcieSet([]) == {} && SocketSet([]) == {}
  {
  }

  /** The first value of every extended attribute. */
  function FirstExtended(devices: seq<TopologyDevice>): map<AttributeName, AttributeValue> {
    if devices == [] then map[] else devices[|devices| - 1].extended + FirstExtended(devices[..|devices| - 1])
  }

  predicate IntLeq(a: int, b: int) { a <= b }

  function SortedInts(s: set<int>): (r: seq<int>)
    ensures forall x :: x in r <==> x in s
    ensures |r| == |s|
  {
    Sorted(s, IntLeq)
  }

  function PartitionFrom(name: string, profile: string, partType: PartitionType,
                         devices: seq<TopologyDevice>): Partition {
    Partition(name, profile, partType, SortedInts(NumaSet(devices)), SortedStrings(PcieSet(devices)),
      SortedInts(SocketSet(devices)), Tally(Effective(devices)), map[], devices, FirstExtended(devices))
  }

  lemma NoCapacityYet(name: string, profile: string, partType: PartitionType, devices: seq<TopologyDevice>)
    ensures PartitionFrom(name, profile, partType, devices).deviceCapacity == map[]
  {
  }

  method BuildPartitionFromDevices(name: string, profile: string, partType: PartitionType, devices: seq<TopologyDevice>)
    returns (p: Partition)
    ensures p == PartitionFrom(name, profile, partType, devices)
  {
    hide Effective, Tally, SortedInts, SortedStrings, NumaSet, PcieSet, SocketSet;
    NoPlaces();
    var counts := EffectiveDeviceCount(devices);
    var numaSet: set<int>, pcieSet: set<string>, socketSet: set<int> := {}, {}, {};
    var extended: map<AttributeName, AttributeValue> := map[];
    for i := 0 to |devices|
      invariant numaSet == NumaSet(devices[..i])
      invariant pcieSet == PcieSet(devices[..i])
      invariant socketSet == SocketSet(devices[..i])
      invariant extended == FirstExtended(devices[..i])
    {
      var d := devices[i];
      PlacesSnoc(devices[..i], d);
      assert devices[..i + 1] == devices[..i] + [d];
      assert devices[..i + 1][..i] == devices[..i];
      if d.numaNode.Some? { numaSet := numaSet + {d.numaNode.value}; }
      if d.pcieRoot.Some? { pcieSet := pcieSet + {d.pcieRoot.value}; }
      if d.socket.Some? { socketSet := socketSet + {d.socket.value}; }
      extended := d.extended + extended;
    }
    assert devices[..|devices|] == devices;
    p := Partition(name, profile, partType, SortedInts(numaSet), SortedStrings(pcieSet), SortedInts(socketSet),
      counts, map[], devices, extended);
  }

  // ---------------------------------------------------------------------
  // NUMA partitions
  // ---------------------------------------------------------------------

  /** The capacity of the first device of each driver that has any. */
  function FirstCapacity(devices: seq<TopologyDevice>): map<string, Capacity> {
    if devices == [] then map[] else
      var before, d := FirstCapacity(devices[..|devices| - 1]), devices[|devices| - 1];
      if d.capacity != map[] && Base(d) !in before then before[Base(d) := d.capacity] else before
  }

  function NumaPartitionFrom(node: string, profile: string, i: nat, devices: seq<TopologyDevice>): Partition {
    PartitionFrom(node + "-numa-" + Decimal(i), profile, NumaPartition, devices).(deviceCapacity :=
      FirstCapacity(devices))
  }

  function NumaPartitionsOf(node: string, profile: string, groups: Groups, keys: seq<string>): (r: seq<Partition>)
    requires forall k :: k in keys ==> k in groups
    ensures |r| == |keys|
  {
    seq(|keys|, i requires 0 <= i < |keys| => NumaPartitionFrom(node, profile, i, groups[keys[i]]))
  }

  lemma NumaPartitionsStep(node: string, profile: string, groups: Groups, keys: seq<string>, i: nat)
    requires i < |keys| && forall k :: k in keys ==> k in groups
    ensures NumaPartitionsOf(node, profile, groups, keys[..i + 1]) ==
      NumaPartitionsOf(node, profile, groups, keys[..i]) + [NumaPartitionFrom(node, profile, i, groups[keys[i]])]
  {
    hide NumaPartitionFrom;
  }

  /** No partition unless there are two groups; otherwise one per group that the rules leave. */
  ghost predicate NumaPartitions(node: string, profile: string, valid: Groups, rules: seq<TopologyRule>,
                                 ps: seq<Partition>) {
    if |valid| <= 1 then ps == [] else
      exists final :: SplitsAll(valid, rules, final) &&
        ps == NumaPartitionsOf(node, profile, final, SortedStrings(final.Keys))
  }

  method BuildPartitionsFromGroups(node: string, profile: string, groups: Groups, rules: seq<TopologyRule>)
    returns (ps: seq<Partition>)
    ensures NumaPartitions(node, profile, groups - {""}, rules, ps)
  {
    hide NumaPartitionsOf, NumaPartitionFrom, SplitsAll, SortedStrings;
    var validGroups := groups - {""};
    if |validGroups| <= 1 { return []; }
    var final := SplitByRules(validGroups, rules);
    var keys := SortedStrings(final.Keys);
    ps := [];
    assert |NumaPartitionsOf(node, profile, final, keys[..0])| == 0;
    for i := 0 to |keys|
      invariant ps == NumaPartitionsOf(node, profile, final, keys[..i])
    {
      NumaPartitionsStep(node, profile, final, keys, i);
      var p := BuildNumaPartition(node, profile, i, final[keys[i]]);
      ps := ps + [p];
    }
    assert keys[..|keys|] == keys;
  }

  method BuildNumaPartition(node: string, profile: string, i: nat, devices: seq<TopologyDevice>) returns (p: Partition)
    ensures p == NumaPartitionFrom(node, profile, i, devices)
  {
    hide PartitionFrom;
    p := BuildPartitionFromDevices(node + "-numa-" + Decimal(i), profile, NumaPartition, devices);
    ghost var plain := p;
    assert plain.deviceCapacity ==
      map[] by { NoCapacityYet(node + "-numa-" + Decimal(i), profile, NumaPartition, devices); }
    for j := 0 to |devices|
      invariant p == plain.(deviceCapacity := FirstCapacity(devices[..j]))
    {
      assert devices[..j + 1][..j] == devices[..j];
      var d := devices[j];
      if d.capacity != map[] && Base(d) !in p.deviceCapacity {
        p := p.(deviceCapacity := p.deviceCapacity[Base(d) := d.capacity]);
      }
    }
    assert devices[..|devices|] == devices;
  }

  // ---------------------------------------------------------------------
  // PCIe root partitions
  // ---------------------------------------------------------------------

  /** A quantity divided by a number of roots; nothing when that is not a positive amount. */
  function DivideQuantity(q: Quantity, divisor: int): Option<int> {
    if divisor <= 0 || q.Unparsable? || q.units / divisor <= 0 then None else Some(q.units / divisor)
  }

  function ShareOf(d: TopologyDevice, roots: int): Capacity {
    map c | c in d.capacity && DivideQuantity(d.capacity[c], roots).Some? ::
      Quantity(DivideQuantity(d.capacity[c], roots).value)
  }

  function EnrichOne(p: Partition, d: TopologyDevice, roots: int): Partition {
    if d.capacity != map[] && CountIn(p.deviceCounts, Base(d)) == 0 && ShareOf(d, roots) != map[] then
      p.(deviceCapacity := p.deviceCapacity[Base(d) := ShareOf(d, roots)],
         deviceCounts := p.deviceCounts[Base(d) := 1],
         devices := p.devices + [d])
    else p
  }

  function Enrich(p: Partition, devices: seq<TopologyDevice>, roots: int): Partition {
    if devices == [] then p else EnrichOne(Enrich(p, devices[..|devices| - 1], roots), devices[|devices| - 1], roots)
  }

  /** The NUMA key of the first device that has one, or "". */
  function ParentNuma(devices: seq<TopologyDevice>): string {
    if devices == [] then "" else if devices[0].numaNode.Some? then NumaKey(devices[0]) else ParentNuma(devices[1..])
  }

  function RootsOn(devices: seq<TopologyDevice>, numaKey: string): set<string> {
    set d | d in devices && d.numaNode.Some? && d.pcieRoot.Some? && NumaKey(d) == numaKey :: d.pcieRoot.value
  }

  function OnRoot(devices: seq<TopologyDevice>, root: string): seq<TopologyDevice> {
    Filter(devices, KeyIs(PcieKey, root))
  }

  function OnNuma(devices: seq<TopologyDevice>, numaKey: string): seq<TopologyDevice> {
    Filter(devices, KeyIs(NumaKey, numaKey))
  }

  function PciePartitionFrom(node: string, profile: string, i: nat, root: string,
                             devices: seq<TopologyDevice>): Partition {
    var own := OnRoot(devices, root);
    var p := PartitionFrom(node + "-pcieRoot-" + Decimal(i), profile, PcieRootPartition, own);
    var parent := ParentNuma(own);
    if parent != "" && RootsOn(devices, parent) != {} then
      Enrich(p, OnNuma(devices, parent), |RootsOn(devices, parent)|)
    else p
  }

  function PciePartitionsOf(node: string, profile: string, devices: seq<TopologyDevice>,
                            roots: seq<string>): (r: seq<Partition>)
    ensures |r| == |roots|
  {
    seq(|roots|, i requires 0 <= i < |roots| => PciePartitionFrom(node, profile, i, roots[i], devices))
  }

  function PcieRootsOf(devices: seq<TopologyDevice>): set<string> {
    KeySet(devices, PcieKey) - {""}
  }

  lemma RootsOnSnoc(devices: seq<TopologyDevice>, d: TopologyDevice, n: string)
    ensures RootsOn(devices + [d], n) == RootsOn(devices, n) +
      if d.numaNode.Some? && d.pcieRoot.Some? && NumaKey(d) == n then {d.pcieRoot.value} else {}
  {
  }

  /** A table of the non-empty root sets. */
  ghost predicate RootTable(devices: seq<TopologyDevice>, table: map<string, set<string>>) {
    forall n :: if n in table then table[n] == RootsOn(devices, n) != {} else RootsOn(devices, n) == {}
  }

  method CountRootsPerNuma(devices: seq<TopologyDevice>) returns (numaRoots: map<string, set<string>>)
    ensures RootTable(devices, numaRoots)
  {
    numaRoots := map[];
    for i := 0 to |devices|
      invariant RootTable(devices[..i], numaRoots)
    {
      var d, before := devices[i], numaRoots;
      assert devices[..i + 1] == devices[..i] + [d];
      if d.numaNode.Some? && d.pcieRoot.Some? {
        var k := NumaKey(d);
        numaRoots := numaRoots[k := (if k in numaRoots then numaRoots[k] else {}) + {d.pcieRoot.value}];
      }
      RootTableSnoc(devices[..i], d, before);
    }
    assert devices[..|devices|] == devices;
  }

  lemma RootTableSnoc(devices: seq<TopologyDevice>, d: TopologyDevice, table: map<string, set<string>>)
    requires RootTable(devices, table)
    ensures RootTable(devices + [d],
      if d.numaNode.Some? && d.pcieRoot.Some?
      then table[NumaKey(d) := (if NumaKey(d) in table then table[NumaKey(d)] else {}) + {d.pcieRoot.value}] else table)
  {
    hide RootsOn;
    forall n ensures RootsOn(devices + [d], n) == RootsOn(devices, n) +
      if d.numaNode.Some? && d.pcieRoot.Some? && NumaKey(d) == n then {d.pcieRoot.value} else {}
    {
      RootsOnSnoc(devices, d, n);
    }
  }

  lemma PciePartitionsStep(node: string, profile: string, devices: seq<TopologyDevice>, roots: seq<string>, i: nat)
    requires i < |roots|
    ensures PciePartitionsOf(node, profile, devices, roots[..i + 1]) ==
      PciePartitionsOf(node, profile, devices, roots[..i]) + [PciePartitionFrom(node, profile, i, roots[i], devices)]
  {
    hide PciePartitionFrom;
  }

  lemma PcieRootKeys(devices: seq<TopologyDevice>)
    ensures GroupBy(devices, PcieKey).Keys - {""} == PcieRootsOf(devices)
  {
  }

  method BuildPcieRootPartitions(node: string, profile: string, byNuma: Groups, byPcieRoot: Groups,
                                 devices: seq<TopologyDevice>)
    returns (ps: seq<Partition>)
    requires byNuma == GroupBy(devices, NumaKey) && byPcieRoot == GroupBy(devices, PcieKey)
    ensures ps == PciePartitionsOf(node, profile, devices, SortedStrings(PcieRootsOf(devices)))
  {
    hide PciePartitionsOf, PciePartitionFrom, SortedStrings, RootTable, GroupBy, PcieRootsOf;
    var numaRoots := CountRootsPerNuma(devices);
    PcieRootKeys(devices);
    var keys := SortedStrings(byPcieRoot.Keys - {""});
    ps := [];
    assert |PciePartitionsOf(node, profile, devices, keys[..0])| == 0;
    for i := 0 to |keys|
      invariant ps == PciePartitionsOf(node, profile, devices, keys[..i])
    {
      assert keys[i] in byPcieRoot.Keys - {""};
      var p := BuildPciePartition(node, profile, i, keys[i], byNuma, byPcieRoot, numaRoots, devices);
      PciePartitionsStep(node, profile, devices, keys, i);
      ps := ps + [p];
    }
    assert keys[..|keys|] == keys;
  }

  method BuildPciePartition(node: string, profile: string, i: nat, root: string, byNuma: Groups, byPcieRoot: Groups,
                            numaRoots: map<string, set<string>>,
                              ghost devices: seq<TopologyDevice>) returns (p: Partition)
    requires byNuma == GroupBy(devices, NumaKey) && byPcieRoot == GroupBy(devices, PcieKey)
    requires root in byPcieRoot && RootTable(devices, numaRoots)
    ensures p == PciePartitionFrom(node, profile, i, root, devices)
  {
    hide PartitionFrom, Enrich, ParentNuma;
    var own := byPcieRoot[root];
    p := BuildPartitionFromDevices(node + "-pcieRoot-" + Decimal(i), profile, PcieRootPartition, own);
    var parent := FindParentNuma(own);
    if parent != "" && parent in numaRoots {
      assert parent in byNuma by { assert RootsOn(devices, parent) != {}; }
      p := EnrichAll(p, byNuma[parent], |numaRoots[parent]|);
    }
  }

  method FindParentNuma(devices: seq<TopologyDevice>) returns (parent: string)
    ensures parent == ParentNuma(devices)
  {
    for i := 0 to |devices|
      invariant ParentNuma(devices) == ParentNuma(devices[i..])
    {
      if devices[i].numaNode.Some? { return Decimal(devices[i].numaNode.value); }
    }
    parent := "";
  }

  method EnrichAll(start: Partition, devices: seq<TopologyDevice>, roots: nat) returns (p: Partition)
    ensures p == Enrich(start, devices, roots)
  {
    p := start;
    for i := 0 to |devices|
      invariant p == Enrich(start, devices[..i], roots)
    {
      assert devices[..i + 1][..i] == devices[..i];
      var d := devices[i];
      if d.capacity != map[] && CountIn(p.deviceCounts, Base(d)) == 0 {
        var share := ShareOf(d, roots);
        if share != map[] {
          p := p.(deviceCapacity := p.deviceCapacity[Base(d) := share], deviceCounts := p.deviceCounts[Base(d) := 1],
                  devices := p.devices + [d]);
        }
      }
    }
    assert devices[..|devices|] == devices;
  }

  // ---------------------------------------------------------------------
  // The node
  // ---------------------------------------------------------------------

  function JoinWith(parts: seq<string>, sep: string): string {
    if parts == [] then "" else if |parts| == 1 then parts[0]
    else JoinWith(parts[..|parts| - 1], sep) + sep + parts[|parts| - 1]
  }

  /** The profile names the drivers only, so it is stable when device counts change. */
  function InferProfile(counts: map<string, int>): string {
    if counts == map[] then "unknown" else JoinWith(SortedStrings(counts.Keys), "_")
  }

  /** What one node publishes: PCIe root partitions, NUMA partitions, and the full partition last. */
  ghost predicate NodePartitions(node: string, all: seq<TopologyDevice>, rules: seq<TopologyRule>, profile: string,
                                 ps: seq<Partition>) {
    var e := Effective(all);
    && profile == InferProfile(Tally(e))
    && exists numa ::
         && NumaPartitions(node, profile, NumaGroupsOf(e), rules, numa)
         && ps == PciePartitionsOf(node, profile, e, SortedStrings(PcieRootsOf(e))) + numa +
                  [PartitionFrom(node + "-full-0", profile, FullPartition, e)]
  }

  method BuildNodePartitions(node: string, all: seq<TopologyDevice>, rules: seq<TopologyRule>)
    returns (profile: string, ps: seq<Partition>)
    ensures if all == [] then ps == [] else NodePartitions(node, all, rules, profile, ps)
  {
    hide Effective, PciePartitionsOf, PartitionFrom, NumaPartitions, Tally, SortedStrings;
    if all == [] { return "", []; }
    var counts := EffectiveDeviceCount(all);
    var effective := FilterToEffectiveDevices(all);
    var byPcieRoot := GroupDevicesByAttribute(effective, PcieKey);
    var byNuma := GroupDevicesByAttribute(effective, NumaKey);
    profile := InferProfile(counts);
    var pcie := BuildPcieRootPartitions(node, profile, byNuma, byPcieRoot, effective);
    var numa := BuildPartitionsFromGroups(node, profile, byNuma, rules);
    var full := BuildPartitionFromDevices(node + "-full-0", profile, FullPartition, effective);
    ps := pcie + numa + [full];
  }
}
