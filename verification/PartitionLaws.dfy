/** What the partitions of a node conserve: device counts across the NUMA partitions, and the
    capacity of a shared device across the PCIe root partitions. */
module PartitionLaws {
  import opened Collections
  import opened Text
  import opened Topology
  import opened CounterGroups
  import opened Refinement
  import opened NumaGroups
  import opened SplitRuns
  import opened PartitionBuilder

  // ---------------------------------------------------------------------
  // Counts
  // ---------------------------------------------------------------------

  lemma TallyCount(devices: seq<TopologyDevice>, b: string)
    ensures CountIn(Tally(devices), b) == |Filter(devices, KeyIs(Base, b))|
  {
    if b !in KeySet(devices, Base) {
      FilterNone(devices, KeyIs(Base, b));
    }
  }

  /** No physical resource occurs twice. */
  ghost predicate NoOverlap(devices: seq<TopologyDevice>) {
    forall k :: |Variants(devices, k)| <= 1
  }

  lemma EffectiveNoOverlap(all: seq<TopologyDevice>)
    ensures NoOverlap(Effective(all))
  {
    forall k ensures |Variants(Effective(all), k)| <= 1 { EffectiveVariants(all, k); }
  }

  lemma SubNoOverlap(devices: seq<TopologyDevice>, part: seq<TopologyDevice>)
    requires NoOverlap(devices) && part == Filter(devices, In(part))
    ensures NoOverlap(part)
  {
    forall k ensures |Variants(part, k)| <= 1 {
      var ofKey := KeyIs(CounterKey, Some(k));
      var both := (d: TopologyDevice) => d in part && ofKey(d);
      FilterTwice(devices, In(part), ofKey, both);
      FilterTwice(devices, ofKey, In(part), both);
      FilterMembers(Variants(devices, k), In(part));
    }
  }

  /** Without overlap, filtering to effective devices only reorders. */
  lemma EffectiveReorders(devices: seq<TopologyDevice>)
    requires NoOverlap(devices)
    ensures multiset(Effective(devices)) == multiset(devices)
  {
    forall d ensures multiset(Effective(devices))[d] == multiset(devices)[d] {
      EffectiveCountOf(devices, d);
    }
  }

  lemma SingleVariant(devices: seq<TopologyDevice>, k: GroupKey)
    requires NoOverlap(devices)
    ensures Variants(Effective(devices), k) == Variants(devices, k)
  {
    hide Effective;
    EffectiveVariants(devices, k);
    VariantsMembers(devices, k);
    if k in CounterKeys(devices) {
      var v := Variants(devices, k);
      assert |v| == 1 && v == [v[0]];
    }
  }

  lemma EffectiveCountOf(devices: seq<TopologyDevice>, d: TopologyDevice)
    requires NoOverlap(devices)
    ensures multiset(Effective(devices))[d] == multiset(devices)[d]
  {
    hide Effective, NoOverlap;
    var e := Effective(devices);
    if Standalone(d) {
      EffectiveMembers(devices);
      FilterMultiset(e, Standalone);
      FilterMultiset(devices, Standalone);
    } else {
      var k := CounterKey(d).value;
      SingleVariant(devices, k);
      FilterMultiset(e, KeyIs(CounterKey, Some(k)));
      FilterMultiset(devices, KeyIs(CounterKey, Some(k)));
    }
  }

  /** The count a partition publishes for a driver is the number of its devices of that driver. */
  lemma GroupCount(devices: seq<TopologyDevice>, b: string)
    requires NoOverlap(devices)
    ensures CountIn(Tally(Effective(devices)), b) == |Filter(devices, KeyIs(Base, b))|
  {
    EffectiveReorders(devices);
    TallyCount(Effective(devices), b);
    FilterPermutation(Effective(devices), devices, KeyIs(Base, b));
  }

  function SizesIn(groups: Groups, keys: seq<string>, p: TopologyDevice -> bool): seq<int>
    requires forall k :: k in keys ==> k in groups
  {
    seq(|keys|, i requires 0 <= i < |keys| => |Filter(groups[keys[i]], p)|)
  }

  function InSome(groups: Groups, keys: seq<string>, p: TopologyDevice -> bool): TopologyDevice -> bool {
    (d: TopologyDevice) => p(d) && exists k :: k in keys && Sits(groups, d, k)
  }

  lemma OneMoreGroup(groups: Groups, devices: seq<TopologyDevice>, init: seq<string>, k: string,
                     p: TopologyDevice -> bool)
    requires PartsOf(groups, devices)
    requires k in groups && k !in init
    ensures |Filter(devices, InSome(groups, init + [k], p))| ==
      |Filter(devices, InSome(groups, init, p))| + |Filter(groups[k], p)|
  {
    var here := (d: TopologyDevice) => d in groups[k] && p(d);
    FilterTwice(devices, In(groups[k]), p, here);
    forall d | d in devices
      ensures InSome(groups, init + [k], p)(d) == (InSome(groups, init, p)(d) || here(d))
      ensures !(InSome(groups, init, p)(d) && here(d))
    {
      assert here(d) ==> Sits(groups, d, k);
    }
    FilterEither(devices, InSome(groups, init, p), here, InSome(groups, init + [k], p));
  }

  /** The sizes of the first groups add up to the devices that sit in one of them. */
  lemma {:induction false} SizesSum(groups: Groups, devices: seq<TopologyDevice>, keys: seq<string>,
                                    p: TopologyDevice -> bool)
    requires PartsOf(groups, devices)
    requires forall k :: k in keys ==> k in groups
    requires Distinct(keys)
    ensures Sum(SizesIn(groups, keys, p)) == |Filter(devices, InSome(groups, keys, p))|
  {
    hide PartsOf;
    if keys == [] {
      FilterNone(devices, InSome(groups, keys, p));
    } else {
      hide InSome;
      var init, k := keys[..|keys| - 1], keys[|keys| - 1];
      SizesSum(groups, devices, init, p);
      assert SizesIn(groups, keys, p)[..|init|] == SizesIn(groups, init, p);
      OneMoreGroup(groups, devices, init, k, p);
      assert keys == init + [k];
    }
  }

  /** Satisfies a condition, and sits in some group. */
  ghost function Held(groups: Groups, p: TopologyDevice -> bool): TopologyDevice -> bool {
    (d: TopologyDevice) => p(d) && exists k :: Sits(groups, d, k)
  }

  /** Summed over all groups, the sizes are those of the devices that are not lost. */
  lemma PartSizes(groups: Groups, devices: seq<TopologyDevice>, p: TopologyDevice -> bool)
    requires PartsOf(groups, devices)
    ensures Sum(SizesIn(groups, SortedStrings(groups.Keys), p)) == |Filter(devices, Held(groups, p))|
  {
    hide PartsOf, SortedStrings, Filter;
    var keys := SortedStrings(groups.Keys);
    assert Distinct(keys) by { ListDistinct(keys, groups.Keys); }
    SizesSum(groups, devices, keys, p);
    FilterSame(devices, InSome(groups, keys, p), Held(groups, p));
  }

  /** For an exact cover they are those of the whole list. */
  lemma PartitionSizes(groups: Groups, devices: seq<TopologyDevice>, p: TopologyDevice -> bool)
    requires IsPartition(groups, devices)
    ensures Sum(SizesIn(groups, SortedStrings(groups.Keys), p)) == |Filter(devices, p)|
  {
    hide SortedStrings, Filter;
    PartitionParts(groups, devices);
    PartSizes(groups, devices, p);
    FilterSame(devices, Held(groups, p), p);
  }

  /** A stronger condition keeps as many elements exactly when it excludes none. */
  lemma {:induction false} FilterSizeIff(s: seq<TopologyDevice>, p: TopologyDevice -> bool, q: TopologyDevice -> bool)
    requires forall d :: q(d) ==> p(d)
    ensures |Filter(s, q)| <= |Filter(s, p)|
    ensures |Filter(s, q)| == |Filter(s, p)| <==> forall d :: d in s && p(d) ==> q(d)
  {
    if s != [] {
      var init, last := s[..|s| - 1], s[|s| - 1];
      assert s == init + [last];
      FilterSizeIff(init, p, q);
    }
  }

  function CountsOf(ps: seq<Partition>, b: string): seq<int> {
    seq(|ps|, i requires 0 <= i < |ps| => CountIn(ps[i].deviceCounts, b))
  }

  lemma NumaCountField(node: string, profile: string, i: nat, devices: seq<TopologyDevice>, b: string)
    requires NoOverlap(devices)
    ensures CountIn(NumaPartitionFrom(node, profile, i, devices).deviceCounts, b) == |Filter(devices, KeyIs(Base, b))|
  {
    hide NoOverlap, Effective, Tally, SortedStrings, SortedInts, Filter;
    GroupCount(devices, b);
  }

  lemma PartExact(groups: Groups, devices: seq<TopologyDevice>, k: string)
    requires PartsOf(groups, devices) && k in groups
    ensures groups[k] == Filter(devices, In(groups[k]))
  {
  }

  lemma GroupCounts(node: string, profile: string, final: Groups, e: seq<TopologyDevice>, b: string)
    requires NoOverlap(e) && PartsOf(final, e)
    ensures var keys := SortedStrings(final.Keys);
      CountsOf(NumaPartitionsOf(node, profile, final, keys), b) == SizesIn(final, keys, KeyIs(Base, b))
  {
    hide SortedStrings, NoOverlap, PartsOf, Filter, NumaPartitionFrom, CountIn;
    var keys := SortedStrings(final.Keys);
    forall i | 0 <= i < |keys|
      ensures CountIn(NumaPartitionFrom(node, profile, i, final[keys[i]]).deviceCounts, b) ==
        |Filter(final[keys[i]], KeyIs(Base, b))|
    {
      assert keys[i] in keys;
      PartExact(final, e, keys[i]);
      SubNoOverlap(e, final[keys[i]]);
      NumaCountField(node, profile, i, final[keys[i]], b);
    }
  }

  /** The groups by NUMA node are parts of the whole list, devices without a node included. */
  lemma NumaParts(devices: seq<TopologyDevice>)
    ensures PartsOf(NumaGroupsOf(devices), devices)
  {
    var groups := NumaGroupsOf(devices);
    forall k, k', d | Sits(groups, d, k) && Sits(groups, d, k') ensures k == k' {
      NumaGroupFacts(devices, k);
      NumaGroupFacts(devices, k');
    }
    forall k | k in groups ensures groups[k] != [] && groups[k] == Filter(devices, In(groups[k])) {
      NumaGroupFacts(devices, k);
      FilterSame(devices, KeyIs(NumaKey, k), In(groups[k]));
    }
  }

  /** What the full partition publishes for a driver. */
  function FullCount(node: string, profile: string, e: seq<TopologyDevice>, b: string): int {
    CountIn(PartitionFrom(node + "-full-0", profile, FullPartition, e).deviceCounts, b)
  }

  lemma FullCountIs(node: string, profile: string, e: seq<TopologyDevice>, b: string)
    requires NoOverlap(e)
    ensures FullCount(node, profile, e, b) == |Filter(e, KeyIs(Base, b))|
  {
    hide NoOverlap, Effective, Tally, SortedStrings, SortedInts;
    GroupCount(e, b);
  }

  /** No device of the driver is missing from the groups. */
  ghost predicate HoldsDriver(groups: Groups, devices: seq<TopologyDevice>, b: string) {
    forall d :: d in devices && Base(d) == b ==> exists k :: Sits(groups, d, k)
  }

  /** The NUMA partitions' counts of a driver add up to at most the full partition's count, and to exactly that
      count if and only if no device of the driver is missing from the final groups. */
  lemma NumaCountIff(node: string, all: seq<TopologyDevice>, rules: seq<TopologyRule>, profile: string, final: Groups,
                     b: string)
    requires SplitsAll(NumaGroupsOf(Effective(all)), rules, final)
    ensures var sum := Sum(CountsOf(NumaPartitionsOf(node, profile, final, SortedStrings(final.Keys)), b));
      && sum <= FullCount(node, profile, Effective(all), b)
      && (sum == FullCount(node, profile, Effective(all), b) <==> HoldsDriver(final, Effective(all), b))
  {
    hide SplitsAll, Effective, PartsOf, NoOverlap, SortedStrings, NumaPartitionsOf, NumaGroupsOf, FullCount, Filter;
    var e, p := Effective(all), KeyIs(Base, b);
    NumaParts(e);
    RunParts(NumaGroupsOf(e), e, rules, final);
    EffectiveNoOverlap(all);
    PartSizes(final, e, p);
    GroupCounts(node, profile, final, e, b);
    FullCountIs(node, profile, e, b);
    FilterSizeIff(e, p, Held(final, p));
    forall d | d in e ensures p(d) ==> (Held(final, p)(d) <==> exists k :: Sits(final, d, k)) {}
  }

  /** For every driver the counts of the NUMA partitions add up to the count of the full partition, if and only if
      the final groups cover the effective devices. */
  lemma NumaCountsAddUp(node: string, all: seq<TopologyDevice>, rules: seq<TopologyRule>, profile: string,
                        final: Groups)
    requires SplitsAll(NumaGroupsOf(Effective(all)), rules, final)
    ensures var numa := NumaPartitionsOf(node, profile, final, SortedStrings(final.Keys));
      (forall b :: Sum(CountsOf(numa, b)) == FullCount(node, profile, Effective(all), b)) <==>
        Covers(final, Effective(all))
  {
    hide SplitsAll, Effective, SortedStrings, NumaPartitionsOf, NumaGroupsOf, FullCount, CountsOf;
    var e, numa := Effective(all), NumaPartitionsOf(node, profile, final, SortedStrings(final.Keys));
    forall b ensures Sum(CountsOf(numa, b)) == FullCount(node, profile, e, b) <==> HoldsDriver(final, e, b) {
      NumaCountIff(node, all, rules, profile, final, b);
    }
    if forall b :: Sum(CountsOf(numa, b)) == FullCount(node, profile, e, b) {
      forall d | d in e ensures exists k :: Sits(final, d, k) {
        assert HoldsDriver(final, e, Base(d));
      }
    }
  }

  /** When every effective device has a NUMA node: if and only if no round of the run gave two pieces one key. */
  lemma NumaCountsByRun(node: string, all: seq<TopologyDevice>, rules: seq<TopologyRule>, profile: string,
                        chain: seq<Groups>)
    requires IsChain(rules, chain) && chain[0] == NumaGroupsOf(Effective(all))
    requires forall d :: d in Effective(all) ==> HasNuma(d)
    ensures var numa := NumaPartitionsOf(node, profile, chain[|rules|], SortedStrings(chain[|rules|].Keys));
      (forall b :: Sum(CountsOf(numa, b)) == FullCount(node, profile, Effective(all), b)) <==>
        NeverCollides(rules, chain)
  {
    hide Effective, SortedStrings, NumaPartitionsOf, NumaGroupsOf, FullCount, CountsOf, IsPartition, CollisionFree;
    var e := Effective(all);
    FilterAll(e, HasNuma);
    NumaSplitExact(e);
    RunKeepsAllIff(e, rules, chain);
    ChainSplits(rules, chain);
    NumaCountsAddUp(node, all, rules, profile, chain[|rules|]);
  }

  lemma {:induction false} ChainSplits(rules: seq<TopologyRule>, chain: seq<Groups>)
    requires IsChain(rules, chain)
    ensures SplitsAll(chain[0], rules, chain[|rules|])
  {
    hide SplitsTo;
    if rules != [] {
      var n := |rules| - 1;
      var init, before := rules[..n], chain[..n + 1];
      assert forall i :: 0 <= i < n ==> init[i] == rules[i];
      ChainSplits(init, before);
      assert SplitsAll(chain[0], rules[..n], chain[n]) && SplitsTo(chain[n], rules[n].attribute, chain[n + 1]);
    }
  }

  // ---------------------------------------------------------------------
  // Capacity
  // ---------------------------------------------------------------------

  /** Every device that enrichment adds brings exactly its own share, and nothing overwrites it. */
  ghost predicate AddedWithShare(p: Partition, r: Partition, devices: seq<TopologyDevice>, roots: int) {
    forall e :: e in r.devices && e !in p.devices ==>
      && e in devices && CountIn(r.deviceCounts, Base(e)) == 1
      && Base(e) in r.deviceCapacity && r.deviceCapacity[Base(e)] == ShareOf(e, roots)
  }

  lemma {:induction false} EnrichAdds(p: Partition, devices: seq<TopologyDevice>, roots: int)
    ensures AddedWithShare(p, Enrich(p, devices, roots), devices, roots)
  {
    hide ShareOf;
    if devices != [] {
      var init, d := devices[..|devices| - 1], devices[|devices| - 1];
      EnrichAdds(p, init, roots);
      assert devices == init + [d];
    }
  }

  /** The amount of capacity `c` of device `d` that a partition hands out. */
  function ShareIn(p: Partition, d: TopologyDevice, c: string): int {
    if d in p.devices && Base(d) in p.deviceCapacity && c in p.deviceCapacity[Base(d)] &&
      p.deviceCapacity[Base(d)][c].Quantity?
    then p.deviceCapacity[Base(d)][c].units else 0
  }

  /** The share of one root: the capacity divided by the roots counted on the NUMA node. */
  function Quota(devices: seq<TopologyDevice>, numaKey: string, units: int): int {
    if units <= 0 || RootsOn(devices, numaKey) == {} then 0 else units / |RootsOn(devices, numaKey)|
  }

  lemma {:induction false} ParentIsOf(devices: seq<TopologyDevice>)
    requires ParentNuma(devices) != ""
    ensures exists d :: d in devices && d.numaNode.Some? && NumaKey(d) == ParentNuma(devices)
  {
    if devices[0].numaNode.None? {
      ParentIsOf(devices[1..]);
      var d :| d in devices[1..] && d.numaNode.Some? && NumaKey(d) == ParentNuma(devices[1..]);
      assert d in devices;
    } else {
      assert devices[0] in devices;
    }
  }

  /** A root is counted on the NUMA node it takes as parent. */
  lemma ParentCountsRoot(devices: seq<TopologyDevice>, root: string)
    requires root != "" && ParentNuma(OnRoot(devices, root)) != ""
    ensures root in RootsOn(devices, ParentNuma(OnRoot(devices, root)))
  {
    hide ParentNuma;
    ParentIsOf(OnRoot(devices, root));
    FilterMembers(devices, KeyIs(PcieKey, root));
    var d :| d in OnRoot(devices, root) && d.numaNode.Some? && NumaKey(d) == ParentNuma(OnRoot(devices, root));
    assert PcieKey(d) == root;
    assert d.pcieRoot.Some? && d.pcieRoot.value == root;
  }

  lemma QuotaOfShare(d: TopologyDevice, c: string, roots: int)
    requires c in ShareOf(d, roots)
    ensures c in d.capacity && d.capacity[c].Quantity? && roots > 0
    ensures ShareOf(d, roots)[c] == Quantity(d.capacity[c].units / roots) && d.capacity[c].units / roots > 0
  {
  }

  /** A partition hands out at most the quota, and only if its parent is the device's NUMA node. */
  lemma {:induction false} PartitionShare(node: string, profile: string, i: nat, root: string,
                                          devices: seq<TopologyDevice>,
                                          d: TopologyDevice, c: string)
    requires root != "" && PcieKey(d) == "" && c in d.capacity && d.capacity[c].Quantity?
    ensures ShareIn(PciePartitionFrom(node, profile, i, root, devices), d, c) <=
      if ParentNuma(OnRoot(devices, root)) == NumaKey(d) then Quota(devices, NumaKey(d), d.capacity[c].units) else 0
  {
    hide PartitionFrom, Enrich, ShareOf, ParentNuma, RootsOn;
    var own := OnRoot(devices, root);
    var name := node + "-pcieRoot-" + Decimal(i);
    var p, parent := PartitionFrom(name, profile, PcieRootPartition, own), ParentNuma(own);
    assert p.devices == own && p.deviceCapacity == map[] by { PartitionFromFields(name, profile, own); }
    assert d !in own by { FilterMembers(devices, KeyIs(PcieKey, root)); }
    var roots := |RootsOn(devices, parent)|;
    EnrichAdds(p, OnNuma(devices, parent), roots);
    if parent != "" && RootsOn(devices, parent) != {} {
      var r := Enrich(p, OnNuma(devices, parent), roots);
      if ShareIn(r, d, c) > 0 {
        assert r.deviceCapacity[Base(d)] == ShareOf(d, roots);
        assert d in OnNuma(devices, parent);
        assert NumaKey(d) == parent by { FilterMembers(devices, KeyIs(NumaKey, parent)); }
        QuotaOfShare(d, c, roots);
      }
    }
  }

  lemma PartitionFromFields(name: string, profile: string, own: seq<TopologyDevice>)
    ensures PartitionFrom(name, profile, PcieRootPartition, own).devices == own
    ensures PartitionFrom(name, profile, PcieRootPartition, own).deviceCapacity == map[]
  {
  }

  function SharesOf(ps: seq<Partition>, d: TopologyDevice, c: string): seq<int> {
    seq(|ps|, i requires 0 <= i < |ps| => ShareIn(ps[i], d, c))
  }

  function ChildRoots(devices: seq<TopologyDevice>, roots: seq<string>, numaKey: string): set<string> {
    set r | r in roots && ParentNuma(OnRoot(devices, r)) == numaKey
  }

  lemma ChildRootsSnoc(devices: seq<TopologyDevice>, roots: seq<string>, r: string, numaKey: string)
    requires r !in roots
    ensures |ChildRoots(devices, roots + [r], numaKey)| ==
      |ChildRoots(devices, roots, numaKey)| + if ParentNuma(OnRoot(devices, r)) == numaKey then 1 else 0
  {
    hide ParentNuma, OnRoot;
    var before, after := ChildRoots(devices, roots, numaKey), ChildRoots(devices, roots + [r], numaKey);
    assert after == if ParentNuma(OnRoot(devices, r)) == numaKey then before + {r} else before;
  }

  lemma {:induction false} SharesBound(node: string, profile: string, devices: seq<TopologyDevice>, roots: seq<string>,
                                       d: TopologyDevice, c: string)
    requires "" !in roots && forall i, j :: 0 <= i < j < |roots| ==> roots[i] != roots[j]
    requires PcieKey(d) == "" && c in d.capacity && d.capacity[c].Quantity?
    ensures Sum(SharesOf(PciePartitionsOf(node, profile, devices, roots), d, c)) <=
      Quota(devices, NumaKey(d), d.capacity[c].units) * |ChildRoots(devices, roots, NumaKey(d))|
  {
    hide PciePartitionFrom, Quota, ShareIn;
    if roots != [] {
      var n, q, nk := |roots| - 1, Quota(devices, NumaKey(d), d.capacity[c].units), NumaKey(d);
      var init, r := roots[..n], roots[n];
      SharesBound(node, profile, devices, init, d, c);
      PartitionShare(node, profile, n, r, devices, d, c);
      var all := SharesOf(PciePartitionsOf(node, profile, devices, roots), d, c);
      assert all[..n] == SharesOf(PciePartitionsOf(node, profile, devices, init), d, c);
      ChildRootsSnoc(devices, init, r, nk);
      assert roots == init + [r];
      Distribute(q, |ChildRoots(devices, init, nk)|, if ParentNuma(OnRoot(devices, r)) == nk then 1 else 0);
    }
  }

  lemma Distribute(q: int, a: int, b: int)
    requires b == 0 || b == 1
    ensures q * (a + b) == q * a + if b == 1 then q else 0
  {
  }

  lemma QuotaFits(units: int, roots: int, children: int)
    requires 0 <= children <= roots && 0 < roots && 0 < units
    ensures (units / roots) * children <= units
  {
    var q := units / roots;
    assert q * children <= q * roots;
    assert q * roots <= units;
  }

  /** The shares of a device without a PCIe root, over all PCIe root partitions, never exceed its capacity. */
  lemma {:induction false} CapacityConserved(node: string, profile: string, devices: seq<TopologyDevice>,
                                             d: TopologyDevice, c: string)
    requires PcieKey(d) == "" && HasNuma(d) && c in d.capacity && d.capacity[c].Quantity?
    ensures Sum(SharesOf(PciePartitionsOf(node, profile, devices, SortedStrings(PcieRootsOf(devices))), d, c)) <=
      if d.capacity[c].units < 0 then 0 else d.capacity[c].units
  {
    hide PciePartitionsOf, SharesOf, RootsOn, OnRoot, ParentNuma;
    var roots, nk, units := SortedStrings(PcieRootsOf(devices)), NumaKey(d), d.capacity[c].units;
    SortedStringsAscending(PcieRootsOf(devices));
    SharesBound(node, profile, devices, roots, d, c);
    var children, counted := ChildRoots(devices, roots, nk), RootsOn(devices, nk);
    assert children <= counted by {
      forall r | r in children ensures r in counted { ParentCountsRoot(devices, r); }
    }
    SubsetSize(children, counted);
    if units > 0 && counted != {} {
      QuotaFits(units, |counted|, |children|);
    }
  }
}
