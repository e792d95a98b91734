/** The tier name of the NUMA aggregate, from the partitions of a node to the published name. */
module NodeTiers {
  import opened Collections
  import opened Text
  import opened Topology
  import opened CounterGroups
  import opened Refinement
  import opened NumaGroups
  import opened PartitionBuilder
  import opened PartitionConfigs
  import opened Aggregates
  import opened ClassKeys
  import opened Tiers
  import opened ClusterPartitions
  import opened DeviceClasses
  import opened AggregateCounts
  import opened BuiltClasses

  // ---------------------------------------------------------------------
  // Counting root entries
  // ---------------------------------------------------------------------

  /** The keys of the partitions of a type, one per partition. */
  ghost function TypeKeys(naming: Naming, rules: seq<TopologyRule>, items: seq<Item>, t: PartitionType): seq<string> {
    var typed := Filter(items, TypeIs(t));
    seq(|typed|, i requires 0 <= i < |typed| => KeyOf(naming, rules, typed[i]))
  }

  ghost function RootKeys(naming: Naming, rules: seq<TopologyRule>, items: seq<Item>): seq<string> {
    TypeKeys(naming, rules, items, PcieRootPartition)
  }

  /** The entries of a type. */
  function TypeEntries(seen: Seen, t: PartitionType): set<string> {
    set k | k in seen && seen[k].partType == t
  }

  lemma {:induction false} SizeOfDistinct<T(!new)>(list: seq<T>)
    requires Distinct(list)
    ensures |(set x | x in list)| == |list|
  {
    if list != [] {
      var init, last := list[..|list| - 1], list[|list| - 1];
      assert list == init + [last];
      SizeOfDistinct(init);
      assert (set x | x in list) == (set x | x in init) + {last};
    }
  }

  lemma EntriesAreKeys(naming: Naming, rules: seq<TopologyRule>, items: seq<Item>, seen: Seen, profile: string,
                       t: PartitionType)
    requires SeenFor(naming, rules, items, seen) && forall x :: x in items ==> x.profile == profile
    ensures TypeEntries(seen, t) == set k | k in TypeKeys(naming, rules, items, t)
  {
    hide KeyOf, Filter, StandsFor, EntryFor;
    var key, keys, typed := ItemKey(naming, rules), TypeKeys(naming, rules, items, t), Filter(items, TypeIs(t));
    FilterMembers(items, TypeIs(t));
    forall k | k in TypeEntries(seen, t) ensures k in keys {
      assert k in KeySet(items, key);
      var item :| item in items && key(item) == k;
      EntryType(naming, rules, items, seen, item);
      assert item in typed;
      var i :| 0 <= i < |typed| && typed[i] == item;
      assert keys[i] == k;
    }
    forall k | k in keys ensures k in TypeEntries(seen, t) {
      var i :| 0 <= i < |keys| && keys[i] == k;
      assert typed[i] in typed;
      EntryType(naming, rules, items, seen, typed[i]);
    }
  }

  /** The entries of a type are as many as the partitions of the type if and only if no two of these share a key. */
  lemma EntryCountIff(naming: Naming, rules: seq<TopologyRule>, items: seq<Item>, seen: Seen, profile: string,
                      t: PartitionType)
    requires SeenFor(naming, rules, items, seen) && forall x :: x in items ==> x.profile == profile
    ensures |TypeEntries(seen, t)| == |Filter(items, TypeIs(t))| <==> Distinct(TypeKeys(naming, rules, items, t))
  {
    hide KeyOf, SeenFor, Filter, TypeEntries;
    var keys := TypeKeys(naming, rules, items, t);
    EntriesAreKeys(naming, rules, items, seen, profile, t);
    if Distinct(keys) {
      SizeOfDistinct(keys);
    } else if |TypeEntries(seen, t)| == |keys| {
      DistinctBySize(keys);
    }
  }

  /** So are the counted roots. */
  lemma RootCountIff(naming: Naming, rules: seq<TopologyRule>, items: seq<Item>, seen: Seen, profile: string)
    requires SeenFor(naming, rules, items, seen) && forall x :: x in items ==> x.profile == profile
    ensures |RootEntries(seen)| == |Filter(items, TypeIs(PcieRootPartition))| <==>
      Distinct(RootKeys(naming, rules, items))
  {
    hide SeenFor, Filter, TypeKeys;
    EntryCountIff(naming, rules, items, seen, profile, PcieRootPartition);
    assert RootEntries(seen) == TypeEntries(seen, PcieRootPartition);
  }

  // ---------------------------------------------------------------------
  // The tier of the NUMA aggregate
  // ---------------------------------------------------------------------

  /** A partition of the type has an aggregate. */
  lemma AggregateExists(naming: Naming, rules: seq<TopologyRule>, items: seq<Item>, seen: Seen,
                        states: map<AggregateKey, AggregateState>, profile: string, t: PartitionType)
    requires SeenFor(naming, rules, items, seen) && StatesFor(seen, seen.Keys, states)
    requires (forall x :: x in items ==> x.profile == profile) && !t.FullPartition? && Filter(items, TypeIs(t)) != []
    ensures AggregateKey(profile, t) in states
  {
    hide SeenFor, Filter, StateFor;
    var ak, item := AggregateKey(profile, t), Filter(items, TypeIs(t))[0];
    FilterMembers(items, TypeIs(t));
    assert item in Filter(items, TypeIs(t));
    MembersAreOfType(naming, rules, items, seen, profile, t);
    assert ItemKey(naming, rules)(item) in Members(seen, seen.Keys, ak);
    assert StateOk(seen, Members(seen, seen.Keys, ak), states, ak);
  }

  function TierAt(plan: Plan, ak: AggregateKey): string {
    if ak in plan.tiers then plan.tiers[ak] else ""
  }

  /** The tier of the NUMA aggregate is named for M partitions on R roots: it is the tier of (R / M) / R; that is the
      name of 1/M when M divides R, and, if the table has a name for 1/M, only then. */
  ghost predicate NamedFor(tier: string, m: nat, r: nat)
    requires m > 0
  {
    && tier == TierOf(r / m, r)
    && (Divides(m, r) ==> tier == UnitFractionName(m))
    && (UnitFractionName(m) != "" ==> (tier == UnitFractionName(m) <==> Divides(m, r)))
  }

  /** One profile, M >= 2 NUMA partitions and R root partitions with distinct keys. */
  lemma NumaAggregateTier(naming: Naming, rules: seq<TopologyRule>, items: seq<Item>, plan: Plan, profile: string,
                          m: nat, r: nat)
    requires PlanFor(naming, rules, items, plan) && forall x :: x in items ==> x.profile == profile
    requires m == |Filter(items, TypeIs(NumaPartition))| >= 2 && r == |Filter(items, TypeIs(PcieRootPartition))| > 0
    requires Distinct(RootKeys(naming, rules, items))
    ensures NamedFor(TierAt(plan, AggregateKey(profile, NumaPartition)), m, r)
  {
    hide SeenFor, StatesFor, RailsFor, Filter, RootKeys, UnitFractionName, TierOf, RootEntries;
    var ak := AggregateKey(profile, NumaPartition);
    AggregateExists(naming, rules, items, plan.seen, plan.states, profile, NumaPartition);
    AggregateCountsPartitions(naming, rules, items, plan.seen, plan.states, profile, NumaPartition);
    RootCountIff(naming, rules, items, plan.seen, profile);
    assert TierIs(plan.states, r, ak, plan.tiers);
    NumaTierIsProper(m, r);
    if Divides(m, r) { NumaTierIsUnitFraction(m, r); }
    if UnitFractionName(m) != "" { NumaTierIff(m, r); }
  }

  // ---------------------------------------------------------------------
  // One node
  // ---------------------------------------------------------------------

  function Wrap(profile: string, ps: seq<Partition>): seq<Item> {
    seq(|ps|, i requires 0 <= i < |ps| => Item(profile, ps[i]))
  }

  lemma WrapTyped(profile: string, ps: seq<Partition>, t: PartitionType, u: PartitionType)
    requires forall p :: p in ps ==> p.partType == t
    ensures |Filter(Wrap(profile, ps), TypeIs(u))| == if t == u then |ps| else 0
  {
    hide Filter;
    var items := Wrap(profile, ps);
    forall item | item in items ensures item.partition.partType == t {
      var i :| 0 <= i < |items| && items[i] == item;
      assert ps[i] in ps;
    }
    if t == u { FilterAll(items, TypeIs(u)); } else { FilterNone(items, TypeIs(u)); }
  }

  lemma {:induction false} EnrichKeepsType(p: Partition, devices: seq<TopologyDevice>, roots: int)
    ensures Enrich(p, devices, roots).partType == p.partType
  {
    if devices != [] { EnrichKeepsType(p, devices[..|devices| - 1], roots); }
  }

  lemma RootPartitionType(name: string, profile: string, devices: seq<TopologyDevice>)
    ensures PartitionFrom(name, profile, PcieRootPartition, devices).partType == PcieRootPartition
  {
  }

  lemma PcieTyped(node: string, profile: string, e: seq<TopologyDevice>, roots: seq<string>, p: Partition)
    requires p in PciePartitionsOf(node, profile, e, roots)
    ensures p.partType == PcieRootPartition
  {
    hide Enrich, PartitionFrom, RootsOn, OnNuma, OnRoot, ParentNuma;
    var i :| 0 <= i < |roots| && p == PciePartitionFrom(node, profile, i, roots[i], e);
    var own := OnRoot(e, roots[i]);
    var name := node + "-pcieRoot-" + Decimal(i);
    RootPartitionType(name, profile, own);
    EnrichKeepsType(PartitionFrom(name, profile, PcieRootPartition, own), OnNuma(e, ParentNuma(own)),
      |RootsOn(e, ParentNuma(own))|);
  }

  lemma TypeCounts(profile: string, pcie: seq<Partition>, numa: seq<Partition>, full: Partition)
    requires forall p :: p in pcie ==> p.partType == PcieRootPartition
    requires forall p :: p in numa ==> p.partType == NumaPartition
    requires full.partType == FullPartition
    ensures |Filter(Wrap(profile, pcie + numa + [full]), TypeIs(PcieRootPartition))| == |pcie|
    ensures |Filter(Wrap(profile, pcie + numa + [full]), TypeIs(NumaPartition))| == |numa|
  {
    hide Filter, Wrap;
    WrapConcat(profile, pcie + numa, [full]);
    WrapConcat(profile, pcie, numa);
    forall t ensures |Filter(Wrap(profile, pcie + numa + [full]), TypeIs(t))| ==
      |Filter(Wrap(profile, pcie), TypeIs(t))| +
      |Filter(Wrap(profile, numa), TypeIs(t))| + |Filter(Wrap(profile, [full]), TypeIs(t))|
    {
      FilterConcat(Wrap(profile, pcie) + Wrap(profile, numa), Wrap(profile, [full]), TypeIs(t));
      FilterConcat(Wrap(profile, pcie), Wrap(profile, numa), TypeIs(t));
    }
    WrapTyped(profile, pcie, PcieRootPartition, PcieRootPartition);
    WrapTyped(profile, numa, NumaPartition, PcieRootPartition);
    WrapTyped(profile, [full], FullPartition, PcieRootPartition);
    WrapTyped(profile, pcie, PcieRootPartition, NumaPartition);
    WrapTyped(profile, numa, NumaPartition, NumaPartition);
    WrapTyped(profile, [full], FullPartition, NumaPartition);
  }

  lemma WrapConcat(profile: string, a: seq<Partition>, b: seq<Partition>)
    ensures Wrap(profile, a + b) == Wrap(profile, a) + Wrap(profile, b)
  {
  }

  /** A node's root partitions are its named PCIe roots, its NUMA partitions the groups that the rules leave. */
  lemma NodeCounts(node: string, all: seq<TopologyDevice>, grouping: seq<TopologyRule>, profile: string,
                   ps: seq<Partition>)
    returns (numa: seq<Partition>)
    requires NodePartitions(node, all, grouping, profile, ps)
    ensures NumaPartitions(node, profile, NumaGroupsOf(Effective(all)), grouping, numa)
    ensures var items := ItemsOf([PartitionResult(node, profile, ps)]);
      && (forall x :: x in items ==> x.profile == profile)
      && |Filter(items, TypeIs(PcieRootPartition))| == |PcieRootsOf(Effective(all))|
      && |Filter(items, TypeIs(NumaPartition))| == |numa|
  {
    hide NumaPartitions, PciePartitionsOf, PartitionFrom, SortedStrings, Effective, Tally, InferProfile, PcieRootsOf;
    hide NumaGroupsOf, Filter;
    var e := Effective(all);
    var roots, full := SortedStrings(PcieRootsOf(e)), PartitionFrom(node + "-full-0", profile, FullPartition, e);
    var pcie := PciePartitionsOf(node, profile, e, roots);
    numa :| NumaPartitions(node, profile, NumaGroupsOf(e), grouping, numa) && ps == pcie + numa + [full];
    forall p | p in pcie ensures p.partType == PcieRootPartition { PcieTyped(node, profile, e, roots, p); }
    forall p | p in numa ensures p.partType ==
      NumaPartition { NumaTyped(node, profile, NumaGroupsOf(e), grouping, numa, p); }
    FullTyped(node + "-full-0", profile, e);
    TypeCounts(profile, pcie, numa, full);
    OneNode(node, profile, ps);
  }

  lemma OneNode(node: string, profile: string, ps: seq<Partition>)
    ensures ItemsOf([PartitionResult(node, profile, ps)]) == Wrap(profile, ps)
  {
    var r := PartitionResult(node, profile, ps);
    assert [r][..0] == [];
    assert ItemsIn(r) == Wrap(profile, ps);
  }

  /** On one node with R named PCIe roots whose partitions have distinct keys, and M >= 2 NUMA partitions. */
  lemma NodeTier(naming: Naming, matching: seq<TopologyRule>, node: string, all: seq<TopologyDevice>,
                 grouping: seq<TopologyRule>, profile: string, ps: seq<Partition>, plan: Plan, m: nat)
    requires NodePartitions(node, all, grouping, profile, ps)
    requires PlanFor(naming, matching, ItemsOf([PartitionResult(node, profile, ps)]), plan)
    requires m == |Filter(ItemsOf([PartitionResult(node, profile, ps)]), TypeIs(NumaPartition))| >= 2
    requires |PcieRootsOf(Effective(all))| > 0
    requires Distinct(RootKeys(naming, matching, ItemsOf([PartitionResult(node, profile, ps)])))
    ensures NamedFor(TierAt(plan, AggregateKey(profile, NumaPartition)), m, |PcieRootsOf(Effective(all))|)
  {
    hide NodePartitions, PlanFor, Filter, ItemsOf, PcieRootsOf, Effective, RootKeys, NumaPartitions, NamedFor;
    var numa := NodeCounts(node, all, grouping, profile, ps);
    NumaAggregateTier(naming, matching, ItemsOf([PartitionResult(node, profile, ps)]), plan, profile, m,
      |PcieRootsOf(Effective(all))|);
  }
}
