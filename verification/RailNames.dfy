/** Class names carry a rail index.  Collection of partition classes goes by keys, which do not, so a class whose
    rail changed keeps its old name; and the two passes of a grouping both number their rails from 0. */
module RailNames {
  import opened Collections
  import opened Text
  import opened Topology
  import opened PartitionBuilder
  import opened PartitionConfigs
  import opened Allocation
  import opened GroupingBuilder
  import opened Aggregates
  import opened ClassKeys
  import opened GroupingClasses
  import opened Tiers
  import opened ClusterPartitions
  import opened DeviceClasses
  import opened RootKeysApart
  import opened CounterGroups
  import opened Refinement
  import opened SplitRuns
  import opened NumaGroups
  import opened BuiltClasses
  import opened NodeTiers

  // ---------------------------------------------------------------------
  // Reading a rail
  // ---------------------------------------------------------------------

  lemma DigitsOnly(n: nat)
    ensures var d := Decimal(n); d != "" && forall i :: 0 <= i < |d| ==> IsDigit(d[i])
  {
    var d := Digits(n);
    forall i | 0 <= i < |d| ensures IsDigit(d[i]) { assert d[i] in d; }
  }

  /** A name with a rail gives back both. */
  lemma RailReadable(a: string, m: nat, b: string, n: nat)
    requires WithRail(a, m) == WithRail(b, n)
    ensures a == b && m == n
  {
    hide Decimal;
    DigitsOnly(m);
    DigitsOnly(n);
    var s, d, e := WithRail(a, m), Decimal(m), Decimal(n);
    var p, q := |s| - |d|, |s| - |e|;
    assert s == (a + "-rail") + d && s == (b + "-rail") + e;
    assert s[p - 1] == 'l' && s[q - 1] == 'l';
    assert forall i :: p <= i < |s| ==> IsDigit(s[i]) by {
      forall i | p <= i < |s| ensures IsDigit(s[i]) { assert s[i] == d[i - p]; }
    }
    assert forall i :: q <= i < |s| ==> IsDigit(s[i]) by {
      forall i | q <= i < |s| ensures IsDigit(s[i]) { assert s[i] == e[i - q]; }
    }
    assert p == q;
    assert d == s[p..] && e == s[q..];
    DecimalInjective(m, n);
    assert a == s[..p - 5] && b == s[..q - 5];
  }

  lemma RailEndsInDigit(base: string, rail: nat)
    ensures var s := WithRail(base, rail); s != "" && IsDigit(s[|s| - 1])
  {
    hide Decimal;
    DigitsOnly(rail);
    var s, d := WithRail(base, rail), Decimal(rail);
    assert s[|s| - 1] == d[|d| - 1];
  }

  // ---------------------------------------------------------------------
  // Partition classes
  // ---------------------------------------------------------------------

  /** What survives a sync is what it published, if and only if no older class with an active key has another name. */
  lemma OnlyPublishedIff(before: Store, published: Store, active: set<string>)
    requires Keyed(published, active)
    ensures var after := Collected(before + published, active);
      (forall n :: n in after && after[n].PartitionLabels? ==> n in published) <==>
      !exists n :: n in before && n !in published && before[n].PartitionLabels? && KeyFromLabels(before[n]) in active
  {
    hide KeyFromLabels;
    var after := Collected(before + published, active);
    if n :| n in before && n !in published && before[n].PartitionLabels? && KeyFromLabels(before[n]) in active {
      assert n in after && after[n] == before[n];
    }
  }

  lemma CancelHead(head: string, x: string, y: string)
    requires head + x == head + y
    ensures x == y
  {
    assert (head + x)[|head|..] == x && (head + y)[|head|..] == y;
  }

  lemma KeyByTail(naming: Naming, rules: seq<TopologyRule>, item: Item, e: Entry)
    requires StandsFor(naming, rules, KeyOf(naming, rules, item), e, item)
    ensures KeyOf(naming, rules, item) == naming.truncate(item.profile) + "-" + TypeName(e.partType) + Tail(e)
  {
    hide CouplingOf, Suffix, CouplingName, TypeName, DashIf;
    var head, s, c := naming.truncate(item.profile) + "-" +
      TypeName(e.partType), Suffix(e.partType, e.rep), DashIf(CouplingName(e.coupling));
    assert head + s + c == head + (s + c);
  }

  /** Entries of one profile and type have different base names under different keys. */
  lemma BaseNamesApart(naming: Naming, rules: seq<TopologyRule>, a: Item, b: Item, e: Entry, f: Entry)
    requires StandsFor(naming, rules, KeyOf(naming, rules, a), e, a)
    requires StandsFor(naming, rules, KeyOf(naming, rules, b), f, b)
    requires a.profile == b.profile && e.partType == f.partType && BaseName(naming, e) == BaseName(naming, f)
    ensures KeyOf(naming, rules, a) == KeyOf(naming, rules, b)
  {
    hide KeyOf, Tail, TypeName;
    KeyByTail(naming, rules, a, e);
    KeyByTail(naming, rules, b, f);
    assert e.profile == f.profile;
    CancelHead(naming.className(e.profile, e.partType), Tail(e), Tail(f));
  }

  lemma EntryItem(naming: Naming, rules: seq<TopologyRule>, items: seq<Item>, seen: Seen, k: string)
    returns (item: Item)
    requires SeenFor(naming, rules, items, seen) && k in seen
    ensures item in items && KeyOf(naming, rules, item) == k && StandsFor(naming, rules, k, seen[k], item)
  {
    hide KeyOf, Filter;
    assert EntryFor(naming, rules, items, k, seen[k]);
    FilterMembers(items, KeyIs(ItemKey(naming, rules), k));
    item := Filter(items, KeyIs(ItemKey(naming, rules), k))[0];
    assert item in Filter(items, KeyIs(ItemKey(naming, rules), k));
  }

  lemma FixedNamesEndInLetter(m: nat, t: PartitionType)
    ensures UnitFractionName(m) != "" ==> !IsDigit(UnitFractionName(m)[|UnitFractionName(m)| - 1])
    ensures !IsDigit(TypeName(t)[|TypeName(t)| - 1])
  {
  }

  lemma TierEndsInLetter(plan: Plan, ak: AggregateKey)
    requires PlanOf(plan) && ak in plan.tiers && ak in plan.states && plan.states[ak].count >= 1
    ensures plan.tiers[ak] != "" && !IsDigit(plan.tiers[ak][|plan.tiers[ak]| - 1])
  {
    hide RailsFor, StatesFor, UnitFractionName, TypeName, RootEntries;
    var r := |RootEntries(plan.seen)|;
    assert TierIs(plan.states, r, ak, plan.tiers);
    var n := if ak.partType.PcieRootPartition? then 1 else r / plan.states[ak].count;
    FixedNamesEndInLetter(if n > 0 then r / n else 0, ak.partType);
  }

  /** A NUMA partition knows its NUMA nodes and a root partition its root, as built ones do (`BuiltPlaced`). */
  predicate PlacedPartition(p: Partition) {
    (p.partType.PcieRootPartition? ==> p.pcieRoots != []) && (p.partType.NumaPartition? ==> p.numaNodes != [])
  }

  predicate Placed(e: Entry) {
    (e.partType.PcieRootPartition? ==> e.rep.pcieRoots != []) && (e.partType.NumaPartition? ==> e.rep.numaNodes != [])
  }

  lemma CouplingEndsInLetter(c: Coupling)
    ensures CouplingName(c) != "" ==> !IsDigit(CouplingName(c)[|CouplingName(c)| - 1])
  {
  }

  /** A name that ends in "-numa", digits and dashes does not end in "-rail" and digits. */
  lemma NumaIsNoRail(head: string, numas: seq<int>, base: string, rail: nat)
    requires numas != []
    ensures head + NumaKeySuffix(numas) != WithRail(base, rail)
  {
    hide NumaKeySuffix, Decimal;
    NumaPartShape(numas);
    DigitsOnly(rail);
    var n, d := NumaKeySuffix(numas), Decimal(rail);
    var s, t := head + n, WithRail(base, rail);
    var p, q := |t| - |d|, |s| - (|n| - 5);
    assert t == (base + "-rail") + d;
    assert n == "-numa" + n[5..];
    assert s == (head + "-numa") + n[5..];
    assert t[p - 1] == 'l' && s[q - 1] == 'a';
    assert forall i :: p <= i < |t| ==> t[i] == d[i - p];
    assert forall i :: q <= i < |s| ==> s[i] == n[5..][i - q];
  }

  lemma NumaNameDiffers(naming: Naming, e: Entry, base: string, rail: nat)
    requires e.partType.NumaPartition? && e.rep.numaNodes != []
    ensures BaseName(naming, e) != WithRail(base, rail)
  {
    hide NumaKeySuffix, CouplingName, WithRail;
    var c, n, cl := naming.className(e.profile, e.partType), NumaKeySuffix(e.rep.numaNodes), CouplingName(e.coupling);
    CouplingEndsInLetter(e.coupling);
    RailEndsInDigit(base, rail);
    NumaIsNoRail(c, e.rep.numaNodes, base, rail);
    assert Suffix(e.partType, e.rep) == n;
    assert BaseName(naming, e) == c + n + DashIf(cl);
    if cl == "" {
      assert BaseName(naming, e) == c + n;
    } else {
      var s := c + n + ("-" + cl);
      assert s[|s| - 1] == cl[|cl| - 1];
    }
  }

  /** The old name of a re-railed root entry is not published again. */
  lemma OldRailUnpublished(naming: Naming, rules: seq<TopologyRule>, items: seq<Item>, plan: Plan, profile: string,
                           k: string, rail: nat)
    requires PlanFor(naming, rules, items, plan) && forall x :: x in items ==> x.profile == profile
    requires forall j :: j in plan.seen ==> Placed(plan.seen[j])
    requires k in plan.rails && plan.rails[k] != rail
    ensures WithRail(BaseName(naming, plan.seen[k]), rail) !in PlannedNames(naming, plan)
  {
    hide SeenFor, StatesFor, TiersFor, KeyOf, StandsFor, BaseName, WithRail, TypeName, EntryName, Placed;
    assert k in plan.seen by { RailsAreSeen(plan); }
    hide RailsFor, RailKeys;
    var n := WithRail(BaseName(naming, plan.seen[k]), rail);
    RailEndsInDigit(BaseName(naming, plan.seen[k]), rail);
    SeenKeys(naming, rules, items, plan.seen);
    CountsPositive(naming, rules, items, plan.seen, plan.states);
    forall j | j in plan.seen ensures EntryName(naming, j, plan.seen[j], plan.rails) != n {
      NameDiffers(naming, rules, items, plan, profile, k, rail, j);
    }
    forall ak | ak in plan.states ensures TypeName(ak.partType) != n { FixedNamesEndInLetter(0, ak.partType); }
    forall ak | ak in plan.tiers ensures plan.tiers[ak] != n { TierKeysAreStates(plan); TierEndsInLetter(plan, ak); }
  }

  lemma RailsAreSeen(plan: Plan)
    requires PlanOf(plan)
    ensures plan.rails.Keys <= plan.seen.Keys
  {
  }

  lemma TierKeysAreStates(plan: Plan)
    requires PlanOf(plan)
    ensures plan.tiers.Keys <= plan.states.Keys
  {
  }

  lemma NameDiffers(naming: Naming, rules: seq<TopologyRule>, items: seq<Item>, plan: Plan, profile: string, k: string,
                    rail: nat, j: string)
    requires SeenFor(naming, rules, items, plan.seen) && RailsFor(plan.seen, RailKeys(plan.seen), plan.rails)
    requires forall x :: x in items ==> x.profile == profile
    requires k in plan.rails && plan.rails[k] != rail && j in plan.seen && Placed(plan.seen[j])
    ensures EntryName(naming, j, plan.seen[j], plan.rails) != WithRail(BaseName(naming, plan.seen[k]), rail)
  {
    hide SeenFor, KeyOf, StandsFor, Suffix, CouplingName;
    var e, f := plan.seen[k], plan.seen[j];
    RailEndsInDigit(BaseName(naming, e), rail);
    if f.partType.PcieRootPartition? {
      assert j in plan.rails;
      assert EntryName(naming, j, f, plan.rails) == WithRail(BaseName(naming, f), plan.rails[j]);
      if EntryName(naming, j, f, plan.rails) == WithRail(BaseName(naming, e), rail) {
        RailReadable(BaseName(naming, f), plan.rails[j], BaseName(naming, e), rail);
        var a := EntryItem(naming, rules, items, plan.seen, k);
        var b := EntryItem(naming, rules, items, plan.seen, j);
        BaseNamesApart(naming, rules, a, b, e, f);
      }
    } else if f.partType.NumaPartition? {
      NumaNameDiffers(naming, f, BaseName(naming, e), rail);
    } else {
      assert EntryName(naming, j, f, plan.rails) == "full" && !IsDigit("full"[3]);
    }
  }

  /** A root class whose rail changes stays in the cluster under its old name: its key is still active and the
      sync publishes it under another name. */
  lemma RerailedClassStays(naming: Naming, rules: seq<TopologyRule>, items: seq<Item>, plan: Plan, profile: string,
                           before: Store, published: Store, k: string, rail: nat)
    requires PlanFor(naming, rules, items, plan) && RootsNamed(items) && forall x :: x in items ==> x.profile == profile
    requires forall j :: j in plan.seen ==> Placed(plan.seen[j])
    requires k in plan.rails && plan.rails[k] != rail && published.Keys == PlannedNames(naming, plan)
    requires var was := WithRail(BaseName(naming, plan.seen[k]), rail);
      was in before && before[was] == EntryLabels(naming, plan.seen[k])
    ensures var was := WithRail(BaseName(naming, plan.seen[k]), rail);
      was !in published && was in Collected(before + published, ActiveKeys(naming, plan))
  {
    hide SeenFor, StatesFor, TiersFor, KeyFromLabels, EntryLabels, PlannedNames, WithRail, BaseName, RootsNamed;
    OldRailUnpublished(naming, rules, items, plan, profile, k, rail);
    assert k in plan.seen;
    EntryKeyed(naming, rules, items, plan.seen, k);
  }

  lemma NumaField(name: string, profile: string, devices: seq<TopologyDevice>, d: TopologyDevice)
    requires d in devices && d.numaNode.Some?
    ensures PartitionFrom(name, profile, NumaPartition, devices).numaNodes != []
  {
    hide SortedStrings, Tally, Effective, FirstExtended;
    assert d.numaNode.value in NumaSet(devices);
  }

  lemma BuiltNumaPlaced(node: string, profile: string, e: seq<TopologyDevice>, rules: seq<TopologyRule>,
                        numa: seq<Partition>, p: Partition)
    requires NumaPartitions(node, profile, NumaGroupsOf(e), rules, numa) && p in numa
    ensures p.numaNodes != []
  {
    hide SplitsAll, SortedStrings, NumaGroupsOf, PartitionFrom, PartsOf, IsPartition, FirstCapacity;
    var final :| SplitsAll(NumaGroupsOf(e), rules, final) &&
      numa == NumaPartitionsOf(node, profile, final, SortedStrings(final.Keys));
    var keys, placed := SortedStrings(final.Keys), Filter(e, HasNuma);
    var i :| 0 <= i < |keys| && p == NumaPartitionFrom(node, profile, i, final[keys[i]]);
    assert keys[i] in keys;
    NumaSplitExact(e);
    PartitionParts(NumaGroupsOf(e), placed);
    RunParts(NumaGroupsOf(e), placed, rules, final);
    var d := PartMember(final, placed, keys[i]);
    FilterMembers(e, HasNuma);
    NumaField(node + "-numa-" + Decimal(i), profile, final[keys[i]], d);
  }

  lemma PartMember(groups: Groups, devices: seq<TopologyDevice>, k: string) returns (d: TopologyDevice)
    requires PartsOf(groups, devices) && k in groups
    ensures d in groups[k] && d in devices
  {
    FilterMembers(devices, In(groups[k]));
    d := groups[k][0];
    assert d in groups[k];
  }

  /** Every built partition is placed. */
  lemma BuiltPlaced(node: string, all: seq<TopologyDevice>, rules: seq<TopologyRule>, profile: string,
                    ps: seq<Partition>, p: Partition)
    requires NodePartitions(node, all, rules, profile, ps) && p in ps
    ensures PlacedPartition(p)
  {
    hide NumaPartitions, PciePartitionFrom, PartitionFrom, SortedStrings, Effective, Tally, InferProfile, PcieRootsOf;
    hide NumaGroupsOf;
    var e := Effective(all);
    var roots := SortedStrings(PcieRootsOf(e));
    var pcie := PciePartitionsOf(node, profile, e, roots);
    var numa :|
      && NumaPartitions(node, profile, NumaGroupsOf(e), rules, numa)
      && ps == pcie + numa + [PartitionFrom(node + "-full-0", profile, FullPartition, e)];
    if p in pcie {
      var i :| 0 <= i < |roots| && p == PciePartitionFrom(node, profile, i, roots[i], e);
      assert roots[i] in roots;
      BuiltOnRoot(node, profile, i, roots[i], e);
    } else if p in numa {
      NumaTyped(node, profile, NumaGroupsOf(e), rules, numa, p);
      BuiltNumaPlaced(node, profile, e, rules, numa, p);
    } else {
      FullTyped(node + "-full-0", profile, e);
    }
  }

  /** So are the entries that stand for placed partitions. */
  lemma EntriesPlaced(naming: Naming, rules: seq<TopologyRule>, items: seq<Item>, seen: Seen, k: string)
    requires SeenFor(naming, rules, items, seen) && k in seen
    requires forall x :: x in items ==> PlacedPartition(x.partition)
    ensures Placed(seen[k])
  {
    hide SeenFor, KeyOf;
    var item := EntryItem(naming, rules, items, seen, k);
  }

  // ---------------------------------------------------------------------
  // Grouping classes
  // ---------------------------------------------------------------------

  /** Two instances publish under one name if and only if they have one sanitized grouping name and one rail. */
  lemma RailNameEqualIff(a: GroupingInstance, b: GroupingInstance)
    requires a.railIndex >= 0 && b.railIndex >= 0
    ensures RailName(a) == RailName(b) <==>
      SanitizeForName(a.groupingName) == SanitizeForName(b.groupingName) && a.railIndex == b.railIndex
  {
    hide SanitizeForName, Decimal;
    if RailName(a) == RailName(b) {
      RailReadable(SanitizeForName(a.groupingName), a.railIndex, SanitizeForName(b.groupingName), b.railIndex);
    }
  }

  /** The preferred and the fallback pass of one grouping both start at rail 0: when both yield an instance, the
      first two share a name although their keys differ, so one class stands for both. */
  lemma PassesShareRailName(node: string, grouping: DeviceGrouping, classOf: string -> string, fallback: Alignment,
                            first: seq<seq<TopologyDevice>>, second: seq<seq<TopologyDevice>>,
                              truncate: string -> string)
    requires first != [] && second != [] && grouping.alignment != fallback
    ensures var a := InstancesFrom(node, grouping, grouping.alignment, classOf, first)[0];
      var b := InstancesFrom(node, grouping, fallback, classOf, second)[0];
      RailName(a) == RailName(b) && GroupingKey(truncate, a) != GroupingKey(truncate, b)
  {
    hide SanitizeForName, Decimal, ClassTally, CapacityOf, SortedInts, SortedStrings, JoinWith;
    var a := InstancesFrom(node, grouping, grouping.alignment, classOf, first)[0];
    var b := InstancesFrom(node, grouping, fallback, classOf, second)[0];
    AlignmentInKey(truncate, a);
    AlignmentInKey(truncate, b);
    AlignmentLetters();
  }

  lemma AlignmentInKey(truncate: string -> string, inst: GroupingInstance)
    ensures var k, n := GroupingKey(truncate, inst), |truncate(inst.groupingName)| + 1;
      |k| > n && k[n] == AlignmentName(inst.alignment)[0]
  {
    hide SanitizeForName, JoinWith;
  }

  lemma AlignmentLetters()
    ensures AlignmentName(AlignPcieRoot)[0] == 'p' && AlignmentName(AlignNumaNode)[0] == 'n'
    ensures AlignmentName(AlignSocket)[0] == 's'
  {
  }
}
