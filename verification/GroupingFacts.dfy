/** How many instances a pass yields and from what, and that the class check in front of the passes is sound. */
module GroupingFacts {
  import opened Collections
  import opened Text
  import opened Topology
  import opened CounterGroups
  import opened Allocation
  import opened AllocationLaws
  import opened GroupingBuilder
  import opened GroupingLaws

  // ---------------------------------------------------------------------
  // Instances per alignment group
  // ---------------------------------------------------------------------

  function Is(k: string): string -> bool {
    x => x == k
  }

  lemma {:induction false} Repeated(n: nat, k: string, k': string)
    ensures |Filter(seq(n, _ => k), Is(k'))| == if k == k' then n else 0
  {
    if k == k' {
      FilterAll(seq(n, _ => k), Is(k'));
    } else {
      FilterNone(seq(n, _ => k), Is(k'));
    }
  }

  lemma {:induction false} OriginsCount(devices: seq<TopologyDevice>, wanted: seq<GroupingDevice>, alignment: Alignment,
                                        classOf: string -> string, keys: seq<string>, k: string)
    requires PositiveCounts(wanted) && Distinct(keys)
    ensures |Filter(Origins(devices, wanted, alignment, classOf, keys), Is(k))| ==
      if k in keys then Rounds(GroupStock(devices, alignment, k), classOf, wanted) else 0
  {
    hide GroupStock, Rounds, Filter;
    if keys == [] {
      FilterNone<string>([], Is(k));
    } else {
      var init, last := keys[..|keys| - 1], keys[|keys| - 1];
      assert keys == init + [last];
      OriginsCount(devices, wanted, alignment, classOf, init, k);
      var n := Rounds(GroupStock(devices, alignment, last), classOf, wanted);
      Repeated(n, last, k);
      FilterConcat(Origins(devices, wanted, alignment, classOf, init), seq(n, _ => last), Is(k));
      assert last !in init;
    }
  }

  /** The effective devices of the alignment group that belong to a class. */
  function GroupSupply(devices: seq<TopologyDevice>, alignment: Alignment, classOf: string -> string, k: string,
                       c: string): nat {
    |Stock(Effective(Filter(devices, KeyIs(AlignKey(alignment), k))), classOf, c)|
  }

  /** Which alignment group every planned list comes from. */
  ghost predicate FromGroups(devices: seq<TopologyDevice>, wanted: seq<GroupingDevice>, alignment: Alignment,
                             classOf: string -> string, plan: seq<seq<TopologyDevice>>, groups: seq<string>) {
    |plan| == |groups| &&
    forall i :: 0 <= i < |plan| ==> ExactInstance(devices, wanted, alignment, classOf, plan[i], groups[i])
  }

  /** How many instances one value of the alignment attribute yields: none when no device has it, otherwise the
      minimum over the entries of floor(devices of the class / count). */
  ghost predicate GroupYields(devices: seq<TopologyDevice>, wanted: seq<GroupingDevice>, alignment: Alignment,
                              classOf: string -> string, k: string, n: int)
    requires PositiveCounts(wanted)
  {
    if exists d :: d in devices && AlignKey(alignment)(d) == k
    then IsMinimum(devices, wanted, alignment, classOf, k, n) else n == 0
  }

  /** A pass yields what its alignment groups yield, each instance exact and drawn from one group, and no other
      instance. */
  lemma PassPerGroup(devices: seq<TopologyDevice>, grouping: DeviceGrouping, alignment: Alignment,
                     classOf: string -> string)
    requires PositiveCounts(grouping.devices) && grouping.devices != []
    requires PassFits(devices, grouping.devices, alignment, classOf, AlignKeys(devices, alignment))
    ensures exists groups ::
      && FromGroups(devices, grouping.devices, alignment, classOf, PassPlan(devices, grouping, alignment, classOf),
        groups)
      && forall k :: GroupYields(devices, grouping.devices, alignment, classOf, k, |Filter(groups, Is(k))|)
  {
    hide GroupStock, Rounds, Filter, PassFits, Plan, ExactInstance, Origins, GroupYields;
    var keys, wanted := AlignKeys(devices, alignment), grouping.devices;
    PlanExact(devices, wanted, alignment, classOf, keys);
    var groups := Origins(devices, wanted, alignment, classOf, keys);
    assert FromGroups(devices, wanted, alignment, classOf, PassPlan(devices, grouping, alignment, classOf), groups);
    forall k ensures GroupYields(devices, wanted, alignment, classOf, k, |Filter(groups, Is(k))|) {
      YieldOf(devices, wanted, alignment, classOf, k);
    }
  }

  lemma YieldOf(devices: seq<TopologyDevice>, wanted: seq<GroupingDevice>, alignment: Alignment,
                classOf: string -> string, k: string)
    requires PositiveCounts(wanted) && wanted != []
    ensures GroupYields(devices, wanted, alignment, classOf, k,
      |Filter(Origins(devices, wanted, alignment, classOf, AlignKeys(devices, alignment)), Is(k))|)
  {
    hide GroupStock, Rounds, Filter, Origins, IsMinimum, AlignKey, Sorted;
    AlignKeysDistinct(devices, alignment);
    OriginsCount(devices, wanted, alignment, classOf, AlignKeys(devices, alignment), k);
    RoundsMinimum(devices, wanted, alignment, classOf, k);
  }

  ghost predicate IsMinimum(devices: seq<TopologyDevice>, wanted: seq<GroupingDevice>, alignment: Alignment,
                            classOf: string -> string, k: string, n: int)
    requires PositiveCounts(wanted)
  {
    && (forall g :: g in wanted ==> n <= GroupSupply(devices, alignment, classOf, k, g.deviceClass) / g.count)
    && exists g :: g in wanted && n == GroupSupply(devices, alignment, classOf, k, g.deviceClass) / g.count
  }

  lemma RoundsMinimum(devices: seq<TopologyDevice>, wanted: seq<GroupingDevice>, alignment: Alignment,
                      classOf: string -> string, k: string)
    requires PositiveCounts(wanted) && wanted != []
    ensures IsMinimum(devices, wanted, alignment, classOf, k,
      Rounds(GroupStock(devices, alignment, k), classOf, wanted))
  {
    hide Stock, Effective, Filter;
    MaxInstancesIsMin(GroupStock(devices, alignment, k), classOf, wanted);
  }

  function DevicesOf(instances: seq<GroupingInstance>): seq<seq<TopologyDevice>> {
    seq(|instances|, i requires 0 <= i < |instances| => instances[i].devices)
  }

  /** The instances are what the alignment groups of the devices yield. */
  ghost predicate PassYields(devices: seq<TopologyDevice>, wanted: seq<GroupingDevice>, alignment: Alignment,
                             classOf: string -> string, instances: seq<GroupingInstance>)
    requires PositiveCounts(wanted)
  {
    exists groups ::
      && FromGroups(devices, wanted, alignment, classOf, DevicesOf(instances), groups)
      && forall k :: GroupYields(devices, wanted, alignment, classOf, k, |Filter(groups, Is(k))|)
  }

  lemma InstancesYield(node: string, devices: seq<TopologyDevice>, grouping: DeviceGrouping, alignment: Alignment,
                       classOf: string -> string)
    requires PositiveCounts(grouping.devices) && grouping.devices != []
    requires PassFits(devices, grouping.devices, alignment, classOf, AlignKeys(devices, alignment))
    ensures PassYields(devices, grouping.devices, alignment, classOf,
      InstancesFrom(node, grouping, alignment, classOf, PassPlan(devices, grouping, alignment, classOf)))
  {
    hide FromGroups, GroupYields, Filter, PassFits, PassPlan, InstanceFrom;
    PassPerGroup(devices, grouping, alignment, classOf);
    var plan := PassPlan(devices, grouping, alignment, classOf);
    PlannedDevices(node, grouping, alignment, classOf, plan);
  }

  lemma PlannedDevices(node: string, grouping: DeviceGrouping, alignment: Alignment, classOf: string -> string,
                       plan: seq<seq<TopologyDevice>>)
    ensures DevicesOf(InstancesFrom(node, grouping, alignment, classOf, plan)) == plan
  {
    hide ClassTally, CapacityOf;
  }

  /** An evaluation gives what the preferred alignment yields from all devices and what the fallback alignment, when
      there is one, yields from the devices that are left. */
  lemma EvaluationYields(node: string, devices: seq<TopologyDevice>, grouping: DeviceGrouping,
                         classOf: string -> string,
                         preferred: seq<GroupingInstance>, fallback: seq<GroupingInstance>)
    requires PositiveCounts(grouping.devices) && grouping.devices != [] && BothFit(node, devices, grouping, classOf)
    requires preferred == PreferredInstances(node, devices, grouping, classOf)
    requires Fallbacks(node, devices, grouping, classOf, preferred, fallback)
    ensures PassYields(devices, grouping.devices, grouping.alignment, classOf, preferred)
    ensures grouping.fallback.None? ==> fallback == []
    ensures grouping.fallback.Some? ==> PassYields(Remaining(devices, preferred), grouping.devices,
      grouping.fallback.value, classOf, fallback)
  {
    hide PassYields, PassFits, PassPlan, InstancesFrom, Remaining;
    InstancesYield(node, devices, grouping, grouping.alignment, classOf);
    if grouping.fallback.Some? {
      InstancesYield(node, Remaining(devices, preferred), grouping, grouping.fallback.value, classOf);
    }
  }

  /** The n-th instance of a pass has rail n, the names of its grouping and alignment, and its own devices. */
  lemma InstanceAt(node: string, grouping: DeviceGrouping, alignment: Alignment, classOf: string -> string,
                   plan: seq<seq<TopologyDevice>>, n: nat)
    requires n < |plan|
    ensures var inst := InstancesFrom(node, grouping, alignment, classOf, plan)[n];
      && inst.railIndex == n && inst.groupingName == grouping.name && inst.alignment == alignment
      && inst.devices == plan[n]
  {
    hide ClassTally, CapacityOf;
  }

  // ---------------------------------------------------------------------
  // What is left for the fallback pass
  // ---------------------------------------------------------------------

  ghost predicate PlainNames(devices: seq<TopologyDevice>) {
    forall d :: d in devices ==> '/' !in d.deviceName
  }

  lemma SameIdIff(d: TopologyDevice, e: TopologyDevice)
    requires '/' !in d.deviceName && '/' !in e.deviceName
    ensures DeviceId(d) == DeviceId(e) <==> d.driverName == e.driverName && d.deviceName == e.deviceName
  {
    if DeviceId(d) == DeviceId(e) {
      SameTail(d.driverName, d.deviceName, e.driverName, e.deviceName);
    }
  }

  lemma SameTail(a: string, x: string, b: string, y: string)
    requires '/' !in x && '/' !in y && a + "/" + x == b + "/" + y
    ensures a == b && x == y
  {
    var s, t := a + "/" + x, b + "/" + y;
    assert s[|a|] == '/' && t[|b|] == '/';
    assert forall i :: |a| < i < |s| ==> s[i] in x;
    assert forall i :: |b| < i < |t| ==> t[i] in y;
    assert |a| == |b|;
    assert s[..|a|] == a && t[..|b|] == b && s[|a| + 1..] == x && t[|b| + 1..] == y;
  }

  /** Some instance holds a device of the same driver and name. */
  ghost predicate Taken(instances: seq<GroupingInstance>, d: TopologyDevice) {
    exists i, e :: 0 <= i < |instances| && e in instances[i].devices && e.driverName == d.driverName &&
      e.deviceName == d.deviceName
  }

  /** The fallback pass gets every device that no preferred instance holds, and only those. */
  lemma RemainingIff(devices: seq<TopologyDevice>, preferred: seq<GroupingInstance>, d: TopologyDevice)
    requires PlainNames(devices)
    requires forall i, e :: 0 <= i < |preferred| && e in preferred[i].devices ==> e in devices
    ensures d in Remaining(devices, preferred) <==> d in devices && !Taken(preferred, d)
  {
    hide DeviceId, Filter;
    FilterMembers(devices, Unused(UsedIds(preferred)));
    if d in devices {
      forall i, e | 0 <= i < |preferred| && e in preferred[i].devices
        ensures DeviceId(e) == DeviceId(d) <==> e.driverName == d.driverName && e.deviceName == d.deviceName
      {
        SameIdIff(e, d);
      }
      UsedIff(preferred, d);
    }
  }

  lemma UsedIff(preferred: seq<GroupingInstance>, d: TopologyDevice)
    ensures DeviceId(d) in UsedIds(preferred) <==>
      exists i, e :: 0 <= i < |preferred| && e in preferred[i].devices && DeviceId(e) == DeviceId(d)
  {
    hide DeviceId;
  }

  // ---------------------------------------------------------------------
  // The class check
  // ---------------------------------------------------------------------

  /** The physical resources whose representative satisfies a condition. */
  function Chosen(devices: seq<TopologyDevice>, keys: seq<GroupKey>, p: TopologyDevice -> bool): set<GroupKey> {
    set k | k in keys && k in CounterKeys(devices) && p(RepresentativeOf(devices, k))
  }

  lemma {:induction false} ChosenCount(devices: seq<TopologyDevice>, keys: seq<GroupKey>, p: TopologyDevice -> bool)
    requires (forall k :: k in keys ==> k in CounterKeys(devices)) && Distinct(keys)
    ensures |Filter(Representatives(devices, keys), p)| == |Chosen(devices, keys, p)|
  {
    hide RepresentativeOf, CounterKeys, Filter, Chosen;
    if keys == [] {
      FilterNone<TopologyDevice>([], p);
      NoneChosen(devices, p);
    } else {
      var init, last := keys[..|keys| - 1], keys[|keys| - 1];
      assert keys == init + [last];
      assert last !in init;
      ChosenCount(devices, init, p);
      FilterSnoc(Representatives(devices, init), RepresentativeOf(devices, last), p);
      ChosenSnoc(devices, init, last, p);
    }
  }

  lemma NoneChosen(devices: seq<TopologyDevice>, p: TopologyDevice -> bool)
    ensures Chosen(devices, [], p) == {}
  {
  }

  lemma ChosenSnoc(devices: seq<TopologyDevice>, init: seq<GroupKey>, last: GroupKey, p: TopologyDevice -> bool)
    requires last in CounterKeys(devices) && last !in init
    ensures |Chosen(devices, init + [last], p)| ==
      |Chosen(devices, init, p)| + if p(RepresentativeOf(devices, last)) then 1 else 0
  {
    hide RepresentativeOf, CounterKeys;
    assert Chosen(devices, init + [last], p) ==
      Chosen(devices, init, p) + if p(RepresentativeOf(devices, last)) then {last} else {};
    assert last !in Chosen(devices, init, p);
  }

  lemma EffectiveParts(devices: seq<TopologyDevice>, p: TopologyDevice -> bool)
    ensures |Filter(Effective(devices), p)| ==
      |Filter(Filter(devices, Standalone), p)| + |Chosen(devices, SortedKeys(CounterKeys(devices)), p)|
  {
    hide CounterKeys, RepresentativeOf, Filter;
    var keys := SortedKeys(CounterKeys(devices));
    SortedKeysDistinct(CounterKeys(devices));
    ChosenCount(devices, keys, p);
    FilterConcat(Filter(devices, Standalone), Representatives(devices, keys), p);
  }

  /** A part of a list never has more effective devices of a driver than the whole list. */
  lemma PartHasFewer(devices: seq<TopologyDevice>, q: TopologyDevice -> bool, p: TopologyDevice -> bool)
    requires ByDriver(p)
    ensures |Filter(Effective(Filter(devices, q)), p)| <= |Filter(Effective(devices), p)|
  {
    hide CounterKeys, RepresentativeOf, Effective, ByDriver;
    var part := Filter(devices, q);
    EffectiveParts(devices, p);
    EffectiveParts(part, p);
    FewerStandalone(devices, q, p);
    PartKeys(devices, q, p);
    SubsetSize(Chosen(part, SortedKeys(CounterKeys(part)), p), Chosen(devices, SortedKeys(CounterKeys(devices)), p));
  }

  lemma FewerStandalone(devices: seq<TopologyDevice>, q: TopologyDevice -> bool, p: TopologyDevice -> bool)
    ensures |Filter(Filter(Filter(devices, q), Standalone), p)| <= |Filter(Filter(devices, Standalone), p)|
  {
    var part := Filter(devices, q);
    forall d ensures multiset(Filter(part, Standalone))[d] <= multiset(Filter(devices, Standalone))[d] {
      FilterMultiset(devices, q);
      FilterMultiset(part, Standalone);
      FilterMultiset(devices, Standalone);
    }
    FilterSubset(Filter(part, Standalone), Filter(devices, Standalone), p);
  }

  lemma PartKeys(devices: seq<TopologyDevice>, q: TopologyDevice -> bool, p: TopologyDevice -> bool)
    requires ByDriver(p)
    ensures var part := Filter(devices, q);
      Chosen(part, SortedKeys(CounterKeys(part)), p) <= Chosen(devices, SortedKeys(CounterKeys(devices)), p)
  {
    hide Filter, CounterKeys, RepresentativeOf, SortedKeys, ByDriver;
    var part := Filter(devices, q);
    forall k | k in CounterKeys(part)
      ensures k in CounterKeys(devices) && p(RepresentativeOf(part, k)) == p(RepresentativeOf(devices, k))
    {
      PartKey(devices, q, p, k);
    }
  }

  lemma PartKey(devices: seq<TopologyDevice>, q: TopologyDevice -> bool, p: TopologyDevice -> bool, k: GroupKey)
    requires ByDriver(p) && k in CounterKeys(Filter(devices, q))
    ensures k in CounterKeys(devices)
    ensures p(RepresentativeOf(Filter(devices, q), k)) == p(RepresentativeOf(devices, k))
  {
    hide Filter, Variants, Representative;
    FilterMembers(devices, q);
    assert k in CounterKeys(devices);
    assert RepresentativeOf(Filter(devices, q), k).driverName == k.driver == RepresentativeOf(devices, k).driverName;
  }

  /** When the check fails, no pass would yield an instance, whatever the alignment: nothing is missed. */
  lemma CheckMissesNothing(devices: seq<TopologyDevice>, grouping: DeviceGrouping, alignment: Alignment,
                           classOf: string -> string)
    requires PositiveCounts(grouping.devices) && !HasRequiredClasses(devices, grouping.devices, classOf)
    ensures PassPlan(devices, grouping, alignment, classOf) == []
  {
    hide Stock, Effective, GroupPlan, AlignKeys, AlignKey;
    var g :| g in grouping.devices && g.count > |Stock(Effective(devices), classOf, g.deviceClass)|;
    forall k ensures GroupPlan(devices, grouping.devices, alignment, classOf, k) == [] {
      ScarceGroup(devices, grouping.devices, alignment, classOf, g, k);
    }
    NoPlan(devices, grouping.devices, alignment, classOf, AlignKeys(devices, alignment));
  }

  lemma ScarceGroup(devices: seq<TopologyDevice>, wanted: seq<GroupingDevice>, alignment: Alignment,
                    classOf: string -> string, g: GroupingDevice, k: string)
    requires PositiveCounts(wanted) && g in wanted
    requires g.count > |Stock(Effective(devices), classOf, g.deviceClass)|
    ensures GroupPlan(devices, wanted, alignment, classOf, k) == []
  {
    hide Effective, AlignKey, GroupPlan, Filter, Rounds, ByDriver;
    GroupPlanLength(devices, wanted, alignment, classOf, k);
    ClassByDriver(classOf, g.deviceClass);
    PartHasFewer(devices, KeyIs(AlignKey(alignment), k), KeyIs(ClassKey(classOf), g.deviceClass));
    var supply := |Stock(GroupStock(devices, alignment, k), classOf, g.deviceClass)|;
    assert supply < g.count;
    NothingOf(supply, g.count);
  }

  lemma NothingOf(supply: nat, count: int)
    requires supply < count
    ensures supply / count == 0
  {
  }

  lemma {:induction false} NoPlan(devices: seq<TopologyDevice>, wanted: seq<GroupingDevice>, alignment: Alignment,
                                  classOf: string -> string, keys: seq<string>)
    requires PositiveCounts(wanted) && forall k :: GroupPlan(devices, wanted, alignment, classOf, k) == []
    ensures Plan(devices, wanted, alignment, classOf, keys) == []
  {
    hide GroupPlan;
    if keys != [] { NoPlan(devices, wanted, alignment, classOf, keys[..|keys| - 1]); }
  }
}
