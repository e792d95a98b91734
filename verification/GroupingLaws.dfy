/** What the grouping passes guarantee: exact and aligned instances, no double allocation, and rail
    indices that do not depend on the order in which devices are listed. */
module GroupingLaws {
  import opened Collections
  import opened Text
  import opened Topology
  import opened CounterGroups
  import opened Allocation
  import opened AllocationLaws
  import opened GroupingBuilder

  // ---------------------------------------------------------------------
  // Exact and aligned
  // ---------------------------------------------------------------------

  /** The alignment key of every instance of a pass, in order. */
  function Origins(devices: seq<TopologyDevice>, wanted: seq<GroupingDevice>, alignment: Alignment,
                   classOf: string -> string, keys: seq<string>): seq<string>
    requires PositiveCounts(wanted)
  {
    if keys == [] then [] else
      var k := keys[|keys| - 1];
      Origins(devices, wanted, alignment, classOf, keys[..|keys| - 1]) +
      seq(Rounds(GroupStock(devices, alignment, k), classOf, wanted), _ => k)
  }

  /** A list with exactly the requested devices of every class, all drawn from one alignment group. */
  ghost predicate ExactInstance(devices: seq<TopologyDevice>, wanted: seq<GroupingDevice>, alignment: Alignment,
                                classOf: string -> string,
                                list: seq<TopologyDevice>, k: string) {
    && (forall d :: d in list ==> d in devices && AlignKey(alignment)(d) == k)
    && (forall c :: |Filter(list, KeyIs(ClassKey(classOf), c))| == Demand(wanted, c))
  }

  lemma GroupStockMembers(devices: seq<TopologyDevice>, alignment: Alignment, k: string)
    ensures forall d :: d in GroupStock(devices, alignment, k) ==> d in devices && AlignKey(alignment)(d) == k
  {
    FilterMembers(devices, KeyIs(AlignKey(alignment), k));
    EffectiveMembers(Filter(devices, KeyIs(AlignKey(alignment), k)));
  }

  lemma {:induction false} AllInstancesAt(devices: seq<TopologyDevice>, classOf: string -> string,
                                          wanted: seq<GroupingDevice>, n: nat, i: nat)
    requires i < n
    ensures AllInstances(devices, classOf, wanted, n)[i] == InstanceDevices(devices, classOf, wanted, i)
  {
    if i < n - 1 { AllInstancesAt(devices, classOf, wanted, n - 1, i); }
  }

  lemma SubsetMembers<T(!new)>(s: seq<T>, t: seq<T>)
    requires multiset(s) <= multiset(t)
    ensures forall x :: x in s ==> x in t
  {
    forall x | x in s ensures x in t {
      assert x in multiset(s);
      assert x in multiset(t);
    }
  }

  lemma {:induction false} GroupPlanExact(devices: seq<TopologyDevice>, wanted: seq<GroupingDevice>,
                                          alignment: Alignment, classOf: string -> string, k: string, i: nat)
    requires PositiveCounts(wanted) && GroupFits(devices, wanted, alignment, classOf, k)
    requires i < |GroupPlan(devices, wanted, alignment, classOf, k)|
    ensures ExactInstance(devices, wanted, alignment, classOf, GroupPlan(devices, wanted, alignment, classOf, k)[i], k)
  {
    hide GroupStock, Rounds, Fits, AllInstances, InstanceDevices;
    var stock := GroupStock(devices, alignment, k);
    var n := Rounds(stock, classOf, wanted);
    var lists := AllInstances(stock, classOf, wanted, n);
    AllInstancesAt(stock, classOf, wanted, n, i);
    NoDoubleUse(stock, classOf, wanted, n);
    SubsetMembers(Flatten(lists), stock);
    FlattenMembers(lists);
    GroupStockMembers(devices, alignment, k);
    forall c ensures |Filter(lists[i], KeyIs(ClassKey(classOf), c))| == Demand(wanted, c) {
      InstanceExact(stock, classOf, wanted, n, i, c);
    }
    forall d | d in lists[i] ensures d in devices && AlignKey(alignment)(d) == k {
      assert d in Flatten(lists);
    }
  }

  /** Every instance of a pass is exact and comes from the group that Origins names. */
  lemma {:induction false} PlanExact(devices: seq<TopologyDevice>, wanted: seq<GroupingDevice>, alignment: Alignment,
                                     classOf: string -> string, keys: seq<string>)
    requires PositiveCounts(wanted) && PassFits(devices, wanted, alignment, classOf, keys)
    ensures |Plan(devices, wanted, alignment, classOf, keys)| == |Origins(devices, wanted, alignment, classOf, keys)|
    ensures forall i :: 0 <= i < |Plan(devices, wanted, alignment, classOf, keys)| ==>
      ExactInstance(devices, wanted, alignment, classOf, Plan(devices, wanted, alignment, classOf, keys)[i],
        Origins(devices, wanted, alignment, classOf, keys)[i])
  {
    hide ExactInstance, GroupFits, GroupStock, Rounds, GroupPlan;
    if keys != [] {
      var init, k := keys[..|keys| - 1], keys[|keys| - 1];
      assert forall x :: x in init ==> x in keys;
      assert k in keys;
      PlanExact(devices, wanted, alignment, classOf, init);
      GroupPlanLength(devices, wanted, alignment, classOf, k);
      forall i | 0 <= i < |GroupPlan(devices, wanted, alignment, classOf, k)|
        ensures ExactInstance(devices, wanted, alignment, classOf, GroupPlan(devices, wanted, alignment, classOf, k)[i],
          k)
      {
        GroupPlanExact(devices, wanted, alignment, classOf, k, i);
      }
    }
  }

  /** The value of the alignment attribute that a device carries. */
  function AlignValue(alignment: Alignment, d: TopologyDevice): Option<string> {
    match alignment
    case AlignPcieRoot => d.pcieRoot
    case AlignNumaNode => if d.numaNode.Some? then Some(Decimal(d.numaNode.value)) else None
    case AlignSocket => if d.socket.Some? then Some(Decimal(d.socket.value)) else None
  }

  /** The devices of an instance share a non-empty value of the alignment attribute if and only if its alignment key
      is not "": devices without the attribute form a group of their own, which yields instances like any other. */
  lemma AlignedIff(devices: seq<TopologyDevice>, wanted: seq<GroupingDevice>, alignment: Alignment,
                   classOf: string -> string, list: seq<TopologyDevice>, k: string)
    requires ExactInstance(devices, wanted, alignment, classOf, list, k) && list != []
    ensures k != "" <==> exists v :: v != "" && forall d :: d in list ==> AlignValue(alignment, d) == Some(v)
  {
    hide Decimal, Demand;
    assert list[0] in list;
    forall d | d in list
      ensures AlignValue(alignment, d) == Some(k) || (k == "" && AlignValue(alignment, d).None?)
    {
      assert AlignKey(alignment)(d) == k;
    }
    if k != "" { assert forall d :: d in list ==> AlignValue(alignment, d) == Some(k); }
  }

  /** A group yields the minimum over the entries of floor(available / count) instances. */
  lemma GroupPlanLength(devices: seq<TopologyDevice>, wanted: seq<GroupingDevice>, alignment: Alignment,
                        classOf: string -> string, k: string)
    requires PositiveCounts(wanted)
    ensures var n, stock := |GroupPlan(devices, wanted, alignment, classOf, k)|, GroupStock(devices, alignment, k);
      n == Rounds(stock, classOf, wanted)
    ensures var n, stock := |GroupPlan(devices, wanted, alignment, classOf, k)|, GroupStock(devices, alignment, k);
      if wanted == [] then n == 0 else
      && (forall g :: g in wanted ==> n <= |Stock(stock, classOf, g.deviceClass)| / g.count)
      && (exists g :: g in wanted && n == |Stock(stock, classOf, g.deviceClass)| / g.count)
  {
    hide GroupStock, Stock;
    MaxInstancesIsMin(GroupStock(devices, alignment, k), classOf, wanted);
  }

  // ---------------------------------------------------------------------
  // The published counts
  // ---------------------------------------------------------------------

  function Classes(wanted: seq<GroupingDevice>): set<string> {
    set g | g in wanted :: g.deviceClass
  }

  function DemandMap(wanted: seq<GroupingDevice>): map<string, int> {
    map c | c in Classes(wanted) :: Demand(wanted, c)
  }

  lemma {:induction false} DemandPositive(wanted: seq<GroupingDevice>, c: string)
    requires PositiveCounts(wanted)
    ensures if c in Classes(wanted) then Demand(wanted, c) >= 1 else Demand(wanted, c) == 0
  {
    if wanted != [] {
      var init, last := wanted[..|wanted| - 1], wanted[|wanted| - 1];
      assert wanted == init + [last];
      assert last in wanted;
      assert forall g :: g in init ==> g in wanted;
      DemandPositive(init, c);
      assert Classes(wanted) == Classes(init) + {last.deviceClass};
    }
  }

  /** The counts of an exact instance are the counts of the grouping. */
  lemma ExactCounts(devices: seq<TopologyDevice>, wanted: seq<GroupingDevice>, alignment: Alignment,
                    classOf: string -> string, list: seq<TopologyDevice>, k: string)
    requires PositiveCounts(wanted) && ExactInstance(devices, wanted, alignment, classOf, list, k)
    ensures ClassTally(list, classOf) == DemandMap(wanted)
  {
    hide Demand;
    var key := ClassKey(classOf);
    forall c ensures c in KeySet(list, key) <==> c in Classes(wanted) {
      DemandPositive(wanted, c);
      FilterMembers(list, KeyIs(key, c));
      assert |Filter(list, KeyIs(key, c))| == Demand(wanted, c);
      if c in Classes(wanted) {
        var d := Filter(list, KeyIs(key, c))[0];
        assert d in Filter(list, KeyIs(key, c));
        assert key(d) == c;
      }
    }
  }

  // ---------------------------------------------------------------------
  // No double allocation
  // ---------------------------------------------------------------------

  lemma AlignKeysDistinct(devices: seq<TopologyDevice>, alignment: Alignment)
    ensures Distinct(AlignKeys(devices, alignment))
  {
    SortedStringsAscending(KeySet(devices, AlignKey(alignment)));
  }

  /** The instances of one group are drawn, without repetition, from that group's effective devices. */
  lemma {:induction false} GroupPlanSubset(devices: seq<TopologyDevice>, wanted: seq<GroupingDevice>,
                                           alignment: Alignment, classOf: string -> string, k: string)
    requires PositiveCounts(wanted) && GroupFits(devices, wanted, alignment, classOf, k)
    ensures multiset(Flatten(GroupPlan(devices, wanted, alignment, classOf, k))) <=
      multiset(GroupStock(devices, alignment, k))
  {
    hide GroupStock, Rounds, Fits, AllInstances, Flatten;
    var stock := GroupStock(devices, alignment, k);
    NoDoubleUse(stock, classOf, wanted, Rounds(stock, classOf, wanted));
  }

  lemma GroupStockCount(devices: seq<TopologyDevice>, alignment: Alignment, k: string, d: TopologyDevice)
    ensures multiset(GroupStock(devices, alignment, k))[d] <=
      if AlignKey(alignment)(d) == k then multiset(devices)[d] else 0
  {
    hide Effective;
    var group := Filter(devices, KeyIs(AlignKey(alignment), k));
    EffectiveSubset(group);
    FilterMultiset(devices, KeyIs(AlignKey(alignment), k));
  }

  lemma {:induction false} PlanUse(devices: seq<TopologyDevice>, wanted: seq<GroupingDevice>, alignment: Alignment,
                                   classOf: string -> string, keys: seq<string>, d: TopologyDevice)
    requires PositiveCounts(wanted) && PassFits(devices, wanted, alignment, classOf, keys) && Distinct(keys)
    ensures multiset(Flatten(Plan(devices, wanted, alignment, classOf, keys)))[d] <=
      if AlignKey(alignment)(d) in keys then multiset(devices)[d] else 0
  {
    hide GroupFits, GroupStock, GroupPlan, AlignKey, Flatten;
    if keys == [] {
      assert Flatten<TopologyDevice>([]) == [] by { FlattenNothing(); }
    } else {
      var init, k := keys[..|keys| - 1], keys[|keys| - 1];
      assert keys == init + [k];
      PlanUse(devices, wanted, alignment, classOf, init, d);
      GroupPlanSubset(devices, wanted, alignment, classOf, k);
      GroupStockCount(devices, alignment, k, d);
      FlattenConcat(Plan(devices, wanted, alignment, classOf, init), GroupPlan(devices, wanted, alignment, classOf, k));
      assert k !in init;
    }
  }

  lemma FlattenNothing()
    ensures Flatten<TopologyDevice>([]) == []
  {
  }

  /** One pass uses no device twice, over all its alignment groups. */
  lemma {:induction false} PassNoDoubleUse(devices: seq<TopologyDevice>, grouping: DeviceGrouping,
                                           alignment: Alignment, classOf: string -> string)
    requires PositiveCounts(grouping.devices)
    requires PassFits(devices, grouping.devices, alignment, classOf, AlignKeys(devices, alignment))
    ensures multiset(Flatten(PassPlan(devices, grouping, alignment, classOf))) <= multiset(devices)
  {
    hide PassFits, Plan, Flatten, AlignKeys;
    AlignKeysDistinct(devices, alignment);
    var keys := AlignKeys(devices, alignment);
    forall d ensures multiset(Flatten(PassPlan(devices, grouping, alignment, classOf)))[d] <= multiset(devices)[d] {
      PlanUse(devices, grouping.devices, alignment, classOf, keys, d);
    }
  }

  // ---------------------------------------------------------------------
  // Counter sets
  // ---------------------------------------------------------------------

  /** The groups among `keys` that hold a variant of a physical resource. */
  function GroupsHolding(devices: seq<TopologyDevice>, alignment: Alignment, keys: seq<string>,
                         ck: GroupKey): set<string> {
    set k | k in keys && k in KeySet(Variants(devices, ck), AlignKey(alignment))
  }

  lemma GroupDrawsOnce(devices: seq<TopologyDevice>, wanted: seq<GroupingDevice>, alignment: Alignment,
                       classOf: string -> string, k: string, ck: GroupKey)
    requires PositiveCounts(wanted) && GroupFits(devices, wanted, alignment, classOf, k)
    ensures |Variants(Flatten(GroupPlan(devices, wanted, alignment, classOf, k)), ck)| <=
      if k in KeySet(Variants(devices, ck), AlignKey(alignment)) then 1 else 0
  {
    hide GroupFits, GroupPlan, Flatten, Effective, AlignKey;
    var group := Filter(devices, KeyIs(AlignKey(alignment), k));
    GroupPlanSubset(devices, wanted, alignment, classOf, k);
    FilterSubset(Flatten(GroupPlan(devices, wanted, alignment, classOf, k)), Effective(group),
      KeyIs(CounterKey, Some(ck)));
    EffectiveVariants(group, ck);
    if ck in CounterKeys(group) {
      var d :| d in group && CounterKey(d) == Some(ck);
      FilterMembers(devices, KeyIs(AlignKey(alignment), k));
      VariantsMembers(devices, ck);
      assert d in Variants(devices, ck);
    }
  }

  lemma {:induction false} PlanDraws(devices: seq<TopologyDevice>, wanted: seq<GroupingDevice>, alignment: Alignment,
                                     classOf: string -> string, keys: seq<string>, ck: GroupKey)
    requires PositiveCounts(wanted) && PassFits(devices, wanted, alignment, classOf, keys) && Distinct(keys)
    ensures |Variants(Flatten(Plan(devices, wanted, alignment, classOf, keys)), ck)| <=
      |GroupsHolding(devices, alignment, keys, ck)|
  {
    hide GroupFits, GroupPlan, Flatten, AlignKey, KeySet, CounterKey, GroupsHolding, Filter;
    if keys == [] {
      NoDraws(ck);
    } else {
      var init, k := keys[..|keys| - 1], keys[|keys| - 1];
      assert keys == init + [k];
      PlanDraws(devices, wanted, alignment, classOf, init, ck);
      GroupDrawsOnce(devices, wanted, alignment, classOf, k, ck);
      var before, more := Plan(devices, wanted, alignment, classOf, init),
        GroupPlan(devices, wanted, alignment, classOf, k);
      FlattenConcat(before, more);
      FilterConcat(Flatten(before), Flatten(more), KeyIs(CounterKey, Some(ck)));
      assert k !in init;
      HoldingSnoc(devices, alignment, init, k, ck);
    }
  }

  lemma NoDraws(ck: GroupKey)
    ensures Variants(Flatten([]), ck) == []
  {
  }

  lemma HoldingSnoc(devices: seq<TopologyDevice>, alignment: Alignment, init: seq<string>, k: string, ck: GroupKey)
    requires k !in init
    ensures |GroupsHolding(devices, alignment, init + [k], ck)| ==
      |GroupsHolding(devices, alignment, init, ck)| +
        if k in KeySet(Variants(devices, ck), AlignKey(alignment)) then 1 else 0
  {
    hide KeySet, Variants, AlignKey;
    assert GroupsHolding(devices, alignment, init + [k], ck) == GroupsHolding(devices, alignment, init, ck) +
      if k in KeySet(Variants(devices, ck), AlignKey(alignment)) then {k} else {};
  }

  /** Within one pass a counter set is drawn on at most once per alignment key of its variants; so at most
      once if all its variants share one alignment key. */
  lemma {:induction false} PassDrawsOnCounterSet(devices: seq<TopologyDevice>, grouping: DeviceGrouping,
                                                 alignment: Alignment, classOf: string -> string, ck: GroupKey)
    requires PositiveCounts(grouping.devices)
    requires PassFits(devices, grouping.devices, alignment, classOf, AlignKeys(devices, alignment))
    ensures |Variants(Flatten(PassPlan(devices, grouping, alignment, classOf)), ck)| <=
      |KeySet(Variants(devices, ck), AlignKey(alignment))|
  {
    hide PassFits, Plan, Flatten, AlignKeys, KeySet, Variants;
    AlignKeysDistinct(devices, alignment);
    var keys := AlignKeys(devices, alignment);
    PlanDraws(devices, grouping.devices, alignment, classOf, keys, ck);
    SubsetSize(GroupsHolding(devices, alignment, keys, ck), KeySet(Variants(devices, ck), AlignKey(alignment)));
  }

  // ---------------------------------------------------------------------
  // Rail determinism
  // ---------------------------------------------------------------------

  /** Two stocks with as many devices of every class. */
  ghost predicate SameStock(a: seq<TopologyDevice>, b: seq<TopologyDevice>, classOf: string -> string) {
    forall c :: |Stock(a, classOf, c)| == |Stock(b, classOf, c)|
  }

  lemma {:induction false} SameStockSameMax(a: seq<TopologyDevice>, b: seq<TopologyDevice>, classOf: string -> string,
                                            wanted: seq<GroupingDevice>)
    requires PositiveCounts(wanted) && SameStock(a, b, classOf)
    ensures MaxInstances(a, classOf, wanted) == MaxInstances(b, classOf, wanted)
  {
    hide Stock;
    if wanted != [] {
      assert forall g :: g in wanted[..|wanted| - 1] ==> g in wanted;
      SameStockSameMax(a, b, classOf, wanted[..|wanted| - 1]);
    }
  }

  lemma ClassByDriver(classOf: string -> string, c: string)
    ensures ByDriver(KeyIs(ClassKey(classOf), c))
  {
    forall d: TopologyDevice, e: TopologyDevice | d.driverName == e.driverName
      ensures KeyIs(ClassKey(classOf), c)(d) == KeyIs(ClassKey(classOf), c)(e)
    {
      assert Base(d) == Base(e);
    }
  }

  lemma PermutedStock(a: seq<TopologyDevice>, b: seq<TopologyDevice>, alignment: Alignment, classOf: string -> string,
                      k: string)
    requires multiset(a) == multiset(b)
    ensures SameStock(GroupStock(a, alignment, k), GroupStock(b, alignment, k), classOf)
  {
    hide Effective;
    FilterPermutation(a, b, KeyIs(AlignKey(alignment), k));
    forall c ensures |Stock(GroupStock(a, alignment, k), classOf, c)| ==
      |Stock(GroupStock(b, alignment, k), classOf, c)| {
      ClassByDriver(classOf, c);
      EffectivePermutation(Filter(a, KeyIs(AlignKey(alignment), k)), Filter(b, KeyIs(AlignKey(alignment), k)),
        KeyIs(ClassKey(classOf), c));
    }
  }

  lemma PermutedGroup(a: seq<TopologyDevice>, b: seq<TopologyDevice>, wanted: seq<GroupingDevice>,
                      alignment: Alignment, classOf: string -> string, k: string)
    requires PositiveCounts(wanted) && multiset(a) == multiset(b)
    ensures Rounds(GroupStock(a, alignment, k), classOf, wanted) == Rounds(GroupStock(b, alignment, k), classOf, wanted)
    ensures GroupFits(a, wanted, alignment, classOf, k) <==> GroupFits(b, wanted, alignment, classOf, k)
  {
    hide GroupStock, MaxInstances, Stock;
    PermutedStock(a, b, alignment, classOf, k);
    SameStockSameMax(GroupStock(a, alignment, k), GroupStock(b, alignment, k), classOf, wanted);
  }

  lemma {:induction false} PermutedOrigins(a: seq<TopologyDevice>, b: seq<TopologyDevice>, wanted: seq<GroupingDevice>,
                                           alignment: Alignment, classOf: string -> string, keys: seq<string>)
    requires PositiveCounts(wanted) && multiset(a) == multiset(b)
    ensures Origins(a, wanted, alignment, classOf, keys) == Origins(b, wanted, alignment, classOf, keys)
    ensures PassFits(a, wanted, alignment, classOf, keys) <==> PassFits(b, wanted, alignment, classOf, keys)
  {
    hide GroupStock, Rounds, GroupFits;
    forall k ensures GroupFits(a, wanted, alignment, classOf, k) <==> GroupFits(b, wanted, alignment, classOf, k) {
      PermutedGroup(a, b, wanted, alignment, classOf, k);
    }
    if keys != [] {
      PermutedOrigins(a, b, wanted, alignment, classOf, keys[..|keys| - 1]);
      PermutedGroup(a, b, wanted, alignment, classOf, keys[|keys| - 1]);
    }
  }

  lemma PermutedKeys(a: seq<TopologyDevice>, b: seq<TopologyDevice>, alignment: Alignment)
    requires multiset(a) == multiset(b)
    ensures AlignKeys(a, alignment) == AlignKeys(b, alignment)
  {
    PermutationMembers(a, b);
    assert KeySet(a, AlignKey(alignment)) == KeySet(b, AlignKey(alignment));
  }

  ghost predicate AllKeyed(inst: GroupingInstance, alignment: Alignment, k: string) {
    forall d :: d in inst.devices ==> AlignKey(alignment)(d) == k
  }

  /** Reordering the devices leaves the number of instances, and for every position the rail index, the
      alignment key and the device counts, even if other variants are chosen as representatives. */
  lemma {:induction false} RailsDeterministic(node: string, a: seq<TopologyDevice>, b: seq<TopologyDevice>,
                                              grouping: DeviceGrouping, alignment: Alignment, classOf: string -> string)
    requires PositiveCounts(grouping.devices) && multiset(a) == multiset(b)
    requires PassFits(a, grouping.devices, alignment, classOf, AlignKeys(a, alignment))
    ensures PassFits(b, grouping.devices, alignment, classOf, AlignKeys(b, alignment))
    ensures var x := InstancesFrom(node, grouping, alignment, classOf, PassPlan(a, grouping, alignment, classOf));
            var y := InstancesFrom(node, grouping, alignment, classOf, PassPlan(b, grouping, alignment, classOf));
      && |x| == |y|
      && forall i :: 0 <= i < |x| ==>
           && x[i].railIndex == y[i].railIndex == i
           && x[i].deviceCounts == y[i].deviceCounts == DemandMap(grouping.devices)
           && exists k :: AllKeyed(x[i], alignment, k) && AllKeyed(y[i], alignment, k)
  {
    hide PassFits, Plan, Origins, AlignKeys;
    var keys, wanted := AlignKeys(a, alignment), grouping.devices;
    PermutedKeys(a, b, alignment);
    PermutedOrigins(a, b, wanted, alignment, classOf, keys);
    PlanExact(a, wanted, alignment, classOf, keys);
    PlanExact(b, wanted, alignment, classOf, keys);
    var pa, pb, origins := PassPlan(a, grouping, alignment, classOf), PassPlan(b, grouping, alignment, classOf),
      Origins(a, wanted, alignment, classOf, keys);
    forall i | 0 <= i < |pa| ensures SameRail(node, grouping, alignment, classOf, pa[i], pb[i], i) {
      assert ExactInstance(a, wanted, alignment, classOf, pa[i], origins[i]);
      assert ExactInstance(b, wanted, alignment, classOf, pb[i], origins[i]);
      RailAt(node, a, b, grouping, alignment, classOf, pa[i], pb[i], origins[i], i);
    }
  }

  ghost predicate SameRail(node: string, grouping: DeviceGrouping, alignment: Alignment, classOf: string -> string,
                           la: seq<TopologyDevice>, lb: seq<TopologyDevice>, i: nat) {
    var x, y := InstanceFrom(node, grouping, alignment, classOf, la, i),
      InstanceFrom(node, grouping, alignment, classOf, lb, i);
    && x.railIndex == y.railIndex == i
    && x.deviceCounts == y.deviceCounts == DemandMap(grouping.devices)
    && exists k :: AllKeyed(x, alignment, k) && AllKeyed(y, alignment, k)
  }

  lemma RailAt(node: string, a: seq<TopologyDevice>, b: seq<TopologyDevice>, grouping: DeviceGrouping,
               alignment: Alignment, classOf: string -> string,
               la: seq<TopologyDevice>, lb: seq<TopologyDevice>, k: string, i: nat)
    requires PositiveCounts(grouping.devices)
    requires ExactInstance(a, grouping.devices, alignment, classOf, la, k)
    requires ExactInstance(b, grouping.devices, alignment, classOf, lb, k)
    ensures SameRail(node, grouping, alignment, classOf, la, lb, i)
  {
    ExactCounts(a, grouping.devices, alignment, classOf, la, k);
    ExactCounts(b, grouping.devices, alignment, classOf, lb, k);
    assert AllKeyed(InstanceFrom(node, grouping, alignment, classOf, la, i), alignment, k);
    assert AllKeyed(InstanceFrom(node, grouping, alignment, classOf, lb, i), alignment, k);
  }

  // ---------------------------------------------------------------------
  // Both passes
  // ---------------------------------------------------------------------

  lemma UsedIdsOfPlan(node: string, grouping: DeviceGrouping, alignment: Alignment, classOf: string -> string,
                      plan: seq<seq<TopologyDevice>>, d: TopologyDevice)
    requires d in Flatten(plan)
    ensures DeviceId(d) in UsedIds(InstancesFrom(node, grouping, alignment, classOf, plan))
  {
    FlattenMembers(plan);
    var i :| 0 <= i < |plan| && d in plan[i];
    assert d in InstancesFrom(node, grouping, alignment, classOf, plan)[i].devices;
  }

  /** Preferred and fallback instances never share a (driver, device) pair, and together use no device twice. */
  lemma {:induction false} NoDoubleAllocation(node: string, devices: seq<TopologyDevice>, grouping: DeviceGrouping,
                                              classOf: string -> string, fallback: Alignment)
    requires PositiveCounts(grouping.devices)
    requires PassFits(devices, grouping.devices, grouping.alignment, classOf, AlignKeys(devices, grouping.alignment))
    requires var preferred :=
      InstancesFrom(node, grouping, grouping.alignment, classOf,
      PassPlan(devices, grouping, grouping.alignment, classOf));
      var rest := Remaining(devices, preferred);
      PassFits(rest, grouping.devices, fallback, classOf, AlignKeys(rest, fallback))
    ensures var first := PassPlan(devices, grouping, grouping.alignment, classOf);
      var rest := Remaining(devices, InstancesFrom(node, grouping, grouping.alignment, classOf, first));
      var second := PassPlan(rest, grouping, fallback, classOf);
      && (forall d, e :: d in Flatten(first) && e in Flatten(second) ==> DeviceId(d) != DeviceId(e))
      && multiset(Flatten(first)) + multiset(Flatten(second)) <= multiset(devices)
  {
    hide PassFits, PassPlan, Flatten, AlignKeys, InstancesFrom, UsedIds;
    var first := PassPlan(devices, grouping, grouping.alignment, classOf);
    var preferred := InstancesFrom(node, grouping, grouping.alignment, classOf, first);
    var rest := Remaining(devices, preferred);
    var second := PassPlan(rest, grouping, fallback, classOf);
    PassNoDoubleUse(devices, grouping, grouping.alignment, classOf);
    PassNoDoubleUse(rest, grouping, fallback, classOf);
    SubsetMembers(Flatten(second), rest);
    FilterMembers(devices, Unused(UsedIds(preferred)));
    forall d | d in Flatten(first) ensures DeviceId(d) in UsedIds(preferred) {
      UsedIdsOfPlan(node, grouping, grouping.alignment, classOf, first, d);
    }
    FilterMultiset(devices, Unused(UsedIds(preferred)));
    forall d ensures multiset(Flatten(first))[d] + multiset(Flatten(second))[d] <= multiset(devices)[d] {
      assert d in multiset(Flatten(first)) <==> d in Flatten(first);
    }
  }
}
