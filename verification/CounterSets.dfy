/** Counter sets across the two passes of a grouping.  The fallback pass removes the used variants only, not
    their siblings, so both passes can draw on one physical resource: exactly when its variants have more than
    one identity. */
module CounterSets {
  import opened Collections
  import opened Text
  import opened Topology
  import opened CounterGroups
  import opened Allocation
  import opened AllocationLaws
  import opened GroupingBuilder
  import opened GroupingLaws

  /** The variants of a counter set share one alignment key. */
  ghost predicate OneKey(devices: seq<TopologyDevice>, ck: GroupKey, alignment: Alignment) {
    forall d, e :: d in Variants(devices, ck) && e in Variants(devices, ck) ==>
      AlignKey(alignment)(d) == AlignKey(alignment)(e)
  }

  ghost predicate OneId(devices: seq<TopologyDevice>, ck: GroupKey) {
    forall d, e :: d in Variants(devices, ck) && e in Variants(devices, ck) ==> DeviceId(d) == DeviceId(e)
  }

  /** No device outside the counter set has the identity of one of its variants. */
  ghost predicate OwnIds(devices: seq<TopologyDevice>, ck: GroupKey) {
    forall d, e :: d in Variants(devices, ck) && e in devices && DeviceId(d) == DeviceId(e) ==>
      CounterKey(e) == Some(ck)
  }

  /** How often the preferred pass draws on a counter set. */
  ghost function PreferredDraws(devices: seq<TopologyDevice>, grouping: DeviceGrouping, classOf: string -> string,
                                ck: GroupKey): nat
    requires PositiveCounts(grouping.devices)
  {
    |Variants(Flatten(PassPlan(devices, grouping, grouping.alignment, classOf)), ck)|
  }

  /** How often the fallback pass does, over the devices that the preferred pass left. */
  ghost function FallbackDraws(node: string, devices: seq<TopologyDevice>, grouping: DeviceGrouping,
                               classOf: string -> string, ck: GroupKey): nat
    requires PositiveCounts(grouping.devices) && grouping.fallback.Some?
  {
    var rest := Remaining(devices, PreferredInstances(node, devices, grouping, classOf));
    |Variants(Flatten(PassPlan(rest, grouping, grouping.fallback.value, classOf)), ck)|
  }

  // ---------------------------------------------------------------------
  // One identity: at most one draw
  // ---------------------------------------------------------------------

  lemma OneKeyAtMostOne(devices: seq<TopologyDevice>, ck: GroupKey, alignment: Alignment)
    requires OneKey(devices, ck, alignment)
    ensures |KeySet(Variants(devices, ck), AlignKey(alignment))| <= 1
  {
    hide Variants, AlignKey;
    var vs, key := Variants(devices, ck), AlignKey(alignment);
    if vs != [] {
      assert KeySet(vs, key) <= {key(vs[0])};
      SubsetSize(KeySet(vs, key), {key(vs[0])});
    }
  }

  lemma RestVariants(node: string, devices: seq<TopologyDevice>, grouping: DeviceGrouping, classOf: string -> string,
                     ck: GroupKey, d: TopologyDevice)
    requires PositiveCounts(grouping.devices)
    ensures var rest := Remaining(devices, PreferredInstances(node, devices, grouping, classOf));
      d in Variants(rest, ck) <==>
        d in Variants(devices, ck) && DeviceId(d) !in UsedIds(PreferredInstances(node, devices, grouping, classOf))
  {
    hide PreferredInstances, UsedIds, Variants;
    var used := UsedIds(PreferredInstances(node, devices, grouping, classOf));
    FilterMembers(devices, Unused(used));
    VariantsMembers(devices, ck);
    VariantsMembers(Filter(devices, Unused(used)), ck);
  }

  /** A variant that the preferred pass draws is one of the list, and its identity is used. */
  lemma DrawnIsUsed(node: string, devices: seq<TopologyDevice>, grouping: DeviceGrouping, classOf: string -> string,
                    d: TopologyDevice)
    requires PositiveCounts(grouping.devices)
    requires PassFits(devices, grouping.devices, grouping.alignment, classOf, AlignKeys(devices, grouping.alignment))
    requires d in Flatten(PassPlan(devices, grouping, grouping.alignment, classOf))
    ensures d in devices && DeviceId(d) in UsedIds(PreferredInstances(node, devices, grouping, classOf))
  {
    hide PassFits, PassPlan, Flatten, AlignKeys, InstancesFrom, UsedIds;
    var first := PassPlan(devices, grouping, grouping.alignment, classOf);
    PassNoDoubleUse(devices, grouping, grouping.alignment, classOf);
    SubsetMembers(Flatten(first), devices);
    UsedIdsOfPlan(node, grouping, grouping.alignment, classOf, first, d);
  }

  /** One identity and one alignment key per level: the two passes together draw at most once. */
  lemma OneIdOneDraw(node: string, devices: seq<TopologyDevice>, grouping: DeviceGrouping, classOf: string -> string,
                     ck: GroupKey)
    requires PositiveCounts(grouping.devices) && grouping.fallback.Some? && BothFit(node, devices, grouping, classOf)
    requires OneKey(devices, ck, grouping.alignment) && OneKey(devices, ck, grouping.fallback.value)
    requires OneId(devices, ck)
    ensures PreferredDraws(devices, grouping, classOf, ck) + FallbackDraws(node, devices, grouping, classOf, ck) <= 1
  {
    hide PassFits, PassPlan, Flatten, AlignKeys, PreferredInstances, UsedIds, AlignKey, Variants, KeySet, Remaining;
    var first, preferred := PassPlan(devices, grouping, grouping.alignment, classOf),
      PreferredInstances(node, devices, grouping, classOf);
    var rest, fallback := Remaining(devices, preferred), grouping.fallback.value;
    PassDrawsOnCounterSet(devices, grouping, grouping.alignment, classOf, ck);
    OneKeyAtMostOne(devices, ck, grouping.alignment);
    PassDrawsOnCounterSet(rest, grouping, fallback, classOf, ck);
    forall d ensures d in Variants(rest, ck) <==> d in Variants(devices, ck) && DeviceId(d) !in UsedIds(preferred) {
      RestVariants(node, devices, grouping, classOf, ck, d);
    }
    OneKeyAtMostOne(rest, ck, fallback);
    if Variants(Flatten(first), ck) != [] {
      var d := Variants(Flatten(first), ck)[0];
      assert d in Variants(Flatten(first), ck);
      VariantsMembers(Flatten(first), ck);
      DrawnIsUsed(node, devices, grouping, classOf, d);
      VariantsMembers(devices, ck);
      FirstIsMember(Variants(rest, ck));
      assert Variants(rest, ck) == [];
      NoKeys(AlignKey(fallback));
    }
  }

  lemma FirstIsMember<T>(s: seq<T>)
    ensures s != [] ==> s[0] in s
  {
  }

  lemma NoKeys(key: TopologyDevice -> string)
    ensures |KeySet([], key)| == 0
  {
  }

  // ---------------------------------------------------------------------
  // Two identities: some grouping draws twice
  // ---------------------------------------------------------------------

  /** One device of one class. */
  function Single(c: string): seq<GroupingDevice> {
    [GroupingDevice(c, 1, map[])]
  }

  lemma SingleFits(devices: seq<TopologyDevice>, alignment: Alignment, classOf: string -> string, c: string)
    ensures PositiveCounts(Single(c)) && PassFits(devices, Single(c), alignment, classOf, AlignKeys(devices, alignment))
  {
    hide Stock, MaxInstances, Demand, GroupStock, AlignKeys, Fits;
    forall k ensures GroupFits(devices, Single(c), alignment, classOf, k) {
      DistinctClassesFit(GroupStock(devices, alignment, k), classOf, Single(c));
    }
  }

  lemma SingleRounds(stock: seq<TopologyDevice>, classOf: string -> string, c: string)
    ensures PositiveCounts(Single(c)) && Demand(Single(c), c) == 1
    ensures Rounds(stock, classOf, Single(c)) == |Stock(stock, classOf, c)|
  {
    hide Stock, MaxInstances;
    MaxInstancesIsMin(stock, classOf, Single(c));
    assert Single(c)[..0] == [];
  }

  /** Asking for one device of a class takes every effective device of that class. */
  lemma SingleTakesAll(devices: seq<TopologyDevice>, alignment: Alignment, classOf: string -> string, c: string,
                       k: string,
                       d: TopologyDevice)
    requires d in GroupStock(devices, alignment, k) && classOf(Base(d)) == c
    ensures PositiveCounts(Single(c)) && d in Flatten(GroupPlan(devices, Single(c), alignment, classOf, k))
  {
    hide GroupStock, MaxInstances, Flatten, AllInstances, Demand, Fits, Filter;
    var stock, wanted := GroupStock(devices, alignment, k), Single(c);
    var n := |Stock(stock, classOf, c)|;
    SingleRounds(stock, classOf, c);
    DistinctClassesFit(stock, classOf, wanted);
    AllOfClass(stock, classOf, wanted, n, n, c);
    assert Slice(Stock(stock, classOf, c), 0, n) == Stock(stock, classOf, c);
    StockIsOfClass(stock, classOf, c);
    FilterMembers(Flatten(AllInstances(stock, classOf, wanted, n)), KeyIs(ClassKey(classOf), c));
  }

  lemma {:induction false} PlanHasGroup(devices: seq<TopologyDevice>, wanted: seq<GroupingDevice>, alignment: Alignment,
                                        classOf: string -> string, keys: seq<string>, k: string, d: TopologyDevice)
    requires PositiveCounts(wanted) && k in keys && d in Flatten(GroupPlan(devices, wanted, alignment, classOf, k))
    ensures d in Flatten(Plan(devices, wanted, alignment, classOf, keys))
  {
    hide GroupPlan, Flatten;
    var init, last := keys[..|keys| - 1], keys[|keys| - 1];
    assert keys == init + [last];
    FlattenConcat(Plan(devices, wanted, alignment, classOf, init),
      GroupPlan(devices, wanted, alignment, classOf, last));
    if k != last { PlanHasGroup(devices, wanted, alignment, classOf, init, k, d); }
  }

  /** A pass for one device of the class draws on every counter set of that class. */
  lemma SingleDraws(devices: seq<TopologyDevice>, grouping: DeviceGrouping, alignment: Alignment,
                    classOf: string -> string,
                    ck: GroupKey, v: TopologyDevice)
    requires v in Variants(devices, ck) && grouping.devices == Single(classOf(Base(v)))
    ensures PositiveCounts(grouping.devices)
    ensures Variants(Flatten(PassPlan(devices, grouping, alignment, classOf)), ck) != []
  {
    hide Flatten, GroupPlan, Plan, SortedStrings, RepresentativeOf, Effective, AlignKey, CounterKeys, Filter;
    var c, k := classOf(Base(v)), AlignKey(alignment)(v);
    var group := Filter(devices, KeyIs(AlignKey(alignment), k));
    VariantsMembers(devices, ck);
    FilterMembers(devices, KeyIs(AlignKey(alignment), k));
    assert v in group;
    assert ck in CounterKeys(group) by { HasCounterKey(group, v, ck); }
    EffectiveVariants(group, ck);
    var r := RepresentativeOf(group, ck);
    assert r in Variants(Effective(group), ck);
    VariantsMembers(Effective(group), ck);
    SameDriver(v, r);
    SingleTakesAll(devices, alignment, classOf, c, k, r);
    assert k in KeySet(devices, AlignKey(alignment));
    PlanHasGroup(devices, grouping.devices, alignment, classOf, AlignKeys(devices, alignment), k, r);
    VariantsMembers(Flatten(PassPlan(devices, grouping, alignment, classOf)), ck);
  }

  lemma HasCounterKey(devices: seq<TopologyDevice>, v: TopologyDevice, ck: GroupKey)
    requires v in devices && CounterKey(v) == Some(ck)
    ensures ck in CounterKeys(devices)
  {
  }

  lemma SameDriver(v: TopologyDevice, r: TopologyDevice)
    requires CounterKey(v) == CounterKey(r) && CounterKey(v).Some?
    ensures Base(v) == Base(r)
  {
  }

  /** Some variant keeps an unused identity after a pass that draws on the counter set once. */
  lemma SomeVariantLeft(node: string, devices: seq<TopologyDevice>, grouping: DeviceGrouping, classOf: string -> string,
                        ck: GroupKey) returns (v: TopologyDevice)
    requires PositiveCounts(grouping.devices)
    requires PassFits(devices, grouping.devices, grouping.alignment, classOf, AlignKeys(devices, grouping.alignment))
    requires OneKey(devices, ck, grouping.alignment) && OwnIds(devices, ck) && !OneId(devices, ck)
    requires Variants(Flatten(PassPlan(devices, grouping, grouping.alignment, classOf)), ck) != []
    ensures v in Variants(devices, ck) && DeviceId(v) !in UsedIds(PreferredInstances(node, devices, grouping, classOf))
  {
    hide PassFits, PassPlan, Flatten, AlignKeys, AlignKey, Variants, KeySet, InstancesFrom;
    var first := PassPlan(devices, grouping, grouping.alignment, classOf);
    PassDrawsOnCounterSet(devices, grouping, grouping.alignment, classOf, ck);
    OneKeyAtMostOne(devices, ck, grouping.alignment);
    var drawn := Variants(Flatten(first), ck);
    var r := drawn[0];
    assert drawn == [r];
    VariantsMembers(devices, ck);
    var a, b :| a in Variants(devices, ck) && b in Variants(devices, ck) && DeviceId(a) != DeviceId(b);
    v := if DeviceId(a) != DeviceId(r) then a else b;
    if DeviceId(v) in UsedIds(PreferredInstances(node, devices, grouping, classOf)) {
      var d := UsedDevice(node, devices, grouping, classOf, DeviceId(v));
      DrawnIsUsed(node, devices, grouping, classOf, d);
      VariantsMembers(Flatten(first), ck);
    }
  }

  lemma UsedDevice(node: string, devices: seq<TopologyDevice>, grouping: DeviceGrouping, classOf: string -> string,
                   id: string)
    returns (d: TopologyDevice)
    requires PositiveCounts(grouping.devices) && id in UsedIds(PreferredInstances(node, devices, grouping, classOf))
    ensures d in Flatten(PassPlan(devices, grouping, grouping.alignment, classOf)) && DeviceId(d) == id
  {
    hide PassPlan, Flatten;
    var first, preferred := PassPlan(devices, grouping, grouping.alignment, classOf),
      PreferredInstances(node, devices, grouping, classOf);
    var i, e :| 0 <= i < |preferred| && e in preferred[i].devices && DeviceId(e) == id;
    d := e;
    assert d in first[i];
    FlattenMembers(first);
  }

  /** A counter set whose variants have two identities: the grouping of one such device draws in both passes. */
  lemma BothPassesDraw(node: string, devices: seq<TopologyDevice>, preferred: Alignment, fallback: Alignment,
                       classOf: string -> string, ck: GroupKey) returns (grouping: DeviceGrouping)
    requires OneKey(devices, ck, preferred) && OwnIds(devices, ck) && !OneId(devices, ck)
    ensures grouping.alignment == preferred && grouping.fallback == Some(fallback)
    ensures PositiveCounts(grouping.devices) && BothFit(node, devices, grouping, classOf)
    ensures PreferredDraws(devices, grouping, classOf, ck) >= 1
    ensures FallbackDraws(node, devices, grouping, classOf, ck) >= 1
  {
    hide PassFits, PassPlan, Flatten, AlignKeys, AlignKey, Variants, PreferredInstances, UsedIds, Single, Remaining;
    hide OneKey, OwnIds;
    var a :| a in Variants(devices, ck);
    var c := classOf(Base(a));
    grouping := DeviceGrouping("", preferred, Some(fallback), Single(c));
    SingleFits(devices, preferred, classOf, c);
    SingleDraws(devices, grouping, preferred, classOf, ck, a);
    var rest := Remaining(devices, PreferredInstances(node, devices, grouping, classOf));
    SingleFits(rest, fallback, classOf, c);
    var v := SomeVariantLeft(node, devices, grouping, classOf, ck);
    RestVariants(node, devices, grouping, classOf, ck, v);
    VariantsMembers(devices, ck);
    SameDriver(a, v);
    SingleDraws(rest, grouping, fallback, classOf, ck, v);
  }

  /** Over all groupings of two levels at which the variants of a counter set are aligned: no grouping draws on
      it twice if and only if the variants have one identity. */
  lemma CounterSetExclusiveIff(node: string, devices: seq<TopologyDevice>, preferred: Alignment, fallback: Alignment,
                               classOf: string -> string, ck: GroupKey)
    requires OneKey(devices, ck, preferred) && OneKey(devices, ck, fallback) && OwnIds(devices, ck)
    ensures OneId(devices, ck) <==>
      forall grouping: DeviceGrouping :: Exclusive(node, devices, grouping, preferred, fallback, classOf, ck)
  {
    hide OneKey, OwnIds, OneId, BothFit, PreferredDraws, FallbackDraws;
    if OneId(devices, ck) {
      forall grouping: DeviceGrouping ensures Exclusive(node, devices, grouping, preferred, fallback, classOf, ck) {
        if Evaluable(node, devices, grouping, preferred, fallback, classOf) {
          OneIdOneDraw(node, devices, grouping, classOf, ck);
        }
      }
    } else {
      var grouping := BothPassesDraw(node, devices, preferred, fallback, classOf, ck);
      assert !Exclusive(node, devices, grouping, preferred, fallback, classOf, ck);
    }
  }

  /** A grouping of the two levels that the allocator evaluates without overrun. */
  ghost predicate Evaluable(node: string, devices: seq<TopologyDevice>, grouping: DeviceGrouping, preferred: Alignment,
                            fallback: Alignment, classOf: string -> string) {
    && grouping.alignment == preferred && grouping.fallback == Some(fallback)
    && PositiveCounts(grouping.devices) && BothFit(node, devices, grouping, classOf)
  }

  ghost predicate Exclusive(node: string, devices: seq<TopologyDevice>, grouping: DeviceGrouping, preferred: Alignment,
                            fallback: Alignment, classOf: string -> string, ck: GroupKey) {
    Evaluable(node, devices, grouping, preferred, fallback, classOf) ==>
      PreferredDraws(devices, grouping, classOf, ck) + FallbackDraws(node, devices, grouping, classOf, ck) <= 1
  }
}
