/** Device groupings: aligned instances at the preferred level, then instances at the fallback level
    from the devices that are left. */
module GroupingBuilder {
  import opened Collections
  import opened Text
  import opened Topology
  import opened CounterGroups
  import opened Refinement
  import opened PartitionBuilder
  import opened Allocation
  import opened AllocationLaws

  datatype Alignment = AlignPcieRoot | AlignNumaNode | AlignSocket

  function AlignmentName(a: Alignment): string {
    match a
    case AlignPcieRoot => "pcieroot"
    case AlignNumaNode => "numanode"
    case AlignSocket => "socket"
  }

  datatype DeviceGrouping = DeviceGrouping(name: string, alignment: Alignment, fallback: Option<Alignment>,
    devices: seq<GroupingDevice>)

  datatype GroupingInstance = GroupingInstance(
    name: string,
    groupingName: string,
    alignment: Alignment,
    numaNodes: seq<int>,
    pcieRoots: seq<string>,
    sockets: seq<int>,
    deviceCounts: map<string, int>,
    deviceCapacity: map<string, Capacity>,
    devices: seq<TopologyDevice>,
    extended: map<AttributeName, AttributeValue>,
    railIndex: int)

  function AlignKey(a: Alignment): TopologyDevice -> string {
    match a
    case AlignPcieRoot => PcieKey
    case AlignNumaNode => NumaKey
    case AlignSocket => SocketKey
  }

  // ---------------------------------------------------------------------
  // An instance from its devices
  // ---------------------------------------------------------------------

  /** Devices per class. */
  function ClassTally(devices: seq<TopologyDevice>, classOf: string -> string): map<string, int> {
    map c | c in KeySet(devices, ClassKey(classOf)) :: |Filter(devices, KeyIs(ClassKey(classOf), c))|
  }

  lemma ClassTallySnoc(devices: seq<TopologyDevice>, d: TopologyDevice, classOf: string -> string)
    ensures ClassTally(devices + [d], classOf) == Bump(ClassTally(devices, classOf), classOf(Base(d)), 1)
  {
    var all, key := devices + [d], ClassKey(classOf);
    assert KeySet(all, key) == KeySet(devices, key) + {key(d)};
    forall c | c in KeySet(all, key) ensures ClassTally(all, classOf)[c] ==
      Bump(ClassTally(devices, classOf), key(d), 1)[c] {
      FilterSnoc(devices, d, KeyIs(key, c));
      if c !in KeySet(devices, key) { FilterNone(devices, KeyIs(key, c)); }
    }
  }

  function CapacityOf(wanted: seq<GroupingDevice>): map<string, Capacity> {
    if wanted == [] then map[] else
      var before, last := CapacityOf(wanted[..|wanted| - 1]), wanted[|wanted| - 1];
      if last.capacity != map[] then before[last.deviceClass := last.capacity] else before
  }

  function InstanceFrom(node: string, grouping: DeviceGrouping, alignment: Alignment, classOf: string -> string,
                        devices: seq<TopologyDevice>, rail: nat): GroupingInstance {
    GroupingInstance(node + "-" + grouping.name + "-" + AlignmentName(alignment) + "-" +
      Decimal(rail), grouping.name, alignment,
      SortedInts(NumaSet(devices)), SortedStrings(PcieSet(devices)), SortedInts(SocketSet(devices)),
      ClassTally(devices, classOf), CapacityOf(grouping.devices), devices, FirstExtended(devices), rail)
  }

  method BuildInstance(node: string, grouping: DeviceGrouping, alignment: Alignment, classOf: string -> string,
                       devices: seq<TopologyDevice>, rail: nat) returns (inst: GroupingInstance)
    ensures inst == InstanceFrom(node, grouping, alignment, classOf, devices, rail)
  {
    hide ClassTally, PartitionFrom, SortedInts, SortedStrings;
    var counts: map<string, int> := map[];
    assert ClassTally(devices[..0], classOf) == map[] by { EmptyClassTally(classOf); }
    for i := 0 to |devices|
      invariant counts == ClassTally(devices[..i], classOf)
    {
      ClassTallySnoc(devices[..i], devices[i], classOf);
      assert devices[..i + 1] == devices[..i] + [devices[i]];
      counts := Bump(counts, classOf(Base(devices[i])), 1);
    }
    assert devices[..|devices|] == devices;
    var capacity: map<string, Capacity> := map[];
    for j := 0 to |grouping.devices|
      invariant capacity == CapacityOf(grouping.devices[..j])
    {
      assert grouping.devices[..j + 1][..j] == grouping.devices[..j];
      var gd := grouping.devices[j];
      if gd.capacity != map[] { capacity := capacity[gd.deviceClass := gd.capacity]; }
    }
    assert grouping.devices[..|grouping.devices|] == grouping.devices;
    var numa, pcie, sockets, extended := Places(devices);
    inst := GroupingInstance(node + "-" + grouping.name + "-" + AlignmentName(alignment) + "-" +
      Decimal(rail), grouping.name, alignment,
      SortedInts(numa), SortedStrings(pcie), SortedInts(sockets), counts, capacity, devices, extended, rail);
  }

  lemma EmptyClassTally(classOf: string -> string)
    ensures ClassTally([], classOf) == map[]
  {
  }

  method Places(devices: seq<TopologyDevice>)
    returns (numa: set<int>, pcie: set<string>, sockets: set<int>, extended: map<AttributeName, AttributeValue>)
    ensures numa == NumaSet(devices) && pcie == PcieSet(devices) && sockets == SocketSet(devices)
    ensures extended == FirstExtended(devices)
  {
    hide NumaSet, PcieSet, SocketSet;
    NoPlaces();
    numa, pcie, sockets, extended := {}, {}, {}, map[];
    for i := 0 to |devices|
      invariant numa == NumaSet(devices[..i]) && pcie == PcieSet(devices[..i]) && sockets == SocketSet(devices[..i])
      invariant extended == FirstExtended(devices[..i])
    {
      var d := devices[i];
      PlacesSnoc(devices[..i], d);
      assert devices[..i + 1] == devices[..i] + [d];
      assert devices[..i + 1][..i] == devices[..i];
      if d.numaNode.Some? { numa := numa + {d.numaNode.value}; }
      if d.pcieRoot.Some? { pcie := pcie + {d.pcieRoot.value}; }
      if d.socket.Some? { sockets := sockets + {d.socket.value}; }
      extended := d.extended + extended;
    }
    assert devices[..|devices|] == devices;
  }

  // ---------------------------------------------------------------------
  // One pass
  // ---------------------------------------------------------------------

  /** The effective devices of one alignment group. */
  function GroupStock(devices: seq<TopologyDevice>, alignment: Alignment, k: string): seq<TopologyDevice> {
    Effective(Filter(devices, KeyIs(AlignKey(alignment), k)))
  }

  function AlignKeys(devices: seq<TopologyDevice>, alignment: Alignment): seq<string> {
    SortedStrings(KeySet(devices, AlignKey(alignment)))
  }

  /** The device lists of the instances that one group yields. */
  function GroupPlan(devices: seq<TopologyDevice>, wanted: seq<GroupingDevice>, alignment: Alignment,
                     classOf: string -> string, k: string): seq<seq<TopologyDevice>>
    requires PositiveCounts(wanted)
  {
    var stock := GroupStock(devices, alignment, k);
    AllInstances(stock, classOf, wanted, Rounds(stock, classOf, wanted))
  }

  ghost predicate GroupFits(devices: seq<TopologyDevice>, wanted: seq<GroupingDevice>, alignment: Alignment,
                            classOf: string -> string, k: string)
    requires PositiveCounts(wanted)
  {
    var stock := GroupStock(devices, alignment, k);
    Fits(stock, classOf, wanted, Rounds(stock, classOf, wanted))
  }

  /** The device lists of the instances over the given groups, in order. */
  function Plan(devices: seq<TopologyDevice>, wanted: seq<GroupingDevice>, alignment: Alignment,
                classOf: string -> string, keys: seq<string>): seq<seq<TopologyDevice>>
    requires PositiveCounts(wanted)
  {
    if keys == [] then [] else
      Plan(devices, wanted, alignment, classOf, keys[..|keys| - 1]) +
      GroupPlan(devices, wanted, alignment, classOf, keys[|keys| - 1])
  }

  /** Every slice of the pass stays within its class list. */
  ghost predicate PassFits(devices: seq<TopologyDevice>, wanted: seq<GroupingDevice>, alignment: Alignment,
                           classOf: string -> string, keys: seq<string>)
    requires PositiveCounts(wanted)
  {
    forall k :: k in keys ==> GroupFits(devices, wanted, alignment, classOf, k)
  }

  function InstancesFrom(node: string, grouping: DeviceGrouping, alignment: Alignment, classOf: string -> string,
                         plan: seq<seq<TopologyDevice>>): (r: seq<GroupingInstance>)
    ensures |r| == |plan|
  {
    seq(|plan|, i requires 0 <= i < |plan| => InstanceFrom(node, grouping, alignment, classOf, plan[i], i))
  }

  lemma InstancesFromStep(node: string, grouping: DeviceGrouping, alignment: Alignment, classOf: string -> string,
                          plan: seq<seq<TopologyDevice>>, ds: seq<TopologyDevice>)
    ensures InstancesFrom(node, grouping, alignment, classOf, plan + [ds]) ==
      InstancesFrom(node, grouping, alignment, classOf, plan) +
        [InstanceFrom(node, grouping, alignment, classOf, ds, |plan|)]
  {
    hide InstanceFrom;
  }

  /** The whole pass as its callers see it. */
  function PassPlan(devices: seq<TopologyDevice>, grouping: DeviceGrouping, alignment: Alignment,
                    classOf: string -> string): seq<seq<TopologyDevice>>
    requires PositiveCounts(grouping.devices)
  {
    Plan(devices, grouping.devices, alignment, classOf, AlignKeys(devices, alignment))
  }

  /** A pass finishes exactly when no group overruns, and then yields one instance per planned list, with
      the rail index counting up from 0. */
  method FindInstances(node: string, devices: seq<TopologyDevice>, grouping: DeviceGrouping, alignment: Alignment,
                       classOf: string -> string)
    returns (result: Outcome<seq<GroupingInstance>>)
    requires PositiveCounts(grouping.devices)
    ensures result.Done? <==> PassFits(devices, grouping.devices, alignment, classOf, AlignKeys(devices, alignment))
    ensures result.Done? ==>
      result.value == InstancesFrom(node, grouping, alignment, classOf, PassPlan(devices, grouping, alignment, classOf))
  {
    hide GroupPlan, GroupFits, InstancesFrom, GroupBy, SortedStrings, KeySet, AlignKey;
    var groups := GroupDevicesByAttribute(devices, AlignKey(alignment));
    GroupByKeys(devices, AlignKey(alignment));
    var keys := SortedStrings(groups.Keys);
    var instances: seq<GroupingInstance> := [];
    ghost var plan: seq<seq<TopologyDevice>> := [];
    assert |InstancesFrom(node, grouping, alignment, classOf, plan)| == 0;
    for i := 0 to |keys|
      invariant forall k :: k in keys[..i] ==> GroupFits(devices, grouping.devices, alignment, classOf, k)
      invariant plan == Plan(devices, grouping.devices, alignment, classOf, keys[..i])
      invariant instances == InstancesFrom(node, grouping, alignment, classOf, plan)
    {
      var k := keys[i];
      assert keys[..i + 1][..i] == keys[..i];
      assert keys[..i + 1] == keys[..i] + [k];
      var lists := AllocateAligned(devices, grouping.devices, alignment, classOf, k, groups[k]);
      if lists.SliceOutOfRange? {
        assert k in AlignKeys(devices, alignment);
        return SliceOutOfRange;
      }
      instances := AppendInstances(node, grouping, alignment, classOf, instances, lists.value, plan);
      plan := plan + lists.value;
    }
    assert keys[..|keys|] == keys;
    result := Done(instances);
  }

  lemma GroupByKeys(devices: seq<TopologyDevice>, key: TopologyDevice -> string)
    ensures GroupBy(devices, key).Keys == KeySet(devices, key)
    ensures forall k :: k in KeySet(devices, key) ==> GroupBy(devices, key)[k] == Filter(devices, KeyIs(key, k))
  {
  }

  method AllocateAligned(ghost devices: seq<TopologyDevice>, wanted: seq<GroupingDevice>, ghost alignment: Alignment,
                         classOf: string -> string,
                         ghost k: string, group: seq<TopologyDevice>) returns (lists: Outcome<seq<seq<TopologyDevice>>>)
    requires PositiveCounts(wanted) && group == Filter(devices, KeyIs(AlignKey(alignment), k))
    ensures lists.Done? <==> GroupFits(devices, wanted, alignment, classOf, k)
    ensures lists.Done? ==> lists.value == GroupPlan(devices, wanted, alignment, classOf, k)
  {
    hide Effective, Fits, AllInstances, Rounds;
    var effective := FilterToEffectiveDevices(group);
    lists := AllocateGroup(effective, classOf, wanted);
  }

  method AppendInstances(node: string, grouping: DeviceGrouping, alignment: Alignment, classOf: string -> string,
                         before: seq<GroupingInstance>, lists: seq<seq<TopologyDevice>>,
                           ghost plan: seq<seq<TopologyDevice>>)
    returns (instances: seq<GroupingInstance>)
    requires before == InstancesFrom(node, grouping, alignment, classOf, plan)
    ensures instances == InstancesFrom(node, grouping, alignment, classOf, plan + lists)
  {
    hide InstancesFrom, InstanceFrom;
    instances := before;
    assert plan + lists[..0] == plan;
    for i := 0 to |lists|
      invariant instances == InstancesFrom(node, grouping, alignment, classOf, plan + lists[..i])
    {
      InstancesFromStep(node, grouping, alignment, classOf, plan + lists[..i], lists[i]);
      assert plan + lists[..i + 1] == plan + lists[..i] + [lists[i]];
      var inst := BuildInstance(node, grouping, alignment, classOf, lists[i], |instances|);
      instances := instances + [inst];
    }
    assert lists[..|lists|] == lists;
  }

  // ---------------------------------------------------------------------
  // Both passes
  // ---------------------------------------------------------------------

  function DeviceId(d: TopologyDevice): string {
    d.driverName + "/" + d.deviceName
  }

  function UsedIds(instances: seq<GroupingInstance>): set<string> {
    set i, d | 0 <= i < |instances| && d in instances[i].devices :: DeviceId(d)
  }

  function Unused(used: set<string>): TopologyDevice -> bool {
    (d: TopologyDevice) => DeviceId(d) !in used
  }

  method CollectUsedDevices(instances: seq<GroupingInstance>) returns (used: set<string>)
    ensures used == UsedIds(instances)
  {
    used := {};
    for i := 0 to |instances|
      invariant used == UsedIds(instances[..i])
    {
      ghost var before := used;
      var ds := instances[i].devices;
      for j := 0 to |ds|
        invariant used == before + set d | d in ds[..j] :: DeviceId(d)
      {
        assert ds[..j + 1] == ds[..j] + [ds[j]];
        used := used + {DeviceId(ds[j])};
      }
      assert ds[..|ds|] == ds;
      UsedIdsStep(instances, i);
    }
    assert instances[..|instances|] == instances;
  }

  lemma UsedIdsStep(instances: seq<GroupingInstance>, i: nat)
    requires i < |instances|
    ensures UsedIds(instances[..i + 1]) == UsedIds(instances[..i]) + set d | d in instances[i].devices :: DeviceId(d)
  {
    var now, before := instances[..i + 1], instances[..i];
    forall x | x in UsedIds(before) ensures x in UsedIds(now) {
      var j, d :| 0 <= j < |before| && d in before[j].devices && DeviceId(d) == x;
      assert d in now[j].devices;
    }
    forall d | d in instances[i].devices ensures DeviceId(d) in UsedIds(now) {
      assert d in now[i].devices;
    }
    forall x | x in UsedIds(now) ensures x in UsedIds(before) || x in set d | d in instances[i].devices :: DeviceId(d) {
      var j, d :| 0 <= j < |now| && d in now[j].devices && DeviceId(d) == x;
      if j < i { assert d in before[j].devices; }
    }
  }

  method FilterOutDevices(devices: seq<TopologyDevice>, used: set<string>) returns (remaining: seq<TopologyDevice>)
    ensures remaining == Filter(devices, Unused(used))
  {
    remaining := [];
    for i := 0 to |devices|
      invariant remaining == Filter(devices[..i], Unused(used))
    {
      FilterStep(devices, i, Unused(used));
      if DeviceId(devices[i]) !in used { remaining := remaining + [devices[i]]; }
    }
    assert devices[..|devices|] == devices;
  }

  /** Enough effective devices of every requested class on the node as a whole. */
  ghost predicate HasRequiredClasses(devices: seq<TopologyDevice>, wanted: seq<GroupingDevice>,
                                     classOf: string -> string) {
    forall g :: g in wanted ==> g.count <= |Stock(Effective(devices), classOf, g.deviceClass)|
  }

  method NodeHasRequiredClasses(devices: seq<TopologyDevice>, wanted: seq<GroupingDevice>, classOf: string -> string)
    returns (b: bool)
    ensures b <==> HasRequiredClasses(devices, wanted, classOf)
  {
    hide Effective, Stock;
    var counts := EffectiveDeviceCount(devices);
    var classCounts := SumByClass(Effective(devices), classOf, counts);
    for i := 0 to |wanted|
      invariant forall g :: g in wanted[..i] ==> g.count <= |Stock(Effective(devices), classOf, g.deviceClass)|
    {
      assert wanted[..i + 1] == wanted[..i] + [wanted[i]];
      if CountIn(classCounts, wanted[i].deviceClass) < wanted[i].count {
        assert wanted[i] in wanted;
        return false;
      }
    }
    assert wanted[..|wanted|] == wanted;
    b := true;
  }

  /** Devices of class `c` whose driver is not in `todo`. */
  function Summed(classOf: string -> string, c: string, todo: set<string>): TopologyDevice -> bool {
    (d: TopologyDevice) => classOf(Base(d)) == c && Base(d) !in todo
  }

  lemma SummedStep(devices: seq<TopologyDevice>, classOf: string -> string, c: string, todo: set<string>, b: string)
    requires b in todo
    ensures |Filter(devices, Summed(classOf, c, todo - {b}))| ==
      |Filter(devices, Summed(classOf, c, todo))| + if classOf(b) == c then |Filter(devices, KeyIs(Base, b))| else 0
  {
    var now := (d: TopologyDevice) => classOf(Base(d)) == c && Base(d) == b;
    FilterEither(devices, Summed(classOf, c, todo), now, Summed(classOf, c, todo - {b}));
    if classOf(b) == c {
      FilterSame(devices, now, KeyIs(Base, b));
    } else {
      FilterNone(devices, now);
    }
  }

  method SumByClass(ghost devices: seq<TopologyDevice>, classOf: string -> string, counts: map<string, int>)
    returns (classCounts: map<string, int>)
    requires counts == Tally(devices)
    ensures forall c :: CountIn(classCounts, c) == |Stock(devices, classOf, c)|
  {
    hide Filter, Tally, Summed, Stock, Bump;
    classCounts := map[];
    var todo := counts.Keys;
    forall c ensures |Filter(devices, Summed(classOf, c, todo))| == 0 { NothingSummed(devices, classOf, c); }
    while todo != {}
      invariant todo <= counts.Keys
      invariant forall c :: CountIn(classCounts, c) == |Filter(devices, Summed(classOf, c, todo))|
      decreases |todo|
    {
      var b :| b in todo;
      forall c ensures |Filter(devices, Summed(classOf, c, todo - {b}))| ==
        |Filter(devices, Summed(classOf, c, todo))| + if classOf(b) == c then counts[b] else 0
        ensures CountIn(Bump(classCounts, classOf(b), counts[b]), c) == CountIn(classCounts, c) +
          if classOf(b) == c then counts[b] else 0
      {
        SummedStep(devices, classOf, c, todo, b);
        TallyAt(devices, b);
        BumpAt(classCounts, classOf(b), counts[b], c);
      }
      todo := todo - {b};
      classCounts := Bump(classCounts, classOf(b), counts[b]);
    }
    forall c ensures |Filter(devices, Summed(classOf, c, {}))| == |Stock(devices, classOf, c)| {
      AllSummed(devices, classOf, c);
    }
  }

  lemma NothingSummed(devices: seq<TopologyDevice>, classOf: string -> string, c: string)
    ensures Filter(devices, Summed(classOf, c, Tally(devices).Keys)) == []
  {
    var p := Summed(classOf, c, Tally(devices).Keys);
    forall d | d in devices ensures !p(d) { assert Base(d) in KeySet(devices, Base); }
    FilterNone(devices, p);
  }

  lemma AllSummed(devices: seq<TopologyDevice>, classOf: string -> string, c: string)
    ensures Filter(devices, Summed(classOf, c, {})) == Stock(devices, classOf, c)
  {
    FilterSame(devices, Summed(classOf, c, {}), KeyIs(ClassKey(classOf), c));
  }

  lemma TallyAt(devices: seq<TopologyDevice>, b: string)
    requires b in Tally(devices)
    ensures Tally(devices)[b] == |Filter(devices, KeyIs(Base, b))|
  {
  }

  lemma BumpAt(counts: map<string, int>, b: string, n: int, c: string)
    ensures CountIn(Bump(counts, b, n), c) == CountIn(counts, c) + if c == b then n else 0
  {
  }

  /** The outcome of evaluating one grouping on a node. */
  datatype Evaluation = Unsatisfiable | Overrun | Evaluated(preferred: seq<GroupingInstance>,
    fallback: seq<GroupingInstance>)

  function Remaining(devices: seq<TopologyDevice>, preferred: seq<GroupingInstance>): seq<TopologyDevice> {
    Filter(devices, Unused(UsedIds(preferred)))
  }

  ghost predicate Fallbacks(node: string, devices: seq<TopologyDevice>, grouping: DeviceGrouping,
                            classOf: string -> string,
                            preferred: seq<GroupingInstance>, fallback: seq<GroupingInstance>)
    requires PositiveCounts(grouping.devices)
  {
    if grouping.fallback.None? then fallback == [] else
      fallback == InstancesFrom(node, grouping, grouping.fallback.value, classOf,
        PassPlan(Remaining(devices, preferred), grouping, grouping.fallback.value, classOf))
  }

  function PreferredInstances(node: string, devices: seq<TopologyDevice>, grouping: DeviceGrouping,
                              classOf: string -> string): seq<GroupingInstance>
    requires PositiveCounts(grouping.devices)
  {
    InstancesFrom(node, grouping, grouping.alignment, classOf, PassPlan(devices, grouping, grouping.alignment, classOf))
  }

  /** Neither pass overruns. */
  ghost predicate BothFit(node: string, devices: seq<TopologyDevice>, grouping: DeviceGrouping,
                          classOf: string -> string)
    requires PositiveCounts(grouping.devices)
  {
    && PassFits(devices, grouping.devices, grouping.alignment, classOf, AlignKeys(devices, grouping.alignment))
    && (grouping.fallback.Some? ==>
          var rest := Remaining(devices, PreferredInstances(node, devices, grouping, classOf));
          PassFits(rest, grouping.devices, grouping.fallback.value, classOf, AlignKeys(rest, grouping.fallback.value)))
  }

  /** Evaluation finishes exactly when the classes suffice and neither pass overruns. */
  method EvaluateGrouping(node: string, devices: seq<TopologyDevice>, grouping: DeviceGrouping,
                          classOf: string -> string)
    returns (e: Evaluation)
    requires PositiveCounts(grouping.devices)
    ensures e.Unsatisfiable? <==> !HasRequiredClasses(devices, grouping.devices, classOf)
    ensures e.Evaluated? <==>
      HasRequiredClasses(devices, grouping.devices, classOf) && BothFit(node, devices, grouping, classOf)
    ensures e.Evaluated? ==>
      e.preferred == PreferredInstances(node, devices, grouping, classOf) &&
        Fallbacks(node, devices, grouping, classOf, e.preferred, e.fallback)
  {
    hide HasRequiredClasses, PassPlan, PassFits, InstancesFrom, Filter, UsedIds;
    var has := NodeHasRequiredClasses(devices, grouping.devices, classOf);
    if !has { return Unsatisfiable; }
    var preferred := FindInstances(node, devices, grouping, grouping.alignment, classOf);
    if preferred.SliceOutOfRange? { return Overrun; }
    if grouping.fallback.None? { return Evaluated(preferred.value, []); }
    var used := CollectUsedDevices(preferred.value);
    var remaining := FilterOutDevices(devices, used);
    if remaining == [] {
      NothingRemains(node, grouping, classOf);
      return Evaluated(preferred.value, []);
    }
    var fallback := FindInstances(node, remaining, grouping, grouping.fallback.value, classOf);
    if fallback.SliceOutOfRange? { return Overrun; }
    e := Evaluated(preferred.value, fallback.value);
  }

  lemma NothingRemains(node: string, grouping: DeviceGrouping, classOf: string -> string)
    requires PositiveCounts(grouping.devices) && grouping.fallback.Some?
    ensures PassPlan([], grouping, grouping.fallback.value, classOf) == []
    ensures InstancesFrom(node, grouping, grouping.fallback.value, classOf, []) == []
    ensures PassFits([], grouping.devices, grouping.fallback.value, classOf, AlignKeys([], grouping.fallback.value))
  {
    assert AlignKeys([], grouping.fallback.value) == [];
  }
}
