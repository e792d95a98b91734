/** The classes of device groupings: one per instance key, one per grouping name.  They are collected by
    name, not by a key rebuilt from labels. */
module GroupingClasses {
  import opened Collections
  import opened Text
  import opened Topology
  import opened PartitionBuilder
  import opened GroupingBuilder
  import opened ClassKeys

  datatype GroupingResult = GroupingResult(node: string, instances: seq<GroupingInstance>)

  type SeenInstances = map<string, GroupingInstance>

  function InstancesOf(results: seq<GroupingResult>): seq<GroupingInstance> {
    if results == [] then [] else InstancesOf(results[..|results| - 1]) + results[|results| - 1].instances
  }

  /** The PCIe roots tell instances apart, or else the NUMA nodes. */
  function GroupingKey(truncate: string -> string, inst: GroupingInstance): string {
    var base := truncate(inst.groupingName) + "-" + AlignmentName(inst.alignment);
    var roots, numas := JoinWith(inst.pcieRoots, "-"), JoinWith(Decimals(inst.numaNodes), "-");
    if roots != "" then base + "-" + SanitizeForName(roots)
    else if numas != "" then base + "-numa" + numas
    else base
  }

  function InstanceKey(truncate: string -> string): GroupingInstance -> string {
    (inst: GroupingInstance) => GroupingKey(truncate, inst)
  }

  /** One representative per key: the first instance that has it. */
  ghost predicate FirstPerKey(truncate: string -> string, insts: seq<GroupingInstance>, seen: SeenInstances) {
    && seen.Keys == KeySet(insts, InstanceKey(truncate))
    && forall k :: k in seen ==>
         var same := Filter(insts, KeyIs(InstanceKey(truncate), k));
         same != [] && seen[k] == same[0]
  }

  lemma FirstSnoc(truncate: string -> string, insts: seq<GroupingInstance>, seen: SeenInstances, inst: GroupingInstance)
    requires FirstPerKey(truncate, insts, seen)
    ensures var k := GroupingKey(truncate, inst);
      FirstPerKey(truncate, insts + [inst], if k in seen then seen else seen[k := inst])
  {
    hide GroupingKey, Filter;
    var key, all, k0 := InstanceKey(truncate), insts + [inst], GroupingKey(truncate, inst);
    assert key(inst) == k0;
    assert KeySet(all, key) == KeySet(insts, key) + {k0};
    forall k ensures Filter(all, KeyIs(key, k)) == Filter(insts, KeyIs(key, k)) + if k == k0 then [inst] else [] {
      FilterSnoc(insts, inst, KeyIs(key, k));
    }
    if k0 !in seen { FilterNone(insts, KeyIs(key, k0)); }
  }

  lemma NoInstances(truncate: string -> string)
    ensures FirstPerKey(truncate, [], map[])
  {
  }

  method CollectInstances(truncate: string -> string, results: seq<GroupingResult>) returns (seen: SeenInstances)
    ensures FirstPerKey(truncate, InstancesOf(results), seen)
  {
    hide FirstPerKey, GroupingKey;
    seen := map[];
    NoInstances(truncate);
    for i := 0 to |results|
      invariant FirstPerKey(truncate, InstancesOf(results[..i]), seen)
    {
      assert results[..i + 1][..i] == results[..i];
      ghost var before := InstancesOf(results[..i]);
      var insts := results[i].instances;
      assert before + insts[..0] == before;
      for j := 0 to |insts|
        invariant FirstPerKey(truncate, before + insts[..j], seen)
      {
        FirstSnoc(truncate, before + insts[..j], seen, insts[j]);
        assert before + insts[..j + 1] == before + insts[..j] + [insts[j]];
        var key := GroupingKey(truncate, insts[j]);
        if key !in seen { seen := seen[key := insts[j]]; }
      }
      assert insts[..|insts|] == insts;
    }
    assert results[..|results|] == results;
  }

  function RailName(inst: GroupingInstance): string {
    WithRail(SanitizeForName(inst.groupingName), inst.railIndex)
  }

  function AggregateName(groupingName: string): string {
    SanitizeForName(groupingName)
  }

  /** The names under which the representatives are published. */
  function RailNames(seen: SeenInstances, keys: set<string>): set<string> {
    set k | k in keys && k in seen :: RailName(seen[k])
  }

  function GroupingNames(seen: SeenInstances, keys: set<string>): set<string> {
    set k | k in keys && k in seen :: seen[k].groupingName
  }

  function AggregateNamesOf(names: set<string>): set<string> {
    set n | n in names :: AggregateName(n)
  }

  function ActiveNames(seen: SeenInstances): set<string> {
    RailNames(seen, seen.Keys) + AggregateNamesOf(GroupingNames(seen, seen.Keys))
  }

  method FirstPerName(seen: SeenInstances) returns (aggregates: map<string, GroupingInstance>)
    ensures aggregates.Keys == GroupingNames(seen, seen.Keys)
    ensures forall g :: g in aggregates ==> aggregates[g].groupingName == g
  {
    aggregates := map[];
    var todo := seen.Keys;
    while todo != {}
      invariant todo <= seen.Keys
      invariant aggregates.Keys == GroupingNames(seen, seen.Keys - todo)
      invariant forall g :: g in aggregates ==> aggregates[g].groupingName == g
      decreases |todo|
    {
      var k :| k in todo;
      todo := todo - {k};
      if seen[k].groupingName !in aggregates { aggregates := aggregates[seen[k].groupingName := seen[k]]; }
    }
    assert seen.Keys - todo == seen.Keys;
  }

  function GroupingLabelsFor(truncate: string -> string, inst: GroupingInstance): (l: Labels)
    ensures l.GroupingLabels?
  {
    GroupingLabels(truncate(inst.groupingName), AlignmentLabel(inst.alignment))
  }

  function AlignmentLabel(a: Alignment): string {
    match a
    case AlignPcieRoot => "pcieRoot"
    case AlignNumaNode => "numaNode"
    case AlignSocket => "socket"
  }

  /** What a grouping sync leaves: grouping classes under exactly the active names, everything else as it was. */
  ghost predicate ExactlyActive(before: Store, active: set<string>, after: Store) {
    && (forall n :: n in after && after[n].GroupingLabels? <==> n in active)
    && (forall n :: n !in active ==>
          (n in after <==> n in before && !before[n].GroupingLabels?) && (n in after ==> after[n] == before[n]))
  }

  // ---------------------------------------------------------------------
  // Merging definitions
  // ---------------------------------------------------------------------

  /** The last definition of each name. */
  function LastByName(groupings: seq<DeviceGrouping>): (r: map<string, DeviceGrouping>)
    ensures forall n :: n in r ==> r[n].name == n && r[n] in groupings
    ensures forall g :: g in groupings ==> g.name in r
  {
    if groupings == [] then map[] else
      var last := groupings[|groupings| - 1];
      LastByName(groupings[..|groupings| - 1])[last.name := last]
  }

  /** One definition per name: the ConfigMap's if there is one, else the detected one. */
  ghost predicate Merges(detected: seq<DeviceGrouping>, defined: seq<DeviceGrouping>, merged: seq<DeviceGrouping>) {
    && (forall i, j :: 0 <= i < j < |merged| ==> merged[i].name != merged[j].name)
    && (forall g :: g in merged <==> Current(LastByName(detected) + LastByName(defined), g))
  }

  ghost predicate UniquelyNamed(groupings: seq<DeviceGrouping>) {
    forall i, j :: 0 <= i < j < |groupings| ==> groupings[i].name != groupings[j].name
  }

  lemma {:induction false} UniqueIsLast(groupings: seq<DeviceGrouping>)
    requires UniquelyNamed(groupings)
    ensures forall g :: g in groupings ==> LastByName(groupings)[g.name] == g
  {
    if groupings != [] {
      var init, last := groupings[..|groupings| - 1], groupings[|groupings| - 1];
      assert groupings == init + [last];
      UniqueIsLast(init);
    }
  }

  /** With names unique in each source, the merged groupings are all defined ones and those detected ones whose name
      is not defined. */
  lemma MergedAre(detected: seq<DeviceGrouping>, defined: seq<DeviceGrouping>, merged: seq<DeviceGrouping>)
    requires Merges(detected, defined, merged) && UniquelyNamed(detected) && UniquelyNamed(defined)
    ensures forall g :: g in merged <==>
      g in defined || (g in detected && forall h :: h in defined ==> h.name != g.name)
  {
    hide LastByName;
    UniqueIsLast(detected);
    UniqueIsLast(defined);
  }

  predicate Current(byName: map<string, DeviceGrouping>, g: DeviceGrouping) {
    g.name in byName && g == byName[g.name]
  }

  method MergeGroupings(detected: seq<DeviceGrouping>, defined: seq<DeviceGrouping>)
    returns (merged: seq<DeviceGrouping>)
    ensures Merges(detected, defined, merged)
    ensures merged == [] <==> detected == [] && defined == []
  {
    hide LastByName, Current;
    var byName := Overwrite(map[], detected);
    byName := Overwrite(byName, defined);
    MergedNames(detected, defined);
    merged := ListValues(byName);
  }

  lemma MergedNames(detected: seq<DeviceGrouping>, defined: seq<DeviceGrouping>)
    ensures var byName := map[] + LastByName(detected) + LastByName(defined);
      && byName == LastByName(detected) + LastByName(defined)
      && (forall n :: n in byName ==> byName[n].name == n)
      && (byName == map[] <==> detected == [] && defined == [])
  {
    hide LastByName;
    LastNamed(detected);
    LastNamed(defined);
  }

  lemma LastNamed(groupings: seq<DeviceGrouping>)
    ensures forall n :: n in LastByName(groupings) ==> LastByName(groupings)[n].name == n
    ensures LastByName(groupings) == map[] <==> groupings == []
  {
    if groupings != [] { assert groupings[0].name in LastByName(groupings); }
  }

  method Overwrite(start: map<string, DeviceGrouping>, groupings: seq<DeviceGrouping>)
    returns (byName: map<string, DeviceGrouping>)
    ensures byName == start + LastByName(groupings)
  {
    hide LastByName;
    byName := start;
    assert LastByName(groupings[..0]) == map[] by { LastOfNone(); }
    assert start + map[] == start;
    for i := 0 to |groupings|
      invariant byName == start + LastByName(groupings[..i])
    {
      LastStep(groupings, i);
      UnionUpdate(start, LastByName(groupings[..i]), groupings[i]);
      byName := byName[groupings[i].name := groupings[i]];
    }
    assert groupings[..|groupings|] == groupings;
  }

  lemma LastOfNone()
    ensures LastByName([]) == map[]
  {
  }

  lemma LastStep(groupings: seq<DeviceGrouping>, i: nat)
    requires i < |groupings|
    ensures LastByName(groupings[..i + 1]) == LastByName(groupings[..i])[groupings[i].name := groupings[i]]
  {
    assert groupings[..i + 1][..i] == groupings[..i];
  }

  lemma UnionUpdate(a: map<string, DeviceGrouping>, b: map<string, DeviceGrouping>, g: DeviceGrouping)
    ensures (a + b)[g.name := g] == a + b[g.name := g]
  {
  }

  method ListValues(byName: map<string, DeviceGrouping>) returns (list: seq<DeviceGrouping>)
    requires forall n :: n in byName ==> byName[n].name == n
    ensures forall i, j :: 0 <= i < j < |list| ==> list[i].name != list[j].name
    ensures forall g :: g in list <==> Current(byName, g)
    ensures |list| == |byName|
  {
    list := [];
    var todo := byName.Keys;
    while todo != {}
      invariant todo <= byName.Keys
      invariant forall i, j :: 0 <= i < j < |list| ==> list[i].name != list[j].name
      invariant forall g :: g in list <==> Current(byName, g) && g.name !in todo
      invariant |list| + |todo| == |byName|
      decreases |todo|
    {
      var n :| n in todo;
      todo := todo - {n};
      list := list + [byName[n]];
    }
  }
}
