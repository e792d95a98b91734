/** Can a matchAttribute constraint be met?  Both checks group devices by attribute value and look for
    a group with enough devices of every driver; both answer yes exactly when such a value exists. */
module Satisfiability {
  import opened Collections
  import opened Topology
  import opened TopologyIndex

  // ---------------------------------------------------------------------
  // The devices of a node
  // ---------------------------------------------------------------------

  function Concat(table: SliceTable, order: seq<string>): seq<TopologyDevice>
    requires forall s :: s in order ==> s in table
  {
    if order == [] then [] else Concat(table, order[..|order| - 1]) + table[order[|order| - 1]]
  }

  /** The slices of a node, one after the other in some order. */
  ghost predicate Enumerates(table: SliceTable, all: seq<TopologyDevice>) {
    exists order :: ListsSet(order, table.Keys) && all == Concat(table, order)
  }

  method AllDevices(table: SliceTable) returns (all: seq<TopologyDevice>)
    ensures Enumerates(table, all)
  {
    hide Concat;
    all := [];
    var todo := table.Keys;
    ghost var order: seq<string> := [];
    ConcatNothing(table);
    while todo != {}
      invariant todo <= table.Keys
      invariant |order| + |todo| == |table.Keys|
      invariant forall s :: s in order <==> s in table && s !in todo
      invariant all == Concat(table, order)
      decreases |todo|
    {
      var s :| s in todo;
      ConcatSnoc(table, order, s);
      all := all + table[s];
      order := order + [s];
      todo := todo - {s};
    }
  }

  lemma ConcatNothing(table: SliceTable)
    ensures Concat(table, []) == []
  {
  }

  lemma ConcatSnoc(table: SliceTable, order: seq<string>, s: string)
    requires (forall s :: s in order ==> s in table) && s in table
    ensures Concat(table, order + [s]) == Concat(table, order) + table[s]
  {
    assert (order + [s])[..|order|] == order;
  }

  function SliceCount(table: SliceTable, d: TopologyDevice): string -> int {
    s => if s in table then multiset(table[s])[d] else 0
  }

  lemma {:induction false} ConcatCount(table: SliceTable, order: seq<string>, d: TopologyDevice)
    requires forall s :: s in order ==> s in table
    requires forall i, j :: 0 <= i < j < |order| ==> order[i] != order[j]
    ensures multiset(Concat(table, order))[d] == SumSet((set s | s in order), SliceCount(table, d))
  {
    if order != [] {
      var init, last := order[..|order| - 1], order[|order| - 1];
      assert order == init + [last];
      ConcatCount(table, init, d);
      SumSetRemove((set s | s in order), SliceCount(table, d), last);
      assert (set s | s in order) - {last} == set s | s in init;
    }
  }

  /** The order in which a node's slices are visited only reorders its devices. */
  lemma EnumerationsPermute(table: SliceTable, a: seq<TopologyDevice>, b: seq<TopologyDevice>)
    requires Enumerates(table, a) && Enumerates(table, b)
    ensures multiset(a) == multiset(b)
  {
    var oa :| ListsSet(oa, table.Keys) && a == Concat(table, oa);
    var ob :| ListsSet(ob, table.Keys) && b == Concat(table, ob);
    assert (set s | s in oa) == table.Keys == (set s | s in ob);
    ListDistinct(oa, table.Keys);
    ListDistinct(ob, table.Keys);
    forall d ensures multiset(a)[d] == multiset(b)[d] {
      ConcatCount(table, oa, d);
      ConcatCount(table, ob, d);
    }
  }

  // ---------------------------------------------------------------------
  // On a node: first value of every device, driver names as published
  // ---------------------------------------------------------------------

  function Carries(driver: string, attribute: AttributeName, v: string): TopologyDevice -> bool {
    (d: TopologyDevice) => d.driverName == driver && AttributeValueString(d, attribute) == v
  }

  /** One value that enough devices of every required driver carry. */
  ghost predicate NodeWitness(all: seq<TopologyDevice>, attribute: AttributeName, needed: map<string, int>, v: string) {
    && v != ""
    && (exists d :: d in all && AttributeValueString(d, attribute) == v)
    && (forall driver :: driver in needed ==> needed[driver] <= |Filter(all, Carries(driver, attribute, v))|)
  }

  ghost predicate NodeSatisfies(all: seq<TopologyDevice>, attribute: AttributeName, needed: map<string, int>) {
    exists v :: NodeWitness(all, attribute, needed, v)
  }

  type Counts = map<string, map<string, int>>

  function Look(groups: Counts, v: string, driver: string): int {
    if v in groups && driver in groups[v] then groups[v][driver] else 0
  }

  function Count1(groups: Counts, v: string, driver: string): Counts {
    var inner := if v in groups then groups[v] else map[];
    groups[v := inner[driver := (if driver in inner then inner[driver] else 0) + 1]]
  }

  lemma Count1Look(groups: Counts, v: string, driver: string, v': string, driver': string)
    ensures Look(Count1(groups, v, driver), v', driver') == Look(groups, v', driver') +
      if v == v' && driver == driver' then 1 else 0
  {
  }

  ghost predicate NodeCounts(all: seq<TopologyDevice>, attribute: AttributeName, groups: Counts) {
    && (forall v :: v in groups <==> v != "" && exists d :: d in all && AttributeValueString(d, attribute) == v)
    && (forall v, driver :: v != "" ==> Look(groups, v, driver) == |Filter(all, Carries(driver, attribute, v))|)
  }

  lemma NodeCountsSnoc(all: seq<TopologyDevice>, d: TopologyDevice, attribute: AttributeName, groups: Counts)
    requires NodeCounts(all, attribute, groups)
    ensures var v := AttributeValueString(d, attribute);
      NodeCounts(all + [d], attribute, if v == "" then groups else Count1(groups, v, d.driverName))
  {
    hide AttributeValueString;
    var v0 := AttributeValueString(d, attribute);
    forall v, driver | v != ""
      ensures |Filter(all + [d], Carries(driver, attribute, v))| ==
        |Filter(all, Carries(driver, attribute, v))| + if v == v0 && d.driverName == driver then 1 else 0
      ensures Look(Count1(groups, v0, d.driverName), v, driver) == Look(groups, v, driver) +
        if v0 == v && d.driverName == driver then 1 else 0
    {
      FilterSnoc(all, d, Carries(driver, attribute, v));
      Count1Look(groups, v0, d.driverName, v, driver);
    }
  }

  method IsConstraintSatisfiableOnNode(all: seq<TopologyDevice>, attribute: AttributeName, needed: map<string, int>)
    returns (b: bool)
    ensures b <==> NodeSatisfies(all, attribute, needed)
  {
    hide AttributeValueString, NodeCounts;
    var groups: Counts := map[];
    assert NodeCounts(all[..0], attribute, groups) by { NoNodeCounts(attribute); }
    for i := 0 to |all|
      invariant NodeCounts(all[..i], attribute, groups)
    {
      NodeCountsSnoc(all[..i], all[i], attribute, groups);
      assert all[..i + 1] == all[..i] + [all[i]];
      var val := AttributeValueString(all[i], attribute);
      if val == "" { continue; }
      groups := Count1(groups, val, all[i].driverName);
    }
    assert all[..|all|] == all;
    b := AnyNodeGroup(all, attribute, needed, groups);
  }

  lemma NoNodeCounts(attribute: AttributeName)
    ensures NodeCounts([], attribute, map[])
  {
  }

  method AnyNodeGroup(ghost all: seq<TopologyDevice>, ghost attribute: AttributeName, needed: map<string, int>,
                      groups: Counts)
    returns (b: bool)
    requires NodeCounts(all, attribute, groups)
    ensures b <==> NodeSatisfies(all, attribute, needed)
  {
    hide NodeWitness, NodeCounts;
    var todo := groups.Keys;
    while todo != {}
      invariant todo <= groups.Keys
      invariant forall v :: v in groups && v !in todo ==> !NodeWitness(all, attribute, needed, v)
      decreases |todo|
    {
      var v :| v in todo;
      todo := todo - {v};
      var satisfied := MeetsAll(groups[v], needed);
      GroupWitness(all, attribute, needed, groups, v);
      if satisfied { return true; }
    }
    NoOtherValue(all, attribute, needed, groups);
    b := false;
  }

  lemma GroupWitness(all: seq<TopologyDevice>, attribute: AttributeName, needed: map<string, int>, groups: Counts,
                     v: string)
    requires NodeCounts(all, attribute, groups) && v in groups
    ensures NodeWitness(all, attribute, needed, v) <==>
      forall driver :: driver in needed ==> needed[driver] <= At(groups[v], driver)
  {
    hide AttributeValueString, Filter;
    forall driver ensures At(groups[v], driver) == |Filter(all, Carries(driver, attribute, v))| {
      assert Look(groups, v, driver) == At(groups[v], driver);
    }
  }

  lemma NoOtherValue(all: seq<TopologyDevice>, attribute: AttributeName, needed: map<string, int>, groups: Counts)
    requires NodeCounts(all, attribute, groups)
    ensures forall v :: NodeWitness(all, attribute, needed, v) ==> v in groups
  {
    hide AttributeValueString, Filter;
  }

  function At(counts: map<string, int>, driver: string): int {
    if driver in counts then counts[driver] else 0
  }

  method MeetsAll(counts: map<string, int>, needed: map<string, int>) returns (b: bool)
    ensures b <==> forall driver :: driver in needed ==> needed[driver] <= At(counts, driver)
  {
    var todo := needed.Keys;
    while todo != {}
      invariant todo <= needed.Keys
      invariant forall driver :: driver in needed && driver !in todo ==> needed[driver] <= At(counts, driver)
      decreases |todo|
    {
      var driver :| driver in todo;
      todo := todo - {driver};
      if At(counts, driver) < needed[driver] { return false; }
    }
    b := true;
  }

  /** Some node has a witness, in whatever order its devices are visited. */
  ghost predicate ClusterSatisfies(nodes: Nodes, attribute: AttributeName, needed: map<string, int>) {
    exists n, all :: n in nodes && Enumerates(nodes[n], all) && NodeSatisfies(all, attribute, needed)
  }

  lemma WitnessPermutes(a: seq<TopologyDevice>, b: seq<TopologyDevice>, attribute: AttributeName,
                        needed: map<string, int>, v: string)
    requires multiset(a) == multiset(b) && NodeWitness(a, attribute, needed, v)
    ensures NodeWitness(b, attribute, needed, v)
  {
    PermutationMembers(a, b);
    forall driver | driver in needed ensures needed[driver] <= |Filter(b, Carries(driver, attribute, v))| {
      FilterPermutation(a, b, Carries(driver, attribute, v));
    }
  }

  method IsConstraintSatisfiable(nodes: Nodes, attribute: AttributeName, needed: map<string, int>) returns (b: bool)
    ensures b <==> ClusterSatisfies(nodes, attribute, needed)
  {
    hide NodeWitness, Enumerates;
    var todo := nodes.Keys;
    while todo != {}
      invariant todo <= nodes.Keys
      invariant forall n, all :: n in nodes && n !in todo && Enumerates(nodes[n], all) ==>
        !NodeSatisfies(all, attribute, needed)
      decreases |todo|
    {
      var n :| n in todo;
      todo := todo - {n};
      var all := AllDevices(nodes[n]);
      var ok := IsConstraintSatisfiableOnNode(all, attribute, needed);
      if ok { return true; }
      forall other | Enumerates(nodes[n], other) ensures !NodeSatisfies(other, attribute, needed) {
        if NodeSatisfies(other, attribute, needed) {
          var v :| NodeWitness(other, attribute, needed, v);
          EnumerationsPermute(nodes[n], other, all);
          WitnessPermutes(other, all, attribute, needed, v);
        }
      }
    }
    b := false;
  }

  // ---------------------------------------------------------------------
  // In a partition: all values of every device, base driver names
  // ---------------------------------------------------------------------

  function Publishing(devices: seq<TopologyDevice>, attribute: AttributeName): set<string> {
    set d | d in devices && AttributeValues(d, attribute) != [] :: Base(d)
  }

  /** How often a driver's devices list a value; a device that repeats a value counts repeatedly. */
  function Occurrences(devices: seq<TopologyDevice>, b: string, attribute: AttributeName, v: string): int {
    if devices == [] then 0 else
      var d := devices[|devices| - 1];
      Occurrences(devices[..|devices| - 1], b, attribute, v) +
        if Base(d) == b then multiset(AttributeValues(d, attribute))[v] else 0
  }

  ghost predicate PartitionWitness(devices: seq<TopologyDevice>, attribute: AttributeName, needed: map<string, int>,
                                   v: string) {
    && (exists d :: d in devices && v in AttributeValues(d, attribute))
    && (forall driver :: driver in needed && BaseDriver(driver) in Publishing(devices, attribute) ==>
          needed[driver] <= Occurrences(devices, BaseDriver(driver), attribute, v))
  }

  /** Two drivers publish the attribute, and one value has enough devices of every driver that publishes it. */
  ghost predicate PartitionSatisfies(devices: seq<TopologyDevice>, attribute: AttributeName, needed: map<string, int>) {
    |Publishing(devices, attribute)| >= 2 && exists v :: PartitionWitness(devices, attribute, needed, v)
  }

  function CarriesAny(b: string, attribute: AttributeName, v: string): TopologyDevice -> bool {
    (d: TopologyDevice) => Base(d) == b && v in AttributeValues(d, attribute)
  }

  ghost predicate DuplicateFree(devices: seq<TopologyDevice>, attribute: AttributeName) {
    forall d, v :: d in devices ==> multiset(AttributeValues(d, attribute))[v] <= 1
  }

  /** Without repeated values, occurrences are distinct devices. */
  lemma {:induction false} OccurrencesAreDevices(devices: seq<TopologyDevice>, b: string, attribute: AttributeName,
                                                 v: string)
    requires DuplicateFree(devices, attribute)
    ensures Occurrences(devices, b, attribute, v) == |Filter(devices, CarriesAny(b, attribute, v))|
  {
    hide AttributeValues;
    if devices != [] {
      var init, d := devices[..|devices| - 1], devices[|devices| - 1];
      assert d in devices;
      assert forall e :: e in init ==> e in devices;
      OccurrencesAreDevices(init, b, attribute, v);
      assert v in AttributeValues(d, attribute) <==> v in multiset(AttributeValues(d, attribute));
    }
  }

  ghost predicate PartitionCounts(devices: seq<TopologyDevice>, attribute: AttributeName, groups: Counts) {
    && (forall v :: v in groups <==> exists d :: d in devices && v in AttributeValues(d, attribute))
    && (forall v, b :: Look(groups, v, b) == Occurrences(devices, b, attribute, v))
  }

  ghost predicate Added(before: Counts, vals: seq<string>, driver: string, groups: Counts) {
    && (forall v :: v in groups <==> v in before || v in vals)
    && (forall v, b :: Look(groups, v, b) == Look(before, v, b) + if b == driver then multiset(vals)[v] else 0)
  }

  lemma PartitionCountsSnoc(devices: seq<TopologyDevice>, d: TopologyDevice, attribute: AttributeName, before: Counts,
                            groups: Counts)
    requires PartitionCounts(devices, attribute, before)
    requires Added(before, AttributeValues(d, attribute), Base(d), groups)
    ensures PartitionCounts(devices + [d], attribute, groups)
  {
    hide AttributeValues;
    assert (devices + [d])[..|devices|] == devices;
  }

  lemma PublishingSnoc(devices: seq<TopologyDevice>, d: TopologyDevice, attribute: AttributeName)
    ensures Publishing(devices + [d], attribute) ==
      Publishing(devices, attribute) + if AttributeValues(d, attribute) != [] then {Base(d)} else {}
  {
    hide AttributeValues;
  }

  lemma NothingPublished(attribute: AttributeName)
    ensures PartitionCounts([], attribute, map[]) && Publishing([], attribute) == {}
  {
  }

  /** Counting every value of one device. */
  method CountValues(before: Counts, vals: seq<string>, driver: string) returns (groups: Counts)
    ensures Added(before, vals, driver, groups)
  {
    groups := before;
    for i := 0 to |vals|
      invariant forall v :: v in groups <==> v in before || v in vals[..i]
      invariant forall v, b ::
        Look(groups, v, b) == Look(before, v, b) + if b == driver then multiset(vals[..i])[v] else 0
    {
      assert vals[..i + 1] == vals[..i] + [vals[i]];
      forall v, b ensures Look(Count1(groups, vals[i], driver), v, b) == Look(groups, v, b) +
        if vals[i] == v && driver == b then 1 else 0 {
        Count1Look(groups, vals[i], driver, v, b);
      }
      groups := Count1(groups, vals[i], driver);
    }
    assert vals[..|vals|] == vals;
  }

  method IsPartitionConstraintSatisfiable(devices: seq<TopologyDevice>, attribute: AttributeName,
                                          needed: map<string, int>)
    returns (b: bool)
    ensures b <==> PartitionSatisfies(devices, attribute, needed)
  {
    hide AttributeValues, PartitionWitness, PartitionCounts, Publishing;
    var groups: Counts, publishing: set<string> := map[], {};
    NothingPublished(attribute);
    for i := 0 to |devices|
      invariant PartitionCounts(devices[..i], attribute, groups)
      invariant publishing == Publishing(devices[..i], attribute)
    {
      var d, before := devices[i], groups;
      assert devices[..i + 1] == devices[..i] + [d];
      var vals := AttributeValues(d, attribute);
      PublishingSnoc(devices[..i], d, attribute);
      if vals != [] {
        publishing := publishing + {Base(d)};
        groups := CountValues(groups, vals, Base(d));
      }
      PartitionCountsSnoc(devices[..i], d, attribute, before, groups);
    }
    assert devices[..|devices|] == devices;
    if |publishing| < 2 { return false; }
    b := AnyPartitionGroup(devices, attribute, needed, groups, publishing);
  }

  method AnyPartitionGroup(ghost devices: seq<TopologyDevice>, ghost attribute: AttributeName,
                           needed: map<string, int>, groups: Counts, publishing: set<string>)
    returns (b: bool)
    requires PartitionCounts(devices, attribute, groups) && publishing == Publishing(devices, attribute)
    ensures b <==> exists v :: PartitionWitness(devices, attribute, needed, v)
  {
    hide AttributeValues, Publishing, Occurrences;
    var todo := groups.Keys;
    while todo != {}
      invariant todo <= groups.Keys
      invariant forall v :: v in groups && v !in todo ==> !PartitionWitness(devices, attribute, needed, v)
      decreases |todo|
    {
      var v :| v in todo;
      todo := todo - {v};
      var satisfied := MeetsPublished(groups[v], needed, publishing);
      assert forall driver :: Look(groups, v, driver) == At(groups[v], driver);
      if satisfied {
        assert PartitionWitness(devices, attribute, needed, v);
        return true;
      }
    }
    b := false;
  }

  method MeetsPublished(counts: map<string, int>, needed: map<string, int>, publishing: set<string>) returns (b: bool)
    ensures b <==> forall driver :: driver in needed && BaseDriver(driver) in publishing ==>
      needed[driver] <= At(counts, BaseDriver(driver))
  {
    var todo := needed.Keys;
    while todo != {}
      invariant todo <= needed.Keys
      invariant forall driver :: driver in needed && driver !in todo && BaseDriver(driver) in publishing ==>
        needed[driver] <= At(counts, BaseDriver(driver))
      decreases |todo|
    {
      var driver :| driver in todo;
      todo := todo - {driver};
      if BaseDriver(driver) in publishing && At(counts, BaseDriver(driver)) < needed[driver] { return false; }
    }
    b := true;
  }
}
