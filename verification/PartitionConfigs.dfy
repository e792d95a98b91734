/** The opaque configuration that a DeviceClass carries: the sub-resources a partition expands to and
    the alignments between them, with the coupling level that the match rules give a partition. */
module PartitionConfigs {
  import opened Collections
  import opened Topology
  import opened Satisfiability
  import opened PartitionBuilder
  import opened GroupingBuilder

  datatype SubResource = SubResource(deviceClass: string, count: int, capacity: Capacity, selectors: seq<string>)
  datatype AlignmentConfig = AlignmentConfig(attribute: AttributeName, requests: seq<string>, enforcement: Enforcement)
  datatype PartitionConfig = PartitionConfig(subResources: seq<SubResource>, alignments: seq<AlignmentConfig>)
  datatype Coupling = Tight | Loose | NoCoupling

  function Kept(keys: set<string>, keep: string -> bool): set<string> {
    set k | k in keys && keep(k)
  }

  function Always(): string -> bool {
    k => true
  }

  lemma KeptAlways(keys: set<string>)
    ensures Kept(keys, Always()) == keys
  {
  }

  /** Collecting the map keys that satisfy a condition, in map order. */
  method CollectKeys(keys: set<string>, keep: string -> bool) returns (list: seq<string>)
    ensures ListsSet(list, Kept(keys, keep))
  {
    list := [];
    var todo := keys;
    ghost var done: set<string> := {};
    while todo != {}
      invariant todo <= keys
      invariant done == Kept(keys - todo, keep)
      invariant ListsSet(list, done)
      decreases |todo|
    {
      var k :| k in todo;
      assert keys - (todo - {k}) == (keys - todo) + {k};
      todo := todo - {k};
      if keep(k) {
        list := list + [k];
        done := done + {k};
      }
    }
    assert keys - todo == keys;
  }

  function Enforced(e: Enforcement): Enforcement {
    if e.Unset? then Required else e
  }

  // ---------------------------------------------------------------------
  // Partition configs
  // ---------------------------------------------------------------------

  function ScalarDrivers(devices: seq<TopologyDevice>, attribute: AttributeName): set<string> {
    set d | d in devices && HasScalarAttribute(d, attribute) :: Base(d)
  }

  /** The drivers that an alignment on the attribute names: those with a scalar value, or all without device data. */
  function Requesters(rep: Partition, attribute: AttributeName): set<string> {
    if rep.devices == [] then rep.deviceCounts.Keys
    else set driver | driver in rep.deviceCounts && BaseDriver(driver) in ScalarDrivers(rep.devices, attribute)
  }

  predicate RuleApplies(rep: Partition, rule: TopologyRule) {
    && (rule.driver == "" || rule.driver in rep.deviceCounts)
    && (rep.devices == [] || Requesters(rep, rule.attribute) != {})
  }

  ghost predicate Satisfiable(rep: Partition, rule: TopologyRule) {
    PartitionSatisfies(rep.devices, rule.attribute, rep.deviceCounts)
  }

  /** The rule puts an alignment into the config. */
  ghost predicate Emits(rep: Partition, rule: TopologyRule) {
    RuleApplies(rep, rule) && (rule.fallbackAttribute.None? || Satisfiable(rep, rule))
  }

  /** A rule with a fallback that the partition's devices can satisfy directly. */
  ghost predicate TightWitness(rep: Partition, rule: TopologyRule) {
    RuleApplies(rep, rule) && rule.fallbackAttribute.Some? && Satisfiable(rep, rule)
  }

  ghost predicate FallsBack(rep: Partition, rule: TopologyRule) {
    RuleApplies(rep, rule) && rule.fallbackAttribute.Some?
  }

  /** Tight if some applicable fallback rule has a witness, loose if there are only others, none without any. */
  ghost function CouplingOf(rep: Partition, rules: seq<TopologyRule>): Coupling {
    if exists r :: r in rules && TightWitness(rep, r) then Tight
    else if exists r :: r in rules && FallsBack(rep, r) then Loose
    else NoCoupling
  }

  ghost predicate AlignmentFor(rep: Partition, rule: TopologyRule, a: AlignmentConfig) {
    && a.attribute == rule.attribute && a.enforcement == Enforced(rule.enforcement)
    && ListsSet(a.requests, Requesters(rep, rule.attribute))
  }

  /** One alignment per emitting rule, in rule order. */
  ghost predicate AlignmentsFor(rep: Partition, rules: seq<TopologyRule>, alignments: seq<AlignmentConfig>) {
    if rules == [] then alignments == [] else
      var init, last := rules[..|rules| - 1], rules[|rules| - 1];
      if Emits(rep, last) then
        && alignments != []
        && AlignmentsFor(rep, init, alignments[..|alignments| - 1])
        && AlignmentFor(rep, last, alignments[|alignments| - 1])
      else AlignmentsFor(rep, init, alignments)
  }

  function SubFor(rep: Partition, classOf: string -> string, selectorsFor: string -> seq<string>,
                  driver: string): SubResource {
    SubResource(classOf(driver), CountIn(rep.deviceCounts, driver),
      if driver in rep.deviceCapacity then rep.deviceCapacity[driver] else map[], selectorsFor(driver))
  }

  /** One sub-resource per driver, in some order. */
  ghost predicate SubResourcesFor(rep: Partition, classOf: string -> string, selectorsFor: string -> seq<string>,
                                  subs: seq<SubResource>) {
    exists order :: ListsSet(order, rep.deviceCounts.Keys) && |subs| == |order| &&
      forall i :: 0 <= i < |subs| ==> subs[i] == SubFor(rep, classOf, selectorsFor, order[i])
  }

  method BuildPartitionConfig(rep: Partition, rules: seq<TopologyRule>, classOf: string -> string,
                              selectorsFor: string -> seq<string>)
    returns (config: PartitionConfig, coupling: Coupling)
    ensures SubResourcesFor(rep, classOf, selectorsFor, config.subResources)
    ensures AlignmentsFor(rep, rules, config.alignments)
    ensures coupling == CouplingOf(rep, rules)
  {
    hide SubResourcesFor, AlignmentsFor, CouplingOf;
    var subs := BuildSubResources(rep, classOf, selectorsFor);
    var alignments;
    alignments, coupling := BuildAlignments(rep, rules);
    config := PartitionConfig(subs, alignments);
  }

  method BuildSubResources(rep: Partition, classOf: string -> string, selectorsFor: string -> seq<string>)
    returns (subs: seq<SubResource>)
    ensures SubResourcesFor(rep, classOf, selectorsFor, subs)
  {
    hide SubFor, ListsSet;
    KeptAlways(rep.deviceCounts.Keys);
    var order := CollectKeys(rep.deviceCounts.Keys, Always());
    subs := [];
    for i := 0 to |order|
      invariant |subs| == i
      invariant forall j :: 0 <= j < i ==> subs[j] == SubFor(rep, classOf, selectorsFor, order[j])
    {
      subs := subs + [SubFor(rep, classOf, selectorsFor, order[i])];
    }
  }

  method BuildAlignments(rep: Partition, rules: seq<TopologyRule>)
    returns (alignments: seq<AlignmentConfig>, coupling: Coupling)
    ensures AlignmentsFor(rep, rules, alignments)
    ensures coupling == CouplingOf(rep, rules)
  {
    hide Emits, CouplingOf, AlignmentFor, Couple;
    alignments, coupling := [], NoCoupling;
    assert CouplingOf(rep, rules[..0]) == NoCoupling by { NoRulesNoCoupling(rep); }
    for i := 0 to |rules|
      invariant AlignmentsFor(rep, rules[..i], alignments)
      invariant coupling == CouplingOf(rep, rules[..i])
    {
      assert rules[..i + 1][..i] == rules[..i];
      CouplingStep(rep, rules, i);
      ghost var before := alignments;
      var emitted: Option<AlignmentConfig>;
      emitted, coupling := ApplyMatchRule(rep, rules[i], coupling);
      if emitted.Some? {
        alignments := alignments + [emitted.value];
        assert alignments[..|alignments| - 1] == before;
      }
    }
    assert rules[..|rules|] == rules;
  }

  lemma NoRulesNoCoupling(rep: Partition)
    ensures CouplingOf(rep, []) == NoCoupling
  {
  }

  /** How one rule moves the coupling: tight is never downgraded. */
  ghost function Couple(rep: Partition, rule: TopologyRule, before: Coupling): Coupling {
    if !FallsBack(rep, rule) then before
    else if TightWitness(rep, rule) then Tight
    else if before.Tight? then Tight else Loose
  }

  lemma CouplingStep(rep: Partition, rules: seq<TopologyRule>, i: nat)
    requires i < |rules|
    ensures CouplingOf(rep, rules[..i + 1]) == Couple(rep, rules[i], CouplingOf(rep, rules[..i]))
  {
    hide RuleApplies, Satisfiable;
    assert rules[..i + 1] == rules[..i] + [rules[i]];
    assert forall r :: r in rules[..i + 1] <==> r in rules[..i] || r == rules[i];
  }

  method ApplyMatchRule(rep: Partition, rule: TopologyRule, before: Coupling)
    returns (a: Option<AlignmentConfig>, coupling: Coupling)
    ensures a.Some? <==> Emits(rep, rule)
    ensures a.Some? ==> AlignmentFor(rep, rule, a.value)
    ensures coupling == Couple(rep, rule, before)
  {
    hide PartitionSatisfies, Requesters;
    if rule.driver != "" && rule.driver !in rep.deviceCounts { return None, before; }
    var requests := CollectRequests(rep, rule.attribute);
    if rep.devices != [] && |requests| == 0 { return None, before; }
    var alignment := AlignmentConfig(rule.attribute, requests, Enforced(rule.enforcement));
    if rule.fallbackAttribute.None? { return Some(alignment), before; }
    var ok := IsPartitionConstraintSatisfiable(rep.devices, rule.attribute, rep.deviceCounts);
    if ok { return Some(alignment), Tight; }
    return None, if before.Tight? then Tight else Loose;
  }

  function BaseIn(drivers: set<string>): string -> bool {
    k => BaseDriver(k) in drivers
  }

  lemma RequestersKept(rep: Partition, attribute: AttributeName)
    ensures Requesters(rep, attribute) ==
      Kept(rep.deviceCounts.Keys, if rep.devices == [] then Always() else BaseIn(ScalarDrivers(rep.devices, attribute)))
  {
    hide ScalarDrivers;
    KeptAlways(rep.deviceCounts.Keys);
  }

  method CollectRequests(rep: Partition, attribute: AttributeName) returns (requests: seq<string>)
    ensures ListsSet(requests, Requesters(rep, attribute))
  {
    hide ListsSet, Kept, Requesters, ScalarDrivers;
    RequestersKept(rep, attribute);
    if rep.devices != [] {
      var scalar := CollectScalarDrivers(rep.devices, attribute);
      requests := CollectKeys(rep.deviceCounts.Keys, BaseIn(scalar));
    } else {
      requests := CollectKeys(rep.deviceCounts.Keys, Always());
    }
  }

  method CollectScalarDrivers(devices: seq<TopologyDevice>, attribute: AttributeName) returns (drivers: set<string>)
    ensures drivers == ScalarDrivers(devices, attribute)
  {
    hide HasScalarAttribute;
    drivers := {};
    for i := 0 to |devices|
      invariant drivers == ScalarDrivers(devices[..i], attribute)
    {
      assert devices[..i + 1] == devices[..i] + [devices[i]];
      if HasScalarAttribute(devices[i], attribute) { drivers := drivers + {Base(devices[i])}; }
    }
    assert devices[..|devices|] == devices;
  }

  /** The coupling does not depend on the order of the rules. */
  lemma CouplingOrderFree(rep: Partition, rules: seq<TopologyRule>, rules': seq<TopologyRule>)
    requires forall r :: r in rules <==> r in rules'
    ensures CouplingOf(rep, rules) == CouplingOf(rep, rules')
  {
    hide TightWitness, FallsBack;
  }

  /** Every alignment of a partition config names exactly the requesting drivers, each once. */
  lemma {:induction false} AlignmentsNameDrivers(rep: Partition, rules: seq<TopologyRule>,
                                                 alignments: seq<AlignmentConfig>)
    requires AlignmentsFor(rep, rules, alignments)
    ensures forall a :: a in alignments ==> exists r :: r in rules && Emits(rep, r) && AlignmentFor(rep, r, a)
  {
    hide Emits, AlignmentFor;
    if rules != [] {
      var init, last := rules[..|rules| - 1], rules[|rules| - 1];
      assert rules == init + [last];
      if Emits(rep, last) {
        var before := alignments[..|alignments| - 1];
        AlignmentsNameDrivers(rep, init, before);
        assert alignments == before + [alignments[|alignments| - 1]];
        assert last in rules;
      } else {
        AlignmentsNameDrivers(rep, init, alignments);
      }
    }
  }

  // ---------------------------------------------------------------------
  // Grouping configs
  // ---------------------------------------------------------------------

  function AttributeDrivers(devices: seq<TopologyDevice>, attribute: AttributeName): set<string> {
    set d | d in devices && AttributeValueString(d, attribute) != "" :: Base(d)
  }

  function GroupingRequesters(inst: GroupingInstance, attribute: AttributeName,
                              driverFor: string -> string): set<string> {
    set c | c in inst.deviceCounts && BaseDriver(driverFor(c)) in AttributeDrivers(inst.devices, attribute)
  }

  predicate GroupingEmits(inst: GroupingInstance, rule: TopologyRule, classOf: string -> string,
                          driverFor: string -> string) {
    && (rule.driver == "" || classOf(rule.driver) in inst.deviceCounts)
    && |GroupingRequesters(inst, rule.attribute, driverFor)| >= 2
  }

  ghost predicate GroupingAlignment(inst: GroupingInstance, rule: TopologyRule, driverFor: string -> string,
                                    a: AlignmentConfig) {
    && a.attribute == rule.attribute && a.enforcement == Enforced(rule.enforcement)
    && ListsSet(a.requests, GroupingRequesters(inst, rule.attribute, driverFor))
  }

  /** Every alignment comes from an emitting rule, and every emitting rule gives one. */
  ghost predicate GroupingAlignments(inst: GroupingInstance, rules: seq<TopologyRule>, classOf: string -> string,
                                     driverFor: string -> string,
                                     alignments: seq<AlignmentConfig>) {
    if rules == [] then alignments == [] else
      var init, last := rules[..|rules| - 1], rules[|rules| - 1];
      if GroupingEmits(inst, last, classOf, driverFor) then
        && alignments != []
        && GroupingAlignments(inst, init, classOf, driverFor, alignments[..|alignments| - 1])
        && GroupingAlignment(inst, last, driverFor, alignments[|alignments| - 1])
      else GroupingAlignments(inst, init, classOf, driverFor, alignments)
  }

  function GroupingSub(inst: GroupingInstance, selectorsFor: string -> seq<string>, c: string): SubResource {
    SubResource(c, CountIn(inst.deviceCounts, c), if c in inst.deviceCapacity
      then inst.deviceCapacity[c] else map[], selectorsFor(c))
  }

  ghost predicate GroupingSubs(inst: GroupingInstance, selectorsFor: string -> seq<string>, subs: seq<SubResource>) {
    exists order :: ListsSet(order, inst.deviceCounts.Keys) && |subs| == |order| &&
      forall i :: 0 <= i < |subs| ==> subs[i] == GroupingSub(inst, selectorsFor, order[i])
  }

  method BuildGroupingConfig(inst: GroupingInstance, rules: seq<TopologyRule>, classOf: string -> string,
                             driverFor: string -> string,
                             selectorsFor: string -> seq<string>) returns (config: PartitionConfig)
    ensures GroupingSubs(inst, selectorsFor, config.subResources)
    ensures GroupingAlignments(inst, rules, classOf, driverFor, config.alignments)
  {
    hide GroupingSubs, GroupingAlignments;
    var subs := BuildGroupingSubs(inst, selectorsFor);
    var alignments := BuildGroupingAlignments(inst, rules, classOf, driverFor);
    config := PartitionConfig(subs, alignments);
  }

  method BuildGroupingSubs(inst: GroupingInstance, selectorsFor: string -> seq<string>) returns (subs: seq<SubResource>)
    ensures GroupingSubs(inst, selectorsFor, subs)
  {
    hide GroupingSub, ListsSet;
    KeptAlways(inst.deviceCounts.Keys);
    var order := CollectKeys(inst.deviceCounts.Keys, Always());
    subs := [];
    for i := 0 to |order|
      invariant |subs| == i
      invariant forall j :: 0 <= j < i ==> subs[j] == GroupingSub(inst, selectorsFor, order[j])
    {
      subs := subs + [GroupingSub(inst, selectorsFor, order[i])];
    }
  }

  method BuildGroupingAlignments(inst: GroupingInstance, rules: seq<TopologyRule>, classOf: string -> string,
                                 driverFor: string -> string)
    returns (alignments: seq<AlignmentConfig>)
    ensures GroupingAlignments(inst, rules, classOf, driverFor, alignments)
  {
    hide GroupingRequesters, ListsSet;
    alignments := [];
    for i := 0 to |rules|
      invariant GroupingAlignments(inst, rules[..i], classOf, driverFor, alignments)
    {
      assert rules[..i + 1][..i] == rules[..i];
      ghost var before := alignments;
      var rule := rules[i];
      if rule.driver != "" && classOf(rule.driver) !in inst.deviceCounts { continue; }
      var requests := GroupingRequests(inst, rule.attribute, driverFor);
      ListSize(requests, GroupingRequesters(inst, rule.attribute, driverFor));
      if |requests| < 2 { continue; }
      alignments := alignments + [AlignmentConfig(rule.attribute, requests, Enforced(rule.enforcement))];
      assert alignments[..|alignments| - 1] == before;
    }
    assert rules[..|rules|] == rules;
  }

  function DriverIn(drivers: set<string>, driverFor: string -> string): string -> bool {
    c => BaseDriver(driverFor(c)) in drivers
  }

  lemma GroupingRequestersKept(inst: GroupingInstance, attribute: AttributeName, driverFor: string -> string)
    ensures GroupingRequesters(inst, attribute, driverFor) ==
      Kept(inst.deviceCounts.Keys, DriverIn(AttributeDrivers(inst.devices, attribute), driverFor))
  {
    hide AttributeDrivers;
  }

  method GroupingRequests(inst: GroupingInstance, attribute: AttributeName, driverFor: string -> string)
    returns (requests: seq<string>)
    ensures ListsSet(requests, GroupingRequesters(inst, attribute, driverFor))
  {
    hide ListsSet, Kept, GroupingRequesters, AttributeDrivers;
    var drivers := CollectAttributeDrivers(inst.devices, attribute);
    GroupingRequestersKept(inst, attribute, driverFor);
    requests := CollectKeys(inst.deviceCounts.Keys, DriverIn(drivers, driverFor));
  }

  method CollectAttributeDrivers(devices: seq<TopologyDevice>, attribute: AttributeName) returns (drivers: set<string>)
    ensures drivers == AttributeDrivers(devices, attribute)
  {
    hide AttributeValueString;
    drivers := {};
    for i := 0 to |devices|
      invariant drivers == AttributeDrivers(devices[..i], attribute)
    {
      assert devices[..i + 1] == devices[..i] + [devices[i]];
      if AttributeValueString(devices[i], attribute) != "" { drivers := drivers + {Base(devices[i])}; }
    }
    assert devices[..|devices|] == devices;
  }

  // ---------------------------------------------------------------------
  // Closed configs
  // ---------------------------------------------------------------------

  function ClassesIn(subs: seq<SubResource>): set<string> {
    set s | s in subs :: s.deviceClass
  }

  /** Every alignment names sub-resource classes of the config, each at most once. */
  ghost predicate Closed(config: PartitionConfig) {
    forall a :: a in config.alignments ==>
      && (forall r :: r in a.requests ==> r in ClassesIn(config.subResources))
      && Distinct(a.requests)
  }

  lemma {:induction false} GroupingAlignmentsFrom(inst: GroupingInstance, rules: seq<TopologyRule>,
                                                  classOf: string -> string, driverFor: string -> string,
                                                  alignments: seq<AlignmentConfig>)
    requires GroupingAlignments(inst, rules, classOf, driverFor, alignments)
    ensures forall a :: a in alignments ==>
      |a.requests| >= 2 && exists r: TopologyRule ::
      ListsSet(a.requests, GroupingRequesters(inst, r.attribute, driverFor))
  {
    hide GroupingRequesters, ListsSet;
    if rules != [] {
      var init, last := rules[..|rules| - 1], rules[|rules| - 1];
      if GroupingEmits(inst, last, classOf, driverFor) {
        var before, a := alignments[..|alignments| - 1], alignments[|alignments| - 1];
        GroupingAlignmentsFrom(inst, init, classOf, driverFor, before);
        assert alignments == before + [a];
        assert |a.requests| == |GroupingRequesters(inst, last.attribute,
          driverFor)| by { ListSize(a.requests, GroupingRequesters(inst, last.attribute, driverFor)); }
      } else {
        GroupingAlignmentsFrom(inst, init, classOf, driverFor, alignments);
      }
    }
  }

  lemma ListSize(list: seq<string>, s: set<string>)
    requires ListsSet(list, s)
    ensures |list| == |s|
  {
  }

  /** A grouping config is closed and aligns at least two classes. */
  lemma {:induction false} GroupingConfigClosed(inst: GroupingInstance, rules: seq<TopologyRule>,
                                                classOf: string -> string, driverFor: string -> string,
                                                selectorsFor: string -> seq<string>, config: PartitionConfig)
    requires GroupingSubs(inst, selectorsFor, config.subResources)
    requires GroupingAlignments(inst, rules, classOf, driverFor, config.alignments)
    ensures Closed(config)
    ensures forall a :: a in config.alignments ==> |a.requests| >= 2
    ensures ClassesIn(config.subResources) == inst.deviceCounts.Keys
  {
    hide GroupingAlignments;
    GroupingAlignmentsFrom(inst, rules, classOf, driverFor, config.alignments);
    GroupingSubClasses(inst, selectorsFor, config.subResources);
    forall a | a in config.alignments
      ensures forall r :: r in a.requests ==> r in ClassesIn(config.subResources)
      ensures Distinct(a.requests)
    {
      var r: TopologyRule :| ListsSet(a.requests, GroupingRequesters(inst, r.attribute, driverFor));
      ListDistinct(a.requests, GroupingRequesters(inst, r.attribute, driverFor));
    }
  }

  lemma GroupingSubClass(inst: GroupingInstance, selectorsFor: string -> seq<string>, c: string)
    ensures GroupingSub(inst, selectorsFor, c).deviceClass == c
  {
  }

  lemma GroupingSubClasses(inst: GroupingInstance, selectorsFor: string -> seq<string>, subs: seq<SubResource>)
    requires GroupingSubs(inst, selectorsFor, subs)
    ensures ClassesIn(subs) == inst.deviceCounts.Keys
  {
    hide GroupingSub;
    var order :| ListsSet(order, inst.deviceCounts.Keys) && |subs| == |order| &&
      forall i :: 0 <= i < |subs| ==> subs[i] == GroupingSub(inst, selectorsFor, order[i]);
    forall i | 0 <= i < |subs| ensures subs[i].deviceClass ==
      order[i] { GroupingSubClass(inst, selectorsFor, order[i]); }
    forall c | c in ClassesIn(subs) ensures c in inst.deviceCounts.Keys {
      var i :| 0 <= i < |subs| && subs[i].deviceClass == c;
      assert order[i] in order;
    }
    forall c | c in inst.deviceCounts.Keys ensures c in ClassesIn(subs) {
      assert c in order;
      var i :| 0 <= i < |order| && order[i] == c;
      assert subs[i] in subs;
    }
  }

  /** A partition config is closed when no rule overrides the class of one of its drivers. */
  lemma {:induction false} PartitionConfigClosed(rep: Partition, rules: seq<TopologyRule>, classOf: string -> string,
                                                 selectorsFor: string -> seq<string>, config: PartitionConfig)
    requires SubResourcesFor(rep, classOf, selectorsFor, config.subResources)
    requires AlignmentsFor(rep, rules, config.alignments)
    requires forall driver :: driver in rep.deviceCounts ==> classOf(driver) == driver
    ensures Closed(config)
  {
    hide AlignmentsFor, Emits;
    AlignmentsNameDrivers(rep, rules, config.alignments);
    var order :| ListsSet(order, rep.deviceCounts.Keys) && |config.subResources| == |order| &&
      forall i :: 0 <= i < |config.subResources| ==>
        config.subResources[i] == SubFor(rep, classOf, selectorsFor, order[i]);
    forall driver | driver in rep.deviceCounts ensures driver in ClassesIn(config.subResources) {
      assert driver in order;
      var i :| 0 <= i < |order| && order[i] == driver;
      assert config.subResources[i] in config.subResources;
    }
    forall a | a in config.alignments
      ensures forall r :: r in a.requests ==> r in ClassesIn(config.subResources)
      ensures Distinct(a.requests)
    {
      var rule :| rule in rules && Emits(rep, rule) && AlignmentFor(rep, rule, a);
      ListDistinct(a.requests, Requesters(rep, rule.attribute));
    }
  }
}
