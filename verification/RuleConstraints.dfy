/** From a match rule to the constraints of an expanded claim, and back. */
module RuleConstraints {
  import opened Collections
  import opened Topology
  import opened Satisfiability
  import opened PartitionBuilder
  import opened GroupingBuilder
  import opened PartitionConfigs
  import opened RequestNames
  import opened ClaimExpansion
  import opened ClaimLaws

  /** Some device of the driver has a scalar value of the attribute. */
  ghost predicate Publishes(devices: seq<TopologyDevice>, driver: string, attribute: AttributeName) {
    exists d :: d in devices && Base(d) == BaseDriver(driver) && HasScalarAttribute(d, attribute)
  }

  /** Some device of the driver has a value, scalar or not. */
  ghost predicate HasValue(devices: seq<TopologyDevice>, driver: string, attribute: AttributeName) {
    exists d :: d in devices && Base(d) == BaseDriver(driver) && AttributeValueString(d, attribute) != ""
  }

  /** A rule is enforced unless it is preferred and the topology cannot satisfy it. */
  predicate RuleEnforced(rule: TopologyRule, satisfiable: ClaimExpansion.Satisfiable, counts: map<string, int>) {
    rule.enforcement.Required? || rule.enforcement.Unset? || satisfiable(rule.attribute, counts)
  }

  /** The constraint is about the attribute and holds the requests of both names. */
  predicate Ties(c: MatchConstraint, attribute: AttributeName, prefix: string, one: string, two: string) {
    c.attribute == attribute && RequestName(prefix, one) in c.requests && RequestName(prefix, two) in c.requests
  }

  ghost predicate SomeTie(all: seq<MatchConstraint>, attribute: AttributeName, prefix: string, one: string,
                          two: string) {
    exists c :: c in all && Ties(c, attribute, prefix, one, two)
  }

  // ---------------------------------------------------------------------
  // Alignments
  // ---------------------------------------------------------------------

  lemma TwoNames(requests: seq<string>, one: string, two: string)
    requires one != two && one in requests && two in requests
    ensures |requests| >= 2
  {
  }

  lemma AlignmentTies(name: string, count: nat, config: PartitionConfig, satisfiable: ClaimExpansion.Satisfiable,
                      a: AlignmentConfig, i: nat, one: string, two: string)
    requires DistinctTokens(config.subResources) && Closed(config) && i < count
    requires a in config.alignments && Enforces(satisfiable, DriverCounts(config.subResources), a)
    requires one != two && one in a.requests && two in a.requests
    ensures SomeTie(ExpandedConstraints(name, count, config, satisfiable, count), a.attribute, Prefix(name, count, i),
      one, two)
  {
    hide DistinctTokens, Closed, Filter, ExpandedConstraints, Prefix, DriverCounts, RequestName, Enforces;
    var prefix := Prefix(name, count, i);
    TwoNames(a.requests, one, two);
    ConstraintsExact(name, count, config, satisfiable, count);
    FilterMembers(config.alignments, AppliesIn(satisfiable, config.subResources));
    assert AppliesIn(satisfiable, config.subResources)(a);
    var c := Stated(prefix, a);
    assert c in ExpandedConstraints(name, count, config, satisfiable, count);
    NameIn(prefix, a.requests, one);
    NameIn(prefix, a.requests, two);
  }

  lemma NameIn(prefix: string, requests: seq<string>, r: string)
    requires r in requests
    ensures RequestName(prefix, r) in NamesOf(prefix, requests)
  {
    hide RequestName;
    var k :| 0 <= k < |requests| && requests[k] == r;
    assert NamesOf(prefix, requests)[k] == RequestName(prefix, r);
  }

  // ---------------------------------------------------------------------
  // Partition configs
  // ---------------------------------------------------------------------

  lemma {:induction false} RuleHasAlignment(rep: Partition, rules: seq<TopologyRule>, alignments: seq<AlignmentConfig>,
                                            rule: TopologyRule)
    requires AlignmentsFor(rep, rules, alignments) && rule in rules && Emits(rep, rule)
    ensures exists a :: a in alignments && AlignmentFor(rep, rule, a)
  {
    hide Emits, AlignmentFor;
    var init, last := rules[..|rules| - 1], rules[|rules| - 1];
    assert rules == init + [last];
    if rule == last {
      assert alignments[|alignments| - 1] in alignments;
    } else {
      var before := if Emits(rep, last) then alignments[..|alignments| - 1] else alignments;
      RuleHasAlignment(rep, init, before, rule);
      assert forall a :: a in before ==> a in alignments;
    }
  }

  lemma PublisherRequests(rep: Partition, driver: string, attribute: AttributeName)
    requires driver in rep.deviceCounts && Publishes(rep.devices, driver, attribute)
    ensures driver in Requesters(rep, attribute)
  {
  }

  lemma AlignmentEnforced(rep: Partition, rule: TopologyRule, a: AlignmentConfig,
                          satisfiable: ClaimExpansion.Satisfiable, counts: map<string, int>)
    requires AlignmentFor(rep, rule, a)
    ensures Enforces(satisfiable, counts, a) <==> RuleEnforced(rule, satisfiable, counts)
  {
  }

  /** A match rule that is required, unset, or preferred and satisfiable ties any two drivers of the partition that
      publish its attribute, in every instance; a rule with a fallback needs a value that satisfies the partition. */
  lemma RuleTies(rep: Partition, rules: seq<TopologyRule>, classOf: string -> string,
                 selectorsFor: string -> seq<string>, config: PartitionConfig, name: string, count: nat,
                 satisfiable: ClaimExpansion.Satisfiable, rule: TopologyRule, i: nat, one: string, two: string)
    requires SubResourcesFor(rep, classOf, selectorsFor, config.subResources)
    requires AlignmentsFor(rep, rules, config.alignments) && DistinctTokens(config.subResources)
    requires forall driver :: driver in rep.deviceCounts ==> classOf(driver) == driver
    requires rule in rules && (rule.driver == "" || rule.driver in rep.deviceCounts)
    requires RuleEnforced(rule, satisfiable, DriverCounts(config.subResources))
    requires rule.fallbackAttribute.None? || PartitionSatisfies(rep.devices, rule.attribute, rep.deviceCounts)
    requires one != two && one in rep.deviceCounts && two in rep.deviceCounts && i < count
    requires Publishes(rep.devices, one, rule.attribute) && Publishes(rep.devices, two, rule.attribute)
    ensures SomeTie(ExpandedConstraints(name, count, config, satisfiable, count), rule.attribute,
      Prefix(name, count, i), one, two)
  {
    hide SubResourcesFor, AlignmentsFor, DistinctTokens, Closed, ExpandedConstraints, Prefix, DriverCounts, Publishes;
    hide SomeTie, Requesters, RuleEnforced, Enforces, PartitionSatisfies;
    PublisherRequests(rep, one, rule.attribute);
    PublisherRequests(rep, two, rule.attribute);
    assert Emits(rep, rule);
    RuleHasAlignment(rep, rules, config.alignments, rule);
    var a :| a in config.alignments && AlignmentFor(rep, rule, a);
    AlignmentEnforced(rep, rule, a, satisfiable, DriverCounts(config.subResources));
    PartitionConfigClosed(rep, rules, classOf, selectorsFor, config);
    AlignmentTies(name, count, config, satisfiable, a, i, one, two);
  }

  /** The constraint is what a rule asks for in one instance: over all drivers that publish the attribute. */
  ghost predicate AskedBy(rep: Partition, rule: TopologyRule, prefix: string, c: MatchConstraint) {
    && c.attribute == rule.attribute
    && (forall x :: x in c.requests <==>
          exists driver :: driver in rep.deviceCounts &&
            (rep.devices == [] || Publishes(rep.devices, driver, rule.attribute)) &&
            x == RequestName(prefix, driver))
  }

  lemma RequesterIff(rep: Partition, driver: string, attribute: AttributeName)
    ensures driver in Requesters(rep, attribute) <==>
      driver in rep.deviceCounts && (rep.devices == [] || Publishes(rep.devices, driver, attribute))
  {
  }

  lemma StatedAsked(rep: Partition, rule: TopologyRule, a: AlignmentConfig, prefix: string)
    requires AlignmentFor(rep, rule, a)
    ensures AskedBy(rep, rule, prefix, Stated(prefix, a))
  {
    hide Requesters, Publishes, RequestName;
    var c := Stated(prefix, a);
    forall driver ensures driver in a.requests <==>
      driver in rep.deviceCounts && (rep.devices == [] || Publishes(rep.devices, driver, rule.attribute)) {
      RequesterIff(rep, driver, rule.attribute);
    }
    forall driver | driver in a.requests ensures RequestName(prefix, driver) in c.requests {
      NameIn(prefix, a.requests, driver);
    }
    forall x | x in c.requests ensures exists driver :: driver in a.requests && x == RequestName(prefix, driver) {
      var k :| 0 <= k < |c.requests| && c.requests[k] == x;
      assert a.requests[k] in a.requests;
    }
  }

  ghost predicate FromRule(rep: Partition, rules: seq<TopologyRule>, satisfiable: ClaimExpansion.Satisfiable,
                           counts: map<string, int>, prefix: string, c: MatchConstraint) {
    exists rule :: rule in rules && RuleEnforced(rule, satisfiable, counts) && AskedBy(rep, rule, prefix, c)
  }

  /** Nothing else is constrained: every constraint is what an enforced rule asks for in one instance. */
  lemma ConstraintHasRule(rep: Partition, rules: seq<TopologyRule>, classOf: string -> string,
                          selectorsFor: string -> seq<string>, config: PartitionConfig, name: string, count: nat,
                          satisfiable: ClaimExpansion.Satisfiable, c: MatchConstraint)
    requires SubResourcesFor(rep, classOf, selectorsFor, config.subResources)
    requires AlignmentsFor(rep, rules, config.alignments) && DistinctTokens(config.subResources)
    requires forall driver :: driver in rep.deviceCounts ==> classOf(driver) == driver
    requires c in ExpandedConstraints(name, count, config, satisfiable, count)
    ensures exists i: nat ::
      i < count && FromRule(rep, rules, satisfiable, DriverCounts(config.subResources), Prefix(name, count, i), c)
  {
    hide SubResourcesFor, AlignmentsFor, DistinctTokens, Closed, ExpandedConstraints, Prefix, DriverCounts, Stated;
    hide Filter;
    hide AskedBy, AlignmentFor, RuleEnforced, Emits, Enforces;
    PartitionConfigClosed(rep, rules, classOf, selectorsFor, config);
    ConstraintsExact(name, count, config, satisfiable, count);
    FilterMembers(config.alignments, AppliesIn(satisfiable, config.subResources));
    var i: nat, a :| i < count && a in Filter(config.alignments, AppliesIn(satisfiable, config.subResources)) &&
      c == Stated(Prefix(name, count, i), a);
    assert AppliesIn(satisfiable, config.subResources)(a);
    AlignmentsNameDrivers(rep, rules, config.alignments);
    var rule :| rule in rules && Emits(rep, rule) && AlignmentFor(rep, rule, a);
    AlignmentEnforced(rep, rule, a, satisfiable, DriverCounts(config.subResources));
    StatedAsked(rep, rule, a, Prefix(name, count, i));
    assert FromRule(rep, rules, satisfiable, DriverCounts(config.subResources), Prefix(name, count, i), c);
  }

  // ---------------------------------------------------------------------
  // Grouping configs
  // ---------------------------------------------------------------------

  lemma {:induction false} RuleHasGroupingAlignment(inst: GroupingInstance, rules: seq<TopologyRule>,
                                                    classOf: string -> string, driverFor: string -> string,
                                                    alignments: seq<AlignmentConfig>, rule: TopologyRule)
    requires GroupingAlignments(inst, rules, classOf, driverFor, alignments)
    requires rule in rules && GroupingEmits(inst, rule, classOf, driverFor)
    ensures exists a :: a in alignments && GroupingAlignment(inst, rule, driverFor, a)
  {
    hide GroupingEmits, GroupingAlignment;
    var init, last := rules[..|rules| - 1], rules[|rules| - 1];
    assert rules == init + [last];
    if rule == last {
      assert alignments[|alignments| - 1] in alignments;
    } else {
      var before := if GroupingEmits(inst, last, classOf, driverFor)
        then alignments[..|alignments| - 1] else alignments;
      RuleHasGroupingAlignment(inst, init, classOf, driverFor, before, rule);
      assert forall a :: a in before ==> a in alignments;
    }
  }

  lemma GroupingRequesterIff(inst: GroupingInstance, attribute: AttributeName, driverFor: string -> string, c: string)
    ensures c in GroupingRequesters(inst, attribute, driverFor) <==>
      c in inst.deviceCounts && HasValue(inst.devices, driverFor(c), attribute)
  {
  }

  lemma TwoMembers(s: set<string>, one: string, two: string)
    requires one != two && one in s && two in s
    ensures |s| >= 2
  {
    assert |s - {one}| == |s| - 1 && two in s - {one};
  }

  /** In a grouping, such a rule ties any two classes whose drivers have a value of its attribute, whether or not
      classes are overridden. */
  lemma GroupingRuleTies(inst: GroupingInstance, rules: seq<TopologyRule>, classOf: string -> string,
                         driverFor: string -> string, selectorsFor: string -> seq<string>, config: PartitionConfig,
                         name: string, count: nat, satisfiable: ClaimExpansion.Satisfiable, rule: TopologyRule,
                         i: nat, one: string, two: string)
    requires GroupingSubs(inst, selectorsFor, config.subResources) && DistinctTokens(config.subResources)
    requires GroupingAlignments(inst, rules, classOf, driverFor, config.alignments)
    requires rule in rules && (rule.driver == "" || classOf(rule.driver) in inst.deviceCounts)
    requires RuleEnforced(rule, satisfiable, DriverCounts(config.subResources)) && i < count
    requires one != two && one in inst.deviceCounts && HasValue(inst.devices, driverFor(one), rule.attribute)
    requires two in inst.deviceCounts && HasValue(inst.devices, driverFor(two), rule.attribute)
    ensures SomeTie(ExpandedConstraints(name, count, config, satisfiable, count), rule.attribute,
      Prefix(name, count, i), one, two)
  {
    hide GroupingSubs, GroupingAlignments, DistinctTokens, Closed, ExpandedConstraints, Prefix, DriverCounts, HasValue;
    hide SomeTie, GroupingRequesters;
    GroupingRequesterIff(inst, rule.attribute, driverFor, one);
    GroupingRequesterIff(inst, rule.attribute, driverFor, two);
    TwoMembers(GroupingRequesters(inst, rule.attribute, driverFor), one, two);
    RuleHasGroupingAlignment(inst, rules, classOf, driverFor, config.alignments, rule);
    var a :| a in config.alignments && GroupingAlignment(inst, rule, driverFor, a);
    GroupingConfigClosed(inst, rules, classOf, driverFor, selectorsFor, config);
    AlignmentTies(name, count, config, satisfiable, a, i, one, two);
  }
}
