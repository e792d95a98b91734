/** The rule store: a map filled from ConfigMaps whose getters walk the map in any order. */
module TopologyRules {
  import opened Collections
  import opened Topology

  type RuleTable = map<string, TopologyRule>

  /** The keys of the rules that satisfy a condition. */
  function KeysWith(rules: RuleTable, p: TopologyRule -> bool): set<string> {
    set k | k in rules && p(rules[k])
  }

  /** `list` holds every selected rule once per ConfigMap, in some order. */
  ghost predicate Lists(rules: RuleTable, p: TopologyRule -> bool, list: seq<TopologyRule>) {
    exists order: seq<string> ::
      && ListsSet(order, KeysWith(rules, p)) && |order| == |list|
      && (forall i :: 0 <= i < |list| ==> order[i] in rules && list[i] == rules[order[i]])
  }

  lemma ListsMembers(rules: RuleTable, p: TopologyRule -> bool, list: seq<TopologyRule>)
    requires Lists(rules, p, list)
    ensures forall r :: r in list <==> p(r) && exists k :: k in rules && rules[k] == r
  {
    var order: seq<string> :|
      && ListsSet(order, KeysWith(rules, p)) && |order| == |list|
      && (forall i :: 0 <= i < |list| ==> order[i] in rules && list[i] == rules[order[i]]);
    forall r ensures r in list <==> p(r) && exists k :: k in rules && rules[k] == r {
      if r in list {
        var i :| 0 <= i < |list| && list[i] == r;
        assert order[i] in KeysWith(rules, p);
      }
      if p(r) && exists k :: k in rules && rules[k] == r {
        var k :| k in rules && rules[k] == r;
        assert k in order;
        var i :| 0 <= i < |order| && order[i] == k;
        assert list[i] == r;
      }
    }
  }

  predicate AnyRule(r: TopologyRule) { true }
  predicate IsGroupingRule(r: TopologyRule) { r.partitioning.PartitionByGroup? }
  predicate IsMatchRule(r: TopologyRule) { r.constraint.ConstraintMatch? }

  /** The constraint that applies when no rule matches on the PCIe root. */
  const BUILTIN_PCIE_RULE :=
    TopologyRule("builtin-pcieroot-default", PcieRootName, "", MapsToNothing, PartitionInfoOnly,
    ConstraintMatch, Required, Some(NumaNodeName), "")

  function WithDefault(found: seq<TopologyRule>): seq<TopologyRule> {
    if exists r: TopologyRule :: r in found && r.attribute.PcieRootName? then found else found + [BUILTIN_PCIE_RULE]
  }

  ghost predicate MatchRules(rules: RuleTable, list: seq<TopologyRule>) {
    exists found :: Lists(rules, IsMatchRule, found) && list == WithDefault(found)
  }

  /** Whatever the ConfigMaps say, some match rule is on the PCIe root. */
  lemma AlwaysPcieConstraint(rules: RuleTable, list: seq<TopologyRule>)
    requires MatchRules(rules, list)
    ensures exists r: TopologyRule :: r in list && r.attribute.PcieRootName?
  {
    assert BUILTIN_PCIE_RULE in [BUILTIN_PCIE_RULE];
  }

  ghost predicate Stored(rules: RuleTable, r: TopologyRule) {
    exists k :: k in rules && rules[k] == r
  }

  /** The rule that applies when no rule matches on the PCIe root: required, for all drivers, on the PCIe root, with
      the NUMA node to fall back on. */
  predicate IsDefault(r: TopologyRule) {
    && r.constraint.ConstraintMatch? && r.attribute.PcieRootName? && r.driver == "" && r.enforcement.Required?
    && r.fallbackAttribute == Some(NumaNodeName) && r.deviceClass == "" && r.partitioning.PartitionInfoOnly?
    && r.mapsTo.MapsToNothing?
  }

  /** The match rules are the stored rules with a match constraint, and the default rule in addition exactly when
      none of those is on the PCIe root. */
  lemma MatchRulesAre(rules: RuleTable, list: seq<TopologyRule>)
    requires MatchRules(rules, list)
    ensures if MatchesRoot(rules) then AreStoredMatches(rules, list)
            else list != [] && IsDefault(list[|list| - 1]) && AreStoredMatches(rules, list[..|list| - 1])
  {
    hide Lists, Stored;
    var found :| Lists(rules, IsMatchRule, found) && list == WithDefault(found);
    StoredMatches(rules, found);
    if MatchesRoot(rules) {
      var r :| Stored(rules, r) && r.constraint.ConstraintMatch? && r.attribute.PcieRootName?;
      assert r in found;
      assert list == found;
    } else {
      assert forall r: TopologyRule :: r in found ==> !r.attribute.PcieRootName?;
      assert list == found + [BUILTIN_PCIE_RULE];
      assert list[..|list| - 1] == found;
    }
  }

  ghost predicate AreStoredMatches(rules: RuleTable, list: seq<TopologyRule>) {
    forall r :: r in list <==> Stored(rules, r) && r.constraint.ConstraintMatch?
  }

  /** Some stored match rule is on the PCIe root. */
  ghost predicate MatchesRoot(rules: RuleTable) {
    exists r :: Stored(rules, r) && r.constraint.ConstraintMatch? && r.attribute.PcieRootName?
  }

  lemma StoredMatches(rules: RuleTable, found: seq<TopologyRule>)
    requires Lists(rules, IsMatchRule, found)
    ensures AreStoredMatches(rules, found)
  {
    hide Lists;
    ListsMembers(rules, IsMatchRule, found);
  }

  /** The grouping rules are the stored rules that partition by group. */
  lemma GroupingRulesAre(rules: RuleTable, list: seq<TopologyRule>)
    requires Lists(rules, IsGroupingRule, list)
    ensures forall r :: r in list <==> Stored(rules, r) && r.partitioning.PartitionByGroup?
  {
    ListsMembers(rules, IsGroupingRule, list);
  }

  /** A class that the lookup may return: any override for the driver, or the driver when there is none. */
  ghost predicate MayBeClass(rules: RuleTable, driver: string, c: string) {
    if exists k :: Overrides(rules, k, driver)
    then exists k :: Overrides(rules, k, driver) && rules[k].deviceClass == c
    else c == driver
  }

  predicate Overrides(rules: RuleTable, k: string, driver: string) {
    k in rules && rules[k].driver == driver && rules[k].deviceClass != ""
  }

  /** The lookup gives the class of a stored rule of the driver that names one, and the driver when there is none. */
  lemma LookupIs(rules: RuleTable, driver: string, c: string)
    requires MayBeClass(rules, driver, c)
    ensures if exists r :: Stored(rules, r) && r.driver == driver && r.deviceClass != ""
      then exists r :: Stored(rules, r) && r.driver == driver && r.deviceClass == c && c != "" else c == driver
  {
    if r :| Stored(rules, r) && r.driver == driver && r.deviceClass != "" {
      var k :| k in rules && rules[k] == r;
      assert Overrides(rules, k, driver);
      var k' :| Overrides(rules, k', driver) && rules[k'].deviceClass == c;
      assert Stored(rules, rules[k']);
    } else {
      forall k ensures !Overrides(rules, k, driver) {
        if Overrides(rules, k, driver) { assert Stored(rules, rules[k]); }
      }
    }
  }

  ghost predicate OverridesAgree(rules: RuleTable, driver: string) {
    forall k, k' :: Overrides(rules, k, driver) && Overrides(rules, k', driver) ==>
      rules[k].deviceClass == rules[k'].deviceClass
  }

  /** The class lookup has one answer exactly when the overrides for the driver agree. */
  lemma ClassLookupDeterministic(rules: RuleTable, driver: string)
    ensures OverridesAgree(rules, driver) <==>
      forall c, c' :: MayBeClass(rules, driver, c) && MayBeClass(rules, driver, c') ==> c == c'
  {
    if !OverridesAgree(rules, driver) {
      var k, k' :| Overrides(rules, k, driver) && Overrides(rules, k', driver) &&
        rules[k].deviceClass != rules[k'].deviceClass;
      assert MayBeClass(rules, driver, rules[k].deviceClass) && MayBeClass(rules, driver, rules[k'].deviceClass);
    }
  }

  class TopologyRuleStore {
    var rules: RuleTable

    constructor ()
      ensures rules == map[]
    {
      rules := map[];
    }

    method Load(key: string, rule: TopologyRule)
      modifies this
      ensures rules == old(rules)[key := rule]
    {
      rules := rules[key := rule];
    }

    method RemoveConfigMap(key: string)
      modifies this
      ensures rules == old(rules) - {key}
    {
      if key in rules {
        rules := rules - {key};
      }
    }

    method Select(p: TopologyRule -> bool) returns (list: seq<TopologyRule>)
      ensures Lists(rules, p, list)
    {
      list := [];
      var todo := rules.Keys;
      ghost var order: seq<string> := [];
      ghost var done: set<string> := {};
      while todo != {}
        invariant todo <= rules.Keys
        invariant done == set k | k in rules && k !in todo && p(rules[k])
        invariant |order| == |done| == |list|
        invariant forall k :: k in order <==> k in done
        invariant forall i :: 0 <= i < |list| ==> order[i] in rules && list[i] == rules[order[i]]
        decreases |todo|
      {
        var k :| k in todo;
        todo := todo - {k};
        if p(rules[k]) {
          list := list + [rules[k]];
          order := order + [k];
          done := done + {k};
        }
      }
      assert done == KeysWith(rules, p);
    }

    method GetRules() returns (list: seq<TopologyRule>)
      ensures Lists(rules, AnyRule, list)
    {
      list := Select(AnyRule);
    }

    method GetGroupingRules() returns (list: seq<TopologyRule>)
      ensures Lists(rules, IsGroupingRule, list)
    {
      list := Select(IsGroupingRule);
    }

    /** The match rules, with the built-in PCIe root rule appended when none of them is on the PCIe root. */
    method GetMatchConstraintRules() returns (list: seq<TopologyRule>)
      ensures MatchRules(rules, list)
    {
      var found := Select(IsMatchRule);
      var hasPcieRoot := false;
      for i := 0 to |found|
        invariant hasPcieRoot <==> exists r: TopologyRule :: r in found[..i] && r.attribute.PcieRootName?
      {
        assert found[..i + 1] == found[..i] + [found[i]];
        if found[i].attribute.PcieRootName? { hasPcieRoot := true; }
      }
      assert found[..|found|] == found;
      list := if hasPcieRoot then found else found + [BUILTIN_PCIE_RULE];
      assert list == WithDefault(found);
    }

    method GetDeviceClassForDriver(driver: string) returns (c: string)
      ensures MayBeClass(rules, driver, c)
    {
      var todo := rules.Keys;
      while todo != {}
        invariant todo <= rules.Keys
        invariant forall k :: Overrides(rules, k, driver) ==> k in todo
        decreases |todo|
      {
        var k :| k in todo;
        todo := todo - {k};
        if rules[k].driver == driver && rules[k].deviceClass != "" {
          assert Overrides(rules, k, driver);
          return rules[k].deviceClass;
        }
      }
      c := driver;
    }
  }
}
