/** What the coupling level of a partition says about its alignments and its devices. */
module CouplingFacts {
  import opened Collections
  import opened Topology
  import opened Satisfiability
  import opened DeviceFacts
  import opened PartitionBuilder
  import opened PartitionConfigs
  import opened TopologyRules

  // ---------------------------------------------------------------------
  // Coupling and alignments
  // ---------------------------------------------------------------------

  /** A partition is tight exactly when a rule with a fallback is emitted; it is loose exactly when such rules apply
      and none is emitted, and otherwise it has no coupling. */
  lemma CouplingIff(rep: Partition, rules: seq<TopologyRule>)
    ensures CouplingOf(rep, rules).Tight? <==> exists r :: r in rules && r.fallbackAttribute.Some? && Emits(rep, r)
    ensures CouplingOf(rep, rules).NoCoupling? <==>
      forall r :: r in rules && r.fallbackAttribute.Some? ==> !RuleApplies(rep, r)
  {
    hide RuleApplies, Satisfiable;
    if CouplingOf(rep, rules).NoCoupling? {
      forall r | r in rules && r.fallbackAttribute.Some? ensures !RuleApplies(rep, r) {
        assert FallsBack(rep, r) ==> !CouplingOf(rep, rules).NoCoupling?;
      }
    } else {
      assert exists r :: r in rules && FallsBack(rep, r);
    }
    if r :| r in rules && r.fallbackAttribute.Some? && Emits(rep, r) { assert TightWitness(rep, r); }
  }

  // ---------------------------------------------------------------------
  // One root
  // ---------------------------------------------------------------------

  function OnThisRoot(b: string, root: string): TopologyDevice -> bool {
    (d: TopologyDevice) => Base(d) == b && d.pcieRoot == Some(root)
  }

  /** The devices are on the root, or on no root at all. */
  ghost predicate OneRoot(devices: seq<TopologyDevice>, root: string) {
    forall d :: d in devices ==> d.pcieRoots == [] && (d.pcieRoot == Some(root) || d.pcieRoot.None?)
  }

  ghost predicate HasDeviceOn(devices: seq<TopologyDevice>, b: string, root: string) {
    exists d :: d in devices && Base(d) == b && d.pcieRoot == Some(root)
  }

  lemma PublishesOnRoot(devices: seq<TopologyDevice>, b: string, root: string)
    requires OneRoot(devices, root)
    ensures DriverPublishes(devices, PcieRootName, b) <==> HasDeviceOn(devices, b, root)
  {
    if HasDeviceOn(devices, b, root) {
      var d :| d in devices && Base(d) == b && d.pcieRoot == Some(root);
      assert HasAny(d, PcieRootName, root);
    }
    if DriverPublishes(devices, PcieRootName, b) {
      var d, v :| d in devices && Base(d) == b && HasAny(d, PcieRootName, v);
      assert d.pcieRoot == Some(v);
    }
  }

  lemma OccurrencesOnRoot(devices: seq<TopologyDevice>, b: string, root: string)
    requires OneRoot(devices, root)
    ensures Occurrences(devices, b, PcieRootName, root) == |Filter(devices, OnThisRoot(b, root))|
  {
    hide Filter, Occurrences;
    forall d, v | d in devices ensures multiset(AttributeValues(d, PcieRootName))[v] <= 1 {}
    OccurrencesAreDevices(devices, b, PcieRootName, root);
    forall d | d in devices ensures CarriesAny(b, PcieRootName, root)(d) == OnThisRoot(b, root)(d) {
      AnyValue(d, PcieRootName, root);
    }
    FilterSame(devices, CarriesAny(b, PcieRootName, root), OnThisRoot(b, root));
  }

  /** Every driver with a device on the root is counted no more often than it has devices there. */
  ghost predicate CountedOnRoot(rep: Partition, root: string) {
    forall driver :: driver in rep.deviceCounts && HasDeviceOn(rep.devices, BaseDriver(driver), root) ==>
      rep.deviceCounts[driver] <= |Filter(rep.devices, OnThisRoot(BaseDriver(driver), root))|
  }

  lemma OneRootSatisfies(rep: Partition, root: string, one: string, two: string)
    requires OneRoot(rep.devices, root) && CountedOnRoot(rep, root) && one != two
    requires HasDeviceOn(rep.devices, one, root) && HasDeviceOn(rep.devices, two, root)
    ensures PartitionSatisfies(rep.devices, PcieRootName, rep.deviceCounts)
  {
    hide DriverPublishes, HasDeviceOn, Filter, Occurrences, HasAny, OneRoot, PartitionSatisfies;
    PublishesOnRoot(rep.devices, one, root);
    PublishesOnRoot(rep.devices, two, root);
    forall driver | driver in rep.deviceCounts && DriverPublishes(rep.devices, PcieRootName, BaseDriver(driver))
      ensures rep.deviceCounts[driver] <= Occurrences(rep.devices, BaseDriver(driver), PcieRootName, root)
    {
      PublishesOnRoot(rep.devices, BaseDriver(driver), root);
      OccurrencesOnRoot(rep.devices, BaseDriver(driver), root);
    }
    RootOccurs(rep.devices, one, root);
    assert EnoughInPartition(rep.devices, PcieRootName, rep.deviceCounts, root);
    PartitionSatisfiableIff(rep.devices, PcieRootName, rep.deviceCounts);
  }

  lemma RootOccurs(devices: seq<TopologyDevice>, b: string, root: string)
    requires OneRoot(devices, root) && HasDeviceOn(devices, b, root)
    ensures exists d :: d in devices && HasAny(d, PcieRootName, root)
  {
    var d :| d in devices && Base(d) == b && d.pcieRoot == Some(root);
    assert HasAny(d, PcieRootName, root);
  }

  /** Two drivers on one PCIe root couple a partition tightly under the default rule, so with the match rules of a
      store that has no rule on the PCIe root. */
  lemma OneRootIsTight(rules: RuleTable, list: seq<TopologyRule>, rep: Partition, root: string, one: string,
                       two: string)
    requires MatchRules(rules, list)
    requires !MatchesRoot(rules)
    requires OneRoot(rep.devices, root) && CountedOnRoot(rep, root) && BaseDriver(one) != BaseDriver(two)
    requires one in rep.deviceCounts && HasDeviceOn(rep.devices, BaseDriver(one), root)
    requires two in rep.deviceCounts && HasDeviceOn(rep.devices, BaseDriver(two), root)
    ensures CouplingOf(rep, list).Tight?
  {
    hide MatchRules, MatchesRoot, PartitionSatisfies, CountedOnRoot, OneRoot, CouplingOf;
    MatchRulesAre(rules, list);
    var r := list[|list| - 1];
    assert r in list;
    OneRootSatisfies(rep, root, BaseDriver(one), BaseDriver(two));
    OneRequests(rep, root, one);
    assert Emits(rep, r);
    CouplingIff(rep, list);
  }

  lemma OneRequests(rep: Partition, root: string, one: string)
    requires one in rep.deviceCounts && HasDeviceOn(rep.devices, BaseDriver(one), root)
    ensures one in Requesters(rep, PcieRootName)
  {
  }
}
