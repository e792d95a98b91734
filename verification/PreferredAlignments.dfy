/** Preferred alignments are enforced only when the topology can satisfy them.  The check at admission passes
    counts per device class, while the topology counts devices per driver name. */
module PreferredAlignments {
  import opened Collections
  import opened Topology
  import opened TopologyIndex
  import opened Satisfiability
  import opened PartitionBuilder
  import opened PartitionConfigs
  import opened ClaimExpansion
  import opened ClaimLaws
  import opened OverriddenClasses

  /** The answer of the topology model. */
  ghost function Answers(nodes: Nodes): Satisfiable {
    (attribute, needed) => ClusterSatisfies(nodes, attribute, needed)
  }

  /** Some device of the cluster has this driver name. */
  ghost predicate IsDriver(nodes: Nodes, name: string) {
    exists n, s, d :: n in nodes && s in nodes[n] && d in nodes[n][s] && d.driverName == name
  }

  lemma {:induction false} ConcatFrom(table: SliceTable, order: seq<string>, d: TopologyDevice)
    requires (forall s :: s in order ==> s in table) && d in Concat(table, order)
    ensures exists s :: s in table && d in table[s]
  {
    if order != [] {
      var init, last := order[..|order| - 1], order[|order| - 1];
      assert order == init + [last];
      assert last in order;
      if d !in table[last] { ConcatFrom(table, init, d); }
    }
  }

  /** A satisfiable constraint has a device whose driver name is the required name, for each of them. */
  lemma SatisfiableNamesDrivers(nodes: Nodes, attribute: AttributeName, needed: map<string, int>, c: string)
    requires ClusterSatisfies(nodes, attribute, needed) && c in needed && needed[c] >= 1
    ensures IsDriver(nodes, c)
  {
    hide AttributeValueString, Concat;
    var n, all :| n in nodes && Enumerates(nodes[n], all) && NodeSatisfies(all, attribute, needed);
    var v :| NodeWitness(all, attribute, needed, v);
    var held := Filter(all, Carries(c, attribute, v));
    assert needed[c] <= |held|;
    FilterMembers(all, Carries(c, attribute, v));
    var d := held[0];
    assert d in held;
    var order :| ListsSet(order, nodes[n].Keys) && all == Concat(nodes[n], order);
    ConcatFrom(nodes[n], order, d);
  }

  /** A preferred alignment becomes its constraint if and only if one attribute value of one node is carried by
      enough devices whose driver name is the class, for every class of the config. */
  lemma PreferredStatedIff(nodes: Nodes, prefix: string, config: PartitionConfig, a: AlignmentConfig)
    requires DistinctTokens(config.subResources) && Closed(config)
    requires a in config.alignments && a.enforcement.Preferred? && |a.requests| >= 2
    ensures AlignmentConstraints(prefix, config.subResources, Answers(nodes), a) ==
      if ClusterSatisfies(nodes, a.attribute, DriverCounts(config.subResources)) then [Stated(prefix, a)] else []
  {
    hide DistinctTokens, ClassesIn, DriverCounts, ClusterSatisfies, Stated, AlignmentConstraints;
    AlignmentExact(prefix, config.subResources, Answers(nodes), a);
  }

  /** So a preferred alignment is dropped, whatever the topology, when a class is not a driver name. */
  lemma ClassIsNoDriver(nodes: Nodes, prefix: string, subs: seq<SubResource>, a: AlignmentConfig, c: string)
    requires a.enforcement.Preferred? && c in DriverCounts(subs) && DriverCounts(subs)[c] >= 1 && !IsDriver(nodes, c)
    ensures AlignmentConstraints(prefix, subs, Answers(nodes), a) == []
  {
    hide DriverCounts, ClusterSatisfies, Constrain, PerDriver, IsDriver;
    if ClusterSatisfies(nodes, a.attribute, DriverCounts(subs)) {
      SatisfiableNamesDrivers(nodes, a.attribute, DriverCounts(subs), c);
    }
  }

  lemma {:induction false} CountsOfDistinct(subs: seq<SubResource>)
    requires forall i, j :: 0 <= i < j < |subs| ==> subs[i].deviceClass != subs[j].deviceClass
    ensures DriverCounts(subs).Keys == ClassesIn(subs)
    ensures forall sub :: sub in subs ==> DriverCounts(subs)[sub.deviceClass] == sub.count
  {
    if subs != [] {
      var init, last := subs[..|subs| - 1], subs[|subs| - 1];
      assert subs == init + [last];
      CountsOfDistinct(init);
      assert ClassesIn(subs) == ClassesIn(init) + {last.deviceClass};
    }
  }

  lemma SubForFields(rep: Partition, classOf: string -> string, selectorsFor: string -> seq<string>, driver: string)
    requires driver in rep.deviceCounts
    ensures var sub := SubFor(rep, classOf, selectorsFor, driver);
      sub.deviceClass == classOf(driver) && sub.count == rep.deviceCounts[driver]
  {
  }

  /** Without overrides the counts that are passed are the counts per driver of the partition. */
  lemma CountsWithoutOverrides(rep: Partition, classOf: string -> string, selectorsFor: string -> seq<string>,
                               subs: seq<SubResource>)
    requires SubResourcesFor(rep, classOf, selectorsFor, subs)
    requires forall driver :: driver in rep.deviceCounts ==> classOf(driver) == driver
    ensures DriverCounts(subs) == rep.deviceCounts
  {
    hide SubFor, DriverCounts, ClassesIn, IsSomeClass;
    var order :| ListsSet(order, rep.deviceCounts.Keys) && |subs| == |order| &&
      forall i :: 0 <= i < |subs| ==> subs[i] == SubFor(rep, classOf, selectorsFor, order[i]);
    forall i | 0 <= i < |subs|
      ensures order[i] in rep.deviceCounts && subs[i].deviceClass == order[i]
      ensures subs[i].count == rep.deviceCounts[order[i]]
    {
      assert order[i] in order;
      SubForFields(rep, classOf, selectorsFor, order[i]);
    }
    ListDistinct(order, rep.deviceCounts.Keys);
    CountsOfDistinct(subs);
    ClassesAreDrivers(rep, classOf, selectorsFor, subs);
    forall driver | driver in rep.deviceCounts ensures DriverCounts(subs)[driver] == rep.deviceCounts[driver] {
      assert driver in order;
      var i :| 0 <= i < |order| && order[i] == driver;
      assert subs[i] in subs;
    }
  }

  lemma ClassesAreDrivers(rep: Partition, classOf: string -> string, selectorsFor: string -> seq<string>,
                          subs: seq<SubResource>)
    requires SubResourcesFor(rep, classOf, selectorsFor, subs)
    requires forall driver :: driver in rep.deviceCounts ==> classOf(driver) == driver
    ensures ClassesIn(subs) == rep.deviceCounts.Keys
  {
    hide SubResourcesFor, ClassesIn;
    forall driver ensures driver in ClassesIn(subs) <==> driver in rep.deviceCounts {
      PartitionClasses(rep, classOf, selectorsFor, subs, driver);
    }
  }

  /** Without overrides, a preferred alignment of a partition config becomes its constraint if and only if some
      node can satisfy it for the devices of the partition. */
  lemma PreferredWithoutOverrides(nodes: Nodes, rep: Partition, rules: seq<TopologyRule>, classOf: string -> string,
                                  selectorsFor: string -> seq<string>, config: PartitionConfig, prefix: string,
                                  a: AlignmentConfig)
    requires SubResourcesFor(rep, classOf, selectorsFor, config.subResources)
    requires AlignmentsFor(rep, rules, config.alignments) && DistinctTokens(config.subResources)
    requires forall driver :: driver in rep.deviceCounts ==> classOf(driver) == driver
    requires a in config.alignments && a.enforcement.Preferred? && |a.requests| >= 2
    ensures AlignmentConstraints(prefix, config.subResources, Answers(nodes), a) ==
      if ClusterSatisfies(nodes, a.attribute, rep.deviceCounts) then [Stated(prefix, a)] else []
  {
    hide SubResourcesFor, AlignmentsFor, DistinctTokens, Closed, ClusterSatisfies, Stated, AlignmentConstraints;
    hide DriverCounts;
    PartitionConfigClosed(rep, rules, classOf, selectorsFor, config);
    CountsWithoutOverrides(rep, classOf, selectorsFor, config.subResources);
    PreferredStatedIff(nodes, prefix, config, a);
  }
}
