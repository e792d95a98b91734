/** What the lookups on devices mean: driver names, attribute values, physical resources, and the two
    satisfiability checks in terms of the devices themselves. */
module DeviceFacts {
  import opened Collections
  import opened Text
  import opened Topology
  import opened CounterGroups
  import opened Refinement
  import opened Satisfiability

  // ---------------------------------------------------------------------
  // Driver names
  // ---------------------------------------------------------------------

  /** The base driver is what stands before the first '/', and the whole name when there is none. */
  lemma {:induction false} BaseIsPrefix(name: string)
    ensures var b := BaseDriver(name);
      && b <= name && '/' !in b
      && (|b| < |name| ==> name[|b|] == '/')
      && (b == name <==> '/' !in name)
  {
    if name != [] && name[0] != '/' {
      BaseIsPrefix(name[1..]);
      assert name == [name[0]] + name[1..];
    }
  }

  // ---------------------------------------------------------------------
  // Order of texts
  // ---------------------------------------------------------------------

  /** Texts are compared at their first difference; a proper prefix comes first. */
  lemma {:induction false} ComparedAtDifference(a: string, b: string)
    ensures StringLeq(a, b) <==> a <= b || exists i :: DiffersBelow(a, b, i)
  {
    if a != [] && b != [] {
      if a[0] < b[0] {
        assert DiffersBelow(a, b, 0);
      } else if a[0] == b[0] {
        ComparedAtDifference(a[1..], b[1..]);
        if i :| DiffersBelow(a[1..], b[1..], i) {
          assert a[..i + 1] == [a[0]] + a[1..][..i] && b[..i + 1] == [b[0]] + b[1..][..i];
          assert DiffersBelow(a, b, i + 1);
        }
        if i :| DiffersBelow(a, b, i) {
          assert a[1..][..i - 1] == a[..i][1..] && b[1..][..i - 1] == b[..i][1..];
          assert DiffersBelow(a[1..], b[1..], i - 1);
        }
      }
    }
  }

  predicate DiffersBelow(a: string, b: string, i: int) {
    0 <= i < |a| && i < |b| && a[..i] == b[..i] && a[i] < b[i]
  }

  // ---------------------------------------------------------------------
  // Values
  // ---------------------------------------------------------------------

  /** Two integers, or two texts, render alike exactly when they are equal. */
  lemma RenderedApart(v: AttributeValue, w: AttributeValue)
    ensures v.intValue.Some? && w.intValue.Some? ==> (v.Render() == w.Render() <==> v.intValue == w.intValue)
    ensures v.intValue.None? && w.intValue.None? && v.stringValue.Some? && w.stringValue.Some? ==>
      (v.Render() == w.Render() <==> v.stringValue == w.stringValue)
  {
    if v.intValue.Some? && w.intValue.Some? && v.Render() == w.Render() {
      DecimalInjective(v.intValue.value, w.intValue.value);
    }
  }

  /** Both devices carry the attribute, as integers that differ or as texts that differ. */
  predicate Disagree(attribute: AttributeName, d: TopologyDevice, e: TopologyDevice) {
    attribute in d.extended && attribute in e.extended &&
    var v, w := d.extended[attribute], e.extended[attribute];
    if v.intValue.Some? && w.intValue.Some? then v.intValue != w.intValue
    else v.intValue.None? && w.intValue.None? && DifferentTexts(v.stringValue, w.stringValue)
  }

  predicate DifferentTexts(a: Option<string>, b: Option<string>) {
    a.Some? && b.Some? && a != b
  }

  /** After a split, no group has two devices that disagree on a rule's attribute. */
  lemma SplitAgrees(groups: Groups, devices: seq<TopologyDevice>, rules: seq<TopologyRule>, final: Groups,
                    rule: TopologyRule, d: TopologyDevice, e: TopologyDevice)
    requires IsPartition(groups, devices) && Separated(groups) && AllPlain(devices, Earlier(rules))
    requires SplitsAll(groups, rules, final) && rule in rules && Disagree(rule.attribute, d, e)
    ensures !Together(final, d, e)
  {
    hide IsPartition, Separated, AllPlain, SplitsAll;
    SplitSound(groups, devices, rules, final);
    RenderedApart(d.extended[rule.attribute], e.extended[rule.attribute]);
  }

  /** A round keeps a group whole when all its devices that carry the attribute have one value of it, carriers or not.
      */
  lemma AgreeingStayTogether(groups: Groups, devices: seq<TopologyDevice>, attribute: AttributeName, split: Groups,
                             k: string, v: AttributeValue, d: TopologyDevice, e: TopologyDevice)
    requires IsPartition(groups, devices) && SplitsTo(groups, attribute, split) && CollisionFree(groups, attribute)
    requires Sits(groups, d, k) && Sits(groups, e, k)
    requires forall x :: x in groups[k] && attribute in x.extended ==> x.extended[attribute] == v
    ensures Together(split, d, e)
  {
    hide IsPartition, SplitsTo, CollisionFree;
    assert IsPiece(groups, attribute, Kept(k));
    EntryOf(groups, attribute, split, Kept(k));
    assert Sits(split, d, k) && Sits(split, e, k);
  }

  /** The value of a field, as the lookups see it; a list form comes first. */
  ghost predicate HasFirst(d: TopologyDevice, attribute: AttributeName, v: string) {
    match attribute
    case NumaNodeName =>
      if d.numaNodes != [] then v == Decimal(d.numaNodes[0])
      else d.numaNode.Some? && v == Decimal(d.numaNode.value)
    case PcieRootName => if d.pcieRoots != [] then d.pcieRoots[0] == v else d.pcieRoot == Some(v)
    case SocketName => d.socket.Some? && v == Decimal(d.socket.value)
    case Named(_) => attribute in d.extended && d.extended[attribute].Render() == v
  }

  lemma FirstValue(d: TopologyDevice, attribute: AttributeName, v: string)
    requires v != ""
    ensures AttributeValueString(d, attribute) == v <==> HasFirst(d, attribute, v)
  {
  }

  ghost predicate HasAny(d: TopologyDevice, attribute: AttributeName, v: string) {
    match attribute
    case NumaNodeName =>
      if d.numaNodes != [] then (exists n :: n in d.numaNodes && v == Decimal(n))
      else d.numaNode.Some? && v == Decimal(d.numaNode.value)
    case PcieRootName => if d.pcieRoots != [] then v in d.pcieRoots else d.pcieRoot == Some(v)
    case SocketName => d.socket.Some? && v == Decimal(d.socket.value)
    case Named(_) => attribute in d.extended && d.extended[attribute].Render() == v
  }

  lemma AnyValue(d: TopologyDevice, attribute: AttributeName, v: string)
    ensures v in AttributeValues(d, attribute) <==> HasAny(d, attribute, v)
  {
    hide Decimal;
    if attribute.NumaNodeName? && d.numaNodes != [] {
      if n :| v == Decimal(n) && n in d.numaNodes {
        var i :| 0 <= i < |d.numaNodes| && d.numaNodes[i] == n;
        assert Decimals(d.numaNodes)[i] == v;
      }
    }
  }

  // ---------------------------------------------------------------------
  // Physical resources
  // ---------------------------------------------------------------------

  /** Two devices are variants of one physical resource exactly when they come from one driver and pool and draw
      on the same counter set first. */
  lemma SameResourceIff(d: TopologyDevice, e: TopologyDevice)
    requires d.consumes != [] && e.consumes != []
    ensures CounterKey(d) == CounterKey(e) <==>
      d.driverName == e.driverName && d.poolName == e.poolName && d.consumes[0].counterSet == e.consumes[0].counterSet
  {
  }

  function AmountLists(consumes: seq<CounterConsumption>): seq<seq<int>> {
    seq(|consumes|, i requires 0 <= i < |consumes| => consumes[i].amounts)
  }

  /** A consumption is the sum of all its amounts, over all counter sets. */
  lemma {:induction false} TotalIsSum(consumes: seq<CounterConsumption>)
    ensures Total(consumes) == Sum(Flatten(AmountLists(consumes)))
  {
    if consumes != [] {
      var init, all := consumes[..|consumes| - 1], AmountLists(consumes);
      TotalIsSum(init);
      assert all[..|all| - 1] == AmountLists(init);
      SumConcat(Flatten(AmountLists(init)), consumes[|consumes| - 1].amounts);
    }
  }

  /** The representative is the first of the largest variants: everything before it is smaller. */
  lemma {:induction false} RepresentativeFirst(variants: seq<TopologyDevice>)
    requires variants != []
    ensures exists i :: 0 <= i < |variants| && FirstLargest(variants, i) && Representative(variants) == variants[i]
  {
    hide Total, FirstLargest;
    var m := |variants| - 1;
    var init, last := variants[..m], variants[m];
    assert variants == init + [last];
    if init == [] {
      OnlyLargest(variants);
    } else {
      RepresentativeFirst(init);
      var i :| 0 <= i < |init| && FirstLargest(init, i) && Representative(init) == init[i];
      LargestSnoc(init, last, i);
      if Total(last.consumes) > Total(init[i].consumes) {
        assert FirstLargest(variants, m);
      } else {
        assert FirstLargest(variants, i);
      }
    }
  }

  lemma OnlyLargest(variants: seq<TopologyDevice>)
    requires |variants| == 1
    ensures FirstLargest(variants, 0)
  {
  }

  lemma LargestSnoc(init: seq<TopologyDevice>, last: TopologyDevice, i: nat)
    requires i < |init| && FirstLargest(init, i)
    ensures if Total(last.consumes) > Total(init[i].consumes) then FirstLargest(init + [last], |init|)
            else FirstLargest(init + [last], i)
  {
    hide Total;
  }

  ghost predicate FirstLargest(variants: seq<TopologyDevice>, i: nat)
    requires i < |variants|
  {
    forall j :: 0 <= j < |variants| ==>
      if j < i then Total(variants[j].consumes) < Total(variants[i].consumes)
      else Total(variants[j].consumes) <= Total(variants[i].consumes)
  }

  // ---------------------------------------------------------------------
  // Satisfiability
  // ---------------------------------------------------------------------

  function OnNode(driver: string, n: int): TopologyDevice -> bool {
    (d: TopologyDevice) => d.driverName == driver && d.numaNode == Some(n)
  }

  function OnRootOf(driver: string, root: string): TopologyDevice -> bool {
    (d: TopologyDevice) => d.driverName == driver && d.pcieRoot == Some(root)
  }

  /** Enough devices of every required driver on NUMA node `n`. */
  ghost predicate EnoughOnNode(all: seq<TopologyDevice>, needed: map<string, int>, n: int) {
    && (exists d :: d in all && d.numaNode == Some(n))
    && forall driver :: driver in needed ==> needed[driver] <= |Filter(all, OnNode(driver, n))|
  }

  ghost predicate EnoughOnRoot(all: seq<TopologyDevice>, needed: map<string, int>, root: string) {
    && (exists d :: d in all && d.pcieRoot == Some(root))
    && forall driver :: driver in needed ==> needed[driver] <= |Filter(all, OnRootOf(driver, root))|
  }

  /** Devices of the index carry their NUMA node and PCIe root in scalar form. */
  ghost predicate ScalarOnly(all: seq<TopologyDevice>) {
    forall d :: d in all ==> d.numaNodes == [] && d.pcieRoots == []
  }

  lemma NodeValue(d: TopologyDevice, n: int)
    requires d.numaNodes == []
    ensures AttributeValueString(d, NumaNodeName) == Decimal(n) <==> d.numaNode == Some(n)
  {
    if d.numaNode.Some? && Decimal(d.numaNode.value) == Decimal(n) { DecimalInjective(d.numaNode.value, n); }
  }

  lemma NumaWitnessIs(all: seq<TopologyDevice>, needed: map<string, int>, n: int)
    requires ScalarOnly(all)
    ensures NodeWitness(all, NumaNodeName, needed, Decimal(n)) <==> EnoughOnNode(all, needed, n)
  {
    hide AttributeValueString, Decimal, Filter;
    forall driver ensures Filter(all, Carries(driver, NumaNodeName, Decimal(n))) == Filter(all, OnNode(driver, n)) {
      forall d | d in all ensures Carries(driver, NumaNodeName, Decimal(n))(d) == OnNode(driver, n)(d) {
        NodeValue(d, n);
      }
      FilterSame(all, Carries(driver, NumaNodeName, Decimal(n)), OnNode(driver, n));
    }
    forall d | d in all ensures AttributeValueString(d, NumaNodeName) == Decimal(n) <==> d.numaNode == Some(n) {
      NodeValue(d, n);
    }
  }

  /** On a node of the index, a NUMA constraint is satisfiable exactly when one NUMA node has enough devices of
      every required driver. */
  lemma NumaSatisfiableIff(all: seq<TopologyDevice>, needed: map<string, int>)
    requires ScalarOnly(all)
    ensures NodeSatisfies(all, NumaNodeName, needed) <==> exists n :: EnoughOnNode(all, needed, n)
  {
    hide NodeWitness, EnoughOnNode, Decimal;
    if v :| NodeWitness(all, NumaNodeName, needed, v) {
      NumaValueOf(all, needed, v);
      var n :| v == Decimal(n);
      NumaWitnessIs(all, needed, n);
    }
    if n :| EnoughOnNode(all, needed, n) { NumaWitnessIs(all, needed, n); }
  }

  lemma NumaValueOf(all: seq<TopologyDevice>, needed: map<string, int>, v: string)
    requires ScalarOnly(all) && NodeWitness(all, NumaNodeName, needed, v)
    ensures exists n :: v == Decimal(n)
  {
    hide Decimal, Filter;
  }

  lemma RootValue(d: TopologyDevice, root: string)
    requires d.pcieRoots == [] && root != ""
    ensures AttributeValueString(d, PcieRootName) == root <==> d.pcieRoot == Some(root)
  {
  }

  /** And a PCIe root constraint exactly when one named root has. */
  lemma RootSatisfiableIff(all: seq<TopologyDevice>, needed: map<string, int>)
    requires ScalarOnly(all)
    ensures NodeSatisfies(all, PcieRootName, needed) <==> exists root :: root != "" && EnoughOnRoot(all, needed, root)
  {
    hide NodeWitness, EnoughOnRoot;
    forall root | root != ""
      ensures NodeWitness(all, PcieRootName, needed, root) <==> EnoughOnRoot(all, needed, root) {
      RootWitnessIs(all, needed, root);
    }
    if v :| NodeWitness(all, PcieRootName, needed, v) { WitnessNamed(all, PcieRootName, needed, v); }
  }

  lemma WitnessNamed(all: seq<TopologyDevice>, attribute: AttributeName, needed: map<string, int>, v: string)
    requires NodeWitness(all, attribute, needed, v)
    ensures v != ""
  {
  }

  lemma RootWitnessIs(all: seq<TopologyDevice>, needed: map<string, int>, root: string)
    requires ScalarOnly(all) && root != ""
    ensures NodeWitness(all, PcieRootName, needed, root) <==> EnoughOnRoot(all, needed, root)
  {
    hide AttributeValueString, Filter;
    forall driver ensures Filter(all, Carries(driver, PcieRootName, root)) == Filter(all, OnRootOf(driver, root)) {
      forall d | d in all ensures Carries(driver, PcieRootName, root)(d) == OnRootOf(driver, root)(d) {
        RootValue(d, root);
      }
      FilterSame(all, Carries(driver, PcieRootName, root), OnRootOf(driver, root));
    }
    forall d | d in all ensures AttributeValueString(d, PcieRootName) == root <==> d.pcieRoot == Some(root) {
      RootValue(d, root);
    }
  }

  /** Some device of the base driver has a value of the attribute. */
  ghost predicate DriverPublishes(devices: seq<TopologyDevice>, attribute: AttributeName, b: string) {
    exists d, v :: d in devices && Base(d) == b && HasAny(d, attribute, v)
  }

  lemma PublishingIff(devices: seq<TopologyDevice>, attribute: AttributeName, b: string)
    ensures b in Publishing(devices, attribute) <==> DriverPublishes(devices, attribute, b)
  {
    hide AttributeValues, HasAny;
    if b in Publishing(devices, attribute) {
      var d :| d in devices && AttributeValues(d, attribute) != [] && Base(d) == b;
      AnyValue(d, attribute, AttributeValues(d, attribute)[0]);
    }
    if DriverPublishes(devices, attribute, b) {
      var d, v :| d in devices && Base(d) == b && HasAny(d, attribute, v);
      AnyValue(d, attribute, v);
      assert AttributeValues(d, attribute) != [];
    }
  }

  /** The value occurs, and often enough among the devices of every required driver that publishes the attribute. */
  ghost predicate EnoughInPartition(devices: seq<TopologyDevice>, attribute: AttributeName, needed: map<string, int>,
                                    v: string) {
    && (exists d :: d in devices && HasAny(d, attribute, v))
    && forall driver :: driver in needed && DriverPublishes(devices, attribute, BaseDriver(driver)) ==>
         needed[driver] <= Occurrences(devices, BaseDriver(driver), attribute, v)
  }

  lemma TwoMembers(s: set<string>)
    ensures |s| >= 2 <==> exists a, b :: a in s && b in s && a != b
  {
    if |s| >= 2 {
      var a :| a in s;
      assert |s - {a}| == |s| - 1;
      var b :| b in s - {a};
      assert b in s && a != b;
    }
    if a, b :| a in s && b in s && a != b {
      assert {a, b} <= s;
      SubsetSize({a, b}, s);
    }
  }

  /** The devices of a partition satisfy a constraint exactly when two drivers publish the attribute and one value
      occurs often enough. */
  lemma PartitionSatisfiableIff(devices: seq<TopologyDevice>, attribute: AttributeName, needed: map<string, int>)
    ensures PartitionSatisfies(devices, attribute, needed) <==>
      && (exists a, b :: a != b && DriverPublishes(devices, attribute, a) && DriverPublishes(devices, attribute, b))
      && exists v :: EnoughInPartition(devices, attribute, needed, v)
  {
    hide AttributeValues, HasAny, Occurrences, Publishing, DriverPublishes;
    forall b ensures b in Publishing(devices, attribute) <==> DriverPublishes(devices, attribute, b) {
      PublishingIff(devices, attribute, b);
    }
    TwoMembers(Publishing(devices, attribute));
    forall d, v ensures v in AttributeValues(d, attribute) <==> HasAny(d, attribute, v) { AnyValue(d, attribute, v); }
    forall v ensures PartitionWitness(devices, attribute, needed, v) <==>
      EnoughInPartition(devices, attribute, needed, v) {
    }
  }
}
