/** Where partitions and grouping instances are, and what they carry, in terms of their devices. */
module Places {
  import opened Collections
  import opened Text
  import opened Topology
  import opened CounterGroups
  import opened PartitionBuilder
  import opened Joining
  import opened Allocation
  import opened GroupingBuilder
  import opened ClassKeys
  import opened GroupingClasses

  // ---------------------------------------------------------------------
  // Sorted places
  // ---------------------------------------------------------------------

  ghost predicate AscendingInts(ns: seq<int>) {
    forall i, j :: 0 <= i < j < |ns| ==> ns[i] < ns[j]
  }

  lemma SortedIntsAscend(s: set<int>)
    ensures AscendingInts(SortedInts(s))
  {
    hide Sorted;
    SortedAscending(s, IntLeq);
    ListDistinct(SortedInts(s), s);
  }

  /** `ns` lists the NUMA nodes of the devices, each once, in order. */
  ghost predicate NumaNodesOf(devices: seq<TopologyDevice>, ns: seq<int>) {
    AscendingInts(ns) && forall n :: n in ns <==> exists d :: d in devices && d.numaNode == Some(n)
  }

  ghost predicate SocketsOf(devices: seq<TopologyDevice>, ns: seq<int>) {
    AscendingInts(ns) && forall n :: n in ns <==> exists d :: d in devices && d.socket == Some(n)
  }

  ghost predicate RootsOf(devices: seq<TopologyDevice>, rs: seq<string>) {
    && Ascending(rs, StringLeq) && Distinct(rs)
    && forall r :: r in rs <==> exists d :: d in devices && d.pcieRoot == Some(r)
  }

  lemma SortedPlaces(devices: seq<TopologyDevice>)
    ensures NumaNodesOf(devices, SortedInts(NumaSet(devices)))
    ensures SocketsOf(devices, SortedInts(SocketSet(devices)))
    ensures RootsOf(devices, SortedStrings(PcieSet(devices)))
  {
    hide SortedInts, SortedStrings;
    SortedIntsAscend(NumaSet(devices));
    SortedIntsAscend(SocketSet(devices));
    SortedStringsAscending(PcieSet(devices));
    ListDistinct(SortedStrings(PcieSet(devices)), PcieSet(devices));
  }

  /** Lists of NUMA nodes are equal exactly when the devices are on the same nodes. */
  lemma SameNodesIff(a: seq<TopologyDevice>, ms: seq<int>, b: seq<TopologyDevice>, ns: seq<int>)
    requires NumaNodesOf(a, ms) && NumaNodesOf(b, ns)
    ensures ms == ns <==>
      forall n :: (exists d :: d in a && d.numaNode == Some(n)) <==> (exists d :: d in b && d.numaNode == Some(n))
  {
    if forall n :: (exists d :: d in a && d.numaNode == Some(n)) <==> (exists d :: d in b && d.numaNode == Some(n)) {
      AscendingSame(ms, ns);
    }
  }

  lemma LastIsLargest(a: seq<int>)
    requires AscendingInts(a) && a != []
    ensures forall n :: n in a ==> n <= a[|a| - 1]
    ensures forall n :: n in a[..|a| - 1] <==> n in a && n != a[|a| - 1]
  {
    var m := |a| - 1;
    assert a == a[..m] + [a[m]];
  }

  lemma {:induction false} AscendingSame(a: seq<int>, b: seq<int>)
    requires AscendingInts(a) && AscendingInts(b) && forall n :: n in a <==> n in b
    ensures a == b
  {
    if a != [] && b != [] {
      var x, y := a[|a| - 1], b[|b| - 1];
      LastIsLargest(a);
      LastIsLargest(b);
      assert x in a && y in b;
      assert x in b && y in a;
      var s, t := a[..|a| - 1], b[..|b| - 1];
      forall n ensures n in s <==> n in t { assert n in a <==> n in b; }
      AscendingSame(s, t);
      assert a == a[..|a| - 1] + [x] && b == b[..|b| - 1] + [y];
    }
    assert a != [] ==> a[0] in a;
    assert b != [] ==> b[0] in b;
  }

  // ---------------------------------------------------------------------
  // First values
  // ---------------------------------------------------------------------

  /** The first device that carries the attribute. */
  ghost predicate FirstCarrier(devices: seq<TopologyDevice>, a: AttributeName, i: nat)
    requires i < |devices|
  {
    a in devices[i].extended && forall j :: 0 <= j < i ==> a !in devices[j].extended
  }

  lemma {:induction false} ExtendedIsFirst(devices: seq<TopologyDevice>, a: AttributeName)
    ensures a in FirstExtended(devices) <==> exists i :: 0 <= i < |devices| && FirstCarrier(devices, a, i)
    ensures forall i :: 0 <= i < |devices| && FirstCarrier(devices, a, i) ==>
      FirstExtended(devices)[a] == devices[i].extended[a]
  {
    if devices != [] {
      var m := |devices| - 1;
      var init := devices[..m];
      ExtendedIsFirst(init, a);
      forall i | 0 <= i < m ensures FirstCarrier(init, a, i) <==> FirstCarrier(devices, a, i) {}
      if a !in FirstExtended(init) { NoCarrier(init, a); }
      if a in devices[m].extended && a !in FirstExtended(init) { assert FirstCarrier(devices, a, m); }
    }
  }

  lemma {:induction false} NoCarrier(devices: seq<TopologyDevice>, a: AttributeName)
    requires forall i :: 0 <= i < |devices| ==> !FirstCarrier(devices, a, i)
    ensures forall i :: 0 <= i < |devices| ==> a !in devices[i].extended
  {
    if devices != [] {
      var m := |devices| - 1;
      var init := devices[..m];
      forall i | 0 <= i < m ensures !FirstCarrier(init, a, i) { assert !FirstCarrier(devices, a, i); }
      NoCarrier(init, a);
      assert !FirstCarrier(devices, a, m);
      forall i | 0 <= i < m ensures a !in devices[i].extended { assert a !in init[i].extended; }
    }
  }

  /** The first device of the driver that has a capacity. */
  ghost predicate FirstWithCapacity(devices: seq<TopologyDevice>, b: string, i: nat)
    requires i < |devices|
  {
    && Base(devices[i]) == b && devices[i].capacity != map[]
    && forall j :: 0 <= j < i ==> Base(devices[j]) != b || devices[j].capacity == map[]
  }

  lemma {:induction false} CapacityIsFirst(devices: seq<TopologyDevice>, b: string)
    ensures b in FirstCapacity(devices) <==> exists d :: d in devices && Base(d) == b && d.capacity != map[]
    ensures forall i :: 0 <= i < |devices| && FirstWithCapacity(devices, b, i) ==>
      b in FirstCapacity(devices) && FirstCapacity(devices)[b] == devices[i].capacity
  {
    if devices != [] {
      var m := |devices| - 1;
      var init, last := devices[..m], devices[m];
      assert devices == init + [last];
      CapacityIsFirst(init, b);
      forall i | 0 <= i < m ensures FirstWithCapacity(init, b, i) <==> FirstWithCapacity(devices, b, i) {}
      if FirstWithCapacity(devices, b, m) {
        assert b !in FirstCapacity(init) by {
          forall d | d in init ensures !(Base(d) == b && d.capacity != map[]) {
            var j :| 0 <= j < m && init[j] == d;
            assert devices[j] == d;
          }
        }
      }
    }
  }

  // ---------------------------------------------------------------------
  // Partitions
  // ---------------------------------------------------------------------

  /** A partition of devices is where its devices are, counts them per driver, and carries their first values. */
  ghost predicate DescribesPartition(devices: seq<TopologyDevice>, p: Partition) {
    && NumaNodesOf(devices, p.numaNodes) && RootsOf(devices, p.pcieRoots) && SocketsOf(devices, p.sockets)
    && p.devices == devices
    && (forall b :: b in p.deviceCounts <==> exists d :: d in Effective(devices) && Base(d) == b)
    && (forall b :: b in p.deviceCounts ==> p.deviceCounts[b] == |Filter(Effective(devices), KeyIs(Base, b))|)
    && (forall a, i :: 0 <= i < |devices| && FirstCarrier(devices, a, i) ==>
          a in p.extended && p.extended[a] == devices[i].extended[a])
  }

  lemma PartitionPlaces(name: string, profile: string, partType: PartitionType, devices: seq<TopologyDevice>)
    ensures DescribesPartition(devices, PartitionFrom(name, profile, partType, devices))
    ensures PartitionFrom(name, profile, partType, devices).partType == partType
  {
    hide SortedInts, SortedStrings, NumaNodesOf, SocketsOf, RootsOf, Effective, Filter, FirstExtended, NumaSet;
    hide SocketSet, PcieSet;
    SortedPlaces(devices);
    forall a ensures a in FirstExtended(devices) <==> exists i :: 0 <= i < |devices| && FirstCarrier(devices, a, i)
      ensures forall i :: 0 <= i < |devices| && FirstCarrier(devices, a, i) ==>
        a in FirstExtended(devices) && FirstExtended(devices)[a] == devices[i].extended[a]
    {
      ExtendedIsFirst(devices, a);
    }
    TallyMembers(Effective(devices));
  }

  lemma TallyMembers(devices: seq<TopologyDevice>)
    ensures forall b :: b in Tally(devices) <==> exists d :: d in devices && Base(d) == b
    ensures forall b :: b in Tally(devices) ==> Tally(devices)[b] == |Filter(devices, KeyIs(Base, b))|
  {
    hide Filter;
    forall b ensures b in Tally(devices) <==> exists d :: d in devices && Base(d) == b {
      if d :| d in devices && Base(d) == b { assert Base(d) in KeySet(devices, Base); }
    }
  }

  /** A NUMA partition also carries, per driver, the capacity of its first device that has any. */
  lemma NumaPartitionCapacity(node: string, profile: string, i: nat, devices: seq<TopologyDevice>, b: string, j: nat)
    requires j < |devices| && FirstWithCapacity(devices, b, j)
    ensures var p := NumaPartitionFrom(node, profile, i, devices);
      b in p.deviceCapacity && p.deviceCapacity[b] == devices[j].capacity
  {
    hide SortedInts, SortedStrings, Effective, Tally, FirstExtended, FirstCapacity;
    CapacityIsFirst(devices, b);
  }

  // ---------------------------------------------------------------------
  // Grouping instances
  // ---------------------------------------------------------------------

  /** An instance of a pass: its places, devices, rail and definition. */
  ghost predicate DescribesInstance(grouping: DeviceGrouping, alignment: Alignment, classOf: string -> string,
                                    devices: seq<TopologyDevice>, rail: int, inst: GroupingInstance) {
    && NumaNodesOf(devices, inst.numaNodes) && RootsOf(devices, inst.pcieRoots) && SocketsOf(devices, inst.sockets)
    && inst.devices == devices && inst.railIndex == rail
    && inst.groupingName == grouping.name && inst.alignment == alignment
    && (forall c :: c in inst.deviceCounts <==> exists d :: d in devices && classOf(Base(d)) == c)
    && (forall c :: c in inst.deviceCounts ==> inst.deviceCounts[c] == |Filter(devices, KeyIs(ClassKey(classOf), c))|)
  }

  lemma InstancePlaces(node: string, grouping: DeviceGrouping, alignment: Alignment, classOf: string -> string,
                       plan: seq<seq<TopologyDevice>>, i: nat)
    requires i < |plan|
    ensures DescribesInstance(grouping, alignment, classOf, plan[i], i,
      InstancesFrom(node, grouping, alignment, classOf, plan)[i])
  {
    hide SortedInts, SortedStrings, NumaNodesOf, SocketsOf, RootsOf, Filter, FirstExtended, NumaSet, SocketSet, PcieSet;
    hide CapacityOf;
    SortedPlaces(plan[i]);
    ClassTallyMembers(plan[i], classOf);
  }

  lemma ClassTallyMembers(devices: seq<TopologyDevice>, classOf: string -> string)
    ensures forall c :: c in ClassTally(devices, classOf) <==> exists d :: d in devices && classOf(Base(d)) == c
    ensures forall c :: c in ClassTally(devices, classOf) ==>
      ClassTally(devices, classOf)[c] == |Filter(devices, KeyIs(ClassKey(classOf), c))|
  {
    hide Filter;
    forall c ensures c in ClassTally(devices, classOf) <==> exists d :: d in devices && classOf(Base(d)) == c {
      if d :| d in devices && classOf(Base(d)) == c {
        assert ClassKey(classOf)(d) in KeySet(devices, ClassKey(classOf));
      }
    }
  }

  /** The capacity of a class is that of its last entry that gives one. */
  ghost predicate LastWithCapacity(wanted: seq<GroupingDevice>, c: string, i: nat)
    requires i < |wanted|
  {
    && wanted[i].deviceClass == c && wanted[i].capacity != map[]
    && forall j :: i < j < |wanted| ==> wanted[j].deviceClass != c || wanted[j].capacity == map[]
  }

  lemma {:induction false} CapacityIsLast(wanted: seq<GroupingDevice>, c: string, i: nat)
    requires i < |wanted| && LastWithCapacity(wanted, c, i)
    ensures c in CapacityOf(wanted) && CapacityOf(wanted)[c] == wanted[i].capacity
  {
    var m := |wanted| - 1;
    if i < m {
      var init := wanted[..m];
      assert forall j :: 0 <= j < m ==> init[j] == wanted[j];
      CapacityIsLast(init, c, i);
    }
  }

  lemma InstanceCapacity(node: string, grouping: DeviceGrouping, alignment: Alignment, classOf: string -> string,
                         plan: seq<seq<TopologyDevice>>, i: nat, c: string, j: nat)
    requires i < |plan| && j < |grouping.devices| && LastWithCapacity(grouping.devices, c, j)
    ensures var inst := InstancesFrom(node, grouping, alignment, classOf, plan)[i];
      c in inst.deviceCapacity && inst.deviceCapacity[c] == grouping.devices[j].capacity
  {
    hide SortedInts, SortedStrings, ClassTally, FirstExtended, CapacityOf;
    CapacityIsLast(grouping.devices, c, j);
  }

  // ---------------------------------------------------------------------
  // Grouping keys
  // ---------------------------------------------------------------------

  lemma KeyForm(truncate: string -> string, inst: GroupingInstance)
    ensures var base := truncate(inst.groupingName) + "-" + AlignmentName(inst.alignment);
      && (JoinWith(inst.pcieRoots, "-") != "" ==>
            GroupingKey(truncate, inst) == base + ("-" + SanitizeForName(JoinWith(inst.pcieRoots, "-"))))
      && (JoinWith(inst.pcieRoots, "-") == "" && inst.numaNodes != [] ==>
            GroupingKey(truncate, inst) == base + ("-numa" + JoinWith(Decimals(inst.numaNodes), "-")))
  {
    hide SanitizeForName;
    if inst.numaNodes != [] { JoinedNotEmpty(inst.numaNodes); }
  }

  lemma JoinedNotEmpty(ns: seq<int>)
    requires ns != []
    ensures JoinWith(Decimals(ns), "-") != ""
  {
    hide Decimal;
    var d := Decimals(ns);
    if |d| == 1 {
      assert JoinWith(d, "-") == d[0];
    } else {
      JoinStep(d, '-');
    }
  }

  lemma Cancel(head: string, x: string, y: string)
    ensures head + x == head + y <==> x == y
  {
    if head + x == head + y { assert (head + x)[|head|..] == x && (head + y)[|head|..] == y; }
  }

  /** Instances of one grouping and alignment whose devices have no PCIe root share a key if and only if their devices
      are on the same NUMA nodes. */
  lemma RootlessKeysIff(truncate: string -> string, a: GroupingInstance, b: GroupingInstance,
                        x: seq<TopologyDevice>, y: seq<TopologyDevice>)
    requires a.groupingName == b.groupingName && a.alignment == b.alignment && a.pcieRoots == [] && b.pcieRoots == []
    requires NumaNodesOf(x, a.numaNodes) && NumaNodesOf(y, b.numaNodes)
    requires a.numaNodes != [] && b.numaNodes != [] && NonNegative(a.numaNodes) && NonNegative(b.numaNodes)
    ensures GroupingKey(truncate, a) == GroupingKey(truncate, b) <==>
      forall n :: (exists d :: d in x && d.numaNode == Some(n)) <==> (exists d :: d in y && d.numaNode == Some(n))
  {
    hide GroupingKey, NumaNodesOf, Decimal;
    KeyForm(truncate, a);
    KeyForm(truncate, b);
    assert JoinWith([], "-") == "";
    var s, t := JoinWith(Decimals(a.numaNodes), "-"), JoinWith(Decimals(b.numaNodes), "-");
    Cancel(truncate(a.groupingName) + "-" + AlignmentName(a.alignment), "-numa" + s, "-numa" + t);
    Cancel("-numa", s, t);
    JoinedNodesIff(a.numaNodes, b.numaNodes);
    SameNodesIff(x, a.numaNodes, y, b.numaNodes);
  }

  /** Instances of one grouping and alignment whose devices have PCIe roots share a key if and only if the joined roots
      are equal once they are sanitized. */
  lemma RootedKeysIff(truncate: string -> string, a: GroupingInstance, b: GroupingInstance)
    requires a.groupingName == b.groupingName && a.alignment == b.alignment
    requires JoinWith(a.pcieRoots, "-") != "" && JoinWith(b.pcieRoots, "-") != ""
    ensures GroupingKey(truncate, a) == GroupingKey(truncate, b) <==>
      SanitizeForName(JoinWith(a.pcieRoots, "-")) == SanitizeForName(JoinWith(b.pcieRoots, "-"))
  {
    hide GroupingKey, JoinWith, SanitizeForName;
    KeyForm(truncate, a);
    KeyForm(truncate, b);
    var s, t := SanitizeForName(JoinWith(a.pcieRoots, "-")), SanitizeForName(JoinWith(b.pcieRoots, "-"));
    Cancel(truncate(a.groupingName) + "-" + AlignmentName(a.alignment), "-" + s, "-" + t);
    Cancel("-", s, t);
  }
}
