/** The exact share that a PCIe root partition hands out of a device on its NUMA node. */
module RootShares {
  import opened Collections
  import opened Text
  import opened Topology
  import opened CounterGroups
  import opened Refinement
  import opened PartitionBuilder
  import opened PartitionLaws

  // ---------------------------------------------------------------------
  // In terms of devices
  // ---------------------------------------------------------------------

  /** The first device on the root that has a NUMA node is on `n`. */
  ghost predicate IsParent(devices: seq<TopologyDevice>, root: string, n: int) {
    exists i :: 0 <= i < |devices| && FirstOnRoot(devices, root, i) && devices[i].numaNode == Some(n)
  }

  ghost predicate FirstOnRoot(devices: seq<TopologyDevice>, root: string, i: nat)
    requires i < |devices|
  {
    && devices[i].pcieRoot == Some(root) && devices[i].numaNode.Some?
    && forall j :: 0 <= j < i ==> devices[j].pcieRoot != Some(root) || devices[j].numaNode.None?
  }

  /** The distinct roots of the devices on a NUMA node. */
  function RootsAt(devices: seq<TopologyDevice>, n: int): set<string> {
    set d | d in devices && d.numaNode == Some(n) && d.pcieRoot.Some? :: d.pcieRoot.value
  }

  /** Some capacity leaves at least one unit when it is divided. */
  ghost predicate Shareable(d: TopologyDevice, roots: int)
    requires roots > 0
  {
    exists c :: c in d.capacity && d.capacity[c].Quantity? && d.capacity[c].units / roots >= 1
  }

  lemma RootsAtIs(devices: seq<TopologyDevice>, n: int)
    ensures RootsOn(devices, Decimal(n)) == RootsAt(devices, n)
  {
    hide Decimal;
    forall d: TopologyDevice | d.numaNode.Some? ensures NumaKey(d) == Decimal(n) <==> d.numaNode == Some(n) {
      if NumaKey(d) == Decimal(n) { DecimalInjective(d.numaNode.value, n); }
    }
  }

  lemma {:induction false} ParentOfList(own: seq<TopologyDevice>, i: nat)
    requires i < |own| && own[i].numaNode.Some? && forall j :: 0 <= j < i ==> own[j].numaNode.None?
    ensures ParentNuma(own) == NumaKey(own[i])
  {
    if i > 0 { ParentOfList(own[1..], i - 1); }
  }

  lemma ParentIsFirst(devices: seq<TopologyDevice>, root: string, n: int)
    requires root != "" && IsParent(devices, root, n)
    ensures ParentNuma(OnRoot(devices, root)) == Decimal(n)
  {
    hide Filter, ParentNuma;
    var i :| 0 <= i < |devices| && FirstOnRoot(devices, root, i) && devices[i].numaNode == Some(n);
    var p := KeyIs(PcieKey, root);
    var before, after := Filter(devices[..i], p), Filter(devices[i + 1..], p);
    var x := devices[i];
    assert x.pcieRoot == Some(root);
    assert PcieKey(x) == root;
    assert p(x);
    FilterSnoc(devices[..i], devices[i], p);
    FilterConcat(devices[..i] + [devices[i]], devices[i + 1..], p);
    assert devices == devices[..i] + [devices[i]] + devices[i + 1..];
    FilterMembers(devices[..i], p);
    var own := OnRoot(devices, root);
    assert own == before + [devices[i]] + after;
    forall j | 0 <= j < |before| ensures own[j].numaNode.None? {
      var y := before[j];
      assert y in before && p(y) && own[j] == y;
      var k :| 0 <= k < i && devices[k] == y;
      assert PcieKey(y) == root && y.pcieRoot == Some(root);
    }
    ParentOfList(own, |before|);
  }

  // ---------------------------------------------------------------------
  // Enrichment
  // ---------------------------------------------------------------------

  /** The share: every capacity that leaves at least one unit, divided by the roots. */
  ghost predicate IsShare(d: TopologyDevice, roots: int, share: Capacity)
    requires roots > 0
  {
    && (forall c :: c in share <==> c in d.capacity && d.capacity[c].Quantity? && d.capacity[c].units / roots >= 1)
    && (forall c :: c in share ==> share[c] == Quantity(d.capacity[c].units / roots))
  }

  lemma ShareIs(d: TopologyDevice, roots: int)
    requires roots > 0
    ensures IsShare(d, roots, ShareOf(d, roots))
    ensures ShareOf(d, roots) != map[] <==> Shareable(d, roots)
  {
    if c :| c in d.capacity && d.capacity[c].Quantity? && d.capacity[c].units / roots >= 1 {
      assert c in ShareOf(d, roots);
    }
    if ShareOf(d, roots) != map[] {
      var c :| c in ShareOf(d, roots);
    }
  }

  lemma {:induction false} EnrichConcat(p: Partition, a: seq<TopologyDevice>, b: seq<TopologyDevice>, roots: int)
    ensures Enrich(p, a + b, roots) == Enrich(Enrich(p, a, roots), b, roots)
  {
    if b == [] {
      assert a + b == a;
    } else {
      EnrichConcat(p, a, b[..|b| - 1], roots);
      assert (a + b)[..|a + b| - 1] == a + b[..|b| - 1];
    }
  }

  /** A driver that is present is left alone. */
  lemma {:induction false} EnrichKeepsDriver(p: Partition, devices: seq<TopologyDevice>, roots: int, b: string)
    requires CountIn(p.deviceCounts, b) != 0 && b in p.deviceCapacity
    ensures var r := Enrich(p, devices, roots);
      && CountIn(r.deviceCounts, b) == CountIn(p.deviceCounts, b)
      && b in r.deviceCapacity && r.deviceCapacity[b] == p.deviceCapacity[b]
      && forall d :: d in p.devices ==> d in r.devices
  {
    hide ShareOf;
    if devices != [] { EnrichKeepsDriver(p, devices[..|devices| - 1], roots, b); }
  }

  /** A driver stays absent while none of its devices has a share. */
  lemma {:induction false} EnrichSkipsDriver(p: Partition, devices: seq<TopologyDevice>, roots: int, b: string)
    requires CountIn(p.deviceCounts, b) == 0
    requires forall d :: d in devices && Base(d) == b ==> ShareOf(d, roots) == map[]
    ensures CountIn(Enrich(p, devices, roots).deviceCounts, b) == 0
  {
    hide ShareOf;
    if devices != [] {
      var init, d := devices[..|devices| - 1], devices[|devices| - 1];
      assert devices == init + [d];
      EnrichSkipsDriver(p, init, roots, b);
    }
  }

  /** The first device of an absent driver with a share is added with exactly that share. */
  lemma EnrichExact(p: Partition, before: seq<TopologyDevice>, d: TopologyDevice, after: seq<TopologyDevice>,
                    roots: int)
    requires roots > 0 && CountIn(p.deviceCounts, Base(d)) == 0 && Shareable(d, roots)
    requires forall x :: x in before && Base(x) == Base(d) ==> !Shareable(x, roots)
    ensures var r := Enrich(p, before + [d] + after, roots);
      && d in r.devices && CountIn(r.deviceCounts, Base(d)) == 1
      && Base(d) in r.deviceCapacity && IsShare(d, roots, r.deviceCapacity[Base(d)])
  {
    hide ShareOf, Shareable, IsShare, Enrich;
    ShareIs(d, roots);
    forall x | x in before && Base(x) == Base(d) ensures ShareOf(x, roots) == map[] { ShareIs(x, roots); }
    EnrichSkipsDriver(p, before, roots, Base(d));
    EnrichConcat(p, before + [d], after, roots);
    EnrichConcat(p, before, [d], roots);
    var q := Enrich(p, before, roots);
    assert Enrich(q, [d], roots) == EnrichOne(q, d, roots) by { EnrichSingle(q, d, roots); }
    var r := EnrichOne(q, d, roots);
    assert d.capacity != map[] by { HasCapacity(d, roots); }
    assert r.devices == q.devices + [d];
    EnrichKeepsDriver(r, after, roots, Base(d));
  }

  lemma EnrichSingle(q: Partition, d: TopologyDevice, roots: int)
    ensures Enrich(q, [d], roots) == EnrichOne(q, d, roots)
  {
    assert [d][..0] == [];
    assert Enrich(q, [], roots) == q;
  }

  lemma HasCapacity(d: TopologyDevice, roots: int)
    requires roots > 0 && Shareable(d, roots)
    ensures d.capacity != map[]
  {
  }

  // ---------------------------------------------------------------------
  // The share of a root
  // ---------------------------------------------------------------------

  /** The device is the first of its driver on its NUMA node that has anything to share. */
  ghost predicate FirstSharer(devices: seq<TopologyDevice>, i: nat, n: int, roots: int)
    requires i < |devices| && roots > 0
  {
    && devices[i].numaNode == Some(n) && Shareable(devices[i], roots)
    && forall j :: 0 <= j < i && devices[j].numaNode == Some(n) && Base(devices[j]) == Base(devices[i]) ==>
         !Shareable(devices[j], roots)
  }

  /** The root hangs off NUMA node `n` and has no device of the driver itself. */
  ghost predicate ChildWithout(devices: seq<TopologyDevice>, root: string, n: int, b: string) {
    && root != "" && IsParent(devices, root, n)
    && forall x :: x in devices && x.pcieRoot == Some(root) ==> Base(x) != b
  }

  lemma OwnCount(name: string, profile: string, own: seq<TopologyDevice>, b: string)
    requires forall x :: x in own ==> Base(x) != b
    ensures CountIn(PartitionFrom(name, profile, PcieRootPartition, own).deviceCounts, b) == 0
  {
    hide Effective, SortedStrings, SortedInts, FirstExtended, Filter;
    EffectiveMembers(own);
    TallyCount(Effective(own), b);
    FilterNone(Effective(own), KeyIs(Base, b));
  }

  lemma ParentHasRoots(devices: seq<TopologyDevice>, root: string, n: int)
    requires IsParent(devices, root, n)
    ensures root in RootsAt(devices, n)
  {
    var i :| 0 <= i < |devices| && FirstOnRoot(devices, root, i) && devices[i].numaNode == Some(n);
    assert devices[i] in devices;
  }

  lemma OnNumaSplit(devices: seq<TopologyDevice>, i: nat, n: int)
    requires i < |devices| && devices[i].numaNode == Some(n)
    ensures OnNuma(devices, Decimal(n)) ==
      OnNuma(devices[..i], Decimal(n)) + [devices[i]] + OnNuma(devices[i + 1..], Decimal(n))
  {
    hide Filter;
    var p := KeyIs(NumaKey, Decimal(n));
    FilterSnoc(devices[..i], devices[i], p);
    FilterConcat(devices[..i] + [devices[i]], devices[i + 1..], p);
    assert devices == devices[..i] + [devices[i]] + devices[i + 1..];
  }

  lemma EarlierSharers(devices: seq<TopologyDevice>, i: nat, n: int, roots: int)
    requires i < |devices| && roots > 0 && FirstSharer(devices, i, n, roots)
    ensures forall x :: x in OnNuma(devices[..i], Decimal(n)) && Base(x) == Base(devices[i]) ==> !Shareable(x, roots)
  {
    hide Filter, Shareable, Decimal;
    FilterMembers(devices[..i], KeyIs(NumaKey, Decimal(n)));
    forall x | x in OnNuma(devices[..i], Decimal(n)) && Base(x) == Base(devices[i]) ensures !Shareable(x, roots) {
      var j :| 0 <= j < i && devices[j] == x;
      assert x.numaNode == Some(n) by { NumaKeyIs(x, n); }
    }
  }

  lemma NumaKeyIs(x: TopologyDevice, n: int)
    requires NumaKey(x) == Decimal(n)
    ensures x.numaNode == Some(n)
  {
    if x.numaNode.Some? { DecimalInjective(x.numaNode.value, n); }
  }

  /** A root partition holds the first device of a driver that its root lacks, counts it once, and hands out exactly
      the capacities divided by the number of roots on the NUMA node. */
  lemma ExactShare(node: string, profile: string, index: nat, root: string, devices: seq<TopologyDevice>, i: nat,
                   n: int)
    requires i < |devices| && ChildWithout(devices, root, n, Base(devices[i]))
    requires |RootsAt(devices, n)| > 0 && FirstSharer(devices, i, n, |RootsAt(devices, n)|)
    ensures var p, d := PciePartitionFrom(node, profile, index, root, devices), devices[i];
      && d in p.devices && CountIn(p.deviceCounts, Base(d)) == 1
      && Base(d) in p.deviceCapacity && IsShare(d, |RootsAt(devices, n)|, p.deviceCapacity[Base(d)])
  {
    hide PartitionFrom, Enrich, ParentNuma, RootsOn, RootsAt, OnNuma, Shareable, IsShare, Decimal;
    var own, d, roots := OnRoot(devices, root), devices[i], |RootsAt(devices, n)|;
    ParentIsFirst(devices, root, n);
    RootsAtIs(devices, n);
    FilterMembers(devices, KeyIs(PcieKey, root));
    OwnCount(node + "-pcieRoot-" + Decimal(index), profile, own, Base(d));
    OnNumaSplit(devices, i, n);
    EarlierSharers(devices, i, n, roots);
    EnrichExact(PartitionFrom(node + "-pcieRoot-" + Decimal(index), profile, PcieRootPartition, own),
      OnNuma(devices[..i], Decimal(n)), d, OnNuma(devices[i + 1..], Decimal(n)), roots);
    assert RootsOn(devices, Decimal(n)) != {};
  }

  // ---------------------------------------------------------------------
  // Over all roots
  // ---------------------------------------------------------------------

  ghost function Children(devices: seq<TopologyDevice>, roots: seq<string>, n: int, b: string): set<string> {
    set root | root in roots && ChildWithout(devices, root, n, b)
  }

  lemma ShareAmount(node: string, profile: string, index: nat, root: string, devices: seq<TopologyDevice>, i: nat,
                    n: int,
                    c: string)
    requires i < |devices| && |RootsAt(devices, n)| > 0 && FirstSharer(devices, i, n, |RootsAt(devices, n)|)
    requires c in devices[i].capacity && devices[i].capacity[c].Quantity?
    requires ChildWithout(devices, root, n, Base(devices[i]))
    ensures var share := ShareIn(PciePartitionFrom(node, profile, index, root, devices), devices[i], c);
      share >= devices[i].capacity[c].units / |RootsAt(devices, n)|
  {
    hide PciePartitionFrom, RootsAt, FirstSharer, ChildWithout;
    ExactShare(node, profile, index, root, devices, i, n);
  }

  lemma ShareNotNegative(node: string, profile: string, index: nat, root: string, devices: seq<TopologyDevice>,
                         d: TopologyDevice, c: string)
    requires root != "" && PcieKey(d) == ""
    ensures ShareIn(PciePartitionFrom(node, profile, index, root, devices), d, c) >= 0
  {
    hide PartitionFrom, Enrich, ParentNuma, RootsOn, ShareOf;
    var own, name := OnRoot(devices, root), node + "-pcieRoot-" + Decimal(index);
    var p, parent := PartitionFrom(name, profile, PcieRootPartition, own), ParentNuma(own);
    PartitionFromFields(name, profile, own);
    FilterMembers(devices, KeyIs(PcieKey, root));
    EnrichAdds(p, OnNuma(devices, parent), |RootsOn(devices, parent)|);
    SharesPositive(d, |RootsOn(devices, parent)|);
  }

  lemma SharesPositive(d: TopologyDevice, roots: int)
    ensures forall c :: c in ShareOf(d, roots) ==> ShareOf(d, roots)[c].Quantity? && ShareOf(d, roots)[c].units >= 0
  {
  }

  /** The shares of a root-less device add up to at least one quotient per child root. */
  lemma {:induction false} SharesReach(node: string, profile: string, devices: seq<TopologyDevice>, roots: seq<string>,
                                       i: nat, n: int, c: string)
    requires i < |devices| && |RootsAt(devices, n)| > 0 && FirstSharer(devices, i, n, |RootsAt(devices, n)|)
    requires c in devices[i].capacity && devices[i].capacity[c].Quantity? && PcieKey(devices[i]) == ""
    requires devices[i].capacity[c].units >= 0 && "" !in roots && Distinct(roots)
    ensures Sum(SharesOf(PciePartitionsOf(node, profile, devices, roots), devices[i], c)) >=
      |Children(devices, roots, n, Base(devices[i]))| * (devices[i].capacity[c].units / |RootsAt(devices, n)|)
  {
    hide PciePartitionFrom, PciePartitionsOf, SharesOf, Children, RootsAt, FirstSharer, ChildWithout, ShareIn, PcieKey;
    hide Sum;
    var b, quota := Base(devices[i]), devices[i].capacity[c].units / |RootsAt(devices, n)|;
    if roots == [] {
      NoShares(node, profile, devices, devices[i], c, n, b);
    } else {
      var m := |roots| - 1;
      var init, last, d := roots[..m], roots[m], devices[i];
      assert roots == init + [last] && last in roots;
      SharesReach(node, profile, devices, init, i, n, c);
      SharesSnoc(node, profile, devices, roots, d, c);
      ShareNotNegative(node, profile, m, last, devices, d, c);
      ChildrenSnoc(devices, init, last, n, b);
      if ChildWithout(devices, last, n, b) {
        ShareAmount(node, profile, m, last, devices, i, n, c);
        assert (|Children(devices, init, n, b)| + 1) * quota == |Children(devices, init, n, b)| * quota + quota;
      }
    }
  }

  lemma SharesSnoc(node: string, profile: string, devices: seq<TopologyDevice>, roots: seq<string>, d: TopologyDevice,
                   c: string)
    requires roots != []
    ensures var m := |roots| - 1;
      Sum(SharesOf(PciePartitionsOf(node, profile, devices, roots), d, c)) ==
        Sum(SharesOf(PciePartitionsOf(node, profile, devices, roots[..m]), d, c)) +
        ShareIn(PciePartitionFrom(node, profile, m, roots[m], devices), d, c)
  {
    hide PciePartitionFrom, ShareIn;
    var m, all := |roots| - 1, SharesOf(PciePartitionsOf(node, profile, devices, roots), d, c);
    assert all[..m] == SharesOf(PciePartitionsOf(node, profile, devices, roots[..m]), d, c);
  }

  lemma ChildrenSnoc(devices: seq<TopologyDevice>, init: seq<string>, last: string, n: int, b: string)
    requires last !in init
    ensures |Children(devices, init + [last], n, b)| ==
      |Children(devices, init, n, b)| + if ChildWithout(devices, last, n, b) then 1 else 0
  {
    hide ChildWithout;
    assert Children(devices, init + [last], n, b) == Children(devices, init, n, b) +
      if ChildWithout(devices, last, n, b) then {last} else {};
  }

  lemma NoShares(node: string, profile: string, devices: seq<TopologyDevice>, d: TopologyDevice, c: string, n: int,
                 b: string)
    ensures Sum(SharesOf(PciePartitionsOf(node, profile, devices, []), d, c)) == 0 && Children(devices, [], n, b) == {}
  {
  }
}
