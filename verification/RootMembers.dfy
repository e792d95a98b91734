/** Exactly which devices a PCIe root partition holds. */
module RootMembers {
  import opened Collections
  import opened Text
  import opened Topology
  import opened CounterGroups
  import opened PartitionBuilder
  import opened PartitionLaws
  import opened RootShares

  // ---------------------------------------------------------------------
  // What enriching adds
  // ---------------------------------------------------------------------

  /** The first device of its driver in the list that has anything to share. */
  ghost predicate FirstOf(devices: seq<TopologyDevice>, i: nat, roots: int)
    requires i < |devices| && roots > 0
  {
    && Shareable(devices[i], roots)
    && forall j :: 0 <= j < i && Base(devices[j]) == Base(devices[i]) ==> !Shareable(devices[j], roots)
  }

  ghost predicate HasSharer(devices: seq<TopologyDevice>, b: string, roots: int)
    requires roots > 0
  {
    exists d :: d in devices && Base(d) == b && Shareable(d, roots)
  }

  lemma OneCount(p: Partition, d: TopologyDevice, roots: int, b: string)
    requires roots > 0
    ensures CountIn(EnrichOne(p, d, roots).deviceCounts, b) == 0 <==>
      CountIn(p.deviceCounts, b) == 0 && !(Base(d) == b && Shareable(d, roots))
  {
    hide Shareable, ShareOf;
    ShareIs(d, roots);
    if Shareable(d, roots) { HasCapacity(d, roots); }
  }

  /** A driver is absent exactly when it was and no device of it has anything to share. */
  lemma {:induction false} AbsentIff(p: Partition, devices: seq<TopologyDevice>, roots: int, b: string)
    requires roots > 0
    ensures CountIn(Enrich(p, devices, roots).deviceCounts, b) == 0 <==>
      CountIn(p.deviceCounts, b) == 0 && !HasSharer(devices, b, roots)
  {
    hide Shareable, EnrichOne;
    if devices != [] {
      var init, d := devices[..|devices| - 1], devices[|devices| - 1];
      assert devices == init + [d];
      AbsentIff(p, init, roots, b);
      OneCount(Enrich(p, init, roots), d, roots, b);
      assert HasSharer(devices, b, roots) <==> HasSharer(init, b, roots) || (Base(d) == b && Shareable(d, roots));
    }
  }

  lemma OneAdds(p: Partition, d: TopologyDevice, roots: int, e: TopologyDevice)
    requires roots > 0
    ensures e in EnrichOne(p, d, roots).devices <==>
      e in p.devices || (e == d && CountIn(p.deviceCounts, Base(d)) == 0 && Shareable(d, roots))
  {
    hide Shareable, ShareOf;
    ShareIs(d, roots);
    if Shareable(d, roots) { HasCapacity(d, roots); }
  }

  /** A device is added exactly when its driver was absent and it is the first that has anything to share. */
  lemma {:induction false} AddedIff(p: Partition, devices: seq<TopologyDevice>, roots: int, e: TopologyDevice)
    requires roots > 0
    ensures e in Enrich(p, devices, roots).devices <==>
      e in p.devices || (CountIn(p.deviceCounts, Base(e)) == 0 && IsFirst(devices, e, roots))
  {
    hide Shareable, EnrichOne;
    if devices != [] {
      var init, d := devices[..|devices| - 1], devices[|devices| - 1];
      assert devices == init + [d];
      AddedIff(p, init, roots, e);
      OneAdds(Enrich(p, init, roots), d, roots, e);
      AbsentIff(p, init, roots, Base(d));
      FirstSnoc(init, d, roots, e);
    }
  }

  ghost predicate IsFirst(devices: seq<TopologyDevice>, e: TopologyDevice, roots: int)
    requires roots > 0
  {
    exists i :: 0 <= i < |devices| && devices[i] == e && FirstOf(devices, i, roots)
  }

  lemma FirstSnoc(init: seq<TopologyDevice>, d: TopologyDevice, roots: int, e: TopologyDevice)
    requires roots > 0
    ensures IsFirst(init + [d], e, roots) <==>
      IsFirst(init, e, roots) || (e == d && Shareable(d, roots) && !HasSharer(init, Base(d), roots))
  {
    hide Shareable;
    var all := init + [d];
    assert forall j :: 0 <= j < |init| ==> all[j] == init[j];
    forall i | 0 <= i < |init| ensures FirstOf(all, i, roots) <==> FirstOf(init, i, roots) {}
    if x :| x in init && Base(x) == Base(d) && Shareable(x, roots) {
      var j :| 0 <= j < |init| && init[j] == x;
      assert all[j] == x;
    }
    assert FirstOf(all, |init|, roots) <==> Shareable(d, roots) && !HasSharer(init, Base(d), roots);
    if IsFirst(init, e, roots) {
      var i :| 0 <= i < |init| && init[i] == e && FirstOf(init, i, roots);
      assert all[i] == e && FirstOf(all, i, roots);
    }
    if IsFirst(all, e, roots) {
      var i :| 0 <= i < |all| && all[i] == e && FirstOf(all, i, roots);
      if i < |init| { assert init[i] == e && FirstOf(init, i, roots); }
    }
    if e == d && Shareable(d, roots) && !HasSharer(init, Base(d), roots) { assert all[|init|] == e; }
  }

  // ---------------------------------------------------------------------
  // On the NUMA node
  // ---------------------------------------------------------------------

  /** The device is the first of its driver on NUMA node `n` that has anything to share. */
  ghost predicate IsFirstOn(devices: seq<TopologyDevice>, e: TopologyDevice, n: int, roots: int)
    requires roots > 0
  {
    exists i :: 0 <= i < |devices| && devices[i] == e && FirstSharer(devices, i, n, roots)
  }

  lemma {:induction false} FirstOnNuma(devices: seq<TopologyDevice>, e: TopologyDevice, n: int, roots: int)
    requires roots > 0
    ensures IsFirst(OnNuma(devices, Decimal(n)), e, roots) <==> IsFirstOn(devices, e, n, roots)
  {
    hide Shareable, Filter, Decimal;
    var p := KeyIs(NumaKey, Decimal(n));
    if devices == [] {
      FilterNone<TopologyDevice>([], p);
    } else {
      var init, d := devices[..|devices| - 1], devices[|devices| - 1];
      assert devices == init + [d];
      FirstOnNuma(init, e, n, roots);
      FilterSnoc(init, d, p);
      OnNodeIff(d, n);
      FirstOnSnoc(init, d, e, n, roots);
      if p(d) {
        FirstSnoc(OnNuma(init, Decimal(n)), d, roots, e);
        SharerOnNuma(init, Base(d), n, roots);
      } else {
        assert Filter(devices, p) == Filter(init, p) + [] == Filter(init, p);
      }
    }
  }

  lemma OnNodeIff(d: TopologyDevice, n: int)
    ensures NumaKey(d) == Decimal(n) <==> d.numaNode == Some(n)
  {
    if NumaKey(d) == Decimal(n) { NumaKeyIs(d, n); }
  }

  ghost predicate SharerOn(devices: seq<TopologyDevice>, b: string, n: int, roots: int)
    requires roots > 0
  {
    exists d :: d in devices && d.numaNode == Some(n) && Base(d) == b && Shareable(d, roots)
  }

  lemma SharerOnNuma(devices: seq<TopologyDevice>, b: string, n: int, roots: int)
    requires roots > 0
    ensures HasSharer(OnNuma(devices, Decimal(n)), b, roots) <==> SharerOn(devices, b, n, roots)
  {
    hide Shareable, Filter, Decimal, NumaKey;
    FilterMembers(devices, KeyIs(NumaKey, Decimal(n)));
    forall d: TopologyDevice ensures NumaKey(d) == Decimal(n) <==> d.numaNode == Some(n) { OnNodeIff(d, n); }
    assert forall d :: d in OnNuma(devices, Decimal(n)) <==> d in devices && d.numaNode == Some(n);
  }

  lemma FirstOnSnoc(init: seq<TopologyDevice>, d: TopologyDevice, e: TopologyDevice, n: int, roots: int)
    requires roots > 0
    ensures IsFirstOn(init + [d], e, n, roots) <==>
      || IsFirstOn(init, e, n, roots)
      || (e == d && d.numaNode == Some(n) && Shareable(d, roots) && !SharerOn(init, Base(d), n, roots))
  {
    hide Shareable;
    var all := init + [d];
    assert forall j :: 0 <= j < |init| ==> all[j] == init[j];
    forall i | 0 <= i < |init| ensures FirstSharer(all, i, n, roots) <==> FirstSharer(init, i, n, roots) {}
    if x :| x in init && x.numaNode == Some(n) && Base(x) == Base(d) && Shareable(x, roots) {
      var j :| 0 <= j < |init| && init[j] == x;
      assert all[j] == x;
    }
    assert FirstSharer(all, |init|, n, roots) <==>
      d.numaNode == Some(n) && Shareable(d, roots) && !SharerOn(init, Base(d), n, roots);
    if IsFirstOn(init, e, n, roots) {
      var i :| 0 <= i < |init| && init[i] == e && FirstSharer(init, i, n, roots);
      assert all[i] == e && FirstSharer(all, i, n, roots);
    }
    if IsFirstOn(all, e, n, roots) {
      var i :| 0 <= i < |all| && all[i] == e && FirstSharer(all, i, n, roots);
      if i < |init| { assert init[i] == e && FirstSharer(init, i, n, roots); }
    }
    if e == d && d.numaNode == Some(n) && Shareable(d, roots) && !SharerOn(init, Base(d), n, roots) {
      assert all[|init|] == e;
    }
  }

  // ---------------------------------------------------------------------
  // The partition
  // ---------------------------------------------------------------------

  /** A driver has an effective device exactly when it has a device. */
  lemma EffectiveHasDriver(devices: seq<TopologyDevice>, b: string)
    ensures CountIn(Tally(Effective(devices)), b) == 0 <==> forall d :: d in devices ==> Base(d) != b
  {
    hide Effective, Tally, Filter;
    var e := Effective(devices);
    TallyCount(e, b);
    FilterMembers(e, KeyIs(Base, b));
    EffectiveMembers(devices);
    FilterMembers(e, Standalone);
    FilterMembers(devices, Standalone);
    if d :| d in devices && Base(d) == b {
      var x := SameDriver(devices, d);
      assert x in Filter(e, KeyIs(Base, b));
    }
    if Filter(e, KeyIs(Base, b)) != [] {
      var x := Filter(e, KeyIs(Base, b))[0];
      assert x in Filter(e, KeyIs(Base, b));
      assert x in devices && Base(x) == b;
    }
  }

  lemma SameDriver(devices: seq<TopologyDevice>, d: TopologyDevice) returns (x: TopologyDevice)
    requires d in devices
    ensures x in Effective(devices) && Base(x) == Base(d)
  {
    hide Effective, Variants, Filter;
    if Standalone(d) {
      EffectiveMembers(devices);
      FilterMembers(Effective(devices), Standalone);
      FilterMembers(devices, Standalone);
      x := d;
    } else {
      var k := CounterKey(d).value;
      assert k in CounterKeys(devices);
      EffectiveVariants(devices, k);
      VariantsMembers(Effective(devices), k);
      x := RepresentativeOf(devices, k);
      assert x in Variants(Effective(devices), k);
      assert x.driverName == d.driverName;
    }
  }

  /** The device of a partition that has no device of its driver on the root itself: the first of its driver with
      anything to share on the root's NUMA node. */
  ghost predicate LentTo(devices: seq<TopologyDevice>, root: string, e: TopologyDevice) {
    exists n :: IsParent(devices, root, n) && |RootsAt(devices, n)| > 0 &&
      IsFirstOn(devices, e, n, |RootsAt(devices, n)|) && ChildWithout(devices, root, n, Base(e))
  }

  lemma OnRootIff(devices: seq<TopologyDevice>, root: string)
    requires root != ""
    ensures forall d :: d in OnRoot(devices, root) <==> d in devices && d.pcieRoot == Some(root)
  {
    hide Filter;
    FilterMembers(devices, KeyIs(PcieKey, root));
    forall d ensures KeyIs(PcieKey, root)(d) <==> d.pcieRoot == Some(root) {}
  }

  lemma {:induction false} ParentExists(own: seq<TopologyDevice>)
    ensures ParentNuma(own) != "" <==> exists i :: 0 <= i < |own| && FirstPlaced(own, i)
    ensures forall i :: 0 <= i < |own| && FirstPlaced(own, i) ==> ParentNuma(own) == NumaKey(own[i])
  {
    hide Decimal;
    if own != [] {
      if own[0].numaNode.Some? {
        assert FirstPlaced(own, 0);
      } else {
        var rest := own[1..];
        ParentExists(rest);
        forall i | 0 <= i < |rest| ensures FirstPlaced(rest, i) <==> FirstPlaced(own, i + 1) {}
        if i :| 0 <= i < |rest| && FirstPlaced(rest, i) { assert FirstPlaced(own, i + 1); }
        forall i | 0 <= i < |own| && FirstPlaced(own, i) ensures ParentNuma(own) == NumaKey(own[i]) {
          assert FirstPlaced(rest, i - 1) && rest[i - 1] == own[i];
        }
      }
    }
  }

  predicate FirstPlaced(own: seq<TopologyDevice>, i: nat)
    requires i < |own|
  {
    own[i].numaNode.Some? && forall j :: 0 <= j < i ==> own[j].numaNode.None?
  }

  /** The parent, when there is one, is the node of a device on the root. */
  lemma ParentNode(devices: seq<TopologyDevice>, root: string)
    requires root != "" && ParentNuma(OnRoot(devices, root)) != ""
    ensures exists n :: IsParent(devices, root, n)
  {
    hide Filter, ParentNuma;
    var own := OnRoot(devices, root);
    ParentExists(own);
    OnRootIff(devices, root);
    var i :| 0 <= i < |own| && FirstPlaced(own, i);
    assert own[i] in own;
    var j :| 0 <= j < |devices| && devices[j] == own[i];
    LeastOnRoot(devices, root, j);
  }

  lemma {:induction false} LeastOnRoot(devices: seq<TopologyDevice>, root: string, j: nat)
    requires j < |devices| && devices[j].pcieRoot == Some(root) && devices[j].numaNode.Some?
    ensures exists n :: IsParent(devices, root, n)
    decreases j
  {
    if FirstOnRoot(devices, root, j) {
      assert IsParent(devices, root, devices[j].numaNode.value);
    } else {
      var i :| 0 <= i < j && devices[i].pcieRoot == Some(root) && devices[i].numaNode.Some?;
      LeastOnRoot(devices, root, i);
    }
  }

  /** A PCIe root partition holds exactly the devices on its root and the devices lent to it. */
  lemma RootDevicesIff(node: string, profile: string, index: nat, root: string, devices: seq<TopologyDevice>,
                       e: TopologyDevice)
    requires root != ""
    ensures e in PciePartitionFrom(node, profile, index, root, devices).devices <==>
      (e in devices && e.pcieRoot == Some(root)) || LentTo(devices, root, e)
  {
    hide PartitionFrom, Enrich, ParentNuma, RootsOn, RootsAt, IsFirstOn, ChildWithout, IsParent, Decimal, Filter;
    var own, name := OnRoot(devices, root), node + "-pcieRoot-" + Decimal(index);
    var p := PartitionFrom(name, profile, PcieRootPartition, own);
    FromDevices(name, profile, own);
    OnRootIff(devices, root);
    if ParentNuma(own) == "" {
      forall n ensures !IsParent(devices, root, n) {
        if IsParent(devices, root, n) { ParentIsFirst(devices, root, n); }
      }
    } else {
      ParentNode(devices, root);
      var n :| IsParent(devices, root, n);
      ParentIsFirst(devices, root, n);
      RootsAtIs(devices, n);
      ParentHasRoots(devices, root, n);
      LentThere(devices, root, n, e);
      AddedIff(p, OnNuma(devices, Decimal(n)), |RootsAt(devices, n)|, e);
      FirstOnNuma(devices, e, n, |RootsAt(devices, n)|);
      EffectiveHasDriver(own, Base(e));
      ChildIff(devices, root, n, Base(e));
    }
  }

  lemma FromDevices(name: string, profile: string, own: seq<TopologyDevice>)
    ensures PartitionFrom(name, profile, PcieRootPartition, own).devices == own
    ensures PartitionFrom(name, profile, PcieRootPartition, own).deviceCounts == Tally(Effective(own))
  {
  }

  lemma ChildIff(devices: seq<TopologyDevice>, root: string, n: int, b: string)
    requires root != "" && IsParent(devices, root, n)
    ensures ChildWithout(devices, root, n, b) <==> forall d :: d in OnRoot(devices, root) ==> Base(d) != b
  {
    hide IsParent, Filter;
    OnRootIff(devices, root);
  }

  /** A root has one parent. */
  lemma LentThere(devices: seq<TopologyDevice>, root: string, n: int, e: TopologyDevice)
    requires root != "" && IsParent(devices, root, n) && |RootsAt(devices, n)| > 0
    ensures LentTo(devices, root, e) <==>
      IsFirstOn(devices, e, n, |RootsAt(devices, n)|) && ChildWithout(devices, root, n, Base(e))
  {
    hide IsFirstOn, ChildWithout, RootsAt, Decimal, IsParent;
    forall m | IsParent(devices, root, m) ensures m == n {
      ParentIsFirst(devices, root, m);
      ParentIsFirst(devices, root, n);
      DecimalInjective(m, n);
    }
  }
}
