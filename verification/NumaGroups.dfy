/** The starting groups of the NUMA partitions, and two limits of their refinement. */
module NumaGroups {
  import opened Collections
  import opened Text
  import opened Topology
  import opened Refinement

  predicate HasNuma(d: TopologyDevice) {
    d.numaNode.Some?
  }

  /** The groups by NUMA node, without the group of devices that have none. */
  function NumaGroupsOf(devices: seq<TopologyDevice>): Groups {
    GroupBy(devices, NumaKey) - {""}
  }

  lemma NumaGroupFacts(devices: seq<TopologyDevice>, k: string)
    requires k in NumaGroupsOf(devices)
    ensures exists n :: k == Decimal(n)
    ensures forall d :: d in NumaGroupsOf(devices)[k] <==> d in devices && HasNuma(d) && NumaKey(d) == k
    ensures NumaGroupsOf(devices)[k] != []
  {
    FilterMembers(devices, KeyIs(NumaKey, k));
    var d :| d in devices && NumaKey(d) == k;
    assert k == Decimal(d.numaNode.value);
    assert d in NumaGroupsOf(devices)[k];
  }

  /** A decimal has a '-' only in front, so one decimal never continues another after a '-'. */
  lemma DecimalsSeparated(a: int, b: int)
    ensures !(Decimal(a) + "-" <= Decimal(b))
  {
    var s, t := Decimal(a), Decimal(b);
    var digits := Digits(if b < 0 then -b else b);
    assert forall i :: 0 < i < |t| ==> t[i] in digits;
    if s + "-" <= t {
      assert (s + "-")[|s|] == '-';
    }
  }

  /** The NUMA split is an exact cover of the devices that have a NUMA node, under separated keys. */
  lemma NumaSplitExact(devices: seq<TopologyDevice>)
    ensures IsPartition(NumaGroupsOf(devices), Filter(devices, HasNuma))
    ensures Separated(NumaGroupsOf(devices))
  {
    var groups, placed := NumaGroupsOf(devices), Filter(devices, HasNuma);
    FilterMembers(devices, HasNuma);
    forall d | d in placed ensures Sits(groups, d, NumaKey(d)) {
      assert NumaKey(d) in groups;
      NumaGroupFacts(devices, NumaKey(d));
    }
    forall k, k', d | Sits(groups, d, k) && Sits(groups, d, k') ensures k == k' {
      NumaGroupFacts(devices, k);
      NumaGroupFacts(devices, k');
    }
    forall k | k in groups ensures groups[k] != [] && groups[k] == Filter(placed, In(groups[k])) {
      NumaGroupFacts(devices, k);
      FilterTwice(devices, HasNuma, In(groups[k]), KeyIs(NumaKey, k));
    }
    forall k, k' | k in groups && k' in groups ensures !(k + "-" <= k') {
      NumaGroupFacts(devices, k);
      NumaGroupFacts(devices, k');
      var a, b :| k == Decimal(a) && k' == Decimal(b);
      DecimalsSeparated(a, b);
    }
  }

  /** Devices start together exactly when they are on one NUMA node. */
  lemma NumaTogether(devices: seq<TopologyDevice>, d: TopologyDevice, e: TopologyDevice)
    ensures Together(NumaGroupsOf(devices), d, e) <==>
      d in devices && e in devices && HasNuma(d) && d.numaNode == e.numaNode
  {
    var groups := NumaGroupsOf(devices);
    if Together(groups, d, e) {
      var k :| Sits(groups, d, k) && Sits(groups, e, k);
      NumaGroupFacts(devices, k);
      DecimalInjective(d.numaNode.value, e.numaNode.value);
    }
    if d in devices && e in devices && HasNuma(d) && d.numaNode == e.numaNode {
      var k := NumaKey(d);
      assert k in groups;
      NumaGroupFacts(devices, k);
      assert Sits(groups, d, k) && Sits(groups, e, k);
    }
  }

  // ---------------------------------------------------------------------
  // Limits
  // ---------------------------------------------------------------------

  /** Two devices that a round finds disagreeing on a value they both carry are separated for good. */
  lemma RoundSeparates(groups: Groups, devices: seq<TopologyDevice>, attribute: AttributeName, split: Groups,
                       k: string, d: TopologyDevice, e: TopologyDevice)
    requires IsPartition(groups, devices) && SplitsTo(groups, attribute, split)
    requires Sits(groups, d, k) && Sits(groups, e, k) && !Shares(groups[k], attribute)
    ensures ValueKey(attribute)(d) != ValueKey(attribute)(e) ==> !Together(split, d, e)
    ensures CollisionFree(groups, attribute) && ValueKey(attribute)(d) == ValueKey(attribute)(e) ==>
      Sits(split, d, k + "-" + ValueKey(attribute)(d)) && Together(split, d, e)
  {
    var p, q := PieceOf(groups, attribute, d, k), PieceOf(groups, attribute, e, k);
    if p != q && Together(split, d, e) {
      var k2 :| Sits(split, d, k2) && Sits(split, e, k2);
      var r :| Yields(groups, attribute, r, k2, split[k2]);
      OnePiece(groups, devices, attribute, d, p, r);
      OnePiece(groups, devices, attribute, e, q, r);
    }
    if CollisionFree(groups, attribute) && p == q {
      EntryOf(groups, attribute, split, p);
      assert Sits(split, d, p.Key()) && Sits(split, e, p.Key());
    }
  }

  lemma RoundRefines(groups: Groups, devices: seq<TopologyDevice>, attribute: AttributeName, split: Groups,
                     d: TopologyDevice, e: TopologyDevice)
    requires IsPartition(groups, devices) && SplitsTo(groups, attribute, split) && Together(split, d, e)
    ensures Together(groups, d, e)
  {
    var k :| Sits(split, d, k) && Sits(split, e, k);
    var p :| Yields(groups, attribute, p, k, split[k]);
    PieceMembers(groups, attribute, p);
    assert Sits(groups, d, p.key) && Sits(groups, e, p.key);
  }

  lemma TwoRounds(groups: Groups, r: TopologyRule, r': TopologyRule, final: Groups) returns (mid: Groups)
    requires SplitsAll(groups, [r, r'], final)
    ensures SplitsTo(groups, r.attribute, mid) && SplitsTo(mid, r'.attribute, final)
  {
    assert [r, r'][..1] == [r] && [r][..0] == [];
    mid :| SplitsAll(groups, [r], mid) && SplitsTo(mid, r'.attribute, final);
    assert SplitsAll(groups, [], groups);
    var start :| SplitsAll(groups, [], start) && SplitsTo(start, r.attribute, mid);
  }

  /** The groups that the NUMA split starts from, with a device in place. */
  lemma Start(devices: seq<TopologyDevice>, d: TopologyDevice)
    requires d in devices && HasNuma(d)
    ensures Sits(NumaGroupsOf(devices), d, NumaKey(d))
  {
    assert NumaKey(d) in NumaGroupsOf(devices);
    NumaGroupFacts(devices, NumaKey(d));
  }

  predicate SameNode(d: TopologyDevice, e: TopologyDevice) {
    HasNuma(d) && d.numaNode == e.numaNode
  }

  /** Two pairs of values that join to one text give two groups one key, and then devices disappear. */
  lemma JoinedValuesLoseDevices(devices: seq<TopologyDevice>, r: TopologyRule, r': TopologyRule, final: Groups,
                                a: TopologyDevice, a': TopologyDevice, b: TopologyDevice, b': TopologyDevice)
    requires SplitsAll(NumaGroupsOf(devices), [r, r'], final)
    requires forall d :: d in [a, a', b, b'] ==>
      d in devices && SameNode(a, d) && r.attribute in d.extended && r'.attribute in d.extended
    requires ValueKey(r.attribute)(a) == ValueKey(r.attribute)(a') != ValueKey(r.attribute)(b) ==
      ValueKey(r.attribute)(b')
    requires ValueKey(r'.attribute)(a) != ValueKey(r'.attribute)(a')
    requires ValueKey(r'.attribute)(b) != ValueKey(r'.attribute)(b')
    requires ValueKey(r.attribute)(a) + "-" + ValueKey(r'.attribute)(a) ==
      ValueKey(r.attribute)(b) + "-" + ValueKey(r'.attribute)(b)
    ensures !Covers(final, Filter(devices, HasNuma))
  {
    var groups, placed, k := NumaGroupsOf(devices), Filter(devices, HasNuma), NumaKey(a);
    var x, y := r.attribute, r'.attribute;
    NumaSplitExact(devices);
    forall d | d in [a, a', b, b'] ensures Sits(groups, d, k) { Start(devices, d); }
    var mid := TwoRounds(groups, r, r', final);
    SeparatedCollisionFree(groups, x);
    RoundPartition(groups, placed, x, mid);
    RoundSeparates(groups, placed, x, mid, k, a, a');
    RoundSeparates(groups, placed, x, mid, k, a', a);
    RoundSeparates(groups, placed, x, mid, k, b, b');
    RoundSeparates(groups, placed, x, mid, k, b', b);
    var u, v := ValueKey(x)(a), ValueKey(x)(b);
    JoinedTwice(k, u, ValueKey(y)(a), v, ValueKey(y)(b));
    CollidingPieces(mid, placed, y, final, k + "-" + u, k + "-" + v, a, a', b, b');
  }

  lemma JoinedTwice(k: string, u: string, s: string, v: string, t: string)
    requires u != v && u + "-" + s == v + "-" + t
    ensures (k + "-" + u) + "-" + s == (k + "-" + v) + "-" + t && k + "-" + u != k + "-" + v
  {
    assert (k + "-" + u) + "-" + s == k + "-" + (u + "-" + s);
    assert (k + "-" + v) + "-" + t == k + "-" + (v + "-" + t);
    assert (k + "-" + u)[|k| + 1..] == u && (k + "-" + v)[|k| + 1..] == v;
  }

  lemma CollidingPieces(mid: Groups, placed: seq<TopologyDevice>, y: AttributeName, final: Groups, ka: string,
                        kb: string,
                        a: TopologyDevice, a': TopologyDevice, b: TopologyDevice, b': TopologyDevice)
    requires IsPartition(mid, placed) && SplitsTo(mid, y, final)
    requires Sits(mid, a, ka) && Sits(mid, a', ka) && Sits(mid, b, kb) && Sits(mid, b', kb)
    requires y in a.extended && y in a'.extended && y in b.extended && y in b'.extended
    requires ValueKey(y)(a) != ValueKey(y)(a') && ValueKey(y)(b) != ValueKey(y)(b')
    requires ka != kb && ka + "-" + ValueKey(y)(a) == kb + "-" + ValueKey(y)(b)
    ensures !Covers(final, placed)
  {
    hide IsPartition, SplitsTo, Covers, IsPiece, Shares, ValueKey;
    SplitPiece(mid, y, ka, a, a');
    SplitPiece(mid, y, kb, b, b');
    var p, q := Part(ka, ValueKey(y)(a)), Part(kb, ValueKey(y)(b));
    assert p.Key() == q.Key() && p != q;
    RoundKeepsAllIff(mid, placed, y, final);
  }

  /** A group with two values is split, and a device's value is one of its pieces. */
  lemma SplitPiece(mid: Groups, y: AttributeName, k: string, a: TopologyDevice, a': TopologyDevice)
    requires Sits(mid, a, k) && Sits(mid, a', k) && y in a.extended && y in a'.extended
    requires ValueKey(y)(a) != ValueKey(y)(a')
    ensures IsPiece(mid, y, Part(k, ValueKey(y)(a)))
  {
    assert ValueKey(y)(a) in KeySet(mid[k], ValueKey(y));
  }

  // A concrete instance.

  function Device(name: string, numa: int, x: Option<string>, y: string): TopologyDevice {
    var ext := map[Named("y") := AttributeValue(None, Some(y), None)];
    TopologyDevice("drv", name, "node", "pool", Some(numa), [], None, [], None,
      if x.Some? then ext[Named("x") := AttributeValue(None, x, None)] else ext, map[], [])
  }

  function RuleOn(name: string): TopologyRule {
    TopologyRule("rule", Named(name), "drv", MapsToNothing, PartitionByGroup, ConstraintNone, Required, None, "")
  }

  function DashDevices(): (ds: seq<TopologyDevice>)
    ensures |ds| == 5
  {
    [Device("a1", 0, Some("a"), "b-c"), Device("a2", 0, Some("a"), "z"),
     Device("b1", 0, Some("a-b"), "c"), Device("b2", 0, Some("a-b"), "w"), Device("z", 1, None, "1")]
  }

  lemma DashDeviceValues()
    ensures var ds, x, y := DashDevices(), Named("x"), Named("y");
      && ValueKey(x)(ds[0]) == "a" && ValueKey(x)(ds[1]) == "a" && ValueKey(x)(ds[2]) == "a-b" &&
        ValueKey(x)(ds[3]) == "a-b"
      && ValueKey(y)(ds[0]) == "b-c" && ValueKey(y)(ds[1]) == "z" && ValueKey(y)(ds[2]) == "c" &&
        ValueKey(y)(ds[3]) == "w"
  {
  }

  lemma DashDevicePlaces()
    ensures var ds, x, y := DashDevices(), Named("x"), Named("y");
      forall d :: d in [ds[0], ds[1], ds[2], ds[3]] ==> SameNode(ds[0], d) && x in d.extended && y in d.extended
  {
  }

  lemma JoinedTexts()
    ensures "a" + "-" + "b-c" == "a-b" + "-" + "c" && "a" != "a-b" && "b-c" != "z" && "c" != "w"
  {
    assert "a" + "-" + "b-c" == "a-b-c" && "a-b" + "-" + "c" == "a-b-c";
    assert |"a"| == 1 && |"a-b"| == 3 && |"b-c"| == 3 && |"z"| == 1 && "c"[0] == 'c' && "w"[0] == 'w';
  }

  /** Values with '-' in an earlier rule: a group of devices is lost. */
  lemma DashesLoseDevices(final: Groups)
    requires SplitsAll(NumaGroupsOf(DashDevices()), [RuleOn("x"), RuleOn("y")], final)
    ensures !Covers(final, Filter(DashDevices(), HasNuma))
  {
    hide SplitsAll, Covers, Filter, DashDevices, ValueKey;
    var ds, x, y := DashDevices(), Named("x"), Named("y");
    DashDeviceValues();
    DashDevicePlaces();
    assert forall d :: d in [ds[0], ds[1], ds[2], ds[3]] ==> d in ds;
    JoinedTexts();
    JoinedValuesLoseDevices(ds, RuleOn("x"), RuleOn("y"), final, ds[0], ds[1], ds[2], ds[3]);
  }
}
