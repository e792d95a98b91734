/** When the order of grouping rules can be observed.  A rule is skipped on a group whose carriers agree, so a
    device without the attribute stays with them, unless another rule has broken the group up before. */
module RuleOrder {
  import opened Collections
  import opened Topology
  import opened Refinement
  import opened NumaGroups
  import opened SplitRuns

  // ---------------------------------------------------------------------
  // One group
  // ---------------------------------------------------------------------

  /** Does a round by the attribute leave two devices of one group together? */
  ghost predicate Keeps(g: seq<TopologyDevice>, x: AttributeName, d: TopologyDevice, e: TopologyDevice) {
    Shares(g, x) || ValueKey(x)(d) == ValueKey(x)(e)
  }

  function PartBy(g: seq<TopologyDevice>, x: AttributeName, v: string): seq<TopologyDevice> {
    Filter(g, KeyIs(ValueKey(x), v))
  }

  /** The group of a device after the round. */
  ghost function After(g: seq<TopologyDevice>, x: AttributeName, d: TopologyDevice): seq<TopologyDevice> {
    if Shares(g, x) then g else PartBy(g, x, ValueKey(x)(d))
  }

  /** Do two rounds leave them together? */
  ghost predicate KeepsTwice(g: seq<TopologyDevice>, x: AttributeName, y: AttributeName, d: TopologyDevice,
                             e: TopologyDevice) {
    Keeps(g, x, d, e) && Keeps(After(g, x, d), y, d, e)
  }

  /** Two devices that x keeps in one part, whose carriers of y agree although the two differ in y. */
  ghost predicate HiddenPair(g: seq<TopologyDevice>, x: AttributeName, y: AttributeName, d: TopologyDevice,
                             e: TopologyDevice) {
    && ValueKey(x)(d) == ValueKey(x)(e) && ValueKey(y)(d) != ValueKey(y)(e)
    && Shares(PartBy(g, x, ValueKey(x)(d)), y)
  }

  /** Splitting by x hides a difference in y: some part agrees among the carriers of y, although its devices do
      not all have one value of it. */
  ghost predicate Hides(g: seq<TopologyDevice>, x: AttributeName, y: AttributeName) {
    exists d, e :: d in g && e in g && HiddenPair(g, x, y, d, e)
  }

  /** Splitting by either attribute is skipped, or neither hides a difference in the other. */
  ghost predicate Exchangeable(g: seq<TopologyDevice>, x: AttributeName, y: AttributeName) {
    Shares(g, x) || Shares(g, y) || (!Hides(g, x, y) && !Hides(g, y, x))
  }

  ghost predicate SameTwice(g: seq<TopologyDevice>, x: AttributeName, y: AttributeName, d: TopologyDevice,
                            e: TopologyDevice) {
    KeepsTwice(g, x, y, d, e) <==> KeepsTwice(g, y, x, d, e)
  }

  lemma PartShares(g: seq<TopologyDevice>, x: AttributeName, y: AttributeName, v: string)
    requires Shares(g, x)
    ensures Shares(PartBy(g, y, v), x)
  {
    FilterMembers(g, KeyIs(ValueKey(y), v));
  }

  lemma SkippedRound(g: seq<TopologyDevice>, x: AttributeName, y: AttributeName, d: TopologyDevice, e: TopologyDevice)
    requires Shares(g, x)
    ensures SameTwice(g, x, y, d, e) && SameTwice(g, y, x, d, e)
  {
    hide Shares, ValueKey, PartBy;
    PartShares(g, x, y, ValueKey(y)(d));
  }

  lemma SameTwiceIff(g: seq<TopologyDevice>, x: AttributeName, y: AttributeName, d: TopologyDevice, e: TopologyDevice)
    requires !Shares(g, x) && !Shares(g, y)
    ensures SameTwice(g, x, y, d, e) <==> !HiddenPair(g, x, y, d, e) && !HiddenPair(g, y, x, d, e)
  {
    hide Shares, ValueKey, PartBy;
  }

  /** On one group two rules can be exchanged if and only if the group is exchangeable. */
  lemma GroupExchangeIff(g: seq<TopologyDevice>, x: AttributeName, y: AttributeName)
    ensures (forall d, e :: d in g && e in g ==> SameTwice(g, x, y, d, e)) <==> Exchangeable(g, x, y)
  {
    hide Shares, SameTwice, HiddenPair;
    forall d, e ensures SameTwice(g, x, y, d, e) <==>
      Shares(g, x) || Shares(g, y) || (!HiddenPair(g, x, y, d, e) && !HiddenPair(g, y, x, d, e))
    {
      if Shares(g, x) {
        SkippedRound(g, x, y, d, e);
      } else if Shares(g, y) {
        SkippedRound(g, y, x, d, e);
      } else {
        SameTwiceIff(g, x, y, d, e);
      }
    }
  }

  // ---------------------------------------------------------------------
  // One round
  // ---------------------------------------------------------------------

  /** A round moves a device to the part of its group that it belongs to. */
  lemma GroupAfter(groups: Groups, x: AttributeName, split: Groups, d: TopologyDevice, k: string)
    returns (k2: string)
    requires SplitsTo(groups, x, split) && CollisionFree(groups, x) && Sits(groups, d, k)
    ensures Sits(split, d, k2) && split[k2] == After(groups[k], x, d)
  {
    hide CollisionFree, SplitsTo;
    var p := PieceOf(groups, x, d, k);
    EntryOf(groups, x, split, p);
    k2 := p.Key();
  }

  /** A round leaves two devices together exactly when they were and the round keeps them. */
  lemma RoundTogetherIff(groups: Groups, devices: seq<TopologyDevice>, x: AttributeName, split: Groups,
                         d: TopologyDevice, e: TopologyDevice, k: string)
    requires IsPartition(groups, devices) && SplitsTo(groups, x, split) && CollisionFree(groups, x)
    requires Sits(groups, d, k)
    ensures Together(split, d, e) <==> Sits(groups, e, k) && Keeps(groups[k], x, d, e)
  {
    hide CollisionFree, SplitsTo, Shares, ValueKey;
    var k2 := GroupAfter(groups, x, split, d, k);
    RoundPartition(groups, devices, x, split);
    FilterMembers(groups[k], KeyIs(ValueKey(x), ValueKey(x)(d)));
    assert Together(split, d, e) <==> Sits(split, e, k2) by { TogetherAt(split, devices, d, e, k2); }
  }

  lemma TogetherAt(groups: Groups, devices: seq<TopologyDevice>, d: TopologyDevice, e: TopologyDevice, k: string)
    requires IsPartition(groups, devices) && Sits(groups, d, k)
    ensures Together(groups, d, e) <==> Sits(groups, e, k)
  {
  }

  lemma TwoRoundsTogether(groups: Groups, devices: seq<TopologyDevice>, x: AttributeName, mid: Groups,
                          y: AttributeName, final: Groups, d: TopologyDevice, e: TopologyDevice, k: string)
    requires IsPartition(groups, devices) && SplitsTo(groups, x, mid) && CollisionFree(groups, x)
    requires SplitsTo(mid, y, final) && CollisionFree(mid, y) && Sits(groups, d, k)
    ensures Together(final, d, e) <==> Sits(groups, e, k) && KeepsTwice(groups[k], x, y, d, e)
  {
    hide CollisionFree, SplitsTo, IsPartition, Shares, ValueKey, Together, Keeps, PartBy;
    RoundPartition(groups, devices, x, mid);
    var k2 := GroupAfter(groups, x, mid, d, k);
    RoundTogetherIff(groups, devices, x, mid, d, e, k);
    assert Together(mid, d, e) <==> Sits(mid, e, k2) by { TogetherAt(mid, devices, d, e, k2); }
    RoundTogetherIff(mid, devices, y, final, d, e, k2);
  }

  // ---------------------------------------------------------------------
  // Exchanging two rules
  // ---------------------------------------------------------------------

  ghost predicate SameTogether(g: Groups, h: Groups) {
    forall d, e :: Together(g, d, e) <==> Together(h, d, e)
  }

  ghost predicate AllExchangeable(groups: Groups, x: AttributeName, y: AttributeName) {
    forall k :: k in groups ==> Exchangeable(groups[k], x, y)
  }

  /** The devices of a group after two rules, in terms of the group alone. */
  lemma PairTogether(groups: Groups, devices: seq<TopologyDevice>, r: TopologyRule, r': TopologyRule, final: Groups,
                     d: TopologyDevice, e: TopologyDevice, k: string)
    requires IsPartition(groups, devices) && Separated(groups) && PlainValues(devices, r.attribute)
    requires SplitsAll(groups, [r, r'], final) && Sits(groups, d, k)
    ensures Together(final, d, e) <==> Sits(groups, e, k) && KeepsTwice(groups[k], r.attribute, r'.attribute, d, e)
  {
    hide CollisionFree, SplitsTo, IsPartition, Separated, PlainValues, PlainGroups, SplitsAll, KeepsTwice, Together;
    var mid := TwoRounds(groups, r, r', final);
    SeparatedCollisionFree(groups, r.attribute);
    PlainMembers(groups, devices, r.attribute);
    PlainStaysSeparated(groups, r.attribute, mid);
    SeparatedCollisionFree(mid, r'.attribute);
    TwoRoundsTogether(groups, devices, r.attribute, mid, r'.attribute, final, d, e, k);
  }

  /** Only devices that were together can be together after two rules. */
  lemma PairRefines(groups: Groups, devices: seq<TopologyDevice>, r: TopologyRule, r': TopologyRule, final: Groups,
                    d: TopologyDevice, e: TopologyDevice) returns (k: string)
    requires IsPartition(groups, devices) && Separated(groups) && PlainValues(devices, r.attribute)
    requires SplitsAll(groups, [r, r'], final) && Together(final, d, e)
    ensures Sits(groups, d, k) && Sits(groups, e, k)
  {
    hide CollisionFree, SplitsTo, IsPartition, Separated, PlainValues, SplitsAll;
    var mid := TwoRounds(groups, r, r', final);
    SeparatedCollisionFree(groups, r.attribute);
    RoundPartition(groups, devices, r.attribute, mid);
    RoundRefines(mid, devices, r'.attribute, final, d, e);
    RoundRefines(groups, devices, r.attribute, mid, d, e);
    k :| Sits(groups, d, k) && Sits(groups, e, k);
  }

  /** Two rules give the same groups in both orders if and only if every group is exchangeable.  The groups are
      arbitrary, so these may be any two adjacent rules. */
  lemma ExchangeIff(groups: Groups, devices: seq<TopologyDevice>, r: TopologyRule, r': TopologyRule, final: Groups,
                    final': Groups)
    requires IsPartition(groups, devices) && Separated(groups)
    requires PlainValues(devices, r.attribute) && PlainValues(devices, r'.attribute)
    requires SplitsAll(groups, [r, r'], final) && SplitsAll(groups, [r', r], final')
    ensures SameTogether(final, final') <==> AllExchangeable(groups, r.attribute, r'.attribute)
  {
    hide IsPartition, Separated, PlainValues, SplitsAll, Together, KeepsTwice, Exchangeable;
    var x, y := r.attribute, r'.attribute;
    forall d, e, k | Sits(groups, d, k) && Sits(groups, e, k)
      ensures (Together(final, d, e) <==> Together(final', d, e)) <==> SameTwice(groups[k], x, y, d, e)
    {
      PairTogether(groups, devices, r, r', final, d, e, k);
      PairTogether(groups, devices, r', r, final', d, e, k);
    }
    forall k | k in groups
      ensures (forall d, e :: d in groups[k] && e in groups[k] ==> SameTwice(groups[k], x, y, d, e)) <==>
        Exchangeable(groups[k], x, y)
    {
      GroupExchangeIff(groups[k], x, y);
    }
    if AllExchangeable(groups, x, y) {
      forall d, e ensures Together(final, d, e) <==> Together(final', d, e) {
        if Together(final, d, e) {
          var k := PairRefines(groups, devices, r, r', final, d, e);
          assert SameTwice(groups[k], x, y, d, e);
        }
        if Together(final', d, e) {
          var k := PairRefines(groups, devices, r', r, final', d, e);
          assert SameTwice(groups[k], x, y, d, e);
        }
      }
    }
    if SameTogether(final, final') {
      forall k | k in groups ensures Exchangeable(groups[k], x, y) {
        forall d, e | d in groups[k] && e in groups[k] ensures SameTwice(groups[k], x, y, d, e) {
          assert Sits(groups, d, k) && Sits(groups, e, k);
        }
      }
    }
  }

  // ---------------------------------------------------------------------
  // Before other rules
  // ---------------------------------------------------------------------

  /** Exact covers with the same groups under other keys: a device has one group in both. */
  lemma SameGroupOf(g: Groups, h: Groups, devices: seq<TopologyDevice>, d: TopologyDevice, k: string)
    returns (k': string)
    requires IsPartition(g, devices) && IsPartition(h, devices) && SameTogether(g, h) && Sits(g, d, k)
    ensures Sits(h, d, k') && h[k'] == g[k]
  {
    hide IsPartition, Together;
    SameClassesSameGroups(g, h, devices);
    k' :| k' in h && h[k'] == g[k];
  }

  /** A round gives the same groups from the same groups. */
  lemma SameRound(g: Groups, h: Groups, devices: seq<TopologyDevice>, x: AttributeName, split: Groups, split': Groups)
    requires IsPartition(g, devices) && IsPartition(h, devices) && SameTogether(g, h)
    requires SplitsTo(g, x, split) && SplitsTo(h, x, split') && CollisionFree(g, x) && CollisionFree(h, x)
    ensures forall d, e :: Together(split, d, e) ==> Together(split', d, e)
  {
    hide IsPartition, SplitsTo, CollisionFree, Together, Keeps;
    forall d, e | Together(split, d, e) ensures Together(split', d, e) {
      RoundRefines(g, devices, x, split, d, e);
      var k := SomeGroup(g, d, e);
      RoundTogetherIff(g, devices, x, split, d, e, k);
      var k' := SameGroupOf(g, h, devices, d, k);
      RoundTogetherIff(h, devices, x, split', d, e, k');
    }
  }

  lemma SomeGroup(g: Groups, d: TopologyDevice, e: TopologyDevice) returns (k: string)
    requires Together(g, d, e)
    ensures Sits(g, d, k) && Sits(g, e, k)
  {
    k :| Sits(g, d, k) && Sits(g, e, k);
  }

  /** So do any further rules. */
  lemma {:induction false} SameRounds(g: Groups, h: Groups, devices: seq<TopologyDevice>, rules: seq<TopologyRule>,
                                      final: Groups, final': Groups)
    requires IsPartition(g, devices) && IsPartition(h, devices) && SameTogether(g, h)
    requires Separated(g) && Separated(h) && AllPlain(devices, rules)
    requires SplitsAll(g, rules, final) && SplitsAll(h, rules, final')
    ensures SameTogether(final, final')
  {
    hide IsPartition, SplitsTo, CollisionFree, Together, Separated, PlainValues, Shares;
    if rules != [] {
      var init, last := rules[..|rules| - 1], rules[|rules| - 1];
      var mid :| SplitsAll(g, init, mid) && SplitsTo(mid, last.attribute, final);
      var mid' :| SplitsAll(h, init, mid') && SplitsTo(mid', last.attribute, final');
      SplitSeparated(g, devices, init, mid);
      SplitSeparated(h, devices, init, mid');
      SameRounds(g, h, devices, init, mid, mid');
      SeparatedCollisionFree(mid, last.attribute);
      SeparatedCollisionFree(mid', last.attribute);
      SameRound(mid, mid', devices, last.attribute, final, final');
      SameRound(mid', mid, devices, last.attribute, final', final);
    }
  }

  lemma {:induction false} SplitsConcat(groups: Groups, a: seq<TopologyRule>, b: seq<TopologyRule>, final: Groups)
    returns (mid: Groups)
    requires SplitsAll(groups, a + b, final)
    ensures SplitsAll(groups, a, mid) && SplitsAll(mid, b, final)
  {
    hide SplitsTo;
    if b == [] {
      assert a + b == a;
      mid := final;
    } else {
      var init, last := b[..|b| - 1], b[|b| - 1];
      assert (a + b)[..|a + b| - 1] == a + init;
      var before :| SplitsAll(groups, a + init, before) && SplitsTo(before, last.attribute, final);
      mid := SplitsConcat(groups, a, init, before);
      assert SplitsAll(mid, b, final);
    }
  }

  /** Exchanging two adjacent rules anywhere in the list: if the groups that the rules before them leave are all
      exchangeable, the final groups are the same; and if no rule follows, only if. */
  lemma ExchangeAnywhere(groups: Groups, devices: seq<TopologyDevice>, before: seq<TopologyRule>, r: TopologyRule,
                         r': TopologyRule, rest: seq<TopologyRule>, mid: Groups, final: Groups, final': Groups)
    requires IsPartition(groups, devices) && Separated(groups) && AllPlain(devices, before + [r, r'] + rest)
    requires SplitsAll(groups, before, mid)
    requires SplitsAll(groups, before + [r, r'] + rest, final) && SplitsAll(groups, before + [r', r] + rest, final')
    ensures AllExchangeable(mid, r.attribute, r'.attribute) ==> SameTogether(final, final')
    ensures rest == [] && SameTogether(final, final') ==> AllExchangeable(mid, r.attribute, r'.attribute)
  {
    hide IsPartition, Separated, PlainValues, SplitsAll, Together, AllExchangeable, Shares, Covers;
    var x, y := r.attribute, r'.attribute;
    assert forall q :: q in before || q == r || q == r' || q in rest ==> q in before + [r, r'] + rest;
    assert AllPlain(devices, before) && AllPlain(devices, [r, r']) && AllPlain(devices, [r', r]) &&
      AllPlain(devices, rest);
    assert PlainValues(devices, x) && PlainValues(devices, y);
    var two := SplitsConcat(groups, before + [r, r'], rest, final);
    var two' := SplitsConcat(groups, before + [r', r], rest, final');
    var m := SplitsConcat(groups, before, [r, r'], two);
    var m' := SplitsConcat(groups, before, [r', r], two');
    SplitSeparated(groups, devices, before, mid);
    OneOutcome(groups, devices, before, mid, m);
    OneOutcome(groups, devices, before, mid, m');
    ExchangeIff(mid, devices, r, r', two, two');
    SplitSeparated(mid, devices, [r, r'], two);
    SplitSeparated(mid, devices, [r', r], two');
    if SameTogether(two, two') { SameRounds(two, two', devices, rest, final, final'); }
    if rest == [] { NoRules(two, final); NoRules(two', final'); }
  }

  lemma NoRules(groups: Groups, final: Groups)
    requires SplitsAll(groups, [], final)
    ensures final == groups
  {
  }

  /** Without dashes the rules before have one outcome. */
  lemma OneOutcome(groups: Groups, devices: seq<TopologyDevice>, rules: seq<TopologyRule>, a: Groups, b: Groups)
    requires IsPartition(groups, devices) && Separated(groups) && AllPlain(devices, rules)
    requires SplitsAll(groups, rules, a) && SplitsAll(groups, rules, b)
    ensures a == b
  {
    hide IsPartition, Separated, AllPlain, SplitsAll, Covers;
    SplitSeparated(groups, devices, rules, a);
    PartitionCovers(a, devices);
    LossIsDecided(groups, devices, rules, a, b);
  }

  // ---------------------------------------------------------------------
  // A concrete case
  // ---------------------------------------------------------------------

  function OrderDevices(): (ds: seq<TopologyDevice>)
    ensures |ds| == 4
  {
    [Device("a", 0, Some("1"), "1"), Device("b", 0, Some("2"), "2"), Device("c", 0, None, "1"),
      Device("z", 1, None, "1")]
  }

  lemma OrderDeviceValues()
    ensures var ds := OrderDevices();
      && ValueKey(Named("x"))(ds[0]) == "1" && ValueKey(Named("x"))(ds[1]) == "2"
      && ValueKey(Named("x"))(ds[2]) == "none" && ValueKey(Named("x"))(ds[3]) == "none"
      && ValueKey(Named("y"))(ds[0]) == "1" && ValueKey(Named("y"))(ds[1]) == "2"
      && ValueKey(Named("y"))(ds[2]) == "1" && ValueKey(Named("y"))(ds[3]) == "1"
  {
  }

  lemma OrderDevicePlaces()
    ensures var ds, x, y := OrderDevices(), Named("x"), Named("y");
      && NumaKey(ds[0]) == "0" && NumaKey(ds[1]) == "0" && NumaKey(ds[2]) == "0" && NumaKey(ds[3]) == "1"
      && x in ds[0].extended && x in ds[1].extended && x !in ds[2].extended && x !in ds[3].extended
      && y in ds[0].extended && y in ds[1].extended
  {
  }

  lemma NotShared(g: seq<TopologyDevice>, x: AttributeName, d: TopologyDevice, e: TopologyDevice)
    requires d in g && e in g && x in d.extended && x in e.extended && ValueKey(x)(d) != ValueKey(x)(e)
    ensures !Shares(g, x)
  {
  }

  lemma OneCarrier(g: seq<TopologyDevice>, x: AttributeName, d: TopologyDevice)
    requires forall e :: e in g && x in e.extended ==> e == d
    ensures Shares(g, x)
  {
  }

  lemma OrderGroup()
    ensures var ds, x, y := OrderDevices(), Named("x"), Named("y");
      var g := Filter(ds, KeyIs(NumaKey, "0"));
      ds[0] in g && ds[2] in g && !Shares(g, x) && !Shares(g, y) && HiddenPair(g, y, x, ds[0], ds[2])
  {
    hide Filter, OrderDevices, ValueKey, Shares;
    var ds, x, y := OrderDevices(), Named("x"), Named("y");
    var g := Filter(ds, KeyIs(NumaKey, "0"));
    OrderDeviceValues();
    OrderDevicePlaces();
    FilterMembers(ds, KeyIs(NumaKey, "0"));
    assert ds[0] in g && ds[1] in g && ds[2] in g;
    NotShared(g, x, ds[0], ds[1]);
    NotShared(g, y, ds[0], ds[1]);
    FilterMembers(g, KeyIs(ValueKey(y), "1"));
    OneCarrier(PartBy(g, y, "1"), x, ds[0]);
  }

  lemma OrderPlain()
    ensures PlainValues(Filter(OrderDevices(), HasNuma), Named("x"))
    ensures PlainValues(Filter(OrderDevices(), HasNuma), Named("y"))
  {
    hide Filter;
    OrderDeviceValues();
    FilterMembers(OrderDevices(), HasNuma);
  }

  /** Splitting by y first hides that a device has no x: the order of the two rules can be observed. */
  lemma RuleOrderMatters(final: Groups, final': Groups)
    requires SplitsAll(NumaGroupsOf(OrderDevices()), [RuleOn("x"), RuleOn("y")], final)
    requires SplitsAll(NumaGroupsOf(OrderDevices()), [RuleOn("y"), RuleOn("x")], final')
    ensures !Together(final, OrderDevices()[0], OrderDevices()[2])
    ensures Together(final', OrderDevices()[0], OrderDevices()[2])
    ensures !AllExchangeable(NumaGroupsOf(OrderDevices()), Named("x"), Named("y"))
  {
    hide SplitsAll, Together, Filter, IsPartition, Separated, PlainValues, Shares, ValueKey, OrderDevices;
    var ds, placed := OrderDevices(), Filter(OrderDevices(), HasNuma);
    var groups, g := NumaGroupsOf(ds), Filter(ds, KeyIs(NumaKey, "0"));
    NumaSplitExact(ds);
    OrderPlain();
    OrderGroup();
    assert "0" in groups && groups["0"] == g by { ZeroGroup(); }
    PairTogether(groups, placed, RuleOn("x"), RuleOn("y"), final, ds[0], ds[2], "0");
    PairTogether(groups, placed, RuleOn("y"), RuleOn("x"), final', ds[0], ds[2], "0");
  }

  lemma ZeroGroup()
    ensures var groups := NumaGroupsOf(OrderDevices());
      "0" in groups && groups["0"] == Filter(OrderDevices(), KeyIs(NumaKey, "0"))
  {
    hide Filter;
    var ds := OrderDevices();
    assert ds[0] in ds && NumaKey(ds[0]) == "0";
    assert "0" in NumaGroupsOf(ds);
  }
}
