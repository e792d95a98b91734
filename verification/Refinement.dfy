/** Splitting of the NUMA groups by the grouping rules.  A round that finds devices disagreeing on a
    rule's attribute replaces the group by one group per value, under the key "group-value". */
module Refinement {
  import opened Collections
  import opened Text
  import opened Topology

  type Groups = map<string, seq<TopologyDevice>>

  // ---------------------------------------------------------------------
  // Grouping
  // ---------------------------------------------------------------------

  method GroupDevicesByAttribute(devices: seq<TopologyDevice>, key: TopologyDevice -> string) returns (groups: Groups)
    ensures groups == GroupBy(devices, key)
  {
    groups := map[];
    for i := 0 to |devices|
      invariant groups == GroupBy(devices[..i], key)
    {
      GroupByStep(devices, i, key);
      var k := key(devices[i]);
      groups := groups[k := (if k in groups then groups[k] else []) + [devices[i]]];
    }
    assert devices[..|devices|] == devices;
  }

  /** The group of a device when splitting by an extended attribute; "none" when it has no value. */
  function ValueKey(attribute: AttributeName): TopologyDevice -> string {
    (d: TopologyDevice) => if attribute in d.extended then d.extended[attribute].Render() else "none"
  }

  method GroupDevicesByExtendedAttribute(devices: seq<TopologyDevice>, attribute: AttributeName)
    returns (groups: Groups)
    ensures groups == GroupBy(devices, ValueKey(attribute))
  {
    groups := map[];
    for i := 0 to |devices|
      invariant groups == GroupBy(devices[..i], ValueKey(attribute))
    {
      GroupByStep(devices, i, ValueKey(attribute));
      var d := devices[i];
      if attribute !in d.extended {
        groups := Append(groups, "none", d);
      } else {
        groups := Append(groups, d.extended[attribute].Render(), d);
      }
    }
    assert devices[..|devices|] == devices;
  }

  /** The devices that carry the attribute carry the same value of it. */
  ghost predicate Shares(devices: seq<TopologyDevice>, attribute: AttributeName) {
    forall d, e :: d in devices && e in devices && attribute in d.extended && attribute in e.extended ==>
      d.extended[attribute].Render() == e.extended[attribute].Render()
  }

  method DevicesShareAttribute(devices: seq<TopologyDevice>, attribute: AttributeName) returns (b: bool)
    ensures b <==> Shares(devices, attribute)
  {
    var firstVal: Option<string> := None;
    for i := 0 to |devices|
      invariant firstVal.None? ==> forall d :: d in devices[..i] ==> attribute !in d.extended
      invariant firstVal.Some? ==>
        exists d :: d in devices[..i] && attribute in d.extended && d.extended[attribute].Render() == firstVal.value
      invariant firstVal.Some? ==> forall d :: d in devices[..i] && attribute in d.extended ==>
        d.extended[attribute].Render() == firstVal.value
    {
      assert devices[..i + 1] == devices[..i] + [devices[i]];
      if attribute !in devices[i].extended { continue; }
      var s := devices[i].extended[attribute].Render();
      if firstVal.None? {
        firstVal := Some(s);
      } else if s != firstVal.value {
        assert devices[i] in devices;
        return false;
      }
    }
    assert devices[..|devices|] == devices;
    b := true;
  }

  // ---------------------------------------------------------------------
  // One round
  // ---------------------------------------------------------------------

  /** What a round makes of the groups: a group kept whole, or one value of a group that is split. */
  datatype Piece = Kept(key: string) | Part(key: string, value: string)
  {
    function Key(): string {
      match this
      case Kept(key) => key
      case Part(key, value) => key + "-" + value
    }

    function Devices(groups: Groups, attribute: AttributeName): seq<TopologyDevice>
      requires key in groups
    {
      match this
      case Kept(key) => groups[key]
      case Part(key, value) => Filter(groups[key], KeyIs(ValueKey(attribute), value))
    }
  }

  ghost predicate IsPiece(groups: Groups, attribute: AttributeName, p: Piece) {
    && p.key in groups
    && match p
       case Kept(key) => Shares(groups[key], attribute)
       case Part(key, value) => !Shares(groups[key], attribute) && value in KeySet(groups[key], ValueKey(attribute))
  }

  ghost predicate Yields(groups: Groups, attribute: AttributeName, p: Piece, k: string, devices: seq<TopologyDevice>) {
    IsPiece(groups, attribute, p) && p.Key() == k && p.Devices(groups, attribute) == devices
  }

  /** Every entry is one of the pieces with that key. */
  ghost predicate FromPieces(groups: Groups, attribute: AttributeName, split: Groups) {
    forall k :: k in split ==> exists p :: Yields(groups, attribute, p, k, split[k])
  }

  /** Every piece's key is present, and every entry is one of the pieces with that key. */
  ghost predicate SplitsTo(groups: Groups, attribute: AttributeName, split: Groups) {
    && (forall p :: IsPiece(groups, attribute, p) ==> p.Key() in split)
    && FromPieces(groups, attribute, split)
  }

  lemma PutPiece(groups: Groups, attribute: AttributeName, split: Groups, p: Piece)
    requires IsPiece(groups, attribute, p) && FromPieces(groups, attribute, split)
    ensures FromPieces(groups, attribute, split[p.Key() := p.Devices(groups, attribute)])
  {
    var split' := split[p.Key() := p.Devices(groups, attribute)];
    forall k | k in split' ensures exists q :: Yields(groups, attribute, q, k, split'[k]) {
      if k == p.Key() {
        assert Yields(groups, attribute, p, k, split'[k]);
      }
    }
  }

  method SplitRound(groups: Groups, attribute: AttributeName) returns (split: Groups)
    ensures SplitsTo(groups, attribute, split)
  {
    hide FromPieces;
    split := map[];
    assert FromPieces(groups, attribute, map[]) by { NoPieces(groups, attribute); }
    var todo := groups.Keys;
    while todo != {}
      invariant todo <= groups.Keys
      invariant forall p :: IsPiece(groups, attribute, p) && p.key !in todo ==> p.Key() in split
      invariant FromPieces(groups, attribute, split)
      decreases |todo|
    {
      var key :| key in todo;
      todo := todo - {key};
      var share := DevicesShareAttribute(groups[key], attribute);
      if share {
        PutPiece(groups, attribute, split, Kept(key));
        split := split[key := groups[key]];
      } else {
        split := AddParts(groups, attribute, key, split);
      }
    }
  }

  lemma NoPieces(groups: Groups, attribute: AttributeName)
    ensures FromPieces(groups, attribute, map[])
  {
  }

  method AddParts(groups: Groups, attribute: AttributeName, key: string, before: Groups) returns (split: Groups)
    requires key in groups && !Shares(groups[key], attribute)
    requires FromPieces(groups, attribute, before)
    ensures before.Keys <= split.Keys
    ensures forall p :: IsPiece(groups, attribute, p) && p.key == key ==> p.Key() in split
    ensures FromPieces(groups, attribute, split)
  {
    hide FromPieces;
    hide Shares;
    hide GroupBy;
    split := before;
    var subGroups := GroupDevicesByExtendedAttribute(groups[key], attribute);
    SubGroupFacts(groups[key], attribute);
    var todo := subGroups.Keys;
    while todo != {}
      invariant todo <= subGroups.Keys
      invariant before.Keys <= split.Keys
      invariant forall v :: v in subGroups.Keys && v !in todo ==> Part(key, v).Key() in split
      invariant FromPieces(groups, attribute, split)
      decreases |todo|
    {
      var v :| v in todo;
      todo := todo - {v};
      PutPiece(groups, attribute, split, Part(key, v));
      split := split[key + "-" + v := subGroups[v]];
    }
    forall p | IsPiece(groups, attribute, p) && p.key == key ensures p.Key() in split {
      assert p == Part(key, p.value);
    }
  }

  lemma SubGroupFacts(devices: seq<TopologyDevice>, attribute: AttributeName)
    ensures var g := GroupBy(devices, ValueKey(attribute));
      && g.Keys == KeySet(devices, ValueKey(attribute))
      && forall v :: v in g ==> g[v] == Filter(devices, KeyIs(ValueKey(attribute), v))
  {
  }

  // ---------------------------------------------------------------------
  // Exact covers
  // ---------------------------------------------------------------------

  function In(part: seq<TopologyDevice>): TopologyDevice -> bool {
    d => d in part
  }

  /** Where a device sits. */
  predicate Sits(groups: Groups, d: TopologyDevice, k: string) {
    k in groups && d in groups[k]
  }

  /** No device is lost. */
  ghost predicate Covers(groups: Groups, devices: seq<TopologyDevice>) {
    forall d :: d in devices ==> exists k :: Sits(groups, d, k)
  }

  /** The groups are non-empty and disjoint, lose no device, and repeat `devices` in its own order and multiplicity. */
  ghost predicate IsPartition(groups: Groups, devices: seq<TopologyDevice>) {
    && Covers(groups, devices)
    && (forall k, k', d :: Sits(groups, d, k) && Sits(groups, d, k') ==> k == k')
    && (forall k :: k in groups ==> groups[k] != [] && groups[k] == Filter(devices, In(groups[k])))
  }

  ghost predicate CollisionFree(groups: Groups, attribute: AttributeName) {
    forall p, q :: IsPiece(groups, attribute, p) && IsPiece(groups, attribute, q) && p.Key() == q.Key() ==> p == q
  }

  /** The piece a device of group `k` goes to. */
  ghost function PieceOf(groups: Groups, attribute: AttributeName, d: TopologyDevice, k: string): (p: Piece)
    requires Sits(groups, d, k)
    ensures IsPiece(groups, attribute, p) && p.key == k && d in p.Devices(groups, attribute)
  {
    if Shares(groups[k], attribute) then Kept(k) else
      var v := ValueKey(attribute)(d);
      FilterMembers(groups[k], KeyIs(ValueKey(attribute), v));
      Part(k, v)
  }

  lemma PieceMembers(groups: Groups, attribute: AttributeName, p: Piece)
    requires IsPiece(groups, attribute, p) && groups[p.key] != []
    ensures p.Devices(groups, attribute) != []
    ensures forall d :: d in p.Devices(groups, attribute) ==>
      Sits(groups, d, p.key) && PieceOf(groups, attribute, d, p.key) == p
  {
    if p.Part? {
      FilterMembers(groups[p.key], KeyIs(ValueKey(attribute), p.value));
      var d :| d in groups[p.key] && ValueKey(attribute)(d) == p.value;
      assert d in p.Devices(groups, attribute);
    }
  }

  /** A piece lists its devices as the whole list does. */
  lemma PieceExact(groups: Groups, devices: seq<TopologyDevice>, attribute: AttributeName, p: Piece)
    requires IsPartition(groups, devices) && IsPiece(groups, attribute, p)
    ensures var part := p.Devices(groups, attribute); part == Filter(devices, In(part))
  {
    var whole, part := groups[p.key], p.Devices(groups, attribute);
    if p.Part? {
      var pick := KeyIs(ValueKey(attribute), p.value);
      FilterMembers(whole, pick);
      FilterTwice(devices, In(whole), pick, In(part));
    }
  }

  /** With unique keys the entry of a piece's key is that piece. */
  lemma EntryOf(groups: Groups, attribute: AttributeName, split: Groups, p: Piece)
    requires SplitsTo(groups, attribute, split) && CollisionFree(groups, attribute) && IsPiece(groups, attribute, p)
    ensures p.Key() in split && split[p.Key()] == p.Devices(groups, attribute)
  {
    var q :| Yields(groups, attribute, q, p.Key(), split[p.Key()]);
    assert q == p;
  }

  /** After a collision-free round a device sits where its piece went. */
  lemma SitsAfter(groups: Groups, devices: seq<TopologyDevice>, attribute: AttributeName, split: Groups,
                  d: TopologyDevice, k: string)
    requires IsPartition(groups, devices) && SplitsTo(groups, attribute, split)
    requires Sits(split, d, k)
    ensures exists p ::
      Yields(groups, attribute, p, k, split[k]) && Sits(groups, d, p.key) && PieceOf(groups, attribute, d, p.key) == p
  {
    var p :| Yields(groups, attribute, p, k, split[k]);
    PieceMembers(groups, attribute, p);
  }

  /** A round without key collisions refines an exact cover into an exact cover. */
  lemma RoundPartition(groups: Groups, devices: seq<TopologyDevice>, attribute: AttributeName, split: Groups)
    requires IsPartition(groups, devices) && SplitsTo(groups, attribute, split) && CollisionFree(groups, attribute)
    ensures IsPartition(split, devices)
  {
    forall d | d in devices ensures exists k :: Sits(split, d, k) {
      var k :| Sits(groups, d, k);
      var p := PieceOf(groups, attribute, d, k);
      EntryOf(groups, attribute, split, p);
      assert Sits(split, d, p.Key());
    }
    forall k, k', d | Sits(split, d, k) && Sits(split, d, k') ensures k == k' {
      SitsAfter(groups, devices, attribute, split, d, k);
      SitsAfter(groups, devices, attribute, split, d, k');
    }
    forall k | k in split ensures split[k] != [] && split[k] == Filter(devices, In(split[k])) {
      var p :| Yields(groups, attribute, p, k, split[k]);
      PieceMembers(groups, attribute, p);
      PieceExact(groups, devices, attribute, p);
    }
  }

  /** A device is in one piece only. */
  lemma OnePiece(groups: Groups, devices: seq<TopologyDevice>, attribute: AttributeName, d: TopologyDevice, p: Piece,
                 q: Piece)
    requires IsPartition(groups, devices)
    requires IsPiece(groups, attribute, p) && d in p.Devices(groups, attribute)
    requires IsPiece(groups, attribute, q) && d in q.Devices(groups, attribute)
    ensures p == q
  {
    PieceMembers(groups, attribute, p);
    PieceMembers(groups, attribute, q);
    assert Sits(groups, d, p.key) && Sits(groups, d, q.key);
  }

  /** When the key of a piece holds another piece, the devices of the first are gone. */
  lemma OverwrittenIsLost(groups: Groups, devices: seq<TopologyDevice>, attribute: AttributeName, split: Groups,
                          lost: Piece, winner: Piece)
    requires IsPartition(groups, devices) && SplitsTo(groups, attribute, split)
    requires IsPiece(groups, attribute, lost) && lost != winner
    requires Yields(groups, attribute, winner, lost.Key(), split[lost.Key()])
    ensures !Covers(split, devices)
  {
    PieceMembers(groups, attribute, lost);
    var d := lost.Devices(groups, attribute)[0];
    assert d in lost.Devices(groups, attribute);
    assert d in devices by { FilterMembers(devices, In(groups[lost.key])); }
    if Covers(split, devices) {
      var k :| Sits(split, d, k);
      var p :| Yields(groups, attribute, p, k, split[k]);
      OnePiece(groups, devices, attribute, d, p, lost);
      assert k == lost.Key();
      OnePiece(groups, devices, attribute, d, winner, lost);
    }
  }

  /** A round loses no device exactly when no two pieces are given the same key. */
  lemma RoundKeepsAllIff(groups: Groups, devices: seq<TopologyDevice>, attribute: AttributeName, split: Groups)
    requires IsPartition(groups, devices) && SplitsTo(groups, attribute, split)
    ensures Covers(split, devices) <==> CollisionFree(groups, attribute)
  {
    if CollisionFree(groups, attribute) {
      RoundPartition(groups, devices, attribute, split);
    } else {
      var p, q :| IsPiece(groups, attribute, p) && IsPiece(groups, attribute, q) && p.Key() == q.Key() && p != q;
      var winner :| Yields(groups, attribute, winner, p.Key(), split[p.Key()]);
      OverwrittenIsLost(groups, devices, attribute, split, if winner == p then q else p, winner);
    }
  }

  // ---------------------------------------------------------------------
  // When keys can collide
  // ---------------------------------------------------------------------

  /** No key continues another key after a '-'. */
  ghost predicate Separated(groups: Groups) {
    forall k, k' :: k in groups && k' in groups ==> !(k + "-" <= k')
  }

  /** Separated keys cannot collide in the next round, whatever the values are. */
  lemma SeparatedCollisionFree(groups: Groups, attribute: AttributeName)
    requires Separated(groups)
    ensures CollisionFree(groups, attribute)
  {
    forall p, q | IsPiece(groups, attribute, p) && IsPiece(groups, attribute, q) && p.Key() == q.Key() ensures p == q {
      assert p.Part? ==> p.key + "-" <= p.Key();
      assert q.Part? ==> q.key + "-" <= q.Key();
      if p.Part? && q.Part? {
        SameJoin(p.key, p.value, q.key, q.value);
      }
    }
  }

  lemma SameJoin(k: string, v: string, k': string, v': string)
    requires !(k + "-" <= k') && !(k' + "-" <= k) && k + "-" + v == k' + "-" + v'
    ensures k == k' && v == v'
  {
    var s := k + "-" + v;
    assert k + "-" == s[..|k| + 1] && k' + "-" == s[..|k'| + 1];
    assert k == s[..|k|] && k' == s[..|k'|];
    assert s[|k| + 1..] == v && (k' + "-" + v')[|k'| + 1..] == v';
  }

  /** No device renders a value of the attribute with a '-' in it. */
  ghost predicate PlainValues(devices: seq<TopologyDevice>, attribute: AttributeName) {
    forall d :: d in devices ==> '-' !in ValueKey(attribute)(d)
  }

  ghost predicate PlainGroups(groups: Groups, attribute: AttributeName) {
    forall k :: k in groups ==> PlainValues(groups[k], attribute)
  }

  lemma PlainPiece(groups: Groups, attribute: AttributeName, p: Piece)
    requires PlainGroups(groups, attribute) && IsPiece(groups, attribute, p) && p.Part?
    ensures '-' !in p.value
  {
    var d :| d in groups[p.key] && ValueKey(attribute)(d) == p.value;
  }

  /** In a text that ends in a dash-free value, a key followed by '-' ends at or before the last '-'. */
  lemma LastDash(k: string, v: string, k': string)
    requires '-' !in v && k' + "-" <= k + "-" + v
    ensures |k'| <= |k|
    ensures |k'| < |k| ==> k' + "-" <= k
    ensures |k'| == |k| ==> k' == k
  {
    var s := k + "-" + v;
    assert s[|k'|] == '-';
    assert forall i :: |k| < i < |s| ==> s[i] in v;
    assert k' == s[..|k'|] && k == s[..|k|];
  }

  /** Dash-free values keep the keys separated for the rounds to come. */
  lemma PlainStaysSeparated(groups: Groups, attribute: AttributeName, split: Groups)
    requires Separated(groups) && PlainGroups(groups, attribute) && SplitsTo(groups, attribute, split)
    ensures Separated(split)
  {
    forall k, k' | k in split && k' in split ensures !(k + "-" <= k') {
      var p :| Yields(groups, attribute, p, k, split[k]);
      var q :| Yields(groups, attribute, q, k', split[k']);
      if k + "-" <= k' {
        assert p.key + "-" <= k + "-";
        assert p.key + "-" <= k';
        if q.Part? {
          PlainPiece(groups, attribute, q);
          LastDash(q.key, q.value, k);
          LastDash(q.key, q.value, p.key);
        }
      }
    }
  }

  // ---------------------------------------------------------------------
  // All rounds
  // ---------------------------------------------------------------------

  /** The outcomes of splitting by the rules in the given order. */
  ghost predicate SplitsAll(groups: Groups, rules: seq<TopologyRule>, final: Groups) {
    if rules == [] then final == groups else
      var init, attribute := rules[..|rules| - 1], rules[|rules| - 1].attribute;
      exists mid :: SplitsAll(groups, init, mid) && SplitsTo(mid, attribute, final)
  }

  method SplitByRules(groups: Groups, rules: seq<TopologyRule>) returns (final: Groups)
    ensures SplitsAll(groups, rules, final)
  {
    final := groups;
    for i := 0 to |rules|
      invariant SplitsAll(groups, rules[..i], final)
    {
      ghost var mid := final;
      final := SplitRound(final, rules[i].attribute);
      assert rules[..i + 1][..i] == rules[..i];
      assert SplitsAll(groups, rules[..i], mid) && SplitsTo(mid, rules[..i + 1][i].attribute, final);
    }
    assert rules[..|rules|] == rules;
  }

  ghost predicate AllPlain(devices: seq<TopologyDevice>, rules: seq<TopologyRule>) {
    forall r :: r in rules ==> PlainValues(devices, r.attribute)
  }

  lemma PartitionMembers(groups: Groups, devices: seq<TopologyDevice>)
    requires IsPartition(groups, devices)
    ensures forall d, k :: Sits(groups, d, k) ==> d in devices
  {
    forall d, k | Sits(groups, d, k) ensures d in devices {
      FilterMembers(devices, In(groups[k]));
    }
  }

  lemma PlainMembers(groups: Groups, devices: seq<TopologyDevice>, attribute: AttributeName)
    requires IsPartition(groups, devices) && PlainValues(devices, attribute)
    ensures PlainGroups(groups, attribute)
  {
    PartitionMembers(groups, devices);
    forall k, d | k in groups && d in groups[k] ensures '-' !in ValueKey(attribute)(d) {
      assert Sits(groups, d, k);
    }
  }

  /** Pieces never hold devices that their group did not hold. */
  lemma RoundShares(groups: Groups, devices: seq<TopologyDevice>, attribute: AttributeName, split: Groups,
                    other: AttributeName)
    requires IsPartition(groups, devices) && SplitsTo(groups, attribute, split)
    requires other == attribute || forall k :: k in groups ==> Shares(groups[k], other)
    ensures forall k :: k in split ==> Shares(split[k], other)
  {
    forall k | k in split ensures Shares(split[k], other) {
      var p :| Yields(groups, attribute, p, k, split[k]);
      PieceMembers(groups, attribute, p);
      if p.Part? { FilterMembers(groups[p.key], KeyIs(ValueKey(attribute), p.value)); }
    }
  }

  /** Dash-free values: every round refines the cover and leaves separated keys. */
  lemma {:induction false} SplitSeparated(groups: Groups, devices: seq<TopologyDevice>, rules: seq<TopologyRule>,
                                          final: Groups)
    requires IsPartition(groups, devices) && Separated(groups) && AllPlain(devices, rules)
    requires SplitsAll(groups, rules, final)
    ensures IsPartition(final, devices) && Separated(final)
    ensures forall k, r :: k in final && r in rules ==> Shares(final[k], r.attribute)
  {
    hide IsPartition, Separated, SplitsTo, PlainValues, PlainGroups, CollisionFree, Shares;
    if rules != [] {
      var init, last := rules[..|rules| - 1], rules[|rules| - 1];
      var mid :| SplitsAll(groups, init, mid) && SplitsTo(mid, last.attribute, final);
      assert AllPlain(devices, init) && last in rules;
      SplitSeparated(groups, devices, init, mid);
      PlainMembers(mid, devices, last.attribute);
      PlainStaysSeparated(mid, last.attribute, final);
      LastRound(mid, devices, rules, final);
    }
  }

  lemma LastRound(mid: Groups, devices: seq<TopologyDevice>, rules: seq<TopologyRule>, final: Groups)
    requires rules != [] && IsPartition(mid, devices) && Separated(mid)
    requires SplitsTo(mid, rules[|rules| - 1].attribute, final)
    requires forall k, r :: k in mid && r in rules[..|rules| - 1] ==> Shares(mid[k], r.attribute)
    ensures IsPartition(final, devices)
    ensures forall k, r :: k in final && r in rules ==> Shares(final[k], r.attribute)
  {
    hide IsPartition, Separated, SplitsTo, CollisionFree, Shares;
    var init, last := rules[..|rules| - 1], rules[|rules| - 1];
    SeparatedCollisionFree(mid, last.attribute);
    RoundPartition(mid, devices, last.attribute, final);
    forall k, r | k in final && r in rules ensures Shares(final[k], r.attribute) {
      assert r in init || r == last;
      RoundShares(mid, devices, last.attribute, final, r.attribute);
    }
  }

  function Earlier(rules: seq<TopologyRule>): seq<TopologyRule> {
    if rules == [] then [] else rules[..|rules| - 1]
  }

  /** The final groups are an exact cover and each agrees on every rule, also on the rules applied before
      later splits, provided the rules before the last one have dash-free values. */
  lemma {:induction false} SplitSound(groups: Groups, devices: seq<TopologyDevice>, rules: seq<TopologyRule>,
                                      final: Groups)
    requires IsPartition(groups, devices) && Separated(groups) && AllPlain(devices, Earlier(rules))
    requires SplitsAll(groups, rules, final)
    ensures IsPartition(final, devices)
    ensures forall k, r :: k in final && r in rules ==> Shares(final[k], r.attribute)
  {
    hide IsPartition, Separated, SplitsTo, Shares;
    if rules != [] {
      var init, last := rules[..|rules| - 1], rules[|rules| - 1];
      var mid :| SplitsAll(groups, init, mid) && SplitsTo(mid, last.attribute, final);
      SplitSeparated(groups, devices, init, mid);
      LastRound(mid, devices, rules, final);
    }
  }

  // ---------------------------------------------------------------------
  // The groups as equivalence classes
  // ---------------------------------------------------------------------

  ghost predicate Together(groups: Groups, d: TopologyDevice, e: TopologyDevice) {
    exists k :: Sits(groups, d, k) && Sits(groups, e, k)
  }

  ghost predicate Carried(devices: seq<TopologyDevice>, attribute: AttributeName) {
    forall d :: d in devices ==> attribute in d.extended
  }

  /** A round separates two devices of one group exactly by their values, if all carry the attribute. */
  lemma RoundTogether(groups: Groups, devices: seq<TopologyDevice>, attribute: AttributeName, split: Groups,
                      d: TopologyDevice, e: TopologyDevice)
    requires IsPartition(groups, devices) && SplitsTo(groups, attribute, split) && CollisionFree(groups, attribute)
    requires Carried(devices, attribute)
    ensures Together(split, d, e) <==> Together(groups, d, e) && ValueKey(attribute)(d) == ValueKey(attribute)(e)
  {
    PartitionMembers(groups, devices);
    if Together(split, d, e) {
      var k :| Sits(split, d, k) && Sits(split, e, k);
      var p :| Yields(groups, attribute, p, k, split[k]);
      PieceMembers(groups, attribute, p);
      assert Sits(groups, d, p.key) && Sits(groups, e, p.key);
      assert ValueKey(attribute)(d) == ValueKey(attribute)(e);
    }
    if Together(groups, d, e) && ValueKey(attribute)(d) == ValueKey(attribute)(e) {
      var k :| Sits(groups, d, k) && Sits(groups, e, k);
      var p := PieceOf(groups, attribute, d, k);
      assert PieceOf(groups, attribute, e, k) == p;
      EntryOf(groups, attribute, split, p);
      assert Sits(split, d, p.Key()) && Sits(split, e, p.Key());
    }
  }

  ghost predicate SameValues(rules: seq<TopologyRule>, d: TopologyDevice, e: TopologyDevice) {
    forall r :: r in rules ==> ValueKey(r.attribute)(d) == ValueKey(r.attribute)(e)
  }

  /** If every device carries every rule attribute, the final groups are exactly the classes of devices
      that start together and agree on all rule values. */
  lemma {:induction false} SplitClasses(groups: Groups, devices: seq<TopologyDevice>, rules: seq<TopologyRule>,
                                        final: Groups,
                                        d: TopologyDevice, e: TopologyDevice)
    requires IsPartition(groups, devices) && Separated(groups) && AllPlain(devices, Earlier(rules))
    requires forall r :: r in rules ==> Carried(devices, r.attribute)
    requires SplitsAll(groups, rules, final)
    ensures Together(final, d, e) <==> Together(groups, d, e) && SameValues(rules, d, e)
  {
    hide IsPartition, Separated, SplitsTo, Together, PlainValues, PlainGroups, CollisionFree, Carried, Shares;
    if rules != [] {
      var init, last := rules[..|rules| - 1], rules[|rules| - 1];
      var mid :| SplitsAll(groups, init, mid) && SplitsTo(mid, last.attribute, final);
      assert forall r :: r in Earlier(init) ==> r in init;
      SplitSeparated(groups, devices, init, mid);
      SplitClasses(groups, devices, init, mid, d, e);
      SeparatedCollisionFree(mid, last.attribute);
      RoundTogether(mid, devices, last.attribute, final, d, e);
      assert forall r :: r in rules <==> r in init || r == last;
    }
  }

  /** Exact covers that put the same devices together have the same groups. */
  lemma SameClassesSameGroups(g: Groups, h: Groups, devices: seq<TopologyDevice>)
    requires IsPartition(g, devices) && IsPartition(h, devices)
    requires forall d, e :: Together(g, d, e) ==> Together(h, d, e)
    requires forall d, e :: Together(h, d, e) ==> Together(g, d, e)
    ensures forall k :: k in g ==> exists k' :: k' in h && h[k'] == g[k]
  {
    PartitionMembers(g, devices);
    forall k | k in g ensures exists k' :: k' in h && h[k'] == g[k] {
      var d := g[k][0];
      assert Sits(g, d, k);
      var k' :| Sits(h, d, k');
      forall e ensures e in g[k] <==> e in h[k'] {
        if e in g[k] {
          assert Sits(g, e, k) && Together(g, d, e);
          var k2 :| Sits(h, d, k2) && Sits(h, e, k2);
        }
        if e in h[k'] {
          assert Sits(h, e, k') && Together(h, d, e);
          var k2 :| Sits(g, d, k2) && Sits(g, e, k2);
        }
      }
      FilterSame(devices, In(g[k]), In(h[k']));
    }
  }

  /** Then the order in which the rules arrive does not matter. */
  lemma {:induction false} RuleOrderIrrelevant(groups: Groups, devices: seq<TopologyDevice>, rules: seq<TopologyRule>,
                                               final: Groups,
                                               rules': seq<TopologyRule>, final': Groups)
    requires IsPartition(groups, devices) && Separated(groups) && AllPlain(devices, rules)
    requires forall r :: r in rules ==> Carried(devices, r.attribute)
    requires forall r :: r in rules <==> r in rules'
    requires SplitsAll(groups, rules, final) && SplitsAll(groups, rules', final')
    ensures forall k :: k in final ==> exists k' :: k' in final' && final'[k'] == final[k]
  {
    hide SplitsAll;
    assert AllPlain(devices, rules');
    assert AllPlain(devices, Earlier(rules)) && AllPlain(devices, Earlier(rules'));
    SplitSound(groups, devices, rules, final);
    SplitSound(groups, devices, rules', final');
    forall d, e ensures Together(final, d, e) <==> Together(final', d, e) {
      SplitClasses(groups, devices, rules, final, d, e);
      SplitClasses(groups, devices, rules', final', d, e);
      assert SameValues(rules, d, e) == SameValues(rules', d, e);
    }
    SameClassesSameGroups(final, final', devices);
  }
}
