/** Deduplication of overlapping partitionable devices: variants that draw on the same counter
    set are one physical resource and are represented by their largest variant. */
module CounterGroups {
  import opened Collections
  import opened Text
  import opened Topology

  datatype GroupKey = GroupKey(driver: string, pool: string, counterSet: string)

  datatype PhysicalResourceGroup = PhysicalResourceGroup(key: GroupKey, devices: seq<TopologyDevice>, maxEffective: int)

  predicate KeyLeq(a: GroupKey, b: GroupKey) {
    if a.driver != b.driver then StringLeq(a.driver, b.driver)
    else if a.pool != b.pool then StringLeq(a.pool, b.pool)
    else StringLeq(a.counterSet, b.counterSet)
  }

  lemma KeyOrder()
    ensures TotalOrder(KeyLeq)
  {
    StringOrder();
    forall a, b, c | KeyLeq(a, b) && KeyLeq(b, c) ensures KeyLeq(a, c) {
      assert StringLeq(a.driver, b.driver) && StringLeq(b.driver, c.driver);
      assert StringLeq(a.driver, c.driver);
    }
  }

  function SortedKeys(s: set<GroupKey>): (r: seq<GroupKey>)
    ensures forall k :: k in r <==> k in s
    ensures |r| == |s|
  {
    KeyOrder();
    Sorted(s, KeyLeq)
  }

  lemma SortedKeysDistinct(s: set<GroupKey>)
    ensures Distinct(SortedKeys(s))
  {
    KeyOrder();
    SortedAscending(s, KeyLeq);
  }

  /** A device that draws on no shared counter set. */
  predicate Standalone(d: TopologyDevice) {
    d.consumes == []
  }

  /** The physical resource of a partitionable device: its first counter set reference. */
  function CounterKey(d: TopologyDevice): Option<GroupKey> {
    if d.consumes == [] then None
    else Some(GroupKey(d.driverName, d.poolName, d.consumes[0].counterSet))
  }

  function CounterKeys(devices: seq<TopologyDevice>): set<GroupKey> {
    set d | d in devices && CounterKey(d).Some? :: CounterKey(d).value
  }

  /** The variants of one physical resource. */
  function Variants(devices: seq<TopologyDevice>, k: GroupKey): seq<TopologyDevice> {
    Filter(devices, KeyIs(CounterKey, Some(k)))
  }

  lemma VariantsMembers(devices: seq<TopologyDevice>, k: GroupKey)
    ensures forall d :: d in Variants(devices, k) <==> d in devices && CounterKey(d) == Some(k)
    ensures k in CounterKeys(devices) <==> Variants(devices, k) != []
  {
    FilterMembers(devices, KeyIs(CounterKey, Some(k)));
    assert Variants(devices, k) != [] ==> Variants(devices, k)[0] in Variants(devices, k);
  }

  // ---------------------------------------------------------------------
  // Representatives
  // ---------------------------------------------------------------------

  function Total(consumes: seq<CounterConsumption>): int {
    if consumes == [] then 0 else Total(consumes[..|consumes| - 1]) + Sum(consumes[|consumes| - 1].amounts)
  }

  method TotalCounterConsumption(consumes: seq<CounterConsumption>) returns (total: int)
    ensures total == Total(consumes)
  {
    total := 0;
    for i := 0 to |consumes|
      invariant total == Total(consumes[..i])
    {
      ghost var before := total;
      var amounts := consumes[i].amounts;
      for j := 0 to |amounts|
        invariant total == before + Sum(amounts[..j])
      {
        SumStep(amounts, j);
        total := total + amounts[j];
      }
      assert amounts[..|amounts|] == amounts;
      assert consumes[..i + 1][..i] == consumes[..i];
    }
    assert consumes[..|consumes|] == consumes;
  }

  /** The first of the largest variants. */
  function Representative(variants: seq<TopologyDevice>): (r: TopologyDevice)
    requires variants != []
    ensures r in variants
  {
    var last := variants[|variants| - 1];
    if |variants| == 1 then last else
      var best := Representative(variants[..|variants| - 1]);
      if Total(last.consumes) > Total(best.consumes) then last else best
  }

  /** No variant is larger than the representative. */
  lemma {:induction false} RepresentativeLargest(variants: seq<TopologyDevice>)
    requires variants != []
    ensures forall d :: d in variants ==> Total(d.consumes) <= Total(Representative(variants).consumes)
  {
    if |variants| > 1 {
      var init, last := variants[..|variants| - 1], variants[|variants| - 1];
      RepresentativeLargest(init);
      assert variants == init + [last];
    }
  }

  method SelectRepresentative(devices: seq<TopologyDevice>) returns (best: TopologyDevice)
    requires devices != []
    ensures best == Representative(devices)
  {
    if |devices| == 1 { return devices[0]; }
    best := devices[0];
    var bestTotal := TotalCounterConsumption(best.consumes);
    for i := 1 to |devices|
      invariant best == Representative(devices[..i])
      invariant bestTotal == Total(best.consumes)
    {
      var total := TotalCounterConsumption(devices[i].consumes);
      assert devices[..i + 1][..i] == devices[..i];
      if total > bestTotal {
        best, bestTotal := devices[i], total;
      }
    }
    assert devices[..|devices|] == devices;
  }

  // ---------------------------------------------------------------------
  // Grouping and filtering
  // ---------------------------------------------------------------------

  function GroupFor(devices: seq<TopologyDevice>, k: GroupKey): PhysicalResourceGroup {
    PhysicalResourceGroup(k, Variants(devices, k), 1)
  }

  function GroupsFor(devices: seq<TopologyDevice>, keys: seq<GroupKey>): (r: seq<PhysicalResourceGroup>)
    ensures |r| == |keys|
  {
    seq(|keys|, i requires 0 <= i < |keys| => GroupFor(devices, keys[i]))
  }

  function GroupMap(devices: seq<TopologyDevice>): map<GroupKey, seq<TopologyDevice>> {
    map k | k in CounterKeys(devices) :: Variants(devices, k)
  }

  lemma CounterKeysSnoc(devices: seq<TopologyDevice>, d: TopologyDevice)
    ensures CounterKeys(devices + [d]) == CounterKeys(devices) +
      if CounterKey(d).None? then {} else {CounterKey(d).value}
  {
    forall k ensures k in CounterKeys(devices + [d]) <==> k in CounterKeys(devices) || CounterKey(d) == Some(k) {
      VariantsMembers(devices, k);
      VariantsMembers(devices + [d], k);
      FilterSnoc(devices, d, KeyIs(CounterKey, Some(k)));
    }
  }

  lemma VariantsSnoc(devices: seq<TopologyDevice>, d: TopologyDevice, k: GroupKey)
    ensures Variants(devices + [d], k) == Variants(devices, k) + if CounterKey(d) == Some(k) then [d] else []
    ensures k !in CounterKeys(devices) ==> Variants(devices, k) == []
  {
    FilterSnoc(devices, d, KeyIs(CounterKey, Some(k)));
    VariantsMembers(devices, k);
  }

  lemma GroupMapSnoc(devices: seq<TopologyDevice>, d: TopologyDevice)
    ensures GroupMap(devices + [d]) ==
      if CounterKey(d).None? then GroupMap(devices) else Append(GroupMap(devices), CounterKey(d).value, d)
  {
    hide Variants;
    hide CounterKeys;
    CounterKeysSnoc(devices, d);
    forall k
      ensures Variants(devices + [d], k) == Variants(devices, k) + if CounterKey(d) == Some(k) then [d] else []
      ensures k !in CounterKeys(devices) ==> Variants(devices, k) == []
    {
      VariantsSnoc(devices, d, k);
    }
    var before, after := GroupMap(devices), GroupMap(devices + [d]);
    if CounterKey(d).Some? {
      var k0 := CounterKey(d).value;
      assert after.Keys == Append(before, k0, d).Keys;
      forall k | k in after ensures after[k] == Append(before, k0, d)[k] {
        assert k == k0 && k !in before ==> [] + [d] == [d];
      }
      assert after == Append(before, k0, d);
    } else {
      forall k | k in after ensures after[k] == before[k] {
        assert Variants(devices, k) + [] == Variants(devices, k);
      }
    }
  }

  lemma EmptyGroupMap()
    ensures GroupMap([]) == map[]
  {
  }

  method GroupOverlappingDevices(devices: seq<TopologyDevice>)
    returns (nonOverlapping: seq<TopologyDevice>, groups: seq<PhysicalResourceGroup>)
    ensures nonOverlapping == Filter(devices, Standalone)
    ensures groups == GroupsFor(devices, SortedKeys(CounterKeys(devices)))
  {
    hide GroupMap;
    nonOverlapping := [];
    assert GroupMap(devices[..0]) == map[] by { EmptyGroupMap(); }
    var groupMap: map<GroupKey, seq<TopologyDevice>> := map[];
    for i := 0 to |devices|
      invariant nonOverlapping == Filter(devices[..i], Standalone)
      invariant groupMap == GroupMap(devices[..i])
    {
      var d := devices[i];
      FilterStep(devices, i, Standalone);
      GroupMapSnoc(devices[..i], d);
      assert devices[..i + 1] == devices[..i] + [d];
      if d.consumes == [] {
        nonOverlapping := nonOverlapping + [d];
      } else {
        var key := GroupKey(d.driverName, d.poolName, d.consumes[0].counterSet);
        assert [] + [d] == [d];
        if key in groupMap {
          groupMap := groupMap[key := groupMap[key] + [d]];
        } else {
          groupMap := groupMap[key := [d]];
        }
      }
    }
    assert devices[..|devices|] == devices;
    groups := CollectGroups(devices, groupMap);
  }

  method CollectGroups(ghost devices: seq<TopologyDevice>, groupMap: map<GroupKey, seq<TopologyDevice>>)
    returns (groups: seq<PhysicalResourceGroup>)
    requires groupMap == GroupMap(devices)
    ensures groups == GroupsFor(devices, SortedKeys(CounterKeys(devices)))
  {
    hide SortedKeys;
    hide Variants;
    groups := [];
    var keys := SortedKeys(groupMap.Keys);
    for i := 0 to |keys|
      invariant groups == GroupsFor(devices, keys[..i])
    {
      var k := keys[i];
      assert k in groupMap;
      VariantsMembers(devices, k);
      var maxEffective := ComputeMaxEffective(groupMap[k]);
      groups := groups + [PhysicalResourceGroup(k, groupMap[k], maxEffective)];
      GroupsForStep(devices, keys, i);
    }
    assert keys[..|keys|] == keys;
    assert groupMap.Keys == CounterKeys(devices);
  }

  lemma GroupsForStep(devices: seq<TopologyDevice>, keys: seq<GroupKey>, i: nat)
    requires i < |keys|
    ensures GroupsFor(devices, keys[..i + 1]) == GroupsFor(devices, keys[..i]) + [GroupFor(devices, keys[i])]
  {
  }

  /** A counter set is one physical resource, however many variants it has. */
  function ComputeMaxEffective(devices: seq<TopologyDevice>): int {
    if devices == [] then 0 else 1
  }

  /** The representative of a physical resource that occurs in the list. */
  function RepresentativeOf(devices: seq<TopologyDevice>, k: GroupKey): (r: TopologyDevice)
    requires k in CounterKeys(devices)
    ensures r in devices && CounterKey(r) == Some(k)
  {
    VariantsMembers(devices, k);
    Representative(Variants(devices, k))
  }

  function Representatives(devices: seq<TopologyDevice>, keys: seq<GroupKey>): (r: seq<TopologyDevice>)
    requires forall k :: k in keys ==> k in CounterKeys(devices)
    ensures |r| == |keys|
  {
    if keys == [] then [] else
      Representatives(devices, keys[..|keys| - 1]) + [RepresentativeOf(devices, keys[|keys| - 1])]
  }

  /** The effective devices: the standalone ones, then a representative per physical resource. */
  function Effective(devices: seq<TopologyDevice>): seq<TopologyDevice> {
    Filter(devices, Standalone) + Representatives(devices, SortedKeys(CounterKeys(devices)))
  }

  method FilterToEffectiveDevices(devices: seq<TopologyDevice>) returns (result: seq<TopologyDevice>)
    ensures result == Effective(devices)
  {
    hide SortedKeys;
    hide CounterKeys;
    var nonOverlapping, groups := GroupOverlappingDevices(devices);
    result := nonOverlapping;
    ghost var keys := SortedKeys(CounterKeys(devices));
    for i := 0 to |groups|
      invariant result == nonOverlapping + Representatives(devices, keys[..i])
    {
      VariantsMembers(devices, keys[i]);
      var rep := SelectRepresentative(groups[i].devices);
      result := result + [rep];
      assert keys[..i + 1][..i] == keys[..i];
    }
    assert keys[..|keys|] == keys;
  }

  // ---------------------------------------------------------------------
  // Facts about the effective devices
  // ---------------------------------------------------------------------

  lemma {:induction false} RepresentativesAt(devices: seq<TopologyDevice>, keys: seq<GroupKey>, i: nat)
    requires forall k :: k in keys ==> k in CounterKeys(devices)
    requires i < |keys|
    ensures Representatives(devices, keys)[i] == RepresentativeOf(devices, keys[i])
  {
    if i < |keys| - 1 { RepresentativesAt(devices, keys[..|keys| - 1], i); }
  }

  lemma RepresentativesMembers(devices: seq<TopologyDevice>, keys: seq<GroupKey>)
    requires forall k :: k in keys ==> k in CounterKeys(devices)
    ensures forall d :: d in Representatives(devices, keys) ==> d in devices && CounterKey(d).Some?
  {
    forall d | d in Representatives(devices, keys) ensures d in devices && CounterKey(d).Some? {
      var i :| 0 <= i < |keys| && Representatives(devices, keys)[i] == d;
      RepresentativesAt(devices, keys, i);
    }
  }

  /** Distinct keys: a physical resource has at most one representative. */
  lemma {:induction false} RepresentativesOf(devices: seq<TopologyDevice>, keys: seq<GroupKey>, k: GroupKey)
    requires forall k :: k in keys ==> k in CounterKeys(devices)
    requires Distinct(keys)
    ensures Variants(Representatives(devices, keys), k) == if k in keys then [RepresentativeOf(devices, k)] else []
  {
    hide Filter, RepresentativeOf, CounterKeys;
    if keys == [] {
      FilterNone<TopologyDevice>([], KeyIs(CounterKey, Some(k)));
    } else {
      var init, last := keys[..|keys| - 1], keys[|keys| - 1];
      RepresentativesOf(devices, init, k);
      FilterSnoc(Representatives(devices, init), RepresentativeOf(devices, last), KeyIs(CounterKey, Some(k)));
      assert keys == init + [last];
      assert last !in init;
    }
  }

  lemma EffectiveVariants(devices: seq<TopologyDevice>, k: GroupKey)
    ensures Variants(Effective(devices), k) ==
      if k in CounterKeys(devices) then [RepresentativeOf(devices, k)] else []
  {
    var n, keys := Filter(devices, Standalone), SortedKeys(CounterKeys(devices));
    SortedKeysDistinct(CounterKeys(devices));
    RepresentativesOf(devices, keys, k);
    FilterMembers(devices, Standalone);
    FilterNone(n, KeyIs(CounterKey, Some(k)));
    FilterConcat(n, Representatives(devices, keys), KeyIs(CounterKey, Some(k)));
  }

  lemma EffectiveKeys(devices: seq<TopologyDevice>)
    ensures CounterKeys(Effective(devices)) == CounterKeys(devices)
  {
    forall k ensures k in CounterKeys(Effective(devices)) <==> k in CounterKeys(devices) {
      EffectiveVariants(devices, k);
      VariantsMembers(Effective(devices), k);
    }
  }

  lemma EffectiveMembers(devices: seq<TopologyDevice>)
    ensures forall d :: d in Effective(devices) ==> d in devices
    ensures Filter(Effective(devices), Standalone) == Filter(devices, Standalone)
  {
    var n, keys := Filter(devices, Standalone), SortedKeys(CounterKeys(devices));
    var reps := Representatives(devices, keys);
    FilterMembers(devices, Standalone);
    RepresentativesMembers(devices, keys);
    FilterConcat(n, reps, Standalone);
    FilterAll(n, Standalone);
    FilterNone(reps, Standalone);
  }

  lemma {:induction false} RepresentativesSame(a: seq<TopologyDevice>, b: seq<TopologyDevice>, keys: seq<GroupKey>)
    requires forall k :: k in keys ==> k in CounterKeys(a) && k in CounterKeys(b)
    requires forall k :: k in keys ==> RepresentativeOf(a, k) == RepresentativeOf(b, k)
    ensures Representatives(a, keys) == Representatives(b, keys)
  {
    if keys != [] { RepresentativesSame(a, b, keys[..|keys| - 1]); }
  }

  /** Filtering to effective devices a second time changes nothing. */
  lemma {:induction false} EffectiveIdempotent(devices: seq<TopologyDevice>)
    ensures Effective(Effective(devices)) == Effective(devices)
  {
    var e, keys := Effective(devices), SortedKeys(CounterKeys(devices));
    assert Filter(e, Standalone) == Filter(devices, Standalone) by { EffectiveMembers(devices); }
    EffectiveKeys(devices);
    assert Representatives(e, keys) == Representatives(devices, keys) by {
      forall k | k in keys ensures RepresentativeOf(e, k) == RepresentativeOf(devices, k) {
        EffectiveVariants(devices, k);
      }
      RepresentativesSame(e, devices, keys);
    }
  }

  /** Effective devices are drawn from the list: none is invented and none is repeated. */
  lemma EffectiveSubset(devices: seq<TopologyDevice>)
    ensures multiset(Effective(devices)) <= multiset(devices)
  {
    var e := Effective(devices);
    forall d ensures multiset(e)[d] <= multiset(devices)[d] {
      EffectiveMembers(devices);
      FilterMultiset(e, Standalone);
      FilterMultiset(devices, Standalone);
      if !Standalone(d) && d in e {
        var k := CounterKey(d).value;
        EffectiveVariants(devices, k);
        FilterMultiset(e, KeyIs(CounterKey, Some(k)));
        assert multiset(e)[d] == multiset(Variants(e, k))[d] <= |Variants(e, k)|;
        assert d in devices;
      }
    }
  }

  ghost predicate ByDriver(p: TopologyDevice -> bool) {
    forall d: TopologyDevice, e: TopologyDevice :: d.driverName == e.driverName ==> p(d) == p(e)
  }

  lemma {:induction false} RepresentativesCount(a: seq<TopologyDevice>, b: seq<TopologyDevice>, keys: seq<GroupKey>,
                                                p: TopologyDevice -> bool)
    requires forall k :: k in keys ==> k in CounterKeys(a) && k in CounterKeys(b)
    requires ByDriver(p)
    ensures |Filter(Representatives(a, keys), p)| == |Filter(Representatives(b, keys), p)|
  {
    if keys != [] {
      var init := keys[..|keys| - 1];
      RepresentativesCount(a, b, init, p);
      var ra, rb := RepresentativeOf(a, keys[|init|]), RepresentativeOf(b, keys[|init|]);
      assert ra.driverName == rb.driverName;
      FilterSnoc(Representatives(a, init), ra, p);
      FilterSnoc(Representatives(b, init), rb, p);
    }
  }

  /** Reordering the devices may change which variant is chosen, never how many devices of a driver remain. */
  lemma EffectivePermutation(a: seq<TopologyDevice>, b: seq<TopologyDevice>, p: TopologyDevice -> bool)
    requires multiset(a) == multiset(b) && ByDriver(p)
    ensures |Filter(Effective(a), p)| == |Filter(Effective(b), p)|
  {
    PermutationMembers(a, b);
    assert CounterKeys(a) == CounterKeys(b);
    var keys := SortedKeys(CounterKeys(a));
    RepresentativesCount(a, b, keys, p);
    FilterPermutation(a, b, Standalone);
    FilterPermutation(Filter(a, Standalone), Filter(b, Standalone), p);
    FilterConcat(Filter(a, Standalone), Representatives(a, keys), p);
    FilterConcat(Filter(b, Standalone), Representatives(b, keys), p);
  }

  // ---------------------------------------------------------------------
  // Effective counts
  // ---------------------------------------------------------------------

  /** Devices per base driver. */
  function Tally(devices: seq<TopologyDevice>): map<string, int> {
    map b | b in KeySet(devices, Base) :: |Filter(devices, KeyIs(Base, b))|
  }

  function Bump(counts: map<string, int>, b: string, n: int): map<string, int> {
    counts[b := (if b in counts then counts[b] else 0) + n]
  }

  lemma TallySnoc(devices: seq<TopologyDevice>, d: TopologyDevice)
    ensures Tally(devices + [d]) == Bump(Tally(devices), Base(d), 1)
  {
    var all := devices + [d];
    assert KeySet(all, Base) == KeySet(devices, Base) + {Base(d)};
    forall b | b in KeySet(all, Base) ensures Tally(all)[b] == Bump(Tally(devices), Base(d), 1)[b] {
      FilterSnoc(devices, d, KeyIs(Base, b));
      if b !in KeySet(devices, Base) {
        FilterNone(devices, KeyIs(Base, b));
      }
    }
  }

  /** The count per driver that deduplicates overlapping variants is the tally of the effective devices. */
  method EffectiveDeviceCount(devices: seq<TopologyDevice>) returns (counts: map<string, int>)
    ensures counts == Tally(Effective(devices))
  {
    hide SortedKeys, Effective, Tally, CounterKeys, Representatives;
    var nonOverlapping, groups := GroupOverlappingDevices(devices);
    counts := map[];
    NothingTallied();
    for i := 0 to |nonOverlapping|
      invariant counts == Tally(nonOverlapping[..i])
    {
      TallySnoc(nonOverlapping[..i], nonOverlapping[i]);
      assert nonOverlapping[..i + 1] == nonOverlapping[..i] + [nonOverlapping[i]];
      counts := Bump(counts, Base(nonOverlapping[i]), 1);
    }
    assert nonOverlapping[..|nonOverlapping|] == nonOverlapping;
    counts := AddGroups(devices, nonOverlapping, groups, counts);
  }

  lemma NothingTallied()
    ensures Tally([]) == map[]
  {
  }

  method AddGroups(ghost devices: seq<TopologyDevice>, ghost first: seq<TopologyDevice>,
                   groups: seq<PhysicalResourceGroup>, start: map<string, int>) returns (counts: map<string, int>)
    requires first == Filter(devices, Standalone) && start == Tally(first)
    requires groups == GroupsFor(devices, SortedKeys(CounterKeys(devices)))
    ensures counts == Tally(Effective(devices))
  {
    hide Tally;
    hide SortedKeys;
    hide CounterKeys;
    counts := start;
    ghost var keys := SortedKeys(CounterKeys(devices));
    ghost var reps := Representatives(devices, keys);
    assert first + reps[..0] == first;
    for i := 0 to |groups|
      invariant counts == Tally(first + reps[..i])
    {
      RepresentativesAt(devices, keys, i);
      TallySnoc(first + reps[..i], reps[i]);
      assert first + reps[..i + 1] == first + reps[..i] + [reps[i]];
      counts := Bump(counts, BaseDriver(groups[i].key.driver), groups[i].maxEffective);
    }
    assert reps[..|reps|] == reps;
  }
}
