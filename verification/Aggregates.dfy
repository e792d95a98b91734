/** Aggregate classes: one per profile and partition type, holding the devices that every partition of
    the type can offer. */
module Aggregates {
  import opened Collections
  import opened Topology
  import opened PartitionBuilder
  import opened PartitionConfigs

  /** What is kept for every partition key: a representative and how many partitions share the key. */
  datatype Entry = Entry(profile: string, partType: PartitionType, rep: Partition, config: PartitionConfig,
    coupling: Coupling, count: int)

  type Seen = map<string, Entry>

  datatype AggregateKey = AggregateKey(profile: string, partType: PartitionType)

  datatype AggregateState = AggregateState(
    driverSeen: map<string, int>,
    minCounts: map<string, int>,
    devices: seq<TopologyDevice>,
    partitionNumas: seq<int>,
    total: int,
    count: int)

  // ---------------------------------------------------------------------
  // What a state must say about the entries it covers
  // ---------------------------------------------------------------------

  /** The covered entries that have a driver. */
  function Having(seen: Seen, members: set<string>, driver: string): set<string> {
    set k | k in members && k in seen && driver in seen[k].rep.deviceCounts
  }

  ghost predicate IsMinimum(seen: Seen, members: set<string>, driver: string, m: int) {
    && (forall k :: k in Having(seen, members, driver) ==> m <= seen[k].rep.deviceCounts[driver])
    && (exists k :: k in Having(seen, members, driver) && m == seen[k].rep.deviceCounts[driver])
  }

  ghost predicate HoldsDevice(seen: Seen, members: set<string>, d: TopologyDevice) {
    exists k :: k in members && k in seen && d in seen[k].rep.devices
  }

  ghost predicate HasPrimaryNuma(seen: Seen, members: set<string>, n: int) {
    exists k :: k in members && k in seen && seen[k].rep.numaNodes != [] && seen[k].rep.numaNodes[0] == n
  }

  function CountOf(seen: Seen): string -> int {
    k => if k in seen then seen[k].count else 0
  }

  ghost predicate DriverOk(seen: Seen, members: set<string>, driver: string, driverSeen: map<string, int>,
                           minCounts: map<string, int>) {
    var having := Having(seen, members, driver);
    && (driver in driverSeen <==> having != {}) && (driver in minCounts <==> having != {})
    && (driver in driverSeen ==> driverSeen[driver] == |having|)
    && (driver in minCounts ==> IsMinimum(seen, members, driver, minCounts[driver]))
  }

  ghost predicate DriversOk(seen: Seen, members: set<string>, st: AggregateState) {
    forall driver :: DriverOk(seen, members, driver, st.driverSeen, st.minCounts)
  }

  ghost predicate PlacesOk(seen: Seen, members: set<string>, st: AggregateState) {
    && (forall d :: d in st.devices <==> HoldsDevice(seen, members, d))
    && (forall n :: n in st.partitionNumas <==> HasPrimaryNuma(seen, members, n))
  }

  ghost predicate StateFor(seen: Seen, members: set<string>, st: AggregateState) {
    && DriversOk(seen, members, st) && PlacesOk(seen, members, st)
    && st.total == |members| && st.count == SumSet(members, CountOf(seen))
  }

  // ---------------------------------------------------------------------
  // Adding an entry
  // ---------------------------------------------------------------------

  const EMPTY_STATE := AggregateState(map[], map[], [], [], 0, 0)

  function Seen1(before: map<string, int>, counts: map<string, int>): map<string, int> {
    map d | d in before.Keys + counts.Keys :: CountIn(before, d) + if d in counts then 1 else 0
  }

  function Min1(before: map<string, int>, counts: map<string, int>): map<string, int> {
    map d | d in before.Keys + counts.Keys ::
      if d !in counts then CountIn(before, d)
      else if d !in before || counts[d] < before[d] then counts[d]
      else before[d]
  }

  function Extend(st: AggregateState, e: Entry): AggregateState {
    AggregateState(Seen1(st.driverSeen, e.rep.deviceCounts), Min1(st.minCounts, e.rep.deviceCounts),
      st.devices + e.rep.devices, st.partitionNumas + (if e.rep.numaNodes != [] then [e.rep.numaNodes[0]] else []),
      st.total + 1, st.count + e.count)
  }

  /** The counts that a walk over the map has visited. */
  function Visited(counts: map<string, int>, todo: set<string>): map<string, int> {
    map d | d in counts && d !in todo :: counts[d]
  }

  lemma VisitOne(before: map<string, int>, done: map<string, int>, d: string, n: int)
    requires d !in done
    ensures Seen1(before, done[d := n]) == Seen1(before, done)[d := CountIn(Seen1(before, done), d) + 1]
    ensures var m := Min1(before, done);
      Min1(before, done[d := n]) == if d !in m || n < m[d] then m[d := n] else m
  {
    VisitOneSeen(before, done, d, n);
    VisitOneMin(before, done, d, n);
  }

  lemma VisitOneSeen(before: map<string, int>, done: map<string, int>, d: string, n: int)
    requires d !in done
    ensures Seen1(before, done[d := n]) == Seen1(before, done)[d := CountIn(Seen1(before, done), d) + 1]
  {
    var was, now := Seen1(before, done), Seen1(before, done[d := n]);
    assert now.Keys == was.Keys + {d};
  }

  lemma VisitOneMin(before: map<string, int>, done: map<string, int>, d: string, n: int)
    requires d !in done
    ensures var m := Min1(before, done);
      Min1(before, done[d := n]) == if d !in m || n < m[d] then m[d := n] else m
  {
    var was, now := Min1(before, done), Min1(before, done[d := n]);
    assert now.Keys == was.Keys + {d};
  }

  method ExtendState(st: AggregateState, e: Entry) returns (r: AggregateState)
    ensures r == Extend(st, e)
  {
    hide Seen1, Min1;
    var driverSeen, minCounts := st.driverSeen, st.minCounts;
    var counts := e.rep.deviceCounts;
    var todo := counts.Keys;
    assert Visited(counts, todo) == map[];
    NothingVisited(st.driverSeen);
    NothingVisited(st.minCounts);
    while todo != {}
      invariant todo <= counts.Keys
      invariant driverSeen == Seen1(st.driverSeen, Visited(counts, todo))
      invariant minCounts == Min1(st.minCounts, Visited(counts, todo))
      decreases |todo|
    {
      var d :| d in todo;
      VisitOne(st.driverSeen, Visited(counts, todo), d, counts[d]);
      VisitOne(st.minCounts, Visited(counts, todo), d, counts[d]);
      assert Visited(counts, todo - {d}) == Visited(counts, todo)[d := counts[d]];
      todo := todo - {d};
      driverSeen := driverSeen[d := CountIn(driverSeen, d) + 1];
      if d !in minCounts || counts[d] < minCounts[d] { minCounts := minCounts[d := counts[d]]; }
    }
    assert Visited(counts, todo) == counts;
    var numas := st.partitionNumas;
    if e.rep.numaNodes != [] { numas := numas + [e.rep.numaNodes[0]]; }
    r := AggregateState(driverSeen, minCounts, st.devices + e.rep.devices, numas, st.total + 1, st.count + e.count);
  }

  lemma NothingVisited(before: map<string, int>)
    ensures Seen1(before, map[]) == before && Min1(before, map[]) == before
  {
  }

  lemma HavingAdd(seen: Seen, members: set<string>, k: string, driver: string)
    requires k in seen && k !in members
    ensures Having(seen, members + {k}, driver) == Having(seen, members, driver) +
      if driver in seen[k].rep.deviceCounts then {k} else {}
    ensures k !in Having(seen, members, driver)
  {
  }

  lemma MinimumAdd(seen: Seen, members: set<string>, k: string, driver: string, m: int)
    requires k in seen && k !in members && driver in seen[k].rep.deviceCounts
    requires Having(seen, members, driver) == {} || IsMinimum(seen, members, driver, m)
    ensures var c := seen[k].rep.deviceCounts[driver];
      IsMinimum(seen, members + {k}, driver, if Having(seen, members, driver) == {} || c < m then c else m)
  {
    hide Having;
    HavingAdd(seen, members, k, driver);
    HavingSeen(seen, members, driver);
    var before, after := Having(seen, members, driver), Having(seen, members + {k}, driver);
    assert k in after;
    if before != {} {
      var j :| j in before && m == seen[j].rep.deviceCounts[driver];
      assert j in after;
    }
  }

  lemma DriverAdd(seen: Seen, members: set<string>, k: string, driver: string, driverSeen: map<string, int>,
                  minCounts: map<string, int>)
    requires k in seen && k !in members && DriverOk(seen, members, driver, driverSeen, minCounts)
    ensures var counts := seen[k].rep.deviceCounts;
      DriverOk(seen, members + {k}, driver, Seen1(driverSeen, counts), Min1(minCounts, counts))
  {
    hide Having, IsMinimum, Seen1, Min1;
    var counts := seen[k].rep.deviceCounts;
    Seen1At(driverSeen, counts, driver);
    Min1At(minCounts, counts, driver);
    HavingAdd(seen, members, k, driver);
    if driver in seen[k].rep.deviceCounts {
      MinimumAdd(seen, members, k, driver, CountIn(minCounts, driver));
    } else {
      SameHaving(seen, members, k, driver, CountIn(minCounts, driver));
    }
  }

  lemma Seen1At(before: map<string, int>, counts: map<string, int>, d: string)
    ensures d in Seen1(before, counts) <==> d in before || d in counts
    ensures CountIn(Seen1(before, counts), d) == CountIn(before, d) + if d in counts then 1 else 0
  {
  }

  lemma Min1At(before: map<string, int>, counts: map<string, int>, d: string)
    ensures d in Min1(before, counts) <==> d in before || d in counts
    ensures d in counts ==>
      Min1(before, counts)[d] == if d !in before || counts[d] < before[d] then counts[d] else before[d]
    ensures d !in counts ==> CountIn(Min1(before, counts), d) == CountIn(before, d)
  {
  }

  lemma SameHaving(seen: Seen, members: set<string>, k: string, driver: string, m: int)
    requires Having(seen, members + {k}, driver) == Having(seen, members, driver)
    ensures IsMinimum(seen, members + {k}, driver, m) == IsMinimum(seen, members, driver, m)
  {
    hide Having;
    HavingSeen(seen, members, driver);
  }

  lemma DriversAdd(seen: Seen, members: set<string>, k: string, st: AggregateState)
    requires k in seen && k !in members && DriversOk(seen, members, st)
    ensures DriversOk(seen, members + {k}, Extend(st, seen[k]))
  {
    hide DriverOk, Seen1, Min1;
    forall driver ensures DriverOk(seen, members +
      {k}, driver, Extend(st, seen[k]).driverSeen, Extend(st, seen[k]).minCounts) {
      DriverAdd(seen, members, k, driver, st.driverSeen, st.minCounts);
    }
  }

  lemma HavingSeen(seen: Seen, members: set<string>, driver: string)
    ensures forall k :: k in Having(seen, members, driver) ==> k in seen && driver in seen[k].rep.deviceCounts
  {
  }

  lemma PlacesAdd(seen: Seen, members: set<string>, k: string, st: AggregateState)
    requires k in seen && k !in members && PlacesOk(seen, members, st)
    ensures PlacesOk(seen, members + {k}, Extend(st, seen[k]))
  {
    var r, rep := Extend(st, seen[k]), seen[k].rep;
    forall d ensures d in r.devices <==> HoldsDevice(seen, members + {k}, d) {
      if HoldsDevice(seen, members, d) {
        var j :| j in members && j in seen && d in seen[j].rep.devices;
        assert j in members + {k};
      }
      assert d in rep.devices ==> k in members + {k};
    }
    forall n ensures n in r.partitionNumas <==> HasPrimaryNuma(seen, members + {k}, n) {
      if HasPrimaryNuma(seen, members, n) {
        var j :| j in members && j in seen && seen[j].rep.numaNodes != [] && seen[j].rep.numaNodes[0] == n;
        assert j in members + {k};
      }
      assert rep.numaNodes != [] ==> k in members + {k};
    }
  }

  lemma StateAdd(seen: Seen, members: set<string>, k: string, st: AggregateState)
    requires k in seen && k !in members && StateFor(seen, members, st)
    ensures StateFor(seen, members + {k}, Extend(st, seen[k]))
  {
    hide DriversOk, PlacesOk;
    DriversAdd(seen, members, k, st);
    PlacesAdd(seen, members, k, st);
    SumSetRemove(members + {k}, CountOf(seen), k);
    assert members + {k} - {k} == members;
  }

  lemma EmptyStateFor(seen: Seen)
    ensures StateFor(seen, {}, EMPTY_STATE)
  {
  }

  // ---------------------------------------------------------------------
  // All states
  // ---------------------------------------------------------------------

  function KeyOfEntry(e: Entry): AggregateKey {
    AggregateKey(e.profile, e.partType)
  }

  /** The entries of one profile and type; full partitions are not aggregated. */
  function Members(seen: Seen, keys: set<string>, ak: AggregateKey): set<string> {
    set k | k in keys && k in seen && !seen[k].partType.FullPartition? && KeyOfEntry(seen[k]) == ak
  }

  ghost predicate StatesFor(seen: Seen, keys: set<string>, states: map<AggregateKey, AggregateState>) {
    forall ak :: StateOk(seen, Members(seen, keys, ak), states, ak)
  }

  ghost predicate StateOk(seen: Seen, members: set<string>, states: map<AggregateKey, AggregateState>,
                          ak: AggregateKey) {
    (ak in states <==> members != {}) && (ak in states ==> StateFor(seen, members, states[ak]))
  }

  function StateAt(states: map<AggregateKey, AggregateState>, ak: AggregateKey): AggregateState {
    if ak in states then states[ak] else EMPTY_STATE
  }

  lemma MembersAdd(seen: Seen, keys: set<string>, k: string, ak: AggregateKey)
    requires k in seen && k !in keys
    ensures Members(seen, keys + {k}, ak) == Members(seen, keys, ak) +
      if !seen[k].partType.FullPartition? && KeyOfEntry(seen[k]) == ak then {k} else {}
    ensures k !in Members(seen, keys, ak)
  {
  }

  lemma StatesAdd(seen: Seen, keys: set<string>, k: string, states: map<AggregateKey, AggregateState>)
    requires k in seen && k !in keys && StatesFor(seen, keys, states)
    ensures StatesFor(seen, keys + {k},
      if seen[k].partType.FullPartition? then states
      else states[KeyOfEntry(seen[k]) := Extend(StateAt(states, KeyOfEntry(seen[k])), seen[k])])
  {
    hide StateFor, Members, Extend;
    var e := seen[k];
    var after := if e.partType.FullPartition? then states
      else states[KeyOfEntry(e) := Extend(StateAt(states, KeyOfEntry(e)), e)];
    forall ak ensures StateOk(seen, Members(seen, keys + {k}, ak), after, ak) {
      MembersAdd(seen, keys, k, ak);
      assert StateOk(seen, Members(seen, keys, ak), states, ak);
      if !e.partType.FullPartition? && KeyOfEntry(e) == ak {
        EmptyStateFor(seen);
        StateAdd(seen, Members(seen, keys, ak), k, StateAt(states, ak));
      } else {
        assert Members(seen, keys + {k}, ak) == Members(seen, keys, ak);
      }
    }
  }

  method AggregateStates(seen: Seen) returns (states: map<AggregateKey, AggregateState>)
    ensures StatesFor(seen, seen.Keys, states)
  {
    hide StatesFor;
    states := map[];
    var todo := seen.Keys;
    assert StatesFor(seen, {}, map[]) by { NoStates(seen); }
    assert seen.Keys - todo == {};
    while todo != {}
      invariant todo <= seen.Keys
      invariant StatesFor(seen, seen.Keys - todo, states)
      decreases |todo|
    {
      var k :| k in todo;
      StatesAdd(seen, seen.Keys - todo, k, states);
      assert seen.Keys - (todo - {k}) == (seen.Keys - todo) + {k};
      todo := todo - {k};
      if seen[k].partType.FullPartition? { continue; }
      var ak := KeyOfEntry(seen[k]);
      var st := ExtendState(if ak in states then states[ak] else EMPTY_STATE, seen[k]);
      states := states[ak := st];
    }
    assert seen.Keys - todo == seen.Keys;
  }

  lemma NoStates(seen: Seen)
    ensures StatesFor(seen, {}, map[])
  {
  }

  // ---------------------------------------------------------------------
  // Reachability
  // ---------------------------------------------------------------------

  predicate Reaches(d: TopologyDevice, driver: string, numa: int) {
    Base(d) == driver && numa in d.numaNodes
  }

  /** Every partition's NUMA node is in the reach of some device of the driver. */
  ghost predicate ReachableToAll(driver: string, numas: seq<int>, devices: seq<TopologyDevice>) {
    numas != [] && forall n :: n in numas ==> Reached(driver, n, devices)
  }

  ghost predicate Reached(driver: string, n: int, devices: seq<TopologyDevice>) {
    exists d :: d in devices && Reaches(d, driver, n)
  }

  method AnyReaches(driver: string, n: int, devices: seq<TopologyDevice>) returns (reachable: bool)
    ensures reachable <==> Reached(driver, n, devices)
  {
    for j := 0 to |devices|
      invariant forall d :: d in devices[..j] ==> !Reaches(d, driver, n)
    {
      assert devices[..j + 1] == devices[..j] + [devices[j]];
      if Base(devices[j]) == driver && n in devices[j].numaNodes {
        assert devices[j] in devices && Reaches(devices[j], driver, n);
        return true;
      }
    }
    assert devices[..|devices|] == devices;
    reachable := false;
  }

  method IsDriverReachableToAll(driver: string, numas: seq<int>, devices: seq<TopologyDevice>) returns (b: bool)
    ensures b <==> ReachableToAll(driver, numas, devices)
  {
    hide Reached;
    if |numas| == 0 { return false; }
    for i := 0 to |numas|
      invariant forall n :: n in numas[..i] ==> Reached(driver, n, devices)
    {
      assert numas[..i + 1] == numas[..i] + [numas[i]];
      assert numas[i] in numas;
      var reachable := AnyReaches(driver, numas[i], devices);
      if !reachable { return false; }
    }
    assert numas[..|numas|] == numas;
    b := true;
  }

  function ToSet(numas: seq<int>): set<int> {
    set n | n in numas
  }

  function InSet(s: set<int>): int -> bool {
    n => n in s
  }

  /** How many entries of a device's reach are partition NUMA nodes. */
  function SharedBy(d: TopologyDevice, numas: set<int>): nat {
    |Filter(d.numaNodes, InSet(numas))|
  }

  /** The largest sharing among the driver's devices. */
  ghost predicate IsSharing(driver: string, numas: set<int>, devices: seq<TopologyDevice>, m: int) {
    && m >= 0
    && (forall d :: d in devices && Base(d) == driver ==> SharedBy(d, numas) <= m)
    && (m == 0 || exists d :: d in devices && Base(d) == driver && SharedBy(d, numas) == m)
  }

  method CountSharingNumas(driver: string, numas: seq<int>, devices: seq<TopologyDevice>) returns (maxSharing: int)
    ensures IsSharing(driver, ToSet(numas), devices, maxSharing)
  {
    var partSet := ToSet(numas);
    maxSharing := 0;
    for i := 0 to |devices|
      invariant IsSharing(driver, partSet, devices[..i], maxSharing)
    {
      var d := devices[i];
      assert devices[..i + 1] == devices[..i] + [d];
      assert d in devices[..i + 1];
      if Base(d) != driver { continue; }
      var sharing := 0;
      for j := 0 to |d.numaNodes|
        invariant sharing == |Filter(d.numaNodes[..j], InSet(partSet))|
      {
        FilterStep(d.numaNodes, j, InSet(partSet));
        if d.numaNodes[j] in partSet { sharing := sharing + 1; }
      }
      assert d.numaNodes[..|d.numaNodes|] == d.numaNodes;
      if sharing > maxSharing { maxSharing := sharing; }
    }
    assert devices[..|devices|] == devices;
  }

  // ---------------------------------------------------------------------
  // Intersection
  // ---------------------------------------------------------------------

  /** The per-partition share of a driver that is present on some partitions only. */
  function Share(minCount: int, sharing: int): int {
    var c := if sharing > 1 then minCount / sharing else minCount;
    if c < 1 then 1 else c
  }

  ghost predicate Admitted(partType: PartitionType, st: AggregateState, driver: string) {
    CountIn(st.driverSeen, driver) == st.total ||
      (partType.NumaPartition? && ReachableToAll(driver, st.partitionNumas, st.devices))
  }

  ghost predicate IntersectedValue(st: AggregateState, driver: string, count: int) {
    if CountIn(st.driverSeen, driver) == st.total then count == CountIn(st.minCounts, driver) else
      exists m :: IsSharing(driver, ToSet(st.partitionNumas), st.devices, m) &&
        count == Share(CountIn(st.minCounts, driver), m)
  }

  ghost predicate IsIntersection(partType: PartitionType, st: AggregateState, drivers: set<string>,
                                 counts: map<string, int>) {
    && (forall driver :: driver in counts <==> driver in drivers && Admitted(partType, st, driver))
    && (forall driver :: driver in counts ==> IntersectedValue(st, driver, counts[driver]))
  }

  method Intersect(partType: PartitionType, st: AggregateState) returns (counts: map<string, int>)
    requires st.driverSeen.Keys == st.minCounts.Keys
    ensures IsIntersection(partType, st, st.driverSeen.Keys, counts)
  {
    hide ReachableToAll, IsSharing;
    counts := map[];
    var todo := st.driverSeen.Keys;
    while todo != {}
      invariant todo <= st.driverSeen.Keys
      invariant IsIntersection(partType, st, st.driverSeen.Keys - todo, counts)
      decreases |todo|
    {
      var driver :| driver in todo;
      todo := todo - {driver};
      if st.driverSeen[driver] == st.total {
        counts := counts[driver := st.minCounts[driver]];
      } else if partType.NumaPartition? {
        var reachable := IsDriverReachableToAll(driver, st.partitionNumas, st.devices);
        if reachable {
          var sharing := CountSharingNumas(driver, st.partitionNumas, st.devices);
          counts := counts[driver := Share(st.minCounts[driver], sharing)];
        }
      }
    }
    assert st.driverSeen.Keys - todo == st.driverSeen.Keys;
  }

  /** The share is at least one device, and handing it to every sharing node stays within what there is
      (or within one device per node). */
  lemma ShareBound(minCount: int, sharing: int)
    requires sharing >= 1
    ensures Share(minCount, sharing) >= 1
    ensures Share(minCount, sharing) * sharing <= if minCount > sharing then minCount else sharing
  {
    var c := minCount / sharing;
    assert c * sharing <= minCount;
  }

  /** It is the largest such share: one more for every sharing node would exceed what there is. */
  lemma ShareLargest(minCount: int, sharing: int)
    requires sharing >= 1
    ensures (Share(minCount, sharing) + 1) * sharing > minCount
  {
    var c := minCount / sharing;
    assert minCount < (c + 1) * sharing;
    if c < 1 { assert (1 + 1) * sharing >= (c + 1) * sharing; }
  }

  lemma SharingPositive(driver: string, numas: seq<int>, devices: seq<TopologyDevice>, m: int)
    requires ReachableToAll(driver, numas, devices) && IsSharing(driver, ToSet(numas), devices, m)
    ensures m >= 1
  {
    var n := numas[0];
    assert n in numas;
    var d :| d in devices && Reaches(d, driver, n);
    FilterMembers(d.numaNodes, InSet(ToSet(numas)));
    assert n in Filter(d.numaNodes, InSet(ToSet(numas)));
  }

  /** A driver on every representative gets exactly the minimum of their counts, whatever the visiting order. */
  lemma EverywhereGetsMinimum(seen: Seen, members: set<string>, partType: PartitionType, st: AggregateState,
                              counts: map<string, int>, driver: string)
    requires members <= seen.Keys && members != {} && StateFor(seen, members, st)
    requires IsIntersection(partType, st, st.driverSeen.Keys, counts)
    requires forall k :: k in members ==> driver in seen[k].rep.deviceCounts
    ensures driver in counts && IsMinimum(seen, members, driver, counts[driver])
  {
    hide IsMinimum, PlacesOk, IntersectedValue;
    assert Having(seen, members, driver) == members;
    assert DriverOk(seen, members, driver, st.driverSeen, st.minCounts);
    assert Admitted(partType, st, driver);
    assert counts[driver] == st.minCounts[driver] by { FullValue(st, driver, counts[driver]); }
  }

  lemma FullValue(st: AggregateState, driver: string, count: int)
    requires CountIn(st.driverSeen, driver) == st.total && IntersectedValue(st, driver, count)
    ensures count == CountIn(st.minCounts, driver)
  {
  }

  /** At least one device each, as many as there are over all sharing nodes, and no more (or one per node). */
  ghost predicate SharedFairly(seen: Seen, members: set<string>, st: AggregateState, driver: string, count: int) {
    && count >= 1
    && exists m, s ::
         && IsMinimum(seen, members, driver, m) && IsSharing(driver, ToSet(st.partitionNumas), st.devices, s)
         && count * s <= (if m > s then m else s) && (count + 1) * s > m
  }

  /** A driver on some representatives only is admitted exactly on NUMA aggregates that it reaches, with a bounded
      share. */
  lemma PartialNeedsReach(seen: Seen, members: set<string>, partType: PartitionType, st: AggregateState,
                          counts: map<string, int>, driver: string)
    requires members <= seen.Keys && StateFor(seen, members, st)
    requires IsIntersection(partType, st, st.driverSeen.Keys, counts)
    requires Having(seen, members, driver) != {} && Having(seen, members, driver) != members
    ensures driver in counts <==> partType.NumaPartition? && ReachableToAll(driver, st.partitionNumas, st.devices)
    ensures driver in counts ==> SharedFairly(seen, members, st, driver, counts[driver])
  {
    hide ReachableToAll, IsSharing, IsMinimum, PlacesOk;
    assert DriverOk(seen, members, driver, st.driverSeen, st.minCounts);
    var having := Having(seen, members, driver);
    assert having <= members && |having| < |members| by {
      SubsetSize(having + {NotHaving(seen, members, driver)}, members);
    }
    assert CountIn(st.driverSeen, driver) != st.total;
    if driver in counts {
      var s :| IsSharing(driver, ToSet(st.partitionNumas), st.devices, s) &&
        counts[driver] == Share(CountIn(st.minCounts, driver), s);
      SharingPositive(driver, st.partitionNumas, st.devices, s);
      ShareBound(st.minCounts[driver], s);
      ShareLargest(st.minCounts[driver], s);
      assert IsMinimum(seen, members, driver, st.minCounts[driver]);
    }
  }

  ghost function NotHaving(seen: Seen, members: set<string>, driver: string): (k: string)
    requires Having(seen, members, driver) != members
    ensures k in members && k !in Having(seen, members, driver)
  {
    assert Having(seen, members, driver) <= members;
    var k :| k in members && k !in Having(seen, members, driver);
    k
  }
}
