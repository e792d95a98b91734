/** What an expanded claim asks for, in terms of the claim and the configs of its classes. */
module ExpansionCounts {
  import opened Collections
  import opened Text
  import opened Topology
  import opened PartitionBuilder
  import opened GroupingBuilder
  import opened PartitionConfigs
  import opened RequestNames
  import opened ClaimExpansion
  import opened ClaimLaws
  import opened ClaimPatches

  /** A request of count N stands for N partitions, and for one when the count is not above 1. */
  function Wanted(count: int): int {
    if count < 2 then 1 else count
  }

  /** An expanded request asks, per class, for as many times the partition's devices as its own count says. */
  lemma ExpansionCount(env: Env, r: DeviceRequest, c: string)
    requires Expands(env, r)
    ensures CountFor(Expansion(env, r), c) ==
      Wanted(r.exactly.value.count) * SubCount(PartitionOf(env, r).value.subResources, c)
  {
    hide ExpandedRequests, CountFor, SubCount, ConfigOf;
    var n := Instances(r.exactly.value);
    CountConserved(r.name, n, r.exactly.value.selectors, PartitionOf(env, r).value.subResources, n, c);
  }

  /** One request contributes its own count, or the devices of its partitions. */
  function Contribution(env: Env, r: DeviceRequest, c: string): int {
    if Expands(env, r) then Wanted(r.exactly.value.count) * SubCount(PartitionOf(env, r).value.subResources, c)
    else RequestCount(r, c)
  }

  function Contributions(env: Env, rs: seq<DeviceRequest>, c: string): seq<int> {
    seq(|rs|, i requires 0 <= i < |rs| => Contribution(env, rs[i], c))
  }

  /** The admitted claim asks, per class, for the sum of the contributions of the claim's requests. */
  lemma {:induction false} ExpandedCount(env: Env, rs: seq<DeviceRequest>, c: string)
    ensures CountFor(ExpandAll(env, rs), c) == Sum(Contributions(env, rs, c))
  {
    hide Contribution, Expansion, Expands;
    if rs != [] {
      var m := |rs| - 1;
      var init, last := rs[..m], rs[m];
      ExpandedCount(env, init, c);
      assert Contributions(env, rs, c)[..m] == Contributions(env, init, c);
      LastContribution(env, last, c);
      CountConcat(ExpandAll(env, init), if Expands(env, last) then Expansion(env, last) else [last], c);
    }
  }

  lemma LastContribution(env: Env, r: DeviceRequest, c: string)
    ensures CountFor(if Expands(env, r) then Expansion(env, r) else [r], c) == Contribution(env, r, c)
  {
    hide Expansion, SubCount, PartitionOf;
    if Expands(env, r) {
      ExpansionCount(env, r, c);
    } else {
      assert [r][..0] == [];
      assert CountFor([], c) == 0;
    }
  }

  lemma AdmittedCount(env: Env, claim: Claim, c: string)
    ensures CountFor(Admitted(env, claim).requests, c) == Sum(Contributions(env, claim.requests, c))
  {
    hide ExpandAll, Mapping, AllConstraints, CountFor, Contributions;
    ExpandedCount(env, claim.requests, c);
    if !AnyExpands(env, claim.requests) { NothingExpands(env, claim.requests); }
  }

  lemma {:induction false} NothingExpands(env: Env, rs: seq<DeviceRequest>)
    requires !AnyExpands(env, rs)
    ensures ExpandAll(env, rs) == rs
  {
    hide Expands;
    if rs != [] {
      var init, last := rs[..|rs| - 1], rs[|rs| - 1];
      assert rs == init + [last];
      assert last in rs;
      NothingExpands(env, init);
    }
  }

  // ---------------------------------------------------------------------
  // The generated requests
  // ---------------------------------------------------------------------

  /** A capacity that parses is asked for; a sub-resource without capacities asks for none. */
  ghost predicate AsksCapacity(capacity: Capacity, asked: Option<map<string, int>>) {
    && (asked.None? <==> capacity == map[])
    && (asked.Some? ==> forall n :: n in asked.value <==> n in capacity && capacity[n].Quantity?)
    && (asked.Some? ==> forall n :: n in asked.value ==> asked.value[n] == capacity[n].units)
  }

  /** The request asks for the sub-resource: class, count, capacities, and its selectors followed by the user's. */
  ghost predicate AsksFor(sub: SubResource, user: seq<string>, x: DeviceRequest) {
    && x.exactly.Some? && x.exactly.value.deviceClass == sub.deviceClass && x.exactly.value.count == sub.count
    && x.exactly.value.selectors == sub.selectors + user && AsksCapacity(sub.capacity, x.exactly.value.capacity)
  }

  lemma SubRequestAsks(prefix: string, user: seq<string>, sub: SubResource)
    ensures AsksFor(sub, user, SubRequest(prefix, user, sub))
  {
    hide RequestName;
  }

  /** Every generated request asks for one sub-resource, with the user's selectors. */
  lemma GeneratedAsks(env: Env, r: DeviceRequest, x: DeviceRequest)
    requires Expands(env, r) && x in Expansion(env, r)
    ensures exists sub :: sub in PartitionOf(env, r).value.subResources && AsksFor(sub, r.exactly.value.selectors, x)
  {
    hide ConfigOf, Prefix, ExpandedRequests, SubRequest, AsksFor;
    var n, user, subs := Instances(r.exactly.value), r.exactly.value.selectors, PartitionOf(env, r).value.subResources;
    Origin(r.name, n, user, subs, n, x);
    var i: nat :| i < n && OfInstance(Prefix(r.name, n, i), user, subs, x);
    var sub :| sub in subs && x == SubRequest(Prefix(r.name, n, i), user, sub);
    SubRequestAsks(Prefix(r.name, n, i), user, sub);
  }

  /** Where request `j` of instance `i` stands when every instance has `m` requests. */
  function Place(m: nat, i: nat, j: nat): nat {
    i * m + j
  }

  lemma PlaceBound(m: nat, n: nat, i: nat, j: nat)
    requires i < n && j < m
    ensures Place(m, i, j) < n * m
  {
    assert (n - i - 1) * m >= 0;
    assert n * m == i * m + m + (n - i - 1) * m;
  }

  lemma {:induction false} RequestAt(name: string, count: nat, user: seq<string>, subs: seq<SubResource>, n: nat,
                                     i: nat,
                                     j: nat)
    requires i < n && j < |subs|
    ensures var all := ExpandedRequests(name, count, user, subs, n);
      |all| == n * |subs| && Place(|subs|, i, j) < |all| &&
      all[Place(|subs|, i, j)] == SubRequest(Prefix(name, count, i), user, subs[j])
  {
    hide SubRequest, Prefix;
    var before := ExpandedRequests(name, count, user, subs, n - 1);
    ExpandedLength(name, count, user, subs, n - 1);
    assert n * |subs| == (n - 1) * |subs| + |subs|;
    PlaceBound(|subs|, n, i, j);
    if i < n - 1 {
      RequestAt(name, count, user, subs, n - 1, i, j);
    } else {
      assert Place(|subs|, i, j) == |before| + j;
    }
  }

  lemma {:induction false} ExpandedLength(name: string, count: nat, user: seq<string>, subs: seq<SubResource>, n: nat)
    ensures |ExpandedRequests(name, count, user, subs, n)| == n * |subs|
  {
    hide SubRequest, Prefix;
    if n > 0 {
      ExpandedLength(name, count, user, subs, n - 1);
      assert n * |subs| == (n - 1) * |subs| + |subs|;
    }
  }

  /** The name of request `j` of instance `i`: the instance is numbered only when the request asks for several. */
  function GeneratedName(name: string, count: int, i: nat, deviceClass: string): string {
    if count < 2 then name + "-" + Token(deviceClass) else name + "-" + Decimal(i) + "-" + Token(deviceClass)
  }

  /** Instance by instance and sub-resource by sub-resource, an expanded request has one generated request, which asks
      for the sub-resource under its own name, and no other request. */
  lemma GeneratedAt(env: Env, r: DeviceRequest, i: nat, j: nat)
    requires Expands(env, r) && i < Wanted(r.exactly.value.count)
    requires j < |PartitionOf(env, r).value.subResources|
    ensures var subs, all := PartitionOf(env, r).value.subResources, Expansion(env, r);
      && |all| == Wanted(r.exactly.value.count) * |subs| && i * |subs| + j < |all|
      && AsksFor(subs[j], r.exactly.value.selectors, all[i * |subs| + j])
      && all[i * |subs| + j].name == GeneratedName(r.name, r.exactly.value.count, i, subs[j].deviceClass)
  {
    hide ConfigOf, ExpandedRequests, AsksFor, Token, Decimal, ParsedCapacity;
    var subs, n, user := PartitionOf(env, r).value.subResources, Wanted(r.exactly.value.count),
      r.exactly.value.selectors;
    RequestAt(r.name, n, user, subs, n, i, j);
    SubRequestAsks(Prefix(r.name, n, i), user, subs[j]);
  }

  // ---------------------------------------------------------------------
  // The configs of built partitions
  // ---------------------------------------------------------------------

  function DriversOf(rep: Partition, classOf: string -> string, c: string): set<string> {
    set d | d in rep.deviceCounts && classOf(d) == c
  }

  function DriverCount(rep: Partition): string -> int {
    d => CountIn(rep.deviceCounts, d)
  }

  /** The drivers of a list that have class `c`. */
  function DriversIn(order: seq<string>, classOf: string -> string, c: string): set<string> {
    set d | d in order && classOf(d) == c
  }

  lemma DriversInStep(order: seq<string>, last: string, classOf: string -> string, c: string)
    requires last !in order
    ensures classOf(last) != c ==> DriversIn(order + [last], classOf, c) == DriversIn(order, classOf, c)
    ensures classOf(last) == c ==> last in DriversIn(order + [last], classOf, c)
    ensures classOf(last) == c ==> DriversIn(order + [last], classOf, c) - {last} == DriversIn(order, classOf, c)
  {}

  lemma SubOf(rep: Partition, classOf: string -> string, selectorsFor: string -> seq<string>, d: string)
    ensures SubFor(rep, classOf, selectorsFor, d).deviceClass == classOf(d)
    ensures SubFor(rep, classOf, selectorsFor, d).count == DriverCount(rep)(d)
  {}

  lemma EmptyDrivers(order: seq<string>, classOf: string -> string, c: string, f: string -> int)
    requires order == []
    ensures SumSet(DriversIn(order, classOf, c), f) == 0
  {
    assert DriversIn(order, classOf, c) == {};
  }

  lemma {:induction false} SubCountOfOrder(rep: Partition, classOf: string -> string,
                                           selectorsFor: string -> seq<string>,
                                           subs: seq<SubResource>, order: seq<string>, c: string)
    requires |subs| == |order| && Distinct(order)
    requires forall i :: 0 <= i < |subs| ==> subs[i] == SubFor(rep, classOf, selectorsFor, order[i])
    ensures SubCount(subs, c) == SumSet(DriversIn(order, classOf, c), DriverCount(rep))
  {
    hide SubFor, SumSet, DriversIn, DriverCount;
    if subs == [] {
      EmptyDrivers(order, classOf, c, DriverCount(rep));
    } else {
      var m := |subs| - 1;
      var init, last := order[..m], order[m];
      assert order == init + [last];
      SubCountOfOrder(rep, classOf, selectorsFor, subs[..m], init, c);
      SubOf(rep, classOf, selectorsFor, last);
      DriversInStep(init, last, classOf, c);
      if classOf(last) == c {
        SumSetRemove(DriversIn(order, classOf, c), DriverCount(rep), last);
      }
    }
  }

  /** The config of a partition holds, per class, the devices of all drivers of that class. */
  lemma PartitionHolds(rep: Partition, classOf: string -> string, selectorsFor: string -> seq<string>,
                       subs: seq<SubResource>, c: string)
    requires SubResourcesFor(rep, classOf, selectorsFor, subs)
    ensures SubCount(subs, c) == SumSet(DriversOf(rep, classOf, c), DriverCount(rep))
  {
    hide SubFor, SubCount;
    var order :| ListsSet(order, rep.deviceCounts.Keys) && |subs| == |order| &&
      forall i :: 0 <= i < |subs| ==> subs[i] == SubFor(rep, classOf, selectorsFor, order[i]);
    ListDistinct(order, rep.deviceCounts.Keys);
    SubCountOfOrder(rep, classOf, selectorsFor, subs, order, c);
    assert DriversIn(order, classOf, c) == DriversOf(rep, classOf, c);
  }

  /** The sub-resource asks for the devices of one driver of the partition. */
  ghost predicate HoldsDriver(rep: Partition, classOf: string -> string, selectorsFor: string -> seq<string>,
                              driver: string, sub: SubResource)
    requires driver in rep.deviceCounts
  {
    && sub.deviceClass == classOf(driver)
    && sub.count == rep.deviceCounts[driver]
    && sub.selectors == selectorsFor(driver)
    && (if driver in rep.deviceCapacity then sub.capacity == rep.deviceCapacity[driver] else sub.capacity == map[])
  }

  /** Every driver of the partition has a sub-resource with its class, count, capacity and selectors. */
  lemma DriverHasSub(rep: Partition, classOf: string -> string, selectorsFor: string -> seq<string>,
                     subs: seq<SubResource>,
                     driver: string)
    requires SubResourcesFor(rep, classOf, selectorsFor, subs) && driver in rep.deviceCounts
    ensures exists sub :: sub in subs && HoldsDriver(rep, classOf, selectorsFor, driver, sub)
  {
    var order :| ListsSet(order, rep.deviceCounts.Keys) && |subs| == |order| &&
      forall i :: 0 <= i < |subs| ==> subs[i] == SubFor(rep, classOf, selectorsFor, order[i]);
    assert driver in order;
    var i :| 0 <= i < |order| && order[i] == driver;
    assert subs[i] in subs && HoldsDriver(rep, classOf, selectorsFor, driver, subs[i]);
  }

  // ---------------------------------------------------------------------
  // The configs of grouping instances
  // ---------------------------------------------------------------------

  /** The instance as a partition whose drivers are its classes. */
  ghost function AsPartition(inst: GroupingInstance): Partition {
    Partition(inst.name, inst.groupingName, FullPartition, [], [], [], inst.deviceCounts, inst.deviceCapacity, [],
      map[])
  }

  function Itself(): string -> string {
    c => c
  }

  lemma AsSubs(inst: GroupingInstance, selectorsFor: string -> seq<string>, subs: seq<SubResource>)
    requires GroupingSubs(inst, selectorsFor, subs)
    ensures SubResourcesFor(AsPartition(inst), Itself(), selectorsFor, subs)
  {
    hide CountIn;
    var order :| ListsSet(order, inst.deviceCounts.Keys) && |subs| == |order| &&
      forall i :: 0 <= i < |subs| ==> subs[i] == GroupingSub(inst, selectorsFor, order[i]);
    var rep := AsPartition(inst);
    forall i | 0 <= i < |subs| ensures subs[i] == SubFor(rep, Itself(), selectorsFor, order[i]) {}
    assert ListsSet(order, rep.deviceCounts.Keys);
  }

  /** The config of a grouping instance holds, of every class, the devices of the instance, asked for with the
      instance's capacity. */
  lemma GroupingHolds(inst: GroupingInstance, selectorsFor: string -> seq<string>, subs: seq<SubResource>, c: string)
    requires GroupingSubs(inst, selectorsFor, subs)
    ensures SubCount(subs, c) == CountIn(inst.deviceCounts, c)
    ensures c in inst.deviceCounts ==>
      exists sub :: sub in subs && HoldsDriver(AsPartition(inst), Itself(), selectorsFor, c, sub)
  {
    hide SubCount, SubResourcesFor, GroupingSubs;
    var rep := AsPartition(inst);
    AsSubs(inst, selectorsFor, subs);
    PartitionHolds(rep, Itself(), selectorsFor, subs, c);
    if c in inst.deviceCounts {
      DriverHasSub(rep, Itself(), selectorsFor, subs, c);
      assert DriversOf(rep, Itself(), c) == {c};
      SumSetRemove({c}, DriverCount(rep), c);
      assert {c} - {c} == {};
    } else {
      assert DriversOf(rep, Itself(), c) == {};
    }
  }
}
