/** What an expanded request guarantees: counts are conserved, names are unique, constraints stay inside
    one instance and say exactly what the alignments say. */
module ClaimLaws {
  import opened Collections
  import opened Text
  import opened Topology
  import opened PartitionBuilder
  import opened GroupingBuilder
  import opened PartitionConfigs
  import opened RequestNames
  import opened ClaimExpansion

  // ---------------------------------------------------------------------
  // Conservation of devices
  // ---------------------------------------------------------------------

  function RequestCount(r: DeviceRequest, c: string): int {
    if r.exactly.Some? && r.exactly.value.deviceClass == c then r.exactly.value.count else 0
  }

  /** The devices of a class that a list of requests asks for. */
  function CountFor(requests: seq<DeviceRequest>, c: string): int {
    if requests == [] then 0 else CountFor(requests[..|requests| - 1], c) + RequestCount(requests[|requests| - 1], c)
  }

  /** The devices of a class that one partition holds. */
  function SubCount(subs: seq<SubResource>, c: string): int {
    if subs == [] then 0 else
      SubCount(subs[..|subs| - 1], c) + if subs[|subs| - 1].deviceClass == c then subs[|subs| - 1].count else 0
  }

  lemma {:induction false} CountConcat(a: seq<DeviceRequest>, b: seq<DeviceRequest>, c: string)
    ensures CountFor(a + b, c) == CountFor(a, c) + CountFor(b, c)
  {
    if b == [] {
      assert a + b == a;
    } else {
      CountConcat(a, b[..|b| - 1], c);
      assert (a + b)[..|a + b| - 1] == a + b[..|b| - 1];
    }
  }

  lemma {:induction false} InstanceCount(prefix: string, user: seq<string>, subs: seq<SubResource>, c: string)
    ensures CountFor(SubRequests(prefix, user, subs), c) == SubCount(subs, c)
  {
    hide RequestName, ParsedCapacity;
    if subs != [] {
      var init := subs[..|subs| - 1];
      InstanceCount(prefix, user, init, c);
      var all := SubRequests(prefix, user, subs);
      assert all[..|all| - 1] == SubRequests(prefix, user, init);
    }
  }

  /** N instances ask for N times the devices of every class. */
  lemma {:induction false} CountConserved(name: string, count: nat, user: seq<string>, subs: seq<SubResource>, n: nat,
                                          c: string)
    ensures CountFor(ExpandedRequests(name, count, user, subs, n), c) == n * SubCount(subs, c)
  {
    hide SubRequests;
    if n > 0 {
      CountConserved(name, count, user, subs, n - 1, c);
      CountConcat(ExpandedRequests(name, count, user, subs, n - 1), SubRequests(Prefix(name, count, n - 1), user, subs),
        c);
      InstanceCount(Prefix(name, count, n - 1), user, subs, c);
      assert n * SubCount(subs, c) == (n - 1) * SubCount(subs, c) + SubCount(subs, c);
    }
  }

  // ---------------------------------------------------------------------
  // Unique names
  // ---------------------------------------------------------------------

  predicate DistinctTokens(subs: seq<SubResource>) {
    forall i, j :: 0 <= i < j < |subs| ==> Token(subs[i].deviceClass) != Token(subs[j].deviceClass)
  }

  predicate UniqueNames(requests: seq<DeviceRequest>) {
    forall i, j :: 0 <= i < j < |requests| ==> requests[i].name != requests[j].name
  }

  ghost predicate OfInstance(prefix: string, user: seq<string>, subs: seq<SubResource>, r: DeviceRequest) {
    exists sub :: sub in subs && r == SubRequest(prefix, user, sub)
  }

  lemma InstanceMembers(prefix: string, user: seq<string>, subs: seq<SubResource>, r: DeviceRequest)
    ensures r in SubRequests(prefix, user, subs) <==> OfInstance(prefix, user, subs, r)
  {
    hide SubRequest;
    var all := SubRequests(prefix, user, subs);
    if OfInstance(prefix, user, subs, r) {
      var sub :| sub in subs && r == SubRequest(prefix, user, sub);
      var j :| 0 <= j < |subs| && subs[j] == sub;
      assert all[j] == r;
    }
  }

  /** The generated requests are those of the first n instances. */
  lemma {:induction false} Origin(name: string, count: nat, user: seq<string>, subs: seq<SubResource>, n: nat,
                                  r: DeviceRequest)
    ensures r in ExpandedRequests(name, count, user, subs, n) <==>
      exists i: nat :: i < n && OfInstance(Prefix(name, count, i), user, subs, r)
  {
    hide SubRequests, OfInstance, Prefix;
    if n > 0 {
      Origin(name, count, user, subs, n - 1, r);
      InstanceMembers(Prefix(name, count, n - 1), user, subs, r);
    }
  }

  lemma InstanceUniqueIff(prefix: string, user: seq<string>, subs: seq<SubResource>)
    ensures UniqueNames(SubRequests(prefix, user, subs)) <==> DistinctTokens(subs)
  {
    hide Token, ParsedCapacity, RequestName;
    var rs := SubRequests(prefix, user, subs);
    forall i, j | 0 <= i < j < |subs| ensures rs[i].name == rs[j].name <==>
      Token(subs[i].deviceClass) == Token(subs[j].deviceClass) {
      TokensApart(prefix, subs[i].deviceClass, subs[j].deviceClass);
    }
  }

  lemma UniqueConcat(a: seq<DeviceRequest>, b: seq<DeviceRequest>)
    requires forall x, y :: x in a && y in b ==> x.name != y.name
    ensures UniqueNames(a + b) <==> UniqueNames(a) && UniqueNames(b)
  {
    var ab := a + b;
    if UniqueNames(ab) {
      forall i, j | 0 <= i < j < |a| ensures a[i].name != a[j].name { assert ab[i] == a[i] && ab[j] == a[j]; }
      forall i, j | 0 <= i < j < |b|
        ensures b[i].name != b[j].name { assert ab[|a| + i] == b[i] && ab[|a| + j] == b[j]; }
    }
    if UniqueNames(a) && UniqueNames(b) {
      forall i, j | 0 <= i < j < |ab| ensures ab[i].name != ab[j].name {
        if i < |a| <= j { assert ab[i] in a && ab[j] in b; }
      }
    }
  }

  /** The requests of the first n instances are unique by name exactly when the sanitized classes differ. */
  lemma {:induction false} NamesUniqueIff(name: string, count: nat, user: seq<string>, subs: seq<SubResource>, n: nat)
    requires 1 <= n <= count
    ensures UniqueNames(ExpandedRequests(name, count, user, subs, n)) <==> DistinctTokens(subs)
  {
    hide SubRequests, DistinctTokens, UniqueNames;
    var before, last := ExpandedRequests(name, count, user, subs, n - 1),
      SubRequests(Prefix(name, count, n - 1), user, subs);
    InstanceUniqueIff(Prefix(name, count, n - 1), user, subs);
    if n == 1 {
      assert before == [] && before + last == last;
    } else {
      NamesUniqueIff(name, count, user, subs, n - 1);
      forall x, y | x in before && y in last ensures x.name != y.name {
        LastApart(name, count, user, subs, n, x, y);
      }
      UniqueConcat(before, last);
    }
  }

  lemma LastApart(name: string, count: nat, user: seq<string>, subs: seq<SubResource>, n: nat, x: DeviceRequest,
                  y: DeviceRequest)
    requires 1 <= n <= count
    requires x in ExpandedRequests(name, count, user, subs, n - 1)
    requires y in SubRequests(Prefix(name, count, n - 1), user, subs)
    ensures x.name != y.name
  {
    hide ExpandedRequests, RequestName, ParsedCapacity, Prefix;
    Origin(name, count, user, subs, n - 1, x);
    var i: nat :| i < n - 1 && OfInstance(Prefix(name, count, i), user, subs, x);
    var sub :| sub in subs && x == SubRequest(Prefix(name, count, i), user, sub);
    var j :| 0 <= j < |subs| && y == SubRequest(Prefix(name, count, n - 1), user, subs[j]);
    InstancesApart(name, count, i, n - 1, sub.deviceClass, subs[j].deviceClass);
  }

  // ---------------------------------------------------------------------
  // Constraints stay inside one instance
  // ---------------------------------------------------------------------

  function InstanceNames(prefix: string, subs: seq<SubResource>): set<string> {
    set sub | sub in subs :: RequestName(prefix, sub.deviceClass)
  }

  /** A constraint over at least two entries, all of them requests of one instance. */
  predicate Inside(c: MatchConstraint, names: set<string>) {
    |c.requests| >= 2 && forall r :: r in c.requests ==> r in names
  }

  lemma ResolveInside(prefix: string, subs: seq<SubResource>, r: string)
    ensures forall x :: x in Resolve(prefix, subs, r) ==> x in InstanceNames(prefix, subs)
  {
    hide Token;
    if r !in ClassesIn(subs) && HasToken(subs, r) {
      var i :| 0 <= i < |subs| && Token(subs[i].deviceClass) == r;
      assert subs[i] in subs;
      assert RequestName(prefix, subs[i].deviceClass) == prefix + "-" + r;
    }
  }

  lemma PerDriverInside(prefix: string, subs: seq<SubResource>, requests: seq<string>)
    ensures forall g, x :: g in PerDriver(prefix, subs, requests) && x in g ==> x in InstanceNames(prefix, subs)
  {
    hide Resolve, InstanceNames;
    var all := seq(|requests|, i requires 0 <= i < |requests| => Resolve(prefix, subs, requests[i]));
    FilterMembers(all, NonEmpty);
    forall g, x | g in all && x in g ensures x in InstanceNames(prefix, subs) {
      var i :| 0 <= i < |requests| && g == Resolve(prefix, subs, requests[i]);
      ResolveInside(prefix, subs, requests[i]);
    }
  }

  lemma {:induction false} PairInside(perDriver: seq<seq<string>>, idx: nat, names: set<string>)
    requires forall g, x :: g in perDriver && x in g ==> x in names
    ensures forall x :: x in PairAt(perDriver, idx) ==> x in names
  {
    if perDriver != [] {
      PairInside(perDriver[..|perDriver| - 1], idx, names);
      assert perDriver[|perDriver| - 1] in perDriver;
    }
  }

  lemma {:induction false} PairsInside(perDriver: seq<seq<string>>, a: AttributeName, n: nat, names: set<string>)
    requires forall g, x :: g in perDriver && x in g ==> x in names
    ensures forall c :: c in PairConstraints(perDriver, a, n) ==> Inside(c, names)
  {
    hide PairAt;
    if n > 0 {
      PairsInside(perDriver, a, n - 1, names);
      PairInside(perDriver, n - 1, names);
    }
  }

  lemma ConstrainInside(perDriver: seq<seq<string>>, a: AttributeName, names: set<string>)
    requires forall g, x :: g in perDriver && x in g ==> x in names
    ensures forall c :: c in Constrain(perDriver, a) ==> Inside(c, names)
  {
    hide MaxSplit, MentionsNuma, PairConstraints, Flatten;
    PairsInside(perDriver, a, MaxSplit(perDriver), names);
    FlattenMembers(perDriver);
  }

  lemma {:induction false} InstanceInside(prefix: string, config: PartitionConfig, satisfiable: Satisfiable, n: nat)
    requires n <= |config.alignments|
    ensures forall c :: c in InstanceConstraints(prefix, config, satisfiable, n) ==>
      Inside(c, InstanceNames(prefix, config.subResources))
  {
    hide Constrain, PerDriver, Inside, InstanceNames, Enforces, DriverCounts;
    if n > 0 {
      InstanceInside(prefix, config, satisfiable, n - 1);
      var a := config.alignments[n - 1];
      PerDriverInside(prefix, config.subResources, a.requests);
      ConstrainInside(PerDriver(prefix, config.subResources, a.requests), a.attribute,
        InstanceNames(prefix, config.subResources));
    }
  }

  /** Whatever the config, every constraint names at least two requests, all of one instance. */
  lemma {:induction false} ConstraintsInside(name: string, count: nat, config: PartitionConfig,
                                             satisfiable: Satisfiable, n: nat, c: MatchConstraint)
    requires c in ExpandedConstraints(name, count, config, satisfiable, n)
    ensures exists i: nat :: i < n && Inside(c, InstanceNames(Prefix(name, count, i), config.subResources))
  {
    hide Inside, InstanceNames, InstanceConstraints, Prefix;
    if n > 0 {
      if c in ExpandedConstraints(name, count, config, satisfiable, n - 1) {
        ConstraintsInside(name, count, config, satisfiable, n - 1, c);
      } else {
        InstanceInside(Prefix(name, count, n - 1), config, satisfiable, |config.alignments|);
      }
    }
  }

  // ---------------------------------------------------------------------
  // Constraints say exactly what the alignments say
  // ---------------------------------------------------------------------

  function NamesOf(prefix: string, requests: seq<string>): seq<string> {
    seq(|requests|, i requires 0 <= i < |requests| => RequestName(prefix, requests[i]))
  }

  /** The constraint that an alignment asks for in one instance. */
  function Stated(prefix: string, a: AlignmentConfig): MatchConstraint {
    MatchConstraint(NamesOf(prefix, a.requests), a.attribute)
  }

  /** Enforced, and about at least two requests. */
  predicate Applies(satisfiable: Satisfiable, subs: seq<SubResource>, a: AlignmentConfig) {
    Enforces(satisfiable, DriverCounts(subs), a) && |a.requests| >= 2
  }

  function AppliesIn(satisfiable: Satisfiable, subs: seq<SubResource>): AlignmentConfig -> bool {
    (a: AlignmentConfig) => Applies(satisfiable, subs, a)
  }

  /** With distinct sanitized classes, a class stands for one request. */
  lemma OneName(prefix: string, subs: seq<SubResource>, c: string)
    requires DistinctTokens(subs) && c in ClassesIn(subs)
    ensures NamesFor(prefix, subs, c) == [RequestName(prefix, c)]
  {
    hide Token, RequestName, Filter;
    var p := KeyIs(SubClass(), c);
    var i :| 0 <= i < |subs| && subs[i].deviceClass == c;
    var before, after := subs[..i], subs[i + 1..];
    forall s | s in before ensures !p(s) {
      var k :| 0 <= k < i && subs[k] == s;
    }
    forall s | s in after ensures !p(s) {
      var k :| i < k < |subs| && subs[k] == s;
    }
    FilterNone(before, p);
    FilterNone(after, p);
    FilterSnoc(before, subs[i], p);
    FilterConcat(before + [subs[i]], after, p);
    assert subs == before + [subs[i]] + after;
    assert Filter(subs, p) == [subs[i]];
  }

  lemma PerDriverExact(prefix: string, subs: seq<SubResource>, requests: seq<string>)
    requires DistinctTokens(subs) && forall r :: r in requests ==> r in ClassesIn(subs)
    ensures PerDriver(prefix, subs, requests) == Singletons(NamesOf(prefix, requests))
  {
    hide RequestName, NamesFor, Filter, DistinctTokens, ClassesIn;
    var all := seq(|requests|, i requires 0 <= i < |requests| => Resolve(prefix, subs, requests[i]));
    forall i | 0 <= i < |requests| ensures all[i] == [RequestName(prefix, requests[i])] {
      OneName(prefix, subs, requests[i]);
    }
    FilterAll(all, NonEmpty);
  }

  function Singletons(names: seq<string>): seq<seq<string>> {
    seq(|names|, i requires 0 <= i < |names| => [names[i]])
  }

  lemma {:induction false} SingletonsFlat(names: seq<string>)
    ensures Flatten(Singletons(names)) == names && MaxSplit(Singletons(names)) <= 1
  {
    if names != [] {
      var init := names[..|names| - 1];
      SingletonsFlat(init);
      var all := Singletons(names);
      assert all[..|all| - 1] == Singletons(init);
      assert names == init + [names[|names| - 1]];
    }
  }

  lemma AlignmentExact(prefix: string, subs: seq<SubResource>, satisfiable: Satisfiable, a: AlignmentConfig)
    requires DistinctTokens(subs) && forall r :: r in a.requests ==> r in ClassesIn(subs)
    ensures AlignmentConstraints(prefix, subs, satisfiable, a) ==
      if Applies(satisfiable, subs, a) then [Stated(prefix, a)] else []
  {
    hide RequestName, PerDriver, DistinctTokens, ClassesIn, DriverCounts, MentionsNuma, PairConstraints, MaxSplit;
    hide Flatten, Singletons;
    PerDriverExact(prefix, subs, a.requests);
    SingletonsFlat(NamesOf(prefix, a.requests));
  }

  function StatedAll(prefix: string, alignments: seq<AlignmentConfig>): seq<MatchConstraint> {
    seq(|alignments|, i requires 0 <= i < |alignments| => Stated(prefix, alignments[i]))
  }

  lemma {:induction false} InstanceExact(prefix: string, config: PartitionConfig, satisfiable: Satisfiable, n: nat)
    requires DistinctTokens(config.subResources) && Closed(config) && n <= |config.alignments|
    ensures InstanceConstraints(prefix, config, satisfiable, n) ==
      StatedAll(prefix, Filter(config.alignments[..n], AppliesIn(satisfiable, config.subResources)))
  {
    hide AlignmentConstraints, Applies, Stated, DistinctTokens, Filter;
    var p := AppliesIn(satisfiable, config.subResources);
    if n == 0 {
      FilterNone(config.alignments[..0], p);
    } else {
      InstanceExact(prefix, config, satisfiable, n - 1);
      var a := config.alignments[n - 1];
      assert a in config.alignments;
      AlignmentExact(prefix, config.subResources, satisfiable, a);
      FilterStep(config.alignments, n - 1, p);
    }
  }

  /** With distinct sanitized classes, a closed config yields per instance exactly one constraint for every
      alignment that applies, over exactly the requests that the alignment names, and nothing else. */
  lemma {:induction false} ConstraintsExact(name: string, count: nat, config: PartitionConfig,
                                            satisfiable: Satisfiable, n: nat)
    requires DistinctTokens(config.subResources) && Closed(config)
    ensures var kept := Filter(config.alignments, AppliesIn(satisfiable, config.subResources));
      var all := ExpandedConstraints(name, count, config, satisfiable, n);
      && |all| == n * |kept|
      && forall c :: c in all <==> exists i: nat, a :: i < n && a in kept && c == Stated(Prefix(name, count, i), a)
  {
    hide Applies, Stated, DistinctTokens, Filter, InstanceConstraints, Closed, Prefix;
    var kept := Filter(config.alignments, AppliesIn(satisfiable, config.subResources));
    if n > 0 {
      ConstraintsExact(name, count, config, satisfiable, n - 1);
      var before, prefix := ExpandedConstraints(name, count, config, satisfiable, n - 1), Prefix(name, count, n - 1);
      var last := InstanceConstraints(prefix, config, satisfiable, |config.alignments|);
      InstanceExact(prefix, config, satisfiable, |config.alignments|);
      assert config.alignments[..|config.alignments|] == config.alignments;
      assert n * |kept| == (n - 1) * |kept| + |kept|;
      StatedMembers(prefix, kept);
      assert ExpandedConstraints(name, count, config, satisfiable, n) == before + last;
    }
  }

  lemma StatedMembers(prefix: string, kept: seq<AlignmentConfig>)
    ensures forall c :: c in StatedAll(prefix, kept) <==> exists a :: a in kept && c == Stated(prefix, a)
  {
    hide Stated;
    forall c ensures c in StatedAll(prefix, kept) <==> exists a :: a in kept && c == Stated(prefix, a) {
      if exists a :: a in kept && c == Stated(prefix, a) {
        var a :| a in kept && c == Stated(prefix, a);
        var i :| 0 <= i < |kept| && kept[i] == a;
        assert StatedAll(prefix, kept)[i] == c;
      }
    }
  }

  // ---------------------------------------------------------------------
  // The configs that the coordinator publishes
  // ---------------------------------------------------------------------

  lemma RequiredStated(name: string, req: ExactRequest, config: PartitionConfig, satisfiable: Satisfiable,
                       a: AlignmentConfig, i: nat)
    requires DistinctTokens(config.subResources) && Closed(config)
    requires a in config.alignments && a.enforcement.Required? && |a.requests| >= 2 && i < Instances(req)
    ensures Stated(Prefix(name, Instances(req), i), a) in ExpandedConstraints(name, Instances(req), config, satisfiable,
      Instances(req))
  {
    hide Stated, DistinctTokens, Closed, Filter, ExpandedConstraints, Prefix, DriverCounts;
    ConstraintsExact(name, Instances(req), config, satisfiable, Instances(req));
    FilterMembers(config.alignments, AppliesIn(satisfiable, config.subResources));
    assert AppliesIn(satisfiable, config.subResources)(a);
  }

  /** Every required alignment of a grouping config holds in every instance. */
  lemma GroupingAligned(inst: GroupingInstance, rules: seq<TopologyRule>, classOf: string -> string,
                        driverFor: string -> string,
                        selectorsFor: string -> seq<string>, config: PartitionConfig, name: string, req: ExactRequest,
                        satisfiable: Satisfiable, a: AlignmentConfig, i: nat)
    requires GroupingSubs(inst, selectorsFor, config.subResources)
    requires GroupingAlignments(inst, rules, classOf, driverFor, config.alignments)
    requires DistinctTokens(config.subResources)
    requires a in config.alignments && a.enforcement.Required? && i < Instances(req)
    ensures Stated(Prefix(name, Instances(req), i), a) in ExpandedConstraints(name, Instances(req), config, satisfiable,
      Instances(req))
  {
    hide GroupingSubs, GroupingAlignments, DistinctTokens, Closed, Stated, ExpandedConstraints, Prefix;
    GroupingConfigClosed(inst, rules, classOf, driverFor, selectorsFor, config);
    RequiredStated(name, req, config, satisfiable, a, i);
  }

  /** So does every required alignment of a partition config between at least two drivers, unless the class
      of a driver is overridden. */
  lemma PartitionAligned(rep: Partition, rules: seq<TopologyRule>, classOf: string -> string,
                         selectorsFor: string -> seq<string>,
                         config: PartitionConfig, name: string, req: ExactRequest, satisfiable: Satisfiable,
                           a: AlignmentConfig, i: nat)
    requires SubResourcesFor(rep, classOf, selectorsFor, config.subResources)
    requires AlignmentsFor(rep, rules, config.alignments)
    requires forall driver :: driver in rep.deviceCounts ==> classOf(driver) == driver
    requires DistinctTokens(config.subResources)
    requires a in config.alignments && a.enforcement.Required? && |a.requests| >= 2 && i < Instances(req)
    ensures Stated(Prefix(name, Instances(req), i), a) in ExpandedConstraints(name, Instances(req), config, satisfiable,
      Instances(req))
  {
    hide SubResourcesFor, AlignmentsFor, DistinctTokens, Closed, Stated, ExpandedConstraints, Prefix;
    PartitionConfigClosed(rep, rules, classOf, selectorsFor, config);
    RequiredStated(name, req, config, satisfiable, a, i);
  }

  /** Some character that sanitizing replaces. */
  predicate Dotted(s: string) {
    exists c :: c in s && !IsTokenChar(c)
  }

  /** A driver name, which has a dot, resolves exactly when it is itself a sub-resource class. */
  lemma DriverResolvesIff(prefix: string, subs: seq<SubResource>, driver: string)
    requires Dotted(driver)
    ensures Resolve(prefix, subs, driver) != [] <==> driver in ClassesIn(subs)
  {
    hide Token, NamesFor;
    if driver in ClassesIn(subs) {
      ClassHasName(prefix, subs, driver);
    } else if HasToken(subs, driver) {
      var i :| 0 <= i < |subs| && Token(subs[i].deviceClass) == driver;
      TokenShape(subs[i].deviceClass);
    }
  }

  /** Partition alignments name drivers while sub-resources name classes: an alignment whose drivers are all
      overridden produces no constraint, required or not. */
  lemma OverriddenDriversLost(prefix: string, subs: seq<SubResource>, satisfiable: Satisfiable, a: AlignmentConfig)
    requires forall r :: r in a.requests ==> r !in ClassesIn(subs) && Dotted(r)
    ensures AlignmentConstraints(prefix, subs, satisfiable, a) == []
  {
    hide Resolve, ClassesIn, Filter, DriverCounts, MentionsNuma, Dotted;
    var requests := a.requests;
    var all := seq(|requests|, i requires 0 <= i < |requests| => Resolve(prefix, subs, requests[i]));
    forall g | g in all ensures !NonEmpty(g) {
      var i :| 0 <= i < |all| && g == all[i];
      assert requests[i] in requests;
      DriverResolvesIff(prefix, subs, requests[i]);
    }
    FilterNone(all, NonEmpty);
    assert PerDriver(prefix, subs, a.requests) == [];
  }
}
