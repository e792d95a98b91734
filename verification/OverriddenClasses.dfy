/** Partition alignments name drivers, while sub-resources name device classes.  What an alignment becomes when
    rules override the classes of some of its drivers. */
module OverriddenClasses {
  import opened Collections
  import opened Topology
  import opened PartitionBuilder
  import opened PartitionConfigs
  import opened RequestNames
  import opened ClaimExpansion
  import opened ClaimLaws

  /** Is a driver name also the name of a sub-resource class? */
  function IsClass(subs: seq<SubResource>): string -> bool {
    r => r in ClassesIn(subs)
  }

  ghost predicate AllDotted(requests: seq<string>) {
    forall r :: r in requests ==> Dotted(r)
  }

  lemma ResolvedSnoc(prefix: string, subs: seq<SubResource>, requests: seq<string>, r: string)
    ensures PerDriver(prefix, subs, requests + [r]) ==
      PerDriver(prefix, subs, requests) + if Resolve(prefix, subs, r) != [] then [Resolve(prefix, subs, r)] else []
  {
    hide Resolve;
    var before := seq(|requests|, i requires 0 <= i < |requests| => Resolve(prefix, subs, requests[i]));
    var longer := requests + [r];
    var all := seq(|longer|, i requires 0 <= i < |longer| => Resolve(prefix, subs, longer[i]));
    assert all == before + [Resolve(prefix, subs, r)];
    FilterSnoc(before, Resolve(prefix, subs, r), NonEmpty);
  }

  lemma SingletonsSnoc(prefix: string, requests: seq<string>, r: string)
    ensures Singletons(NamesOf(prefix, requests + [r])) ==
      Singletons(NamesOf(prefix, requests)) + [[RequestName(prefix, r)]]
  {
    hide RequestName;
  }

  /** Only the drivers that are classes resolve, each to its own request. */
  lemma {:induction false} ResolvedDrivers(prefix: string, subs: seq<SubResource>, requests: seq<string>)
    requires DistinctTokens(subs) && AllDotted(requests)
    ensures PerDriver(prefix, subs, requests) == Singletons(NamesOf(prefix, Filter(requests, IsClass(subs))))
  {
    hide RequestName, NamesFor, DistinctTokens, ClassesIn, Dotted, PerDriver, Singletons, NamesOf, Filter, HasToken;
    if requests == [] {
      NothingResolved(prefix, subs);
    } else {
      var init, r := requests[..|requests| - 1], requests[|requests| - 1];
      assert requests == init + [r];
      assert r in requests;
      ResolvedDrivers(prefix, subs, init);
      ResolvedSnoc(prefix, subs, init, r);
      FilterSnoc(init, r, IsClass(subs));
      DriverResolvesIff(prefix, subs, r);
      var kept := Filter(init, IsClass(subs));
      SingletonsSnoc(prefix, kept, r);
      if IsClass(subs)(r) {
        OneName(prefix, subs, r);
        assert Filter(requests, IsClass(subs)) == kept + [r];
      } else {
        assert Filter(requests, IsClass(subs)) == kept + [] == kept;
        assert PerDriver(prefix, subs, requests) == PerDriver(prefix, subs, init) + [] == PerDriver(prefix, subs, init);
      }
    }
  }

  lemma NothingResolved(prefix: string, subs: seq<SubResource>)
    ensures PerDriver(prefix, subs, []) == Singletons(NamesOf(prefix, Filter([], IsClass(subs))))
  {
  }

  /** An enforced alignment becomes one constraint over exactly those of its drivers that are classes, and is
      lost when fewer than two of them are. */
  lemma AlignmentNarrowed(prefix: string, subs: seq<SubResource>, satisfiable: Satisfiable, a: AlignmentConfig)
    requires DistinctTokens(subs) && AllDotted(a.requests) && Enforces(satisfiable, DriverCounts(subs), a)
    ensures var kept := Filter(a.requests, IsClass(subs));
      AlignmentConstraints(prefix, subs, satisfiable, a) ==
        if |kept| >= 2 then [MatchConstraint(NamesOf(prefix, kept), a.attribute)] else []
  {
    hide RequestName, PerDriver, DistinctTokens, ClassesIn, DriverCounts, MentionsNuma, PairConstraints, MaxSplit;
    hide Flatten;
    hide Singletons, Filter, Enforces;
    ResolvedDrivers(prefix, subs, a.requests);
    SingletonsFlat(NamesOf(prefix, Filter(a.requests, IsClass(subs))));
  }

  lemma {:induction false} FilterShorter(requests: seq<string>, p: string -> bool)
    ensures |Filter(requests, p)| <= |requests|
    ensures |Filter(requests, p)| == |requests| <==> forall r :: r in requests ==> p(r)
  {
    if requests != [] {
      var init, r := requests[..|requests| - 1], requests[|requests| - 1];
      assert requests == init + [r];
      FilterShorter(init, p);
    }
  }

  /** An enforced alignment of at least two drivers becomes the constraint it states if and only if every one of
      its drivers is a sub-resource class. */
  lemma AlignmentStatedIff(prefix: string, subs: seq<SubResource>, satisfiable: Satisfiable, a: AlignmentConfig)
    requires DistinctTokens(subs) && AllDotted(a.requests) && Enforces(satisfiable, DriverCounts(subs), a)
    requires |a.requests| >= 2
    ensures AlignmentConstraints(prefix, subs, satisfiable, a) == [Stated(prefix, a)] <==>
      forall r :: r in a.requests ==> r in ClassesIn(subs)
  {
    hide RequestName, AlignmentConstraints, DistinctTokens, ClassesIn, DriverCounts, Filter, Enforces;
    AlignmentNarrowed(prefix, subs, satisfiable, a);
    var kept := Filter(a.requests, IsClass(subs));
    FilterShorter(a.requests, IsClass(subs));
    if forall r :: r in a.requests ==> IsClass(subs)(r) {
      FilterAll(a.requests, IsClass(subs));
    } else {
      assert |NamesOf(prefix, kept)| != |NamesOf(prefix, a.requests)|;
    }
  }

  // ---------------------------------------------------------------------
  // Partition configs
  // ---------------------------------------------------------------------

  /** The class of some driver of the partition. */
  ghost predicate IsSomeClass(rep: Partition, classOf: string -> string, r: string) {
    exists driver :: driver in rep.deviceCounts && classOf(driver) == r
  }

  lemma PartitionClasses(rep: Partition, classOf: string -> string, selectorsFor: string -> seq<string>,
                         subs: seq<SubResource>, c: string)
    requires SubResourcesFor(rep, classOf, selectorsFor, subs)
    ensures c in ClassesIn(subs) <==> IsSomeClass(rep, classOf, c)
  {
    hide CountIn;
    var order :| ListsSet(order, rep.deviceCounts.Keys) && |subs| == |order| &&
      forall i :: 0 <= i < |subs| ==> subs[i] == SubFor(rep, classOf, selectorsFor, order[i]);
    if c in ClassesIn(subs) {
      var i :| 0 <= i < |subs| && subs[i].deviceClass == c;
      assert order[i] in order;
    }
    if driver :| driver in rep.deviceCounts && classOf(driver) == c {
      assert driver in order;
      var i :| 0 <= i < |order| && order[i] == driver;
      assert subs[i] in subs;
    }
  }

  /** A required alignment of a partition config holds in an instance if and only if every driver it names is
      the class of some driver of the partition; in particular without overrides, and also when drivers are
      overridden to each other's names. */
  lemma PartitionAlignedIff(rep: Partition, rules: seq<TopologyRule>, classOf: string -> string,
                            selectorsFor: string -> seq<string>, config: PartitionConfig, prefix: string,
                            satisfiable: Satisfiable, a: AlignmentConfig)
    requires SubResourcesFor(rep, classOf, selectorsFor, config.subResources)
    requires AlignmentsFor(rep, rules, config.alignments)
    requires DistinctTokens(config.subResources) && forall driver :: driver in rep.deviceCounts ==> Dotted(driver)
    requires a in config.alignments && a.enforcement.Required? && |a.requests| >= 2
    ensures AlignmentConstraints(prefix, config.subResources, satisfiable, a) == [Stated(prefix, a)] <==>
      forall r :: r in a.requests ==> IsSomeClass(rep, classOf, r)
  {
    hide SubResourcesFor, AlignmentsFor, DistinctTokens, AlignmentConstraints, Stated, IsSomeClass, ClassesIn, Emits;
    AlignmentsNameDrivers(rep, rules, config.alignments);
    var rule :| rule in rules && Emits(rep, rule) && AlignmentFor(rep, rule, a);
    forall r | r in a.requests ensures Dotted(r) { assert r in rep.deviceCounts; }
    AlignmentStatedIff(prefix, config.subResources, satisfiable, a);
    forall r ensures r in ClassesIn(config.subResources) <==> IsSomeClass(rep, classOf, r) {
      PartitionClasses(rep, classOf, selectorsFor, config.subResources, r);
    }
  }
}
