/** The admitted claim as a whole: where the generated requests stand, which constraints it has, and how a match
    rule reaches it. */
module AdmittedClaims {
  import opened Collections
  import opened Topology
  import opened Satisfiability
  import opened PartitionBuilder
  import opened GroupingBuilder
  import opened PartitionConfigs
  import opened RequestNames
  import opened ClaimExpansion
  import opened ClaimLaws
  import opened ClaimPatches
  import opened ExpansionCounts
  import opened RuleConstraints
  import opened ClaimConstraints

  // ---------------------------------------------------------------------
  // Requests stand in place
  // ---------------------------------------------------------------------

  lemma {:induction false} ExpandConcat(env: Env, a: seq<DeviceRequest>, b: seq<DeviceRequest>)
    ensures ExpandAll(env, a + b) == ExpandAll(env, a) + ExpandAll(env, b)
  {
    hide Expansion, Expands;
    if b == [] {
      assert a + b == a;
    } else {
      ExpandConcat(env, a, b[..|b| - 1]);
      assert (a + b)[..|a + b| - 1] == a + b[..|b| - 1];
    }
  }

  /** Every request is replaced where it stands, or stays there. */
  lemma ExpandedInPlace(env: Env, rs: seq<DeviceRequest>, n: nat)
    requires n < |rs|
    ensures ExpandAll(env, rs) ==
      ExpandAll(env, rs[..n]) + (if Expands(env, rs[n]) then Expansion(env, rs[n]) else [rs[n]]) +
        ExpandAll(env, rs[n + 1..])
  {
    hide Expansion, Expands;
    assert rs == rs[..n] + [rs[n]] + rs[n + 1..];
    ExpandConcat(env, rs[..n] + [rs[n]], rs[n + 1..]);
    ExpandConcat(env, rs[..n], [rs[n]]);
    ExpandOne(env, rs[n]);
  }

  lemma ExpandOne(env: Env, r: DeviceRequest)
    ensures ExpandAll(env, [r]) == if Expands(env, r) then Expansion(env, r) else [r]
  {
    hide Expansion, Expands;
    assert [r][..0] == [];
    assert ExpandAll(env, []) == [];
  }

  // ---------------------------------------------------------------------
  // Constraints
  // ---------------------------------------------------------------------

  /** The admitted claim keeps its own constraints in front; the others are those of its expanded requests. */
  lemma AdmittedConstraints(env: Env, claim: Claim)
    ensures var all := Admitted(env, claim).constraints;
      && claim.constraints <= all
      && forall c :: c in all[|claim.constraints|..] <==>
           exists r :: r in claim.requests && Expands(env, r) && c in ExpansionConstraints(env, r)
  {
    hide ExpansionConstraints, Expands, ExpandAll, Mapping, AllConstraints;
    forall c ensures c in AllConstraints(env, claim.requests) <==>
      exists r :: r in claim.requests && Expands(env, r) && c in ExpansionConstraints(env, r) {
      ConstraintOrigin(env, claim.requests, c);
    }
  }

  lemma ConstraintAdmitted(env: Env, claim: Claim, r: DeviceRequest, c: MatchConstraint)
    requires r in claim.requests && Expands(env, r) && c in ExpansionConstraints(env, r)
    ensures c in Admitted(env, claim).constraints
  {
    hide ExpansionConstraints, Expands, Admitted;
    AdmittedConstraints(env, claim);
    var all, n := Admitted(env, claim).constraints, |claim.constraints|;
    assert all == all[..n] + all[n..];
  }

  /** A request of count N is constrained like N instances. */
  lemma WantedConstraints(env: Env, r: DeviceRequest)
    requires Expands(env, r)
    ensures Wanted(r.exactly.value.count) >= 1
    ensures var n := Wanted(r.exactly.value.count);
      ExpansionConstraints(env, r) == ExpandedConstraints(r.name, n, PartitionOf(env, r).value, env.satisfiable, n)
  {
    hide ExpandedConstraints, ConfigOf;
  }

  // ---------------------------------------------------------------------
  // From a rule to the admitted claim
  // ---------------------------------------------------------------------

  /** In each of the instances that a request asks for, the claim ties the requests of both names. */
  ghost predicate TiedInAll(constraints: seq<MatchConstraint>, r: DeviceRequest, attribute: AttributeName, one: string,
                            two: string)
    requires r.exactly.Some?
  {
    var n := Wanted(r.exactly.value.count);
    forall i: nat :: i < n ==> SomeTie(constraints, attribute, Prefix(r.name, n, i), one, two)
  }

  lemma TieAdmitted(env: Env, claim: Claim, r: DeviceRequest, attribute: AttributeName, prefix: string, one: string,
                    two: string)
    requires r in claim.requests && Expands(env, r)
    requires SomeTie(ExpansionConstraints(env, r), attribute, prefix, one, two)
    ensures SomeTie(Admitted(env, claim).constraints, attribute, prefix, one, two)
  {
    hide ExpansionConstraints, Expands, Admitted, Ties;
    var c :| c in ExpansionConstraints(env, r) && Ties(c, attribute, prefix, one, two);
    ConstraintAdmitted(env, claim, r, c);
  }

  /** Without overrides, a match rule that is required, unset, or preferred and satisfiable ties, in the admitted claim
      and in every instance that a request for the partition's class asks for, any two of the partition's drivers that
      publish the rule's attribute. */
  lemma PartitionRuleAdmitted(env: Env, claim: Claim, r: DeviceRequest, rep: Partition, rules: seq<TopologyRule>,
                              classOf: string -> string, selectorsFor: string -> seq<string>, rule: TopologyRule,
                              one: string, two: string)
    requires r in claim.requests && Expands(env, r)
    requires var config := PartitionOf(env, r).value;
      && SubResourcesFor(rep, classOf, selectorsFor, config.subResources)
      && AlignmentsFor(rep, rules, config.alignments) && DistinctTokens(config.subResources)
      && RuleEnforced(rule, env.satisfiable, DriverCounts(config.subResources))
    requires forall driver :: driver in rep.deviceCounts ==> classOf(driver) == driver
    requires rule in rules && (rule.driver == "" || rule.driver in rep.deviceCounts)
    requires rule.fallbackAttribute.None? || PartitionSatisfies(rep.devices, rule.attribute, rep.deviceCounts)
    requires one != two && one in rep.deviceCounts && two in rep.deviceCounts
    requires Publishes(rep.devices, one, rule.attribute) && Publishes(rep.devices, two, rule.attribute)
    ensures TiedInAll(Admitted(env, claim).constraints, r, rule.attribute, one, two)
  {
    hide SubResourcesFor, AlignmentsFor, DistinctTokens, ExpandedConstraints, ExpansionConstraints, Prefix;
    hide DriverCounts;
    hide Publishes, SomeTie, RuleEnforced, PartitionSatisfies, ConfigOf, Admitted;
    var n, config := Wanted(r.exactly.value.count), PartitionOf(env, r).value;
    WantedConstraints(env, r);
    forall i: nat | i < n
      ensures SomeTie(Admitted(env, claim).constraints, rule.attribute, Prefix(r.name, n, i), one, two)
    {
      RuleTies(rep, rules, classOf, selectorsFor, config, r.name, n, env.satisfiable, rule, i, one, two);
      TieAdmitted(env, claim, r, rule.attribute, Prefix(r.name, n, i), one, two);
    }
  }

  /** For a grouping's class the same holds of any two of its device classes, overridden or not. */
  lemma GroupingRuleAdmitted(env: Env, claim: Claim, r: DeviceRequest, inst: GroupingInstance,
                             rules: seq<TopologyRule>, classOf: string -> string, driverFor: string -> string,
                             selectorsFor: string -> seq<string>, rule: TopologyRule, one: string, two: string)
    requires r in claim.requests && Expands(env, r)
    requires var config := PartitionOf(env, r).value;
      && GroupingSubs(inst, selectorsFor, config.subResources) && DistinctTokens(config.subResources)
      && GroupingAlignments(inst, rules, classOf, driverFor, config.alignments)
      && RuleEnforced(rule, env.satisfiable, DriverCounts(config.subResources))
    requires rule in rules && (rule.driver == "" || classOf(rule.driver) in inst.deviceCounts)
    requires one != two && one in inst.deviceCounts && HasValue(inst.devices, driverFor(one), rule.attribute)
    requires two in inst.deviceCounts && HasValue(inst.devices, driverFor(two), rule.attribute)
    ensures TiedInAll(Admitted(env, claim).constraints, r, rule.attribute, one, two)
  {
    hide GroupingSubs, GroupingAlignments, DistinctTokens, ExpandedConstraints, ExpansionConstraints, Prefix;
    hide DriverCounts;
    hide HasValue, SomeTie, RuleEnforced, ConfigOf, Admitted;
    var n, config := Wanted(r.exactly.value.count), PartitionOf(env, r).value;
    WantedConstraints(env, r);
    forall i: nat | i < n
      ensures SomeTie(Admitted(env, claim).constraints, rule.attribute, Prefix(r.name, n, i), one, two)
    {
      GroupingRuleTies(inst, rules, classOf, driverFor, selectorsFor, config, r.name, n, env.satisfiable, rule, i, one,
        two);
      TieAdmitted(env, claim, r, rule.attribute, Prefix(r.name, n, i), one, two);
    }
  }

  // ---------------------------------------------------------------------
  // Classes with several requests
  // ---------------------------------------------------------------------

  /** Every driver has a name at the index, or one name for all. */
  predicate PairsAt(perDriver: seq<seq<string>>, idx: nat) {
    forall k :: 0 <= k < |perDriver| ==> idx < |perDriver[k]| || |perDriver[k]| == 1
  }

  /** The pair at an index takes, driver by driver, the name at the index, or the only name. */
  lemma {:induction false} PairIs(perDriver: seq<seq<string>>, idx: nat)
    requires PairsAt(perDriver, idx)
    ensures |PairAt(perDriver, idx)| == |perDriver|
    ensures forall k :: 0 <= k < |perDriver| ==>
      PairAt(perDriver, idx)[k] == if idx < |perDriver[k]| then perDriver[k][idx] else perDriver[k][0]
  {
    if perDriver != [] {
      var init := perDriver[..|perDriver| - 1];
      PairIs(init, idx);
      assert PairsAt(perDriver, idx);
      assert forall k :: 0 <= k < |init| ==> init[k] == perDriver[k];
    }
  }

  lemma {:induction false} MaxSplitIs(perDriver: seq<seq<string>>)
    ensures forall names :: names in perDriver ==> |names| <= MaxSplit(perDriver)
    ensures MaxSplit(perDriver) > 0 ==> exists names :: names in perDriver && |names| == MaxSplit(perDriver)
  {
    if perDriver != [] {
      var init, last := perDriver[..|perDriver| - 1], perDriver[|perDriver| - 1];
      assert perDriver == init + [last];
      MaxSplitIs(init);
    }
  }

  /** The NUMA node attribute, and any whose name holds "numaNode", is constrained as a whole; the PCIe root is not. */
  lemma NumaMentioned(before: string, after: string)
    ensures MentionsNuma(NumaNodeName) && MentionsNuma(Named(before + "numaNode" + after))
    ensures !MentionsNuma(PcieRootName)
  {
    hide MentionsNuma;
    var a := Named(before + "numaNode" + after);
    assert a.Text() == before + ("numaNode" + after);
    assert a.Text()[|before|..] == "numaNode" + after;
    MentionedAt(a, |before|);
    StandardMentions();
    RootMentionsNot();
  }

  lemma StandardMentions()
    ensures MentionsNuma(NumaNodeName)
  {
    hide MentionsNuma;
    var standard := NumaNodeName.Text();
    assert standard[23..] == "numaNode";
    MentionedAt(NumaNodeName, 23);
  }

  lemma RootMentionsNot()
    ensures !MentionsNuma(PcieRootName)
  {
    var root := PcieRootName.Text();
    assert 'N' !in root;
    forall i | 0 <= i <= |root| ensures !("numaNode" <= root[i..]) {
      if "numaNode" <= root[i..] { NoLetter(root, i); }
    }
  }

  lemma NoLetter(text: string, i: nat)
    requires i <= |text| && "numaNode" <= text[i..]
    ensures 'N' in text
  {
    assert "numaNode"[4] == 'N' && text[i..][4] == text[i + 4];
  }

  lemma MentionedAt(a: AttributeName, i: nat)
    requires i <= |a.Text()| && "numaNode" <= a.Text()[i..]
    ensures MentionsNuma(a)
  {
  }

  /** With several names for some driver, and off the NUMA node, index by index one constraint ties what the drivers
      have there, unless fewer than two have anything; otherwise one constraint ties all names. */
  lemma ConstrainedIff(perDriver: seq<seq<string>>, a: AttributeName, c: MatchConstraint)
    ensures c in Constrain(perDriver, a) <==>
      && c.attribute == a && |c.requests| >= 2
      && if (exists names :: names in perDriver && |names| > 1) && !MentionsNuma(a)
         then exists idx: nat :: c.requests == PairAt(perDriver, idx) && exists names ::
           names in perDriver && idx < |names|
         else c.requests == Flatten(perDriver)
  {
    hide PairAt, MentionsNuma, Flatten;
    MaxSplitIs(perDriver);
    PairsAre(perDriver, a, MaxSplit(perDriver), c);
  }

  lemma {:induction false} PairsAre(perDriver: seq<seq<string>>, a: AttributeName, n: nat, c: MatchConstraint)
    ensures c in PairConstraints(perDriver, a, n) <==>
      c.attribute == a && |c.requests| >= 2 && exists idx: nat :: idx < n && c.requests == PairAt(perDriver, idx)
  {
    hide PairAt;
    if n > 0 {
      PairsAre(perDriver, a, n - 1, c);
      assert c in AtLeastTwo(PairAt(perDriver, n - 1), a) <==>
        c.attribute == a && |c.requests| >= 2 && c.requests == PairAt(perDriver, n - 1);
    }
  }
}
