/** References inside the admitted claim.  Generated constraints name generated requests; the claim's own
    constraints are kept as they are, although the requests they name may be gone. */
module ClaimConstraints {
  import opened Collections
  import opened PartitionConfigs
  import opened RequestNames
  import opened ClaimExpansion
  import opened ClaimLaws
  import opened ClaimPatches
  import opened ClaimNames

  /** A constraint names only requests of the list. */
  predicate ClosedIn(rs: seq<DeviceRequest>, c: MatchConstraint) {
    forall n :: n in c.requests ==> HasRequest(rs, n)
  }

  ghost predicate ClosedClaim(claim: Claim) {
    forall c :: c in claim.constraints ==> ClosedIn(claim.requests, c)
  }

  // ---------------------------------------------------------------------
  // Generated constraints
  // ---------------------------------------------------------------------

  lemma {:induction false} ConstraintOrigin(env: Env, rs: seq<DeviceRequest>, c: MatchConstraint)
    ensures c in AllConstraints(env, rs) <==>
      exists r :: r in rs && Expands(env, r) && c in ExpansionConstraints(env, r)
  {
    hide Expands, ExpansionConstraints;
    if rs != [] {
      var init, last := rs[..|rs| - 1], rs[|rs| - 1];
      assert rs == init + [last];
      ConstraintOrigin(env, init, c);
    }
  }

  lemma InstanceNameGenerated(env: Env, r: DeviceRequest, i: nat, name: string)
    requires Expands(env, r) && i < Instances(r.exactly.value)
    requires name in InstanceNames(Prefix(r.name, Instances(r.exactly.value), i),
      PartitionOf(env, r).value.subResources)
    ensures HasRequest(Expansion(env, r), name)
  {
    hide ConfigOf, RequestName, Prefix, ExpandedRequests, ParsedCapacity;
    var n, user, subs := Instances(r.exactly.value), r.exactly.value.selectors,
      PartitionOf(env, r).value.subResources;
    var sub :| sub in subs && name == RequestName(Prefix(r.name, n, i), sub.deviceClass);
    var x := SubRequest(Prefix(r.name, n, i), user, sub);
    assert OfInstance(Prefix(r.name, n, i), user, subs, x);
    Origin(r.name, n, user, subs, n, x);
    assert x in Expansion(env, r) && x.name == name;
  }

  /** Generated constraints are always closed. */
  lemma GeneratedClosed(env: Env, rs: seq<DeviceRequest>, c: MatchConstraint)
    requires c in AllConstraints(env, rs)
    ensures ClosedIn(ExpandAll(env, rs), c)
  {
    hide AllConstraints, ExpandAll, ConfigOf, Prefix, ExpandedConstraints, Expansion, InstanceNames;
    ConstraintOrigin(env, rs, c);
    var r :| r in rs && Expands(env, r) && c in ExpansionConstraints(env, r);
    var n := Instances(r.exactly.value);
    ConstraintsInside(r.name, n, PartitionOf(env, r).value, env.satisfiable, n, c);
    var i: nat :| i < n && Inside(c, InstanceNames(Prefix(r.name, n, i), PartitionOf(env, r).value.subResources));
    forall name | name in c.requests ensures HasRequest(ExpandAll(env, rs), name) {
      InstanceNameGenerated(env, r, i, name);
      var x :| x in Expansion(env, r) && x.name == name;
      ExpandedMembers(env, rs, x);
    }
  }

  // ---------------------------------------------------------------------
  // The claim's own constraints
  // ---------------------------------------------------------------------

  /** A name of the claim is still the name of a request after expansion, if and only if the request does not expand. */
  lemma NameKeptIff(env: Env, rs: seq<DeviceRequest>, r: DeviceRequest)
    requires NamesApart(rs) && r in rs
    ensures HasRequest(ExpandAll(env, rs), r.name) <==> !Expands(env, r)
  {
    hide ExpandAll, Expansion, PartitionOf;
    if !Expands(env, r) { ExpandedMembers(env, rs, r); }
    if HasRequest(ExpandAll(env, rs), r.name) {
      var x :| x in ExpandAll(env, rs) && x.name == r.name;
      ExpandedMembers(env, rs, x);
      var q :| q in rs && x in if Expands(env, q) then Expansion(env, q) else [q];
      OutcomeNames(env, q, x);
      if q != r { ApartInside(rs, q, r); }
    }
  }

  lemma ApartInside(rs: seq<DeviceRequest>, q: DeviceRequest, r: DeviceRequest)
    requires NamesApart(rs) && q in rs && r in rs && q != r
    ensures Apart(q.name, r.name)
  {
    var i :| 0 <= i < |rs| && rs[i] == q;
    var j :| 0 <= j < |rs| && rs[j] == r;
    assert if i < j then Apart(rs[i].name, rs[j].name) else Apart(rs[j].name, rs[i].name);
  }

  /** Some constraint of the claim names a request that expands. */
  ghost predicate NamesExpanded(env: Env, claim: Claim) {
    exists c, r :: c in claim.constraints && r in claim.requests && r.name in c.requests && Expands(env, r)
  }

  /** A closed claim stays closed if and only if none of its own constraints names a request that expands: those are
      not rewritten and dangle. */
  lemma StaysClosedIff(env: Env, claim: Claim)
    requires NamesApart(claim.requests) && ClosedClaim(claim)
    ensures ClosedClaim(Admitted(env, claim)) <==> !NamesExpanded(env, claim)
  {
    hide ExpandAll, AllConstraints, Mapping, Expands, NamesApart;
    var rs, after := claim.requests, Admitted(env, claim);
    if AnyExpands(env, rs) {
      assert after.requests == ExpandAll(env, rs) && after.constraints == claim.constraints + AllConstraints(env, rs);
      forall c | c in AllConstraints(env, rs) ensures ClosedIn(after.requests, c) { GeneratedClosed(env, rs, c); }
      forall r | r in rs ensures HasRequest(after.requests, r.name) <==> !Expands(env, r) { NameKeptIff(env, rs, r); }
      if c, r :| c in claim.constraints && r in rs && r.name in c.requests && Expands(env, r) {
        assert c in after.constraints && !ClosedIn(after.requests, c);
      }
      if !NamesExpanded(env, claim) {
        forall c | c in claim.constraints ensures ClosedIn(after.requests, c) {
          forall n | n in c.requests ensures HasRequest(after.requests, n) {
            assert HasRequest(rs, n);
            var r :| r in rs && r.name == n;
          }
        }
      }
    }
  }
}
