/** Request names of a whole claim.  Requests of different names stay apart unless one name continues another
    after a '-'. */
module ClaimNames {
  import opened Collections
  import opened Text
  import opened PartitionConfigs
  import opened RequestNames
  import opened ClaimExpansion
  import opened ClaimLaws
  import opened ClaimPatches

  /** Different names, none of which continues the other after a '-'. */
  predicate Apart(a: string, b: string) {
    a != b && !(a + "-" <= b) && !(b + "-" <= a)
  }

  predicate NamesApart(rs: seq<DeviceRequest>) {
    forall i, j :: 0 <= i < j < |rs| ==> Apart(rs[i].name, rs[j].name)
  }

  /** What a request of the claim turns into. */
  function Outcome(env: Env, r: DeviceRequest): seq<DeviceRequest> {
    if Expands(env, r) then Expansion(env, r) else [r]
  }

  lemma GeneratedName(name: string, count: nat, i: nat, c: string)
    ensures name + "-" <= RequestName(Prefix(name, count, i), c)
  {
    hide Token, Decimal;
    if count > 1 {
      assert RequestName(Prefix(name, count, i), c) == name + "-" + (Decimal(i) + "-" + Token(c));
    } else {
      assert RequestName(Prefix(name, count, i), c) == name + "-" + Token(c);
    }
  }

  /** Every request keeps its name, or is replaced by requests whose names continue it. */
  lemma OutcomeNames(env: Env, r: DeviceRequest, x: DeviceRequest)
    requires x in Outcome(env, r)
    ensures if Expands(env, r) then r.name + "-" <= x.name else x == r
  {
    hide ConfigOf, RequestName, Prefix, ExpandedRequests, ParsedCapacity;
    if Expands(env, r) {
      var n, user, subs := Instances(r.exactly.value), r.exactly.value.selectors,
        PartitionOf(env, r).value.subResources;
      Origin(r.name, n, user, subs, n, x);
      var i: nat :| i < n && OfInstance(Prefix(r.name, n, i), user, subs, x);
      var sub :| sub in subs && x == SubRequest(Prefix(r.name, n, i), user, sub);
      GeneratedName(r.name, n, i, sub.deviceClass);
    }
  }

  lemma DashPrefix(a: string, b: string)
    requires a + "-" <= b + "-"
    ensures a == b || a + "-" <= b
  {
    var s, t := a + "-", b + "-";
    assert s == t[..|s|];
    if |a| < |b| {
      assert t[..|s|] == b[..|s|];
    } else {
      assert a == s[..|a|] && b == t[..|b|];
    }
  }

  lemma ApartStaysApart(a: string, b: string, x: string, y: string)
    requires Apart(a, b) && (x == a || a + "-" <= x) && (y == b || b + "-" <= y)
    ensures x != y
  {
    if a + "-" <= b + "-" {
      DashPrefix(a, b);
    } else if b + "-" <= a + "-" {
      DashPrefix(b, a);
    }
  }

  lemma OutcomeUniqueIff(env: Env, r: DeviceRequest)
    ensures UniqueNames(Outcome(env, r)) <==> Expands(env, r) ==> DistinctTokens(PartitionOf(env, r).value.subResources)
  {
    hide ConfigOf, ExpandedRequests, DistinctTokens;
    if Expands(env, r) {
      var n := Instances(r.exactly.value);
      NamesUniqueIff(r.name, n, r.exactly.value.selectors, PartitionOf(env, r).value.subResources, n);
    }
  }

  /** Every expanded request has distinct sanitized classes. */
  ghost predicate AllDistinctTokens(env: Env, rs: seq<DeviceRequest>) {
    forall r :: r in rs && Expands(env, r) ==> DistinctTokens(PartitionOf(env, r).value.subResources)
  }

  /** With names apart, the requests of the expanded claim are unique by name if and only if every expanded
      request has distinct sanitized classes. */
  lemma {:induction false} ClaimNamesUniqueIff(env: Env, rs: seq<DeviceRequest>)
    requires NamesApart(rs)
    ensures UniqueNames(ExpandAll(env, rs)) <==> AllDistinctTokens(env, rs)
  {
    hide Expansion, PartitionOf, DistinctTokens, UniqueNames, Apart;
    if rs == [] {
      NoNames();
    } else {
      var init, last := rs[..|rs| - 1], rs[|rs| - 1];
      assert rs == init + [last];
      ClaimNamesUniqueIff(env, init);
      OutcomeUniqueIff(env, last);
      forall x, y | x in ExpandAll(env, init) && y in Outcome(env, last) ensures x.name != y.name {
        ExpandedMembers(env, init, x);
        var r :| r in init && x in if Expands(env, r) then Expansion(env, r) else [r];
        var i :| 0 <= i < |init| && init[i] == r;
        assert Apart(rs[i].name, rs[|rs| - 1].name);
        OutcomeNames(env, r, x);
        OutcomeNames(env, last, y);
        ApartStaysApart(r.name, last.name, x.name, y.name);
      }
      UniqueConcat(ExpandAll(env, init), Outcome(env, last));
    }
  }

  lemma NoNames()
    ensures UniqueNames([])
  {
  }

  // ---------------------------------------------------------------------
  // Names that are not apart
  // ---------------------------------------------------------------------

  /** Some request generated from one has the name of some request generated from the other. */
  ghost predicate Collide(env: Env, r: DeviceRequest, s: DeviceRequest) {
    exists x, y :: x in Outcome(env, r) && y in Outcome(env, s) && x.name == y.name
  }

  ghost predicate NoneCollide(env: Env, rs: seq<DeviceRequest>) {
    forall i, j :: 0 <= i < j < |rs| ==> !Collide(env, rs[i], rs[j])
  }

  lemma SplitUnique(a: seq<DeviceRequest>, b: seq<DeviceRequest>)
    ensures UniqueNames(a + b) <==>
      UniqueNames(a) && UniqueNames(b) && forall x, y :: x in a && y in b ==> x.name != y.name
  {
    var ab := a + b;
    if forall x, y :: x in a && y in b ==> x.name != y.name {
      UniqueConcat(a, b);
    } else {
      var x, y :| x in a && y in b && x.name == y.name;
      var i :| 0 <= i < |a| && a[i] == x;
      var j :| 0 <= j < |b| && b[j] == y;
      assert ab[i] == x && ab[|a| + j] == y;
    }
  }

  /** For every claim: the names of the expanded claim are unique if and only if every expanded request has distinct
      sanitized classes and no two requests collide. */
  lemma {:induction false} AllNamesUniqueIff(env: Env, rs: seq<DeviceRequest>)
    ensures UniqueNames(ExpandAll(env, rs)) <==> AllDistinctTokens(env, rs) && NoneCollide(env, rs)
  {
    hide Expansion, PartitionOf, DistinctTokens, UniqueNames, Collide;
    if rs == [] {
      NoNames();
    } else {
      var init, last := rs[..|rs| - 1], rs[|rs| - 1];
      assert rs == init + [last];
      AllNamesUniqueIff(env, init);
      OutcomeUniqueIff(env, last);
      SplitUnique(ExpandAll(env, init), Outcome(env, last));
      LastCollides(env, init, last);
      assert NoneCollide(env, rs) <==> NoneCollide(env, init) && forall r :: r in init ==> !Collide(env, r, last) by {
        NoneCollideSnoc(env, init, last);
      }
      assert ExpandAll(env, rs) == ExpandAll(env, init) + Outcome(env, last);
    }
  }

  lemma NoneCollideSnoc(env: Env, init: seq<DeviceRequest>, last: DeviceRequest)
    ensures NoneCollide(env, init + [last]) <==>
      NoneCollide(env, init) && forall r :: r in init ==> !Collide(env, r, last)
  {
    hide Collide;
    var rs := init + [last];
    if NoneCollide(env, rs) {
      forall i, j | 0 <= i < j < |init|
        ensures !Collide(env, init[i], init[j]) { assert rs[i] == init[i] && rs[j] == init[j]; }
      forall r | r in init ensures !Collide(env, r, last) {
        var i :| 0 <= i < |init| && init[i] == r;
        assert rs[i] == r && rs[|init|] == last;
      }
    }
    if NoneCollide(env, init) && forall r :: r in init ==> !Collide(env, r, last) {
      forall i, j | 0 <= i < j < |rs| ensures !Collide(env, rs[i], rs[j]) {
        if j == |init| { assert rs[i] in init; }
      }
    }
  }

  lemma LastCollides(env: Env, init: seq<DeviceRequest>, last: DeviceRequest)
    ensures (forall x, y :: x in ExpandAll(env, init) && y in Outcome(env, last) ==> x.name != y.name) <==>
      forall r :: r in init ==> !Collide(env, r, last)
  {
    hide Expansion, Expands, ExpandAll;
    forall x ensures x in ExpandAll(env, init) <==> exists r :: r in init && x in Outcome(env, r) {
      ExpandedMembers(env, init, x);
    }
  }

  /** The texts that follow the name of an expanded request in the names generated from it. */
  ghost predicate IsTail(env: Env, r: DeviceRequest, t: string)
    requires Expands(env, r)
  {
    exists x :: x in Expansion(env, r) && x.name == r.name + "-" + t
  }

  lemma TailOf(env: Env, r: DeviceRequest, x: DeviceRequest) returns (t: string)
    requires Expands(env, r) && x in Expansion(env, r)
    ensures x.name == r.name + "-" + t && IsTail(env, r, t)
  {
    hide Expansion, Expands;
    OutcomeNames(env, r, x);
    t := x.name[|r.name| + 1..];
    assert x.name == (r.name + "-") + t;
  }

  ghost predicate TailsMeet(env: Env, r: DeviceRequest, s: DeviceRequest, rest: string)
    requires Expands(env, r)
  {
    if Expands(env, s) then exists t :: IsTail(env, s, t) && IsTail(env, r, rest + "-" + t) else IsTail(env, r, rest)
  }

  /** When one name continues the other after a '-', the requests collide exactly if the first expands and one of its
      tails is what the second name adds, followed by a tail of the second if that expands too. */
  lemma CollideIff(env: Env, r: DeviceRequest, s: DeviceRequest, rest: string)
    requires s.name == r.name + "-" + rest
    ensures Collide(env, r, s) <==> Expands(env, r) && TailsMeet(env, r, s, rest)
  {
    hide Expansion, PartitionOf;
    if Collide(env, r, s) {
      var x, y :| x in Outcome(env, r) && y in Outcome(env, s) && x.name == y.name;
      OutcomeNames(env, r, x);
      OutcomeNames(env, s, y);
      if Expands(env, r) && Expands(env, s) {
        var t := TailOf(env, s, y);
        assert x.name == r.name + "-" + (rest + "-" + t);
      }
    }
    if Expands(env, r) && Expands(env, s) && exists t :: IsTail(env, s, t) && IsTail(env, r, rest + "-" + t) {
      var t :| IsTail(env, s, t) && IsTail(env, r, rest + "-" + t);
      assert r.name + "-" + (rest + "-" + t) == s.name + "-" + t;
    }
  }

  /** Such a claim: a request of count 2 or more, and a request called like its first instance, that ask for a
      common class. */
  lemma NamesCollide(env: Env, r: DeviceRequest, s: DeviceRequest, sub: SubResource, sub': SubResource)
    requires Expands(env, r) && Expands(env, s) && r.exactly.value.count >= 2 && s.exactly.value.count <= 1
    requires s.name == r.name + "-0"
    requires sub in PartitionOf(env, r).value.subResources && sub' in PartitionOf(env, s).value.subResources
    requires sub.deviceClass == sub'.deviceClass
    ensures !UniqueNames(ExpandAll(env, [r, s]))
  {
    hide ConfigOf, ParsedCapacity, Token, UniqueNames, ExpandAll, AllDistinctTokens, ExpandedRequests;
    var n, user := Instances(r.exactly.value), r.exactly.value.selectors;
    var x := SubRequest(Prefix(r.name, n, 0), user, sub);
    var y := SubRequest(Prefix(s.name, 1, 0), s.exactly.value.selectors, sub');
    assert OfInstance(Prefix(r.name, n, 0), user, PartitionOf(env, r).value.subResources, x);
    Origin(r.name, n, user, PartitionOf(env, r).value.subResources, n, x);
    assert OfInstance(Prefix(s.name, 1, 0), s.exactly.value.selectors, PartitionOf(env, s).value.subResources, y);
    Origin(s.name, 1, s.exactly.value.selectors, PartitionOf(env, s).value.subResources, 1, y);
    assert Decimal(0) == "0";
    assert x.name == y.name;
    assert Collide(env, r, s);
    assert !NoneCollide(env, [r, s]) by { assert [r, s][0] == r && [r, s][1] == s; }
    AllNamesUniqueIff(env, [r, s]);
  }
}
