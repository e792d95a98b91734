/** Expanding one request for a partition class: every instance becomes one request per sub-resource,
    with a constraint per alignment that ties the requests of that instance together. */
module ClaimExpansion {
  import opened Collections
  import opened Text
  import opened Topology
  import opened PartitionBuilder
  import opened PartitionConfigs
  import opened RequestNames

  datatype ExactRequest = ExactRequest(deviceClass: string, count: int, capacity: Option<map<string, int>>,
    selectors: seq<string>)

  /** A request without `exactly` offers alternatives and is never expanded. */
  datatype DeviceRequest = DeviceRequest(name: string, exactly: Option<ExactRequest>)

  datatype MatchConstraint = MatchConstraint(requests: seq<string>, attribute: AttributeName)

  type Satisfiable = (AttributeName, map<string, int>) -> bool

  // ---------------------------------------------------------------------
  // Sub-requests
  // ---------------------------------------------------------------------

  /** Capacities that do not parse are dropped. */
  function ParsedCapacity(c: Capacity): map<string, int> {
    map n | n in c && c[n].Quantity? :: c[n].units
  }

  function SubRequest(prefix: string, user: seq<string>, sub: SubResource): DeviceRequest {
    DeviceRequest(RequestName(prefix, sub.deviceClass),
      Some(ExactRequest(sub.deviceClass, sub.count, if |sub.capacity| > 0
        then Some(ParsedCapacity(sub.capacity)) else None, sub.selectors + user)))
  }

  /** One request per sub-resource, in order, with the user's selectors appended to its own. */
  function SubRequests(prefix: string, user: seq<string>, subs: seq<SubResource>): seq<DeviceRequest> {
    seq(|subs|, i requires 0 <= i < |subs| => SubRequest(prefix, user, subs[i]))
  }

  method ParseCapacity(c: Capacity) returns (parsed: map<string, int>)
    ensures parsed == ParsedCapacity(c)
  {
    parsed := map[];
    var todo := c.Keys;
    while todo != {}
      invariant todo <= c.Keys
      invariant parsed == map n | n in c && n !in todo && c[n].Quantity? :: c[n].units
      decreases |todo|
    {
      var n :| n in todo;
      todo := todo - {n};
      if c[n].Quantity? { parsed := parsed[n := c[n].units]; }
    }
  }

  /** The names of the requests that stand for a device class: one per sub-resource of that class. */
  function NamesFor(prefix: string, subs: seq<SubResource>, c: string): seq<string> {
    seq(|Filter(subs, KeyIs(SubClass(), c))|, i => RequestName(prefix, c))
  }

  function SubClass(): SubResource -> string {
    (sub: SubResource) => sub.deviceClass
  }

  ghost predicate NameTable(prefix: string, subs: seq<SubResource>, table: map<string, seq<string>>) {
    && table.Keys == ClassesIn(subs)
    && forall c :: c in table ==> table[c] == NamesFor(prefix, subs, c)
  }

  lemma NameTableSnoc(prefix: string, subs: seq<SubResource>, sub: SubResource, table: map<string, seq<string>>)
    requires NameTable(prefix, subs, table)
    ensures var c := sub.deviceClass;
      NameTable(prefix, subs + [sub], table[c := (if c in table then table[c] else []) + [RequestName(prefix, c)]])
  {
    hide Filter, RequestName;
    assert ClassesIn(subs + [sub]) == ClassesIn(subs) + {sub.deviceClass};
    forall c ensures NamesFor(prefix, subs + [sub], c) == NamesFor(prefix, subs, c) +
      if c == sub.deviceClass then [RequestName(prefix, c)] else [] {
      FilterSnoc(subs, sub, KeyIs(SubClass(), c));
      assert KeyIs(SubClass(), c)(sub) <==> c == sub.deviceClass;
      var grown := NamesFor(prefix, subs, c) + if c == sub.deviceClass then [RequestName(prefix, c)] else [];
      assert |NamesFor(prefix, subs + [sub], c)| == |grown|;
    }
    if sub.deviceClass !in table { FilterNone(subs, KeyIs(SubClass(), sub.deviceClass)); }
  }

  method BuildSubRequests(prefix: string, user: seq<string>, subs: seq<SubResource>)
    returns (requests: seq<DeviceRequest>, table: map<string, seq<string>>)
    ensures requests == SubRequests(prefix, user, subs) && NameTable(prefix, subs, table)
  {
    hide Token, ParsedCapacity, NameTable;
    requests, table := [], map[];
    EmptyTable(prefix);
    for i := 0 to |subs|
      invariant requests == SubRequests(prefix, user, subs[..i])
      invariant NameTable(prefix, subs[..i], table)
    {
      var sub := subs[i];
      assert subs[..i + 1] == subs[..i] + [sub];
      NameTableSnoc(prefix, subs[..i], sub, table);
      var sanitized := SanitizeDeviceClassName(sub.deviceClass);
      var name := prefix + "-" + sanitized;
      table := table[sub.deviceClass := (if sub.deviceClass in table then table[sub.deviceClass] else []) + [name]];
      var capacity := None;
      if |sub.capacity| > 0 {
        var parsed := ParseCapacity(sub.capacity);
        capacity := Some(parsed);
      }
      requests := requests + [DeviceRequest(name,
        Some(ExactRequest(sub.deviceClass, sub.count, capacity, sub.selectors + user)))];
    }
    assert subs[..|subs|] == subs;
  }

  lemma EmptyTable(prefix: string)
    ensures NameTable(prefix, [], map[])
  {
  }

  /** The count of the last sub-resource of each class. */
  function DriverCounts(subs: seq<SubResource>): map<string, int> {
    if subs == [] then map[] else
      var last := subs[|subs| - 1];
      DriverCounts(subs[..|subs| - 1])[last.deviceClass := last.count]
  }

  method CountDrivers(subs: seq<SubResource>) returns (counts: map<string, int>)
    ensures counts == DriverCounts(subs)
  {
    counts := map[];
    for i := 0 to |subs|
      invariant counts == DriverCounts(subs[..i])
    {
      assert subs[..i + 1][..i] == subs[..i];
      counts := counts[subs[i].deviceClass := subs[i].count];
    }
    assert subs[..|subs|] == subs;
  }

  // ---------------------------------------------------------------------
  // Alignments
  // ---------------------------------------------------------------------

  predicate HasToken(subs: seq<SubResource>, t: string) {
    exists i :: 0 <= i < |subs| && Token(subs[i].deviceClass) == t
  }

  /** An alignment request is a class name, or else the sanitized form of one; others resolve to nothing. */
  function Resolve(prefix: string, subs: seq<SubResource>, r: string): seq<string> {
    if r in ClassesIn(subs) then NamesFor(prefix, subs, r)
    else if HasToken(subs, r) then [prefix + "-" + r]
    else []
  }

  predicate NonEmpty(names: seq<string>) {
    names != []
  }

  /** The resolved names per alignment request, in order. */
  function PerDriver(prefix: string, subs: seq<SubResource>, requests: seq<string>): seq<seq<string>> {
    Filter(seq(|requests|, i requires 0 <= i < |requests| => Resolve(prefix, subs, requests[i])), NonEmpty)
  }

  method ResolveRequest(prefix: string, subs: seq<SubResource>, table: map<string, seq<string>>, r: string)
    returns (names: seq<string>)
    requires NameTable(prefix, subs, table)
    ensures names == Resolve(prefix, subs, r)
  {
    hide Token, NamesFor;
    if r in table { return table[r]; }
    for i := 0 to |subs|
      invariant forall j :: 0 <= j < i ==> Token(subs[j].deviceClass) != r
    {
      var sanitized := SanitizeDeviceClassName(subs[i].deviceClass);
      if r == sanitized { return [prefix + "-" + sanitized]; }
    }
    names := [];
  }

  lemma ClassHasName(prefix: string, subs: seq<SubResource>, r: string)
    requires r in ClassesIn(subs)
    ensures NamesFor(prefix, subs, r) != []
  {
    hide RequestName;
    var sub :| sub in subs && sub.deviceClass == r;
    FilterMembers(subs, KeyIs(SubClass(), r));
    assert sub in Filter(subs, KeyIs(SubClass(), r));
  }

  method ResolveAlignment(prefix: string, subs: seq<SubResource>, table: map<string, seq<string>>,
                          requests: seq<string>)
    returns (perDriver: seq<seq<string>>)
    requires NameTable(prefix, subs, table)
    ensures perDriver == PerDriver(prefix, subs, requests)
  {
    hide Resolve, NameTable;
    perDriver := [];
    ghost var all := seq(|requests|, i requires 0 <= i < |requests| => Resolve(prefix, subs, requests[i]));
    for i := 0 to |requests|
      invariant perDriver == Filter(all[..i], NonEmpty)
    {
      FilterStep(all, i, NonEmpty);
      var names := ResolveRequest(prefix, subs, table, requests[i]);
      if names != [] { perDriver := perDriver + [names]; }
    }
    assert all[..|all|] == all;
  }

  // ---------------------------------------------------------------------
  // Constraints
  // ---------------------------------------------------------------------

  function MaxSplit(perDriver: seq<seq<string>>): nat {
    if perDriver == [] then 0 else
      var before, last := MaxSplit(perDriver[..|perDriver| - 1]), |perDriver[|perDriver| - 1]|;
      if last > before then last else before
  }

  /** Does the attribute's name contain "numaNode"? */
  predicate MentionsNuma(a: AttributeName) {
    exists i :: 0 <= i <= |a.Text()| && "numaNode" <= a.Text()[i..]
  }

  /** The idx-th request of every driver; a driver with a single request takes part in every pair. */
  function PairAt(perDriver: seq<seq<string>>, idx: nat): seq<string> {
    if perDriver == [] then [] else
      var names := perDriver[|perDriver| - 1];
      PairAt(perDriver[..|perDriver| - 1], idx) +
      if idx < |names| then [names[idx]] else if |names| == 1 then [names[0]] else []
  }

  function AtLeastTwo(names: seq<string>, a: AttributeName): seq<MatchConstraint> {
    if |names| >= 2 then [MatchConstraint(names, a)] else []
  }

  function PairConstraints(perDriver: seq<seq<string>>, a: AttributeName, n: nat): seq<MatchConstraint> {
    if n == 0 then [] else PairConstraints(perDriver, a, n - 1) + AtLeastTwo(PairAt(perDriver, n - 1), a)
  }

  /** One constraint over all names, or one per index when a driver has several requests. */
  function Constrain(perDriver: seq<seq<string>>, a: AttributeName): seq<MatchConstraint> {
    if MaxSplit(perDriver) <= 1 || MentionsNuma(a) then AtLeastTwo(Flatten(perDriver), a)
    else PairConstraints(perDriver, a, MaxSplit(perDriver))
  }

  method ComputeMaxSplit(perDriver: seq<seq<string>>) returns (maxSplit: nat)
    ensures maxSplit == MaxSplit(perDriver)
  {
    maxSplit := 0;
    for i := 0 to |perDriver|
      invariant maxSplit == MaxSplit(perDriver[..i])
    {
      assert perDriver[..i + 1][..i] == perDriver[..i];
      if |perDriver[i]| > maxSplit { maxSplit := |perDriver[i]|; }
    }
    assert perDriver[..|perDriver|] == perDriver;
  }

  method ConcatNames(perDriver: seq<seq<string>>) returns (names: seq<string>)
    ensures names == Flatten(perDriver)
  {
    names := [];
    for i := 0 to |perDriver|
      invariant names == Flatten(perDriver[..i])
    {
      FlattenStep(perDriver, i);
      names := names + perDriver[i];
    }
    assert perDriver[..|perDriver|] == perDriver;
  }

  method CollectPair(perDriver: seq<seq<string>>, idx: nat) returns (pair: seq<string>)
    ensures pair == PairAt(perDriver, idx)
  {
    pair := [];
    for i := 0 to |perDriver|
      invariant pair == PairAt(perDriver[..i], idx)
    {
      assert perDriver[..i + 1][..i] == perDriver[..i];
      var names := perDriver[i];
      if idx < |names| {
        pair := pair + [names[idx]];
      } else if |names| == 1 {
        pair := pair + [names[0]];
      }
    }
    assert perDriver[..|perDriver|] == perDriver;
  }

  method EmitConstraints(perDriver: seq<seq<string>>, a: AttributeName) returns (constraints: seq<MatchConstraint>)
    ensures constraints == Constrain(perDriver, a)
  {
    hide MentionsNuma, PairAt;
    constraints := [];
    var maxSplit := ComputeMaxSplit(perDriver);
    if maxSplit <= 1 || MentionsNuma(a) {
      var names := ConcatNames(perDriver);
      if |names| >= 2 { constraints := [MatchConstraint(names, a)]; }
    } else {
      for idx := 0 to maxSplit
        invariant constraints == PairConstraints(perDriver, a, idx)
      {
        var pair := CollectPair(perDriver, idx);
        if |pair| >= 2 { constraints := constraints + [MatchConstraint(pair, a)]; }
      }
    }
  }

  /** A preferred alignment is enforced only when the topology can satisfy it. */
  predicate Enforces(satisfiable: Satisfiable, counts: map<string, int>, a: AlignmentConfig) {
    a.enforcement.Preferred? ==> satisfiable(a.attribute, counts)
  }

  function AlignmentConstraints(prefix: string, subs: seq<SubResource>, satisfiable: Satisfiable,
                                a: AlignmentConfig): seq<MatchConstraint> {
    if Enforces(satisfiable, DriverCounts(subs), a)
      then Constrain(PerDriver(prefix, subs, a.requests), a.attribute) else []
  }

  function InstanceConstraints(prefix: string, config: PartitionConfig, satisfiable: Satisfiable,
                               n: nat): seq<MatchConstraint>
    requires n <= |config.alignments|
  {
    if n == 0 then [] else
      InstanceConstraints(prefix, config, satisfiable, n - 1) +
      AlignmentConstraints(prefix, config.subResources, satisfiable, config.alignments[n - 1])
  }

  method ExpandSinglePartition(prefix: string, user: seq<string>, config: PartitionConfig, satisfiable: Satisfiable)
    returns (requests: seq<DeviceRequest>, constraints: seq<MatchConstraint>)
    ensures requests == SubRequests(prefix, user, config.subResources)
    ensures constraints == InstanceConstraints(prefix, config, satisfiable, |config.alignments|)
  {
    hide SubRequests, NameTable, PerDriver, Constrain, DriverCounts;
    var subs := config.subResources;
    var table;
    requests, table := BuildSubRequests(prefix, user, subs);
    var counts := CountDrivers(subs);
    constraints := [];
    for i := 0 to |config.alignments|
      invariant constraints == InstanceConstraints(prefix, config, satisfiable, i)
    {
      var a := config.alignments[i];
      if a.enforcement.Preferred? && !satisfiable(a.attribute, counts) { continue; }
      var perDriver := ResolveAlignment(prefix, subs, table, a.requests);
      var emitted := EmitConstraints(perDriver, a.attribute);
      constraints := constraints + emitted;
    }
  }

  // ---------------------------------------------------------------------
  // All instances of a request
  // ---------------------------------------------------------------------

  /** How many partition instances a request asks for. */
  function Instances(req: ExactRequest): nat {
    if req.count > 1 then req.count else 1
  }

  function ExpandedRequests(name: string, count: nat, user: seq<string>, subs: seq<SubResource>,
                            n: nat): seq<DeviceRequest> {
    if n == 0 then [] else
      ExpandedRequests(name, count, user, subs, n - 1) + SubRequests(Prefix(name, count, n - 1), user, subs)
  }

  function ExpandedConstraints(name: string, count: nat, config: PartitionConfig, satisfiable: Satisfiable,
                               n: nat): seq<MatchConstraint> {
    if n == 0 then [] else
      ExpandedConstraints(name, count, config, satisfiable, n - 1) +
      InstanceConstraints(Prefix(name, count, n - 1), config, satisfiable, |config.alignments|)
  }

  method ExpandRequest(name: string, req: ExactRequest, config: PartitionConfig, satisfiable: Satisfiable)
    returns (requests: seq<DeviceRequest>, constraints: seq<MatchConstraint>)
    ensures requests == ExpandedRequests(name, Instances(req), req.selectors, config.subResources, Instances(req))
    ensures constraints == ExpandedConstraints(name, Instances(req), config, satisfiable, Instances(req))
  {
    hide SubRequests, InstanceConstraints;
    var count := if req.count > 1 then req.count else 1;
    requests, constraints := [], [];
    for i := 0 to count
      invariant requests == ExpandedRequests(name, count, req.selectors, config.subResources, i)
      invariant constraints == ExpandedConstraints(name, count, config, satisfiable, i)
    {
      var prefix := if count > 1 then name + "-" + Decimal(i) else name;
      var subRequests, subConstraints := ExpandSinglePartition(prefix, req.selectors, config, satisfiable);
      requests := requests + subRequests;
      constraints := constraints + subConstraints;
    }
  }
}
