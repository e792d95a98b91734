/** Admission of a ResourceClaim: the expansion is returned as a JSON Patch (sections 4.1 and 4.3 of
    RFC 6902) and recorded in an annotation. */
module ClaimPatches {
  import opened Collections
  import opened PartitionConfigs
  import opened RequestNames
  import opened ClaimExpansion
  import opened ClaimLaws
  import opened JsonPointer

  const DRIVER_NAME := "nodepartition.dra.k8s.io"
  const ANNOTATION := "nodepartition.dra.k8s.io/expanded-requests"

  // ---------------------------------------------------------------------
  // Partition classes
  // ---------------------------------------------------------------------

  datatype Payload = BadJson | OtherKind | ConfigPayload(config: PartitionConfig)
  datatype ClassConfig = NotOpaque | Opaque(driver: string, payload: Payload)

  predicate Carries(cfg: ClassConfig) {
    cfg.Opaque? && cfg.driver == DRIVER_NAME && cfg.payload.ConfigPayload?
  }

  /** The first entry of this driver that holds a partition config. */
  function FirstConfig(entries: seq<ClassConfig>): Option<PartitionConfig> {
    if entries == [] then None
    else if Carries(entries[0]) then Some(entries[0].payload.config)
    else FirstConfig(entries[1..])
  }

  /** It is a config exactly when some entry carries one, and then that of the first such entry. */
  lemma {:induction false} FirstConfigIs(entries: seq<ClassConfig>)
    ensures FirstConfig(entries).Some? <==> exists i :: 0 <= i < |entries| && FirstCarrier(entries, i)
    ensures forall i :: 0 <= i < |entries| && FirstCarrier(entries, i) ==>
      FirstConfig(entries) == Some(entries[i].payload.config)
  {
    hide Carries;
    if entries != [] {
      FirstConfigIs(entries[1..]);
      if Carries(entries[0]) {
        assert FirstCarrier(entries, 0);
      } else {
        forall i | 0 <= i < |entries| ensures FirstCarrier(entries, i) <==> i > 0 && FirstCarrier(entries[1..], i - 1) {
          if i > 0 && FirstCarrier(entries[1..], i - 1) {
            forall j | 0 <= j < i ensures !Carries(entries[j]) {
              if j > 0 { assert entries[j] == entries[1..][j - 1]; }
            }
          }
          if FirstCarrier(entries, i) {
            forall j | 0 <= j < i - 1 ensures !Carries(entries[1..][j]) { assert entries[1..][j] == entries[j + 1]; }
          }
        }
        if i :| 0 <= i < |entries[1..]| && FirstCarrier(entries[1..], i) { assert FirstCarrier(entries, i + 1); }
      }
    }
  }

  /** The entry is of this driver and holds a partition config, and no entry before it does. */
  predicate FirstCarrier(entries: seq<ClassConfig>, i: nat)
    requires i < |entries|
  {
    Carries(entries[i]) && forall j :: 0 <= j < i ==> !Carries(entries[j])
  }

  type Classes = map<string, seq<ClassConfig>>

  /** A class that cannot be read counts as an ordinary class. */
  function ConfigOf(classes: Classes, name: string): Option<PartitionConfig> {
    if name in classes then FirstConfig(classes[name]) else None
  }

  method GetPartitionConfig(classes: Classes, name: string) returns (config: Option<PartitionConfig>)
    ensures config == ConfigOf(classes, name)
  {
    if name !in classes { return None; }
    var entries := classes[name];
    for i := 0 to |entries|
      invariant FirstConfig(entries) == FirstConfig(entries[i..])
    {
      var cfg := entries[i];
      if !cfg.Opaque? { continue; }
      if cfg.driver != DRIVER_NAME { continue; }
      if !cfg.payload.ConfigPayload? { continue; }
      return Some(cfg.payload.config);
    }
    config := None;
  }

  datatype Env = Env(classes: Classes, satisfiable: Satisfiable)

  // ---------------------------------------------------------------------
  // The expansion of a claim
  // ---------------------------------------------------------------------

  function PartitionOf(env: Env, r: DeviceRequest): Option<PartitionConfig> {
    if r.exactly.Some? then ConfigOf(env.classes, r.exactly.value.deviceClass) else None
  }

  predicate Expands(env: Env, r: DeviceRequest) {
    PartitionOf(env, r).Some?
  }

  function Expansion(env: Env, r: DeviceRequest): seq<DeviceRequest>
    requires Expands(env, r)
  {
    var n := Instances(r.exactly.value);
    ExpandedRequests(r.name, n, r.exactly.value.selectors, PartitionOf(env, r).value.subResources, n)
  }

  function ExpansionConstraints(env: Env, r: DeviceRequest): seq<MatchConstraint>
    requires Expands(env, r)
  {
    var n := Instances(r.exactly.value);
    ExpandedConstraints(r.name, n, PartitionOf(env, r).value, env.satisfiable, n)
  }

  /** Requests for partition classes are replaced where they stand; others are kept. */
  function ExpandAll(env: Env, rs: seq<DeviceRequest>): seq<DeviceRequest> {
    if rs == [] then [] else
      var last := rs[|rs| - 1];
      ExpandAll(env, rs[..|rs| - 1]) + if Expands(env, last) then Expansion(env, last) else [last]
  }

  function AllConstraints(env: Env, rs: seq<DeviceRequest>): seq<MatchConstraint> {
    if rs == [] then [] else
      var last := rs[|rs| - 1];
      AllConstraints(env, rs[..|rs| - 1]) + if Expands(env, last) then ExpansionConstraints(env, last) else []
  }

  function NamesIn(rs: seq<DeviceRequest>): seq<string> {
    seq(|rs|, i requires 0 <= i < |rs| => rs[i].name)
  }

  /** Original name to generated names; the last request of a name wins. */
  function Mapping(env: Env, rs: seq<DeviceRequest>): map<string, seq<string>> {
    if rs == [] then map[] else
      var last, before := rs[|rs| - 1], Mapping(env, rs[..|rs| - 1]);
      if Expands(env, last) then before[last.name := NamesIn(Expansion(env, last))] else before
  }

  predicate HasRequest(rs: seq<DeviceRequest>, name: string) {
    exists r :: r in rs && r.name == name
  }

  predicate AnyExpands(env: Env, rs: seq<DeviceRequest>) {
    exists r :: r in rs && Expands(env, r)
  }

  // ---------------------------------------------------------------------
  // Claims and patches
  // ---------------------------------------------------------------------

  datatype Annotation = MappingText(mapping: map<string, seq<string>>) | OtherText(text: string)

  /** Empty lists are not serialized, so an empty list is an absent member. */
  datatype Claim = Claim(annotations: Option<map<string, Annotation>>, requests: seq<DeviceRequest>,
    constraints: seq<MatchConstraint>)

  datatype Op = Add | Replace
  datatype Value =
    | RequestsValue(requests: seq<DeviceRequest>)
    | ConstraintsValue(constraints: seq<MatchConstraint>)
    | AnnotationsValue(annotations: map<string, Annotation>)
    | TextValue(annotation: Annotation)

  datatype JsonPatch = JsonPatch(op: Op, path: string, value: Value)

  const REQUESTS_PATH := "/spec/devices/requests"
  const CONSTRAINTS_PATH := "/spec/devices/constraints"
  const ANNOTATIONS_PATH := "/metadata/annotations"
  const ANNOTATION_PARENT := "/metadata/annotations/"

  /** One operation on a claim.  `replace` needs its target, `add` needs the parent of its target. */
  function Apply(claim: Claim, p: JsonPatch): Option<Claim> {
    if p.path == REQUESTS_PATH && p.value.RequestsValue? then
      if p.op.Replace? && claim.requests == [] then None else Some(claim.(requests := p.value.requests))
    else if p.path == CONSTRAINTS_PATH && p.value.ConstraintsValue? then
      if p.op.Replace? && claim.constraints == [] then None else Some(claim.(constraints := p.value.constraints))
    else if p.path == ANNOTATIONS_PATH && p.value.AnnotationsValue? then
      if p.op.Replace? && claim.annotations.None? then None else Some(claim.(annotations := Some(p.value.annotations)))
    else if ANNOTATION_PARENT <= p.path && '/' !in p.path[|ANNOTATION_PARENT|..] && p.value.TextValue? then
      var key := Unescape(p.path[|ANNOTATION_PARENT|..]);
      if claim.annotations.None? || (p.op.Replace? && key !in claim.annotations.value) then None
      else Some(claim.(annotations := Some(claim.annotations.value[key := p.value.annotation])))
    else None
  }

  /** Operations apply one after the other; one failure fails the patch. */
  function ApplyAll(claim: Claim, ps: seq<JsonPatch>): Option<Claim> {
    if ps == [] then Some(claim) else
      var before := ApplyAll(claim, ps[..|ps| - 1]);
      if before.None? then None else Apply(before.value, ps[|ps| - 1])
  }

  lemma ApplySnoc(claim: Claim, ps: seq<JsonPatch>, p: JsonPatch)
    ensures ApplyAll(claim, ps + [p]) == if ApplyAll(claim, ps).None? then None else Apply(ApplyAll(claim, ps).value, p)
  {
    hide Apply;
    assert (ps + [p])[..|ps|] == ps;
  }

  function AnnotationsOf(claim: Claim): map<string, Annotation> {
    if claim.annotations.Some? then claim.annotations.value else map[]
  }

  /** The claim that admission should store. */
  function Expanded(env: Env, claim: Claim): Claim {
    Claim(Some(AnnotationsOf(claim)[ANNOTATION := MappingText(Mapping(env, claim.requests))]),
      ExpandAll(env, claim.requests), claim.constraints + AllConstraints(env, claim.requests))
  }

  function Admitted(env: Env, claim: Claim): Claim {
    if AnyExpands(env, claim.requests) then Expanded(env, claim) else claim
  }

  // ---------------------------------------------------------------------
  // Building the patch
  // ---------------------------------------------------------------------

  method CollectNames(rs: seq<DeviceRequest>) returns (names: seq<string>)
    ensures names == NamesIn(rs)
  {
    names := [];
    for i := 0 to |rs|
      invariant names == NamesIn(rs[..i])
    {
      assert rs[..i + 1] == rs[..i] + [rs[i]];
      names := names + [rs[i].name];
    }
    assert rs[..|rs|] == rs;
  }

  method ExpandRequests(env: Env, rs: seq<DeviceRequest>)
    returns (requests: seq<DeviceRequest>, constraints: seq<MatchConstraint>, mapping: map<string, seq<string>>,
      anyExpanded: bool)
    ensures requests == ExpandAll(env, rs) && constraints == AllConstraints(env, rs) && mapping == Mapping(env, rs)
    ensures anyExpanded == AnyExpands(env, rs)
  {
    hide ConfigOf, ExpandedRequests, ExpandedConstraints, NamesIn;
    requests, constraints, mapping, anyExpanded := [], [], map[], false;
    for i := 0 to |rs|
      invariant requests == ExpandAll(env, rs[..i]) && constraints == AllConstraints(env, rs[..i])
      invariant mapping == Mapping(env, rs[..i])
      invariant anyExpanded == AnyExpands(env, rs[..i])
    {
      var req := rs[i];
      assert rs[..i + 1] == rs[..i] + [req] && rs[..i + 1][..i] == rs[..i];
      if req.exactly.None? {
        requests := requests + [req];
        continue;
      }
      var config := GetPartitionConfig(env.classes, req.exactly.value.deviceClass);
      if config.None? {
        requests := requests + [req];
        continue;
      }
      var subRequests, subConstraints := ExpandRequest(req.name, req.exactly.value, config.value, env.satisfiable);
      requests := requests + subRequests;
      constraints := constraints + subConstraints;
      anyExpanded := true;
      var names := CollectNames(subRequests);
      mapping := mapping[req.name := names];
      assert Expands(env, req);
    }
    assert rs[..|rs|] == rs;
  }

  /** No patch when nothing expands; otherwise a patch that applies and yields the expanded claim. */
  method ExpandClaim(env: Env, claim: Claim) returns (patches: seq<JsonPatch>)
    ensures patches == [] <==> !AnyExpands(env, claim.requests)
    ensures ApplyAll(claim, patches) == Some(Admitted(env, claim))
  {
    hide ExpandAll, AllConstraints, Mapping, Escape, Apply, ApplyAll;
    patches := [];
    assert ApplyAll(claim, []) == Some(claim) by { NothingApplied(claim); }
    if |claim.requests| == 0 { return; }
    var requests, constraints, mapping, anyExpanded := ExpandRequests(env, claim.requests);
    if !anyExpanded { return; }
    var p := JsonPatch(Replace, REQUESTS_PATH, RequestsValue(requests));
    patches := patches + [p];
    ghost var c1 := claim.(requests := requests);
    ApplySnoc(claim, [], p);
    RequestsApplied(claim, requests);
    ghost var c2 := c1.(constraints := claim.constraints + constraints);
    if |constraints| > 0 {
      var merged := claim.constraints + constraints;
      var q := JsonPatch(if |claim.constraints| == 0 then Add else Replace, CONSTRAINTS_PATH, ConstraintsValue(merged));
      ApplySnoc(claim, patches, q);
      ConstraintsApplied(c1, q.op, merged);
      patches := patches + [q];
    } else {
      assert claim.constraints + constraints == claim.constraints;
    }
    var a := AnnotationPatch(claim.annotations, mapping);
    ApplySnoc(claim, patches, a);
    AnnotationApplied(c2, mapping);
    patches := patches + [a];
  }

  function AnnotationPatch(annotations: Option<map<string, Annotation>>, mapping: map<string, seq<string>>): JsonPatch {
    if annotations.None? then JsonPatch(Add, ANNOTATIONS_PATH,
      AnnotationsValue(map[ANNOTATION := MappingText(mapping)]))
    else JsonPatch(Add, ANNOTATION_PARENT + Escape(ANNOTATION), TextValue(MappingText(mapping)))
  }

  lemma NothingApplied(claim: Claim)
    ensures ApplyAll(claim, []) == Some(claim)
  {
  }

  lemma RequestsApplied(claim: Claim, requests: seq<DeviceRequest>)
    requires claim.requests != []
    ensures Apply(claim, JsonPatch(Replace, REQUESTS_PATH, RequestsValue(requests))) ==
      Some(claim.(requests := requests))
  {
  }

  lemma ConstraintsApplied(claim: Claim, op: Op, constraints: seq<MatchConstraint>)
    requires op.Replace? ==> claim.constraints != []
    ensures Apply(claim, JsonPatch(op, CONSTRAINTS_PATH, ConstraintsValue(constraints))) ==
      Some(claim.(constraints := constraints))
  {
  }

  /** The annotation lands under its own key, although the key has a '/'. */
  lemma AnnotationApplied(claim: Claim, mapping: map<string, seq<string>>)
    ensures Apply(claim, AnnotationPatch(claim.annotations, mapping)) ==
      Some(claim.(annotations := Some(AnnotationsOf(claim)[ANNOTATION := MappingText(mapping)])))
  {
    hide Escape, Unescape;
    var path := ANNOTATION_PARENT + Escape(ANNOTATION);
    assert path[|ANNOTATION_PARENT|..] == Escape(ANNOTATION);
    EscapedIsOneToken(ANNOTATION);
    RoundTrip(ANNOTATION);
  }

  // ---------------------------------------------------------------------
  // Re-admission
  // ---------------------------------------------------------------------

  lemma {:induction false} ExpandedMembers(env: Env, rs: seq<DeviceRequest>, x: DeviceRequest)
    ensures x in ExpandAll(env, rs) <==> exists r :: r in rs && x in if Expands(env, r) then Expansion(env, r) else [r]
  {
    hide Expansion, Expands;
    if rs != [] {
      var init, last := rs[..|rs| - 1], rs[|rs| - 1];
      assert rs == init + [last];
      ExpandedMembers(env, init, x);
    }
  }

  /** No class that the expansion of a claim asks for is itself a partition class. */
  predicate SubsAreLeaves(env: Env, rs: seq<DeviceRequest>) {
    forall r, sub :: r in rs && Expands(env, r) && sub in PartitionOf(env, r).value.subResources ==>
      ConfigOf(env.classes, sub.deviceClass).None?
  }

  /** A generated request expands again exactly when its class is a partition class. */
  lemma SubRequestExpands(env: Env, prefix: string, user: seq<string>, sub: SubResource)
    ensures Expands(env, SubRequest(prefix, user, sub)) <==> ConfigOf(env.classes, sub.deviceClass).Some?
  {
    hide RequestName, ParsedCapacity;
  }

  lemma ExpansionExpandsIff(env: Env, r: DeviceRequest)
    requires Expands(env, r)
    ensures AnyExpands(env, Expansion(env, r)) <==>
      exists sub :: sub in PartitionOf(env, r).value.subResources && ConfigOf(env.classes, sub.deviceClass).Some?
  {
    hide ConfigOf, ExpandedRequests, Prefix, SubRequest;
    var n, user, subs := Instances(r.exactly.value), r.exactly.value.selectors, PartitionOf(env, r).value.subResources;
    if x :| x in Expansion(env, r) && Expands(env, x) {
      Origin(r.name, n, user, subs, n, x);
      var i: nat :| i < n && OfInstance(Prefix(r.name, n, i), user, subs, x);
      var sub :| sub in subs && x == SubRequest(Prefix(r.name, n, i), user, sub);
      SubRequestExpands(env, Prefix(r.name, n, i), user, sub);
    }
    if sub :| sub in subs && ConfigOf(env.classes, sub.deviceClass).Some? {
      var x := SubRequest(Prefix(r.name, n, 0), user, sub);
      assert OfInstance(Prefix(r.name, n, 0), user, subs, x);
      Origin(r.name, n, user, subs, n, x);
      SubRequestExpands(env, Prefix(r.name, n, 0), user, sub);
    }
  }

  /** Admitting the admitted claim again yields no patch exactly when no sub-resource class of an expanded
      request is a partition class. */
  lemma ReadmissionIff(env: Env, claim: Claim)
    ensures !AnyExpands(env, Admitted(env, claim).requests) <==> SubsAreLeaves(env, claim.requests)
  {
    hide Expansion, PartitionOf, ExpandAll, AllConstraints, Mapping, ConfigOf;
    var rs := claim.requests;
    if AnyExpands(env, rs) {
      var all := ExpandAll(env, rs);
      if x :| x in all && Expands(env, x) {
        ExpandedMembers(env, rs, x);
        var r :| r in rs && x in if Expands(env, r) then Expansion(env, r) else [r];
        ExpansionExpandsIff(env, r);
      }
      if !SubsAreLeaves(env, rs) {
        var r, sub :| r in rs && Expands(env, r) && sub in PartitionOf(env, r).value.subResources
          && ConfigOf(env.classes, sub.deviceClass).Some?;
        ExpansionExpandsIff(env, r);
        var x :| x in Expansion(env, r) && Expands(env, x);
        ExpandedMembers(env, rs, x);
      }
    }
  }
}
