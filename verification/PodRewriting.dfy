/** Admission of a Pod: container references to expanded requests are rewritten to the generated requests,
    using the mapping that claim admission recorded. */
module PodRewriting {
  import opened Collections
  import opened Text
  import opened ClaimExpansion
  import opened ClaimLaws
  import opened ClaimPatches
  import opened ClaimNames
  import opened ClaimConstraints

  /** A reference to a request of a pod claim, or to all of its requests when `request` is "". */
  datatype Ref = Ref(claim: string, request: string)

  datatype PodClaim = PodClaim(name: string, claimName: Option<string>, templateName: Option<string>)

  type Containers = seq<seq<Ref>>
  datatype Pod = Pod(claims: seq<PodClaim>, containers: Containers, initContainers: Containers)

  type Mappings = map<string, map<string, seq<string>>>
  type Claims = map<string, Claim>

  // ---------------------------------------------------------------------
  // The recorded mappings
  // ---------------------------------------------------------------------

  function LookupName(pc: PodClaim): string {
    if pc.claimName.Some? && pc.claimName.value != "" then pc.claimName.value
    else if pc.templateName.Some? then pc.templateName.value
    else ""
  }

  /** The mapping recorded on a stored claim, when it can be read. */
  function RecordedMapping(stored: Claims, pc: PodClaim): Option<map<string, seq<string>>> {
    var name := LookupName(pc);
    if name == "" || name !in stored then None else
      var annotations := AnnotationsOf(stored[name]);
      if ANNOTATION in annotations &&
        annotations[ANNOTATION].MappingText? then Some(annotations[ANNOTATION].mapping) else None
  }

  function MappingsOf(stored: Claims, pcs: seq<PodClaim>): Mappings {
    if pcs == [] then map[] else
      var last, before := pcs[|pcs| - 1], MappingsOf(stored, pcs[..|pcs| - 1]);
      var m := RecordedMapping(stored, last);
      if m.Some? then before[last.name := m.value] else before
  }

  method CollectMappings(stored: Claims, pcs: seq<PodClaim>) returns (mappings: Mappings)
    ensures mappings == MappingsOf(stored, pcs)
  {
    mappings := map[];
    for i := 0 to |pcs|
      invariant mappings == MappingsOf(stored, pcs[..i])
    {
      var pc := pcs[i];
      assert pcs[..i + 1][..i] == pcs[..i];
      var lookup := "";
      if pc.claimName.Some? && pc.claimName.value != "" {
        lookup := pc.claimName.value;
      } else if pc.templateName.Some? && pc.templateName.value != "" {
        lookup := pc.templateName.value;
      }
      if lookup == "" { continue; }
      if lookup !in stored { continue; }
      var annotations := AnnotationsOf(stored[lookup]);
      if ANNOTATION !in annotations { continue; }
      if !annotations[ANNOTATION].MappingText? { continue; }
      mappings := mappings[pc.name := annotations[ANNOTATION].mapping];
    }
    assert pcs[..|pcs|] == pcs;
  }

  predicate DistinctClaims(pcs: seq<PodClaim>) {
    forall i, j :: 0 <= i < j < |pcs| ==> pcs[i].name != pcs[j].name
  }

  lemma {:induction false} MappingsAt(stored: Claims, pcs: seq<PodClaim>, pc: PodClaim)
    requires DistinctClaims(pcs) && pc in pcs
    ensures var ms := MappingsOf(stored, pcs);
      (pc.name in ms <==> RecordedMapping(stored, pc).Some?) &&
        (pc.name in ms ==> ms[pc.name] == RecordedMapping(stored, pc).value)
  {
    hide RecordedMapping;
    var init, last := pcs[..|pcs| - 1], pcs[|pcs| - 1];
    assert pcs == init + [last];
    if pc == last {
      MappingsAbsent(stored, init, pc.name);
    } else {
      MappingsAt(stored, init, pc);
    }
  }

  lemma {:induction false} MappingsAbsent(stored: Claims, pcs: seq<PodClaim>, name: string)
    requires forall pc :: pc in pcs ==> pc.name != name
    ensures name !in MappingsOf(stored, pcs)
  {
    if pcs != [] {
      assert pcs[|pcs| - 1] in pcs;
      MappingsAbsent(stored, pcs[..|pcs| - 1], name);
    }
  }

  // ---------------------------------------------------------------------
  // Rewriting references
  // ---------------------------------------------------------------------

  predicate Mapped(mappings: Mappings, ref: Ref) {
    ref.request != "" && ref.claim in mappings && ref.request in mappings[ref.claim]
  }

  function RefsTo(claim: string, names: seq<string>): seq<Ref> {
    seq(|names|, i requires 0 <= i < |names| => Ref(claim, names[i]))
  }

  function RewriteRef(mappings: Mappings, ref: Ref): seq<Ref> {
    if Mapped(mappings, ref) then RefsTo(ref.claim, mappings[ref.claim][ref.request]) else [ref]
  }

  function RewriteRefs(mappings: Mappings, refs: seq<Ref>): seq<Ref> {
    if refs == [] then [] else RewriteRefs(mappings, refs[..|refs| - 1]) + RewriteRef(mappings, refs[|refs| - 1])
  }

  predicate Changed(mappings: Mappings, refs: seq<Ref>) {
    exists ref :: ref in refs && Mapped(mappings, ref)
  }

  lemma {:induction false} UnchangedRefs(mappings: Mappings, refs: seq<Ref>)
    requires !Changed(mappings, refs)
    ensures RewriteRefs(mappings, refs) == refs
  {
    if refs != [] {
      var init, last := refs[..|refs| - 1], refs[|refs| - 1];
      assert refs == init + [last];
      assert last in refs;
      UnchangedRefs(mappings, init);
    }
  }

  method RewriteContainer(mappings: Mappings, refs: seq<Ref>) returns (rewritten: seq<Ref>, changed: bool)
    ensures rewritten == RewriteRefs(mappings, refs) && changed == Changed(mappings, refs)
  {
    rewritten, changed := [], false;
    for i := 0 to |refs|
      invariant rewritten == RewriteRefs(mappings, refs[..i])
      invariant changed == Changed(mappings, refs[..i])
    {
      var rc := refs[i];
      assert refs[..i + 1][..i] == refs[..i];
      assert refs[..i + 1] == refs[..i] + [rc];
      if rc.claim !in mappings || rc.request == "" {
        rewritten := rewritten + [rc];
        continue;
      }
      if rc.request !in mappings[rc.claim] {
        rewritten := rewritten + [rc];
        continue;
      }
      var names := mappings[rc.claim][rc.request];
      ghost var before := rewritten;
      for j := 0 to |names|
        invariant rewritten == before + RefsTo(rc.claim, names[..j])
      {
        assert names[..j + 1] == names[..j] + [names[j]];
        assert RefsTo(rc.claim, names[..j + 1]) == RefsTo(rc.claim, names[..j]) + [Ref(rc.claim, names[j])];
        rewritten := rewritten + [Ref(rc.claim, names[j])];
      }
      assert names[..|names|] == names;
      assert Mapped(mappings, rc);
      changed := true;
    }
    assert refs[..|refs|] == refs;
  }

  // ---------------------------------------------------------------------
  // The patch
  // ---------------------------------------------------------------------

  /** A `replace` of the claims of one container. */
  datatype ClaimsPatch = ClaimsPatch(path: string, refs: seq<Ref>)

  const CONTAINERS := "/spec/containers"
  const INIT_CONTAINERS := "/spec/initContainers"

  function PathOf(base: string, i: nat): string {
    base + "/" + Decimal(i) + "/resources/claims"
  }

  ghost predicate Hits(base: string, list: Containers, path: string) {
    exists i :: 0 <= i < |list| && path == PathOf(base, i)
  }

  ghost function Put(base: string, list: Containers, p: ClaimsPatch): Containers {
    seq(|list|, i requires 0 <= i < |list| => if p.path == PathOf(base, i) then p.refs else list[i])
  }

  ghost function Apply(pod: Pod, p: ClaimsPatch): Option<Pod> {
    if Hits(CONTAINERS, pod.containers, p.path) then Some(pod.(containers := Put(CONTAINERS, pod.containers, p)))
    else if Hits(INIT_CONTAINERS, pod.initContainers, p.path)
      then Some(pod.(initContainers := Put(INIT_CONTAINERS, pod.initContainers, p)))
    else None
  }

  ghost function ApplyAll(pod: Pod, ps: seq<ClaimsPatch>): Option<Pod> {
    if ps == [] then Some(pod) else
      var before := ApplyAll(pod, ps[..|ps| - 1]);
      if before.None? then None else Apply(before.value, ps[|ps| - 1])
  }

  lemma ApplySnoc(pod: Pod, ps: seq<ClaimsPatch>, p: ClaimsPatch)
    ensures ApplyAll(pod, ps + [p]) == if ApplyAll(pod, ps).None? then None else Apply(ApplyAll(pod, ps).value, p)
  {
    hide Apply;
    assert (ps + [p])[..|ps|] == ps;
  }

  lemma PathsApart(base: string, i: nat, j: nat)
    requires PathOf(base, i) == PathOf(base, j)
    ensures i == j
  {
    var b, e := base + "/", "/resources/claims";
    var s := PathOf(base, i);
    assert s == b + Decimal(i) + e && s == b + Decimal(j) + e;
    assert s[|b|..|s| - |e|] == Decimal(i);
    assert s[|b|..|s| - |e|] == Decimal(j);
    DecimalInjective(i, j);
  }

  lemma BasesApart(i: nat, j: nat)
    ensures PathOf(CONTAINERS, i) != PathOf(INIT_CONTAINERS, j)
  {
    hide Decimal;
    assert PathOf(CONTAINERS, i)[6] == 'c' && PathOf(INIT_CONTAINERS, j)[6] == 'i';
  }

  /** The first n containers rewritten. */
  function Rewritten(mappings: Mappings, list: Containers, n: nat): Containers {
    seq(|list|, i requires 0 <= i < |list| => if i < n then RewriteRefs(mappings, list[i]) else list[i])
  }

  lemma PutRewrites(mappings: Mappings, base: string, list: Containers, n: nat)
    requires n < |list|
    ensures Put(base, Rewritten(mappings, list, n), ClaimsPatch(PathOf(base, n), RewriteRefs(mappings, list[n]))) ==
      Rewritten(mappings, list, n + 1)
    ensures Hits(base, Rewritten(mappings, list, n), PathOf(base, n))
  {
    hide RewriteRefs, PathOf;
    forall i | 0 <= i < |list| && PathOf(base, n) == PathOf(base, i) ensures i == n { PathsApart(base, n, i); }
  }

  lemma SkipRewrites(mappings: Mappings, list: Containers, n: nat)
    requires n < |list| && !Changed(mappings, list[n])
    ensures Rewritten(mappings, list, n + 1) == Rewritten(mappings, list, n)
  {
    hide RewriteRefs, Changed;
    UnchangedRefs(mappings, list[n]);
  }

  lemma NotInContainers(list: Containers, j: nat)
    ensures !Hits(CONTAINERS, list, PathOf(INIT_CONTAINERS, j))
  {
    hide PathOf;
    forall i: nat ensures PathOf(CONTAINERS, i) != PathOf(INIT_CONTAINERS, j) { BasesApart(i, j); }
  }

  ghost function PodWith(pod: Pod, base: string, list: Containers): Pod {
    if base == CONTAINERS then pod.(containers := list) else pod.(initContainers := list)
  }

  ghost function ListOf(pod: Pod, base: string): Containers {
    if base == CONTAINERS then pod.containers else pod.initContainers
  }

  lemma ApplyAt(pod: Pod, base: string, p: ClaimsPatch, i: nat)
    requires base == CONTAINERS || base == INIT_CONTAINERS
    requires p.path == PathOf(base, i) && i < |ListOf(pod, base)|
    ensures Apply(pod, p) == Some(PodWith(pod, base, Put(base, ListOf(pod, base), p)))
  {
    hide PathOf, Put;
    assert Hits(base, ListOf(pod, base), p.path);
    if base != CONTAINERS { NotInContainers(pod.containers, i); }
    assert CONTAINERS[6] == 'c' && INIT_CONTAINERS[6] == 'i';
  }

  method RewriteContainerClaims(mappings: Mappings, base: string, list: Containers, start: seq<ClaimsPatch>,
                                ghost pod: Pod, ghost sofar: Pod)
    returns (patches: seq<ClaimsPatch>)
    requires base == CONTAINERS || base == INIT_CONTAINERS
    requires list == ListOf(sofar, base) && ApplyAll(pod, start) == Some(sofar)
    ensures ApplyAll(pod, patches) == Some(PodWith(sofar, base, Rewritten(mappings, list, |list|)))
    ensures patches == [] <==> start == [] && forall i :: 0 <= i < |list| ==> !Changed(mappings, list[i])
  {
    hide RewriteRefs, Changed, Put, PathOf, Apply, ApplyAll;
    patches := start;
    assert Rewritten(mappings, list, 0) == list;
    for i := 0 to |list|
      invariant ApplyAll(pod, patches) == Some(PodWith(sofar, base, Rewritten(mappings, list, i)))
      invariant patches == [] <==> start == [] && forall j :: 0 <= j < i ==> !Changed(mappings, list[j])
    {
      var refs, changed := RewriteContainer(mappings, list[i]);
      ghost var before := PodWith(sofar, base, Rewritten(mappings, list, i));
      if changed {
        var p := ClaimsPatch(PathOf(base, i), refs);
        ApplySnoc(pod, patches, p);
        ApplyAt(before, base, p, i);
        PutRewrites(mappings, base, list, i);
        patches := patches + [p];
      } else {
        SkipRewrites(mappings, list, i);
      }
    }
  }

  ghost function RewrittenPod(mappings: Mappings, pod: Pod): Pod {
    pod.(containers := Rewritten(mappings, pod.containers, |pod.containers|),
         initContainers := Rewritten(mappings, pod.initContainers, |pod.initContainers|))
  }

  /** The patch rewrites every reference of every container and nothing else. */
  method HandlePodAdmission(stored: Claims, pod: Pod) returns (patches: seq<ClaimsPatch>)
    ensures ApplyAll(pod, patches) == Some(RewrittenPod(MappingsOf(stored, pod.claims), pod))
  {
    hide Rewritten, RewriteRefs, Apply, ApplyAll;
    var mappings := CollectMappings(stored, pod.claims);
    assert ApplyAll(pod, []) == Some(pod) by { NothingApplied(pod); }
    if |mappings| == 0 {
      NothingMapped(pod);
      return [];
    }
    assert CONTAINERS[6] == 'c' && INIT_CONTAINERS[6] == 'i';
    patches := RewriteContainerClaims(mappings, CONTAINERS, pod.containers, [], pod, pod);
    ghost var half := pod.(containers := Rewritten(mappings, pod.containers, |pod.containers|));
    patches := RewriteContainerClaims(mappings, INIT_CONTAINERS, pod.initContainers, patches, pod, half);
  }

  lemma NothingApplied(pod: Pod)
    ensures ApplyAll(pod, []) == Some(pod)
  {
  }

  lemma NothingMapped(pod: Pod)
    ensures RewrittenPod(map[], pod) == pod
  {
    hide RewriteRefs;
    forall refs: seq<Ref> ensures RewriteRefs(map[], refs) == refs { UnchangedRefs(map[], refs); }
  }

  // ---------------------------------------------------------------------
  // References stay valid
  // ---------------------------------------------------------------------

  /** A pod claim that names its claim, as opposed to a template from which one will be generated. */
  predicate IsDirect(pc: PodClaim) {
    pc.claimName.Some? && pc.claimName.value != ""
  }

  predicate IsDirectRef(pcs: seq<PodClaim>, ref: Ref) {
    exists pc :: pc in pcs && pc.name == ref.claim && IsDirect(pc)
  }

  /** The reference names a pod claim, and all of its claim or one of the claim's requests. */
  predicate ValidRef(claims: Claims, pcs: seq<PodClaim>, ref: Ref) {
    exists pc :: pc in pcs && pc.name == ref.claim && IsDirect(pc) && pc.claimName.value in claims &&
      (ref.request == "" || HasRequest(claims[pc.claimName.value].requests, ref.request))
  }

  /** Mapped names are requests of the expanded claim. */
  lemma {:induction false} MappingPresent(env: Env, rs: seq<DeviceRequest>, name: string)
    requires name in Mapping(env, rs)
    ensures forall x :: x in Mapping(env, rs)[name] ==> HasRequest(ExpandAll(env, rs), x)
  {
    hide Expansion, Expands;
    var init, last := rs[..|rs| - 1], rs[|rs| - 1];
    if Expands(env, last) && last.name == name {
      forall x | x in Mapping(env, rs)[name] ensures HasRequest(ExpandAll(env, rs), x) {
        var i :| 0 <= i < |Expansion(env, last)| && Expansion(env, last)[i].name == x;
        assert Expansion(env, last)[i] in ExpandAll(env, rs);
      }
    } else {
      MappingPresent(env, init, name);
      forall x | HasRequest(ExpandAll(env, init), x) ensures HasRequest(ExpandAll(env, rs), x) {
        var r :| r in ExpandAll(env, init) && r.name == x;
        assert r in ExpandAll(env, rs);
      }
    }
  }

  /** A request whose name is not mapped is still there. */
  lemma {:induction false} UnmappedKept(env: Env, rs: seq<DeviceRequest>, r: DeviceRequest)
    requires r in rs && r.name !in Mapping(env, rs)
    ensures r in ExpandAll(env, rs)
  {
    hide Expansion, Expands;
    var init, last := rs[..|rs| - 1], rs[|rs| - 1];
    assert rs == init + [last];
    if r != last || Expands(env, last) { UnmappedKept(env, init, r); }
  }

  ghost predicate AdmittedFrom(env: Env, originals: Claims, stored: Claims) {
    && stored.Keys == originals.Keys
    && forall c :: c in originals ==>
      ANNOTATION !in AnnotationsOf(originals[c]) && stored[c] == Admitted(env, originals[c])
  }

  lemma RecordedIsMapping(env: Env, originals: Claims, stored: Claims, pc: PodClaim)
    requires AdmittedFrom(env, originals, stored) && LookupName(pc) != "" && LookupName(pc) in originals
    ensures var rs := originals[LookupName(pc)].requests;
      RecordedMapping(stored, pc) == if AnyExpands(env, rs) then Some(Mapping(env, rs)) else None
  {
    hide Mapping, ExpandAll, AllConstraints, LookupName, AnyExpands;
  }

  lemma {:induction false} RefStaysValid(env: Env, originals: Claims, stored: Claims, pcs: seq<PodClaim>, ref: Ref)
    requires AdmittedFrom(env, originals, stored) && DistinctClaims(pcs) && ValidRef(originals, pcs, ref)
    ensures forall x :: x in RewriteRef(MappingsOf(stored, pcs), ref) ==> ValidRef(stored, pcs, x)
  {
    hide LookupName, RecordedMapping, MappingsOf, AnyExpands, Mapping, ExpandAll, DistinctClaims, AllConstraints;
    var pc :| pc in pcs && pc.name == ref.claim && IsDirect(pc) && pc.claimName.value in originals &&
      (ref.request == "" || HasRequest(originals[pc.claimName.value].requests, ref.request));
    assert LookupName(pc) == pc.claimName.value by { DirectLookup(pc); }
    var ms, rs := MappingsOf(stored, pcs), originals[LookupName(pc)].requests;
    MappingsAt(stored, pcs, pc);
    RecordedIsMapping(env, originals, stored, pc);
    if Mapped(ms, ref) {
      MappingPresent(env, rs, ref.request);
    } else if ref.request != "" && AnyExpands(env, rs) {
      var r :| r in rs && r.name == ref.request;
      UnmappedKept(env, rs, r);
    }
  }

  lemma DirectLookup(pc: PodClaim)
    requires IsDirect(pc)
    ensures LookupName(pc) == pc.claimName.value != ""
  {
  }

  lemma RewrittenClaim(mappings: Mappings, ref: Ref, x: Ref)
    requires x in RewriteRef(mappings, ref)
    ensures x.claim == ref.claim
  {
  }

  lemma {:induction false} RefsStayValid(env: Env, originals: Claims, stored: Claims, pcs: seq<PodClaim>,
                                         refs: seq<Ref>)
    requires AdmittedFrom(env, originals, stored) && DistinctClaims(pcs)
    requires forall ref :: ref in refs && IsDirectRef(pcs, ref) ==> ValidRef(originals, pcs, ref)
    ensures forall x :: x in RewriteRefs(MappingsOf(stored, pcs), refs) && IsDirectRef(pcs, x) ==>
      ValidRef(stored, pcs, x)
  {
    hide ValidRef, RewriteRef, MappingsOf, AdmittedFrom, DistinctClaims;
    if refs != [] {
      var last, ms := refs[|refs| - 1], MappingsOf(stored, pcs);
      RefsStayValid(env, originals, stored, pcs, refs[..|refs| - 1]);
      forall x | x in RewriteRef(ms, last) && IsDirectRef(pcs, x) ensures ValidRef(stored, pcs, x) {
        RewrittenClaim(ms, last, x);
        assert IsDirectRef(pcs, last) && last in refs;
        RefStaysValid(env, originals, stored, pcs, last);
      }
    }
  }

  ghost predicate ListValid(claims: Claims, pcs: seq<PodClaim>, refs: seq<Ref>) {
    forall ref :: ref in refs && IsDirectRef(pcs, ref) ==> ValidRef(claims, pcs, ref)
  }

  ghost predicate AllValid(claims: Claims, pod: Pod) {
    forall refs :: refs in pod.containers || refs in pod.initContainers ==> ListValid(claims, pod.claims, refs)
  }

  /** If every container reference to a claim was valid against the claims as written, then every such reference of
      the rewritten pod is valid against the claims as admitted. */
  lemma PodStaysValid(env: Env, originals: Claims, stored: Claims, pod: Pod)
    requires AdmittedFrom(env, originals, stored) && DistinctClaims(pod.claims) && AllValid(originals, pod)
    ensures AllValid(stored, RewrittenPod(MappingsOf(stored, pod.claims), pod))
  {
    hide ValidRef, RewriteRefs, MappingsOf, AdmittedFrom, DistinctClaims, IsDirectRef;
    var ms := MappingsOf(stored, pod.claims);
    var after := RewrittenPod(ms, pod);
    forall refs | refs in after.containers ||
      refs in after.initContainers ensures ListValid(stored, after.claims, refs) {
      var before :| (before in pod.containers || before in pod.initContainers) && refs == RewriteRefs(ms, before);
      RefsStayValid(env, originals, stored, pod.claims, before);
    }
  }

  /** A reference through a template is not rewritten, unless a claim happens to have the template's name; when the
      claim that is generated from the template is admitted, a request that expands is gone, and the reference
      dangles. */
  lemma TemplateRefDangles(env: Env, stored: Claims, pcs: seq<PodClaim>, pc: PodClaim, generated: Claim,
                           r: DeviceRequest)
    requires DistinctClaims(pcs) && pc in pcs && !IsDirect(pc) && LookupName(pc) !in stored
    requires NamesApart(generated.requests) && r in generated.requests && Expands(env, r)
    ensures RewriteRef(MappingsOf(stored, pcs), Ref(pc.name, r.name)) == [Ref(pc.name, r.name)]
    ensures !HasRequest(Admitted(env, generated).requests, r.name)
  {
    hide MappingsOf, ExpandAll, AllConstraints, Mapping, NamesApart, DistinctClaims, LookupName;
    MappingsAt(stored, pcs, pc);
    NameKeptIff(env, generated.requests, r);
  }

  /** Only when a stored claim has the template's name is its mapping used. */
  lemma TemplateUsesNamesake(env: Env, originals: Claims, stored: Claims, pcs: seq<PodClaim>, pc: PodClaim,
                             r: DeviceRequest)
    requires AdmittedFrom(env, originals, stored) && DistinctClaims(pcs) && pc in pcs && !IsDirect(pc)
    requires pc.templateName.Some? && pc.templateName.value != "" && r.name != ""
    requires pc.templateName.value in originals && r in originals[pc.templateName.value].requests
    requires UniqueNames(originals[pc.templateName.value].requests)
    ensures Mapped(MappingsOf(stored, pcs), Ref(pc.name, r.name)) <==> Expands(env, r)
  {
    hide RecordedMapping, MappingsOf, Mapping, Expansion, Expands, DistinctClaims, UniqueNames, AdmittedFrom;
    var rs := originals[pc.templateName.value].requests;
    MappingsAt(stored, pcs, pc);
    RecordedIsMapping(env, originals, stored, pc);
    MappingExact(env, rs, r);
    if Expands(env, r) { assert AnyExpands(env, rs); }
  }

  /** With unique request names, a reference to an expanded request becomes exactly its generated requests. */
  lemma {:induction false} MappingExact(env: Env, rs: seq<DeviceRequest>, r: DeviceRequest)
    requires UniqueNames(rs) && r in rs
    ensures r.name in Mapping(env, rs) <==> Expands(env, r)
    ensures Expands(env, r) ==> Mapping(env, rs)[r.name] == NamesIn(Expansion(env, r))
  {
    hide Expansion, Expands, NamesIn;
    var init, last := rs[..|rs| - 1], rs[|rs| - 1];
    assert rs == init + [last];
    if r == last {
      NotMapped(env, init, r.name);
    } else {
      MappingExact(env, init, r);
    }
  }

  lemma {:induction false} NotMapped(env: Env, rs: seq<DeviceRequest>, name: string)
    requires forall r :: r in rs ==> r.name != name
    ensures name !in Mapping(env, rs)
  {
    if rs != [] {
      assert rs[|rs| - 1] in rs;
      NotMapped(env, rs[..|rs| - 1], name);
    }
  }

  // ---------------------------------------------------------------------
  // What a reference becomes
  // ---------------------------------------------------------------------

  /** The references name the requests, one by one and in order, all in one pod claim. */
  ghost predicate NamesAll(refs: seq<Ref>, claim: string, requests: seq<DeviceRequest>) {
    && |refs| == |requests|
    && forall i :: 0 <= i < |refs| ==> refs[i].claim == claim && refs[i].request == requests[i].name
  }

  /** A reference to a request of an admitted claim becomes references to all requests that were generated for it,
      in order; a reference to a request that does not expand, or to the whole claim, stays. */
  lemma ReferenceExpands(env: Env, originals: Claims, stored: Claims, pcs: seq<PodClaim>, pc: PodClaim,
                         r: DeviceRequest)
    requires AdmittedFrom(env, originals, stored) && DistinctClaims(pcs) && pc in pcs && IsDirect(pc)
    requires pc.claimName.value in originals && r in originals[pc.claimName.value].requests
    requires UniqueNames(originals[pc.claimName.value].requests) && r.name != ""
    ensures var refs := RewriteRef(MappingsOf(stored, pcs), Ref(pc.name, r.name));
      if Expands(env, r) then NamesAll(refs, pc.name, Expansion(env, r)) else refs == [Ref(pc.name, r.name)]
    ensures RewriteRef(MappingsOf(stored, pcs), Ref(pc.name, "")) == [Ref(pc.name, "")]
  {
    hide LookupName, RecordedMapping, MappingsOf, Mapping, Expansion, Expands, DistinctClaims, UniqueNames;
    hide AdmittedFrom;
    var rs := originals[pc.claimName.value].requests;
    DirectLookup(pc);
    MappingsAt(stored, pcs, pc);
    RecordedIsMapping(env, originals, stored, pc);
    MappingExact(env, rs, r);
    if Expands(env, r) { assert AnyExpands(env, rs); }
  }

  /** A list of references is rewritten piece by piece, in order. */
  lemma {:induction false} RewriteConcat(mappings: Mappings, a: seq<Ref>, b: seq<Ref>)
    ensures RewriteRefs(mappings, a + b) == RewriteRefs(mappings, a) + RewriteRefs(mappings, b)
  {
    hide RewriteRef;
    if b == [] {
      assert a + b == a;
    } else {
      RewriteConcat(mappings, a, b[..|b| - 1]);
      assert (a + b)[..|a + b| - 1] == a + b[..|b| - 1];
    }
  }

  /** The n-th reference of a container stands between the rewritten references before and after it. */
  lemma RewrittenInPlace(mappings: Mappings, refs: seq<Ref>, n: nat)
    requires n < |refs|
    ensures RewriteRefs(mappings, refs) ==
      RewriteRefs(mappings, refs[..n]) + RewriteRef(mappings, refs[n]) + RewriteRefs(mappings, refs[n + 1..])
  {
    hide RewriteRef;
    assert refs == refs[..n] + [refs[n]] + refs[n + 1..];
    RewriteConcat(mappings, refs[..n] + [refs[n]], refs[n + 1..]);
    RewriteConcat(mappings, refs[..n], [refs[n]]);
    RewriteSingle(mappings, refs[n]);
  }

  lemma RewriteSingle(mappings: Mappings, ref: Ref)
    ensures RewriteRefs(mappings, [ref]) == RewriteRef(mappings, ref)
  {
    hide RewriteRef;
    assert [ref][..0] == [];
    assert RewriteRefs(mappings, []) == [];
  }

  /** The references of a container that are generated for the n-th one. */
  ghost predicate HoldsAll(refs: seq<Ref>, claim: string, requests: seq<DeviceRequest>) {
    exists before, all, after :: refs == before + all + after && NamesAll(all, claim, requests)
  }

  /** So in every container, a reference to an expanded request is replaced by references to all its generated
      requests, in order and next to each other; the containers stay the same in number. */
  lemma ContainerExpands(env: Env, originals: Claims, stored: Claims, pod: Pod, pc: PodClaim, r: DeviceRequest, k: nat)
    requires AdmittedFrom(env, originals, stored) && DistinctClaims(pod.claims) && pc in pod.claims && IsDirect(pc)
    requires pc.claimName.value in originals && r in originals[pc.claimName.value].requests
    requires UniqueNames(originals[pc.claimName.value].requests) && r.name != "" && Expands(env, r)
    ensures var after := RewrittenPod(MappingsOf(stored, pod.claims), pod);
      && |after.containers| == |pod.containers| && |after.initContainers| == |pod.initContainers|
      && (k < |pod.containers| && Ref(pc.name, r.name) in pod.containers[k] ==>
            HoldsAll(after.containers[k], pc.name, Expansion(env, r)))
      && (k < |pod.initContainers| && Ref(pc.name, r.name) in pod.initContainers[k] ==>
            HoldsAll(after.initContainers[k], pc.name, Expansion(env, r)))
  {
    hide RewriteRefs, MappingsOf, Expansion, Expands, DistinctClaims, UniqueNames, AdmittedFrom, HoldsAll;
    var ms := MappingsOf(stored, pod.claims);
    if k < |pod.containers| && Ref(pc.name, r.name) in pod.containers[k] {
      ListExpands(env, originals, stored, pod.claims, pc, r, pod.containers[k]);
    }
    if k < |pod.initContainers| && Ref(pc.name, r.name) in pod.initContainers[k] {
      ListExpands(env, originals, stored, pod.claims, pc, r, pod.initContainers[k]);
    }
  }

  lemma ListExpands(env: Env, originals: Claims, stored: Claims, pcs: seq<PodClaim>, pc: PodClaim, r: DeviceRequest,
                    refs: seq<Ref>)
    requires AdmittedFrom(env, originals, stored) && DistinctClaims(pcs) && pc in pcs && IsDirect(pc)
    requires pc.claimName.value in originals && r in originals[pc.claimName.value].requests
    requires UniqueNames(originals[pc.claimName.value].requests) && r.name != "" && Expands(env, r)
    requires Ref(pc.name, r.name) in refs
    ensures HoldsAll(RewriteRefs(MappingsOf(stored, pcs), refs), pc.name, Expansion(env, r))
  {
    hide RewriteRefs, MappingsOf, Expansion, Expands, DistinctClaims, UniqueNames, AdmittedFrom, RewriteRef, NamesAll;
    var ms := MappingsOf(stored, pcs);
    var n :| 0 <= n < |refs| && refs[n] == Ref(pc.name, r.name);
    RewrittenInPlace(ms, refs, n);
    ReferenceExpands(env, originals, stored, pcs, pc, r);
  }
}
