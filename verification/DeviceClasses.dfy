/** Publishing and collecting DeviceClasses.  The cluster's classes are a map from name to labels; one
    sync publishes a class per partition key, per aggregate and per tier, and then deletes every
    managed partition class whose rebuilt key is not active. */
module DeviceClasses {
  import opened Collections
  import opened Text
  import opened Topology
  import opened PartitionBuilder
  import opened PartitionConfigs
  import opened GroupingBuilder
  import opened Aggregates
  import opened ClassKeys
  import opened ClusterPartitions
  import opened GroupingClasses
  import opened Tiers

  /** The naming functions that hash or truncate: label values, and the class name of a profile and type. */
  datatype Naming = Naming(truncate: string -> string, className: (string, PartitionType) -> string)

  // ---------------------------------------------------------------------
  // The partitions of all nodes, keyed
  // ---------------------------------------------------------------------

  ghost function KeyOf(naming: Naming, rules: seq<TopologyRule>, item: Item): string {
    PartitionKey(naming.truncate(item.profile), item.partition, CouplingOf(item.partition, rules))
  }

  ghost function ItemKey(naming: Naming, rules: seq<TopologyRule>): Item -> string {
    (item: Item) => KeyOf(naming, rules, item)
  }

  /** An entry stands for an item with its key: same profile, same partition, the coupling of the rules. */
  ghost predicate StandsFor(naming: Naming, rules: seq<TopologyRule>, k: string, e: Entry, item: Item) {
    && KeyOf(naming, rules, item) == k
    && e.profile == item.profile && e.rep == item.partition && e.partType == item.partition.partType
    && e.coupling == CouplingOf(item.partition, rules)
  }

  /** `seen` has one entry per key, standing for the first item with that key and counting all of them. */
  ghost predicate SeenFor(naming: Naming, rules: seq<TopologyRule>, items: seq<Item>, seen: Seen) {
    && seen.Keys == KeySet(items, ItemKey(naming, rules))
    && forall k :: k in seen ==> EntryFor(naming, rules, items, k, seen[k])
  }

  ghost predicate EntryFor(naming: Naming, rules: seq<TopologyRule>, items: seq<Item>, k: string, e: Entry) {
    var same := Filter(items, KeyIs(ItemKey(naming, rules), k));
    e.count == |same| >= 1 && StandsFor(naming, rules, k, e, same[0])
  }

  function Noted(seen: Seen, k: string, first: Entry): Seen {
    seen[k := if k in seen then seen[k].(count := seen[k].count + 1) else first]
  }

  lemma SeenSnoc(naming: Naming, rules: seq<TopologyRule>, items: seq<Item>, seen: Seen, item: Item, first: Entry)
    requires SeenFor(naming, rules, items, seen)
    requires StandsFor(naming, rules, KeyOf(naming, rules, item), first, item) && first.count == 1
    ensures var k := KeyOf(naming, rules, item);
      SeenFor(naming, rules, items + [item], Noted(seen, k, first))
  {
    hide KeyOf, StandsFor, Filter, EntryFor;
    var key, k0 := ItemKey(naming, rules), KeyOf(naming, rules, item);
    assert key(item) == k0;
    assert KeySet(items + [item], key) == KeySet(items, key) + {k0};
    var seen' := Noted(seen, k0, first);
    forall k | k in seen' ensures EntryFor(naming, rules, items + [item], k, seen'[k]) {
      if k in seen {
        EntrySnoc(naming, rules, items, k, seen[k], item);
      } else {
        EntryFirst(naming, rules, items, first, item);
      }
    }
  }

  lemma EntrySnoc(naming: Naming, rules: seq<TopologyRule>, items: seq<Item>, k: string, e: Entry, item: Item)
    requires EntryFor(naming, rules, items, k, e)
    ensures EntryFor(naming, rules, items + [item], k, if KeyOf(naming, rules, item) == k
      then e.(count := e.count + 1) else e)
  {
    hide KeyOf, StandsFor, Filter;
    FilterSnoc(items, item, KeyIs(ItemKey(naming, rules), k));
    StandsForRecounted(naming, rules);
  }

  lemma EntryFirst(naming: Naming, rules: seq<TopologyRule>, items: seq<Item>, first: Entry, item: Item)
    requires StandsFor(naming, rules, KeyOf(naming, rules, item), first, item) && first.count == 1
    requires KeyOf(naming, rules, item) !in KeySet(items, ItemKey(naming, rules))
    ensures EntryFor(naming, rules, items + [item], KeyOf(naming, rules, item), first)
  {
    hide KeyOf, StandsFor, Filter;
    var key, k := ItemKey(naming, rules), KeyOf(naming, rules, item);
    FilterSnoc(items, item, KeyIs(key, k));
    FilterNone(items, KeyIs(key, k));
  }

  lemma StandsForRecounted(naming: Naming, rules: seq<TopologyRule>)
    ensures forall k, e: Entry, item, n :: StandsFor(naming, rules, k, e, item) ==>
      StandsFor(naming, rules, k, e.(count := n), item)
  {
  }

  method CollectSeen(naming: Naming, results: seq<PartitionResult>, rules: seq<TopologyRule>,
                     classOf: string -> string, selectorsFor: string -> seq<string>)
    returns (seen: Seen)
    ensures SeenFor(naming, rules, ItemsOf(results), seen)
  {
    hide SeenFor, CouplingOf, PartitionKey, ItemsIn;
    seen := map[];
    assert SeenFor(naming, rules, [], map[]) by { NothingSeen(naming, rules); }
    for i := 0 to |results|
      invariant SeenFor(naming, rules, ItemsOf(results[..i]), seen)
    {
      assert results[..i + 1][..i] == results[..i];
      seen := CollectNode(naming, results[i], rules, classOf, selectorsFor, ItemsOf(results[..i]), seen);
    }
    assert results[..|results|] == results;
  }

  lemma NothingSeen(naming: Naming, rules: seq<TopologyRule>)
    ensures SeenFor(naming, rules, [], map[])
  {
  }

  method MakeEntry(naming: Naming, profile: string, p: Partition, rules: seq<TopologyRule>, classOf: string -> string,
                   selectorsFor: string -> seq<string>)
    returns (key: string, e: Entry)
    ensures key == KeyOf(naming, rules, Item(profile, p))
    ensures StandsFor(naming, rules, key, e, Item(profile, p)) && e.count == 1
    ensures SubResourcesFor(p, classOf, selectorsFor, e.config.subResources)
    ensures AlignmentsFor(p, rules, e.config.alignments)
  {
    hide SubResourcesFor, AlignmentsFor, CouplingOf, PartitionKey;
    var config, coupling := BuildPartitionConfig(p, rules, classOf, selectorsFor);
    key := PartitionKey(naming.truncate(profile), p, coupling);
    e := Entry(profile, p.partType, p, config, coupling, 1);
  }

  method CollectNode(naming: Naming, result: PartitionResult, rules: seq<TopologyRule>, classOf: string -> string,
                     selectorsFor: string -> seq<string>,
                     ghost before: seq<Item>, start: Seen) returns (seen: Seen)
    requires SeenFor(naming, rules, before, start)
    ensures SeenFor(naming, rules, before + ItemsIn(result), seen)
  {
    hide SeenFor, KeyOf, StandsFor;
    seen := start;
    ghost var mine := ItemsIn(result);
    assert before + mine[..0] == before;
    for j := 0 to |result.partitions|
      invariant SeenFor(naming, rules, before + mine[..j], seen)
    {
      var key, first := MakeEntry(naming, result.profile, result.partitions[j], rules, classOf, selectorsFor);
      SeenSnoc(naming, rules, before + mine[..j], seen, mine[j], first);
      assert before + mine[..j + 1] == before + mine[..j] + [mine[j]];
      if key in seen {
        seen := seen[key := seen[key].(count := seen[key].count + 1)];
      } else {
        seen := seen[key := first];
      }
    }
    assert mine[..|mine|] == mine;
  }

  // ---------------------------------------------------------------------
  // Rail indices
  // ---------------------------------------------------------------------

  predicate HasRail(e: Entry) {
    e.partType.PcieRootPartition? && e.rep.pcieRoots != []
  }

  function RailKeys(seen: Seen): set<string> {
    set k | k in seen && HasRail(seen[k])
  }

  function RootOf(seen: Seen, k: string): string {
    if k in seen && seen[k].rep.pcieRoots != [] then seen[k].rep.pcieRoots[0] else ""
  }

  /** Rails number the given keys from 0, in the order of their roots. */
  ghost predicate RailsFor(seen: Seen, keys: set<string>, rails: map<string, nat>) {
    && rails.Keys == keys
    && (forall k :: k in rails ==> rails[k] < |keys|)
    && (forall k, k' :: k in rails && k' in rails && rails[k] == rails[k'] ==> k == k')
    && (forall k, k' :: k in rails && k' in rails && rails[k] < rails[k'] ==>
      StringLeq(RootOf(seen, k), RootOf(seen, k')))
  }

  /** A key with the least root among the remaining ones. */
  lemma {:induction false} LeastRoot(seen: Seen, todo: set<string>) returns (k: string)
    requires todo != {}
    ensures k in todo && forall k' :: k' in todo ==> StringLeq(RootOf(seen, k), RootOf(seen, k'))
    decreases |todo|
  {
    StringOrder();
    k :| k in todo;
    var rest := todo - {k};
    if rest != {} {
      var m := LeastRoot(seen, rest);
      if !StringLeq(RootOf(seen, k), RootOf(seen, m)) { k := m; }
    } else {
      assert todo == {k};
    }
  }

  lemma RailsAdd(seen: Seen, keys: set<string>, k: string, rails: map<string, nat>)
    requires RailsFor(seen, keys, rails) && k !in keys
    requires forall k' :: k' in keys ==> StringLeq(RootOf(seen, k'), RootOf(seen, k))
    ensures RailsFor(seen, keys + {k}, rails[k := |keys|])
  {
    hide StringLeq, RootOf;
  }

  method AssignRails(seen: Seen) returns (rails: map<string, nat>)
    ensures RailsFor(seen, RailKeys(seen), rails)
  {
    hide StringLeq, RootOf, RailsFor;
    rails := map[];
    var keys := set k | k in seen && HasRail(seen[k]);
    var todo := keys;
    assert keys == RailKeys(seen);
    assert keys - todo == {};
    assert RailsFor(seen, {}, map[]) by { NoRails(seen); }
    while todo != {}
      invariant todo <= keys
      invariant RailsFor(seen, keys - todo, rails)
      invariant forall k, k' :: k in keys - todo && k' in todo ==> StringLeq(RootOf(seen, k), RootOf(seen, k'))
      decreases |todo|
    {
      ghost var least := LeastRoot(seen, todo);
      var k :| k in todo && forall k' :: k' in todo ==> StringLeq(RootOf(seen, k), RootOf(seen, k'));
      RailsAdd(seen, keys - todo, k, rails);
      assert keys - (todo - {k}) == (keys - todo) + {k};
      assert |keys| == |keys - todo| + |todo|;
      rails := rails[k := |keys| - |todo|];
      todo := todo - {k};
    }
    assert keys - todo == keys;
  }

  lemma NoRails(seen: Seen)
    ensures RailsFor(seen, {}, map[])
  {
  }

  // ---------------------------------------------------------------------
  // Publishing
  // ---------------------------------------------------------------------

  /** Classes whose rebuilt key is in a set. */
  ghost predicate Keyed(classes: Store, active: set<string>) {
    forall n :: n in classes ==> classes[n].PartitionLabels? && KeyFromLabels(classes[n]) in active
  }

  /** What the key and the name of an entry have in common. */
  function Tail(e: Entry): string {
    Suffix(e.partType, e.rep) + DashIf(CouplingName(e.coupling))
  }

  /** The name of an entry without its rail. */
  function BaseName(naming: Naming, e: Entry): string {
    naming.className(e.profile, e.partType) + Tail(e)
  }

  function EntryName(naming: Naming, k: string, e: Entry, rails: map<string, nat>): string {
    if e.partType.FullPartition? then "full"
    else if e.partType.PcieRootPartition? && k in rails then WithRail(BaseName(naming, e), rails[k])
    else BaseName(naming, e)
  }

  function EntryNames(naming: Naming, seen: Seen, keys: set<string>, rails: map<string, nat>): set<string> {
    set k | k in keys && k in seen :: EntryName(naming, k, seen[k], rails)
  }

  function AggregateNames(keys: set<AggregateKey>): set<string> {
    set ak | ak in keys :: TypeName(ak.partType)
  }

  function AggregateLabelKey(naming: Naming, ak: AggregateKey): string {
    naming.truncate(ak.profile) + "-" + TypeName(ak.partType)
  }

  function TierKey(naming: Naming, ak: AggregateKey, tier: string): string {
    naming.truncate(ak.profile) + "-" + tier
  }

  function AggregateKeys(naming: Naming, states: map<AggregateKey, AggregateState>): set<string> {
    set ak | ak in states :: AggregateLabelKey(naming, ak)
  }

  ghost predicate TiersFor(states: map<AggregateKey, AggregateState>, rootCount: nat,
                           tiers: map<AggregateKey, string>) {
    && tiers.Keys <= states.Keys
    && (rootCount == 0 ==> tiers == map[])
    && (forall ak :: ak in tiers ==> tiers[ak] != "")
    && (rootCount > 0 ==> forall ak :: ak in states && states[ak].count >= 1 ==> TierIs(states, rootCount, ak, tiers))
  }

  ghost predicate TierIs(states: map<AggregateKey, AggregateState>, rootCount: nat, ak: AggregateKey,
                         tiers: map<AggregateKey, string>)
    requires ak in states && states[ak].count >= 1
  {
    (if ak in tiers then tiers[ak] else "") == AggregateTier(ak.partType, states[ak].count, rootCount)
  }

  function TierKeys(naming: Naming, tiers: map<AggregateKey, string>): set<string> {
    set ak | ak in tiers :: TierKey(naming, ak, tiers[ak])
  }

  /** Not the partition whose labels lose the key: a nameless PCIe root without NUMA nodes. */
  predicate RootNamed(p: Partition) {
    !(p.partType.PcieRootPartition? && p.numaNodes == [] && p.pcieRoots != [] && p.pcieRoots[0] == "")
  }

  ghost predicate RootsNamed(items: seq<Item>) {
    forall item :: item in items ==> RootNamed(item.partition)
  }

  function EntryLabels(naming: Naming, e: Entry): Labels {
    LabelsFor(naming.truncate(e.profile), e.partType, e.rep, e.coupling)
  }

  /** A published class's labels give back the key it was published under. */
  lemma EntryKeyed(naming: Naming, rules: seq<TopologyRule>, items: seq<Item>, seen: Seen, k: string)
    requires SeenFor(naming, rules, items, seen) && RootsNamed(items) && k in seen
    ensures EntryLabels(naming, seen[k]).PartitionLabels? && KeyFromLabels(EntryLabels(naming, seen[k])) == k
  {
    hide CouplingOf, PartitionKey, KeyFromLabels;
    var same := Filter(items, KeyIs(ItemKey(naming, rules), k));
    FilterMembers(items, KeyIs(ItemKey(naming, rules), k));
    assert same[0] in same;
    assert same[0] in items && RootNamed(same[0].partition);
    KeyRoundTripIff(naming.truncate(seen[k].profile), seen[k].rep, seen[k].coupling);
  }

  /** What one sync works out before it publishes. */
  datatype Plan = Plan(seen: Seen, rails: map<string, nat>, states: map<AggregateKey, AggregateState>,
    tiers: map<AggregateKey, string>)

  ghost predicate PlanFor(naming: Naming, rules: seq<TopologyRule>, items: seq<Item>, plan: Plan) {
    SeenFor(naming, rules, items, plan.seen) && PlanOf(plan)
  }

  /** Rails, aggregates and tiers follow from the entries. */
  ghost predicate PlanOf(plan: Plan) {
    && RailsFor(plan.seen, RailKeys(plan.seen), plan.rails)
    && StatesFor(plan.seen, plan.seen.Keys, plan.states)
    && TiersFor(plan.states, |RootEntries(plan.seen)|, plan.tiers)
  }

  function ActiveKeys(naming: Naming, plan: Plan): set<string> {
    plan.seen.Keys + AggregateKeys(naming, plan.states) + TierKeys(naming, plan.tiers)
  }

  function PlannedNames(naming: Naming, plan: Plan): set<string> {
    EntryNames(naming, plan.seen, plan.seen.Keys, plan.rails) + AggregateNames(plan.states.Keys) + plan.tiers.Values
  }

  /** What a sync publishes a class for: an entry, an aggregate, or the tier of an aggregate. */
  datatype Publisher = OfEntry(key: string) | OfAggregate(ak: AggregateKey) | OfTier(ak: AggregateKey)

  function Publishers(plan: Plan): set<Publisher> {
    (set k | k in plan.seen :: OfEntry(k)) + (set ak | ak in plan.states :: OfAggregate(ak)) +
      (set ak | ak in plan.tiers :: OfTier(ak))
  }

  function PublishedName(naming: Naming, plan: Plan, x: Publisher): string
    requires x in Publishers(plan)
  {
    match x
    case OfEntry(k) => EntryName(naming, k, plan.seen[k], plan.rails)
    case OfAggregate(ak) => TypeName(ak.partType)
    case OfTier(ak) => plan.tiers[ak]
  }

  function PublishedLabels(naming: Naming, plan: Plan, x: Publisher): Labels
    requires x in Publishers(plan)
  {
    match x
    case OfEntry(k) => EntryLabels(naming, plan.seen[k])
    case OfAggregate(ak) => AggregateLabels(naming, ak)
    case OfTier(ak) => TierLabels(naming, ak, plan.tiers[ak])
  }

  function PublishedKey(naming: Naming, plan: Plan, x: Publisher): string
    requires x in Publishers(plan)
  {
    match x
    case OfEntry(k) => k
    case OfAggregate(ak) => AggregateLabelKey(naming, ak)
    case OfTier(ak) => TierKey(naming, ak, plan.tiers[ak])
  }

  function AggregateLabels(naming: Naming, ak: AggregateKey): Labels {
    PartitionLabels(naming.truncate(ak.profile), TypeName(ak.partType), "", "", "")
  }

  function TierLabels(naming: Naming, ak: AggregateKey, tier: string): Labels {
    PartitionLabels(naming.truncate(ak.profile), TypeName(ak.partType), tier, "", "")
  }

  /** The class is one that the plan publishes under that name. */
  ghost predicate Planned(naming: Naming, plan: Plan, n: string, labels: Labels) {
    exists x :: x in Publishers(plan) && PublishedName(naming, plan, x) == n &&
      PublishedLabels(naming, plan, x) == labels
  }

  ghost predicate AllPlanned(naming: Naming, plan: Plan, published: Store) {
    forall n :: n in published ==> Planned(naming, plan, n, published[n])
  }

  /** The keys of the publishers are the active keys. */
  lemma KeysPublished(naming: Naming, plan: Plan, k: string)
    ensures k in ActiveKeys(naming, plan) <==>
      exists x :: x in Publishers(plan) && PublishedKey(naming, plan, x) == k
  {
    if k in plan.seen { assert OfEntry(k) in Publishers(plan); }
    if ak :| ak in plan.states && AggregateLabelKey(naming, ak) == k { assert OfAggregate(ak) in Publishers(plan); }
    if ak :| ak in plan.tiers && TierKey(naming, ak, plan.tiers[ak]) == k { assert OfTier(ak) in Publishers(plan); }
  }

  /** Every published class carries the key of its publisher. */
  lemma PublisherKeyed(naming: Naming, rules: seq<TopologyRule>, items: seq<Item>, plan: Plan, x: Publisher)
    requires PlanFor(naming, rules, items, plan) && RootsNamed(items) && x in Publishers(plan)
    ensures var labels := PublishedLabels(naming, plan, x);
      labels.PartitionLabels? && KeyFromLabels(labels) == PublishedKey(naming, plan, x)
  {
    hide SeenFor, RailsFor, StatesFor, RailKeys, RootEntries, RootsNamed;
    match x
    case OfEntry(k) => EntryKeyed(naming, rules, items, plan.seen, k);
    case OfAggregate(ak) => AggregateKeyed(naming, ak);
    case OfTier(ak) => TiersNonEmpty(plan.states, |RootEntries(plan.seen)|, plan.tiers);
  }

  /** All full partitions are published under one name, whatever their profile, so only one of them has a class. */
  lemma FullNameShared(naming: Naming, plan: Plan, k: string, k': string)
    requires k in plan.seen && k' in plan.seen
    requires plan.seen[k].partType.FullPartition? && plan.seen[k'].partType.FullPartition?
    ensures PublishedName(naming, plan, OfEntry(k)) == PublishedName(naming, plan, OfEntry(k'))
  {
  }

  /** A class is stale when it is a managed partition class whose rebuilt key is not active. */
  predicate Stale(l: Labels, active: set<string>) {
    l.PartitionLabels? && KeyFromLabels(l) !in active
  }

  function Collected(store: Store, active: set<string>): Store {
    map n | n in store && !Stale(store[n], active) :: store[n]
  }

  class DeviceClassManager {
    var store: Store

    constructor (initial: Store)
      ensures store == initial
    {
      store := initial;
    }

    /** Create or update. */
    method PublishDeviceClass(name: string, labels: Labels)
      modifies this
      ensures store == old(store)[name := labels]
    {
      store := store[name := labels];
    }

    method PublishEntries(naming: Naming, seen: Seen, rails: map<string, nat>, ghost rules: seq<TopologyRule>,
                          ghost items: seq<Item>)
      returns (ghost published: Store)
      requires SeenFor(naming, rules, items, seen)
      modifies this
      ensures store == old(store) + published
      ensures RootsNamed(items) ==> Keyed(published, seen.Keys)
      ensures published.Keys == EntryNames(naming, seen, seen.Keys, rails)
      ensures forall n :: n in published ==> OfSomeEntry(naming, seen, rails, n, published[n])
    {
      hide SeenFor, EntryLabels, EntryName, EntryNames, KeyFromLabels, RootsNamed, Keyed;
      published := map[];
      NothingPublished(naming, seen, rails);
      assert old(store) + map[] == old(store);
      var todo := seen.Keys;
      ghost var done: set<string> := {};
      while todo != {}
        invariant todo <= seen.Keys && done + todo == seen.Keys
        invariant store == old(store) + published
        invariant RootsNamed(items) ==> Keyed(published, seen.Keys)
        invariant published.Keys == EntryNames(naming, seen, done, rails)
        invariant forall n :: n in published ==> OfSomeEntry(naming, seen, rails, n, published[n])
        decreases |todo|
      {
        var k :| k in todo;
        todo := todo - {k};
        var name, labels := EntryName(naming, k, seen[k], rails), EntryLabels(naming, seen[k]);
        PublishDeviceClass(name, labels);
        if RootsNamed(items) {
          EntryKeyed(naming, rules, items, seen, k);
          KeyedAdd(published, seen.Keys, name, labels);
        }
        EntryNamesAdd(naming, seen, done, k, rails);
        UnionPut(old(store), published, name, labels);
        assert OfSomeEntry(naming, seen, rails, name, labels);
        done, published := done + {k}, published[name := labels];
      }
    }

    method PublishAggregates(naming: Naming, states: map<AggregateKey, AggregateState>) returns (ghost published: Store)
      modifies this
      ensures store == old(store) + published
      ensures Keyed(published, AggregateKeys(naming, states))
      ensures published.Keys == AggregateNames(states.Keys)
      ensures forall n :: n in published ==> OfSomeAggregate(naming, states, n, published[n])
    {
      hide Keyed, AggregateKeys, AggregateNames, AggregateLabels, TypeName, KeyFromLabels, OfSomeAggregate;
      published := map[];
      NoAggregates(naming, states);
      assert old(store) + map[] == old(store);
      var todo := states.Keys;
      ghost var done: set<AggregateKey> := {};
      while todo != {}
        invariant todo <= states.Keys && done + todo == states.Keys
        invariant store == old(store) + published
        invariant Keyed(published, AggregateKeys(naming, states))
        invariant published.Keys == AggregateNames(done)
        invariant forall n :: n in published ==> OfSomeAggregate(naming, states, n, published[n])
        decreases |todo|
      {
        var ak :| ak in todo;
        todo := todo - {ak};
        var name, labels := TypeName(ak.partType), AggregateLabels(naming, ak);
        PublishDeviceClass(name, labels);
        AggregateAdd(naming, states, published, done, ak);
        UnionPut(old(store), published, name, labels);
        done, published := done + {ak}, published[name := labels];
      }
    }

    method PublishTiers(naming: Naming, tiers: map<AggregateKey, string>) returns (ghost published: Store)
      requires forall ak :: ak in tiers ==> tiers[ak] != ""
      modifies this
      ensures store == old(store) + published
      ensures Keyed(published, TierKeys(naming, tiers))
      ensures published.Keys == tiers.Values
      ensures forall n :: n in published ==> OfSomeTier(naming, tiers, n, published[n])
    {
      hide Keyed, TierKeys, TierNames, TierLabels, KeyFromLabels, OfSomeTier;
      published := map[];
      NoTiers(naming, tiers);
      assert old(store) + map[] == old(store);
      var todo := tiers.Keys;
      ghost var done: set<AggregateKey> := {};
      while todo != {}
        invariant todo <= tiers.Keys && done + todo == tiers.Keys
        invariant store == old(store) + published
        invariant Keyed(published, TierKeys(naming, tiers))
        invariant published.Keys == TierNames(tiers, done)
        invariant forall n :: n in published ==> OfSomeTier(naming, tiers, n, published[n])
        decreases |todo|
      {
        var ak :| ak in todo;
        todo := todo - {ak};
        var name, labels := tiers[ak], TierLabels(naming, ak, tiers[ak]);
        PublishDeviceClass(name, labels);
        TierAdd(naming, tiers, published, done, ak);
        UnionPut(old(store), published, name, labels);
        done, published := done + {ak}, published[name := labels];
      }
    }

    /** The tier names of the aggregates that have one. */
    method ComputeTiers(states: map<AggregateKey, AggregateState>, rootCount: nat)
      returns (tiers: map<AggregateKey, string>)
      requires forall ak :: ak in states ==> states[ak].count >= 1
      ensures TiersFor(states, rootCount, tiers)
    {
      hide AggregateTier;
      tiers := map[];
      if rootCount == 0 { return; }
      var todo := states.Keys;
      while todo != {}
        invariant todo <= states.Keys
        invariant tiers.Keys <= states.Keys - todo && forall ak :: ak in tiers ==> tiers[ak] != ""
        invariant forall ak :: ak in states && ak !in todo && states[ak].count >= 1 ==>
          TierIs(states, rootCount, ak, tiers)
        decreases |todo|
      {
        var ak :| ak in todo;
        todo := todo - {ak};
        var tier := ComputeTierName(ak.partType, states[ak].count, rootCount);
        if tier != "" { tiers := tiers[ak := tier]; }
      }
    }

    /** One sync publishes one class per partition key, aggregate and tier and deletes none of them; every
        surviving managed partition class has an active key, and other classes are left alone. */
    method SyncDeviceClasses(naming: Naming, results: seq<PartitionResult>, rules: seq<TopologyRule>,
                             classOf: string -> string,
                             selectorsFor: string -> seq<string>) returns (active: set<string>, ghost plan: Plan,
                               ghost published: Store)
      modifies this
      ensures PlanFor(naming, rules, ItemsOf(results), plan)
      ensures active == ActiveKeys(naming, plan) && published.Keys == PlannedNames(naming, plan)
      ensures forall n :: n in store && store[n].PartitionLabels? ==> KeyFromLabels(store[n]) in active
      ensures AllPlanned(naming, plan, published)
      ensures RootsNamed(ItemsOf(results)) ==> forall n :: n in published ==> n in store && store[n] == published[n]
      ensures store == Collected(old(store) + published, active)
    {
      hide SeenFor, Keyed, Collected, KeyFromLabels, RootsNamed, PlanFor, ActiveKeys, PlannedNames, AllPlanned;
      var seen := CollectSeen(naming, results, rules, classOf, selectorsFor);
      ghost var items, initial := ItemsOf(results), store;
      active, plan, published := PublishAll(naming, seen, rules, items);
      if RootsNamed(items) { KeyedSurvive(initial, published, active); }
      CollectedActive(initial + published, active);
      CleanupStaleDeviceClasses(active);
    }

    /** Everything one sync publishes, and the keys that are then active. */
    method PublishAll(naming: Naming, seen: Seen, ghost rules: seq<TopologyRule>, ghost items: seq<Item>)
      returns (active: set<string>, ghost plan: Plan, ghost published: Store)
      requires SeenFor(naming, rules, items, seen)
      modifies this
      ensures PlanFor(naming, rules, items, plan)
      ensures active == ActiveKeys(naming, plan) && published.Keys == PlannedNames(naming, plan)
      ensures store == old(store) + published
      ensures RootsNamed(items) ==> Keyed(published, active)
      ensures AllPlanned(naming, plan, published)
    {
      hide SeenFor, Keyed, EntryNames, AggregateNames, StatesFor, AggregateKeys, TierKeys, RootsNamed, RailsFor;
      hide RailKeys, RootEntries, TiersFor, AllPlanned, OfSomeEntry, OfSomeAggregate, OfSomeTier;
      var rails := AssignRails(seen);
      ghost var p1 := PublishEntries(naming, seen, rails, rules, items);
      var states := AggregateStates(seen);
      ghost var p2 := PublishAggregates(naming, states);
      var rootCount := |RootEntries(seen)|;
      CountsPositive(naming, rules, items, seen, states);
      var tiers := ComputeTiers(states, rootCount);
      TiersNonEmpty(states, rootCount, tiers);
      ghost var p3 := PublishTiers(naming, tiers);
      active := seen.Keys + AggregateKeys(naming, states) + TierKeys(naming, tiers);
      published := p1 + p2 + p3;
      plan := Plan(seen, rails, states, tiers);
      UnionAssociates(old(store), p1, p2, p3);
      PlannedThrice(naming, plan, p1, p2, p3);
      if RootsNamed(items) {
        KeyedThrice(p1, p2, p3, seen.Keys, AggregateKeys(naming, states), TierKeys(naming, tiers));
      }
    }

    method PublishRails(naming: Naming, seen: SeenInstances) returns (names: set<string>)
      modifies this
      ensures names == RailNames(seen, seen.Keys)
      ensures Overlaid(old(store), names, store)
    {
      hide RailName, Overlaid;
      names := {};
      assert Overlaid(store, {}, store) by { NothingOverlaid(store); }
      var todo := seen.Keys;
      while todo != {}
        invariant todo <= seen.Keys
        invariant names == RailNames(seen, seen.Keys - todo)
        invariant Overlaid(old(store), names, store)
        decreases |todo|
      {
        var k :| k in todo;
        todo := todo - {k};
        OverlaidPut(old(store), names, store, RailName(seen[k]), GroupingLabelsFor(naming.truncate, seen[k]));
        PublishDeviceClass(RailName(seen[k]), GroupingLabelsFor(naming.truncate, seen[k]));
        names := names + {RailName(seen[k])};
      }
    }

    /** One aggregate per grouping name, whichever representative is visited first. */
    method PublishGroupingAggregates(naming: Naming, seen: SeenInstances) returns (names: set<string>)
      modifies this
      ensures names == AggregateNamesOf(GroupingNames(seen, seen.Keys))
      ensures Overlaid(old(store), names, store)
    {
      hide AggregateName, GroupingNames, Overlaid;
      names := {};
      assert Overlaid(store, {}, store) by { NothingOverlaid(store); }
      var aggregates := FirstPerName(seen);
      var left := aggregates.Keys;
      while left != {}
        invariant left <= aggregates.Keys
        invariant names == AggregateNamesOf(aggregates.Keys - left)
        invariant Overlaid(old(store), names, store)
        decreases |left|
      {
        var g :| g in left;
        left := left - {g};
        OverlaidPut(old(store), names, store, AggregateName(g), GroupingLabelsFor(naming.truncate, aggregates[g]));
        PublishDeviceClass(AggregateName(aggregates[g].groupingName),
          GroupingLabelsFor(naming.truncate, aggregates[g]));
        names := names + {AggregateName(g)};
      }
      assert aggregates.Keys - left == aggregates.Keys;
    }

    method CleanupStaleGroupingDeviceClasses(active: set<string>)
      modifies this
      ensures store == map n | n in old(store) && (old(store)[n].GroupingLabels? ==> n in active) :: old(store)[n]
    {
      ghost var initial := store;
      var todo := store.Keys;
      while todo != {}
        invariant todo <= initial.Keys
        invariant store == map n | n in initial && (n in todo || (initial[n].GroupingLabels? ==> n in active)) ::
          initial[n]
        decreases |todo|
      {
        var n :| n in todo;
        todo := todo - {n};
        if store[n].GroupingLabels? && n !in active { store := store - {n}; }
      }
    }

    /** One grouping sync leaves grouping classes under exactly the names of the representatives and of
        their groupings. */
    method SyncGroupingDeviceClasses(naming: Naming, results: seq<GroupingResult>) returns (ghost seen: SeenInstances)
      modifies this
      ensures FirstPerKey(naming.truncate, InstancesOf(results), seen)
      ensures ExactlyActive(old(store), ActiveNames(seen), store)
    {
      hide FirstPerKey, RailNames, GroupingNames, AggregateNamesOf;
      var instances := CollectInstances(naming.truncate, results);
      seen := instances;
      var rails := PublishRails(naming, instances);
      var names := PublishGroupingAggregates(naming, instances);
      CleanupStaleGroupingDeviceClasses(rails + names);
    }

    /** The grouping half of a reconcile.  With no definition left the sync is skipped, so classes of
        groupings that are gone stay in the cluster; otherwise they are collected. */
    method ReconcileGroupings(naming: Naming, detected: seq<DeviceGrouping>, defined: seq<DeviceGrouping>,
                              build: seq<DeviceGrouping> -> seq<GroupingResult>)
      returns (ghost merged: seq<DeviceGrouping>, ghost seen: SeenInstances)
      modifies this
      ensures Merges(detected, defined, merged)
      ensures detected == [] && defined == [] ==> store == old(store)
      ensures detected != [] || defined != [] ==>
        FirstPerKey(naming.truncate, InstancesOf(build(merged)), seen) &&
          ExactlyActive(old(store), ActiveNames(seen), store)
    {
      hide LastByName, FirstPerKey, ExactlyActive, ActiveNames;
      seen := map[];
      var groupings := MergeGroupings(detected, defined);
      merged := groupings;
      if |groupings| > 0 { seen := SyncGroupingDeviceClasses(naming, build(groupings)); }
    }

    method CleanupStaleDeviceClasses(active: set<string>)
      modifies this
      ensures store == Collected(old(store), active)
    {
      ghost var initial := store;
      var todo := store.Keys;
      while todo != {}
        invariant todo <= initial.Keys
        invariant store == map n | n in initial && (n in todo || !Stale(initial[n], active)) :: initial[n]
        decreases |todo|
      {
        var n :| n in todo;
        todo := todo - {n};
        if store[n].PartitionLabels? {
          var key := KeyFromLabels(store[n]);
          if key !in active { store := store - {n}; }
        }
      }
    }
  }

  /** `after` is `before` with grouping classes under the given names. */
  ghost predicate Overlaid(before: Store, names: set<string>, after: Store) {
    && (forall n :: n in names ==> n in after && after[n].GroupingLabels?)
    && (forall n :: n !in names ==> (n in after <==> n in before) && (n in after ==> after[n] == before[n]))
  }

  lemma NothingOverlaid(store: Store)
    ensures Overlaid(store, {}, store)
  {
  }

  lemma OverlaidPut(before: Store, names: set<string>, after: Store, name: string, labels: Labels)
    requires Overlaid(before, names, after) && labels.GroupingLabels?
    ensures Overlaid(before, names + {name}, after[name := labels])
  {
  }

  ghost predicate OfSomeEntry(naming: Naming, seen: Seen, rails: map<string, nat>, n: string, labels: Labels) {
    exists k :: k in seen && EntryName(naming, k, seen[k], rails) == n && EntryLabels(naming, seen[k]) == labels
  }

  ghost predicate OfSomeAggregate(naming: Naming, states: map<AggregateKey, AggregateState>, n: string,
                                  labels: Labels) {
    exists ak :: ak in states && TypeName(ak.partType) == n && AggregateLabels(naming, ak) == labels
  }

  ghost predicate OfSomeTier(naming: Naming, tiers: map<AggregateKey, string>, n: string, labels: Labels) {
    exists ak :: ak in tiers && tiers[ak] == n && TierLabels(naming, ak, n) == labels
  }

  function TierNames(tiers: map<AggregateKey, string>, keys: set<AggregateKey>): set<string> {
    set ak | ak in keys && ak in tiers :: tiers[ak]
  }

  lemma NoAggregates(naming: Naming, states: map<AggregateKey, AggregateState>)
    ensures Keyed(map[], AggregateKeys(naming, states)) && AggregateNames({}) == {}
  {
  }

  lemma NoTiers(naming: Naming, tiers: map<AggregateKey, string>)
    ensures Keyed(map[], TierKeys(naming, tiers)) && TierNames(tiers, {}) == {}
    ensures TierNames(tiers, tiers.Keys) == tiers.Values
  {
  }

  lemma AggregateAdd(naming: Naming, states: map<AggregateKey, AggregateState>, published: Store,
                     done: set<AggregateKey>, ak: AggregateKey)
    requires ak in states && Keyed(published, AggregateKeys(naming, states))
    ensures Keyed(published[TypeName(ak.partType) := AggregateLabels(naming, ak)], AggregateKeys(naming, states))
    ensures AggregateNames(done + {ak}) == AggregateNames(done) + {TypeName(ak.partType)}
    ensures OfSomeAggregate(naming, states, TypeName(ak.partType), AggregateLabels(naming, ak))
  {
    hide TypeName, KeyFromLabels;
    AggregateKeyed(naming, ak);
  }

  lemma TierAdd(naming: Naming, tiers: map<AggregateKey, string>, published: Store, done: set<AggregateKey>,
                ak: AggregateKey)
    requires ak in tiers && tiers[ak] != "" && Keyed(published, TierKeys(naming, tiers))
    ensures Keyed(published[tiers[ak] := TierLabels(naming, ak, tiers[ak])], TierKeys(naming, tiers))
    ensures TierNames(tiers, done + {ak}) == TierNames(tiers, done) + {tiers[ak]}
    ensures OfSomeTier(naming, tiers, tiers[ak], TierLabels(naming, ak, tiers[ak]))
  {
    hide TypeName;
  }

  lemma PlannedOne(naming: Naming, plan: Plan, n: string, labels: Labels)
    requires || OfSomeEntry(naming, plan.seen, plan.rails, n, labels) || OfSomeAggregate(naming, plan.states, n, labels)
             || OfSomeTier(naming, plan.tiers, n, labels)
    ensures Planned(naming, plan, n, labels)
  {
    hide EntryName, EntryLabels;
    if OfSomeEntry(naming, plan.seen, plan.rails, n, labels) {
      var k :| k in plan.seen && EntryName(naming, k, plan.seen[k], plan.rails) == n &&
        EntryLabels(naming, plan.seen[k]) == labels;
      assert OfEntry(k) in Publishers(plan);
    } else if OfSomeAggregate(naming, plan.states, n, labels) {
      var ak :| ak in plan.states && TypeName(ak.partType) == n && AggregateLabels(naming, ak) == labels;
      assert OfAggregate(ak) in Publishers(plan);
    } else {
      var ak :| ak in plan.tiers && plan.tiers[ak] == n && TierLabels(naming, ak, n) == labels;
      assert OfTier(ak) in Publishers(plan);
    }
  }

  lemma PlannedThrice(naming: Naming, plan: Plan, p1: Store, p2: Store, p3: Store)
    requires forall n :: n in p1 ==> OfSomeEntry(naming, plan.seen, plan.rails, n, p1[n])
    requires forall n :: n in p2 ==> OfSomeAggregate(naming, plan.states, n, p2[n])
    requires forall n :: n in p3 ==> OfSomeTier(naming, plan.tiers, n, p3[n])
    ensures AllPlanned(naming, plan, p1 + p2 + p3)
  {
    hide OfSomeEntry, OfSomeAggregate, OfSomeTier, Planned;
    var all := p1 + p2 + p3;
    forall n | n in all ensures Planned(naming, plan, n, all[n]) { PlannedOne(naming, plan, n, all[n]); }
  }

  lemma NothingPublished(naming: Naming, seen: Seen, rails: map<string, nat>)
    ensures Keyed(map[], seen.Keys) && EntryNames(naming, seen, {}, rails) == {}
  {
  }

  lemma EntryNamesAdd(naming: Naming, seen: Seen, keys: set<string>, k: string, rails: map<string, nat>)
    requires k in seen
    ensures EntryNames(naming, seen, keys + {k}, rails) ==
      EntryNames(naming, seen, keys, rails) + {EntryName(naming, k, seen[k], rails)}
  {
    hide EntryName;
  }

  lemma KeyedAdd(published: Store, active: set<string>, name: string, labels: Labels)
    requires Keyed(published, active) && labels.PartitionLabels? && KeyFromLabels(labels) in active
    ensures Keyed(published[name := labels], active)
  {
  }

  lemma UnionPut(initial: Store, published: Store, name: string, labels: Labels)
    ensures (initial + published)[name := labels] == initial + published[name := labels]
    ensures published[name := labels].Keys == published.Keys + {name}
  {
  }

  lemma TiersNonEmpty(states: map<AggregateKey, AggregateState>, rootCount: nat, tiers: map<AggregateKey, string>)
    requires TiersFor(states, rootCount, tiers)
    ensures forall ak :: ak in tiers ==> tiers[ak] != ""
  {
  }

  lemma SumPositive(seen: Seen, members: set<string>)
    requires members <= seen.Keys && members != {} && forall k :: k in seen ==> seen[k].count >= 1
    ensures SumSet(members, CountOf(seen)) >= 1
    decreases |members|
  {
    var k :| k in members;
    SumSetRemove(members, CountOf(seen), k);
    if members - {k} != {} { SumPositive(seen, members - {k}); }
  }

  lemma SeenKeys(naming: Naming, rules: seq<TopologyRule>, items: seq<Item>, seen: Seen)
    requires SeenFor(naming, rules, items, seen)
    ensures seen.Keys == KeySet(items, ItemKey(naming, rules)) && forall k :: k in seen ==> seen[k].count >= 1
  {
  }

  lemma CountsPositive(naming: Naming, rules: seq<TopologyRule>, items: seq<Item>, seen: Seen,
                       states: map<AggregateKey, AggregateState>)
    requires SeenFor(naming, rules, items, seen) && StatesFor(seen, seen.Keys, states)
    ensures forall ak :: ak in states ==> states[ak].count >= 1
  {
    hide SeenFor;
    SeenKeys(naming, rules, items, seen);
    forall ak | ak in states ensures states[ak].count >= 1 {
      assert StateOk(seen, Members(seen, seen.Keys, ak), states, ak);
      SumPositive(seen, Members(seen, seen.Keys, ak));
    }
  }

  lemma KeyedSurvive(initial: Store, published: Store, active: set<string>)
    requires Keyed(published, active)
    ensures forall n :: n in published ==>
      n in Collected(initial + published, active) && Collected(initial + published, active)[n] == published[n]
  {
  }

  function RootEntries(seen: Seen): set<string> {
    set k | k in seen && seen[k].partType.PcieRootPartition?
  }

  lemma UnionAssociates(a: Store, p1: Store, p2: Store, p3: Store)
    ensures a + p1 + p2 + p3 == a + (p1 + p2 + p3)
  {
  }

  lemma KeyedThrice(p1: Store, p2: Store, p3: Store, a1: set<string>, a2: set<string>, a3: set<string>)
    requires Keyed(p1, a1) && Keyed(p2, a2) && Keyed(p3, a3)
    ensures Keyed(p1 + p2 + p3, a1 + a2 + a3)
  {
    KeyedUnion(p1, p2, a1, a2, a1 + a2);
    KeyedUnion(p1 + p2, p3, a1 + a2, a3, a1 + a2 + a3);
  }

  lemma CollectedActive(store: Store, active: set<string>)
    ensures forall n :: n in Collected(store, active) && Collected(store, active)[n].PartitionLabels? ==>
      KeyFromLabels(Collected(store, active)[n]) in active
  {
  }

  lemma KeyedUnion(a: Store, b: Store, active: set<string>, active': set<string>, all: set<string>)
    requires Keyed(a, active) && Keyed(b, active') && active <= all && active' <= all
    ensures Keyed(a + b, all)
  {
  }

  lemma AggregateKeyed(naming: Naming, ak: AggregateKey)
    ensures KeyFromLabels(AggregateLabels(naming, ak)) == AggregateLabelKey(naming, ak)
  {
    var s := naming.truncate(ak.profile) + "-" + TypeName(ak.partType);
    assert s + DashIf("") + DashIf("") == s;
  }
}
