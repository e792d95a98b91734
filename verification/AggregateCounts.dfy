/** An aggregate stands for every partition of its type, however the partitions share keys. */
module AggregateCounts {
  import opened Collections
  import opened Text
  import opened Topology
  import opened PartitionBuilder
  import opened PartitionConfigs
  import opened Aggregates
  import opened ClassKeys
  import opened Tiers
  import opened ClusterPartitions
  import opened DeviceClasses

  function TypeIs(t: PartitionType): Item -> bool {
    (item: Item) => item.partition.partType == t
  }

  function TimesSeen(items: seq<Item>, key: Item -> string): string -> int {
    k => |Filter(items, KeyIs(key, k))|
  }

  function KeyIn(key: Item -> string, s: set<string>): Item -> bool {
    (item: Item) => key(item) in s
  }

  /** Items whose key is in a set, counted key by key. */
  lemma {:induction false} CountByKey(items: seq<Item>, key: Item -> string, s: set<string>)
    ensures |Filter(items, KeyIn(key, s))| == SumSet(s, TimesSeen(items, key))
    decreases |s|
  {
    hide Filter;
    if s == {} {
      FilterNone(items, KeyIn(key, s));
    } else {
      var k :| k in s;
      CountByKey(items, key, s - {k});
      SumSetRemove(s, TimesSeen(items, key), k);
      FilterEither(items, KeyIn(key, s - {k}), KeyIs(key, k), KeyIn(key, s));
    }
  }

  /** Within one profile the key tells the type: the first letters of the type names differ. */
  lemma KeyTellsType(naming: Naming, rules: seq<TopologyRule>, a: Item, b: Item)
    requires a.profile == b.profile && KeyOf(naming, rules, a) == KeyOf(naming, rules, b)
    ensures a.partition.partType == b.partition.partType
  {
    hide Suffix, CouplingOf, CouplingName;
    var p := naming.truncate(a.profile);
    assert KeyOf(naming, rules, a)[|p| + 1] == TypeName(a.partition.partType)[0];
    assert KeyOf(naming, rules, b)[|p| + 1] == TypeName(b.partition.partType)[0];
    assert TypeName(PcieRootPartition)[0] == 'p' && TypeName(NumaPartition)[0] == 'n' &&
      TypeName(FullPartition)[0] == 'f';
  }

  lemma EntryType(naming: Naming, rules: seq<TopologyRule>, items: seq<Item>, seen: Seen, item: Item)
    requires SeenFor(naming, rules, items, seen) && item in items
    requires forall x :: x in items ==> x.profile == item.profile
    ensures var k := KeyOf(naming, rules, item);
      k in seen && seen[k].partType == item.partition.partType && seen[k].profile == item.profile
  {
    hide KeyOf, Filter;
    var key, k := ItemKey(naming, rules), KeyOf(naming, rules, item);
    assert key(item) in KeySet(items, key);
    assert EntryFor(naming, rules, items, k, seen[k]);
    FilterMembers(items, KeyIs(key, k));
    var first := Filter(items, KeyIs(key, k))[0];
    assert first in Filter(items, KeyIs(key, k));
    KeyTellsType(naming, rules, first, item);
  }

  lemma MembersAreOfType(naming: Naming, rules: seq<TopologyRule>, items: seq<Item>, seen: Seen, profile: string,
                         t: PartitionType)
    requires SeenFor(naming, rules, items, seen) && (forall x :: x in items ==> x.profile == profile)
    requires !t.FullPartition?
    ensures forall item :: item in items ==>
      (TypeIs(t)(item) <==> ItemKey(naming, rules)(item) in Members(seen, seen.Keys, AggregateKey(profile, t)))
  {
    hide KeyOf, SeenFor;
    forall item | item in items
      ensures TypeIs(t)(item) <==> ItemKey(naming, rules)(item) in Members(seen, seen.Keys, AggregateKey(profile, t))
    {
      EntryType(naming, rules, items, seen, item);
    }
  }

  /** With one profile in the cluster, the count of an aggregate is the number of partitions of its type. */
  lemma AggregateCountsPartitions(naming: Naming, rules: seq<TopologyRule>, items: seq<Item>, seen: Seen,
                                  states: map<AggregateKey, AggregateState>, profile: string, t: PartitionType)
    requires SeenFor(naming, rules, items, seen) && StatesFor(seen, seen.Keys, states)
    requires (forall x :: x in items ==> x.profile == profile) && AggregateKey(profile, t) in states
    ensures states[AggregateKey(profile, t)].count == |Filter(items, TypeIs(t))|
  {
    hide KeyOf, Filter;
    var ak, key := AggregateKey(profile, t), ItemKey(naming, rules);
    var members := Members(seen, seen.Keys, ak);
    assert StateOk(seen, members, states, ak);
    var k0 :| k0 in members;
    MembersAreOfType(naming, rules, items, seen, profile, t);
    FilterSame(items, TypeIs(t), KeyIn(key, members));
    CountByKey(items, key, members);
    forall k | k in members ensures CountOf(seen)(k) == TimesSeen(items, key)(k) {
      assert EntryFor(naming, rules, items, k, seen[k]);
    }
    SumSetSame(members, CountOf(seen), TimesSeen(items, key));
  }
}
