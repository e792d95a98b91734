/** The partitions of all nodes. */
module ClusterPartitions {
  import opened Collections
  import opened Topology
  import opened TopologyIndex
  import opened PartitionBuilder
  import opened Satisfiability

  datatype PartitionResult = PartitionResult(node: string, profile: string, partitions: seq<Partition>)

  datatype Item = Item(profile: string, partition: Partition)

  function ItemsOf(results: seq<PartitionResult>): seq<Item> {
    if results == [] then [] else
      ItemsOf(results[..|results| - 1]) + ItemsIn(results[|results| - 1])
  }

  function ItemsIn(result: PartitionResult): seq<Item> {
    seq(|result.partitions|, i requires 0 <= i < |result.partitions| => Item(result.profile, result.partitions[i]))
  }

  predicate HasDevices(table: SliceTable) {
    exists s :: s in table && table[s] != []
  }

  ghost predicate BuiltFrom(table: SliceTable, rules: seq<TopologyRule>, r: PartitionResult) {
    exists all :: Enumerates(table, all) && NodePartitions(r.node, all, rules, r.profile, r.partitions)
  }

  predicate Covers(results: seq<PartitionResult>, n: string) {
    exists i :: 0 <= i < |results| && results[i].node == n
  }

  /** One result for every given node that has devices, and no other. */
  ghost predicate Builds(nodes: Nodes, names: set<string>, rules: seq<TopologyRule>, results: seq<PartitionResult>) {
    && (forall i :: 0 <= i < |results| ==>
      results[i].node in nodes && BuiltFrom(nodes[results[i].node], rules, results[i]))
    && (forall i, j :: 0 <= i < j < |results| ==> results[i].node != results[j].node)
    && (forall n :: Covers(results, n) <==> n in names && n in nodes && HasDevices(nodes[n]))
  }

  lemma {:induction false} ConcatEmpty(table: SliceTable, order: seq<string>)
    requires forall s :: s in order ==> s in table
    ensures Concat(table, order) == [] <==> forall s :: s in order ==> table[s] == []
  {
    if order != [] {
      var init, last := order[..|order| - 1], order[|order| - 1];
      assert order == init + [last];
      ConcatEmpty(table, init);
    }
  }

  lemma SomeDevices(table: SliceTable, all: seq<TopologyDevice>)
    requires Enumerates(table, all)
    ensures all != [] <==> HasDevices(table)
  {
    var order :| ListsSet(order, table.Keys) && all == Concat(table, order);
    ConcatEmpty(table, order);
  }

  lemma BuildsSkip(nodes: Nodes, names: set<string>, rules: seq<TopologyRule>, results: seq<PartitionResult>, n: string)
    requires Builds(nodes, names, rules, results) && n in nodes && !HasDevices(nodes[n])
    ensures Builds(nodes, names + {n}, rules, results)
  {
    hide BuiltFrom, HasDevices;
  }

  lemma BuildsAdd(nodes: Nodes, names: set<string>, rules: seq<TopologyRule>, results: seq<PartitionResult>,
                  r: PartitionResult)
    requires Builds(nodes, names, rules, results) && r.node !in names && r.node in nodes
    requires HasDevices(nodes[r.node]) && BuiltFrom(nodes[r.node], rules, r)
    ensures Builds(nodes, names + {r.node}, rules, results + [r])
  {
    hide BuiltFrom, HasDevices;
    var all := results + [r];
    assert all[|results|] == r;
    forall n ensures Covers(all, n) <==> n == r.node || Covers(results, n) {
      if Covers(results, n) {
        var i :| 0 <= i < |results| && results[i].node == n;
        assert all[i].node == n;
      }
    }
  }

  method BuildPartitions(nodes: Nodes, groupingRules: seq<TopologyRule>) returns (results: seq<PartitionResult>)
    ensures Builds(nodes, nodes.Keys, groupingRules, results)
  {
    hide NodePartitions, HasDevices, Enumerates, Builds;
    results := [];
    var todo := nodes.Keys;
    ghost var done: set<string> := {};
    NothingBuilt(nodes, groupingRules);
    while todo != {}
      invariant todo <= nodes.Keys && done + todo == nodes.Keys && done !! todo
      invariant Builds(nodes, done, groupingRules, results)
      decreases |todo|
    {
      var n :| n in todo;
      todo := todo - {n};
      var all := AllDevices(nodes[n]);
      SomeDevices(nodes[n], all);
      var profile, ps := BuildNodePartitions(n, all, groupingRules);
      var r := PartitionResult(n, profile, ps);
      if |ps| > 0 {
        BuildsAdd(nodes, done, groupingRules, results, r);
        results := results + [r];
      } else {
        if all != [] { PartitionsExist(n, all, groupingRules, profile, ps); }
        BuildsSkip(nodes, done, groupingRules, results, n);
      }
      done := done + {n};
    }
    assert done == nodes.Keys;
  }

  lemma NothingBuilt(nodes: Nodes, rules: seq<TopologyRule>)
    ensures Builds(nodes, {}, rules, [])
  {
  }

  /** A node with devices has at least its full partition. */
  lemma PartitionsExist(node: string, all: seq<TopologyDevice>, rules: seq<TopologyRule>, profile: string,
                        ps: seq<Partition>)
    requires NodePartitions(node, all, rules, profile, ps)
    ensures ps != []
  {
    hide PartitionFrom;
  }
}
