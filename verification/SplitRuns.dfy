/** The whole splitting loop: the devices that the final groups lose are exactly those of overwritten pieces,
    in whichever round the overwriting happens. */
module SplitRuns {
  import opened Collections
  import opened Topology
  import opened Refinement

  /** The group maps before the first rule, between the rules and after the last one. */
  ghost predicate IsChain(rules: seq<TopologyRule>, chain: seq<Groups>) {
    && |chain| == |rules| + 1
    && forall i {:trigger rules[i]} :: 0 <= i < |rules| ==> SplitsTo(chain[i], rules[i].attribute, chain[i + 1])
  }

  /** No round gives two pieces one key. */
  ghost predicate NeverCollides(rules: seq<TopologyRule>, chain: seq<Groups>)
    requires |chain| == |rules| + 1
  {
    forall i {:trigger rules[i]} :: 0 <= i < |rules| ==> CollisionFree(chain[i], rules[i].attribute)
  }

  /** Every outcome of the loop is the end of such a chain. */
  lemma {:induction false} ChainOf(groups: Groups, rules: seq<TopologyRule>, final: Groups) returns (chain: seq<Groups>)
    requires SplitsAll(groups, rules, final)
    ensures IsChain(rules, chain) && chain[0] == groups && chain[|rules|] == final
  {
    hide SplitsTo;
    if rules == [] {
      chain := [groups];
    } else {
      var n := |rules| - 1;
      var mid :| SplitsAll(groups, rules[..n], mid) && SplitsTo(mid, rules[n].attribute, final);
      var before := ChainOf(groups, rules[..n], mid);
      chain := before + [final];
      forall i | 0 <= i < |rules| ensures SplitsTo(chain[i], rules[i].attribute, chain[i + 1]) {
        if i < n { assert rules[..n][i] == rules[i]; }
      }
    }
  }

  /** A device that sits somewhere after a round sat somewhere before it. */
  lemma NothingReturns(groups: Groups, attribute: AttributeName, split: Groups, d: TopologyDevice, k: string)
    requires SplitsTo(groups, attribute, split) && Sits(split, d, k)
    ensures exists j :: Sits(groups, d, j)
  {
    var p :| Yields(groups, attribute, p, k, split[k]);
    if p.Part? { FilterMembers(groups[p.key], KeyIs(ValueKey(attribute), p.value)); }
    assert Sits(groups, d, p.key);
  }

  lemma LostStaysLost(groups: Groups, attribute: AttributeName, split: Groups, devices: seq<TopologyDevice>)
    requires SplitsTo(groups, attribute, split) && Covers(split, devices)
    ensures Covers(groups, devices)
  {
    hide SplitsTo;
    forall d | d in devices ensures exists j :: Sits(groups, d, j) {
      var k :| Sits(split, d, k);
      NothingReturns(groups, attribute, split, d, k);
    }
  }

  /** The final groups hold every device if and only if no round of the run gave two pieces one key; then they
      are an exact cover. */
  lemma {:induction false} RunKeepsAllIff(devices: seq<TopologyDevice>, rules: seq<TopologyRule>, chain: seq<Groups>)
    requires IsChain(rules, chain) && IsPartition(chain[0], devices)
    ensures Covers(chain[|rules|], devices) <==> NeverCollides(rules, chain)
    ensures NeverCollides(rules, chain) ==> IsPartition(chain[|rules|], devices)
  {
    hide SplitsTo, CollisionFree, IsPartition, Covers;
    assert Covers(chain[0], devices) by { PartitionCovers(chain[0], devices); }
    if rules != [] {
      var n := |rules| - 1;
      var init, before := rules[..n], chain[..n + 1];
      assert forall i :: 0 <= i < n ==> init[i] == rules[i];
      assert IsChain(init, before);
      RunKeepsAllIff(devices, init, before);
      assert NeverCollides(rules, chain) <==>
        NeverCollides(init, before) && CollisionFree(chain[n], rules[n].attribute) by { LastCollision(rules, chain); }
      assert SplitsTo(chain[n], rules[n].attribute, chain[n + 1]);
      if NeverCollides(init, before) {
        RoundKeepsAllIff(chain[n], devices, rules[n].attribute, chain[n + 1]);
        if CollisionFree(chain[n], rules[n].attribute) {
          RoundPartition(chain[n], devices, rules[n].attribute, chain[n + 1]);
        }
      } else if Covers(chain[n + 1], devices) {
        LostStaysLost(chain[n], rules[n].attribute, chain[n + 1], devices);
      }
    }
  }

  lemma PartitionCovers(groups: Groups, devices: seq<TopologyDevice>)
    requires IsPartition(groups, devices)
    ensures Covers(groups, devices)
  {
  }

  lemma LastCollision(rules: seq<TopologyRule>, chain: seq<Groups>)
    requires |chain| == |rules| + 1 && rules != []
    ensures var n := |rules| - 1;
      NeverCollides(rules, chain) <==>
        NeverCollides(rules[..n], chain[..n + 1]) && CollisionFree(chain[n], rules[n].attribute)
  {
    hide CollisionFree;
    var n := |rules| - 1;
    var init, before := rules[..n], chain[..n + 1];
    assert forall i :: 0 <= i < n ==> init[i] == rules[i] && before[i] == chain[i];
    if NeverCollides(init, before) && CollisionFree(chain[n], rules[n].attribute) {
      forall i | 0 <= i < |rules| ensures CollisionFree(chain[i], rules[i].attribute) {
        if i < n { assert CollisionFree(before[i], init[i].attribute); }
      }
    }
    if NeverCollides(rules, chain) {
      forall i | 0 <= i < n ensures CollisionFree(before[i], init[i].attribute) {
        assert CollisionFree(chain[i], rules[i].attribute);
      }
      assert CollisionFree(chain[n], rules[n].attribute);
    }
  }

  // ---------------------------------------------------------------------
  // The map order does not decide whether devices are lost
  // ---------------------------------------------------------------------

  lemma EntryAgrees(groups: Groups, attribute: AttributeName, split: Groups, split': Groups, k: string)
    requires SplitsTo(groups, attribute, split) && SplitsTo(groups, attribute, split')
    requires CollisionFree(groups, attribute)
    requires k in split
    ensures k in split' && split'[k] == split[k]
  {
    hide CollisionFree, IsPiece;
    var p :| Yields(groups, attribute, p, k, split[k]);
    EntryOf(groups, attribute, split', p);
  }

  /** Without collisions a round has one outcome. */
  lemma RoundUnique(groups: Groups, attribute: AttributeName, split: Groups, split': Groups)
    requires SplitsTo(groups, attribute, split) && SplitsTo(groups, attribute, split')
    requires CollisionFree(groups, attribute)
    ensures split == split'
  {
    hide CollisionFree, SplitsTo;
    forall k | k in split ensures k in split' &&
      split'[k] == split[k] { EntryAgrees(groups, attribute, split, split', k); }
    forall k | k in split' ensures k in split { EntryAgrees(groups, attribute, split', split, k); }
  }

  lemma {:induction false} ChainUnique(rules: seq<TopologyRule>, chain: seq<Groups>, chain': seq<Groups>)
    requires IsChain(rules, chain) && IsChain(rules, chain') && chain[0] == chain'[0] && NeverCollides(rules, chain)
    ensures chain == chain'
  {
    hide SplitsTo, CollisionFree;
    if rules != [] {
      var n := |rules| - 1;
      var init := rules[..n];
      assert forall i :: 0 <= i < n ==> init[i] == rules[i];
      LastCollision(rules, chain);
      ChainUnique(init, chain[..n + 1], chain'[..n + 1]);
      assert chain[n] == chain[..n + 1][n] == chain'[..n + 1][n] == chain'[n];
      assert SplitsTo(chain[n], rules[n].attribute, chain[n + 1]) &&
        SplitsTo(chain'[n], rules[n].attribute, chain'[n + 1]);
      RoundUnique(chain[n], rules[n].attribute, chain[n + 1], chain'[n + 1]);
      assert chain == chain[..n + 1] + [chain[n + 1]] && chain' == chain'[..n + 1] + [chain'[n + 1]];
    }
  }

  /** Whether devices are lost does not depend on the order in which groups are visited: either every outcome of
      the loop covers the devices, and then there is only one, or none does. */
  lemma LossIsDecided(groups: Groups, devices: seq<TopologyDevice>, rules: seq<TopologyRule>, final: Groups,
                      final': Groups)
    requires IsPartition(groups, devices) && SplitsAll(groups, rules, final) && SplitsAll(groups, rules, final')
    ensures Covers(final, devices) <==> Covers(final', devices)
    ensures Covers(final, devices) ==> final == final'
  {
    hide IsPartition, SplitsAll, Covers, SplitsTo, CollisionFree;
    var chain := ChainOf(groups, rules, final);
    var chain' := ChainOf(groups, rules, final');
    RunKeepsAllIff(devices, rules, chain);
    RunKeepsAllIff(devices, rules, chain');
    if NeverCollides(rules, chain) {
      ChainUnique(rules, chain, chain');
    } else if NeverCollides(rules, chain') {
      ChainUnique(rules, chain', chain);
    }
  }

  // ---------------------------------------------------------------------
  // What is left after a loss
  // ---------------------------------------------------------------------

  /** Disjoint, non-empty parts of the list; devices may be missing. */
  ghost predicate PartsOf(groups: Groups, devices: seq<TopologyDevice>) {
    && (forall k, k', d :: Sits(groups, d, k) && Sits(groups, d, k') ==> k == k')
    && (forall k :: k in groups ==> groups[k] != [] && groups[k] == Filter(devices, In(groups[k])))
  }

  lemma PieceIsPart(groups: Groups, devices: seq<TopologyDevice>, x: AttributeName, p: Piece)
    requires PartsOf(groups, devices) && IsPiece(groups, x, p)
    ensures var part := p.Devices(groups, x); part != [] && part == Filter(devices, In(part))
  {
    var whole, part := groups[p.key], p.Devices(groups, x);
    PieceMembers(groups, x, p);
    if p.Part? {
      var pick := KeyIs(ValueKey(x), p.value);
      FilterMembers(whole, pick);
      FilterTwice(devices, In(whole), pick, In(part));
    }
  }

  /** Even a round that overwrites pieces leaves disjoint parts. */
  lemma RoundParts(groups: Groups, devices: seq<TopologyDevice>, x: AttributeName, split: Groups)
    requires PartsOf(groups, devices) && SplitsTo(groups, x, split)
    ensures PartsOf(split, devices)
  {
    forall k, k', d | Sits(split, d, k) && Sits(split, d, k') ensures k == k' {
      var p :| Yields(groups, x, p, k, split[k]);
      var q :| Yields(groups, x, q, k', split[k']);
      PieceMembers(groups, x, p);
      PieceMembers(groups, x, q);
    }
    forall k | k in split ensures split[k] != [] && split[k] == Filter(devices, In(split[k])) {
      var p :| Yields(groups, x, p, k, split[k]);
      PieceIsPart(groups, devices, x, p);
    }
  }

  lemma {:induction false} RunParts(groups: Groups, devices: seq<TopologyDevice>, rules: seq<TopologyRule>,
                                    final: Groups)
    requires PartsOf(groups, devices) && SplitsAll(groups, rules, final)
    ensures PartsOf(final, devices)
  {
    hide PartsOf, SplitsTo;
    if rules != [] {
      var init, last := rules[..|rules| - 1], rules[|rules| - 1];
      var mid :| SplitsAll(groups, init, mid) && SplitsTo(mid, last.attribute, final);
      RunParts(groups, devices, init, mid);
      RoundParts(mid, devices, last.attribute, final);
    }
  }

  lemma PartitionParts(groups: Groups, devices: seq<TopologyDevice>)
    requires IsPartition(groups, devices)
    ensures PartsOf(groups, devices)
  {
  }
}
