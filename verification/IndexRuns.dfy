/** Runs of the topology index in which slices may move between nodes: the entries that are left behind are a
    function of the events alone, and the index agrees with its sources exactly when none is left. */
module IndexRuns {
  import opened Collections
  import opened Topology
  import opened TopologyIndex

  type Place = (string, string)

  /** Where the event's slice was stored, if that is another node. */
  function MovedFrom(raws: RawSlices, slice: Slice): set<Place> {
    if slice.name in raws && raws[slice.name].node != slice.node then {(raws[slice.name].node, slice.name)} else {}
  }

  /** One event: a move leaves an entry behind, an event for the node removes or replaces one, a rebuild drops all. */
  function BehindAfter(raws: RawSlices, behind: set<Place>, e: Event): set<Place> {
    match e
    case Update(slice) =>
      if slice.node == "" then behind else behind + MovedFrom(raws, slice) - {(slice.node, slice.name)}
    case Remove(slice) =>
      if slice.node == "" then behind else behind + MovedFrom(raws, slice) - {(slice.node, slice.name)}
    case SetRules(_) => {}
  }

  /** The (node, slice) entries that a run leaves behind. */
  function Behind(events: seq<Event>): set<Place> {
    if events == [] then {} else
      var init := events[..|events| - 1];
      BehindAfter(Live(init), Behind(init), events[|events| - 1])
  }

  /** The cache has an entry at a place exactly when a slice is stored there, and then the entry is extracted from
      it under the rules, or when an entry was left behind there. */
  ghost predicate PlaceOk(s: State, behind: set<Place>, n: string, k: string) {
    && (Holds(s.nodes, n, k) <==> StoredOn(s.raws, n, k) || (n, k) in behind)
    && ((n, k) in behind ==> !StoredOn(s.raws, n, k))
    && (StoredOn(s.raws, n, k) && Holds(s.nodes, n, k) ==> DevicesFrom(s.raws[k], s.rules, s.nodes[n][k]))
  }

  ghost predicate HoldsBehind(s: State, behind: set<Place>) {
    && (forall n, k :: PlaceOk(s, behind, n, k))
    && (forall n :: n in s.nodes ==> s.nodes[n] != map[])
  }

  lemma HoldsAfterPut(nodes: Nodes, n0: string, k0: string, tds: seq<TopologyDevice>, n: string, k: string)
    ensures Holds(PutSlice(nodes, n0, k0, tds), n, k) <==> Holds(nodes, n, k) || (n, k) == (n0, k0)
    ensures Holds(nodes, n, k) && (n, k) != (n0, k0) ==> PutSlice(nodes, n0, k0, tds)[n][k] == nodes[n][k]
    ensures PutSlice(nodes, n0, k0, tds)[n0][k0] == tds
  {
  }

  lemma HoldsAfterDrop(nodes: Nodes, n0: string, k0: string, n: string, k: string)
    requires forall m :: m in nodes ==> nodes[m] != map[]
    ensures Holds(DropSlice(nodes, n0, k0), n, k) <==> Holds(nodes, n, k) && (n, k) != (n0, k0)
    ensures Holds(nodes, n, k) && (n, k) != (n0, k0) ==> DropSlice(nodes, n0, k0)[n][k] == nodes[n][k]
    ensures n in DropSlice(nodes, n0, k0) ==> DropSlice(nodes, n0, k0)[n] != map[]
  {
    assert n0 in nodes ==> (k in nodes[n0] - {k0} <==> k in nodes[n0] && k != k0);
  }

  function Updated(s: State, slice: Slice, tds: seq<TopologyDevice>): State {
    State(PutSlice(s.nodes, slice.node, slice.name, tds), s.raws[slice.name := slice], s.rules)
  }

  function Removed(s: State, slice: Slice): State {
    State(DropSlice(s.nodes, slice.node, slice.name), s.raws - {slice.name}, s.rules)
  }

  lemma UpdatePlace(s: State, behind: set<Place>, slice: Slice, tds: seq<TopologyDevice>, n: string, k: string)
    requires PlaceOk(s, behind, n, k) && slice.node != "" && DevicesFrom(slice, s.rules, tds)
    ensures PlaceOk(Updated(s, slice, tds), BehindAfter(s.raws, behind, Update(slice)), n, k)
  {
    hide DevicesFrom, PutSlice;
    HoldsAfterPut(s.nodes, slice.node, slice.name, tds, n, k);
  }

  lemma UpdateBehind(s: State, behind: set<Place>, slice: Slice, tds: seq<TopologyDevice>)
    requires HoldsBehind(s, behind) && slice.node != "" && DevicesFrom(slice, s.rules, tds)
    ensures HoldsBehind(Updated(s, slice, tds), BehindAfter(s.raws, behind, Update(slice)))
  {
    hide DevicesFrom, PlaceOk, BehindAfter, PutSlice;
    forall n, k ensures PlaceOk(Updated(s, slice, tds), BehindAfter(s.raws, behind, Update(slice)), n, k) {
      UpdatePlace(s, behind, slice, tds, n, k);
    }
    NonEmptyAfterPut(s.nodes, slice.node, slice.name, tds);
  }

  lemma NonEmptyAfterPut(nodes: Nodes, n0: string, k0: string, tds: seq<TopologyDevice>)
    requires forall m :: m in nodes ==> nodes[m] != map[]
    ensures forall n :: n in PutSlice(nodes, n0, k0, tds) ==> PutSlice(nodes, n0, k0, tds)[n] != map[]
  {
    assert k0 in PutSlice(nodes, n0, k0, tds)[n0];
  }

  lemma RemovePlace(s: State, behind: set<Place>, slice: Slice, n: string, k: string)
    requires PlaceOk(s, behind, n, k) && slice.node != "" && forall m :: m in s.nodes ==> s.nodes[m] != map[]
    ensures PlaceOk(Removed(s, slice), BehindAfter(s.raws, behind, Remove(slice)), n, k)
  {
    hide DevicesFrom, DropSlice;
    HoldsAfterDrop(s.nodes, slice.node, slice.name, n, k);
  }

  lemma RemoveBehind(s: State, behind: set<Place>, slice: Slice)
    requires HoldsBehind(s, behind) && slice.node != ""
    ensures HoldsBehind(Removed(s, slice), BehindAfter(s.raws, behind, Remove(slice)))
  {
    hide PlaceOk, BehindAfter, DropSlice;
    forall n, k ensures PlaceOk(Removed(s, slice), BehindAfter(s.raws, behind, Remove(slice)), n, k) {
      RemovePlace(s, behind, slice, n, k);
    }
    forall n | n in Removed(s, slice).nodes ensures Removed(s, slice).nodes[n] != map[] {
      HoldsAfterDrop(s.nodes, slice.node, slice.name, n, "");
    }
  }

  /** One event keeps account of what is left behind. */
  lemma StepBehind(s: State, behind: set<Place>, e: Event, s': State)
    requires HoldsBehind(s, behind) && Steps(s, e, s')
    ensures HoldsBehind(s', BehindAfter(s.raws, behind, e))
  {
    hide DevicesFrom, PlaceOk;
    match e
    case Update(slice) =>
      if slice.node != "" {
        var tds :| DevicesFrom(slice, s.rules, tds) &&
          s' == State(PutSlice(s.nodes, slice.node, slice.name, tds), s.raws[slice.name := slice], s.rules);
        UpdateBehind(s, behind, slice, tds);
      }
    case Remove(slice) =>
      if slice.node != "" { RemoveBehind(s, behind, slice); }
    case SetRules(_) =>
      RebuildBehind(s');
  }

  lemma RebuildBehind(s: State)
    requires s.InSync()
    ensures HoldsBehind(s, {})
  {
    hide DevicesFrom;
    forall n, k ensures PlaceOk(s, {}, n, k) {
      assert Holds(s.nodes, n, k) <==> StoredOn(s.raws, n, k);
    }
  }

  lemma NoneBehind(s: State)
    requires HoldsBehind(s, {})
    ensures s.InSync()
  {
    hide DevicesFrom;
    forall n, k ensures Holds(s.nodes, n, k) <==> StoredOn(s.raws, n, k) { assert PlaceOk(s, {}, n, k); }
    forall n, k | Holds(s.nodes, n, k) ensures DevicesFrom(s.raws[k], s.rules, s.nodes[n][k]) {
      assert PlaceOk(s, {}, n, k);
    }
  }

  /** A run from the empty index; slices may move. */
  ghost predicate IsAnyRun(events: seq<Event>, states: seq<State>) {
    && |states| == |events| + 1
    && states[0] == State(map[], map[], [])
    && (forall i {:trigger events[i]} :: 0 <= i < |events| ==> Steps(states[i], events[i], states[i + 1]))
  }

  lemma {:induction false} RunBehind(events: seq<Event>, states: seq<State>)
    requires IsAnyRun(events, states)
    ensures var final := states[|events|];
      HoldsBehind(final, Behind(events)) && final.raws == Live(events) && final.rules == RulesAfter(events)
  {
    hide HoldsBehind, Steps;
    if events == [] {
      NothingBehind();
    } else {
      var n := |events| - 1;
      RunBehind(events[..n], states[..n + 1]);
      assert events[n] == events[|events| - 1];
      StepBehind(states[n], Behind(events[..n]), events[n], states[n + 1]);
      LiveStep(states[n], events[n], states[n + 1]);
    }
  }

  lemma LiveStep(s: State, e: Event, s': State)
    requires Steps(s, e, s')
    ensures s'.raws == match e
      case Update(slice) => (if slice.node == "" then s.raws else s.raws[slice.name := slice])
      case Remove(slice) => (if slice.node == "" then s.raws else s.raws - {slice.name})
      case SetRules(_) => s.raws
    ensures s'.rules == if e.SetRules? then e.rules else s.rules
  {
  }

  lemma NothingBehind()
    ensures HoldsBehind(State(map[], map[], []), {})
  {
  }

  /** After any run, moves included, the index is a rebuild of its sources if and only if nothing is left behind. */
  lemma RunAgreesIff(events: seq<Event>, states: seq<State>)
    requires IsAnyRun(events, states)
    ensures states[|events|].InSync() <==> Behind(events) == {}
  {
    hide Steps, DevicesFrom;
    RunBehind(events, states);
    var final, behind := states[|events|], Behind(events);
    if behind != {} {
      var p :| p in behind;
      assert PlaceOk(final, behind, p.0, p.1) && (p.0, p.1) in behind;
      assert Holds(final.nodes, p.0, p.1) && !StoredOn(final.raws, p.0, p.1);
    } else {
      NoneBehind(final);
    }
  }
}
