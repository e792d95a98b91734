/** The start-up window: a slice that is added or updated after the first reconcile has read the index, and
    before `synced` is set, is handled without a reconcile.  A complete run ends at rest with a stale class. */
module ReconcileWindow {
  import opened Collections
  import opened Text
  import opened Topology
  import opened Extraction
  import opened TopologyRules
  import opened CounterGroups
  import opened NumaGroups
  import opened PartitionBuilder
  import opened Satisfiability
  import opened PartitionConfigs
  import opened Aggregates
  import opened ClassKeys
  import opened ClusterPartitions
  import opened DeviceClasses
  import opened Reconcile
  import Index = TopologyIndex

  // ---------------------------------------------------------------------
  // An update that is lost
  // ---------------------------------------------------------------------

  /** The index when the only slice is updated to hold no device. */
  function Emptied(s: State, slice: Index.Slice): State {
    s.(index := Index.State(Index.PutSlice(s.index.nodes, slice.node, slice.name, []),
      s.index.raws[slice.name := slice], s.index.rules))
  }

  /** Without devices nothing is active. */
  lemma NothingActive(naming: Naming, s: State, plan: Plan)
    requires PlanCurrent(naming, s, plan)
    requires forall n, sl :: n in s.index.nodes && sl in s.index.nodes[n] ==> s.index.nodes[n][sl] == []
    ensures ActiveKeys(naming, plan) == {}
  {
    hide IndexCurrent;
    var items, list :| ItemsCurrent(s, items) && MatchRules(s.rules, list) && PlanFor(naming, list, items, plan);
    NoItems(s, items);
    EmptyPlan(naming, list, plan);
  }

  lemma NoItems(s: State, items: seq<Item>)
    requires ItemsCurrent(s, items)
    requires forall n, sl :: n in s.index.nodes && sl in s.index.nodes[n] ==> s.index.nodes[n][sl] == []
    ensures items == []
  {
    hide BuiltFrom, Lists;
    var g, results: seq<PartitionResult> :| Lists(s.rules, IsGroupingRule, g) &&
      Builds(s.index.nodes, s.index.nodes.Keys, g, results) && items == ItemsOf(results);
    CoversFirst(results);
  }

  lemma CoversFirst(results: seq<PartitionResult>)
    ensures results != [] ==> Covers(results, results[0].node)
  {
  }

  lemma EmptyPlan(naming: Naming, rules: seq<TopologyRule>, plan: Plan)
    requires PlanFor(naming, rules, [], plan)
    ensures ActiveKeys(naming, plan) == {}
  {
    hide RailsFor, StateFor, KeyOf, StandsFor;
    assert plan.seen == map[];
    forall ak ensures ak !in plan.states {
      assert StateOk(plan.seen, Members(plan.seen, plan.seen.Keys, ak), plan.states, ak);
    }
    assert plan.tiers.Keys <= plan.states.Keys;
  }

  lemma EmptiedTables(s: State, slice: Index.Slice)
    requires s.index.InSync() && s.index.raws.Keys == {slice.name} && s.index.raws[slice.name].node == slice.node
    requires slice.devices == []
    ensures Index.DevicesFrom(slice, s.index.rules, [])
    ensures var nodes := Emptied(s, slice).index.nodes; forall m, sl :: m in nodes && sl in nodes[m] ==>
      nodes[m][sl] == []
  {
    var nodes, raws := Emptied(s, slice).index.nodes, Emptied(s, slice).index.raws;
    assert Index.DevicesFrom(slice, s.index.rules, []);
    Index.PutAgrees(s.index.nodes, s.index.raws, s.index.rules, slice, []);
    forall m, sl | m in nodes && sl in nodes[m] ensures nodes[m][sl] == [] {
      assert Index.Holds(nodes, m, sl);
      assert Index.StoredOn(raws, m, sl);
    }
  }

  lemma EmptiedNotClean(naming: Naming, s: State, n: string)
    requires forall m, sl :: m in s.index.nodes && sl in s.index.nodes[m] ==> s.index.nodes[m][sl] == []
    requires n in s.store && s.store[n].PartitionLabels?
    ensures !Clean(naming, s)
  {
    hide PlanCurrent, KeyFromLabels, Complete;
    forall plan | PlanCurrent(naming, s, plan) ensures !Swept(s.store, ActiveKeys(naming, plan), {}) {
      NothingActive(naming, s, plan);
      assert Stale(s.store[n], ActiveKeys(naming, plan));
    }
  }

  /** Inside the window the promise fails: take any quiescent state in it whose index holds one slice.  If
      that slice is updated to hold no device before `synced` is set, the controller comes to rest again
      without a reconcile, and any managed partition class is then stale. */
  lemma LostUpdate(naming: Naming, s: State, slice: Index.Slice, n: string)
    requires Quiescent(s) && s.phase.Enqueued? && s.index.InSync()
    requires slice.node != "" && slice.devices == [] && s.index.raws.Keys == {slice.name}
    requires s.index.raws[slice.name].node == slice.node
    requires n in s.store && s.store[n].PartitionLabels?
    ensures var s1 := Emptied(s, slice).(checking := 1);
      var s2 := s1.(checking := 0);
      var s3 := s2.(phase := Serving);
      && HandlerStep(s, SliceChange(slice), s1) && HandlerStep(s1, SliceCheck, s2) && StartupStep(s2, SetSynced, s3)
      && Quiescent(s3) && s3.store == s.store && !Clean(naming, s3)
  {
    hide Clean;
    var s3 := Emptied(s, slice).(phase := Serving);
    EmptiedTables(s, slice);
    EmptiedNotClean(naming, s3, n);
    assert s3 == Emptied(s, slice).(checking := 1).(checking := 0).(phase := Serving);
    ChangeSteps(s, slice);
  }

  lemma ChangeSteps(s: State, slice: Index.Slice)
    requires slice.node != "" && Index.DevicesFrom(slice, s.index.rules, [])
    ensures Index.Steps(s.index, Index.Update(slice), Emptied(s, slice).index)
  {
    hide Index.DevicesFrom;
  }

  // ---------------------------------------------------------------------
  // Reaching the window
  // ---------------------------------------------------------------------

  /** The end of a run from start-up. */
  ghost predicate Reachable(naming: Naming, s: State) {
    exists states, actions :: IsRun(naming, states, actions) && states[|actions|] == s
  }

  lemma ReachStart(naming: Naming, s: State)
    requires Initial(s)
    ensures Reachable(naming, s)
  {
    hide Next;
    var states, actions: seq<Action> := [s], [];
    assert IsRun(naming, states, actions);
  }

  lemma ReachStep(naming: Naming, s: State, a: Action, s': State)
    requires Reachable(naming, s) && Next(naming, s, a, s') && OutsideWindow(s, a)
    ensures Reachable(naming, s')
  {
    hide Next, OutsideWindow;
    var states, actions :| IsRun(naming, states, actions) && states[|actions|] == s;
    var states', actions' := states + [s'], actions + [a];
    forall i | 0 <= i < |actions'|
      ensures Next(naming, states'[i], actions'[i], states'[i + 1]) && OutsideWindow(states'[i], actions'[i])
    {
      if i < |actions| { assert actions'[i] == actions[i]; }
    }
    assert IsRun(naming, states', actions');
  }

  // One slice with one device that has no attributes.

  const SLICE := Index.Slice("s", "drv", "n", "p", [Index.RawDevice("d", map[], map[], [])])
  const DEVICE := TopologyDevice("drv", "d", "n", "p", None, [], None, [], None, map[], map[], [])
  const INDEX := Index.State(map["n" := map["s" := [DEVICE]]], map["s" := SLICE], [])

  lemma DeviceExtracted()
    ensures Index.DevicesFrom(SLICE, [], [DEVICE])
  {
    var d := SLICE.devices[0];
    var none: seq<AttributeName> := [];
    assert ListsSet(none, d.attributes.Keys);
    assert Extracts(Index.ContextOf(SLICE, []), d.attributes, BLANK);
    assert DEVICE == Index.Assemble(SLICE, d, BLANK);
  }

  lemma SliceIndexed()
    ensures Index.Steps(NOTHING, Index.Update(SLICE), INDEX)
    ensures Index.Steps(INDEX, Index.SetRules([]), INDEX) && INDEX.InSync()
  {
    hide Index.DevicesFrom;
    DeviceExtracted();
    Index.PutAgrees(map[], map[], [], SLICE, [DEVICE]);
    assert Index.PutSlice(map[], "n", "s", [DEVICE]) == INDEX.nodes;
    var none: Index.RawSlices := map[];
    assert none["s" := SLICE] == INDEX.raws;
  }

  // Its partitions: the full partition only.

  ghost function OneProfile(): string {
    InferProfile(Tally(Effective([DEVICE])))
  }

  ghost function OnePartition(): Partition {
    PartitionFrom("n-full-0", OneProfile(), FullPartition, Effective([DEVICE]))
  }

  lemma NoPlace(e: seq<TopologyDevice>)
    requires forall d :: d in e ==> d == DEVICE
    ensures PcieRootsOf(e) == {} && NumaGroupsOf(e) == map[]
  {
    assert forall d :: d in e ==> PcieKey(d) == "" && NumaKey(d) == "";
    assert KeySet(e, PcieKey) <= {""} && KeySet(e, NumaKey) <= {""};
  }

  lemma OneNodePartition()
    ensures NodePartitions("n", [DEVICE], [], OneProfile(), [OnePartition()])
  {
    hide Effective, Tally, InferProfile, PartitionFrom, SortedStrings, PcieRootsOf, NumaGroupsOf, PciePartitionFrom;
    var e := Effective([DEVICE]);
    EffectiveMembers([DEVICE]);
    NoPlace(e);
    var none: seq<Partition> := [];
    assert SortedStrings({}) == [];
    assert PciePartitionsOf("n", OneProfile(), e, []) == none;
    assert NumaPartitions("n", OneProfile(), map[], [], none);
    assert "n" + "-full-0" == "n-full-0";
    assert [OnePartition()] == none + none + [OnePartition()];
  }

  lemma OneBuilt()
    ensures Builds(INDEX.nodes, INDEX.nodes.Keys, [], [PartitionResult("n", OneProfile(), [OnePartition()])])
    ensures ItemsOf([PartitionResult("n", OneProfile(), [OnePartition()])]) == [Item(OneProfile(), OnePartition())]
  {
    hide NodePartitions, OneProfile, OnePartition;
    OneNodePartition();
    var r := PartitionResult("n", OneProfile(), [OnePartition()]);
    var table: Index.SliceTable := map["s" := [DEVICE]];
    assert Enumerates(table, [DEVICE]) by {
      assert ListsSet(["s"], table.Keys);
      assert ["s"][..0] == [];
      assert Concat(table, ["s"]) == [] + [DEVICE];
    }
    assert BuiltFrom(table, [], r);
    assert HasDevices(table) by { assert table["s"] != []; }
    assert INDEX.nodes["n"] == table && INDEX.nodes.Keys == {"n"};
    forall n ensures Covers([r], n) <==> n in INDEX.nodes.Keys && n in INDEX.nodes && HasDevices(INDEX.nodes[n]) {
      assert [r][0].node == "n";
    }
    assert [r][..0] == [];
    assert ItemsIn(r) == [Item(OneProfile(), OnePartition())];
  }

  // The entry, and the plan of one full partition.

  ghost function OneItem(): Item {
    Item(OneProfile(), OnePartition())
  }

  ghost function OneEntry(list: seq<TopologyRule>): Entry {
    Entry(OneProfile(), FullPartition, OnePartition(), PartitionConfig([], []), CouplingOf(OnePartition(), list), 1)
  }

  lemma OneEntryStands(naming: Naming, list: seq<TopologyRule>)
    ensures StandsFor(naming, list, KeyOf(naming, list, OneItem()), OneEntry(list), OneItem())
    ensures KeyFromLabels(EntryLabels(naming, OneEntry(list))) == KeyOf(naming, list, OneItem())
    ensures EntryLabels(naming, OneEntry(list)).PartitionLabels?
  {
    hide CouplingOf, KeyFromLabels, PartitionKey, OneProfile;
    assert OnePartition().partType == FullPartition;
    KeyRoundTripIff(naming.truncate(OneProfile()), OnePartition(), CouplingOf(OnePartition(), list));
  }

  lemma OnePlan(naming: Naming, k: string, e: Entry)
    requires e.partType.FullPartition?
    ensures PlanOf(Plan(map[k := e], map[], map[], map[]))
    ensures ActiveKeys(naming, Plan(map[k := e], map[], map[], map[])) == {k}
    ensures Publishers(Plan(map[k := e], map[], map[], map[])) == {OfEntry(k)}
  {
    hide RailsFor, StateFor;
    var seen: Seen := map[k := e];
    NoRails(seen);
    assert RailKeys(seen) == {} && RootEntries(seen) == {};
    forall ak ensures Members(seen, seen.Keys, ak) == {} {}
    assert seen.Keys == {k};
  }

  // ---------------------------------------------------------------------
  // The run
  // ---------------------------------------------------------------------

  /** A state of the run, with the first item taken and `synced` not set. */
  function During(worker: Worker, store: Store): State {
    State(Enqueued, map[], INDEX, worker, store, {}, false, 0, 0)
  }

  lemma RunStarts(naming: Naming)
    ensures Reachable(naming, During(Taken, map[]))
  {
    hide Reachable, Index.Steps, WorkerStep;
    SliceIndexed();
    var s0 := State(Loading, map[], NOTHING, Idle, map[], {}, false, 0, 0);
    var s1 := s0.(index := INDEX);
    ReachStart(naming, s0);
    ReachStep(naming, s0, Replay(Index.Update(SLICE)), s1);
    ReachStep(naming, s1, StartWorker, s1.(phase := Started));
    ReachStep(naming, s1.(phase := Started), InitialAdd, s1.(phase := Enqueued, pending := true));
    GetStep(naming, s1.(phase := Enqueued, pending := true));
    assert During(Taken, map[]) == s1.(phase := Enqueued, worker := Taken);
    ReachStep(naming, s1.(phase := Enqueued, pending := true), Get(false), During(Taken, map[]));
  }

  lemma GetStep(naming: Naming, s: State)
    requires s.phase.Enqueued? && s.pending && s.worker.Idle?
    ensures WorkerStep(naming, s, Get(false), s.(worker := Taken, pending := false))
  {
  }

  lemma RunReads(naming: Naming)
    ensures Reachable(naming, During(Collecting([OneItem()], 0, map[]), map[]))
  {
    hide Reachable, Index.Steps, Lists, Builds, ItemsOf, OneProfile, OnePartition;
    RunStarts(naming);
    SliceIndexed();
    NothingListed(AnyRule);
    NothingListed(IsGroupingRule);
    OneBuilt();
    var results := [PartitionResult("n", OneProfile(), [OnePartition()])];
    ReachStep(naming, During(Taken, map[]), ReadRules([]), During(Listed([]), map[]));
    ReachStep(naming, During(Listed([]), map[]), SetModelRules, During(Indexed, map[]));
    ReachStep(naming, During(Indexed, map[]), Snapshot, During(Snapped(INDEX.nodes), map[]));
    ReachStep(naming, During(Snapped(INDEX.nodes), map[]), Build([], results),
      During(Collecting([OneItem()], 0, map[]), map[]));
  }

  const MATCHING: seq<TopologyRule> := [BUILTIN_PCIE_RULE]

  lemma MatchingRules()
    ensures MatchRules(map[], MATCHING)
  {
    hide Lists;
    NothingListed(IsMatchRule);
    assert WithDefault([]) == MATCHING;
  }

  lemma ConfigureStep(naming: Naming, item: Item, list: seq<TopologyRule>, e: Entry)
    requires MatchRules(map[], list) && StandsFor(naming, list, KeyOf(naming, list, item), e, item) && e.count == 1
    ensures WorkerStep(naming, During(Collecting([item], 0, map[]), map[]), Configure(list, e),
      During(Collecting([item], 1, map[KeyOf(naming, list, item) := e]), map[]))
  {
    hide MatchRules, StandsFor, KeyOf;
    assert Noted(map[], KeyOf(naming, list, item), e) == map[KeyOf(naming, list, item) := e];
  }

  lemma EndConfigureStep(naming: Naming, item: Item, plan: Plan)
    requires PlanOf(plan)
    ensures WorkerStep(naming, During(Collecting([item], 1, plan.seen), map[]), EndConfigure(plan),
      During(Publishing(plan, Publishers(plan)), map[]))
  {
    hide PlanOf, ActiveKeys;
  }

  /** The plan of the run: one full partition. */
  ghost function ThePlan(naming: Naming): Plan {
    Plan(map[KeyOf(naming, MATCHING, OneItem()) := OneEntry(MATCHING)], map[], map[], map[])
  }

  lemma RunPlans(naming: Naming)
    ensures Reachable(naming, During(Publishing(ThePlan(naming), Publishers(ThePlan(naming))), map[]))
  {
    hide Reachable, MatchRules, StandsFor, KeyOf, PlanOf, Publishers, OneItem, OnePartition, OneProfile, WorkerStep;
    RunReads(naming);
    MatchingRules();
    var k, e, item := KeyOf(naming, MATCHING, OneItem()), OneEntry(MATCHING), OneItem();
    OneEntryStands(naming, MATCHING);
    OnePlan(naming, k, e);
    var plan := ThePlan(naming);
    ConfigureStep(naming, item, MATCHING, e);
    ReachStep(naming, During(Collecting([item], 0, map[]), map[]), Configure(MATCHING, e),
      During(Collecting([item], 1, plan.seen), map[]));
    EndConfigureStep(naming, item, plan);
    ReachStep(naming, During(Collecting([item], 1, plan.seen), map[]), EndConfigure(plan),
      During(Publishing(plan, Publishers(plan)), map[]));
  }

  ghost function OneStore(naming: Naming): Store {
    map["full" := EntryLabels(naming, OneEntry(MATCHING))]
  }

  lemma PublishStep(naming: Naming)
    ensures WorkerStep(naming, During(Publishing(ThePlan(naming), Publishers(ThePlan(naming))), map[]),
      Publish(OfEntry(KeyOf(naming, MATCHING, OneItem()))),
      During(Publishing(ThePlan(naming), {}), OneStore(naming)))
  {
    hide KeyOf, OneItem, OnePartition, OneProfile, EntryLabels, CouplingOf, PlanOf, ActiveKeys;
    var k, plan := KeyOf(naming, MATCHING, OneItem()), ThePlan(naming);
    OnePlan(naming, k, OneEntry(MATCHING));
    assert {OfEntry(k)} - {OfEntry(k)} == {};
    assert PublishedName(naming, plan, OfEntry(k)) == "full";
    var none: Store := map[];
    assert none["full" := EntryLabels(naming, OneEntry(MATCHING))] == OneStore(naming);
  }

  lemma RunPublishes(naming: Naming)
    ensures Reachable(naming, During(Sweeping(ThePlan(naming), {"full"}), OneStore(naming)))
  {
    hide Reachable, KeyOf, EntryLabels, OneItem, OneEntry, ThePlan, Publishers;
    RunPlans(naming);
    var plan, store := ThePlan(naming), OneStore(naming);
    assert store.Keys == {"full"};
    PublishStep(naming);
    ReachStep(naming, During(Publishing(plan, Publishers(plan)), map[]),
      Publish(OfEntry(KeyOf(naming, MATCHING, OneItem()))), During(Publishing(plan, {}), store));
    ReachStep(naming, During(Publishing(plan, {}), store), List, During(Sweeping(plan, {"full"}), store));
  }

  lemma CollectStep(naming: Naming, plan: Plan, store: Store)
    requires "full" in store && !Stale(store["full"], ActiveKeys(naming, plan))
    ensures WorkerStep(naming, During(Sweeping(plan, {"full"}), store), Collect("full"),
      During(Sweeping(plan, {}), store))
  {
    hide Stale, ActiveKeys;
    assert {"full"} - {"full"} == {};
  }

  lemma EndSteps(naming: Naming, plan: Plan, store: Store)
    ensures WorkerStep(naming, During(Sweeping(plan, {}), store), EndCollect, During(Groupings, store))
    ensures WorkerStep(naming, During(Groupings, store), Finish, During(Idle, store))
  {
  }

  lemma EntryIsFull()
    ensures OneEntry(MATCHING).partType.FullPartition?
  {
  }

  /** A run from start-up reaches rest inside the window, with one slice indexed and its class published. */
  lemma WindowReached(naming: Naming) returns (s: State)
    ensures Reachable(naming, s) && Quiescent(s) && s.phase.Enqueued? && s.index == INDEX
    ensures "full" in s.store && s.store["full"].PartitionLabels?
  {
    hide Reachable, KeyOf, KeyFromLabels, EntryLabels, OneItem, OneEntry, StandsFor, WorkerStep, ActiveKeys;
    RunPublishes(naming);
    OneEntryStands(naming, MATCHING);
    EntryIsFull();
    OnePlan(naming, KeyOf(naming, MATCHING, OneItem()), OneEntry(MATCHING));
    var plan, store := ThePlan(naming), OneStore(naming);
    CollectStep(naming, plan, store);
    EndSteps(naming, plan, store);
    ReachStep(naming, During(Sweeping(plan, {"full"}), store), Collect("full"), During(Sweeping(plan, {}), store));
    ReachStep(naming, During(Sweeping(plan, {}), store), EndCollect, During(Groupings, store));
    ReachStep(naming, During(Groupings, store), Finish, During(Idle, store));
    s := During(Idle, store);
  }

  /** The promise fails inside the window: a run from start-up, a slice change in the window, and two more steps
      end at rest with a stale class. */
  lemma WindowLosesUpdate(naming: Naming) returns (s: State, a: Action, s1: State, s2: State, s3: State)
    ensures Reachable(naming, s) && a.SliceChange? && InWindow(s, a.slice)
    ensures Next(naming, s, a, s1) && Next(naming, s1, SliceCheck, s2) && Next(naming, s2, SetSynced, s3)
    ensures Quiescent(s3) && !Clean(naming, s3)
  {
    hide Reachable, Clean, WorkerStep;
    s := WindowReached(naming);
    SliceIndexed();
    var slice := SLICE.(devices := []);
    a := SliceChange(slice);
    LostUpdate(naming, s, slice, "full");
    s1 := Emptied(s, slice).(checking := 1);
    s2 := s1.(checking := 0);
    s3 := s2.(phase := Serving);
  }
}
