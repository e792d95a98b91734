/** The controller as interleaved threads over shared state: the start-up sequence, the informer
    handlers, and the worker that reconciles.  Every action below is one atomic step; locked methods and
    API calls are atomic, everything between them can be interleaved. */
module Reconcile {
  import opened Collections
  import opened Text
  import opened Topology
  import opened TopologyRules
  import opened ClusterPartitions
  import opened PartitionConfigs
  import opened Aggregates
  import opened ClassKeys
  import opened DeviceClasses
  import opened BuiltClasses
  import Index = TopologyIndex

  // ---------------------------------------------------------------------
  // State and actions
  // ---------------------------------------------------------------------

  /** How far start-up has come: replaying the informer stores, worker started, first item queued, synced set. */
  datatype Phase = Loading | Started | Enqueued | Serving

  /** The worker, with what the reconcile in progress has read so far. */
  datatype Worker =
    | Idle
    | Taken
    | Listed(list: seq<TopologyRule>)
    | Indexed
    | Snapped(nodes: Index.Nodes)
    | Collecting(items: seq<Item>, done: nat, seen: Seen)
    | Publishing(plan: Plan, left: set<Publisher>)
    | Sweeping(plan: Plan, todo: set<string>)
    | Groupings

  /** `checking` counts slice handlers between changing the index and testing `synced`; `owing` counts
      handlers between a change and the enqueue that follows it; `grouped` holds the names that the grouping half
      has written since the last partition sync began. */
  datatype State = State(
    phase: Phase, rules: RuleTable, index: Index.State, worker: Worker, store: Store,
    grouped: set<string>, pending: bool, checking: nat, owing: nat)

  datatype Action =
    // start-up
    | Replay(event: Index.Event)
    | ReplayRules(table: RuleTable)
    | StartWorker
    | InitialAdd
    | SetSynced
    // handlers
    | SliceChange(slice: Index.Slice)
    | SliceCheck
    | SliceDelete(slice: Index.Slice)
    | RuleLoad(key: string, rule: TopologyRule)
    | RuleRemove(key: string)
    | Enqueue
    | OtherEnqueue
    // worker
    | Get(again: bool)
    | ReadRules(list: seq<TopologyRule>)
    | SetModelRules
    | Snapshot
    | Build(groupingRules: seq<TopologyRule>, results: seq<PartitionResult>)
    | Configure(matchRules: seq<TopologyRule>, first: Entry)
    | EndConfigure(plan: Plan)
    | Publish(x: Publisher)
    | List
    | Collect(name: string)
    | EndCollect
    | PublishGrouping(name: string, labels: Labels)
    | DropGrouping(name: string)
    | Finish
    | Fail

  predicate Synced(s: State) {
    s.phase.Serving?
  }

  ghost predicate StartupStep(s: State, a: Action, s': State) {
    match a
    case Replay(e) => s.phase.Loading? && Index.Steps(s.index, e, s'.index) && s' == s.(index := s'.index)
    case ReplayRules(table) => s.phase.Loading? && s' == s.(rules := table)
    case StartWorker => s.phase.Loading? && s' == s.(phase := Started)
    case InitialAdd => s.phase.Started? && s' == s.(phase := Enqueued, pending := true)
    case SetSynced => s.phase.Enqueued? && s' == s.(phase := Serving)
    case _ => false
  }

  /** Additions and updates enqueue only when synced; the other handlers always enqueue. */
  ghost predicate HandlerStep(s: State, a: Action, s': State) {
    match a
    case SliceChange(slice) =>
      Index.Steps(s.index, Index.Update(slice), s'.index) && s' == s.(index := s'.index, checking := s.checking + 1)
    case SliceCheck =>
      s.checking > 0 && s' == s.(checking := s.checking - 1, owing := if Synced(s) then s.owing + 1 else s.owing)
    case SliceDelete(slice) =>
      Index.Steps(s.index, Index.Remove(slice), s'.index) && s' == s.(index := s'.index, owing := s.owing + 1)
    case RuleLoad(key, rule) => s' == s.(rules := s.rules[key := rule], owing := s.owing + 1)
    case RuleRemove(key) => s' == s.(rules := s.rules - {key}, owing := s.owing + 1)
    case Enqueue => s.owing > 0 && s' == s.(owing := s.owing - 1, pending := true)
    case OtherEnqueue => s' == s.(pending := true)
    case _ => false
  }

  /** One reconcile.  `Get` may leave a delayed duplicate behind; `Fail` puts the item back. */
  ghost predicate WorkerStep(naming: Naming, s: State, a: Action, s': State) {
    match a
    case Get(again) => !s.phase.Loading? && s.pending && s.worker.Idle? && s' == s.(worker := Taken, pending := again)
    case ReadRules(list) => s.worker.Taken? && Lists(s.rules, AnyRule, list) && s' == s.(worker := Listed(list))
    case SetModelRules =>
      s.worker.Listed? && Index.Steps(s.index, Index.SetRules(s.worker.list), s'.index) &&
        s' == s.(index := s'.index, worker := Indexed)
    case Snapshot => s.worker.Indexed? && s' == s.(worker := Snapped(s.index.nodes))
    case Build(groupingRules, results) =>
      && s.worker.Snapped? && Lists(s.rules, IsGroupingRule, groupingRules)
      && Builds(s.worker.nodes, s.worker.nodes.Keys, groupingRules, results)
      && s' == s.(worker := Collecting(ItemsOf(results), 0, map[]))
    case Configure(matchRules, first) =>
      && s.worker.Collecting? && s.worker.done < |s.worker.items| && MatchRules(s.rules, matchRules)
      && var item := s.worker.items[s.worker.done];
         var k := KeyOf(naming, matchRules, item);
         && StandsFor(naming, matchRules, k, first, item) && first.count == 1
         && s' == s.(worker := Collecting(s.worker.items, s.worker.done + 1, Noted(s.worker.seen, k, first)))
    case EndConfigure(plan) =>
      && s.worker.Collecting? && s.worker.done == |s.worker.items|
      && plan.seen == s.worker.seen && PlanOf(plan)
      && s' == s.(worker := Publishing(plan, Publishers(plan)), grouped := {})
    case Publish(x) =>
      && s.worker.Publishing? && x in s.worker.left && x in Publishers(s.worker.plan)
      && var plan := s.worker.plan;
         s' == s.(worker := Publishing(plan, s.worker.left - {x}),
                  store := s.store[PublishedName(naming, plan, x) := PublishedLabels(naming, plan, x)])
    case List =>
      s.worker.Publishing? && s.worker.left == {} && s' == s.(worker := Sweeping(s.worker.plan, s.store.Keys))
    case Collect(name) =>
      && s.worker.Sweeping? && name in s.worker.todo && name in s.store
      && s' == s.(worker := s.worker.(todo := s.worker.todo - {name}),
                  store := if Stale(s.store[name], ActiveKeys(naming, s.worker.plan))
                    then s.store - {name} else s.store)
    case EndCollect => s.worker.Sweeping? && s.worker.todo == {} && s' == s.(worker := Groupings)
    case PublishGrouping(name, labels) => s.worker.Groupings? && labels.GroupingLabels? &&
      s' == s.(store := s.store[name := labels], grouped := s.grouped + {name})
    case DropGrouping(name) =>
      s.worker.Groupings? && name in s.store && s.store[name].GroupingLabels? && s' == s.(store := s.store - {name})
    case Finish => s.worker.Groupings? && s' == s.(worker := Idle)
    case Fail => (s.worker.Publishing? || s.worker.Groupings?) && s' == s.(worker := Idle, pending := true)
    case _ => false
  }

  ghost predicate Next(naming: Naming, s: State, a: Action, s': State) {
    StartupStep(s, a, s') || HandlerStep(s, a, s') || WorkerStep(naming, s, a, s')
  }

  /** The worker has still to read the index: it has not rebuilt it yet, or it has and the slice keeps its node. */
  predicate StillToRead(s: State, slice: Index.Slice) {
    s.worker.Taken? || s.worker.Listed? || (s.worker.Indexed? && Index.KeepsNode(s.index, Index.Update(slice)))
  }

  /** The window in which an added or updated slice is lost: the first item has been taken, the worker has read
      the index (or has finished), nothing else is queued, and `synced` is not set yet. */
  predicate InWindow(s: State, slice: Index.Slice) {
    s.phase.Enqueued? && !s.pending && s.owing == 0 && !StillToRead(s, slice)
  }

  predicate OutsideWindow(s: State, a: Action) {
    !(a.SliceChange? && InWindow(s, a.slice))
  }

  ghost predicate Initial(s: State) {
    s.phase.Loading? && s.worker.Idle? && s.checking == 0 && s.owing == 0 && !s.pending
  }

  // ---------------------------------------------------------------------
  // What the store should hold
  // ---------------------------------------------------------------------

  /** The index is a rebuild under the current rules. */
  ghost predicate IndexCurrent(s: State) {
    Lists(s.rules, AnyRule, s.index.rules) && s.index.InSync()
  }

  ghost predicate ItemsCurrent(s: State, items: seq<Item>) {
    exists groupingRules, results ::
      Lists(s.rules, IsGroupingRule, groupingRules) &&
        Builds(s.index.nodes, s.index.nodes.Keys, groupingRules, results) && items == ItemsOf(results)
  }

  ghost predicate SeenCurrent(naming: Naming, rules: RuleTable, items: seq<Item>, seen: Seen) {
    forall list :: MatchRules(rules, list) ==> SeenFor(naming, list, items, seen)
  }

  /** The plan is what the current index and rules give. */
  ghost predicate PlanCurrent(naming: Naming, s: State, plan: Plan) {
    && IndexCurrent(s)
    && exists items, list ::
         ItemsCurrent(s, items) && MatchRules(s.rules, list) && PlanFor(naming, list, items, plan)
  }

  /** Every managed partition class outside `todo` has an active key. */
  ghost predicate Swept(store: Store, active: set<string>, todo: set<string>) {
    forall n :: n in store && n !in todo ==> !Stale(store[n], active)
  }

  /** Everything planned, outside `left`, has a class that the plan publishes under its name, unless a grouping
      was written under that name. */
  ghost predicate Complete(naming: Naming, plan: Plan, store: Store, grouped: set<string>, left: set<Publisher>) {
    forall x :: x in Publishers(plan) && x !in left && PublishedName(naming, plan, x) !in grouped ==>
      Stored(naming, plan, store, PublishedName(naming, plan, x))
  }

  ghost predicate Stored(naming: Naming, plan: Plan, store: Store, n: string) {
    n in store && Planned(naming, plan, n, store[n])
  }

  ghost predicate CleanFor(naming: Naming, s: State, plan: Plan) {
    && PlanCurrent(naming, s, plan) && Swept(s.store, ActiveKeys(naming, plan), {})
    && Complete(naming, plan, s.store, s.grouped, {})
  }

  ghost predicate Clean(naming: Naming, s: State) {
    exists plan :: CleanFor(naming, s, plan)
  }

  /** What the reconcile in progress has read is still what it would read. */
  ghost predicate UpToDate(naming: Naming, s: State) {
    match s.worker
    case Idle => Clean(naming, s)
    case Taken => true
    case Listed(list) => Lists(s.rules, AnyRule, list)
    case Indexed => IndexCurrent(s)
    case Snapped(nodes) => IndexCurrent(s) && nodes == s.index.nodes
    case Collecting(items, done, seen) =>
      IndexCurrent(s) && ItemsCurrent(s, items) && done <= |items| && SeenCurrent(naming, s.rules, items[..done], seen)
    case Publishing(plan, left) => PlanCurrent(naming, s, plan) && Complete(naming, plan, s.store, s.grouped, left)
    case Sweeping(plan, todo) =>
      && PlanCurrent(naming, s, plan) && Swept(s.store, ActiveKeys(naming, plan), todo)
      && Complete(naming, plan, s.store, s.grouped, {})
    case Groupings => Clean(naming, s)
  }

  /** A later reconcile is certain. */
  predicate Promised(s: State) {
    s.pending || s.owing > 0 || s.phase.Loading? || s.phase.Started? || (Synced(s) && s.checking > 0)
  }

  ghost predicate Inv(naming: Naming, s: State) {
    Promised(s) || UpToDate(naming, s)
  }

  /** Nothing queued, nothing running, no handler half way. */
  predicate Quiescent(s: State) {
    !s.phase.Loading? && !s.phase.Started? && !s.pending && s.owing == 0 && s.checking == 0 && s.worker.Idle?
  }

  // ---------------------------------------------------------------------
  // Every step keeps the invariant
  // ---------------------------------------------------------------------

  lemma {:induction false} ListsExist(rules: RuleTable, p: TopologyRule -> bool) returns (list: seq<TopologyRule>)
    ensures Lists(rules, p, list)
  {
    var order := SortedStrings(KeysWith(rules, p));
    assert forall k :: k in order <==> k in KeysWith(rules, p);
    list := seq(|order|, i requires 0 <= i < |order| =>
      if order[i] in rules then rules[order[i]] else BUILTIN_PCIE_RULE);
    forall i | 0 <= i < |list| ensures order[i] in rules && list[i] == rules[order[i]] {
      assert order[i] in order;
    }
  }

  /** The match rules are the same whatever the order in which they are read. */
  lemma MatchRulesSame(rules: RuleTable, a: seq<TopologyRule>, b: seq<TopologyRule>)
    requires MatchRules(rules, a) && MatchRules(rules, b)
    ensures forall r :: r in a <==> r in b
  {
    hide Lists, KeysWith;
    var fa :| Lists(rules, IsMatchRule, fa) && a == WithDefault(fa);
    var fb :| Lists(rules, IsMatchRule, fb) && b == WithDefault(fb);
    ListsMembers(rules, IsMatchRule, fa);
    ListsMembers(rules, IsMatchRule, fb);
    assert forall r :: r in fa <==> r in fb;
  }

  lemma StandsForSame(naming: Naming, rules: RuleTable, a: seq<TopologyRule>, b: seq<TopologyRule>, e: Entry,
                      item: Item)
    requires MatchRules(rules, a) && MatchRules(rules, b)
    ensures KeyOf(naming, a, item) == KeyOf(naming, b, item)
    ensures forall k :: StandsFor(naming, a, k, e, item) <==> StandsFor(naming, b, k, e, item)
  {
    hide MatchRules, CouplingOf, PartitionKey;
    MatchRulesSame(rules, a, b);
    CouplingOrderFree(item.partition, a, b);
  }

  lemma ConfigureKeeps(naming: Naming, rules: RuleTable, items: seq<Item>, done: nat, seen: Seen,
                       list: seq<TopologyRule>, first: Entry)
    requires done < |items| && SeenCurrent(naming, rules, items[..done], seen) && MatchRules(rules, list)
    requires StandsFor(naming, list, KeyOf(naming, list, items[done]), first, items[done]) && first.count == 1
    ensures SeenCurrent(naming, rules, items[..done + 1], Noted(seen, KeyOf(naming, list, items[done]), first))
  {
    hide SeenFor, StandsFor, KeyOf, MatchRules;
    forall other | MatchRules(rules, other)
      ensures SeenFor(naming, other, items[..done + 1], Noted(seen, KeyOf(naming, list, items[done]), first))
    {
      StandsForSame(naming, rules, list, other, first, items[done]);
      SeenSnoc(naming, other, items[..done], seen, items[done], first);
      assert items[..done + 1] == items[..done] + [items[done]];
    }
  }

  lemma SeenStart(naming: Naming, rules: RuleTable)
    ensures SeenCurrent(naming, rules, [], map[])
  {
    hide SeenFor;
    forall list ensures SeenFor(naming, list, [], map[]) { NothingSeen(naming, list); }
  }

  lemma PlanIsCurrent(naming: Naming, s: State, items: seq<Item>, seen: Seen, plan: Plan)
    requires IndexCurrent(s) && ItemsCurrent(s, items) && SeenCurrent(naming, s.rules, items, seen)
    requires plan.seen == seen && PlanOf(plan)
    ensures PlanCurrent(naming, s, plan)
  {
    hide IndexCurrent, ItemsCurrent, SeenFor, PlanOf;
    var found := ListsExist(s.rules, IsMatchRule);
    var list := WithDefault(found);
    assert MatchRules(s.rules, list);
    assert PlanFor(naming, list, items, plan);
  }

  /** A class that a current plan publishes is a partition class, and not stale. */
  lemma PlannedNotStale(naming: Naming, s: State, plan: Plan, n: string, labels: Labels)
    requires PlanCurrent(naming, s, plan) && Planned(naming, plan, n, labels)
    ensures labels.PartitionLabels? && !Stale(labels, ActiveKeys(naming, plan))
  {
    hide PlanFor, MatchRules, IndexCurrent, RootsNamed, ItemsOf, Builds, Lists, Publishers, PublishedName;
    hide KeyFromLabels;
    hide PublishedLabels, PublishedKey, ActiveKeys;
    var items, list :| ItemsCurrent(s, items) && MatchRules(s.rules, list) && PlanFor(naming, list, items, plan);
    var groupingRules, results :| Lists(s.rules, IsGroupingRule, groupingRules) &&
      Builds(s.index.nodes, s.index.nodes.Keys, groupingRules, results) && items == ItemsOf(results);
    BuiltItemsNamed(s.index.nodes, groupingRules, results);
    var x :| x in Publishers(plan) && PublishedName(naming, plan, x) == n && PublishedLabels(naming, plan, x) == labels;
    PublisherKeyed(naming, list, items, plan, x);
    KeysPublished(naming, plan, KeyFromLabels(labels));
  }

  predicate Writes(a: Action) {
    a.Publish? || a.List? || a.Collect? || a.EndCollect? || a.PublishGrouping? || a.DropGrouping? || a.Finish?
  }

  /** Whatever the worker does, short of failing, it stays up to date. */
  lemma WorkerKeeps(naming: Naming, s: State, a: Action, s': State)
    requires UpToDate(naming, s) && WorkerStep(naming, s, a, s') && !a.Fail?
    ensures UpToDate(naming, s')
  {
    hide UpToDate, WorkerStep;
    if Writes(a) {
      StoreKeeps(naming, s, a, s');
    } else {
      ReadingKeeps(naming, s, a, s');
    }
  }

  /** Reading: every value read is still current. */
  lemma ReadingKeeps(naming: Naming, s: State, a: Action, s': State)
    requires UpToDate(naming, s) && WorkerStep(naming, s, a, s')
    requires !Writes(a) && !a.Fail?
    ensures UpToDate(naming, s')
  {
    hide Lists, Builds, SeenFor, StandsFor, KeyOf, MatchRules, PlanOf, ActiveKeys, ItemsOf, Noted, PlanFor, Swept;
    hide Complete;
    hide Stale;
    match a
    case Build(groupingRules, results) =>
      SeenStart(naming, s.rules);
      assert s'.worker.items[..0] == [];
      assert ItemsCurrent(s', s'.worker.items);
    case Configure(matchRules, first) =>
      ConfigureKeeps(naming, s.rules, s.worker.items, s.worker.done, s.worker.seen, matchRules, first);
      SameSources(naming, s, s');
    case EndConfigure(plan) =>
      assert s.worker.items[..s.worker.done] == s.worker.items;
      PlanIsCurrent(naming, s, s.worker.items, s.worker.seen, plan);
      NothingYet(naming, plan, s.store);
      SameSources(naming, s, s');
    case SetModelRules =>
    case _ =>
      SameSources(naming, s, s');
  }

  /** Writing: the plan stays current, what was published stays, and sweeping leaves no stale class behind. */
  lemma StoreKeeps(naming: Naming, s: State, a: Action, s': State)
    requires UpToDate(naming, s) && WorkerStep(naming, s, a, s')
    requires Writes(a)
    ensures UpToDate(naming, s')
  {
    hide UpToDate, WorkerStep;
    if s.worker.Groupings? {
      GroupingsKeep(naming, s, a, s');
    } else {
      PartitionsKeep(naming, s, a, s');
    }
  }

  lemma PartitionsKeep(naming: Naming, s: State, a: Action, s': State)
    requires UpToDate(naming, s) && WorkerStep(naming, s, a, s')
    requires Writes(a) && !s.worker.Groupings?
    ensures UpToDate(naming, s')
  {
    hide PlanCurrent, IndexCurrent, ItemsCurrent, SeenCurrent, Complete, ActiveKeys, Stale, Publishers, PublishedName;
    hide PublishedLabels, KeyOf, StandsFor, MatchRules, Lists, Builds, PlanOf, ItemsOf, Noted, Index.Steps;
    SameSources(naming, s, s');
    if s.worker.Publishing? {
      if a.Publish? { PublishCompletes(naming, s.worker.plan, s.store, s.grouped, s.worker.left, a.x); }
    } else if a.Collect? {
      if Stale(s.store[a.name], ActiveKeys(naming, s.worker.plan)) { StaleGoes(naming, s, a.name); }
    } else {
      assert CleanFor(naming, s', s.worker.plan);
    }
  }

  lemma NothingYet(naming: Naming, plan: Plan, store: Store)
    ensures Complete(naming, plan, store, {}, Publishers(plan))
  {
  }

  lemma PublishCompletes(naming: Naming, plan: Plan, store: Store, grouped: set<string>, left: set<Publisher>,
                         x: Publisher)
    requires Complete(naming, plan, store, grouped, left) && x in Publishers(plan)
    ensures Complete(naming, plan, store[PublishedName(naming, plan, x) := PublishedLabels(naming, plan, x)], grouped,
      left - {x})
  {
    hide Publishers, PublishedName, PublishedLabels;
    assert Planned(naming, plan, PublishedName(naming, plan, x), PublishedLabels(naming, plan, x));
  }

  lemma StaleGoes(naming: Naming, s: State, name: string)
    requires s.worker.Sweeping? && UpToDate(naming, s) && name in s.store
    requires Stale(s.store[name], ActiveKeys(naming, s.worker.plan))
    ensures Complete(naming, s.worker.plan, s.store - {name}, s.grouped, {})
  {
    hide PlanCurrent, ActiveKeys, Stale, Publishers, PublishedName, Planned, Swept;
    var plan := s.worker.plan;
    if Planned(naming, plan, name, s.store[name]) { PlannedNotStale(naming, s, plan, name, s.store[name]); }
  }

  lemma GroupingsKeep(naming: Naming, s: State, a: Action, s': State)
    requires UpToDate(naming, s) && WorkerStep(naming, s, a, s')
    requires Writes(a) && s.worker.Groupings?
    ensures UpToDate(naming, s')
  {
    hide PlanCurrent, IndexCurrent, ItemsCurrent, SeenCurrent, Complete, ActiveKeys, Publishers, PublishedName;
    hide PublishedLabels, KeyFromLabels;
    SameSources(naming, s, s');
    var plan :| CleanFor(naming, s, plan);
    match a
    case PublishGrouping(name, labels) =>
      GroupingWritten(naming, plan, s.store, s.grouped, name, labels);
      assert CleanFor(naming, s', plan);
    case DropGrouping(name) =>
      GroupingDropped(naming, s, plan, name);
      assert CleanFor(naming, s', plan);
    case Finish => assert CleanFor(naming, s', plan);
    case _ =>
  }

  lemma GroupingWritten(naming: Naming, plan: Plan, store: Store, grouped: set<string>, name: string, labels: Labels)
    requires Complete(naming, plan, store, grouped, {})
    ensures Complete(naming, plan, store[name := labels], grouped + {name}, {})
  {
    hide Publishers, PublishedName, Planned;
  }

  lemma GroupingDropped(naming: Naming, s: State, plan: Plan, name: string)
    requires CleanFor(naming, s, plan) && name in s.store && s.store[name].GroupingLabels?
    ensures Complete(naming, plan, s.store - {name}, s.grouped, {})
  {
    hide PlanCurrent, ActiveKeys, Publishers, PublishedName, Planned, Swept;
    if Planned(naming, plan, name, s.store[name]) { PlannedNotStale(naming, s, plan, name, s.store[name]); }
  }

  /** Being current depends on the index and the rules only. */
  lemma SameSources(naming: Naming, s: State, s': State)
    requires s'.index == s.index && s'.rules == s.rules
    ensures IndexCurrent(s') == IndexCurrent(s)
    ensures forall items :: ItemsCurrent(s', items) == ItemsCurrent(s, items)
    ensures forall plan :: PlanCurrent(naming, s', plan) == PlanCurrent(naming, s, plan)
  {
    hide Lists, Builds, PlanFor, MatchRules;
    assert forall items :: ItemsCurrent(s', items) == ItemsCurrent(s, items);
  }

  lemma StepKeeps(naming: Naming, s: State, a: Action, s': State)
    requires Inv(naming, s) && Next(naming, s, a, s') && OutsideWindow(s, a)
    ensures Inv(naming, s')
  {
    hide UpToDate, WorkerStep, HandlerStep, StartupStep, Promised;
    if WorkerStep(naming, s, a, s') {
      PromiseKept(naming, s, a, s');
      if a.Get? {
        JustTaken(naming, s');
      } else if UpToDate(naming, s) && !a.Fail? {
        WorkerKeeps(naming, s, a, s');
      }
    } else if !Promised(s') {
      PromiseMade(s, a, s');
      if a.SliceChange? {
        NotYetRead(naming, s, a.slice, s');
      } else {
        SameWork(naming, s, s');
      }
    }
  }

  /** A slice that changes before the worker reads the index is read. */
  lemma NotYetRead(naming: Naming, s: State, slice: Index.Slice, s': State)
    requires UpToDate(naming, s) && StillToRead(s, slice)
    requires s'.rules == s.rules && s'.worker == s.worker && Index.Steps(s.index, Index.Update(slice), s'.index)
    ensures UpToDate(naming, s')
  {
    hide Index.Agrees, Index.DevicesFrom, Lists;
    if s.worker.Indexed? { Index.StepAgreesIff(s.index, Index.Update(slice), s'.index); }
  }

  /** Only `Get` takes an item off the queue, and a failed reconcile puts it back. */
  lemma PromiseKept(naming: Naming, s: State, a: Action, s': State)
    requires WorkerStep(naming, s, a, s')
    ensures a.Get? ==> s'.worker.Taken?
    ensures !a.Get? && Promised(s) ==> Promised(s')
    ensures a.Fail? ==> Promised(s')
  {
    hide Lists, Builds, StandsFor, KeyOf, MatchRules, PlanOf, ActiveKeys, ItemsOf, Noted, Stale;
  }

  /** A step of start-up or of a handler that changes what the worker has read leaves a promise behind. */
  lemma PromiseMade(s: State, a: Action, s': State)
    requires (StartupStep(s, a, s') || HandlerStep(s, a, s')) && OutsideWindow(s, a)
    requires !Promised(s')
    ensures !Promised(s) && s'.rules == s.rules && s'.worker == s.worker && s'.store == s.store
    ensures s'.grouped == s.grouped
    ensures if a.SliceChange? then StillToRead(s, a.slice) && Index.Steps(s.index, Index.Update(a.slice), s'.index)
            else s'.index == s.index
  {
    hide Index.Steps;
  }

  lemma JustTaken(naming: Naming, s: State)
    requires s.worker.Taken?
    ensures UpToDate(naming, s)
  {
  }

  lemma SameWork(naming: Naming, s: State, s': State)
    requires s'.index == s.index && s'.rules == s.rules && s'.worker == s.worker && s'.store == s.store
    requires s'.grouped == s.grouped
    ensures UpToDate(naming, s') == UpToDate(naming, s)
  {
    hide IndexCurrent, ItemsCurrent, PlanCurrent, SeenCurrent, Swept, Complete;
    SameSources(naming, s, s');
    assert forall plan :: CleanFor(naming, s', plan) == CleanFor(naming, s, plan);
  }

  // ---------------------------------------------------------------------
  // Whole runs
  // ---------------------------------------------------------------------

  ghost predicate IsRun(naming: Naming, states: seq<State>, actions: seq<Action>) {
    && |states| == |actions| + 1 && Initial(states[0])
    && forall i {:trigger actions[i]} :: 0 <= i < |actions| ==>
         Next(naming, states[i], actions[i], states[i + 1]) && OutsideWindow(states[i], actions[i])
  }

  lemma {:induction false} RunKeeps(naming: Naming, states: seq<State>, actions: seq<Action>)
    requires IsRun(naming, states, actions)
    ensures Inv(naming, states[|actions|])
  {
    hide Next, UpToDate;
    if actions != [] {
      var n := |actions| - 1;
      RunKeeps(naming, states[..n + 1], actions[..n]);
      assert actions[n] == actions[|actions| - 1];
      StepKeeps(naming, states[n], actions[n], states[n + 1]);
    }
  }

  /** However the threads interleave, once nothing is queued, running or half handled, the index is a rebuild under
      the current rules, and for the plan that they give: every managed partition class has an active key, and
      under every planned name there is a class that the plan publishes there, unless a grouping took the name. */
  lemma Quiescence(naming: Naming, states: seq<State>, actions: seq<Action>)
    requires IsRun(naming, states, actions) && Quiescent(states[|actions|])
    ensures var s := states[|actions|];
      exists plan :: PlanCurrent(naming, s, plan) &&
        (forall n :: n in s.store && s.store[n].PartitionLabels? ==>
          KeyFromLabels(s.store[n]) in ActiveKeys(naming, plan)) &&
        (forall x :: x in Publishers(plan) && PublishedName(naming, plan, x) !in s.grouped ==>
          Stored(naming, plan, s.store, PublishedName(naming, plan, x)))
  {
    hide PlanCurrent, KeyFromLabels, ActiveKeys, Publishers, PublishedName, Stored;
    RunKeeps(naming, states, actions);
    var s := states[|actions|];
    assert Clean(naming, s);
    var plan :| CleanFor(naming, s, plan);
    forall n | n in s.store &&
      s.store[n].PartitionLabels? ensures KeyFromLabels(s.store[n]) in ActiveKeys(naming, plan) {
      assert !Stale(s.store[n], ActiveKeys(naming, plan));
    }
  }

  /** No other publisher and no grouping has the name. */
  ghost predicate SoleName(naming: Naming, s: State, plan: Plan, x: Publisher)
    requires x in Publishers(plan)
  {
    && PublishedName(naming, plan, x) !in s.grouped
    && forall y :: y in Publishers(plan) && PublishedName(naming, plan, y) == PublishedName(naming, plan, x) ==> y == x
  }

  /** So at rest, whatever has a name of its own has its class, with its own labels and its own key. */
  lemma SoleNameStored(naming: Naming, s: State, plan: Plan, x: Publisher)
    requires CleanFor(naming, s, plan) && x in Publishers(plan) && SoleName(naming, s, plan, x)
    ensures var n := PublishedName(naming, plan, x);
      && n in s.store && s.store[n] == PublishedLabels(naming, plan, x)
      && s.store[n].PartitionLabels? && KeyFromLabels(s.store[n]) == PublishedKey(naming, plan, x)
  {
    hide PlanCurrent, KeyFromLabels, ActiveKeys, Publishers, PublishedName, PublishedLabels, PublishedKey;
    assert Stored(naming, plan, s.store, PublishedName(naming, plan, x));
    CurrentKeyed(naming, s, plan, x);
  }

  lemma CurrentKeyed(naming: Naming, s: State, plan: Plan, x: Publisher)
    requires PlanCurrent(naming, s, plan) && x in Publishers(plan)
    ensures var labels := PublishedLabels(naming, plan, x);
      labels.PartitionLabels? && KeyFromLabels(labels) == PublishedKey(naming, plan, x)
  {
    hide PlanFor, MatchRules, IndexCurrent, RootsNamed, ItemsOf, Builds, Lists, Publishers, KeyFromLabels;
    hide PublishedLabels, PublishedKey;
    var items, list :| ItemsCurrent(s, items) && MatchRules(s.rules, list) && PlanFor(naming, list, items, plan);
    var groupingRules, results :| Lists(s.rules, IsGroupingRule, groupingRules) &&
      Builds(s.index.nodes, s.index.nodes.Keys, groupingRules, results) && items == ItemsOf(results);
    BuiltItemsNamed(s.index.nodes, groupingRules, results);
    PublisherKeyed(naming, list, items, plan, x);
  }

  ghost predicate HasClass(store: Store, k: string) {
    exists n :: n in store && store[n].PartitionLabels? && KeyFromLabels(store[n]) == k
  }

  /** With names apart, the keys of the partition classes at rest are exactly the active keys. */
  lemma RestExact(naming: Naming, s: State, plan: Plan, k: string)
    requires CleanFor(naming, s, plan) && forall x :: x in Publishers(plan) ==> SoleName(naming, s, plan, x)
    ensures HasClass(s.store, k) <==> k in ActiveKeys(naming, plan)
  {
    hide PlanCurrent, KeyFromLabels, ActiveKeys, Publishers, PublishedName, PublishedLabels, PublishedKey, SoleName;
    hide Complete;
    KeysPublished(naming, plan, k);
    if k in ActiveKeys(naming, plan) {
      var x :| x in Publishers(plan) && PublishedKey(naming, plan, x) == k;
      SoleNameStored(naming, s, plan, x);
    }
    if n :| n in s.store && s.store[n].PartitionLabels? && KeyFromLabels(s.store[n]) == k {
      assert !Stale(s.store[n], ActiveKeys(naming, plan));
    }
  }

  // ---------------------------------------------------------------------
  // A run that comes to rest
  // ---------------------------------------------------------------------

  const NOTHING := Index.State(map[], map[], [])
  const EMPTY_PLAN := Plan(map[], map[], map[], map[])

  lemma EmptyFacts(naming: Naming)
    ensures Lists(map[], AnyRule, []) && Lists(map[], IsGroupingRule, [])
    ensures Index.Steps(NOTHING, Index.SetRules([]), NOTHING)
    ensures Builds(map[], {}, [], []) && ItemsOf([]) == []
    ensures PlanOf(EMPTY_PLAN) && ActiveKeys(naming, EMPTY_PLAN) == {} && Publishers(EMPTY_PLAN) == {}
  {
    hide Lists, RailsFor, StatesFor;
    NothingListed(AnyRule);
    NothingListed(IsGroupingRule);
    NoRails(map[]);
    NoStates(map[]);
    assert RailKeys(map[]) == {} && RootEntries(map[]) == {};
  }

  lemma NothingListed(p: TopologyRule -> bool)
    ensures Lists(map[], p, [])
  {
    var none: seq<string> := [];
    assert KeysWith(map[], p) == {};
    assert ListsSet(none, KeysWith(map[], p));
  }

  /** The actions of one reconcile of an empty cluster that collects one left-over class. */
  function SweepActions(name: string): seq<Action> {
    [StartWorker, InitialAdd, SetSynced, Get(false), ReadRules([]), SetModelRules, Snapshot, Build([], []),
     EndConfigure(EMPTY_PLAN), List, Collect(name), EndCollect, Finish]
  }

  function SweepStates(name: string, labels: Labels): seq<State> {
    var s0 := State(Loading, map[], NOTHING, Idle, map[name := labels], {}, false, 0, 0);
    var serving := s0.(phase := Serving);
    [s0, s0.(phase := Started), s0.(phase := Enqueued, pending := true), serving.(pending := true),
      serving.(worker := Taken),
     serving.(worker := Listed([])), serving.(worker := Indexed), serving.(worker := Snapped(map[])),
     serving.(worker := Collecting([], 0, map[])), serving.(worker := Publishing(EMPTY_PLAN, {})),
       serving.(worker := Sweeping(EMPTY_PLAN, {name})),
     serving.(worker := Sweeping(EMPTY_PLAN, {}), store := map[]), serving.(worker := Groupings, store := map[]),
       serving.(store := map[])]
  }

  /** A cluster without devices comes to rest, and the class that an earlier cluster left is gone. */
  lemma LeftOverCollected(naming: Naming, name: string, labels: Labels)
    requires labels.PartitionLabels?
    ensures var states, actions := SweepStates(name, labels), SweepActions(name);
      IsRun(naming, states, actions) && Quiescent(states[|actions|]) && states[|actions|].store == map[]
  {
    hide Next;
    var states, actions := SweepStates(name, labels), SweepActions(name);
    forall i | 0 <= i < |actions| ensures Next(naming, states[i], actions[i], states[i + 1]) &&
      OutsideWindow(states[i], actions[i]) {
      SweepStep(naming, name, labels, i);
    }
  }

  lemma SweepStep(naming: Naming, name: string, labels: Labels, i: nat)
    requires i < |SweepActions(name)| && labels.PartitionLabels?
    ensures var states, actions := SweepStates(name, labels), SweepActions(name);
      Next(naming, states[i], actions[i], states[i + 1]) && OutsideWindow(states[i], actions[i])
  {
    hide StartupStep, HandlerStep, WorkerStep;
    if i < 3 {
      SweepStartup(name, labels, i);
    } else if i < 9 {
      SweepReads(naming, name, labels, i);
    } else {
      SweepWrites(naming, name, labels, i);
    }
  }

  lemma SweepStartup(name: string, labels: Labels, i: nat)
    requires i < 3
    ensures StartupStep(SweepStates(name, labels)[i], SweepActions(name)[i], SweepStates(name, labels)[i + 1])
  {
  }

  lemma SweepReads(naming: Naming, name: string, labels: Labels, i: nat)
    requires 3 <= i < 9
    ensures WorkerStep(naming, SweepStates(name, labels)[i], SweepActions(name)[i], SweepStates(name, labels)[i + 1])
  {
    hide Lists, Builds, PlanOf, ActiveKeys, Index.Steps, ItemsOf, Publishers;
    EmptyFacts(naming);
    var none: Index.Nodes := map[];
    assert none.Keys == {};
  }

  lemma SweepWrites(naming: Naming, name: string, labels: Labels, i: nat)
    requires 9 <= i < 13 && labels.PartitionLabels?
    ensures WorkerStep(naming, SweepStates(name, labels)[i], SweepActions(name)[i], SweepStates(name, labels)[i + 1])
  {
    hide WorkerStep, SweepStates, SweepActions;
    if i == 9 {
      SweepLists(naming, name, labels);
    } else if i == 10 {
      SweepCollects(naming, name, labels);
    } else {
      SweepEnds(naming, name, labels, i);
    }
  }

  lemma SweepLists(naming: Naming, name: string, labels: Labels)
    ensures WorkerStep(naming, SweepStates(name, labels)[9], SweepActions(name)[9], SweepStates(name, labels)[10])
  {
    hide ActiveKeys, Publishers;
    assert map[name := labels].Keys == {name};
  }

  lemma SweepCollects(naming: Naming, name: string, labels: Labels)
    requires labels.PartitionLabels?
    ensures WorkerStep(naming, SweepStates(name, labels)[10], SweepActions(name)[10], SweepStates(name, labels)[11])
  {
    hide WorkerStep, ActiveKeys;
    NothingKeyed(naming);
    CollectsLast(naming, SweepStates(name, labels)[10], EMPTY_PLAN, name, labels);
  }

  lemma NothingKeyed(naming: Naming)
    ensures ActiveKeys(naming, EMPTY_PLAN) == {}
  {
  }

  lemma CollectsLast(naming: Naming, s: State, plan: Plan, name: string, labels: Labels)
    requires s.worker == Sweeping(plan, {name}) && s.store == map[name := labels] && labels.PartitionLabels?
    requires ActiveKeys(naming, plan) == {}
    ensures WorkerStep(naming, s, Collect(name), s.(worker := Sweeping(plan, {}), store := map[]))
  {
    hide KeyFromLabels, ActiveKeys, Publishers, PlanOf;
    assert map[name := labels] - {name} == map[] && {name} - {name} == {};
    assert Stale(labels, {});
  }

  lemma SweepEnds(naming: Naming, name: string, labels: Labels, i: nat)
    requires 11 <= i < 13
    ensures WorkerStep(naming, SweepStates(name, labels)[i], SweepActions(name)[i], SweepStates(name, labels)[i + 1])
  {
    hide ActiveKeys, Publishers;
  }
}
