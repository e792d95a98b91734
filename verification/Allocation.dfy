/** The allocator inside one alignment group: instance after instance takes, for every requested
    class, the next devices of that class behind a `consumed` cursor. */
module Allocation {
  import opened Collections
  import opened Topology

  datatype GroupingDevice = GroupingDevice(deviceClass: string, count: int, capacity: map<string, Quantity>)

  /** A run either finishes or slices a class list past its end. */
  datatype Outcome<T> = Done(value: T) | SliceOutOfRange

  /** The class lookup of the rule store, applied to a device. */
  function ClassKey(classOf: string -> string): TopologyDevice -> string {
    (d: TopologyDevice) => classOf(Base(d))
  }

  /** The devices of one class. */
  function Stock(devices: seq<TopologyDevice>, classOf: string -> string, c: string): seq<TopologyDevice> {
    Filter(devices, KeyIs(ClassKey(classOf), c))
  }

  /** How many devices of class `c` the entries ask for together. */
  function Demand(wanted: seq<GroupingDevice>, c: string): int {
    if wanted == [] then 0 else
      var last := wanted[|wanted| - 1];
      Demand(wanted[..|wanted| - 1], c) + if last.deviceClass == c then last.count else 0
  }

  ghost predicate PositiveCounts(wanted: seq<GroupingDevice>) {
    forall g :: g in wanted ==> g.count >= 1
  }

  ghost predicate DistinctClasses(wanted: seq<GroupingDevice>) {
    forall i, j :: 0 <= i < j < |wanted| ==> wanted[i].deviceClass != wanted[j].deviceClass
  }

  lemma {:induction false} DemandGrows(wanted: seq<GroupingDevice>, j: nat, c: string)
    requires PositiveCounts(wanted) && j <= |wanted|
    ensures 0 <= Demand(wanted[..j], c) <= Demand(wanted, c)
    decreases |wanted|
  {
    var n := |wanted| - 1;
    if j < |wanted| {
      assert forall g :: g in wanted[..n] ==> g in wanted;
      DemandGrows(wanted[..n], j, c);
      assert wanted[..n][..j] == wanted[..j];
      assert wanted[n] in wanted;
    } else if wanted != [] {
      assert wanted[..j] == wanted;
      assert forall g :: g in wanted[..n] ==> g in wanted;
      DemandGrows(wanted[..n], n, c);
      assert wanted[..n][..n] == wanted[..n];
      assert wanted[n] in wanted;
    }
  }

  lemma DemandStep(wanted: seq<GroupingDevice>, j: nat, c: string)
    requires j < |wanted|
    ensures Demand(wanted[..j + 1], c) == Demand(wanted[..j], c) +
      if wanted[j].deviceClass == c then wanted[j].count else 0
  {
    assert wanted[..j + 1][..j] == wanted[..j];
  }

  // ---------------------------------------------------------------------
  // How many instances
  // ---------------------------------------------------------------------

  /** The scarcest class decides; -1 when nothing is requested. */
  function MaxInstances(devices: seq<TopologyDevice>, classOf: string -> string, wanted: seq<GroupingDevice>): int
    requires PositiveCounts(wanted)
  {
    if wanted == [] then -1 else
      assert wanted[|wanted| - 1] in wanted;
      assert forall g :: g in wanted[..|wanted| - 1] ==> g in wanted;
      var last := wanted[|wanted| - 1];
      var before := MaxInstances(devices, classOf, wanted[..|wanted| - 1]);
      var possible := |Stock(devices, classOf, last.deviceClass)| / last.count;
      if before < 0 || possible < before then possible else before
  }

  function Rounds(devices: seq<TopologyDevice>, classOf: string -> string, wanted: seq<GroupingDevice>): nat
    requires PositiveCounts(wanted)
  {
    var m := MaxInstances(devices, classOf, wanted);
    if m < 0 then 0 else m
  }

  /** It is the minimum of floor(available / count) over the entries. */
  lemma {:induction false} MaxInstancesIsMin(devices: seq<TopologyDevice>, classOf: string -> string,
                                             wanted: seq<GroupingDevice>)
    requires PositiveCounts(wanted)
    ensures var m := MaxInstances(devices, classOf, wanted);
      if wanted == [] then m == -1 else
        && m >= 0
        && (forall g :: g in wanted ==> m <= |Stock(devices, classOf, g.deviceClass)| / g.count)
        && (exists g :: g in wanted && m == |Stock(devices, classOf, g.deviceClass)| / g.count)
  {
    hide Stock;
    if wanted != [] {
      var init, last := wanted[..|wanted| - 1], wanted[|wanted| - 1];
      assert last in wanted;
      assert forall g :: g in wanted <==> g in init || g == last;
      MaxInstancesIsMin(devices, classOf, init);
    }
  }

  /** All rounds together stay within every class list. */
  ghost predicate Fits(devices: seq<TopologyDevice>, classOf: string -> string, wanted: seq<GroupingDevice>,
                       rounds: nat) {
    forall c :: rounds * Demand(wanted, c) <= |Stock(devices, classOf, c)|
  }

  lemma {:induction false} DemandOfDistinct(wanted: seq<GroupingDevice>, c: string)
    requires DistinctClasses(wanted)
    ensures (forall g :: g in wanted ==> g.deviceClass != c) ==> Demand(wanted, c) == 0
    ensures forall g :: g in wanted && g.deviceClass == c ==> Demand(wanted, c) == g.count
  {
    if wanted != [] {
      var init, last := wanted[..|wanted| - 1], wanted[|wanted| - 1];
      DemandOfDistinct(init, c);
      assert forall g :: g in wanted <==> g in init || g == last;
      assert forall g :: g in init ==> g.deviceClass != last.deviceClass;
    }
  }

  lemma FloorFits(m: int, available: nat, count: int)
    requires count >= 1 && 0 <= m <= available / count
    ensures m * count <= available
  {
    assert m * count <= (available / count) * count;
  }

  /** With distinct classes no slice overruns. */
  lemma DistinctClassesFit(devices: seq<TopologyDevice>, classOf: string -> string, wanted: seq<GroupingDevice>)
    requires PositiveCounts(wanted) && DistinctClasses(wanted)
    ensures Fits(devices, classOf, wanted, Rounds(devices, classOf, wanted))
  {
    hide Stock, MaxInstances, Demand;
    var m := Rounds(devices, classOf, wanted);
    MaxInstancesIsMin(devices, classOf, wanted);
    forall c ensures m * Demand(wanted, c) <= |Stock(devices, classOf, c)| {
      DemandOfDistinct(wanted, c);
      if g :| g in wanted && g.deviceClass == c {
        FloorFits(m, |Stock(devices, classOf, c)|, g.count);
      }
    }
  }

  /** And after the last round some class cannot supply another instance. */
  lemma NoFurtherInstance(devices: seq<TopologyDevice>, classOf: string -> string, wanted: seq<GroupingDevice>)
    requires PositiveCounts(wanted) && DistinctClasses(wanted) && wanted != []
    ensures !Fits(devices, classOf, wanted, Rounds(devices, classOf, wanted) + 1)
  {
    hide Stock, MaxInstances;
    var m := Rounds(devices, classOf, wanted);
    MaxInstancesIsMin(devices, classOf, wanted);
    var g :| g in wanted && m == |Stock(devices, classOf, g.deviceClass)| / g.count;
    DemandOfDistinct(wanted, g.deviceClass);
    var available := |Stock(devices, classOf, g.deviceClass)|;
    assert (m + 1) * g.count > available;
    assert (m + 1) * Demand(wanted, g.deviceClass) > available;
  }

  // ---------------------------------------------------------------------
  // What each instance takes
  // ---------------------------------------------------------------------

  /** The cursor of class `c` before entry `j` of round `i`. */
  function Cursor(wanted: seq<GroupingDevice>, i: int, j: nat, c: string): int
    requires j <= |wanted|
  {
    i * Demand(wanted, c) + Demand(wanted[..j], c)
  }

  /** Elements from `from` (clamped) up to `to` (clamped). */
  function Slice<T>(s: seq<T>, from: int, to: int): seq<T> {
    if 0 <= from <= to <= |s| then s[from..to] else []
  }

  function EntrySlice(devices: seq<TopologyDevice>, classOf: string -> string, wanted: seq<GroupingDevice>, i: int,
                      j: nat): seq<TopologyDevice>
    requires j < |wanted|
  {
    var c := wanted[j].deviceClass;
    Slice(Stock(devices, classOf, c), Cursor(wanted, i, j, c), Cursor(wanted, i, j, c) + wanted[j].count)
  }

  /** The devices of round `i` from the first `j` entries. */
  function TakenBy(devices: seq<TopologyDevice>, classOf: string -> string, wanted: seq<GroupingDevice>, i: int,
                   j: nat): seq<TopologyDevice>
    requires j <= |wanted|
  {
    if j == 0 then [] else TakenBy(devices, classOf, wanted, i, j - 1) + EntrySlice(devices, classOf, wanted, i, j - 1)
  }

  function InstanceDevices(devices: seq<TopologyDevice>, classOf: string -> string, wanted: seq<GroupingDevice>,
                           i: int): seq<TopologyDevice> {
    TakenBy(devices, classOf, wanted, i, |wanted|)
  }

  function AllInstances(devices: seq<TopologyDevice>, classOf: string -> string, wanted: seq<GroupingDevice>,
                        n: nat): (r: seq<seq<TopologyDevice>>)
    ensures |r| == n
  {
    if n == 0 then [] else
      AllInstances(devices, classOf, wanted, n - 1) + [InstanceDevices(devices, classOf, wanted, n - 1)]
  }

  // ---------------------------------------------------------------------
  // The allocation loop
  // ---------------------------------------------------------------------

  function Read(consumed: map<string, int>, c: string): int {
    if c in consumed then consumed[c] else 0
  }

  function ListOf(byClass: map<string, seq<TopologyDevice>>, c: string): seq<TopologyDevice> {
    if c in byClass then byClass[c] else []
  }

  lemma StockLookup(devices: seq<TopologyDevice>, classOf: string -> string, c: string)
    ensures ListOf(GroupBy(devices, ClassKey(classOf)), c) == Stock(devices, classOf, c)
  {
    if c !in KeySet(devices, ClassKey(classOf)) {
      FilterNone(devices, KeyIs(ClassKey(classOf), c));
    }
  }

  /** The cursors stand where round `i`, entry `j` expects them, and inside their lists. */
  ghost predicate CursorsAt(devices: seq<TopologyDevice>, classOf: string -> string, wanted: seq<GroupingDevice>,
                            consumed: map<string, int>, i: int, j: nat)
    requires j <= |wanted|
  {
    forall c :: Read(consumed, c) == Cursor(wanted, i, j, c) <= |Stock(devices, classOf, c)|
  }

  lemma CursorStep(wanted: seq<GroupingDevice>, i: int, j: nat, c: string)
    requires j < |wanted|
    ensures Cursor(wanted, i, j + 1, c) == Cursor(wanted, i, j, c) +
      if wanted[j].deviceClass == c then wanted[j].count else 0
  {
    DemandStep(wanted, j, c);
  }

  lemma CursorWraps(wanted: seq<GroupingDevice>, i: int, c: string)
    ensures Cursor(wanted, i, |wanted|, c) == Cursor(wanted, i + 1, 0, c) == (i + 1) * Demand(wanted, c)
  {
    assert wanted[..|wanted|] == wanted && wanted[..0] == [];
  }

  /** The first overrun refutes the fit. */
  lemma OverrunMeansNoFit(devices: seq<TopologyDevice>, classOf: string -> string, wanted: seq<GroupingDevice>,
                          rounds: nat, i: nat, j: nat)
    requires PositiveCounts(wanted) && i < rounds && j < |wanted|
    requires Cursor(wanted, i, j + 1, wanted[j].deviceClass) > |Stock(devices, classOf, wanted[j].deviceClass)|
    ensures !Fits(devices, classOf, wanted, rounds)
  {
    hide Stock;
    var c := wanted[j].deviceClass;
    DemandGrows(wanted, j + 1, c);
    var d := Demand(wanted, c);
    assert Cursor(wanted, i, j + 1, c) <= i * d + d;
    assert i * d + d == (i + 1) * d <= rounds * d;
  }

  method AllocateRound(devices: seq<TopologyDevice>, classOf: string -> string, wanted: seq<GroupingDevice>,
                       byClass: map<string, seq<TopologyDevice>>, before: map<string, int>, i: nat, ghost rounds: nat)
    returns (taken: Outcome<seq<TopologyDevice>>, consumed: map<string, int>)
    requires PositiveCounts(wanted) && byClass == GroupBy(devices, ClassKey(classOf)) && i < rounds
    requires CursorsAt(devices, classOf, wanted, before, i, 0)
    ensures taken.Done? ==> taken.value == InstanceDevices(devices, classOf, wanted, i)
    ensures taken.Done? ==> CursorsAt(devices, classOf, wanted, consumed, i, |wanted|)
    ensures taken.SliceOutOfRange? ==> !Fits(devices, classOf, wanted, rounds)
  {
    hide Stock, GroupBy, Fits;
    consumed := before;
    var instanceDevices: seq<TopologyDevice> := [];
    for j := 0 to |wanted|
      invariant CursorsAt(devices, classOf, wanted, consumed, i, j)
      invariant instanceDevices == TakenBy(devices, classOf, wanted, i, j)
    {
      var c := wanted[j].deviceClass;
      assert wanted[j] in wanted;
      StockLookup(devices, classOf, c);
      var start := Read(consumed, c);
      var end := start + wanted[j].count;
      forall c' ensures Cursor(wanted, i, j + 1, c') == Cursor(wanted, i, j, c') +
        if c == c' then wanted[j].count else 0 {
        CursorStep(wanted, i, j, c');
      }
      if end > |ListOf(byClass, c)| {
        OverrunMeansNoFit(devices, classOf, wanted, rounds, i, j);
        return SliceOutOfRange, consumed;
      }
      assert 0 <= start by { CursorNonNegative(wanted, i, j, c); }
      instanceDevices := instanceDevices + ListOf(byClass, c)[start..end];
      ghost var was := consumed;
      consumed := consumed[c := end];
      forall c' ensures Read(consumed, c') == Cursor(wanted, i, j + 1, c') <= |Stock(devices, classOf, c')| {
        assert Read(was, c') == Cursor(wanted, i, j, c');
        assert Read(consumed, c') == if c == c' then end else Read(was, c');
      }
    }
    taken := Done(instanceDevices);
  }

  lemma CursorNonNegative(wanted: seq<GroupingDevice>, i: nat, j: nat, c: string)
    requires PositiveCounts(wanted) && j <= |wanted|
    ensures 0 <= Cursor(wanted, i, j, c)
  {
    DemandGrows(wanted, j, c);
    assert 0 <= i * Demand(wanted, c);
  }

  /** The instances of one alignment group: the allocation finishes exactly when all rounds fit. */
  method AllocateGroup(devices: seq<TopologyDevice>, classOf: string -> string, wanted: seq<GroupingDevice>)
    returns (result: Outcome<seq<seq<TopologyDevice>>>)
    requires PositiveCounts(wanted)
    ensures result.Done? <==> Fits(devices, classOf, wanted, Rounds(devices, classOf, wanted))
    ensures result.Done? ==> result.value == AllInstances(devices, classOf, wanted, Rounds(devices, classOf, wanted))
  {
    hide Stock, GroupBy, Fits, MaxInstances;
    var byClass := IndexByClass(devices, classOf);
    var maxInstances := ComputeMaxInstances(devices, classOf, wanted, byClass);
    if maxInstances <= 0 {
      NothingFits(devices, classOf, wanted);
      return Done([]);
    }
    var consumed: map<string, int> := map[];
    var instances: seq<seq<TopologyDevice>> := [];
    forall c ensures Cursor(wanted, 0, 0, c) == 0 { assert wanted[..0] == []; }
    for i := 0 to maxInstances
      invariant CursorsAt(devices, classOf, wanted, consumed, i, 0)
      invariant instances == AllInstances(devices, classOf, wanted, i)
    {
      var taken;
      taken, consumed := AllocateRound(devices, classOf, wanted, byClass, consumed, i, maxInstances);
      if taken.SliceOutOfRange? { return SliceOutOfRange; }
      instances := instances + [taken.value];
      forall c ensures Cursor(wanted, i, |wanted|, c) == Cursor(wanted, i + 1, 0, c) { CursorWraps(wanted, i, c); }
    }
    CursorsMeanFit(devices, classOf, wanted, consumed, maxInstances);
    result := Done(instances);
  }

  lemma CursorsMeanFit(devices: seq<TopologyDevice>, classOf: string -> string, wanted: seq<GroupingDevice>,
                       consumed: map<string, int>, n: nat)
    requires CursorsAt(devices, classOf, wanted, consumed, n, 0)
    ensures Fits(devices, classOf, wanted, n)
  {
    hide Stock;
    forall c ensures n * Demand(wanted, c) <= |Stock(devices, classOf, c)| {
      assert wanted[..0] == [];
      assert Read(consumed, c) == Cursor(wanted, n, 0, c);
    }
  }

  lemma NothingFits(devices: seq<TopologyDevice>, classOf: string -> string, wanted: seq<GroupingDevice>)
    ensures Fits(devices, classOf, wanted, 0)
  {
  }

  method IndexByClass(devices: seq<TopologyDevice>, classOf: string -> string)
    returns (byClass: map<string, seq<TopologyDevice>>)
    ensures byClass == GroupBy(devices, ClassKey(classOf))
  {
    byClass := map[];
    for i := 0 to |devices|
      invariant byClass == GroupBy(devices[..i], ClassKey(classOf))
    {
      GroupByStep(devices, i, ClassKey(classOf));
      byClass := Append(byClass, classOf(Base(devices[i])), devices[i]);
    }
    assert devices[..|devices|] == devices;
  }

  method ComputeMaxInstances(devices: seq<TopologyDevice>, classOf: string -> string, wanted: seq<GroupingDevice>,
                             byClass: map<string, seq<TopologyDevice>>) returns (maxInstances: int)
    requires PositiveCounts(wanted) && byClass == GroupBy(devices, ClassKey(classOf))
    ensures maxInstances == MaxInstances(devices, classOf, wanted)
  {
    hide Stock, GroupBy;
    maxInstances := -1;
    for j := 0 to |wanted|
      invariant forall g :: g in wanted[..j] ==> g in wanted
      invariant maxInstances == MaxInstances(devices, classOf, wanted[..j])
    {
      assert wanted[..j + 1][..j] == wanted[..j];
      assert wanted[..j + 1] == wanted[..j] + [wanted[j]];
      assert wanted[j] in wanted;
      StockLookup(devices, classOf, wanted[j].deviceClass);
      var possible := |ListOf(byClass, wanted[j].deviceClass)| / wanted[j].count;
      if maxInstances < 0 || possible < maxInstances { maxInstances := possible; }
    }
    assert wanted[..|wanted|] == wanted;
  }
}
