/** Exactness of the allocator: what the instances of one alignment group hold, class by class. */
module AllocationLaws {
  import opened Collections
  import opened Topology
  import opened Allocation

  lemma StockIsOfClass(devices: seq<TopologyDevice>, classOf: string -> string, c: string)
    ensures forall d :: d in Stock(devices, classOf, c) <==> d in devices && ClassKey(classOf)(d) == c
  {
    FilterMembers(devices, KeyIs(ClassKey(classOf), c));
  }

  /** A slice of one class list is all of that class and nothing of another. */
  lemma StockSlice(devices: seq<TopologyDevice>, classOf: string -> string, c: string, c': string, from: int, to: int)
    ensures var s := Slice(Stock(devices, classOf, c), from, to);
      Filter(s, KeyIs(ClassKey(classOf), c')) == if c == c' then s else []
  {
    hide Stock;
    StockIsOfClass(devices, classOf, c);
    var s := Slice(Stock(devices, classOf, c), from, to);
    assert forall d :: d in s ==> d in Stock(devices, classOf, c);
    if c == c' {
      FilterAll(s, KeyIs(ClassKey(classOf), c'));
    } else {
      FilterNone(s, KeyIs(ClassKey(classOf), c'));
    }
  }

  lemma SliceJoin<T>(s: seq<T>, a: int, b: int, c: int)
    requires 0 <= a <= b <= c <= |s|
    ensures Slice(s, a, b) + Slice(s, b, c) == Slice(s, a, c)
  {
  }

  lemma {:induction false} RoundEnds(i: nat, rounds: nat, d: nat)
    requires i < rounds
    ensures 0 <= i * d && i * d + d <= rounds * d
    decreases rounds, i
  {
    if i > 0 {
      RoundEnds(i - 1, rounds - 1, d);
      assert i * d == (i - 1) * d + d && rounds * d == (rounds - 1) * d + d;
    } else if rounds > 1 {
      RoundEnds(0, rounds - 1, d);
      assert rounds * d == (rounds - 1) * d + d;
    }
  }

  lemma CursorInside(devices: seq<TopologyDevice>, classOf: string -> string, wanted: seq<GroupingDevice>, rounds: nat,
                     i: nat, j: nat, c: string)
    requires PositiveCounts(wanted) && Fits(devices, classOf, wanted, rounds) && i < rounds && j <= |wanted|
    ensures 0 <= i * Demand(wanted, c) <= Cursor(wanted, i, j, c) <= |Stock(devices, classOf, c)|
  {
    hide Stock, Demand;
    DemandGrows(wanted, j, c);
    RoundEnds(i, rounds, Demand(wanted, c));
  }

  /** One entry adds to a class what its cursor moves. */
  lemma EntryOfClass(devices: seq<TopologyDevice>, classOf: string -> string, wanted: seq<GroupingDevice>,
                     rounds: nat, i: nat, j: nat, c: string)
    requires PositiveCounts(wanted) && Fits(devices, classOf, wanted, rounds) && i < rounds && j < |wanted|
    ensures Filter(EntrySlice(devices, classOf, wanted, i, j), KeyIs(ClassKey(classOf), c)) ==
      Slice(Stock(devices, classOf, c), Cursor(wanted, i, j, c), Cursor(wanted, i, j + 1, c))
  {
    hide Stock, Fits, Demand, Cursor, Slice;
    var entry := wanted[j];
    var from := Cursor(wanted, i, j, entry.deviceClass);
    StockSlice(devices, classOf, entry.deviceClass, c, from, from + entry.count);
    CursorStep(wanted, i, j, c);
    if entry.deviceClass != c {
      SliceEmpty(Stock(devices, classOf, c), Cursor(wanted, i, j, c));
    }
  }

  /** Round `i` takes from class `c` the stretch that its cursor passes over. */
  lemma {:induction false} TakenOfClass(devices: seq<TopologyDevice>, classOf: string -> string,
                                        wanted: seq<GroupingDevice>,
                                        rounds: nat, i: nat, j: nat, c: string)
    requires PositiveCounts(wanted) && Fits(devices, classOf, wanted, rounds) && i < rounds && j <= |wanted|
    ensures Filter(TakenBy(devices, classOf, wanted, i, j), KeyIs(ClassKey(classOf), c)) ==
      Slice(Stock(devices, classOf, c), i * Demand(wanted, c), Cursor(wanted, i, j, c))
  {
    hide Stock, Fits, Demand, Cursor, Slice, EntrySlice;
    var base := i * Demand(wanted, c);
    if j == 0 {
      CursorStart(wanted, i, c);
      SliceEmpty(Stock(devices, classOf, c), base);
    } else {
      TakenOfClass(devices, classOf, wanted, rounds, i, j - 1, c);
      EntryOfClass(devices, classOf, wanted, rounds, i, j - 1, c);
      CursorOrder(devices, classOf, wanted, rounds, i, j - 1, c);
      FilterConcat(TakenBy(devices, classOf, wanted, i, j - 1), EntrySlice(devices, classOf, wanted, i, j - 1),
        KeyIs(ClassKey(classOf), c));
      SliceJoin(Stock(devices, classOf, c), base, Cursor(wanted, i, j - 1, c), Cursor(wanted, i, j, c));
    }
  }

  lemma CursorOrder(devices: seq<TopologyDevice>, classOf: string -> string, wanted: seq<GroupingDevice>, rounds: nat,
                    i: nat, j: nat, c: string)
    requires PositiveCounts(wanted) && Fits(devices, classOf, wanted, rounds) && i < rounds && j < |wanted|
    ensures 0 <= i * Demand(wanted, c) <= Cursor(wanted, i, j, c) <= Cursor(wanted, i, j + 1, c) <=
      |Stock(devices, classOf, c)|
  {
    hide Stock, Fits, Demand, Cursor;
    CursorInside(devices, classOf, wanted, rounds, i, j, c);
    CursorInside(devices, classOf, wanted, rounds, i, j + 1, c);
    CursorStep(wanted, i, j, c);
    assert wanted[j] in wanted;
  }

  lemma SliceLength<T>(s: seq<T>, a: int, b: int)
    requires 0 <= a <= b <= |s|
    ensures |Slice(s, a, b)| == b - a
  {
  }

  lemma CursorEnd(wanted: seq<GroupingDevice>, i: int, c: string)
    ensures Cursor(wanted, i, |wanted|, c) == i * Demand(wanted, c) + Demand(wanted, c)
  {
    assert wanted[..|wanted|] == wanted;
  }

  lemma SliceEmpty<T>(s: seq<T>, a: int)
    ensures Slice(s, a, a) == []
  {
  }

  lemma CursorStart(wanted: seq<GroupingDevice>, i: int, c: string)
    ensures Cursor(wanted, i, 0, c) == i * Demand(wanted, c)
  {
    assert wanted[..0] == [];
  }

  /** Every instance holds exactly the requested number of devices of every class. */
  lemma {:induction false} InstanceExact(devices: seq<TopologyDevice>, classOf: string -> string,
                                         wanted: seq<GroupingDevice>, rounds: nat, i: nat, c: string)
    requires PositiveCounts(wanted) && Fits(devices, classOf, wanted, rounds) && i < rounds
    ensures |Filter(InstanceDevices(devices, classOf, wanted, i), KeyIs(ClassKey(classOf), c))| == Demand(wanted, c)
  {
    hide Stock, Fits, Demand, Cursor, Slice, TakenBy;
    TakenOfClass(devices, classOf, wanted, rounds, i, |wanted|, c);
    CursorInside(devices, classOf, wanted, rounds, i, |wanted|, c);
    SliceLength(Stock(devices, classOf, c), i * Demand(wanted, c), Cursor(wanted, i, |wanted|, c));
    CursorEnd(wanted, i, c);
  }

  /** All instances together hold, of each class, a prefix of that class's devices. */
  lemma {:induction false} AllOfClass(devices: seq<TopologyDevice>, classOf: string -> string,
                                      wanted: seq<GroupingDevice>, rounds: nat, n: nat, c: string)
    requires PositiveCounts(wanted) && Fits(devices, classOf, wanted, rounds) && n <= rounds
    ensures Filter(Flatten(AllInstances(devices, classOf, wanted, n)), KeyIs(ClassKey(classOf), c)) ==
      Slice(Stock(devices, classOf, c), 0, n * Demand(wanted, c))
  {
    hide Stock, Fits, Demand, Flatten, Filter, TakenBy, Cursor;
    if n == 0 {
      NothingTaken(Stock(devices, classOf, c), KeyIs(ClassKey(classOf), c));
    } else {
      var before, last := AllInstances(devices, classOf, wanted, n - 1),
        InstanceDevices(devices, classOf, wanted, n - 1);
      AllOfClass(devices, classOf, wanted, rounds, n - 1, c);
      TakenOfClass(devices, classOf, wanted, rounds, n - 1, |wanted|, c);
      CursorWraps(wanted, n - 1, c);
      CursorInside(devices, classOf, wanted, rounds, n - 1, |wanted|, c);
      FlattenSnoc(before, last);
      FilterConcat(Flatten(before), last, KeyIs(ClassKey(classOf), c));
      SliceJoin(Stock(devices, classOf, c), 0, (n - 1) * Demand(wanted, c), n * Demand(wanted, c));
    }
  }

  lemma NothingTaken(stock: seq<TopologyDevice>, p: TopologyDevice -> bool)
    ensures Filter(Flatten([]), p) == Slice(stock, 0, 0)
  {
  }

  lemma SliceSubset<T(!new)>(s: seq<T>, from: int, to: int)
    ensures multiset(Slice(s, from, to)) <= multiset(s)
  {
    if 0 <= from <= to <= |s| {
      assert s == s[..from] + s[from..to] + s[to..];
    }
  }

  /** No device of the group is used twice. */
  lemma {:induction false} NoDoubleUse(devices: seq<TopologyDevice>, classOf: string -> string,
                                       wanted: seq<GroupingDevice>, rounds: nat)
    requires PositiveCounts(wanted) && Fits(devices, classOf, wanted, rounds)
    ensures multiset(Flatten(AllInstances(devices, classOf, wanted, rounds))) <= multiset(devices)
  {
    hide Fits, AllInstances, Flatten;
    var all := Flatten(AllInstances(devices, classOf, wanted, rounds));
    forall d ensures multiset(all)[d] <= multiset(devices)[d] {
      var c := ClassKey(classOf)(d);
      AllOfClass(devices, classOf, wanted, rounds, rounds, c);
      FilterMultiset(all, KeyIs(ClassKey(classOf), c));
      FilterMultiset(devices, KeyIs(ClassKey(classOf), c));
      SliceSubset(Stock(devices, classOf, c), 0, rounds * Demand(wanted, c));
    }
  }

  lemma {:induction false} DemandAtLeast(wanted: seq<GroupingDevice>, i: nat, j: nat, c: string)
    requires PositiveCounts(wanted) && i < j < |wanted| && wanted[i].deviceClass == c && wanted[j].deviceClass == c
    ensures Demand(wanted, c) >= wanted[i].count + wanted[j].count
  {
    DemandGrows(wanted, j + 1, c);
    DemandStep(wanted, j, c);
    var init := wanted[..j];
    assert forall g :: g in init ==> g in wanted;
    DemandGrows(init, i + 1, c);
    DemandStep(init, i, c);
    DemandGrows(init, i, c);
    assert init[..i + 1] == wanted[..i + 1];
  }

  /** An allocation overruns exactly when some class is asked for more often, over all rounds, than there are
      devices of it; so a class that is listed twice with one count overruns whenever it is the scarcest. */
  lemma RepeatedClassOverruns(devices: seq<TopologyDevice>, classOf: string -> string, wanted: seq<GroupingDevice>,
                              i: nat, j: nat)
    requires PositiveCounts(wanted) && i < j < |wanted|
    requires wanted[i].deviceClass == wanted[j].deviceClass && wanted[i].count == wanted[j].count
    requires Rounds(devices, classOf, wanted) >= 1
    requires Rounds(devices, classOf, wanted) == |Stock(devices, classOf, wanted[i].deviceClass)| / wanted[i].count
    ensures !Fits(devices, classOf, wanted, Rounds(devices, classOf, wanted))
  {
    hide Stock, MaxInstances, Demand;
    var c, n, rounds := wanted[i].deviceClass, wanted[i].count, Rounds(devices, classOf, wanted);
    var available := |Stock(devices, classOf, c)|;
    assert wanted[i] in wanted;
    DemandAtLeast(wanted, i, j, c);
    TwiceTooMuch(rounds, n, Demand(wanted, c), available);
    assert rounds * Demand(wanted, c) > available;
  }

  lemma TwiceTooMuch(rounds: nat, n: int, demand: int, available: nat)
    requires n >= 1 && demand >= 2 * n && rounds >= 1 && rounds == available / n
    ensures rounds * demand > available
  {
    assert available < (rounds + 1) * n;
    assert rounds * demand >= rounds * (2 * n) == rounds * n + rounds * n;
    assert rounds * n >= n;
  }
}
