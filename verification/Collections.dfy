/** Sequence and map facts shared by the rest of the model: order-preserving filters,
    grouping by a key, sums, and sorted enumerations of finite sets. */
module Collections {

  datatype Option<+T> = None | Some(value: T)

  // ---------------------------------------------------------------------
  // Filters
  // ---------------------------------------------------------------------

  /** The elements of `s` that satisfy `p`, in order. */
  function Filter<T>(s: seq<T>, p: T -> bool): seq<T> {
    if s == [] then [] else
      Filter(s[..|s| - 1], p) + if p(s[|s| - 1]) then [s[|s| - 1]] else []
  }

  lemma {:induction false} FilterMembers<T(!new)>(s: seq<T>, p: T -> bool)
    ensures forall x :: x in Filter(s, p) <==> x in s && p(x)
    ensures |Filter(s, p)| <= |s|
  {
    if s != [] {
      FilterMembers(s[..|s| - 1], p);
      assert s == s[..|s| - 1] + [s[|s| - 1]];
    }
  }

  lemma FilterStep<T>(s: seq<T>, i: nat, p: T -> bool)
    requires i < |s|
    ensures Filter(s[..i + 1], p) == Filter(s[..i], p) + if p(s[i]) then [s[i]] else []
  {
    assert s[..i + 1][..i] == s[..i];
  }

  lemma {:induction false} FilterSame<T(!new)>(s: seq<T>, p: T -> bool, q: T -> bool)
    requires forall x :: x in s ==> p(x) == q(x)
    ensures Filter(s, p) == Filter(s, q)
  {
    if s != [] { FilterSame(s[..|s| - 1], p, q); }
  }

  lemma {:induction false} FilterAll<T(!new)>(s: seq<T>, p: T -> bool)
    requires forall x :: x in s ==> p(x)
    ensures Filter(s, p) == s
  {
    if s != [] {
      FilterAll(s[..|s| - 1], p);
      assert s == s[..|s| - 1] + [s[|s| - 1]];
    }
  }

  lemma {:induction false} FilterNone<T(!new)>(s: seq<T>, p: T -> bool)
    requires forall x :: x in s ==> !p(x)
    ensures Filter(s, p) == []
  {
    if s != [] { FilterNone(s[..|s| - 1], p); }
  }

  lemma FilterSnoc<T>(s: seq<T>, x: T, p: T -> bool)
    ensures Filter(s + [x], p) == Filter(s, p) + if p(x) then [x] else []
  {
    assert (s + [x])[..|s|] == s;
  }

  /** Filtering twice is filtering by the conjunction. */
  lemma {:induction false} FilterTwice<T(!new)>(s: seq<T>, p: T -> bool, q: T -> bool, both: T -> bool)
    requires forall x :: x in s ==> both(x) == (p(x) && q(x))
    ensures Filter(Filter(s, p), q) == Filter(s, both)
  {
    if s != [] {
      var init, last := s[..|s| - 1], s[|s| - 1];
      assert last in s;
      FilterTwice(init, p, q, both);
      FilterSnoc(Filter(init, p), last, q);
      assert Filter(s, p) == if p(last) then Filter(init, p) + [last] else Filter(init, p);
    }
  }

  lemma {:induction false} FilterConcat<T(!new)>(s: seq<T>, t: seq<T>, p: T -> bool)
    ensures Filter(s + t, p) == Filter(s, p) + Filter(t, p)
  {
    if t == [] {
      assert s + t == s;
    } else {
      var init, last := t[..|t| - 1], t[|t| - 1];
      FilterConcat(s, init, p);
      FilterSnoc(s + init, last, p);
      assert s + t == (s + init) + [last];
    }
  }

  lemma {:induction false} FilterMultiset<T(!new)>(s: seq<T>, p: T -> bool)
    ensures forall x :: multiset(Filter(s, p))[x] == if p(x) then multiset(s)[x] else 0
  {
    if s != [] {
      FilterMultiset(s[..|s| - 1], p);
      assert s == s[..|s| - 1] + [s[|s| - 1]];
    }
  }

  /** A filter keeps as many elements of a list as of any reordering of it. */
  lemma FilterPermutation<T(!new)>(s: seq<T>, t: seq<T>, p: T -> bool)
    requires multiset(s) == multiset(t)
    ensures multiset(Filter(s, p)) == multiset(Filter(t, p))
    ensures |Filter(s, p)| == |Filter(t, p)|
  {
    FilterMultiset(s, p);
    FilterMultiset(t, p);
    assert multiset(Filter(s, p)) == multiset(Filter(t, p));
    assert |multiset(Filter(s, p))| == |multiset(Filter(t, p))|;
  }

  /** Disjoint conditions add up. */
  lemma {:induction false} FilterEither<T(!new)>(s: seq<T>, p: T -> bool, q: T -> bool, either: T -> bool)
    requires forall x :: x in s ==> either(x) == (p(x) || q(x)) && !(p(x) && q(x))
    ensures |Filter(s, either)| == |Filter(s, p)| + |Filter(s, q)|
  {
    if s != [] {
      var init := s[..|s| - 1];
      assert s[|s| - 1] in s;
      FilterEither(init, p, q, either);
    }
  }

  /** A part of a list has no more elements of any kind than the list. */
  lemma FilterSubset<T(!new)>(s: seq<T>, t: seq<T>, p: T -> bool)
    requires multiset(s) <= multiset(t)
    ensures |Filter(s, p)| <= |Filter(t, p)|
  {
    FilterMultiset(s, p);
    FilterMultiset(t, p);
    var a, b := multiset(Filter(s, p)), multiset(Filter(t, p));
    assert a <= b;
    assert b == a + (b - a);
  }

  lemma SubsetSize<T>(a: set<T>, b: set<T>)
    requires a <= b
    ensures |a| <= |b|
  {
    assert b == a + (b - a);
  }

  lemma PermutationMembers<T(!new)>(s: seq<T>, t: seq<T>)
    requires multiset(s) == multiset(t)
    ensures forall x :: x in s <==> x in t
  {
    forall x ensures x in s <==> x in t {
      assert x in s <==> x in multiset(s);
      assert x in t <==> x in multiset(t);
    }
  }

  // ---------------------------------------------------------------------
  // Grouping by a key
  // ---------------------------------------------------------------------

  function KeyIs<T(!new), K(==,!new)>(key: T -> K, k: K): T -> bool {
    x => key(x) == k
  }

  function KeySet<T(==,!new), K(==,!new)>(s: seq<T>, key: T -> K): set<K> {
    set x | x in s :: key(x)
  }

  /** The group of every key that occurs, each in list order. */
  function GroupBy<T(==,!new), K(==,!new)>(s: seq<T>, key: T -> K): map<K, seq<T>> {
    map k | k in KeySet(s, key) :: Filter(s, KeyIs(key, k))
  }

  /** `groups[k] = append(groups[k], x)` on a map whose missing entries read as empty. */
  function Append<T(==,!new), K(==,!new)>(groups: map<K, seq<T>>, k: K, x: T): map<K, seq<T>> {
    groups[k := (if k in groups then groups[k] else []) + [x]]
  }

  lemma GroupByStep<T(!new), K(!new)>(s: seq<T>, i: nat, key: T -> K)
    requires i < |s|
    ensures GroupBy(s[..i + 1], key) == Append(GroupBy(s[..i], key), key(s[i]), s[i])
  {
    var before, after := GroupBy(s[..i], key), GroupBy(s[..i + 1], key);
    var k0 := key(s[i]);
    assert s[..i + 1] == s[..i] + [s[i]];
    assert KeySet(s[..i + 1], key) == KeySet(s[..i], key) + {k0};
    forall k | k in after.Keys
      ensures after[k] == Append(before, k0, s[i])[k]
    {
      FilterStep(s, i, KeyIs(key, k));
      if k == k0 && k !in before {
        FilterNone(s[..i], KeyIs(key, k));
      }
    }
    assert after.Keys == Append(before, k0, s[i]).Keys;
  }

  // ---------------------------------------------------------------------
  // Lists without repetition
  // ---------------------------------------------------------------------

  ghost predicate Distinct<T>(s: seq<T>) {
    forall i, j :: 0 <= i < j < |s| ==> s[i] != s[j]
  }

  /** `list` holds every member of `s` once, in some order. */
  ghost predicate ListsSet<T(!new)>(list: seq<T>, s: set<T>) {
    |list| == |s| && forall x :: x in list <==> x in s
  }

  lemma {:induction false} MembersBound<T(!new)>(list: seq<T>)
    ensures |(set x | x in list)| <= |list|
  {
    if list != [] {
      var init, last := list[..|list| - 1], list[|list| - 1];
      assert list == init + [last];
      MembersBound(init);
      assert (set x | x in list) == (set x | x in init) + {last};
    }
  }

  lemma {:induction false} DistinctBySize<T(!new)>(list: seq<T>)
    requires |list| == |(set x | x in list)|
    ensures Distinct(list)
  {
    if list != [] {
      var init, last := list[..|list| - 1], list[|list| - 1];
      assert list == init + [last];
      var all, before := (set x | x in list), (set x | x in init);
      assert all == before + {last};
      MembersBound(init);
      assert last !in before;
      DistinctBySize(init);
    }
  }

  lemma ListDistinct<T(!new)>(list: seq<T>, s: set<T>)
    requires ListsSet(list, s)
    ensures Distinct(list)
  {
    assert (set x | x in list) == s;
    DistinctBySize(list);
  }

  function Image<K(!new), V>(s: set<K>, f: K -> V): set<V> {
    set x | x in s :: f(x)
  }

  /** An injective function keeps the size. */
  lemma {:induction false} ImageSize<K(!new), V(!new)>(s: set<K>, f: K -> V)
    requires forall x, y :: x in s && y in s && f(x) == f(y) ==> x == y
    ensures |Image(s, f)| == |s|
    decreases |s|
  {
    if s == {} {
      assert Image(s, f) == {};
    } else {
      var x :| x in s;
      ImageSize(s - {x}, f);
      assert Image(s, f) == Image(s - {x}, f) + {f(x)};
    }
  }

  // ---------------------------------------------------------------------
  // Concatenation
  // ---------------------------------------------------------------------

  function Flatten<T>(ss: seq<seq<T>>): seq<T> {
    if ss == [] then [] else Flatten(ss[..|ss| - 1]) + ss[|ss| - 1]
  }

  lemma {:induction false} FlattenConcat<T>(a: seq<seq<T>>, b: seq<seq<T>>)
    ensures Flatten(a + b) == Flatten(a) + Flatten(b)
  {
    if b == [] {
      assert a + b == a;
    } else {
      var init, last := b[..|b| - 1], b[|b| - 1];
      FlattenConcat(a, init);
      assert (a + b)[..|a + b| - 1] == a + init;
    }
  }

  lemma {:induction false} FlattenMembers<T(!new)>(ss: seq<seq<T>>)
    ensures forall x :: x in Flatten(ss) <==> exists i :: 0 <= i < |ss| && x in ss[i]
  {
    if ss != [] {
      var init := ss[..|ss| - 1];
      FlattenMembers(init);
      forall x ensures x in Flatten(ss) <==> exists i :: 0 <= i < |ss| && x in ss[i] {
        if x in Flatten(init) {
          var i :| 0 <= i < |init| && x in init[i];
          assert x in ss[i];
        }
        assert forall i :: 0 <= i < |init| ==> init[i] == ss[i];
      }
    }
  }

  lemma FlattenSnoc<T>(ss: seq<seq<T>>, last: seq<T>)
    ensures Flatten(ss + [last]) == Flatten(ss) + last
  {
    assert (ss + [last])[..|ss|] == ss;
  }

  lemma FlattenStep<T>(ss: seq<seq<T>>, i: nat)
    requires i < |ss|
    ensures Flatten(ss[..i + 1]) == Flatten(ss[..i]) + ss[i]
  {
    assert ss[..i + 1][..i] == ss[..i];
  }

  // ---------------------------------------------------------------------
  // Sums
  // ---------------------------------------------------------------------

  function Sum(s: seq<int>): int {
    if s == [] then 0 else Sum(s[..|s| - 1]) + s[|s| - 1]
  }

  lemma {:induction false} SumConcat(s: seq<int>, t: seq<int>)
    ensures Sum(s + t) == Sum(s) + Sum(t)
  {
    if t == [] {
      assert s + t == s;
    } else {
      SumConcat(s, t[..|t| - 1]);
      assert (s + t)[..|s + t| - 1] == s + t[..|t| - 1];
    }
  }

  lemma SumStep(s: seq<int>, i: nat)
    requires i < |s|
    ensures Sum(s[..i + 1]) == Sum(s[..i]) + s[i]
  {
    assert s[..i + 1][..i] == s[..i];
  }

  /** The sum of `f` over a finite set. */
  ghost function SumSet<K>(s: set<K>, f: K -> int): int {
    if s == {} then 0 else
      var k :| k in s;
      f(k) + SumSet(s - {k}, f)
  }

  /** Any element can be taken out first. */
  lemma {:induction false} SumSetRemove<K>(s: set<K>, f: K -> int, k: K)
    requires k in s
    ensures SumSet(s, f) == f(k) + SumSet(s - {k}, f)
    decreases |s|
  {
    var j :| j in s && SumSet(s, f) == f(j) + SumSet(s - {j}, f);
    if j != k {
      SumSetRemove(s - {j}, f, k);
      SumSetRemove(s - {k}, f, j);
      assert s - {j} - {k} == s - {k} - {j};
    }
  }

  lemma {:induction false} SumSetSame<K(!new)>(s: set<K>, f: K -> int, g: K -> int)
    requires forall k :: k in s ==> f(k) == g(k)
    ensures SumSet(s, f) == SumSet(s, g)
    decreases |s|
  {
    if s != {} {
      var k :| k in s;
      SumSetRemove(s, f, k);
      SumSetRemove(s, g, k);
      SumSetSame(s - {k}, f, g);
    }
  }

  // ---------------------------------------------------------------------
  // Sorted enumeration of a finite set
  // ---------------------------------------------------------------------

  ghost predicate TotalOrder<T(!new)>(leq: (T, T) -> bool) {
    && (forall x :: leq(x, x))
    && (forall x, y :: leq(x, y) && leq(y, x) ==> x == y)
    && (forall x, y, z :: leq(x, y) && leq(y, z) ==> leq(x, z))
    && (forall x, y :: leq(x, y) || leq(y, x))
  }

  predicate IsLeast<T(==)>(m: T, s: set<T>, leq: (T, T) -> bool) {
    m in s && forall x | x in s :: leq(m, x)
  }

  lemma {:induction false} LeastExists<T(!new)>(s: set<T>, leq: (T, T) -> bool)
    requires TotalOrder(leq) && s != {}
    ensures exists m :: IsLeast(m, s, leq)
    decreases |s|
  {
    var a :| a in s;
    var rest := s - {a};
    if rest == {} {
      assert s == {a};
      assert IsLeast(a, s, leq);
    } else {
      LeastExists(rest, leq);
      var b :| IsLeast(b, rest, leq);
      assert IsLeast(if leq(a, b) then a else b, s, leq);
    }
  }

  ghost predicate Ascending<T(!new)>(r: seq<T>, leq: (T, T) -> bool) {
    forall i, j :: 0 <= i < j < |r| ==> leq(r[i], r[j]) && r[i] != r[j]
  }

  /** The members of `s` in ascending order: collecting a Go map's keys and sorting them. */
  function Sorted<T(==,!new)>(s: set<T>, leq: (T, T) -> bool): (r: seq<T>)
    requires TotalOrder(leq)
    ensures forall x :: x in r <==> x in s
    ensures |r| == |s|
    decreases |s|
  {
    if s == {} then [] else
      LeastExists(s, leq);
      var m :| IsLeast(m, s, leq);
      [m] + Sorted(s - {m}, leq)
  }

  lemma {:induction false} SortedAscending<T(!new)>(s: set<T>, leq: (T, T) -> bool)
    requires TotalOrder(leq)
    ensures Ascending(Sorted(s, leq), leq)
    decreases |s|
  {
    if s != {} {
      LeastExists(s, leq);
      var r := Sorted(s, leq);
      assert IsLeast(r[0], s, leq) && r[1..] == Sorted(s - {r[0]}, leq);
      SortedAscending(s - {r[0]}, leq);
      forall i, j | 0 <= i < j < |r| ensures leq(r[i], r[j]) && r[i] != r[j] {
        assert r[j] == r[1..][j - 1];
        if i > 0 { assert r[i] == r[1..][i - 1]; }
      }
    }
  }

  /** Ascending sequences with the same members are equal. */
  lemma {:induction false} AscendingUnique<T(!new)>(r: seq<T>, t: seq<T>, leq: (T, T) -> bool)
    requires TotalOrder(leq)
    requires Ascending(r, leq) && Ascending(t, leq)
    requires forall x :: x in r <==> x in t
    ensures r == t
  {
    assert forall i :: 0 <= i < |r| ==> r[i] in t;
    assert forall i :: 0 <= i < |t| ==> t[i] in r;
    if r != [] && t != [] {
      assert r[0] in t;
      assert t[0] in r;
      assert leq(r[0], t[0]) && leq(t[0], r[0]);
      assert r[0] == t[0];
      forall x ensures x in r[1..] <==> x in t[1..] {
        assert x in r <==> x == r[0] || x in r[1..];
        assert x in t <==> x == t[0] || x in t[1..];
        assert r[0] !in r[1..];
        assert t[0] !in t[1..];
      }
      AscendingUnique(r[1..], t[1..], leq);
      assert r == [r[0]] + r[1..];
      assert t == [t[0]] + t[1..];
    }
  }
}
