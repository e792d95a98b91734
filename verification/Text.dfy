/** Text as the coordinator uses it: decimal rendering of integers, the byte order of
    `sort.Strings`, and the character maps that build DNS-safe names. */
module Text {
  import opened Collections

  // ---------------------------------------------------------------------
  // Decimal rendering
  // ---------------------------------------------------------------------

  predicate IsDigit(c: char) { '0' <= c <= '9' }

  function Digits(n: nat): (s: string)
    ensures s != [] && forall c :: c in s ==> IsDigit(c)
  {
    var last := ('0' as int + n % 10) as char;
    if n < 10 then [last] else Digits(n / 10) + [last]
  }

  /** `%d` of an integer. */
  function Decimal(i: int): (s: string)
    ensures s != []
  {
    if i < 0 then "-" + Digits(-i) else Digits(i)
  }

  function ParseDigits(s: string): nat
    requires forall c :: c in s ==> IsDigit(c)
  {
    if s == [] then 0 else
      assert IsDigit(s[|s| - 1]);
      ParseDigits(s[..|s| - 1]) * 10 + (s[|s| - 1] as int - '0' as int)
  }

  lemma {:induction false} ParseOfDigits(n: nat)
    ensures ParseDigits(Digits(n)) == n
  {
    if n >= 10 {
      ParseOfDigits(n / 10);
      var d := Digits(n);
      assert d[..|d| - 1] == Digits(n / 10);
    } else {
      var d := Digits(n);
      assert d[..|d| - 1] == [];
    }
  }

  /** Distinct integers render differently. */
  lemma DecimalInjective(a: int, b: int)
    requires Decimal(a) == Decimal(b)
    ensures a == b
  {
    var da, db := Digits(if a < 0 then -a else a), Digits(if b < 0 then -b else b);
    ParseOfDigits(if a < 0 then -a else a);
    ParseOfDigits(if b < 0 then -b else b);
    assert IsDigit(da[0]) && IsDigit(db[0]);
    if a < 0 {
      assert Decimal(a)[0] == '-';
      assert Decimal(a)[1..] == da;
    }
    if b < 0 {
      assert Decimal(b)[0] == '-';
      assert Decimal(b)[1..] == db;
    }
  }

  // ---------------------------------------------------------------------
  // Order
  // ---------------------------------------------------------------------

  /** The order of `sort.Strings`. */
  predicate StringLeq(a: string, b: string) {
    a == [] || (b != [] && (a[0] < b[0] || (a[0] == b[0] && StringLeq(a[1..], b[1..]))))
  }

  lemma {:induction false} StringLeqReflexive(a: string)
    ensures StringLeq(a, a)
  {
    if a != [] { StringLeqReflexive(a[1..]); }
  }

  lemma {:induction false} StringLeqAntisymmetric(a: string, b: string)
    requires StringLeq(a, b) && StringLeq(b, a)
    ensures a == b
  {
    if a != [] && b != [] {
      StringLeqAntisymmetric(a[1..], b[1..]);
      assert a == [a[0]] + a[1..] && b == [b[0]] + b[1..];
    }
  }

  lemma {:induction false} StringLeqTransitive(a: string, b: string, c: string)
    requires StringLeq(a, b) && StringLeq(b, c)
    ensures StringLeq(a, c)
  {
    if a != [] && a[0] == b[0] == c[0] { StringLeqTransitive(a[1..], b[1..], c[1..]); }
  }

  lemma {:induction false} StringLeqTotal(a: string, b: string)
    ensures StringLeq(a, b) || StringLeq(b, a)
  {
    if a != [] && b != [] { StringLeqTotal(a[1..], b[1..]); }
  }

  lemma StringOrder()
    ensures TotalOrder(StringLeq)
  {
    forall a: string ensures StringLeq(a, a) { StringLeqReflexive(a); }
    forall a: string, b: string | StringLeq(a, b) && StringLeq(b, a) ensures a == b {
      StringLeqAntisymmetric(a, b);
    }
    forall a: string, b: string, c: string | StringLeq(a, b) && StringLeq(b, c) ensures StringLeq(a, c) {
      StringLeqTransitive(a, b, c);
    }
    forall a: string, b: string ensures StringLeq(a, b) || StringLeq(b, a) { StringLeqTotal(a, b); }
  }

  function SortedStrings(s: set<string>): (r: seq<string>)
    ensures forall x :: x in r <==> x in s
    ensures |r| == |s|
  {
    StringOrder();
    Sorted(s, StringLeq)
  }

  lemma SortedStringsAscending(s: set<string>)
    ensures Ascending(SortedStrings(s), StringLeq)
  {
    StringOrder();
    SortedAscending(s, StringLeq);
  }
}
