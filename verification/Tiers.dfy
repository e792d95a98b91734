/** Tier names: an aggregate that covers 1/q of a node's PCIe roots is called after that fraction. */
module Tiers {
  import opened PartitionBuilder

  ghost predicate Divides(d: nat, n: nat) {
    exists k: nat :: k * d == n
  }

  /** `g` divides both numbers and every common divisor divides `g`. */
  ghost predicate IsGcd(g: nat, a: nat, b: nat) {
    && Divides(g, a) && Divides(g, b)
    && forall d: nat :: Divides(d, a) && Divides(d, b) ==> Divides(d, g)
  }

  // Multiplication facts, stated once so that no proof searches for them.

  lemma {:induction false} MulLeq(a: nat, b: nat, n: nat)
    requires a <= b
    ensures a * n <= b * n
    decreases n
  {
    if n > 0 {
      MulLeq(a, b, n - 1);
      assert a * n == a * (n - 1) + a && b * n == b * (n - 1) + b;
    }
  }

  lemma MulCancel(a: nat, b: nat, n: nat)
    requires n > 0 && a * n == b * n
    ensures a == b
  {
    assert (b - a) * n == b * n - a * n == 0;
  }

  lemma Quotient(n: nat, q: nat)
    requires n > 0
    ensures (q * n) / n == q
  {
    var x, r := q * n, (q * n) / n;
    assert x == r * n + x % n;
    if r < q { MulLeq(r + 1, q, n); }
    if q < r { MulLeq(q + 1, r, n); }
  }

  lemma ProductOne(k: nat, i: nat)
    requires k * i == 1
    ensures i == 1
  {
    if i >= 2 && k >= 1 { MulLeq(1, k, i); }
  }

  lemma DividesSelf(n: nat)
    ensures Divides(n, n) && Divides(n, 0)
  {
    assert 1 * n == n && 0 * n == 0;
  }

  lemma DividesSum(d: nat, a: nat, b: nat)
    requires Divides(d, a) && Divides(d, b)
    ensures Divides(d, a + b)
  {
    var i: nat, j: nat :| i * d == a && j * d == b;
    assert (i + j) * d == a + b;
  }

  lemma DividesMultiple(d: nat, a: nat, q: nat)
    requires Divides(d, a)
    ensures Divides(d, q * a)
  {
    var i: nat :| i * d == a;
    assert (q * i) * d == q * (i * d);
  }

  lemma DividesDifference(d: nat, a: nat, b: nat)
    requires a >= b && Divides(d, a) && Divides(d, b)
    ensures Divides(d, a - b)
  {
    var i: nat, j: nat :| i * d == a && j * d == b;
    if i < j {
      MulLeq(i, j, d);
      assert 0 * d == a - b;
    } else {
      assert (i - j) * d == i * d - j * d;
    }
  }

  /** One step of Euclid's algorithm keeps the common divisors. */
  lemma EuclidStep(d: nat, a: nat, b: nat)
    requires b > 0
    ensures Divides(d, a) && Divides(d, b) <==> Divides(d, b) && Divides(d, a % b)
  {
    var q := a / b;
    assert a == q * b + a % b;
    if Divides(d, b) {
      DividesMultiple(d, b, q);
      if Divides(d, a) { DividesDifference(d, a, q * b); }
      if Divides(d, a % b) { DividesSum(d, q * b, a % b); }
    }
  }

  method Gcd(a0: nat, b0: nat) returns (g: nat)
    ensures IsGcd(g, a0, b0)
  {
    var a, b := a0, b0;
    while b != 0
      invariant forall d: nat :: Divides(d, a0) && Divides(d, b0) <==> Divides(d, a) && Divides(d, b)
      decreases b
    {
      forall d: nat ensures Divides(d, a) && Divides(d, b) <==>
        Divides(d, b) && Divides(d, a % b) { EuclidStep(d, a, b); }
      a, b := b, a % b;
    }
    DividesSelf(a);
    forall d: nat | Divides(d, a0) && Divides(d, b0) ensures Divides(d, a) {}
    g := a;
  }

  // ---------------------------------------------------------------------
  // Names
  // ---------------------------------------------------------------------

  /** The name of the fraction 1/q. */
  function UnitFractionName(q: nat): string {
    if q == 16 then "sixteenth" else if q == 12 then "twelfth" else if q == 8 then "eighth" else if q == 6 then "sixth"
    else if q == 4 then "quarter" else if q == 3 then "third" else if q == 2 then "half"
    else if q == 1 then "full" else ""
  }

  /** The fraction table has entries for numerator 1 only. */
  function FractionName(n: nat, d: nat): string {
    if n == 1 then UnitFractionName(d) else ""
  }

  /** The tier name of n/d: named exactly when n divides d and the quotient is in the table. */
  ghost function TierOf(n: nat, d: nat): string {
    if n > 0 && d > 0 && Divides(n, d) then UnitFractionName(d / n) else ""
  }

  lemma PositiveFactors(a: nat, b: nat)
    requires a * b > 0
    ensures a > 0 && b > 0
  {
  }

  /** Reducing by the greatest common divisor leaves numerator 1 exactly when the numerator divides. */
  lemma ReducedName(n: nat, d: nat, g: nat)
    requires n > 0 && d > 0 && IsGcd(g, n, d)
    ensures g > 0 && FractionName(n / g, d / g) == TierOf(n, d)
  {
    var i: nat, j: nat :| i * g == n && j * g == d;
    PositiveFactors(i, g);
    Quotient(g, i);
    Quotient(g, j);
    if i == 1 {
      assert j * n == d;
    } else if Divides(n, d) {
      DividesSelf(n);
      var k: nat :| k * n == g;
      assert (k * i) * g == k * (i * g) == 1 * g;
      MulCancel(k * i, 1, g);
      ProductOne(k, i);
    }
  }

  method FractionToTierName(numerator: nat, denominator: nat) returns (name: string)
    ensures name == TierOf(numerator, denominator)
  {
    hide IsGcd, Divides, TierOf, FractionName;
    if denominator == 0 || numerator == 0 {
      NoTier(numerator, denominator);
      return "";
    }
    var g := Gcd(numerator, denominator);
    ReducedName(numerator, denominator, g);
    name := FractionName(numerator / g, denominator / g);
  }

  lemma NoTier(n: nat, d: nat)
    requires n == 0 || d == 0
    ensures TierOf(n, d) == ""
  {
  }

  /** A tier name exists exactly for quotients 1, 2, 3, 4, 6, 8, 12 and 16. */
  lemma TierNamedIff(n: nat, d: nat)
    requires n > 0 && d > 0
    ensures TierOf(n, d) != "" <==> Divides(n, d) && d / n in {1, 2, 3, 4, 6, 8, 12, 16}
  {
    var q := d / n;
    assert UnitFractionName(q) != "" <==> q in {1, 2, 3, 4, 6, 8, 12, 16} by {
      assert |"full"| == 4 && |"half"| == 4 && |"third"| == 5 && |"quarter"| == 7 && |"sixth"| == 5 && |"eighth"| == 6;
      assert |"twelfth"| == 7 && |"sixteenth"| == 9;
    }
  }

  /** The names of the parts of a node. */
  lemma TierTable(n: nat)
    requires n > 0
    ensures TierOf(n, n) == "full" && TierOf(n, 2 * n) == "half" && TierOf(n, 3 * n) == "third"
    ensures TierOf(n, 4 * n) == "quarter" && TierOf(n, 6 * n) == "sixth" && TierOf(n, 8 * n) == "eighth"
    ensures TierOf(n, 12 * n) == "twelfth" && TierOf(n, 16 * n) == "sixteenth"
  {
    forall q: nat ensures Divides(n, q * n) && (q * n) / n == q { Quotient(n, q); }
    assert 1 * n == n;
  }

  /** Scaling numerator and denominator changes nothing. */
  lemma TierScales(n: nat, d: nat, k: nat)
    requires n > 0 && d > 0 && k > 0
    ensures TierOf(k * n, k * d) == TierOf(n, d)
  {
    MulLeq(1, k, n);
    MulLeq(1, k, d);
    if Divides(n, d) {
      var q: nat :| q * n == d;
      assert q * (k * n) == k * (q * n);
      Quotient(n, q);
      Quotient(k * n, q);
    } else if Divides(k * n, k * d) {
      Unscale(n, d, k);
    }
  }

  lemma Unscale(n: nat, d: nat, k: nat)
    requires k > 0 && Divides(k * n, k * d)
    ensures Divides(n, d)
  {
    var q: nat :| q * (k * n) == k * d;
    assert (q * n) * k == d * k;
    MulCancel(q * n, d, k);
  }

  // ---------------------------------------------------------------------
  // The tier of an aggregate
  // ---------------------------------------------------------------------

  function TypeName(t: PartitionType): string {
    match t
    case PcieRootPartition => "pcieroot"
    case NumaPartition => "numa"
    case FullPartition => "full"
  }

  /** The tier of an aggregate: its representative names no NUMA node, so a NUMA aggregate stands for
      rootCount / count roots.  The whole node has no tier. */
  ghost function AggregateTier(partType: PartitionType, count: nat, rootCount: nat): string
    requires count > 0
  {
    var tier := TierOf(if partType.PcieRootPartition? then 1 else rootCount / count, rootCount);
    if partType.FullPartition? || tier in {"full", TypeName(partType)} then "" else tier
  }

  method ComputeTierName(partType: PartitionType, count: nat, rootCount: nat) returns (name: string)
    requires count > 0
    ensures name == AggregateTier(partType, count, rootCount)
  {
    var rootsInPartition: nat;
    match partType {
      case PcieRootPartition => rootsInPartition := 1;
      case NumaPartition => rootsInPartition := rootCount / count;
      case FullPartition => return "";
    }
    name := FractionToTierName(rootsInPartition, rootCount);
    if name == "" || name == "full" || name == TypeName(partType) { return ""; }
  }

  /** M >= 2 NUMA partitions that share R roots evenly are each 1/M of the node. */
  lemma NumaTierIsUnitFraction(m: nat, r: nat)
    requires m >= 2 && r > 0 && Divides(m, r)
    ensures TierOf(r / m, r) == UnitFractionName(m)
  {
    var q: nat :| q * m == r;
    Quotient(m, q);
    PositiveFactors(q, m);
    assert m * q == r;
    assert Divides(q, r);
    Quotient(q, m);
  }

  /** A root of N >= 2 is 1/N of the node. */
  lemma RootTierIs(count: nat, n: nat)
    requires count > 0 && n >= 2
    ensures AggregateTier(PcieRootPartition, count, n) == UnitFractionName(n)
  {
    assert n * 1 == n;
    assert Divides(1, n) && n / 1 == n;
    TierIsNoType(n);
  }

  lemma UnitNamesApart(a: nat, b: nat)
    requires UnitFractionName(a) == UnitFractionName(b) != ""
    ensures a == b
  {
    assert |"full"| == 4 && |"half"| == 4 && |"third"| == 5 && |"quarter"| == 7 && |"sixth"| == 5 && |"eighth"| == 6;
    assert |"twelfth"| == 7 && |"sixteenth"| == 9 && "full"[0] == 'f' && "half"[0] == 'h' && "third"[0] == 't';
    assert "sixth"[0] == 's' && "quarter"[0] == 'q' && "twelfth"[0] == 't';
  }

  /** If the table has a name for 1/M, a NUMA aggregate is given that name exactly when M divides R. */
  lemma NumaTierIff(m: nat, r: nat)
    requires m >= 2 && r > 0 && UnitFractionName(m) != ""
    ensures TierOf(r / m, r) == UnitFractionName(m) <==> Divides(m, r)
  {
    hide UnitFractionName;
    if Divides(m, r) { NumaTierIsUnitFraction(m, r); }
    if TierOf(r / m, r) == UnitFractionName(m) {
      var n := r / m;
      UnitNamesApart(r / n, m);
      var q: nat :| q * n == r;
      Quotient(n, q);
      assert n * m == r;
    }
  }

  /** With two or more NUMA partitions the tier is never the whole node. */
  lemma NumaTierIsProper(m: nat, r: nat)
    requires m >= 2 && r > 0
    ensures TierOf(r / m, r) !in {"full", TypeName(NumaPartition)}
  {
    hide UnitFractionName;
    var n := r / m;
    ProperPart(m, r);
    if n > 0 && Divides(n, r) {
      var q: nat :| q * n == r;
      Quotient(n, q);
      TierIsNoType(q);
    }
  }

  lemma ProperPart(m: nat, r: nat)
    requires m >= 2 && r > 0
    ensures r / m < r
  {
    MulLeq(2, m, r / m);
  }

  lemma TierIsNoType(q: nat)
    requires q != 1
    ensures UnitFractionName(q) !in {"full", TypeName(NumaPartition), TypeName(PcieRootPartition)}
  {
    var n := UnitFractionName(q);
    assert n == "" || n[0] in {'s', 't', 'e', 'q', 'h'};
    assert "full"[0] == 'f' && "numa"[0] == 'n' && "pcieroot"[0] == 'p';
  }
}
