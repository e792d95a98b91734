/** Lists of names joined with a separator can be read back when no name contains the separator. */
module Joining {
  import opened Collections
  import opened Text
  import opened Topology
  import opened PartitionBuilder

  ghost predicate Free(parts: seq<string>, sep: char) {
    forall p :: p in parts ==> sep !in p
  }

  /** A text has one last part. */
  lemma LastPart(x: string, p: string, y: string, q: string, sep: char)
    requires sep !in p && sep !in q && x + [sep] + p == y + [sep] + q
    ensures x == y && p == q
  {
    var s, t := x + [sep] + p, y + [sep] + q;
    assert s[|x|] == sep && t[|y|] == sep;
    assert forall i :: |x| < i < |s| ==> s[i] == p[i - |x| - 1];
    assert forall i :: |y| < i < |t| ==> t[i] == q[i - |y| - 1];
    assert |x| == |y|;
    assert x == s[..|x|] && y == t[..|y|];
    assert p == s[|x| + 1..] && q == t[|y| + 1..];
  }

  lemma JoinStep(parts: seq<string>, sep: char)
    requires |parts| >= 2
    ensures JoinWith(parts, [sep]) == JoinWith(parts[..|parts| - 1], [sep]) + [sep] + parts[|parts| - 1]
  {
  }

  lemma JoinHasSeparator(parts: seq<string>, sep: char)
    requires |parts| >= 2
    ensures sep in JoinWith(parts, [sep])
  {
    var head := JoinWith(parts[..|parts| - 1], [sep]);
    JoinStep(parts, sep);
    assert JoinWith(parts, [sep])[|head|] == sep;
  }

  /** Non-empty lists without the separator are equal exactly when their joins are. */
  lemma {:induction false} JoinInjective(a: seq<string>, b: seq<string>, sep: char)
    requires a != [] && b != [] && Free(a, sep) && Free(b, sep)
    ensures JoinWith(a, [sep]) == JoinWith(b, [sep]) <==> a == b
  {
    hide JoinWith;
    if JoinWith(a, [sep]) == JoinWith(b, [sep]) {
      var p, q := a[|a| - 1], b[|b| - 1];
      assert p in a && q in b;
      JoinOne(a, sep);
      JoinOne(b, sep);
      if |a| >= 2 && |b| >= 2 {
        var x, y := a[..|a| - 1], b[..|b| - 1];
        JoinStep(a, sep);
        JoinStep(b, sep);
        LastPart(JoinWith(x, [sep]), p, JoinWith(y, [sep]), q, sep);
        JoinInjective(x, y, sep);
        assert a == x + [p] && b == y + [q];
      } else if |a| >= 2 {
        JoinHasSeparator(a, sep);
      } else if |b| >= 2 {
        JoinHasSeparator(b, sep);
      } else {
        assert a == [p] && b == [q];
      }
    }
  }

  lemma JoinOne(parts: seq<string>, sep: char)
    requires parts != []
    ensures |parts| == 1 ==> JoinWith(parts, [sep]) == parts[|parts| - 1]
  {
  }

  // ---------------------------------------------------------------------
  // Node numbers
  // ---------------------------------------------------------------------

  ghost predicate NonNegative(ns: seq<int>) {
    forall n :: n in ns ==> n >= 0
  }

  lemma DecimalsFree(ns: seq<int>)
    requires NonNegative(ns)
    ensures Free(Decimals(ns), '-')
  {
    forall p | p in Decimals(ns) ensures '-' !in p {
      var i :| 0 <= i < |ns| && p == Decimal(ns[i]);
      assert ns[i] in ns;
      assert p == Digits(ns[i]);
    }
  }

  lemma DecimalsApart(a: seq<int>, b: seq<int>)
    requires Decimals(a) == Decimals(b)
    ensures a == b
  {
    hide Decimal;
    forall i | 0 <= i < |a| ensures a[i] == b[i] {
      assert Decimals(a)[i] == Decimals(b)[i];
      DecimalInjective(a[i], b[i]);
    }
  }

  /** Joined node numbers are equal exactly when the lists are. */
  lemma JoinedNodesIff(a: seq<int>, b: seq<int>)
    requires a != [] && b != [] && NonNegative(a) && NonNegative(b)
    ensures JoinWith(Decimals(a), "-") == JoinWith(Decimals(b), "-") <==> a == b
  {
    hide JoinWith;
    DecimalsFree(a);
    DecimalsFree(b);
    JoinInjective(Decimals(a), Decimals(b), '-');
    if Decimals(a) == Decimals(b) { DecimalsApart(a, b); }
  }

  // ---------------------------------------------------------------------
  // Profiles
  // ---------------------------------------------------------------------

  /** Two nodes have one profile if and only if the same drivers are counted, given that driver names contain no
      underscore. */
  lemma SameProfileIff(a: map<string, int>, b: map<string, int>)
    requires a != map[] && b != map[]
    requires (forall d :: d in a ==> '_' !in d) && (forall d :: d in b ==> '_' !in d)
    ensures InferProfile(a) == InferProfile(b) <==> a.Keys == b.Keys
  {
    hide JoinWith, SortedStrings;
    var x, y := SortedStrings(a.Keys), SortedStrings(b.Keys);
    assert a.Keys != {} && b.Keys != {};
    JoinInjective(x, y, '_');
    if x == y { assert forall d :: d in a.Keys <==> d in x; }
  }
}
