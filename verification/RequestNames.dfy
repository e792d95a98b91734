/** Names of generated device requests: a prefix per instance and a DNS-safe token per device class. */
module RequestNames {
  import opened Collections
  import opened Text

  predicate IsTokenChar(c: char) {
    'a' <= c <= 'z' || '0' <= c <= '9' || c == '-'
  }

  function TokenChar(c: char): char {
    if IsTokenChar(c) then c
    else if 'A' <= c <= 'Z' then (c as int + 32) as char
    else '-'
  }

  function TokenChars(s: string): string {
    seq(|s|, i requires 0 <= i < |s| => TokenChar(s[i]))
  }

  predicate HasDouble(s: string) {
    exists i :: 0 <= i < |s| && DoubleAt(s, i)
  }

  predicate DoubleAt(s: string, i: int) {
    0 <= i < |s| - 1 && s[i] == '-' && s[i + 1] == '-'
  }

  /** One left-to-right pass that replaces "--" by "-". */
  function ReplaceDoubles(s: string): string {
    if |s| < 2 then s
    else if s[0] == '-' && s[1] == '-' then "-" + ReplaceDoubles(s[2..])
    else [s[0]] + ReplaceDoubles(s[1..])
  }

  /** Every run of dashes becomes one dash. */
  function Collapse(s: string): string {
    if |s| < 2 then s
    else if s[0] == '-' && s[1] == '-' then Collapse(s[1..])
    else [s[0]] + Collapse(s[1..])
  }

  function TrimLeft(s: string): string {
    if s != [] && s[0] == '-' then TrimLeft(s[1..]) else s
  }

  function TrimRight(s: string): string {
    if s != [] && s[|s| - 1] == '-' then TrimRight(s[..|s| - 1]) else s
  }

  function OrSub(s: string): string {
    if s == "" then "sub" else s
  }

  function Token(name: string): string {
    OrSub(TrimRight(TrimLeft(Collapse(TokenChars(name)))))
  }

  // ---------------------------------------------------------------------
  // Collapsing
  // ---------------------------------------------------------------------

  lemma CollapseCons(c: char, t: string)
    ensures Collapse([c] + t) == if c == '-' && t != [] && t[0] == '-' then Collapse(t) else [c] + Collapse(t)
  {
    assert ([c] + t)[1..] == t;
  }

  lemma {:induction false} PassKeepsCollapse(s: string)
    ensures Collapse(ReplaceDoubles(s)) == Collapse(s)
    ensures s != [] ==> ReplaceDoubles(s) != [] && ReplaceDoubles(s)[0] == s[0]
  {
    if |s| >= 2 {
      if s[0] == '-' && s[1] == '-' {
        PassKeepsCollapse(s[2..]);
        CollapseCons('-', ReplaceDoubles(s[2..]));
        CollapseCons('-', s[2..]);
        assert s[1..] == ['-'] + s[2..];
      } else {
        PassKeepsCollapse(s[1..]);
        CollapseCons(s[0], ReplaceDoubles(s[1..]));
      }
    }
  }

  lemma {:induction false} PassShortens(s: string)
    ensures |ReplaceDoubles(s)| <= |s|
    ensures HasDouble(s) ==> |ReplaceDoubles(s)| < |s|
  {
    if |s| >= 2 {
      if s[0] == '-' && s[1] == '-' {
        PassShortens(s[2..]);
      } else {
        PassShortens(s[1..]);
        if HasDouble(s) {
          var i :| 0 <= i < |s| && DoubleAt(s, i);
          assert i > 0;
          assert DoubleAt(s[1..], i - 1);
        }
      }
    }
  }

  lemma {:induction false} CollapsedIsSingle(s: string)
    ensures !HasDouble(Collapse(s))
    ensures s != [] ==> Collapse(s) != [] && Collapse(s)[0] == s[0]
    ensures forall c :: c in Collapse(s) ==> c in s
  {
    if |s| >= 2 {
      CollapsedIsSingle(s[1..]);
      var t := Collapse(s[1..]);
      if !(s[0] == '-' && s[1] == '-') {
        forall i ensures !DoubleAt([s[0]] + t, i) {
          if i > 0 { assert !DoubleAt(t, i - 1); }
        }
      }
    }
  }

  lemma {:induction false} SingleIsCollapsed(s: string)
    requires !HasDouble(s)
    ensures Collapse(s) == s
  {
    if |s| >= 2 {
      assert !DoubleAt(s, 0);
      forall i ensures !DoubleAt(s[1..], i) {
        assert !DoubleAt(s, i + 1);
      }
      SingleIsCollapsed(s[1..]);
    }
  }

  method SanitizeDeviceClassName(name: string) returns (sanitized: string)
    ensures sanitized == Token(name)
  {
    hide TokenChars;
    sanitized := TokenChars(name);
    while HasDouble(sanitized)
      invariant Collapse(sanitized) == Collapse(TokenChars(name))
      decreases |sanitized|
    {
      PassKeepsCollapse(sanitized);
      PassShortens(sanitized);
      sanitized := ReplaceDoubles(sanitized);
    }
    SingleIsCollapsed(sanitized);
    sanitized := TrimRight(TrimLeft(sanitized));
    if sanitized == "" { sanitized := "sub"; }
  }

  // ---------------------------------------------------------------------
  // The shape of a token
  // ---------------------------------------------------------------------

  /** A DNS-safe label: no dash at either end, no two dashes in a row. */
  ghost predicate IsToken(s: string) {
    && s != [] && s[0] != '-' && s[|s| - 1] != '-' && !HasDouble(s)
    && forall c :: c in s ==> IsTokenChar(c)
  }

  lemma {:induction false} TrimLeftKeeps(s: string)
    ensures var t := TrimLeft(s); |t| <= |s| && t == s[|s| - |t|..] && (t != [] ==> t[0] != '-')
  {
    if s != [] && s[0] == '-' { TrimLeftKeeps(s[1..]); }
  }

  lemma {:induction false} TrimRightKeeps(s: string)
    ensures var t := TrimRight(s); t <= s && (t != [] ==> t[|t| - 1] != '-')
  {
    if s != [] && s[|s| - 1] == '-' { TrimRightKeeps(s[..|s| - 1]); }
  }

  lemma SliceSingle(s: string, lo: nat, hi: nat)
    requires lo <= hi <= |s| && !HasDouble(s)
    ensures !HasDouble(s[lo..hi])
  {
    forall i ensures !DoubleAt(s[lo..hi], i) {
      assert !DoubleAt(s, lo + i);
    }
  }

  lemma TokenCharsSafe(s: string)
    ensures forall c :: c in TokenChars(s) ==> IsTokenChar(c)
  {
  }

  lemma {:induction false} TokenShape(name: string)
    ensures IsToken(Token(name))
  {
    hide Collapse, TrimLeft, TrimRight, TokenChars;
    var s := Collapse(TokenChars(name));
    TokenCharsSafe(name);
    CollapsedIsSingle(TokenChars(name));
    var l := TrimLeft(s);
    TrimLeftKeeps(s);
    SliceSingle(s, |s| - |l|, |s|);
    assert s[|s| - |l|..|s|] == l;
    var t := TrimRight(l);
    TrimRightKeeps(l);
    SliceSingle(l, 0, |t|);
    assert l[0..|t|] == t;
    if t != [] {
      assert t[0] == l[0];
      assert forall c :: c in t ==> c in s;
    } else {
      SubIsToken();
    }
  }

  lemma SubIsToken()
    ensures IsToken("sub")
  {
  }

  /** Sanitizing twice changes nothing. */
  lemma {:induction false} TokenStable(name: string)
    ensures Token(Token(name)) == Token(name)
  {
    var t := Token(name);
    TokenShape(name);
    SameChars(t);
    SingleIsCollapsed(t);
  }

  lemma SameChars(t: string)
    requires forall c :: c in t ==> IsTokenChar(c)
    ensures TokenChars(t) == t
  {
    forall i | 0 <= i < |t| ensures TokenChars(t)[i] == t[i] { assert t[i] in t; }
  }

  // ---------------------------------------------------------------------
  // Prefixes
  // ---------------------------------------------------------------------

  /** The prefix of the i-th instance of a request. */
  function Prefix(name: string, count: nat, i: nat): string {
    if count > 1 then name + "-" + Decimal(i) else name
  }

  function RequestName(prefix: string, deviceClass: string): string {
    prefix + "-" + Token(deviceClass)
  }

  lemma TokensApart(prefix: string, a: string, b: string)
    ensures RequestName(prefix, a) == RequestName(prefix, b) <==> Token(a) == Token(b)
  {
    hide Token;
    var p := prefix + "-";
    assert (p + Token(a))[|p|..] == Token(a);
    assert (p + Token(b))[|p|..] == Token(b);
  }

  lemma DashFreeApart(a: string, x: string, b: string, y: string)
    requires '-' !in a && '-' !in b && a + "-" + x == b + "-" + y
    ensures a == b
  {
    var s := a + "-" + x;
    assert s[|a|] == '-' && s[|b|] == '-';
    assert s[..|a|] == a && s[..|b|] == b;
  }

  /** Requests of different instances have different names. */
  lemma InstancesApart(name: string, count: nat, i: nat, j: nat, a: string, b: string)
    requires i < count && j < count && i != j
    ensures RequestName(Prefix(name, count, i), a) != RequestName(Prefix(name, count, j), b)
  {
    hide Token;
    if RequestName(Prefix(name, count, i), a) == RequestName(Prefix(name, count, j), b) {
      var p := name + "-";
      var x, y := Decimal(i) + "-" + Token(a), Decimal(j) + "-" + Token(b);
      assert RequestName(Prefix(name, count, i), a) == p + x;
      assert RequestName(Prefix(name, count, j), b) == p + y;
      assert (p + x)[|p|..] == x && (p + y)[|p|..] == y;
      DashFreeApart(Decimal(i), Token(a), Decimal(j), Token(b));
      DecimalInjective(i, j);
    }
  }
}
