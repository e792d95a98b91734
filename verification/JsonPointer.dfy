/** Reference tokens of JSON Pointer (RFC 6901): escaping as section 3 asks for, unescaping as section 4 does. */
module JsonPointer {
  function ReplaceChar(s: string, c: char, with: string): string {
    if s == [] then [] else (if s[0] == c then with else [s[0]]) + ReplaceChar(s[1..], c, with)
  }

  /** Replaces the two-character text `ab`, scanning from the left. */
  function ReplacePair(s: string, a: char, b: char, with: char): string {
    if s == [] then []
    else if |s| >= 2 && s[0] == a && s[1] == b then [with] + ReplacePair(s[2..], a, b, with)
    else [s[0]] + ReplacePair(s[1..], a, b, with)
  }

  /** '~' becomes "~0", then '/' becomes "~1". */
  function Escape(s: string): string {
    ReplaceChar(ReplaceChar(s, '~', "~0"), '/', "~1")
  }

  /** "~1" becomes '/', then "~0" becomes '~'. */
  function Unescape(s: string): string {
    ReplacePair(ReplacePair(s, '~', '1', '/'), '~', '0', '~')
  }

  function EscapeChar(c: char): string {
    if c == '~' then "~0" else if c == '/' then "~1" else [c]
  }

  lemma {:induction false} EscapeStep(s: string)
    requires s != []
    ensures Escape(s) == EscapeChar(s[0]) + Escape(s[1..])
  {
    var rest := ReplaceChar(s[1..], '~', "~0");
    if s[0] == '~' {
      assert ReplaceChar(s, '~', "~0") == ['~'] + (['0'] + rest);
      ReplaceCons('~', ['0'] + rest, '/', "~1");
      ReplaceCons('0', rest, '/', "~1");
    } else {
      ReplaceCons(s[0], rest, '/', "~1");
    }
  }

  lemma ReplaceCons(x: char, t: string, c: char, with: string)
    ensures ReplaceChar([x] + t, c, with) == (if x == c then with else [x]) + ReplaceChar(t, c, with)
  {
    assert ([x] + t)[1..] == t;
  }

  lemma PairSkips(c: char, t: string, a: char, b: char, with: char)
    requires c != a
    ensures ReplacePair([c] + t, a, b, with) == [c] + ReplacePair(t, a, b, with)
  {
    assert ([c] + t)[1..] == t;
  }

  lemma PairHits(t: string, a: char, b: char, with: char)
    ensures ReplacePair([a, b] + t, a, b, with) == [with] + ReplacePair(t, a, b, with)
  {
    assert ([a, b] + t)[2..] == t;
  }

  lemma PairOther(x: char, t: string, a: char, b: char, with: char)
    requires x != b && x != a
    ensures ReplacePair([a, x] + t, a, b, with) == [a, x] + ReplacePair(t, a, b, with)
  {
    assert ([a, x] + t)[1..] == [x] + t;
    PairSkips(x, t, a, b, with);
  }

  lemma {:induction false} FirstPass(s: string)
    ensures ReplacePair(Escape(s), '~', '1', '/') == ReplaceChar(s, '~', "~0")
  {
    if s != [] {
      EscapeStep(s);
      FirstPass(s[1..]);
      var rest := Escape(s[1..]);
      if s[0] == '~' {
        PairOther('0', rest, '~', '1', '/');
      } else if s[0] == '/' {
        PairHits(rest, '~', '1', '/');
      } else {
        PairSkips(s[0], rest, '~', '1', '/');
      }
    }
  }

  lemma {:induction false} SecondPass(s: string)
    ensures ReplacePair(ReplaceChar(s, '~', "~0"), '~', '0', '~') == s
  {
    if s != [] {
      SecondPass(s[1..]);
      var rest := ReplaceChar(s[1..], '~', "~0");
      if s[0] == '~' {
        PairHits(rest, '~', '0', '~');
      } else {
        PairSkips(s[0], rest, '~', '0', '~');
      }
    }
  }

  /** Every token reads back as itself. */
  lemma RoundTrip(s: string)
    ensures Unescape(Escape(s)) == s
  {
    FirstPass(s);
    SecondPass(s);
  }

  /** An escaped token has no separator, so it stays one token of a pointer. */
  lemma {:induction false} EscapedIsOneToken(s: string)
    ensures '/' !in Escape(s)
  {
    if s != [] {
      EscapeStep(s);
      EscapedIsOneToken(s[1..]);
    }
  }
}
