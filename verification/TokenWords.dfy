/** What sanitizing keeps of a class name: its words, in order, joined by single dashes. */
module TokenWords {
  import opened Text
  import opened RequestNames

  /** The maximal dash-free pieces of a text. */
  function Words(s: string): seq<string> {
    if s == "" then []
    else if s[0] == '-' then Words(s[1..])
    else
      var rest := Words(s[1..]);
      if rest == [] || s[1] == '-' then [[s[0]]] + rest else [[s[0]] + rest[0]] + rest[1..]
  }

  function JoinDash(words: seq<string>): string {
    if words == [] then "" else if |words| == 1 then words[0] else words[0] + "-" + JoinDash(words[1..])
  }

  lemma {:induction false} NoWords(s: string)
    ensures Words(s) == [] <==> forall c :: c in s ==> c == '-'
  {
    if s != "" {
      NoWords(s[1..]);
      assert s == [s[0]] + s[1..] && s[0] in s;
      assert forall c :: c in s <==> c == s[0] || c in s[1..];
    }
  }

  lemma WordsCons(c: char, a: string, b: string)
    requires Words(a) == Words(b) && (a == "" <==> b == "") && (a != "" ==> a[0] == b[0])
    ensures Words([c] + a) == Words([c] + b)
  {
    assert ([c] + a)[1..] == a && ([c] + b)[1..] == b;
  }

  lemma {:induction false} CollapseKeepsWords(s: string)
    ensures Words(Collapse(s)) == Words(s)
  {
    if |s| >= 2 {
      CollapseKeepsWords(s[1..]);
      if !(s[0] == '-' && s[1] == '-') {
        CollapsedIsSingle(s[1..]);
        WordsCons(s[0], Collapse(s[1..]), s[1..]);
        assert [s[0]] + s[1..] == s;
      }
    }
  }

  lemma {:induction false} TrimLeftKeepsWords(s: string)
    ensures Words(TrimLeft(s)) == Words(s)
  {
    if s != "" && s[0] == '-' { TrimLeftKeepsWords(s[1..]); }
  }

  lemma {:induction false} DashAtEnd(s: string)
    ensures Words(s + "-") == Words(s)
  {
    if s == "" {
      assert s + "-" == ['-'] + "";
    } else {
      DashAtEnd(s[1..]);
      assert (s + "-")[1..] == s[1..] + "-";
      if s[1..] == "" { assert Words(s[1..]) == []; }
    }
  }

  lemma {:induction false} TrimRightKeepsWords(s: string)
    ensures Words(TrimRight(s)) == Words(s)
  {
    if s != "" && s[|s| - 1] == '-' {
      TrimRightKeepsWords(s[..|s| - 1]);
      DashAtEnd(s[..|s| - 1]);
      assert s == s[..|s| - 1] + "-";
    }
  }

  /** A text without double dashes and without a dash at its end is its words, joined. */
  lemma {:induction false} JoinedWords(s: string)
    requires !HasDouble(s) && (s != "" ==> s[|s| - 1] != '-')
    ensures s == (if s != "" && s[0] == '-' then "-" else "") + JoinDash(Words(s))
  {
    if s != "" {
      var r := s[1..];
      assert s == [s[0]] + r;
      forall i ensures !DoubleAt(r, i) { assert !DoubleAt(s, i + 1); }
      JoinedWords(r);
      assert !DoubleAt(s, 0);
      if s[0] != '-' && r != "" {
        NoWords(r);
        assert r[|r| - 1] in r;
        JoinCons(s[0], Words(r));
      }
    }
  }

  lemma JoinCons(c: char, words: seq<string>)
    requires words != []
    ensures JoinDash([[c]] + words) == [c] + "-" + JoinDash(words)
    ensures JoinDash([[c] + words[0]] + words[1..]) == [c] + JoinDash(words)
  {
    assert ([[c]] + words)[1..] == words;
    JoinFirst([c], words[0], words[1..]);
    assert words == [words[0]] + words[1..];
  }

  lemma JoinFirst(a: string, w: string, rest: seq<string>)
    ensures JoinDash([a + w] + rest) == a + JoinDash([w] + rest)
  {
    hide JoinDash;
    JoinStep(a + w, rest);
    JoinStep(w, rest);
    if rest != [] { assert (a + w) + ("-" + JoinDash(rest)) == a + (w + ("-" + JoinDash(rest))); }
  }

  lemma JoinStep(w: string, rest: seq<string>)
    ensures JoinDash([w] + rest) == if rest == [] then w else w + ("-" + JoinDash(rest))
  {
    assert ([w] + rest)[1..] == rest;
    if rest != [] { assert w + "-" + JoinDash(rest) == w + ("-" + JoinDash(rest)); }
  }

  /** The words of a class name after letters became lower case and everything else a dash; "sub" without any. */
  function NameWords(name: string): seq<string> {
    if Words(TokenChars(name)) == [] then ["sub"] else Words(TokenChars(name))
  }

  /** A token is the words of the name, joined by single dashes. */
  lemma TokenIsWords(name: string)
    ensures Token(name) == JoinDash(NameWords(name)) && Words(Token(name)) == NameWords(name)
  {
    hide Words, Collapse, TrimLeft, TrimRight, JoinDash, TokenChars, HasDouble;
    var s := TokenChars(name);
    var l := TrimLeft(Collapse(s));
    var t := TrimRight(l);
    CollapseKeepsWords(s);
    TrimLeftKeepsWords(Collapse(s));
    TrimRightKeepsWords(l);
    TokenShape(name);
    JoinedWords(Token(name));
    NoWords(t);
    SubWords();
    if t != "" {
      TrimRightKeeps(l);
      assert t[|t| - 1] in t;
    }
  }

  lemma SubWords()
    ensures Words("sub") == ["sub"] && Words("") == []
  {
    assert "sub"[1..] == "ub" && "ub"[1..] == "b" && "b"[1..] == "";
    assert Words("b") == ["b"];
    assert ['u'] + "b" == "ub" && ['s'] + "ub" == "sub";
    assert Words("ub") == ["ub"];
  }

  /** Two class names have one token exactly when they have the same words. */
  lemma SameTokenIff(a: string, b: string)
    ensures Token(a) == Token(b) <==> NameWords(a) == NameWords(b)
  {
    hide Token, NameWords;
    TokenIsWords(a);
    TokenIsWords(b);
  }

  /** A name that is a token already, such as a class without dots, is kept. */
  lemma TokenKept(name: string)
    requires IsToken(name)
    ensures Token(name) == name
  {
    hide Words, JoinDash;
    SameChars(name);
    JoinedWords(name);
    TokenIsWords(name);
    NoWords(name);
    assert name[0] in name;
  }

  /** Equal but for the case of a letter, or neither of them a letter, digit or dash. */
  predicate SameTokenChar(c: char, d: char) {
    || c == d || ('A' <= c <= 'Z' && d as int == c as int + 32) || ('A' <= d <= 'Z' && c as int == d as int + 32)
    || (Splits(c) && Splits(d))
  }

  /** A dash, or a character that is neither a letter nor a digit. */
  predicate Splits(c: char) {
    !('a' <= c <= 'z' || 'A' <= c <= 'Z' || '0' <= c <= '9')
  }

  /** Names that differ in the case of letters and in their separators only have one token. */
  lemma CaseAndSeparators(a: string, b: string)
    requires |a| == |b| && forall i :: 0 <= i < |a| ==> SameTokenChar(a[i], b[i])
    ensures Token(a) == Token(b)
  {
    forall i | 0 <= i < |a| ensures TokenChar(a[i]) == TokenChar(b[i]) {
      assert SameTokenChar(a[i], b[i]);
    }
    assert TokenChars(a) == TokenChars(b);
  }
}
