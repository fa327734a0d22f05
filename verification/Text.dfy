/**
 The string operations util/generate.py relies on: `in`, `str.replace`, `str.splitlines` and `str(int)`,
 with the facts about them that hold for all strings.
 */
module Text {

  // ----- substrings

  /** Python's `m in s`. */
  predicate Contains(s: string, m: string) {
    m <= s || (s != [] && Contains(s[1..], m))
  }

  /** Somewhere `s` goes on with `m`. */
  lemma {:induction false} ContainsAt(s: string, m: string)
    ensures Contains(s, m) <==> exists i :: 0 <= i <= |s| && m <= s[i..]
  {
    assert s[0..] == s;
    if s != [] {
      ContainsAt(s[1..], m);
      forall i | 0 <= i < |s|
        ensures s[1..][i..] == s[i + 1..]
      {
      }
      if i :| 0 <= i <= |s| && m <= s[i..] && i > 0 {
        assert m <= s[1..][i - 1..];
      }
      if i :| 0 <= i <= |s| - 1 && m <= s[1..][i..] {
        assert m <= s[i + 1..];
      }
    }
  }

  predicate Apart(s: string, t: string) {
    forall c :: c in s ==> c !in t
  }

  lemma {:induction false} ContainsTail(p: string, s: string, m: string)
    requires Contains(s, m)
    ensures Contains(p + s, m)
  {
    if p == [] {
      assert p + s == s;
    } else {
      ContainsTail(p[1..], s, m);
      assert (p + s)[1..] == p[1..] + s;
    }
  }

  /** No occurrence of `m` begins in characters other than its first. */
  lemma {:induction false} ContainsSkip(p: string, s: string, m: string)
    requires m != [] && m[0] !in p
    ensures Contains(p + s, m) <==> Contains(s, m)
  {
    if p == [] {
      assert p + s == s;
    } else {
      ContainsSkip(p[1..], s, m);
      assert (p + s)[1..] == p[1..] + s;
      assert p[0] in p && (p + s)[0] == p[0];
    }
  }

  // ----- replace

  /** Python's `s.replace(tok, by)`: occurrences from left to right, without overlap. */
  function Replace(s: string, tok: string, sub: string): string
    requires tok != []
    decreases |s|
  {
    if s == [] then []
    else if tok <= s then sub + Replace(s[|tok|..], tok, sub)
    else [s[0]] + Replace(s[1..], tok, sub)
  }

  lemma {:induction false} ReplaceAbsent(s: string, tok: string, sub: string)
    requires tok != [] && !Contains(s, tok)
    ensures Replace(s, tok, sub) == s
  {
    if s != [] {
      ReplaceAbsent(s[1..], tok, sub);
    }
  }

  lemma {:induction false} ReplaceChars(s: string, tok: string, sub: string, c: char)
    requires tok != [] && c in Replace(s, tok, sub)
    ensures c in s || c in sub
    decreases |s|
  {
    if s != [] {
      if tok <= s {
        if c !in sub {
          ReplaceChars(s[|tok|..], tok, sub, c);
        }
      } else if c != s[0] {
        ReplaceChars(s[1..], tok, sub, c);
      }
    }
  }

  /** Nor does a token begin there. */
  lemma {:induction false} ReplaceSkip(p: string, s: string, tok: string, sub: string)
    requires tok != [] && tok[0] !in p
    ensures Replace(p + s, tok, sub) == p + Replace(s, tok, sub)
  {
    if p == [] {
      assert p + s == s;
    } else {
      ReplaceSkip(p[1..], s, tok, sub);
      assert (p + s)[1..] == p[1..] + s && p[0] in p && (p + s)[0] == p[0];
    }
  }

  lemma TokenBefore(a: string, c: char, b: string, tok: string)
    requires c !in tok
    ensures tok <= a + ([c] + b) <==> tok <= a
  {
    var s := a + ([c] + b);
    assert s[|a|] == c && s[..|a|] == a;
    if tok <= s {
      assert forall i :: 0 <= i < |tok| ==> tok[i] == s[i];
      assert tok == s[..|tok|] == a[..|tok|];
    }
  }

  /** A token whose first character does not come again in it cannot begin in `a` and end after it. */
  lemma TokenWithin(a: string, s: string, tok: string)
    requires tok != [] && tok[0] !in tok[1..] && a != [] && (s == [] || s[0] == tok[0])
    ensures tok <= a + s ==> tok <= a
  {
    var t := a + s;
    assert forall i :: 1 <= i < |tok| ==> tok[1..][i - 1] == tok[i];
    assert s != [] ==> t[|a|] == s[0];
    assert |tok| <= |a| ==> t[..|tok|] == a[..|tok|];
  }

  lemma ReplaceStep(c: char, s: string, tok: string, sub: string)
    requires tok != [] && !(tok <= [c] + s)
    ensures Replace([c] + s, tok, sub) == [c] + Replace(s, tok, sub)
  {
    assert ([c] + s)[1..] == s;
  }

  /** Text without the token, before a place where the token may begin, stays as it is. */
  lemma {:induction false} ReplaceBefore(a: string, s: string, tok: string, sub: string)
    requires tok != [] && tok[0] !in tok[1..] && !Contains(a, tok) && (s == [] || s[0] == tok[0])
    ensures Replace(a + s, tok, sub) == a + Replace(s, tok, sub)
  {
    if a == [] {
      assert a + s == s;
    } else {
      var c, rest := a[0], a[1..];
      assert a == [c] + rest && a + s == [c] + (rest + s);
      TokenWithin(a, s, tok);
      ReplaceStep(c, rest + s, tok, sub);
      ReplaceBefore(rest, s, tok, sub);
    }
  }

  lemma ReplaceHead(tok: string, s: string, sub: string)
    requires tok != []
    ensures Replace(tok + s, tok, sub) == sub + Replace(s, tok, sub)
  {
    assert (tok + s)[|tok|..] == s;
  }

  /** A text that lacks a character of the token does not contain it. */
  lemma {:induction false} LacksCharacter(s: string, tok: string, c: char)
    requires c in tok && c !in s
    ensures !Contains(s, tok)
  {
    if s != [] {
      LacksCharacter(s[1..], tok, c);
    }
  }

  /** A character that the token does not have cuts the work in two. */
  lemma {:induction false} ReplaceAround(a: string, c: char, b: string, tok: string, sub: string)
    requires tok != [] && c !in tok
    ensures Replace(a + ([c] + b), tok, sub) == Replace(a, tok, sub) + ([c] + Replace(b, tok, sub))
    decreases |a|
  {
    var s := a + ([c] + b);
    var tail := [c] + Replace(b, tok, sub);
    TokenBefore(a, c, b, tok);
    if a == [] {
      assert s[0] == c && s[1..] == b;
    } else if tok <= a {
      var rest := a[|tok|..];
      assert s[|tok|..] == rest + ([c] + b);
      ReplaceAround(rest, c, b, tok, sub);
      assert sub + (Replace(rest, tok, sub) + tail) == (sub + Replace(rest, tok, sub)) + tail;
    } else {
      var rest := a[1..];
      assert s[1..] == rest + ([c] + b);
      ReplaceAround(rest, c, b, tok, sub);
      assert [a[0]] + (Replace(rest, tok, sub) + tail) == ([a[0]] + Replace(rest, tok, sub)) + tail;
    }
  }

  /** Replacing neither makes nor breaks a beginning with other characters than the token's and the new text's. */
  lemma {:induction false} StartsSame(s: string, m: string, tok: string, sub: string)
    requires tok != [] && sub != [] && Apart(tok, m) && Apart(sub, m)
    ensures m <= Replace(s, tok, sub) <==> m <= s
    decreases |s|
  {
    if m != [] && s != [] {
      if tok <= s {
        assert tok[0] in tok && sub[0] in sub && m[0] in m;
        assert s[0] == tok[0] && Replace(s, tok, sub)[0] == sub[0];
      } else {
        StartsSame(s[1..], m[1..], tok, sub);
        assert m == [m[0]] + m[1..] && s == [s[0]] + s[1..];
        assert Replace(s, tok, sub)[1..] == Replace(s[1..], tok, sub);
      }
    }
  }

  /** Nor does it make or break an occurrence anywhere. */
  lemma {:induction false} ContainsSame(s: string, m: string, tok: string, sub: string)
    requires tok != [] && sub != [] && m != [] && Apart(tok, m) && Apart(sub, m)
    ensures Contains(Replace(s, tok, sub), m) <==> Contains(s, m)
    decreases |s|
  {
    if s != [] {
      if tok <= s {
        var rest := s[|tok|..];
        ContainsSame(rest, m, tok, sub);
        assert s == tok + rest;
        assert m[0] in m;
        ContainsSkip(tok, rest, m);
        ContainsSkip(sub, Replace(rest, tok, sub), m);
      } else {
        StartsSame(s, m, tok, sub);
        ContainsSame(s[1..], m, tok, sub);
        assert Replace(s, tok, sub)[1..] == Replace(s[1..], tok, sub);
      }
    }
  }

  // ----- lines

  /** The characters that end a line for `splitlines`, in a text read with universal newlines. */
  const BREAKS := ['\n', '\U{0B}', '\U{0C}', '\U{1C}', '\U{1D}', '\U{1E}', '\U{85}', '\U{2028}', '\U{2029}']

  predicate IsBreak(c: char) {
    c in BREAKS
  }

  predicate OneLine(s: string) {
    forall c :: c in s ==> !IsBreak(c)
  }

  function FirstBreak(s: string): (k: nat)
    ensures k <= |s| && (k < |s| ==> IsBreak(s[k])) && OneLine(s[..k])
  {
    if s == [] || IsBreak(s[0]) then 0
    else
      var k := 1 + FirstBreak(s[1..]);
      assert s[..k] == [s[0]] + s[1..][..k - 1];
      k
  }

  function SplitLines(s: string): (lines: seq<string>)
    decreases |s|
  {
    if s == [] then []
    else
      var k := FirstBreak(s);
      [s[..k]] + if k < |s| then SplitLines(s[k + 1..]) else []
  }

  function ReplaceEach(lines: seq<string>, tok: string, sub: string): (r: seq<string>)
    requires tok != []
    ensures |r| == |lines|
  {
    seq(|lines|, i requires 0 <= i < |lines| => Replace(lines[i], tok, sub))
  }

  lemma BreakAfter(a: string, s: string)
    requires OneLine(a) && (s == [] || IsBreak(s[0]))
    ensures FirstBreak(a + s) == |a|
  {
    assert forall i :: 0 <= i < |a| ==> (a + s)[i] in a;
    assert s != [] ==> (a + s)[|a|] == s[0];
    var k := FirstBreak(a + s);
    assert forall i :: 0 <= i < k ==> (a + s)[i] in (a + s)[..k];
  }

  lemma SplitAround(a: string, c: char, b: string)
    requires OneLine(a) && IsBreak(c)
    ensures SplitLines(a + ([c] + b)) == [a] + SplitLines(b)
  {
    var s := a + ([c] + b);
    BreakAfter(a, [c] + b);
    assert s[..|a|] == a && s[|a| + 1..] == b;
  }

  lemma SplitLast(a: string)
    requires a != [] && OneLine(a)
    ensures SplitLines(a) == [a]
  {
    BreakAfter(a, []);
    assert a + [] == a && a[..|a|] == a;
  }

  /** Which characters end a line, one by one. */
  lemma LineEnds(c: char)
    ensures IsBreak(c) <==>
      || c == '\n' || c == '\U{0B}' || c == '\U{0C}' || c == '\U{1C}' || c == '\U{1D}' || c == '\U{1E}'
      || c == '\U{85}' || c == '\U{2028}' || c == '\U{2029}'
    ensures ' ' <= c <= '~' ==> !IsBreak(c)
  {
  }

  /** Printable ASCII: letters, digits, blanks and punctuation. */
  predicate Printable(s: string) {
    forall c :: c in s ==> ' ' <= c <= '~'
  }

  lemma PrintableIsOneLine(s: string)
    requires Printable(s)
    ensures OneLine(s)
  {
    forall c | c in s
      ensures !IsBreak(c)
    {
      LineEnds(c);
    }
  }

  /** A newline ends a line. */
  lemma NewlineEndsLine(a: string, b: string)
    requires Printable(a)
    ensures SplitLines(a + (['\n'] + b)) == [a] + SplitLines(b)
  {
    PrintableIsOneLine(a);
    LineEnds('\n');
    SplitAround(a, '\n', b);
  }

  /** The lines of a file, each with its newline. */
  function Joined(lines: seq<string>): string {
    if lines == [] then [] else lines[0] + (['\n'] + Joined(lines[1..]))
  }

  lemma JoinedMore(lines: seq<string>, rest: string)
    requires lines != []
    ensures Joined(lines) + rest == lines[0] + (['\n'] + (Joined(lines[1..]) + rest))
  {
  }

  function LastLine(rest: string): seq<string> {
    if rest == "" then [] else [rest]
  }

  /** Splitting a file gives back its lines, and a last line that has no newline. */
  lemma {:induction false} SplitJoined(lines: seq<string>, rest: string)
    requires Printable(rest) && forall i :: 0 <= i < |lines| ==> Printable(lines[i])
    ensures SplitLines(Joined(lines) + rest) == lines + LastLine(rest)
  {
    if lines == [] {
      assert Joined(lines) + rest == rest;
      PrintableIsOneLine(rest);
      if rest != "" {
        SplitLast(rest);
      }
    } else {
      JoinedMore(lines, rest);
      NewlineEndsLine(lines[0], Joined(lines[1..]) + rest);
      SplitJoined(lines[1..], rest);
      assert lines == [lines[0]] + lines[1..];
      assert [lines[0]] + (lines[1..] + LastLine(rest)) == lines + LastLine(rest);
    }
  }

  lemma ReplaceInLine(line: string, tok: string, sub: string)
    requires tok != [] && sub != [] && OneLine(sub) && OneLine(line)
    ensures OneLine(Replace(line, tok, sub))
    ensures line != [] ==> Replace(line, tok, sub) != []
  {
    forall c | c in Replace(line, tok, sub)
      ensures !IsBreak(c)
    {
      ReplaceChars(line, tok, sub, c);
    }
  }

  lemma ReplaceEachCons(line: string, lines: seq<string>, tok: string, sub: string)
    requires tok != []
    ensures ReplaceEach([line] + lines, tok, sub) == [Replace(line, tok, sub)] + ReplaceEach(lines, tok, sub)
  {
  }

  /** Replacing in a text is replacing in each of its lines, if neither token nor new text ends a line. */
  lemma {:induction false} ReplaceByLines(s: string, tok: string, sub: string)
    requires tok != [] && sub != [] && OneLine(tok) && OneLine(sub)
    ensures SplitLines(Replace(s, tok, sub)) == ReplaceEach(SplitLines(s), tok, sub)
    decreases |s|
  {
    if s != [] {
      var k := FirstBreak(s);
      var line := s[..k];
      ReplaceInLine(line, tok, sub);
      if k < |s| {
        var c, rest := s[k], s[k + 1..];
        assert s == line + ([c] + rest);
        ReplaceAround(line, c, rest, tok, sub);
        ReplaceByLines(rest, tok, sub);
        SplitAround(line, c, rest);
        SplitAround(Replace(line, tok, sub), c, Replace(rest, tok, sub));
        ReplaceEachCons(line, SplitLines(rest), tok, sub);
      } else {
        assert line == s;
        SplitLast(s);
        SplitLast(Replace(s, tok, sub));
      }
    }
  }

  // ----- numbers

  const DIGITS := "0123456789"

  function Decimal(n: nat): (r: string)
    ensures r != [] && forall c :: c in r ==> c in DIGITS
  {
    if n < 10 then [DIGITS[n]] else Decimal(n / 10) + [DIGITS[n % 10]]
  }

  /** Python's `str(n)`. */
  function Str(n: int): (r: string)
    ensures r != [] && forall c :: c in r ==> c in DIGITS || c == '-'
  {
    if n < 0 then "-" + Decimal(-n) else Decimal(n)
  }

  lemma {:induction false} DecimalLength(n: nat)
    ensures |Decimal(n)| == 1 <==> n < 10
  {
    if n >= 10 {
      assert |Decimal(n / 10)| > 0;
    }
  }

  lemma {:induction false} DecimalInjective(m: nat, n: nat)
    requires Decimal(m) == Decimal(n)
    ensures m == n
  {
    DecimalLength(m);
    DecimalLength(n);
    var d, e := Decimal(m), Decimal(n);
    assert d[|d| - 1] == DIGITS[m % 10] && e[|e| - 1] == DIGITS[n % 10];
    DigitInjective(m % 10, n % 10);
    if m >= 10 {
      assert d[..|d| - 1] == Decimal(m / 10) && e[..|e| - 1] == Decimal(n / 10);
      DecimalInjective(m / 10, n / 10);
    }
  }

  lemma DigitInjective(a: nat, b: nat)
    requires a < 10 && b < 10 && DIGITS[a] == DIGITS[b]
    ensures a == b
  {
  }

  lemma StrSign(n: int)
    ensures Str(n)[0] == '-' <==> n < 0
  {
    if n >= 0 {
      assert Decimal(n)[0] in Decimal(n);
    }
  }

  lemma StrInjective(m: int, n: int)
    requires Str(m) == Str(n)
    ensures m == n
  {
    StrSign(m);
    StrSign(n);
    if m >= 0 && n >= 0 {
      DecimalInjective(m, n);
    } else if m < 0 && n < 0 {
      assert Str(m)[1..] == Decimal(-m) && Str(n)[1..] == Decimal(-n);
      DecimalInjective(-m, -n);
    }
  }
}
