/**
 The label pass of `render_template` in util/generate.py.

 A rendered test case marks its two conflicting lines with a comment and names their line numbers in its
 header by two tokens. The pass finds the numbers of the lines after the first two markers and writes
 them over the tokens, in the text whose lines it counts. The text has been read with universal newlines.
 */
module Labels {
  import opened Text

  const MARK := "// CONFLICT"
  const TOKEN1 := "{race_loc1}"
  const TOKEN2 := "{race_loc2}"

  predicate Marked(line: string) {
    Contains(line, MARK)
  }

  // ----- the two locations

  /** The index of the first marked line from `i` on, or -1. */
  function NextMarked(lines: seq<string>, i: nat): (r: int)
    ensures r == -1 || i <= r < |lines|
    ensures r >= 0 ==> Marked(lines[r]) && forall k :: i <= k < r ==> !Marked(lines[k])
    ensures r == -1 ==> forall k :: i <= k < |lines| ==> !Marked(lines[k])
    decreases |lines| - i
  {
    if i >= |lines| then -1 else if Marked(lines[i]) then i else NextMarked(lines, i + 1)
  }

  function First(lines: seq<string>): int {
    NextMarked(lines, 0)
  }

  function Second(lines: seq<string>): int {
    if First(lines) < 0 then -1 else NextMarked(lines, First(lines) + 1)
  }

  /** The number, counted from one, of the line after line `i`, counted from zero. */
  function LineAfter(i: int): int {
    if i < 0 then -1 else i + 2
  }

  lemma NextUnique(lines: seq<string>, i: nat, r: nat)
    requires i <= r < |lines| && Marked(lines[r]) && forall k :: i <= k < r ==> !Marked(lines[k])
    ensures NextMarked(lines, i) == r
  {
  }

  lemma NextNone(lines: seq<string>, i: nat)
    requires forall k :: i <= k < |lines| ==> !Marked(lines[k])
    ensures NextMarked(lines, i) == -1
  {
  }

  predicate AtMost(lines: seq<string>, n: nat, loc1: int, loc2: int)
    requires n <= |lines|
  {
    && (loc1 == -1 ==> forall k :: 0 <= k < n ==> !Marked(lines[k]))
    && (loc1 != -1 ==> First(lines) == loc1 - 2 && 2 <= loc1 < n + 2)
    && (loc2 == -1 && loc1 != -1 ==> forall k :: loc1 - 1 <= k < n ==> !Marked(lines[k]))
    && (loc2 != -1 ==> loc1 != -1 && Second(lines) == loc2 - 2 && loc1 < loc2 < n + 2)
  }

  /** The scanning loop. `surplus` says that a third marker was met. */
  method Locate(lines: seq<string>) returns (loc1: int, loc2: int, surplus: bool)
    ensures loc1 == LineAfter(First(lines)) && loc2 == LineAfter(Second(lines))
    ensures surplus <==> Second(lines) >= 0 && NextMarked(lines, Second(lines) + 1) >= 0
  {
    loc1, loc2, surplus := -1, -1, false;
    for lineNo := 0 to |lines|
      invariant AtMost(lines, lineNo, loc1, loc2)
      invariant surplus <==> loc2 != -1 && exists k :: loc2 - 1 <= k < lineNo && Marked(lines[k])
    {
      if Marked(lines[lineNo]) {
        if loc1 == -1 {
          NextUnique(lines, 0, lineNo);
          loc1 := lineNo + 2;
        } else if loc2 == -1 {
          NextUnique(lines, loc1 - 1, lineNo);
          loc2 := lineNo + 2;
        } else {
          surplus := true;
        }
      }
    }
    if loc1 == -1 {
      NextNone(lines, 0);
    } else if loc2 == -1 {
      NextNone(lines, loc1 - 1);
    }
  }

  function Loc1(code: string): int {
    LineAfter(First(SplitLines(code)))
  }

  function Loc2(code: string): int {
    LineAfter(Second(SplitLines(code)))
  }

  // ----- the pass

  function Labelled(code: string): string {
    Replace(Replace(code, TOKEN1, Str(Loc1(code))), TOKEN2, Str(Loc2(code)))
  }

  function LabelPass(code: string, hasRace: bool): string {
    if hasRace then Labelled(code) else code
  }

  method WriteLabels(code: string, hasRace: bool) returns (out: string)
    ensures out == LabelPass(code, hasRace)
  {
    out := code;
    if hasRace {
      var loc1, loc2, _ := Locate(SplitLines(code));
      out := Replace(Replace(code, TOKEN1, Str(loc1)), TOKEN2, Str(loc2));
    }
  }

  // ----- no line moves, no marker is made or broken

  predicate Numeric(n: string) {
    n != [] && forall c :: c in n ==> c in DIGITS || c == '-'
  }

  lemma NumericFacts(n: string)
    requires Numeric(n)
    ensures OneLine(n) && Apart(n, MARK) && '{' !in n && '}' !in n
  {
    forall c | c in n
      ensures !IsBreak(c) && c !in MARK && c != '{' && c != '}'
    {
      assert c in DIGITS || c == '-';
    }
  }

  lemma TokenFacts(tok: string)
    requires tok == TOKEN1 || tok == TOKEN2
    ensures OneLine(tok) && Apart(tok, MARK)
  {
    forall c | c in tok
      ensures !IsBreak(c) && c !in MARK
    {
      assert c in TOKEN1 || c in TOKEN2;
    }
  }

  ghost predicate SameMarks(lines: seq<string>, lines': seq<string>) {
    |lines| == |lines'| && forall i :: 0 <= i < |lines| ==> (Marked(lines[i]) <==> Marked(lines'[i]))
  }

  lemma ReplaceKeepsMarks(code: string, tok: string, n: string)
    requires (tok == TOKEN1 || tok == TOKEN2) && Numeric(n)
    ensures SameMarks(SplitLines(code), SplitLines(Replace(code, tok, n)))
  {
    TokenFacts(tok);
    NumericFacts(n);
    ReplaceByLines(code, tok, n);
    var lines := SplitLines(code);
    forall i | 0 <= i < |lines|
      ensures Marked(lines[i]) <==> Marked(ReplaceEach(lines, tok, n)[i])
    {
      ContainsSame(lines[i], MARK, tok, n);
    }
  }

  lemma {:induction false} SameNext(lines: seq<string>, lines': seq<string>, i: nat)
    requires SameMarks(lines, lines')
    ensures NextMarked(lines, i) == NextMarked(lines', i)
    decreases |lines| - i
  {
    if i < |lines| {
      SameNext(lines, lines', i + 1);
    }
  }

  lemma SameLocations(code: string, code': string)
    requires SameMarks(SplitLines(code), SplitLines(code'))
    ensures Loc1(code) == Loc1(code') && Loc2(code) == Loc2(code')
  {
    var lines, lines' := SplitLines(code), SplitLines(code');
    SameNext(lines, lines', 0);
    if First(lines) >= 0 {
      SameNext(lines, lines', First(lines) + 1);
    }
  }

  lemma LabelsKeepMarks(code: string)
    ensures SameMarks(SplitLines(code), SplitLines(Labelled(code)))
  {
    var n1, n2 := Str(Loc1(code)), Str(Loc2(code));
    ReplaceKeepsMarks(code, TOKEN1, n1);
    ReplaceKeepsMarks(Replace(code, TOKEN1, n1), TOKEN2, n2);
  }

  /** `loc` is the number of the line after the first marked one from line `from` on, or -1 for none. */
  predicate AfterMark(lines: seq<string>, from: nat, loc: int) {
    if loc == -1 then forall k :: from <= k < |lines| ==> !Marked(lines[k])
    else from + 2 <= loc < |lines| + 2 && Marked(lines[loc - 2]) && forall k :: from <= k < loc - 2 ==> !Marked(lines[k])
  }

  lemma LocationsMean(lines: seq<string>)
    ensures var loc1, loc2 := LineAfter(First(lines)), LineAfter(Second(lines));
            AfterMark(lines, 0, loc1) && if loc1 == -1 then loc2 == -1 else AfterMark(lines, loc1 - 1, loc2)
  {
  }

  /** MAIN RESULT. The numbers written are right in the text they are written into: the first and the
      second marker are on the lines before them there, too. */
  lemma {:induction false} NumbersFitOutput(code: string)
    ensures var out := SplitLines(Labelled(code));
            && |out| == |SplitLines(code)|
            && AfterMark(out, 0, Loc1(code))
            && if Loc1(code) == -1 then Loc2(code) == -1 else AfterMark(out, Loc1(code) - 1, Loc2(code))
    ensures Loc1(Labelled(code)) == Loc1(code) && Loc2(Labelled(code)) == Loc2(code)
  {
    LabelsKeepMarks(code);
    SameLocations(code, Labelled(code));
    LocationsMean(SplitLines(Labelled(code)));
  }

  // ----- no token is left

  /** Token `d` of the two. */
  function Token(d: char): string {
    "{race_loc" + [d, '}']
  }

  lemma TokenSpelling()
    ensures Token('1') == TOKEN1 && Token('2') == TOKEN2
  {
  }

  /** Characters that no number has come through replacement from where they stand. */
  lemma {:induction false} LettersThrough(a: string, b: string, s: string, tok: string, n: string)
    requires tok != [] && Numeric(n) && a + b <= Replace(s, tok, n) && forall c :: c in a ==> c !in n
    ensures a <= s && b <= Replace(s[|a|..], tok, n)
  {
    if a == [] {
      assert a + b == b;
    } else {
      var out := Replace(s, tok, n);
      assert (a + b)[0] == a[0] && a[0] in a && out[0] == a[0] && n[0] in n;
      assert s != [] && !(tok <= s);
      assert out[1..] == Replace(s[1..], tok, n) && (a + b)[1..] == a[1..] + b;
      LettersThrough(a[1..], b, s[1..], tok, n);
      assert s[1..][|a| - 1..] == s[|a|..];
    }
  }

  lemma NumberThenBrace(n: string, d: char, rest: string)
    requires Numeric(n) && n != [d]
    ensures !([d, '}'] <= n + rest)
  {
    NumericFacts(n);
    var out, start := n + rest, [d, '}'];
    assert start[0] == d && start[1] == '}';
    if |n| == 1 {
      assert n == [n[0]] && out[0] == n[0];
    } else {
      assert n[1] in n && out[1] == n[1];
    }
  }

  /** A token at the start of the new text was there before, unless a number has completed it. */
  lemma TokenStarts(s: string, tok: string, n: string, d: char)
    requires tok != [] && Numeric(n) && Token(d) <= Replace(s, tok, n) && n != [d]
    ensures Token(d) <= s
  {
    NumericFacts(n);
    NoLetters(n);
    LettersThrough("{race_loc", [d, '}'], s, tok, n);
    var u := s[9..];
    var out := Replace(u, tok, n);
    assert out[0] == d && out[1] == '}';
    NumberThenBrace(n, d, if tok <= u then Replace(u[|tok|..], tok, n) else []);
    assert !(tok <= u);
    assert out[1..] == Replace(u[1..], tok, n) && ['}'] + [] <= out[1..];
    LettersThrough(['}'], [], u[1..], tok, n);
  }

  lemma NoLetters(n: string)
    requires Numeric(n)
    ensures forall c :: c in "{race_loc" ==> c !in n
  {
    forall c | c in n
      ensures c !in "{race_loc"
    {
      assert c in DIGITS || c == '-';
    }
  }

  lemma {:induction false} TokenNotMade(s: string, tok: string, n: string, d: char)
    requires tok != [] && Numeric(n) && n != [d] && Contains(Replace(s, tok, n), Token(d))
    ensures Contains(s, Token(d))
    decreases |s|
  {
    var g, out := Token(d), Replace(s, tok, n);
    NumericFacts(n);
    if s != [] {
      if tok <= s {
        var rest := s[|tok|..];
        ContainsSkip(n, Replace(rest, tok, n), g);
        TokenNotMade(rest, tok, n, d);
        assert s == tok + rest;
        ContainsTail(tok, rest, g);
      } else if g <= out {
        TokenStarts(s, tok, n, d);
      } else {
        assert out[1..] == Replace(s[1..], tok, n);
        TokenNotMade(s[1..], tok, n, d);
      }
    }
  }

  lemma {:induction false} TokenGone(s: string, n: string, d: char)
    requires Numeric(n) && n != [d]
    ensures !Contains(Replace(s, Token(d), n), Token(d))
    decreases |s|
  {
    var g, out := Token(d), Replace(s, Token(d), n);
    NumericFacts(n);
    if s != [] {
      if g <= s {
        var rest := s[|g|..];
        ContainsSkip(n, Replace(rest, g, n), g);
        TokenGone(rest, n, d);
      } else {
        assert out[1..] == Replace(s[1..], g, n);
        if g <= out {
          TokenStarts(s, g, n, d);
        }
        TokenGone(s[1..], n, d);
      }
    }
  }

  lemma LocationRange(code: string)
    ensures Loc1(code) == -1 || Loc1(code) >= 2
    ensures Loc2(code) == -1 || Loc2(code) >= 3
  {
  }

  lemma NumberIs(x: int, d: nat)
    requires 1 <= d < 10
    ensures Str(x) == [DIGITS[d]] <==> x == d
  {
    assert Str(d) == [DIGITS[d]];
    if Str(x) == Str(d) {
      StrInjective(x, d);
    }
  }

  lemma {:induction false} NoTokenLeft(code: string)
    ensures !Contains(Labelled(code), TOKEN1) && !Contains(Labelled(code), TOKEN2)
  {
    TokenSpelling();
    LocationRange(code);
    var n1, n2 := Str(Loc1(code)), Str(Loc2(code));
    NumberIs(Loc1(code), 1);
    NumberIs(Loc2(code), 1);
    NumberIs(Loc2(code), 2);
    var mid := Replace(code, TOKEN1, n1);
    TokenGone(code, n1, '1');
    TokenGone(mid, n2, '2');
    if Contains(Labelled(code), TOKEN1) {
      TokenNotMade(mid, TOKEN2, n2, '1');
    }
  }

  /** MAIN RESULT. The pass is a fixed point: a second pass changes nothing, whatever the text. */
  lemma {:induction false} SecondPassIsIdentity(code: string, hasRace: bool)
    ensures LabelPass(LabelPass(code, hasRace), hasRace) == LabelPass(code, hasRace)
  {
    if hasRace {
      var out := Labelled(code);
      NoTokenLeft(code);
      ReplaceAbsent(out, TOKEN1, Str(Loc1(out)));
      ReplaceAbsent(out, TOKEN2, Str(Loc2(out)));
    }
  }

  // ----- one token after the other, or both at once

  const NESTED := "{race_loc{race_loc1}}"

  /** Both tokens in one go from left to right. */
  function Substitute(s: string, n1: string, n2: string): string
    decreases |s|
  {
    if s == [] then []
    else if TOKEN1 <= s then n1 + Substitute(s[|TOKEN1|..], n1, n2)
    else if TOKEN2 <= s then n2 + Substitute(s[|TOKEN2|..], n1, n2)
    else [s[0]] + Substitute(s[1..], n1, n2)
  }

  const HEAD := "{race_loc"

  lemma TailCompleted(u: string)
    requires "2}" <= Replace(u, TOKEN1, "2")
    ensures "2}" <= u || TOKEN1 + "}" <= u
  {
    var out := Replace(u, TOKEN1, "2");
    if TOKEN1 <= u {
      var v := u[|TOKEN1|..];
      assert u == TOKEN1 + v && out == "2" + Replace(v, TOKEN1, "2");
      assert out[1] == '}' && out[1..] == Replace(v, TOKEN1, "2");
      assert "}" + [] <= Replace(v, TOKEN1, "2");
      LettersThrough("}", [], v, TOKEN1, "2");
    } else {
      assert out[1..] == Replace(u[1..], TOKEN1, "2") && "}" + [] <= out[1..];
      LettersThrough("}", [], u[1..], TOKEN1, "2");
    }
  }

  lemma Prefixed(p: string, q: string, u: string)
    requires q <= u
    ensures p + q <= p + u
  {
  }

  /** With number 2 a token can complete another one. */
  lemma TokenCompleted(s: string)
    requires TOKEN2 <= Replace(s, TOKEN1, "2")
    ensures TOKEN2 <= s || NESTED <= s
  {
    NoLetters("2");
    assert TOKEN2 == HEAD + "2}" && NESTED == HEAD + (TOKEN1 + "}");
    LettersThrough(HEAD, "2}", s, TOKEN1, "2");
    var u := s[9..];
    assert s == HEAD + u;
    TailCompleted(u);
    if "2}" <= u {
      Prefixed(HEAD, "2}", u);
    } else {
      Prefixed(HEAD, TOKEN1 + "}", u);
    }
  }

  lemma {:induction false} SequentialIsSimultaneous(s: string, n1: string, n2: string)
    requires Numeric(n1) && Numeric(n2) && (n1 == "2" ==> !Contains(s, NESTED))
    ensures Replace(Replace(s, TOKEN1, n1), TOKEN2, n2) == Substitute(s, n1, n2)
    decreases |s|
  {
    NumericFacts(n1);
    if s != [] {
      var mid := Replace(s, TOKEN1, n1);
      if TOKEN1 <= s {
        var rest := s[|TOKEN1|..];
        assert s == TOKEN1 + rest;
        NestedTail(TOKEN1, rest);
        ReplaceSkip(n1, Replace(rest, TOKEN1, n1), TOKEN2, n2);
        SequentialIsSimultaneous(rest, n1, n2);
      } else if TOKEN2 <= s {
        var rest := s[|TOKEN2|..];
        assert s == TOKEN2 + rest;
        NestedTail(TOKEN2, rest);
        TokenPassed(rest, n1);
        assert (TOKEN2 + Replace(rest, TOKEN1, n1))[|TOKEN2|..] == Replace(rest, TOKEN1, n1);
        SequentialIsSimultaneous(rest, n1, n2);
      } else {
        if TOKEN2 <= mid {
          NotCompleted(s, n1);
        }
        assert mid[0] == s[0] && mid[1..] == Replace(s[1..], TOKEN1, n1);
        SequentialIsSimultaneous(s[1..], n1, n2);
      }
    }
  }

  lemma NestedTail(p: string, s: string)
    ensures Contains(s, NESTED) ==> Contains(p + s, NESTED)
  {
    if Contains(s, NESTED) {
      ContainsTail(p, s, NESTED);
    }
  }

  /** Replacing the first token passes over the second one. */
  lemma TokenPassed(rest: string, n1: string)
    ensures Replace(TOKEN2 + rest, TOKEN1, n1) == TOKEN2 + Replace(rest, TOKEN1, n1)
  {
    var body := TOKEN2[1..];
    var s := TOKEN2 + rest;
    assert s[0] == '{' && s[1..] == body + rest && s[9] == '2' && TOKEN1[9] == '1';
    ReplaceSkip(body, rest, TOKEN1, n1);
    assert TOKEN2 == ['{'] + body;
  }

  lemma NotCompleted(s: string, n1: string)
    requires Numeric(n1) && (n1 == "2" ==> !Contains(s, NESTED)) && TOKEN2 <= Replace(s, TOKEN1, n1)
    ensures TOKEN2 <= s
  {
    TokenSpelling();
    if n1 == "2" {
      TokenCompleted(s);
    } else {
      TokenStarts(s, TOKEN1, n1, '2');
    }
  }

  // ----- where the nested token is, the two ways differ

  lemma {:induction false} SubstituteSkip(p: string, s: string, n1: string, n2: string)
    requires '{' !in p
    ensures Substitute(p + s, n1, n2) == p + Substitute(s, n1, n2)
  {
    if p == [] {
      assert p + s == s;
    } else {
      SubstituteSkip(p[1..], s, n1, n2);
      assert (p + s)[1..] == p[1..] + s && p[0] in p && (p + s)[0] == p[0];
    }
  }

  lemma SubstituteFirst(s: string, n1: string, n2: string)
    ensures Substitute(TOKEN1 + s, n1, n2) == n1 + Substitute(s, n1, n2)
  {
    assert (TOKEN1 + s)[|TOKEN1|..] == s;
  }

  /** What stands between the braces of the nested token. */
  lemma SubstituteHead(s: string, n1: string, n2: string)
    requires s != [] && s[0] == '{'
    ensures Substitute(HEAD + s, n1, n2) == HEAD + Substitute(s, n1, n2)
  {
    var t, letters := HEAD + s, HEAD[1..];
    assert t[0] == '{' && t[9] == '{' && TOKEN1[9] == '1' && TOKEN2[9] == '2';
    assert t[1..] == letters + s && HEAD == ['{'] + letters;
    SubstituteSkip(letters, s, n1, n2);
  }

  lemma NestedBecomesToken(rest: string, n2: string)
    ensures TOKEN2 <= Substitute(NESTED + rest, "2", n2)
  {
    var more := TOKEN1 + ("}" + rest);
    assert NESTED + rest == HEAD + more;
    SubstituteHead(more, "2", n2);
    SubstituteFirst("}" + rest, "2", n2);
    SubstituteSkip("}", rest, "2", n2);
    assert Substitute(more, "2", n2) == "2" + ("}" + Substitute(rest, "2", n2));
    assert "2}" <= Substitute(more, "2", n2);
    Prefixed(HEAD, "2}", Substitute(more, "2", n2));
    assert TOKEN2 == HEAD + "2}";
  }

  lemma {:induction false} NestedStays(s: string, n2: string)
    requires Contains(s, NESTED)
    ensures Contains(Substitute(s, "2", n2), TOKEN2)
    decreases |s|
  {
    if NESTED <= s {
      assert s == NESTED + s[|NESTED|..];
      NestedBecomesToken(s[|NESTED|..], n2);
    } else if TOKEN1 <= s {
      var rest := s[|TOKEN1|..];
      assert s[1..] == TOKEN1[1..] + rest;
      ContainsSkip(TOKEN1[1..], rest, NESTED);
      NestedStays(rest, n2);
      ContainsTail("2", Substitute(rest, "2", n2), TOKEN2);
    } else if TOKEN2 <= s {
      var rest := s[|TOKEN2|..];
      assert s[1..] == TOKEN2[1..] + rest;
      ContainsSkip(TOKEN2[1..], rest, NESTED);
      NestedStays(rest, n2);
      ContainsTail(n2, Substitute(rest, "2", n2), TOKEN2);
    } else {
      NestedStays(s[1..], n2);
      ContainsTail([s[0]], Substitute(s[1..], "2", n2), TOKEN2);
    }
  }

  /** MAIN RESULT. The pass writes exactly the numbers of the two tokens of the text, unless the first
      marker is on the first line and the text has one token inside another; then it does not. */
  lemma {:induction false} WritesTheTwoNumbersExactly(code: string)
    ensures Labelled(code) == Substitute(code, Str(Loc1(code)), Str(Loc2(code))) <==> !(Loc1(code) == 2 && Contains(code, NESTED))
  {
    var n1, n2 := Str(Loc1(code)), Str(Loc2(code));
    NumberIs(Loc1(code), 2);
    if Loc1(code) == 2 && Contains(code, NESTED) {
      NestedStays(code, n2);
      NoTokenLeft(code);
    } else {
      SequentialIsSimultaneous(code, n1, n2);
    }
  }

  // ----- what a header becomes

  lemma {:induction false} SubstituteBefore(a: string, s: string, n1: string, n2: string)
    requires !Contains(a, TOKEN1) && !Contains(a, TOKEN2) && (s == [] || s[0] == '{')
    ensures Substitute(a + s, n1, n2) == a + Substitute(s, n1, n2)
  {
    if a == [] {
      assert a + s == s;
    } else {
      var t := a + s;
      TokenWithin(a, s, TOKEN1);
      TokenWithin(a, s, TOKEN2);
      assert t[1..] == a[1..] + s && t[0] == a[0];
      SubstituteBefore(a[1..], s, n1, n2);
    }
  }

  lemma SubstituteSecond(s: string, n1: string, n2: string)
    ensures Substitute(TOKEN2 + s, n1, n2) == n2 + Substitute(s, n1, n2)
  {
    assert (TOKEN2 + s)[|TOKEN2|..] == s && TOKEN1[9] == '1' && (TOKEN2 + s)[9] == '2';
  }

  predicate NoToken(s: string) {
    !Contains(s, "{race_loc1}") && !Contains(s, "{race_loc2}")
  }

  /** MAIN RESULT. A program without a race stays as it is. In a program with a race the two tokens of the header
      are written over by the numbers of the lines after the first two markers, and nothing else changes: for any
      text around the tokens that has no other token, but for the one case of the result above. */
  lemma {:induction false} HeaderWritten(a: string, b: string, d: string)
    requires NoToken(a) && NoToken(b) && NoToken(d)
    ensures var code := a + ("{race_loc1}" + (b + ("{race_loc2}" + d)));
            && LabelPass(code, false) == code
            && (!(Loc1(code) == 2 && Contains(code, "{race_loc{race_loc1}}")) ==>
                  LabelPass(code, true) == a + (Str(Loc1(code)) + (b + (Str(Loc2(code)) + d))))
  {
    var code := a + (TOKEN1 + (b + (TOKEN2 + d)));
    var n1, n2 := Str(Loc1(code)), Str(Loc2(code));
    SubstituteBefore(a, TOKEN1 + (b + (TOKEN2 + d)), n1, n2);
    SubstituteFirst(b + (TOKEN2 + d), n1, n2);
    SubstituteBefore(b, TOKEN2 + d, n1, n2);
    SubstituteSecond(d, n1, n2);
    SubstituteBefore(d, [], n1, n2);
    assert d + [] == d;
    WritesTheTwoNumbersExactly(code);
  }

  /** A line with the comment is marked, whatever stands around it. */
  lemma {:induction false} CommentMarks(line: string)
    ensures Marked(line) <==> exists i :: 0 <= i <= |line| && "// CONFLICT" <= line[i..]
  {
    ContainsAt(line, MARK);
  }

  /** MAIN RESULT. In a file whose first two lines with the comment are lines `i` and `j`, counted from zero, the
      numbers are those of the lines after them, counted from one. */
  lemma {:induction false} NumbersAreLines(lines: seq<string>, i: nat, j: nat)
    requires (forall k :: 0 <= k < |lines| ==> Printable(lines[k])) && i < j < |lines|
    requires forall k :: 0 <= k <= j ==> (Marked(lines[k]) <==> k == i || k == j)
    ensures Loc1(Joined(lines)) == i + 2 && Loc2(Joined(lines)) == j + 2
  {
    SplitJoined(lines, "");
    assert Joined(lines) + "" == Joined(lines) && lines + LastLine("") == lines;
    NextUnique(lines, 0, i);
    NextUnique(lines, i + 1, j);
  }

  /** Whatever the text: with a race no token is left and the numbers written are those of the lines after the
      markers; without one nothing changes. */
  lemma {:induction false} PassByRace(code: string)
    ensures LabelPass(code, false) == code
    ensures var out := LabelPass(code, true);
            && !Contains(out, TOKEN1) && !Contains(out, TOKEN2)
            && |SplitLines(out)| == |SplitLines(code)|
            && AfterMark(SplitLines(out), 0, Loc1(code))
            && if Loc1(code) == -1 then Loc2(code) == -1 else AfterMark(SplitLines(out), Loc1(code) - 1, Loc2(code))
  {
    NoTokenLeft(code);
    NumbersFitOutput(code);
  }
}
