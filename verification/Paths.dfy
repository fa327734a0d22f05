/**
 The path builder of `render_template` in util/generate.py.

 A test case goes to the template's directory without its first component, under its number padded to
 three digits and the template's name with the verdict and the operations filled in. Two cases in one
 directory have different paths as soon as their numbers differ, whatever the names and the numbers.
 */
module Paths {
  import opened Text

  function Zeros(n: nat): (r: string)
    ensures |r| == n && forall c :: c in r ==> c == '0'
  {
    if n == 0 then [] else "0" + Zeros(n - 1)
  }

  /** Python's `f"{n:03d}"` of a natural number. */
  function Pad3(n: nat): (r: string)
    ensures |r| >= 3 && forall c :: c in r ==> c in DIGITS
  {
    var d := Decimal(n);
    if |d| < 3 then Zeros(3 - |d|) + d else d
  }

  /** Everything before the last slash, and everything after it (`os.path.split`). */
  function LastSlash(p: string): (k: int)
    ensures -1 <= k < |p| && (k >= 0 ==> p[k] == '/') && forall i :: k < i < |p| ==> p[i] != '/'
  {
    if p == [] then -1 else if p[|p| - 1] == '/' then |p| - 1 else LastSlash(p[..|p| - 1])
  }

  function Head(p: string): string {
    if LastSlash(p) < 0 then [] else p[..LastSlash(p)]
  }

  function Tail(p: string): string {
    p[LastSlash(p) + 1..]
  }

  function Verdict(race: bool): string {
    if race then "yes" else "no"
  }

  /** The name of the case file without its number. */
  function FileName(base: string, race: bool, op1: string, op2: string): string {
    Replace(Replace(Replace(Replace(base, "race", Verdict(race)), "op1", op1), "op2", op2), ".j2", "")
  }

  /** The directory of the cases of a template. */
  function Directory(template: string): string {
    Replace(Head(template), "templates/", "")
  }

  /** The path of a case: `template` is the path of its template. */
  function CasePath(template: string, number: nat, race: bool, op1: string, op2: string): string {
    var file := Pad3(number) + "-" + FileName(Tail(template), race, op1, op2);
    if Directory(template) == "" then file else Directory(template) + "/" + file
  }

  predicate NoSlash(s: string) {
    '/' !in s
  }

  /** A file name, or a part of one. */
  type Name = s: string | NoSlash(s) witness ""

  // ----- numbers can be read back

  function Digit(c: char): nat
    requires c in DIGITS
  {
    (c - '0') as nat
  }

  function Value(s: string): nat
    requires forall c :: c in s ==> c in DIGITS
  {
    if s == [] then 0 else Value(s[..|s| - 1]) * 10 + Digit(s[|s| - 1])
  }

  lemma {:induction false} ValueOfDecimal(n: nat)
    ensures Value(Decimal(n)) == n
  {
    var d := Decimal(n);
    if n < 10 {
      assert d[..0] == [] && Digit(DIGITS[n]) == n;
    } else {
      ValueOfDecimal(n / 10);
      assert d[..|d| - 1] == Decimal(n / 10) && Digit(DIGITS[n % 10]) == n % 10;
    }
  }

  lemma {:induction false} ValueOfZeros(z: nat, s: string)
    requires forall c :: c in s ==> c in DIGITS
    ensures (forall c :: c in Zeros(z) + s ==> c in DIGITS) && Value(Zeros(z) + s) == Value(s)
  {
    var t := Zeros(z) + s;
    if s == [] {
      assert t == Zeros(z);
      if z > 0 {
        ValueOfZeros(z - 1, []);
        assert t[..|t| - 1] == Zeros(z - 1) + [] by {
          ZerosEnd(z);
        }
        assert t[|t| - 1] in Zeros(z);
      }
    } else {
      ValueOfZeros(z, s[..|s| - 1]);
      assert t[..|t| - 1] == Zeros(z) + s[..|s| - 1];
    }
  }

  lemma {:induction false} ZerosEnd(z: nat)
    requires z > 0
    ensures Zeros(z)[..z - 1] == Zeros(z - 1)
  {
    if z > 1 {
      ZerosEnd(z - 1);
      assert Zeros(z)[..z - 1] == "0" + Zeros(z - 1)[..z - 2];
    }
  }

  /** A padded number can be read back, however long it is. */
  lemma {:induction false} PadReadsBack(n: nat)
    ensures Value(Pad3(n)) == n
  {
    ValueOfDecimal(n);
    if |Decimal(n)| < 3 {
      ValueOfZeros(3 - |Decimal(n)|, Decimal(n));
    }
  }

  lemma NumberUpToDash(a: string, x: string, b: string, y: string)
    requires '-' !in a && '-' !in b && a + "-" + x == b + "-" + y
    ensures a == b && x == y
  {
    var s := a + "-" + x;
    assert s[|a|] == '-' && s[|b|] == '-';
    assert forall i :: 0 <= i < |a| ==> s[i] == a[i] != '-';
    assert forall i :: 0 <= i < |b| ==> s[i] == b[i] != '-';
    assert s[..|a|] == a && s[..|b|] == b && s[|a| + 1..] == x && s[|b| + 1..] == y;
  }

  /** The number is a prefix of the name that the name gives back. */
  lemma PaddedInjective(m: nat, x: string, n: nat, y: string)
    requires Pad3(m) + "-" + x == Pad3(n) + "-" + y
    ensures m == n && x == y
  {
    NumberUpToDash(Pad3(m), x, Pad3(n), y);
    PadReadsBack(m);
    PadReadsBack(n);
  }

  // ----- paths

  lemma NameHasNoSlash(base: string, race: bool, op1: string, op2: string)
    requires NoSlash(base) && NoSlash(op1) && NoSlash(op2)
    ensures NoSlash(FileName(base, race, op1, op2))
  {
    var verdict := Verdict(race);
    var r1 := Replace(base, "race", verdict);
    var r2 := Replace(r1, "op1", op1);
    var r3 := Replace(r2, "op2", op2);
    if '/' in Replace(r3, ".j2", "") {
      ReplaceChars(r3, ".j2", "", '/');
      ReplaceChars(r2, "op2", op2, '/');
      ReplaceChars(r1, "op1", op1, '/');
      ReplaceChars(base, "race", verdict, '/');
    }
  }

  lemma FileHasNoSlash(t: string, m: nat, race: bool, op1: string, op2: string)
    requires NoSlash(op1) && NoSlash(op2)
    ensures NoSlash(Pad3(m) + "-" + FileName(Tail(t), race, op1, op2))
  {
    TailHasNoSlash(t);
    NameHasNoSlash(Tail(t), race, op1, op2);
  }

  /** A path without a directory has no slash. */
  lemma SplitPath(d: string, x: string, e: string, y: string)
    requires NoSlash(x) && NoSlash(y) && (if d == "" then x else d + "/" + x) == (if e == "" then y else e + "/" + y)
    ensures d == e && x == y
  {
    assert (d + "/" + x)[|d|] == '/' && (e + "/" + y)[|e|] == '/';
    if d != "" && e != "" {
      DirUpToSlash(d, x, e, y);
    }
  }

  lemma TailHasNoSlash(p: string)
    ensures NoSlash(Tail(p))
  {
  }

  lemma DirUpToSlash(a: string, x: string, b: string, y: string)
    requires NoSlash(x) && NoSlash(y) && a + "/" + x == b + "/" + y
    ensures a == b && x == y
  {
    var s := a + "/" + x;
    assert s[|a|] == '/' && s[|b|] == '/';
    assert forall i :: |a| < i < |s| ==> s[i] == x[i - |a| - 1] != '/';
    assert forall i :: |b| < i < |s| ==> s[i] == y[i - |b| - 1] != '/';
    assert s[..|a|] == a && s[..|b|] == b && s[|a| + 1..] == x && s[|b| + 1..] == y;
  }

  /** MAIN RESULT. Cases with one path have one directory, one number and one name, for all templates, all
      numbers and all operation names without a slash. */
  lemma {:induction false} PathInjective(t: string, m: nat, r: bool, a: string, b: string, t': string, n: nat, r': bool, a': string, b': string)
    requires NoSlash(a) && NoSlash(b) && NoSlash(a') && NoSlash(b')
    requires CasePath(t, m, r, a, b) == CasePath(t', n, r', a', b')
    ensures Directory(t) == Directory(t') && m == n && FileName(Tail(t), r, a, b) == FileName(Tail(t'), r', a', b')
  {
    FileHasNoSlash(t, m, r, a, b);
    FileHasNoSlash(t', n, r', a', b');
    SplitPath(Directory(t), Pad3(m) + "-" + FileName(Tail(t), r, a, b), Directory(t'), Pad3(n) + "-" + FileName(Tail(t'), r', a', b'));
    PaddedInjective(m, FileName(Tail(t), r, a, b), n, FileName(Tail(t'), r', a', b'));
  }

  lemma {:induction false} HeadOf(a: string, x: string)
    requires NoSlash(x)
    ensures Head(a + "/" + x) == a && Tail(a + "/" + x) == x
  {
    var s := a + "/" + x;
    var k := LastSlash(s);
    assert s[|a|] == '/';
    assert forall i :: |a| < i < |s| ==> s[i] == x[i - |a| - 1] != '/';
    assert k == |a|;
  }

  lemma {:induction false} ContainsLength(s: string, m: string)
    requires Contains(s, m)
    ensures |m| <= |s|
  {
    if !(m <= s) {
      ContainsLength(s[1..], m);
    }
  }

  /** The cases of a template in `templates/<a>/<b>` go to `<a>/<b>`. */
  lemma {:induction false} DirectoryOf(a: string, b: Name, base: Name)
    requires 't' !in a && |b| < 10
    ensures Directory("templates/" + (a + "/" + b) + "/" + base) == a + "/" + b
  {
    var t, d := "templates/", a + "/" + b;
    HeadOf(t + d, base);
    assert t + d + "/" + base == (t + d) + "/" + base;
    assert t <= t + d && (t + d)[|t|..] == d;
    if Contains(b, t) {
      ContainsLength(b, t);
    }
    ReplaceAbsent(b, t, "");
    assert d == (a + "/") + b;
    ReplaceSkip(a + "/", b, t, "");
  }

  // ----- what a file is called

  function Dash(a: string, b: string): string {
    a + (['-'] + b)
  }

  lemma DashReplaced(a: string, b: string, tok: string, sub: string)
    requires tok != [] && '-' !in tok
    ensures Replace(Dash(a, b), tok, sub) == Dash(Replace(a, tok, sub), Replace(b, tok, sub))
  {
    ReplaceAround(a, '-', b, tok, sub);
  }

  /** None of the placeholders of a template's name. */
  predicate Plain(s: string) {
    !Contains(s, "race") && !Contains(s, "op1") && !Contains(s, "op2") && !Contains(s, ".j2")
  }

  /** The name while placeholders are still to be filled in: the parts between the dashes. */
  function Parts(q: string, x: string, y: string, k: string, end: string): string {
    Dash(q, Dash(x, Dash(y, Dash(k, end))))
  }

  lemma PartsReplaced(q: string, x: string, y: string, k: string, end: string, tok: string, sub: string)
    requires tok != [] && '-' !in tok && !Contains(q, tok) && !Contains(k, tok)
    ensures Replace(Parts(q, x, y, k, end), tok, sub) == Parts(q, Replace(x, tok, sub), Replace(y, tok, sub), k, Replace(end, tok, sub))
  {
    DashReplaced(q, Dash(x, Dash(y, Dash(k, end))), tok, sub);
    DashReplaced(x, Dash(y, Dash(k, end)), tok, sub);
    DashReplaced(y, Dash(k, end), tok, sub);
    DashReplaced(k, end, tok, sub);
    ReplaceAbsent(q, tok, sub);
    ReplaceAbsent(k, tok, sub);
  }

  /** A part that is the placeholder, and parts that lack one of its characters. */
  lemma Filled(tok: string, sub: string)
    requires tok != []
    ensures Replace(tok, tok, sub) == sub
  {
    ReplaceHead(tok, "", sub);
    assert tok + "" == tok && sub + "" == sub;
  }

  lemma Untouched(s: string, tok: string, sub: string, c: char)
    requires c in tok && c !in s
    ensures Replace(s, tok, sub) == s
  {
    LacksCharacter(s, tok, c);
    ReplaceAbsent(s, tok, sub);
  }

  /** The end of the name, with the verdict. */
  function End(race: bool): string {
    Verdict(race) + ".c.j2"
  }

  lemma EndWritten(race: bool)
    ensures Replace("race.c.j2", "race", Verdict(race)) == End(race)
  {
    assert "race.c.j2" == "race" + ".c.j2";
    ReplaceHead("race", ".c.j2", Verdict(race));
    Untouched(".c.j2", "race", Verdict(race), 'r');
  }

  lemma EndKept(race: bool, a: string, b: string)
    ensures Replace(End(race), "op1", a) == Replace(End(race), "op2", b) == End(race)
  {
    Untouched(End(race), "op1", a, 'p');
    Untouched(End(race), "op2", b, 'p');
  }

  lemma EndingDropped(race: bool)
    ensures Replace(End(race), ".j2", "") == Verdict(race) + ".c"
  {
    var v := Verdict(race);
    assert End(race) == (v + ".c") + ".j2" && ".j2"[1..] == "j2";
    LacksCharacter(v + ".c", ".j2", 'j');
    ReplaceBefore(v + ".c", ".j2", ".j2", "");
    Filled(".j2", "");
  }

  lemma RaceFilled(q: string, k: string, race: bool)
    requires Plain(q) && Plain(k)
    ensures Replace(Parts(q, "op1", "op2", k, "race.c.j2"), "race", Verdict(race)) == Parts(q, "op1", "op2", k, End(race))
  {
    PartsReplaced(q, "op1", "op2", k, "race.c.j2", "race", Verdict(race));
    EndWritten(race);
    Untouched("op1", "race", Verdict(race), 'r');
    Untouched("op2", "race", Verdict(race), 'r');
  }

  lemma FirstFilled(q: string, k: string, race: bool, a: string)
    requires Plain(q) && Plain(k)
    ensures Replace(Parts(q, "op1", "op2", k, End(race)), "op1", a) == Parts(q, a, "op2", k, End(race))
  {
    PartsReplaced(q, "op1", "op2", k, End(race), "op1", a);
    EndKept(race, a, a);
    Filled("op1", a);
    Untouched("op2", "op1", a, '1');
  }

  lemma SecondFilled(q: string, k: string, race: bool, a: string, b: string)
    requires Plain(q) && Plain(k) && !Contains(a, "op2")
    ensures Replace(Parts(q, a, "op2", k, End(race)), "op2", b) == Parts(q, a, b, k, End(race))
  {
    PartsReplaced(q, a, "op2", k, End(race), "op2", b);
    EndKept(race, b, b);
    ReplaceAbsent(a, "op2", b);
    Filled("op2", b);
  }

  lemma LastDropped(q: string, k: string, race: bool, a: string, b: string)
    requires Plain(q) && Plain(k) && !Contains(a, ".j2") && !Contains(b, ".j2")
    ensures Replace(Parts(q, a, b, k, End(race)), ".j2", "") == Parts(q, a, b, k, Verdict(race) + ".c")
  {
    PartsReplaced(q, a, b, k, End(race), ".j2", "");
    EndingDropped(race);
    ReplaceAbsent(a, ".j2", "");
    ReplaceAbsent(b, ".j2", "");
  }

  lemma Spelled(q: string, x: string, y: string, k: string, end: string)
    ensures Parts(q, x, y, k, end) == q + "-" + x + "-" + y + "-" + k + "-" + end
  {
  }

  lemma PartsFilled(q: string, k: string, race: bool, a: string, b: string)
    requires Plain(q) && Plain(k) && !Contains(a, "op2") && !Contains(a, ".j2") && !Contains(b, ".j2")
    ensures FileName(Parts(q, "op1", "op2", k, "race.c.j2"), race, a, b) == Parts(q, a, b, k, Verdict(race) + ".c")
  {
    RaceFilled(q, k, race);
    FirstFilled(q, k, race, a);
    SecondFilled(q, k, race, a, b);
    LastDropped(q, k, race, a, b);
  }

  /** MAIN RESULT. A case is called after its template, its operations and its verdict, which is "yes" exactly for a
      race: for a template `<q>-op1-op2-<k>-race.c.j2` where `q` and `k` have no placeholders, a first operation
      whose name has no later one, and a second operation whose name does not have the ending. */
  lemma {:induction false} CaseIsCalled(q: string, k: string, race: bool, a: string, b: string)
    requires Plain(q) && Plain(k) && !Contains(a, "op2") && !Contains(a, ".j2") && !Contains(b, ".j2")
    ensures FileName(q + "-op1-op2-" + k + "-race.c.j2", race, a, b) == q + "-" + a + "-" + b + "-" + k + "-" + (if race then "yes" else "no") + ".c"
  {
    Spelled(q, "op1", "op2", k, "race.c.j2");
    DashesSpelled(q, k);
    PartsFilled(q, k, race, a, b);
    Spelled(q, a, b, k, Verdict(race) + ".c");
    assert q + "-" + a + "-" + b + "-" + k + "-" + (Verdict(race) + ".c") == q + "-" + a + "-" + b + "-" + k + "-" + Verdict(race) + ".c";
  }

  lemma DashesSpelled(q: string, k: string)
    ensures q + "-op1-op2-" + k + "-race.c.j2" == q + "-" + "op1" + "-" + "op2" + "-" + k + "-" + "race.c.j2"
  {
    assert "-op1-op2-" == "-" + "op1" + "-" + "op2" + "-" && "-race.c.j2" == "-" + "race.c.j2";
  }

  lemma DashSpelled(q: string, r: bool)
    ensures q + "-race.c.j2" == Dash(q, "race.c.j2")
    ensures q + "-" + (if r then "yes" else "no") + ".c.j2" == Dash(q, End(r))
    ensures q + "-" + (if r then "yes" else "no") + ".c" == Dash(q, Verdict(r) + ".c")
  {
    assert "-race.c.j2" == "-" + "race.c.j2";
  }

  lemma VerdictFilled(q: string, race: bool, a: string, b: string)
    requires Plain(q)
    ensures FileName(Dash(q, "race.c.j2"), race, a, b) == Dash(q, Verdict(race) + ".c")
  {
    DashFilled(q, "race.c.j2", "race", Verdict(race));
    EndWritten(race);
    EndDone(q, race, a, b);
  }

  lemma VerdictGiven(q: string, race: bool, r: bool, a: string, b: string)
    requires Plain(q)
    ensures FileName(Dash(q, End(r)), race, a, b) == Dash(q, Verdict(r) + ".c")
  {
    Untouched(End(r), "race", Verdict(race), 'a');
    DashFilled(q, End(r), "race", Verdict(race));
    EndDone(q, r, a, b);
  }

  /** The templates without operations: the verdict is filled in, or it is part of the template's name. */
  lemma {:induction false} PlainCaseIsCalled(q: string, race: bool, r: bool, a: string, b: string)
    requires Plain(q)
    ensures FileName(q + "-race.c.j2", race, a, b) == q + "-" + (if race then "yes" else "no") + ".c"
    ensures FileName(q + "-" + (if r then "yes" else "no") + ".c.j2", race, a, b) == q + "-" + (if r then "yes" else "no") + ".c"
  {
    DashSpelled(q, race);
    DashSpelled(q, r);
    VerdictFilled(q, race, a, b);
    VerdictGiven(q, race, r, a, b);
  }

  lemma DashFilled(q: string, end: string, tok: string, sub: string)
    requires tok != [] && '-' !in tok && !Contains(q, tok)
    ensures Replace(Dash(q, end), tok, sub) == Dash(q, Replace(end, tok, sub))
  {
    DashReplaced(q, end, tok, sub);
    ReplaceAbsent(q, tok, sub);
  }

  lemma EndDone(q: string, r: bool, a: string, b: string)
    requires Plain(q)
    ensures Replace(Replace(Replace(Dash(q, End(r)), "op1", a), "op2", b), ".j2", "") == Dash(q, Verdict(r) + ".c")
  {
    DashFilled(q, End(r), "op1", a);
    DashFilled(q, End(r), "op2", b);
    DashFilled(q, End(r), ".j2", "");
    EndKept(r, a, b);
    EndingDropped(r);
  }

  /** The name tells whether the case has a race. */
  lemma {:induction false} VerdictTold(q: string, k: string, a: string, b: string)
    requires Plain(q) && Plain(k) && !Contains(a, "op2") && !Contains(a, ".j2") && !Contains(b, ".j2")
    ensures var base := q + "-op1-op2-" + k + "-race.c.j2"; FileName(base, true, a, b) != FileName(base, false, a, b)
  {
    CaseIsCalled(q, k, true, a, b);
    CaseIsCalled(q, k, false, a, b);
    var front := q + "-" + a + "-" + b + "-" + k + "-";
    assert |front + "yes" + ".c"| == |front| + 5 && |front + "no" + ".c"| == |front| + 4;
  }

  /** Three digits at least, and no more than it takes. */
  lemma {:induction false} PadWidth(n: nat)
    ensures n < 1000 ==> |Pad3(n)| == 3
    ensures n >= 100 ==> Pad3(n) == Decimal(n)
  {
    DecimalDigits(n);
  }

  lemma DecimalDigits(n: nat)
    ensures |Decimal(n)| >= 1 && (n < 1000 ==> |Decimal(n)| <= 3) && (n >= 100 ==> |Decimal(n)| >= 3)
  {
    DecimalLength(n);
    DecimalLength(n / 10);
    DecimalLength(n / 100);
    assert n / 10 / 10 == n / 100;
    if n >= 10 {
      assert |Decimal(n)| == |Decimal(n / 10)| + 1;
    }
    if n >= 100 {
      assert |Decimal(n / 10)| == |Decimal(n / 100)| + 1;
    }
  }

  /** The path of a case of a template in `templates/<a>/<b>`. */
  lemma {:induction false} PathIs(a: string, b: Name, base: Name, n: nat, race: bool, op1: string, op2: string)
    requires 't' !in a && |b| < 10
    ensures CasePath("templates/" + (a + "/" + b) + "/" + base, n, race, op1, op2) ==
            a + "/" + b + "/" + Pad3(n) + "-" + FileName(base, race, op1, op2)
  {
    var t, name := "templates/" + (a + "/" + b), FileName(base, race, op1, op2);
    DirectoryOf(a, b, base);
    HeadOf(t, base);
    assert (a + "/" + b) + "/" + (Pad3(n) + "-" + name) == a + "/" + b + "/" + Pad3(n) + "-" + name;
  }
}
