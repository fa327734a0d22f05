/**
 The generator loops of util/generate.py: case counters, one case for each name pair of a row, totals.
 */
module Generator {
  import opened Paths

  datatype Model = MPIRMA | SHMEM | GASPI
  datatype Discipline = CONFLICT | SYNC | ATOMIC | HYBRID | MISC

  const MODELS := [MPIRMA, SHMEM, GASPI]
  const DISCIPLINES := [CONFLICT, SYNC, ATOMIC, HYBRID, MISC]

  /** `name` is what appears in file names; several operations may share it. */
  datatype Operation = Operation(name: Name, callName: string)

  /** A rendered case; `base` is the file name of its template. */
  datatype Case = Case(number: int, discipline: Discipline, model: Model, base: Name, op1: Operation, op2: Operation, race: bool)

  // ----- counting cases

  function Count(cases: seq<Case>, d: Discipline, m: Model): (n: nat)
    ensures n <= |cases|
  {
    if cases == [] then 0
    else
      var c := cases[|cases| - 1];
      Count(cases[..|cases| - 1], d, m) + if c.discipline == d && c.model == m then 1 else 0
  }

  function CountRaces(cases: seq<Case>, d: Discipline, m: Model): (n: nat)
    ensures n <= Count(cases, d, m)
  {
    if cases == [] then 0
    else
      var c := cases[|cases| - 1];
      CountRaces(cases[..|cases| - 1], d, m) + if c.discipline == d && c.model == m && c.race then 1 else 0
  }

  /** The cases of one discipline and model are numbered 1, 2, ... in the order of rendering. */
  ghost predicate Numbered(cases: seq<Case>) {
    forall k: nat :: k < |cases| ==> RightNumber(cases, k)
  }

  predicate RightNumber(cases: seq<Case>, k: nat)
    requires k < |cases|
  {
    cases[k].number == Count(cases[..k + 1], cases[k].discipline, cases[k].model)
  }

  lemma {:induction false} CountGrows(cases: seq<Case>, d: Discipline, m: Model, i: nat, j: nat)
    requires i <= j <= |cases|
    ensures Count(cases[..i], d, m) <= Count(cases[..j], d, m)
  {
    if i < j {
      CountGrows(cases, d, m, i, j - 1);
      assert cases[..j][..j - 1] == cases[..j - 1];
    }
  }

  lemma CountLast(cases: seq<Case>, k: nat)
    requires k < |cases|
    ensures Count(cases[..k + 1], cases[k].discipline, cases[k].model) == Count(cases[..k], cases[k].discipline, cases[k].model) + 1
  {
    assert cases[..k + 1][..k] == cases[..k];
  }

  /** No number is used twice in a discipline of a model. */
  lemma {:induction false} NumbersDiffer(cases: seq<Case>, i: nat, j: nat)
    requires Numbered(cases) && i < j < |cases|
    requires cases[i].discipline == cases[j].discipline && cases[i].model == cases[j].model
    ensures 1 <= cases[i].number < cases[j].number
  {
    assert RightNumber(cases, i) && RightNumber(cases, j);
    CountGrows(cases, cases[i].discipline, cases[i].model, i + 1, j);
    CountLast(cases, i);
    CountLast(cases, j);
  }

  // ----- paths

  function ModelName(m: Model): string {
    match m case MPIRMA => "MPIRMA" case SHMEM => "SHMEM" case GASPI => "GASPI"
  }

  function DisciplineName(d: Discipline): string {
    match d case CONFLICT => "conflict" case SYNC => "sync" case ATOMIC => "atomic" case HYBRID => "hybrid" case MISC => "misc"
  }

  /** Templates are kept by model and discipline. */
  function TemplatePath(m: Model, d: Discipline, base: Name): string {
    "templates/" + (ModelName(m) + "/" + DisciplineName(d)) + "/" + base
  }

  function PathOf(c: Case): string
    requires c.number >= 0
  {
    CasePath(TemplatePath(c.model, c.discipline, c.base), c.number, c.race, c.op1.name, c.op2.name)
  }

  /** A case goes to the directory of its model and discipline. */
  lemma {:induction false} InItsDirectory(m: Model, d: Discipline, base: Name)
    ensures Directory(TemplatePath(m, d, base)) == ModelName(m) + "/" + DisciplineName(d)
  {
    assert NoSlash(DisciplineName(d)) && |DisciplineName(d)| < 10 && 't' !in ModelName(m);
    DirectoryOf(ModelName(m), DisciplineName(d), base);
  }

  /** The directories, spelled out. */
  lemma DirectoriesSpelled()
    ensures ModelName(MPIRMA) == "MPIRMA" && ModelName(SHMEM) == "SHMEM" && ModelName(GASPI) == "GASPI"
    ensures DisciplineName(CONFLICT) == "conflict" && DisciplineName(SYNC) == "sync" && DisciplineName(ATOMIC) == "atomic"
    ensures DisciplineName(HYBRID) == "hybrid" && DisciplineName(MISC) == "misc"
  {
  }

  /** A case goes to its directory, under its number and its name. */
  lemma {:induction false} CaseGoesTo(c: Case)
    requires c.number >= 0
    ensures PathOf(c) == ModelName(c.model) + "/" + DisciplineName(c.discipline) + "/" + Pad3(c.number) + "-"
                         + FileName(c.base, c.race, c.op1.name, c.op2.name)
  {
    assert NoSlash(DisciplineName(c.discipline)) && |DisciplineName(c.discipline)| < 10 && 't' !in ModelName(c.model);
    PathIs(ModelName(c.model), DisciplineName(c.discipline), c.base, c.number, c.race, c.op1.name, c.op2.name);
  }

  lemma NamesDiffer(d: Discipline, m: Model, e: Discipline, l: Model)
    requires ModelName(m) + "/" + DisciplineName(d) == ModelName(l) + "/" + DisciplineName(e)
    ensures d == e && m == l
  {
    assert NoSlash(DisciplineName(d)) && NoSlash(DisciplineName(e));
    DirUpToSlash(ModelName(m), DisciplineName(d), ModelName(l), DisciplineName(e));
    assert ModelName(m)[0] == ModelName(l)[0] && DisciplineName(d)[0] == DisciplineName(e)[0];
  }

  lemma PathTellsCase(c: Case, k: Case)
    requires c.number >= 0 && k.number >= 0 && PathOf(c) == PathOf(k)
    ensures c.discipline == k.discipline && c.model == k.model && c.number == k.number
  {
    var t, u := TemplatePath(c.model, c.discipline, c.base), TemplatePath(k.model, k.discipline, k.base);
    InItsDirectory(c.model, c.discipline, c.base);
    InItsDirectory(k.model, k.discipline, k.base);
    PathInjective(t, c.number, c.race, c.op1.name, c.op2.name, u, k.number, k.race, k.op1.name, k.op2.name);
    NamesDiffer(c.discipline, c.model, k.discipline, k.model);
  }

  lemma NumbersPositive(cases: seq<Case>, i: nat)
    requires Numbered(cases) && i < |cases|
    ensures cases[i].number >= 1
  {
    assert RightNumber(cases, i);
    CountLast(cases, i);
  }

  /** MAIN RESULT. No two cases of a run are written to one path. */
  lemma {:induction false} PathsDiffer(cases: seq<Case>, i: nat, j: nat)
    requires Numbered(cases) && i < j < |cases|
    ensures cases[i].number >= 0 && cases[j].number >= 0 && PathOf(cases[i]) != PathOf(cases[j])
  {
    NumbersPositive(cases, i);
    NumbersPositive(cases, j);
    if PathOf(cases[i]) == PathOf(cases[j]) {
      PathTellsCase(cases[i], cases[j]);
      NumbersDiffer(cases, i, j);
    }
  }

  // ----- one case for each unordered name pair

  predicate Less(a: string, b: string) {
    if b == [] then false
    else if a == [] then true
    else a[0] < b[0] || (a[0] == b[0] && Less(a[1..], b[1..]))
  }

  lemma {:induction false} LessTotal(a: string, b: string)
    ensures Less(a, b) || Less(b, a) || a == b
    ensures !(Less(a, b) && Less(b, a))
  {
    if a != [] && b != [] {
      LessTotal(a[1..], b[1..]);
      assert a == [a[0]] + a[1..] && b == [b[0]] + b[1..];
    }
  }

  /** `tuple(sorted([a, b]))`. */
  function Sorted(a: string, b: string): (string, string) {
    if Less(b, a) then (b, a) else (a, b)
  }

  /** The sorted tuple stands for the unordered pair. */
  lemma {:induction false} SortedIsUnordered(a: string, b: string, c: string, d: string)
    ensures Sorted(a, b) == Sorted(c, d) <==> (a == c && b == d) || (a == d && b == c)
    ensures !Less(Sorted(a, b).1, Sorted(a, b).0)
  {
    LessTotal(a, b);
    LessTotal(c, d);
  }

  type OpPair = (Operation, Operation)

  function Key(p: OpPair): (string, string) {
    Sorted(p.0.name, p.1.name)
  }

  ghost predicate HasKey(ps: seq<OpPair>, key: (string, string)) {
    exists k :: 0 <= k < |ps| && Key(ps[k]) == key
  }

  /** `op1` with each of `ops`, and each of the first with each of the second. */
  function Row(op1: Operation, ops: seq<Operation>): (r: seq<OpPair>)
    ensures |r| == |ops|
  {
    seq(|ops|, j requires 0 <= j < |ops| => (op1, ops[j]))
  }

  function Cross(ops1: seq<Operation>, ops2: seq<Operation>): seq<OpPair> {
    if ops1 == [] then [] else Cross(ops1[..|ops1| - 1], ops2) + Row(ops1[|ops1| - 1], ops2)
  }

  /** The first pair of every key. */
  ghost function Dedupe(ps: seq<OpPair>): (r: seq<OpPair>) {
    if ps == [] then []
    else
      var r, p := Dedupe(ps[..|ps| - 1]), ps[|ps| - 1];
      if HasKey(r, Key(p)) then r else r + [p]
  }

  lemma {:induction false} CrossHasAll(ops1: seq<Operation>, ops2: seq<Operation>, i: nat, j: nat)
    requires i < |ops1| && j < |ops2|
    ensures (ops1[i], ops2[j]) in Cross(ops1, ops2)
  {
    var n := |ops1| - 1;
    if i < n {
      CrossHasAll(ops1[..n], ops2, i, j);
    } else {
      assert Row(ops1[n], ops2)[j] == (ops1[i], ops2[j]);
    }
  }

  lemma {:induction false} DedupeKeys(ps: seq<OpPair>, key: (string, string))
    ensures HasKey(Dedupe(ps), key) <==> HasKey(ps, key)
  {
    if ps != [] {
      var n := |ps| - 1;
      var r := Dedupe(ps[..n]);
      DedupeKeys(ps[..n], key);
      DedupeKeys(ps[..n], Key(ps[n]));
      HasKeyMore(ps[..n], ps[n], key);
      HasKeyMore(r, ps[n], key);
      assert ps == ps[..n] + [ps[n]];
    }
  }

  lemma HasKeyMore(ps: seq<OpPair>, p: OpPair, key: (string, string))
    ensures HasKey(ps + [p], key) <==> HasKey(ps, key) || Key(p) == key
  {
    var qs := ps + [p];
    if HasKey(ps, key) {
      var k :| 0 <= k < |ps| && Key(ps[k]) == key;
      assert Key(qs[k]) == key;
    }
    if Key(p) == key {
      assert Key(qs[|ps|]) == key;
    }
  }

  lemma {:induction false} DedupeDistinct(ps: seq<OpPair>, i: nat, j: nat)
    requires i < j < |Dedupe(ps)|
    ensures Key(Dedupe(ps)[i]) != Key(Dedupe(ps)[j])
  {
    var n := |ps| - 1;
    var r := Dedupe(ps[..n]);
    if j < |r| {
      DedupeDistinct(ps[..n], i, j);
    } else {
      assert Key(Dedupe(ps)[i]) == Key(r[i]);
    }
  }

  lemma {:induction false} DedupeFrom(ps: seq<OpPair>, p: OpPair)
    requires p in Dedupe(ps)
    ensures p in ps
  {
    var n := |ps| - 1;
    if p in Dedupe(ps[..n]) {
      DedupeFrom(ps[..n], p);
    }
  }

  lemma {:induction false} RowsBelow(i: nat, n: nat, m: nat)
    requires i < n
    ensures i * m + m <= n * m
  {
    assert n * m == (n - 1) * m + m;
    if i < n - 1 {
      RowsBelow(i, n - 1, m);
    }
  }

  /** The pairs come in the order of the two loops. */
  lemma {:induction false} CrossInOrder(ops1: seq<Operation>, ops2: seq<Operation>, i: nat, j: nat, p: nat)
    requires i < |ops1| && j < |ops2| && p == i * |ops2| + j
    ensures p < |Cross(ops1, ops2)| == |ops1| * |ops2| && Cross(ops1, ops2)[p] == (ops1[i], ops2[j])
  {
    var n := |ops1| - 1;
    CrossLength(ops1, ops2);
    CrossLength(ops1[..n], ops2);
    RowsBelow(i, |ops1|, |ops2|);
    if i < n {
      CrossInOrder(ops1[..n], ops2, i, j, p);
    } else {
      assert Cross(ops1, ops2)[p] == Row(ops1[n], ops2)[j];
    }
  }

  lemma {:induction false} CrossLength(ops1: seq<Operation>, ops2: seq<Operation>)
    ensures |Cross(ops1, ops2)| == |ops1| * |ops2|
  {
    if ops1 != [] {
      var n := |ops1| - 1;
      CrossLength(ops1[..n], ops2);
      assert (n + 1) * |ops2| == n * |ops2| + |ops2|;
    }
  }

  /** The first place of a key. */
  predicate FirstWith(ps: seq<OpPair>, key: (string, string), k: nat) {
    k < |ps| && Key(ps[k]) == key && forall j :: 0 <= j < k ==> Key(ps[j]) != key
  }

  /** What is rendered is the first pair of its key, and the order of the loops is kept. */
  lemma {:induction false} DedupeKeepsFirst(ps: seq<OpPair>, i: nat) returns (k: nat)
    requires i < |Dedupe(ps)|
    ensures FirstWith(ps, Key(Dedupe(ps)[i]), k) && ps[k] == Dedupe(ps)[i]
    ensures i + 1 == |Dedupe(ps[..k + 1])| && Dedupe(ps[..k + 1]) <= Dedupe(ps)
  {
    var n := |ps| - 1;
    var r := Dedupe(ps[..n]);
    if i < |r| {
      k := DedupeKeepsFirst(ps[..n], i);
      assert ps[..n][..k + 1] == ps[..k + 1];
    } else {
      k := n;
      assert ps[..n + 1] == ps;
      forall j | 0 <= j < n
        ensures Key(ps[j]) != Key(ps[n])
      {
        DedupeKeys(ps[..n], Key(ps[n]));
        assert Key(ps[..n][j]) == Key(ps[j]);
      }
    }
  }

  /** MAIN RESULT. Over any operation lists every unordered name pair of a row is rendered, only such pairs
      are, and none twice. */
  lemma {:induction false} EachPairOnce(ops1: seq<Operation>, ops2: seq<Operation>)
    ensures var r := Dedupe(Cross(ops1, ops2));
            && (forall i, j :: 0 <= i < |ops1| && 0 <= j < |ops2| ==> HasKey(r, Sorted(ops1[i].name, ops2[j].name)))
            && (forall i, j :: 0 <= i < j < |r| ==> Key(r[i]) != Key(r[j]))
            && (forall p :: p in r ==> p.0 in ops1 && p.1 in ops2)
  {
    var ps := Cross(ops1, ops2);
    forall i, j | 0 <= i < |ops1| && 0 <= j < |ops2|
      ensures HasKey(Dedupe(ps), Sorted(ops1[i].name, ops2[j].name))
    {
      CrossHasAll(ops1, ops2, i, j);
      var k :| 0 <= k < |ps| && ps[k] == (ops1[i], ops2[j]);
      assert Key(ps[k]) == Sorted(ops1[i].name, ops2[j].name);
      DedupeKeys(ps, Sorted(ops1[i].name, ops2[j].name));
    }
    forall i, j | 0 <= i < j < |Dedupe(ps)|
      ensures Key(Dedupe(ps)[i]) != Key(Dedupe(ps)[j])
    {
      DedupeDistinct(ps, i, j);
    }
    forall p | p in Dedupe(ps)
      ensures p.0 in ops1 && p.1 in ops2
    {
      DedupeFrom(ps, p);
      CrossFrom(ops1, ops2, p);
    }
  }

  lemma {:induction false} CrossFrom(ops1: seq<Operation>, ops2: seq<Operation>, p: OpPair)
    requires p in Cross(ops1, ops2)
    ensures p.0 in ops1 && p.1 in ops2
  {
    var n := |ops1| - 1;
    if p in Cross(ops1[..n], ops2) {
      CrossFrom(ops1[..n], ops2, p);
    } else {
      assert p in Row(ops1[n], ops2);
    }
  }

  // ----- the counters

  class CaseCounter {
    var counter: map<Model, int>
    var raceCounter: map<Model, int>

    ghost predicate Valid()
      reads this
    {
      forall m: Model :: m in counter && m in raceCounter
    }

    constructor ()
      ensures Valid() && forall m: Model :: counter[m] == 0 && raceCounter[m] == 0
    {
      counter := map[MPIRMA := 0, SHMEM := 0, GASPI := 0];
      raceCounter := map[MPIRMA := 0, SHMEM := 0, GASPI := 0];
      new;
      forall m: Model
        ensures m in counter && m in raceCounter && counter[m] == raceCounter[m] == 0
      {
        assert m == MPIRMA || m == SHMEM || m == GASPI;
      }
    }

    function Get(model: Model): int
      requires Valid()
      reads this
    {
      counter[model]
    }

    method IncGet(model: Model, hasRace: bool) returns (n: int)
      requires Valid()
      modifies this
      ensures Valid() && n == old(counter[model]) + 1
      ensures counter == old(counter)[model := n]
      ensures raceCounter == if hasRace then old(raceCounter)[model := old(raceCounter[model]) + 1] else old(raceCounter)
    {
      counter := counter[model := counter[model] + 1];
      if hasRace {
        raceCounter := raceCounter[model := raceCounter[model] + 1];
      }
      return counter[model];
    }

    method Set(model: Model, value: int)
      requires Valid()
      modifies this
      ensures Valid() && counter == old(counter)[model := value] && raceCounter == old(raceCounter)
    {
      counter := counter[model := value];
    }

    method SetRaces(model: Model, value: int)
      requires Valid()
      modifies this
      ensures Valid() && counter == old(counter) && raceCounter == old(raceCounter)[model := value]
    {
      raceCounter := raceCounter[model := value];
    }

    function GetRaces(model: Model): int
      requires Valid()
      reads this
    {
      raceCounter[model]
    }

    function GetNoRaces(model: Model): int
      requires Valid()
      reads this
    {
      counter[model] - raceCounter[model]
    }
  }

  // ----- the loops

  lemma CountNext(cases: seq<Case>, c: Case, d: Discipline, m: Model)
    ensures Count(cases + [c], d, m) == Count(cases, d, m) + if c.discipline == d && c.model == m then 1 else 0
    ensures CountRaces(cases + [c], d, m) == CountRaces(cases, d, m) + if c.discipline == d && c.model == m && c.race then 1 else 0
  {
    assert (cases + [c])[..|cases|] == cases;
  }

  lemma NumberedNext(cases: seq<Case>, c: Case)
    requires Numbered(cases) && c.number == Count(cases, c.discipline, c.model) + 1
    ensures Numbered(cases + [c])
  {
    var more := cases + [c];
    CountNext(cases, c, c.discipline, c.model);
    forall k: nat | k < |more|
      ensures RightNumber(more, k)
    {
      if k < |cases| {
        assert more[..k + 1] == cases[..k + 1] && RightNumber(cases, k);
      } else {
        assert more[..k + 1] == more;
      }
    }
  }

  /** The two dictionaries of a counter tell how many cases of discipline `d` there are, and how many race. */
  ghost predicate Tallies(counter: map<Model, int>, races: map<Model, int>, cases: seq<Case>, d: Discipline) {
    forall m: Model :: m in counter && m in races && counter[m] == Count(cases, d, m) && races[m] == CountRaces(cases, d, m)
  }

  lemma TalliesOther(counter: map<Model, int>, races: map<Model, int>, cases: seq<Case>, c: Case, d: Discipline)
    requires Tallies(counter, races, cases, d) && c.discipline != d
    ensures Tallies(counter, races, cases + [c], d)
  {
    forall m: Model
      ensures Count(cases + [c], d, m) == Count(cases, d, m) && CountRaces(cases + [c], d, m) == CountRaces(cases, d, m)
    {
      CountNext(cases, c, d, m);
    }
  }

  lemma TalliesSame(counter: map<Model, int>, races: map<Model, int>, cases: seq<Case>, c: Case)
    requires Tallies(counter, races, cases, c.discipline)
    ensures var counter' := counter[c.model := counter[c.model] + 1];
            var races' := if c.race then races[c.model := races[c.model] + 1] else races;
            Tallies(counter', races', cases + [c], c.discipline)
  {
    forall m: Model
      ensures Count(cases + [c], c.discipline, m) == Count(cases, c.discipline, m) + if c.model == m then 1 else 0
      ensures CountRaces(cases + [c], c.discipline, m) == CountRaces(cases, c.discipline, m) + if c.model == m && c.race then 1 else 0
    {
      CountNext(cases, c, c.discipline, m);
    }
  }

  /** The run of the generator: the counters of the disciplines, and the cases rendered so far. */
  class Suite {
    const counters: map<Discipline, CaseCounter>
    var cases: seq<Case>

    ghost predicate Distinct() {
      && (forall d: Discipline :: d in counters)
      && (forall d: Discipline, e: Discipline :: d != e ==> counters[d] != counters[e])
    }

    /** The counters tell what has been rendered. */
    ghost predicate Tallied()
      reads this, counters.Values
    {
      Distinct() && forall d: Discipline :: Tallies(counters[d].counter, counters[d].raceCounter, cases, d)
    }

    ghost predicate Valid()
      reads this, counters.Values
    {
      Tallied() && Numbered(cases)
    }

    constructor ()
      ensures Valid() && cases == []
      ensures forall d: Discipline :: fresh(counters[d])
    {
      var c0 := new CaseCounter();
      var c1 := new CaseCounter();
      var c2 := new CaseCounter();
      var c3 := new CaseCounter();
      var c4 := new CaseCounter();
      counters := map[CONFLICT := c0, SYNC := c1, ATOMIC := c2, HYBRID := c3, MISC := c4];
      cases := [];
      new;
      forall d: Discipline
        ensures d in counters && fresh(counters[d]) && Tallies(counters[d].counter, counters[d].raceCounter, cases, d)
      {
        assert d == CONFLICT || d == SYNC || d == ATOMIC || d == HYBRID || d == MISC;
      }
    }

    /** One case, under the next number of its discipline and model. */
    method Render(d: Discipline, m: Model, base: Name, op1: Operation, op2: Operation, race: bool)
      requires Valid()
      modifies this, counters[d]
      ensures Valid()
      ensures cases == old(cases) + [Case(Count(old(cases), d, m) + 1, d, m, base, op1, op2, race)]
    {
      assert Tallies(counters[d].counter, counters[d].raceCounter, cases, d);
      var n := counters[d].IncGet(m, race);
      var c := Case(n, d, m, base, op1, op2, race);
      NumberedNext(cases, c);
      forall e: Discipline
        ensures Tallies(counters[e].counter, counters[e].raceCounter, cases + [c], e)
      {
        if e == d {
          TalliesSame(old(counters[e].counter), old(counters[e].raceCounter), cases, c);
        } else {
          TalliesOther(counters[e].counter, counters[e].raceCounter, cases, c, e);
        }
      }
      cases := cases + [c];
    }
  
    /** The body of the inner loop: a case for `p`, unless its name pair has been rendered. */
    method RenderNew(job: Job, p: OpPair, generated: set<(string, string)>, ghost start: seq<Case>, ghost ps: seq<OpPair>)
      returns (generated': set<(string, string)>)
      requires Valid() && IsRow(start, cases, ps, job) && Tracks(generated, ps)
      modifies this, counters[job.d]
      ensures Valid() && IsRow(start, cases, ps + [p], job) && Tracks(generated', ps + [p])
    {
      TracksNext(generated, ps, p);
      if Key(p) in generated {
        RowSame(start, cases, ps, p, job);
        assert generated + {Key(p)} == generated;
        return generated;
      }
      Render(job.d, job.m, job.base, p.0, p.1, job.race);
      RowMore(start, old(cases), ps, cases[|old(cases)|], job);
      return generated + {Key(p)};
    }

    /** All pairs of a row that have not come up yet, by name. */
    method RenderRow(job: Job, ops1: seq<Operation>, ops2: seq<Operation>)
      requires Valid()
      modifies this, counters[job.d]
      ensures Valid() && IsRow(old(cases), cases, Cross(ops1, ops2), job)
    {
      var generated: set<(string, string)> := {};
      ghost var start := cases;
      assert Cross(ops1[..0], ops2) == [];
      for i := 0 to |ops1|
        invariant Valid() && IsRow(start, cases, Cross(ops1[..i], ops2), job) && Tracks(generated, Cross(ops1[..i], ops2))
      {
        ghost var ps := Cross(ops1[..i], ops2);
        RowPrefix(ps, ops1[i], ops2, 0);
        for j := 0 to |ops2|
          invariant Valid() && IsRow(start, cases, ps + Row(ops1[i], ops2)[..j], job) && Tracks(generated, ps + Row(ops1[i], ops2)[..j])
        {
          RowPrefix(ps, ops1[i], ops2, j);
          generated := RenderNew(job, (ops1[i], ops2[j]), generated, start, ps + Row(ops1[i], ops2)[..j]);
        }
        RowPrefix(ps, ops1[i], ops2, |ops2|);
        CrossNext(ops1, ops2, i);
      }
      assert ops1[..|ops1|] == ops1;
    }

    /** One row for all models. */
    method RenderForModels(r: TableRow, d: Discipline, bases: map<Model, Name>)
      requires Valid() && (forall m: Model :: m in bases) && r.Valid()
      modifies this, counters[d]
      ensures Valid() && old(cases) <= cases
      ensures Entries(cases) == Entries(old(cases)) + RowPlan(r, d, bases, |MODELS|)
    {
      for j := 0 to |MODELS|
        invariant Valid() && old(cases) <= cases
        invariant Entries(cases) == Entries(old(cases)) + RowPlan(r, d, bases, j)
      {
        var m := MODELS[j];
        ghost var done := cases;
        RenderRow(Job(d, m, bases[m], r.race), r.ops1[m], r.ops2[m]);
        PlanNext(Entries(old(cases)), Entries(done), RowPlan(r, d, bases, j), ModelPlan(r, d, bases, m));
      }
    }

    /** All rows for all models, as in the loops over the conflict tables. */
    method RenderTable(rows: seq<TableRow>, d: Discipline, bases: map<Model, Name>)
      requires Valid() && Complete(rows, bases)
      modifies this, counters[d]
      ensures Valid() && old(cases) <= cases
      ensures Entries(cases) == Entries(old(cases)) + TablePlan(rows, d, bases, |rows|)
    {
      for i := 0 to |rows|
        invariant Valid() && old(cases) <= cases
        invariant Entries(cases) == Entries(old(cases)) + TablePlan(rows, d, bases, i)
      {
        ghost var done := cases;
        RenderForModels(rows[i], d, bases);
        PlanNext(Entries(old(cases)), Entries(done), TablePlan(rows, d, bases, i), RowPlan(rows[i], d, bases, |MODELS|));
      }
    }

    /** The additional rows: each pair as it stands, in order. */
    method RenderList(rows: seq<(OpPair, bool)>, d: Discipline, m: Model, base: Name)
      requires Valid()
      modifies this, counters[d]
      ensures Valid() && old(cases) <= cases && |cases| == |old(cases)| + |rows|
      ensures forall k :: 0 <= k < |rows| ==> IsCaseOf(cases[|old(cases)| + k], rows[k], d, m, base)
    {
      ghost var start := |cases|;
      for k := 0 to |rows|
        invariant Valid() && old(cases) <= cases && |cases| == start + k
        invariant forall i :: 0 <= i < k ==> IsCaseOf(cases[start + i], rows[i], d, m, base)
      {
        Render(d, m, base, rows[k].0.0, rows[k].0.1, rows[k].1);
      }
    }

    method AddOne(total: CaseCounter, d: Discipline, m: Model)
      requires Tallied() && total.Valid() && total !in counters.Values
      modifies total
      ensures total.Valid()
      ensures total.counter == old(total.counter)[m := old(total.counter[m]) + Count(cases, d, m)]
      ensures total.raceCounter == old(total.raceCounter)[m := old(total.raceCounter[m]) + CountRaces(cases, d, m)]
    {
      var c := counters[d];
      assert c != total && Tallies(c.counter, c.raceCounter, cases, d);
      total.Set(m, total.Get(m) + c.Get(m));
      total.SetRaces(m, total.GetRaces(m) + c.GetRaces(m));
    }

    method AddModel(total: CaseCounter, m: Model, ds: seq<Discipline>)
      requires Tallied() && total.Valid() && total !in counters.Values && total.counter[m] == total.raceCounter[m] == 0
      modifies total
      ensures total.Valid() && total.counter[m] == CountOver(cases, m, ds) && total.raceCounter[m] == RacesOver(cases, m, ds)
      ensures forall l: Model :: l != m ==> total.counter[l] == old(total.counter[l]) && total.raceCounter[l] == old(total.raceCounter[l])
    {
      for j := 0 to |ds|
        invariant total.Valid() && Tallied()
        invariant total.counter[m] == CountOver(cases, m, ds[..j]) && total.raceCounter[m] == RacesOver(cases, m, ds[..j])
        invariant forall l: Model :: l != m ==> total.counter[l] == old(total.counter[l]) && total.raceCounter[l] == old(total.raceCounter[l])
      {
        AddOne(total, ds[j], m);
        OverMore(cases, m, ds, j);
      }
      assert ds[..|ds|] == ds;
    }

    /** `printStaticstics`: the totals over all disciplines. */
    method Totals() returns (total: CaseCounter)
      requires Valid()
      ensures fresh(total) && total.Valid()
      ensures forall m: Model :: total.GetRaces(m) == OfModel(cases, m, true) && total.GetNoRaces(m) == OfModel(cases, m, false)
      ensures forall m: Model :: total.Get(m) == OfModel(cases, m, true) + OfModel(cases, m, false)
    {
      total := new CaseCounter();
      for i := 0 to |MODELS|
        invariant total.Valid()
        invariant Summed(total.counter, total.raceCounter, cases, i)
      {
        ghost var before, races := total.counter, total.raceCounter;
        AddModel(total, MODELS[i], DISCIPLINES);
        SummedNext(before, races, total.counter, total.raceCounter, cases, i);
      }
      AllSummed(total.counter, total.raceCounter, cases);
    }
  }

  /** The cases of some disciplines, as the totals are summed up. */
  function CountOver(cases: seq<Case>, m: Model, ds: seq<Discipline>): nat {
    if ds == [] then 0 else CountOver(cases, m, ds[..|ds| - 1]) + Count(cases, ds[|ds| - 1], m)
  }

  function RacesOver(cases: seq<Case>, m: Model, ds: seq<Discipline>): nat {
    if ds == [] then 0 else RacesOver(cases, m, ds[..|ds| - 1]) + CountRaces(cases, ds[|ds| - 1], m)
  }

  /** The rendered cases of a model, with or without a race, whatever their discipline. */
  function OfModel(cases: seq<Case>, m: Model, race: bool): nat {
    if cases == [] then 0
    else
      var c := cases[|cases| - 1];
      OfModel(cases[..|cases| - 1], m, race) + if c.model == m && c.race == race then 1 else 0
  }

  lemma OverMore(cases: seq<Case>, m: Model, ds: seq<Discipline>, j: nat)
    requires j < |ds|
    ensures CountOver(cases, m, ds[..j + 1]) == CountOver(cases, m, ds[..j]) + Count(cases, ds[j], m)
    ensures RacesOver(cases, m, ds[..j + 1]) == RacesOver(cases, m, ds[..j]) + CountRaces(cases, ds[j], m)
  {
    assert ds[..j + 1][..j] == ds[..j];
  }

  function CountIn(c: Case, m: Model, ds: seq<Discipline>): nat {
    if ds == [] then 0 else CountIn(c, m, ds[..|ds| - 1]) + if c.discipline == ds[|ds| - 1] && c.model == m then 1 else 0
  }

  lemma {:induction false} OverNext(cases: seq<Case>, c: Case, m: Model, ds: seq<Discipline>)
    ensures CountOver(cases + [c], m, ds) == CountOver(cases, m, ds) + CountIn(c, m, ds)
    ensures RacesOver(cases + [c], m, ds) == RacesOver(cases, m, ds) + if c.race then CountIn(c, m, ds) else 0
  {
    if ds != [] {
      OverNext(cases, c, m, ds[..|ds| - 1]);
      CountNext(cases, c, ds[|ds| - 1], m);
    }
  }

  lemma {:induction false} OverNone(m: Model, ds: seq<Discipline>)
    ensures CountOver([], m, ds) == RacesOver([], m, ds) == 0
  {
    if ds != [] {
      OverNone(m, ds[..|ds| - 1]);
    }
  }

  /** Every case has one of the disciplines. */
  lemma InOneDiscipline(c: Case, m: Model)
    ensures CountIn(c, m, DISCIPLINES) == if c.model == m then 1 else 0
  {
    CountInMore(c, m, [], CONFLICT);
    CountInMore(c, m, [CONFLICT], SYNC);
    CountInMore(c, m, [CONFLICT, SYNC], ATOMIC);
    CountInMore(c, m, [CONFLICT, SYNC, ATOMIC], HYBRID);
    CountInMore(c, m, [CONFLICT, SYNC, ATOMIC, HYBRID], MISC);
    assert [] + [CONFLICT] == [CONFLICT] && [CONFLICT] + [SYNC] == [CONFLICT, SYNC];
    assert [CONFLICT, SYNC] + [ATOMIC] == [CONFLICT, SYNC, ATOMIC];
    assert [CONFLICT, SYNC, ATOMIC] + [HYBRID] == [CONFLICT, SYNC, ATOMIC, HYBRID];
    assert [CONFLICT, SYNC, ATOMIC, HYBRID] + [MISC] == DISCIPLINES;
    assert c.discipline == CONFLICT || c.discipline == SYNC || c.discipline == ATOMIC || c.discipline == HYBRID || c.discipline == MISC;
  }

  lemma CountInMore(c: Case, m: Model, ds: seq<Discipline>, d: Discipline)
    ensures CountIn(c, m, ds + [d]) == CountIn(c, m, ds) + if c.discipline == d && c.model == m then 1 else 0
  {
    assert (ds + [d])[..|ds|] == ds;
  }

  /** MAIN RESULT. The counts of the disciplines add up to the rendered cases: those with a race and those
      without one. */
  lemma {:induction false} AddUp(cases: seq<Case>, m: Model)
    ensures RacesOver(cases, m, DISCIPLINES) == OfModel(cases, m, true)
    ensures CountOver(cases, m, DISCIPLINES) == OfModel(cases, m, true) + OfModel(cases, m, false)
  {
    if cases == [] {
      OverNone(m, DISCIPLINES);
    } else {
      var before, c := cases[..|cases| - 1], cases[|cases| - 1];
      AddUp(before, m);
      assert cases == before + [c];
      OverNext(before, c, m, DISCIPLINES);
      InOneDiscipline(c, m);
    }
  }

  /** The totals after the first `n` models. */
  ghost predicate Summed(counter: map<Model, int>, races: map<Model, int>, cases: seq<Case>, n: nat) {
    && (forall m: Model :: m in counter && m in races)
    && (forall k :: n <= k < |MODELS| ==> counter[MODELS[k]] == races[MODELS[k]] == 0)
    && (forall k :: 0 <= k < n && k < |MODELS| ==> counter[MODELS[k]] == CountOver(cases, MODELS[k], DISCIPLINES))
    && (forall k :: 0 <= k < n && k < |MODELS| ==> races[MODELS[k]] == RacesOver(cases, MODELS[k], DISCIPLINES))
  }

  lemma SummedNext(counter: map<Model, int>, races: map<Model, int>, counter': map<Model, int>, races': map<Model, int>, cases: seq<Case>, n: nat)
    requires Summed(counter, races, cases, n) && n < |MODELS| && (forall m: Model :: m in counter' && m in races')
    requires counter'[MODELS[n]] == CountOver(cases, MODELS[n], DISCIPLINES) && races'[MODELS[n]] == RacesOver(cases, MODELS[n], DISCIPLINES)
    requires forall m: Model :: m != MODELS[n] ==> counter'[m] == counter[m] && races'[m] == races[m]
    ensures Summed(counter', races', cases, n + 1)
  {
  }

  lemma AllSummed(counter: map<Model, int>, races: map<Model, int>, cases: seq<Case>)
    requires Summed(counter, races, cases, |MODELS|)
    ensures forall m: Model :: races[m] == OfModel(cases, m, true) && counter[m] == OfModel(cases, m, true) + OfModel(cases, m, false)
  {
    forall m: Model
      ensures races[m] == OfModel(cases, m, true) && counter[m] == OfModel(cases, m, true) + OfModel(cases, m, false)
    {
      assert m == MODELS[0] || m == MODELS[1] || m == MODELS[2];
      AddUp(cases, m);
    }
  }

  predicate IsCaseOf(c: Case, row: (OpPair, bool), d: Discipline, m: Model, base: Name) {
    c.discipline == d && c.model == m && c.base == base && (c.op1, c.op2) == row.0 && c.race == row.1
  }

  datatype TableRow = TableRow(ops1: map<Model, seq<Operation>>, ops2: map<Model, seq<Operation>>, race: bool) {
    ghost predicate Valid() {
      forall m: Model :: m in ops1 && m in ops2
    }
  }

  datatype Job = Job(d: Discipline, m: Model, base: Name, race: bool)

  /** A case, but for its number. */
  datatype Entry = Entry(job: Job, p: OpPair)

  function EntryOf(c: Case): Entry {
    Entry(Job(c.discipline, c.model, c.base, c.race), (c.op1, c.op2))
  }

  function Entries(cases: seq<Case>): (r: seq<Entry>)
    ensures |r| == |cases|
  {
    seq(|cases|, k requires 0 <= k < |cases| => EntryOf(cases[k]))
  }

  function OfJob(job: Job, ps: seq<OpPair>): (r: seq<Entry>)
    ensures |r| == |ps|
  {
    seq(|ps|, k requires 0 <= k < |ps| => Entry(job, ps[k]))
  }

  /** `cases` is `start` and one case of `job` for every first pair of a key in `ps`. */
  ghost predicate IsRow(start: seq<Case>, cases: seq<Case>, ps: seq<OpPair>, job: Job) {
    start <= cases && Entries(cases) == Entries(start) + OfJob(job, Dedupe(ps))
  }

  /** `generated` holds the keys of `ps`. */
  ghost predicate Tracks(generated: set<(string, string)>, ps: seq<OpPair>) {
    forall key :: key in generated <==> HasKey(ps, key)
  }

  // ----- the plan of a table

  /** What one model contributes to a row. */
  ghost function ModelPlan(r: TableRow, d: Discipline, bases: map<Model, Name>, m: Model): seq<Entry>
    requires (forall m: Model :: m in bases) && r.Valid()
  {
    OfJob(Job(d, m, bases[m], r.race), Dedupe(Cross(r.ops1[m], r.ops2[m])))
  }

  /** What a row asks for from the first `n` models: each name pair once, in the order of the loops. */
  ghost function RowPlan(r: TableRow, d: Discipline, bases: map<Model, Name>, n: nat): seq<Entry>
    requires n <= |MODELS| && (forall m: Model :: m in bases) && r.Valid()
  {
    if n == 0 then []
    else
      var m := MODELS[n - 1];
      RowPlan(r, d, bases, n - 1) + ModelPlan(r, d, bases, m)
  }

  /** The models come in the order of the enumeration. */
  lemma ModelsInOrder(r: TableRow, d: Discipline, bases: map<Model, Name>)
    requires (forall m: Model :: m in bases) && r.Valid()
    ensures |MODELS| == 3
    ensures RowPlan(r, d, bases, |MODELS|) == ModelPlan(r, d, bases, MPIRMA) + ModelPlan(r, d, bases, SHMEM) + ModelPlan(r, d, bases, GASPI)
  {
    assert RowPlan(r, d, bases, 1) == [] + ModelPlan(r, d, bases, MPIRMA) == ModelPlan(r, d, bases, MPIRMA);
    assert RowPlan(r, d, bases, 2) == RowPlan(r, d, bases, 1) + ModelPlan(r, d, bases, SHMEM);
  }

  /** There are a template and operation lists for every model. */
  ghost predicate Complete(rows: seq<TableRow>, bases: map<Model, Name>) {
    (forall m: Model :: m in bases) && forall i :: 0 <= i < |rows| ==> rows[i].Valid()
  }

  /** What the first `n` rows ask for. */
  ghost function TablePlan(rows: seq<TableRow>, d: Discipline, bases: map<Model, Name>, n: nat): seq<Entry>
    requires n <= |rows| && Complete(rows, bases)
  {
    if n == 0 then [] else TablePlan(rows, d, bases, n - 1) + RowPlan(rows[n - 1], d, bases, |MODELS|)
  }

  lemma PlanNext(start: seq<Entry>, done: seq<Entry>, plan: seq<Entry>, more: seq<Entry>)
    requires done == start + plan
    ensures done + more == start + (plan + more)
  {
  }

  // ----- one step of the inner loop

  lemma EntriesNext(cases: seq<Case>, c: Case)
    ensures Entries(cases + [c]) == Entries(cases) + [EntryOf(c)]
  {
  }

  lemma OfJobNext(job: Job, ps: seq<OpPair>, p: OpPair)
    ensures OfJob(job, ps + [p]) == OfJob(job, ps) + [Entry(job, p)]
  {
  }

  lemma TracksNext(generated: set<(string, string)>, ps: seq<OpPair>, p: OpPair)
    requires Tracks(generated, ps)
    ensures Tracks(generated + {Key(p)}, ps + [p])
  {
    forall key
      ensures key in generated + {Key(p)} <==> HasKey(ps + [p], key)
    {
      HasKeyMore(ps, p, key);
    }
  }

  /** A pair whose key has been met adds nothing to the row. */
  lemma RowSame(start: seq<Case>, cases: seq<Case>, ps: seq<OpPair>, p: OpPair, job: Job)
    requires IsRow(start, cases, ps, job) && HasKey(ps, Key(p))
    ensures IsRow(start, cases, ps + [p], job)
  {
    DedupeKeys(ps, Key(p));
    DedupeNext(ps, p);
  }

  /** A case `c` for a pair of a new key extends the row by it. */
  lemma RowMore(start: seq<Case>, cases: seq<Case>, ps: seq<OpPair>, c: Case, job: Job)
    requires IsRow(start, cases, ps, job) && !HasKey(ps, Key((c.op1, c.op2))) && EntryOf(c).job == job
    ensures IsRow(start, cases + [c], ps + [(c.op1, c.op2)], job)
  {
    var p := (c.op1, c.op2);
    DedupeKeys(ps, Key(p));
    DedupeNext(ps, p);
    EntriesNext(cases, c);
    OfJobNext(job, Dedupe(ps), p);
    assert Entries(start) + (OfJob(job, Dedupe(ps)) + [Entry(job, p)]) == Entries(start) + OfJob(job, Dedupe(ps)) + [Entry(job, p)];
  }

  lemma RowPrefix(before: seq<OpPair>, op1: Operation, ops2: seq<Operation>, j: nat)
    requires j <= |ops2|
    ensures j == 0 ==> before + Row(op1, ops2)[..j] == before
    ensures j < |ops2| ==> before + Row(op1, ops2)[..j + 1] == before + Row(op1, ops2)[..j] + [(op1, ops2[j])]
    ensures j == |ops2| ==> before + Row(op1, ops2)[..j] == before + Row(op1, ops2)
  {
  }

  lemma DedupeNext(ps: seq<OpPair>, p: OpPair)
    ensures Dedupe(ps + [p]) == if HasKey(Dedupe(ps), Key(p)) then Dedupe(ps) else Dedupe(ps) + [p]
  {
    assert (ps + [p])[..|ps|] == ps;
  }

  lemma CrossNext(ops1: seq<Operation>, ops2: seq<Operation>, i: nat)
    requires i < |ops1|
    ensures Cross(ops1[..i + 1], ops2) == Cross(ops1[..i], ops2) + Row(ops1[i], ops2)
  {
    assert ops1[..i + 1][..i] == ops1[..i];
  }
}
