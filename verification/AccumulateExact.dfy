/**
 When interleaved accumulates are as good as accumulates one after the other.

 The answer is exact: whatever the values and the start of the window, every interleaving ends like some
 serial order, if and only if any two elements touched are the same (address and type) or disjoint. Then
 it even ends like every serial order. For two calls of `n` and `m` elements the condition is worked out,
 and decides all ten programs of MPIRMA/atomic.
 */
module AccumulateExact {
  import M = Machine
  import opened WindowBytes
  import opened Accumulate

  // ----- serial orders

  predicate IsOrder(order: seq<nat>, n: nat) {
    && (forall i :: 0 <= i < |order| ==> order[i] < n)
    && (forall i, j :: 0 <= i < j < |order| ==> order[i] != order[j])
  }

  predicate IsFull(order: seq<nat>, n: nat) {
    IsOrder(order, n) && forall k: nat :: k < n ==> k in order
  }

  /** The updates of `order`, each as a whole. */
  function Serial(us: seq<Update>, m: Window, order: seq<nat>): (r: Window)
    requires AllFit(us, |m|) && IsOrder(order, |us|)
    ensures |r| == |m|
  {
    if order == [] then m
    else
      var rest := order[..|order| - 1];
      assert IsOrder(rest, |us|);
      Add(Serial(us, m, rest), us[order[|order| - 1]])
  }

  function PhaseAfter(n: nat, order: seq<nat>): seq<Phase> {
    seq(n, k => if k in order then Done else Waiting)
  }

  lemma Then(us: seq<Update>, m: Window, tr: seq<Label>, s: State, l: Label) returns (tr': seq<Label>, s': State)
    requires AllFit(us, |m|) && Exec(us, m, tr) == M.Some(s) && Enabled(us, s, l)
    ensures s' == Apply(us, s, l) && Exec(us, m, tr') == M.Some(s')
  {
    tr', s' := tr + [l], Apply(us, s, l);
    assert tr'[..|tr|] == tr;
  }

  lemma BeginThenEnd(us: seq<Update>, s: State, k: nat)
    requires Shape(us, s) && k < |us| && s.phase[k].Waiting? && forall j :: 0 <= j < |s.phase| ==> !s.phase[j].Busy?
    ensures Enabled(us, s, Begin(k)) && Enabled(us, Apply(us, s, Begin(k)), End(k))
    ensures Apply(us, Apply(us, s, Begin(k)), End(k)) == State(Add(s.m, us[k]), s.phase[k := Done])
  {
    var s' := Apply(us, s, Begin(k));
    assert s.phase[k := s'.phase[k]] == s'.phase;
  }

  /** An update that nothing holds up, as a whole. */
  lemma OneUpdate(us: seq<Update>, m: Window, tr: seq<Label>, s: State, k: nat) returns (tr': seq<Label>)
    requires AllFit(us, |m|) && Exec(us, m, tr) == M.Some(s) && k < |us| && s.phase[k].Waiting?
    requires forall j :: 0 <= j < |s.phase| ==> !s.phase[j].Busy?
    ensures Exec(us, m, tr') == M.Some(State(Add(s.m, us[k]), s.phase[k := Done]))
  {
    BeginThenEnd(us, s, k);
    var s';
    tr', s' := Then(us, m, tr, s, Begin(k));
    tr', s' := Then(us, m, tr', s', End(k));
  }

  lemma PhaseOfMore(n: nat, rest: seq<nat>, k: nat)
    requires k < n
    ensures PhaseAfter(n, rest)[k := Done] == PhaseAfter(n, rest + [k])
  {
  }

  /** A serial order is an interleaving. */
  lemma {:induction false} SerialRun(us: seq<Update>, m: Window, order: seq<nat>) returns (tr: seq<Label>)
    requires AllFit(us, |m|) && IsOrder(order, |us|)
    ensures Exec(us, m, tr) == M.Some(State(Serial(us, m, order), PhaseAfter(|us|, order)))
  {
    if order == [] {
      tr := [];
      assert Init(us, m).phase == PhaseAfter(|us|, []);
    } else {
      var rest, k := order[..|order| - 1], order[|order| - 1];
      assert IsOrder(rest, |us|);
      assert order == rest + [k] && k !in rest;
      tr := SerialRun(us, m, rest);
      PhaseOfMore(|us|, rest, k);
      tr := OneUpdate(us, m, tr, State(Serial(us, m, rest), PhaseAfter(|us|, rest)), k);
    }
  }

  lemma SerialIsOutcome(us: seq<Update>, m: Window, order: seq<nat>)
    requires AllFit(us, |m|) && IsFull(order, |us|)
    ensures Outcome(us, m, Serial(us, m, order))
  {
    var tr := SerialRun(us, m, order);
  }

  // ----- compatible updates

  predicate Covers(p: Place, i: nat) {
    p.at <= i < p.at + p.w
  }

  lemma {:induction false} Untouched(us: seq<Update>, m: Window, tr: seq<Label>, i: nat)
    requires AllFit(us, |m|) && Exec(us, m, tr).Some? && i < |m| && forall k :: 0 <= k < |us| ==> !Covers(us[k].place, i)
    ensures Exec(us, m, tr).value.m[i] == m[i]
  {
    if tr != [] {
      Untouched(us, m, tr[..|tr| - 1], i);
      var s, l := Exec(us, m, tr[..|tr| - 1]).value, tr[|tr| - 1];
      if l.End? {
        WrittenByte(s.m, us[l.k].place.at, us[l.k].place.w, s.phase[l.k].val + us[l.k].v, i);
        assert !Covers(us[l.k].place, i);
      }
    }
  }

  lemma SameByte(m: Window, n: Window, p: Place, i: nat)
    requires |m| == |n| && Fits(p, |m|) && Covers(p, i) && Read(m, p.at, p.w) == Read(n, p.at, p.w)
    ensures m[i] == n[i]
  {
    BytesRead(m, p.at, p.w);
    BytesRead(n, p.at, p.w);
    assert m[p.at..p.at + p.w][i - p.at] == n[p.at..p.at + p.w][i - p.at];
  }

  lemma RunsAgree(us: seq<Update>, m: Window, tr1: seq<Label>, tr2: seq<Label>, i: nat)
    requires AllFit(us, |m|) && Compatible(us) && Exec(us, m, tr1).Some? && Exec(us, m, tr2).Some? && i < |m|
    requires Completed(Exec(us, m, tr1).value) && Completed(Exec(us, m, tr2).value)
    ensures Exec(us, m, tr1).value.m[i] == Exec(us, m, tr2).value.m[i]
  {
    if k :| 0 <= k < |us| && Covers(us[k].place, i) {
      RunAddsUp(us, m, tr1, us[k].place);
      RunAddsUp(us, m, tr2, us[k].place);
      SameByte(Exec(us, m, tr1).value.m, Exec(us, m, tr2).value.m, us[k].place, i);
    } else {
      Untouched(us, m, tr1, i);
      Untouched(us, m, tr2, i);
    }
  }

  lemma OutcomesAgree(us: seq<Update>, m: Window, m1: Window, m2: Window)
    requires AllFit(us, |m|) && Compatible(us) && Outcome(us, m, m1) && Outcome(us, m, m2)
    ensures m1 == m2
  {
    var tr1 :| Exec(us, m, tr1).Some? && Completed(Exec(us, m, tr1).value) && Exec(us, m, tr1).value.m == m1;
    var tr2 :| Exec(us, m, tr2).Some? && Completed(Exec(us, m, tr2).value) && Exec(us, m, tr2).value.m == m2;
    assert |m1| == |m2| == |m|;
    forall i | 0 <= i < |m|
      ensures m1[i] == m2[i]
    {
      RunsAgree(us, m, tr1, tr2, i);
    }
  }

  /** MAIN RESULT. Compatible updates end in one window however they interleave: that of any serial order. */
  lemma {:induction false} CompatibleIsSerial(us: seq<Update>, m: Window, m': Window, order: seq<nat>)
    requires AllFit(us, |m|) && Compatible(us) && Outcome(us, m, m') && IsFull(order, |us|)
    ensures m' == Serial(us, m, order)
  {
    SerialIsOutcome(us, m, order);
    OutcomesAgree(us, m, m', Serial(us, m, order));
  }

  // ----- the condition is needed

  function Updates(places: seq<Place>, vs: seq<int>): (us: seq<Update>)
    requires |places| == |vs|
    ensures |us| == |places|
  {
    seq(|places|, k requires 0 <= k < |places| => Update(places[k], vs[k]))
  }

  ghost predicate SomeOrder(us: seq<Update>, m: Window, m': Window)
    requires AllFit(us, |m|)
  {
    exists order :: IsFull(order, |us|) && Serial(us, m, order) == m'
  }

  /** Whatever is added to these places, and to whatever window, interleaving cannot be told from some
      serial order. */
  ghost predicate Serialisable(places: seq<Place>) {
    forall vs: seq<int>, m: Window, m': Window ::
      |vs| == |places| && AllFit(Updates(places, vs), |m|) && Outcome(Updates(places, vs), m, m') ==> SomeOrder(Updates(places, vs), m, m')
  }

  predicate NeverOverlap(places: seq<Place>) {
    forall i, j :: 0 <= i < |places| && 0 <= j < |places| ==> places[i] == places[j] || Disjoint(places[i], places[j])
  }

  /** A window of zeros but for one byte. */
  function Spike(size: nat, p: nat, c: byte): (m: Window)
    ensures |m| == size
  {
    seq(size, i => if i == p then c else 0)
  }

  lemma {:induction false} ReadSpike(size: nat, p: nat, c: byte, at: nat, w: nat)
    requires at + w <= size
    ensures Read(Spike(size, p, c), at, w) == if at <= p < at + w then c * Pow(p - at) else 0
    decreases w
  {
    if w > 0 {
      ReadSpike(size, p, c, at + 1, w - 1);
    }
  }

  lemma {:induction false} BytesOfZero(w: nat)
    ensures forall i :: 0 <= i < w ==> Bytes(0, w)[i] == 0
  {
    if w > 0 {
      BytesOfZero(w - 1);
    }
  }

  lemma {:induction false} BytesOfPower(x: byte, d: nat, w: nat)
    requires d < w
    ensures forall i :: 0 <= i < w ==> Bytes(x * Pow(d), w)[i] == if i == d then x else 0
  {
    if d == 0 {
      BytesOfZero(w - 1);
    } else {
      BytesOfPower(x, d - 1, w - 1);
      assert x * Pow(d) == 256 * (x * Pow(d - 1));
    }
  }

  lemma WriteSpike(size: nat, p: nat, c: byte, x: byte, at: nat, w: nat)
    requires at <= p < at + w <= size
    ensures Write(Spike(size, p, c), at, w, x * Pow(p - at)) == Spike(size, p, x)
  {
    BytesOfPower(x, p - at, w);
    forall i | 0 <= i < size
      ensures Write(Spike(size, p, c), at, w, x * Pow(p - at))[i] == Spike(size, p, x)[i]
    {
      WrittenByte(Spike(size, p, c), at, w, x * Pow(p - at), i);
    }
  }

  lemma WriteBack(m: Window, p: Place)
    requires Fits(p, |m|)
    ensures Add(m, Update(p, 0)) == m
  {
    BytesRead(m, p.at, p.w);
  }

  /** Adds one to byte `b` at the places `i` and `j`, and nothing elsewhere. */
  function Pokes(places: seq<Place>, i: nat, j: nat, b: nat): (vs: seq<int>)
    requires i < |places| && j < |places| && Covers(places[i], b) && Covers(places[j], b)
    ensures |vs| == |places|
  {
    seq(|places|, k requires 0 <= k < |places| => if k == i || k == j then Pow(b - places[k].at) else 0)
  }

  function Hits(order: seq<nat>, i: nat, j: nat): (c: byte) {
    (if i in order then 1 else 0) + if j in order then 1 else 0
  }

  lemma PokeOnce(places: seq<Place>, i: nat, j: nat, b: nat, size: nat, c: byte, k: nat)
    requires i < |places| && j < |places| && k < |places| && Covers(places[i], b) && Covers(places[j], b)
    requires k == i || k == j ==> c < 2
    requires AllFit(Updates(places, Pokes(places, i, j, b)), size)
    ensures var u := Updates(places, Pokes(places, i, j, b))[k];
            Fits(u.place, size) && Add(Spike(size, b, c), u) == Spike(size, b, if k == i || k == j then c + 1 else c)
  {
    var us := Updates(places, Pokes(places, i, j, b));
    assert us[k].place == places[k] && Fits(us[k].place, size);
    if k == i || k == j {
      var at, w := places[k].at, places[k].w;
      ReadSpike(size, b, c, at, w);
      assert c * Pow(b - at) + Pow(b - at) == (c + 1) * Pow(b - at);
      WriteSpike(size, b, c, c + 1, at, w);
    } else {
      WriteBack(Spike(size, b, c), places[k]);
    }
  }

  lemma {:induction false} SerialPokes(places: seq<Place>, i: nat, j: nat, b: nat, size: nat, order: seq<nat>)
    requires i < |places| && j < |places| && i != j && Covers(places[i], b) && Covers(places[j], b)
    requires AllFit(Updates(places, Pokes(places, i, j, b)), size) && IsOrder(order, |places|)
    ensures Serial(Updates(places, Pokes(places, i, j, b)), Spike(size, b, 0), order) == Spike(size, b, Hits(order, i, j))
  {
    if order != [] {
      var rest, k := order[..|order| - 1], order[|order| - 1];
      assert IsOrder(rest, |places|);
      assert order == rest + [k] && k !in rest;
      SerialPokes(places, i, j, b, size, rest);
      PokeOnce(places, i, j, b, size, Hits(rest, i, j), k);
    }
  }

  function Others(n: nat, i: nat, j: nat): (order: seq<nat>)
    ensures forall k: nat :: k in order <==> k < n && k != i && k != j
    ensures IsOrder(order, n)
  {
    if n == 0 then [] else Others(n - 1, i, j) + if n - 1 == i || n - 1 == j then [] else [n - 1]
  }

  /** `i` and `j` read before either writes. */
  lemma BothRead(us: seq<Update>, m: Window, tr0: seq<Label>, s0: State, i: nat, j: nat) returns (tr: seq<Label>, s: State)
    requires AllFit(us, |m|) && Exec(us, m, tr0) == M.Some(s0) && i < |us| && j < |us| && i != j && us[i].place != us[j].place
    requires s0.phase[i].Waiting? && s0.phase[j].Waiting? && forall k :: 0 <= k < |us| && k != i && k != j ==> s0.phase[k].Done?
    requires Read(s0.m, us[i].place.at, us[i].place.w) == 0 == Read(s0.m, us[j].place.at, us[j].place.w)
    ensures Exec(us, m, tr) == M.Some(s) && s.m == s0.m && s.phase == s0.phase[i := Busy(0)][j := Busy(0)]
  {
    tr, s := Then(us, m, tr0, s0, Begin(i));
    tr, s := Then(us, m, tr, s, Begin(j));
  }

  lemma BothWritten(us: seq<Update>, m: Window, tr0: seq<Label>, s0: State, i: nat, j: nat, p: Update, q: Update)
    requires AllFit(us, |m|) && Exec(us, m, tr0) == M.Some(s0) && i < |us| && j < |us| && i != j && us[i] == p && us[j] == q
    requires s0.phase[i] == s0.phase[j] == Busy(0) && forall k :: 0 <= k < |us| && k != i && k != j ==> s0.phase[k].Done?
    ensures Fits(p.place, |s0.m|) && Fits(q.place, |s0.m|)
    ensures Outcome(us, m, Write(Write(s0.m, p.place.at, p.place.w, p.v), q.place.at, q.place.w, q.v))
  {
    var tr, s := Then(us, m, tr0, s0, End(i));
    tr, s := Then(us, m, tr, s, End(j));
    assert Completed(s);
  }

  lemma OthersFirst(places: seq<Place>, i: nat, j: nat, b: nat, size: nat) returns (tr: seq<Label>, s: State)
    requires i < |places| && j < |places| && i != j && Covers(places[i], b) && Covers(places[j], b)
    requires AllFit(Updates(places, Pokes(places, i, j, b)), size)
    ensures Exec(Updates(places, Pokes(places, i, j, b)), Spike(size, b, 0), tr) == M.Some(s) && s.m == Spike(size, b, 0)
    ensures s.phase[i].Waiting? && s.phase[j].Waiting? && forall k :: 0 <= k < |places| && k != i && k != j ==> s.phase[k].Done?
  {
    var us, order := Updates(places, Pokes(places, i, j, b)), Others(|places|, i, j);
    tr := SerialRun(us, Spike(size, b, 0), order);
    SerialPokes(places, i, j, b, size, order);
    s := Exec(us, Spike(size, b, 0), tr).value;
  }

  /** Both add one to byte `b`, but both start from zero. */
  lemma SecondHidesFirst(p: Place, q: Place, b: nat, size: nat)
    requires Fits(p, size) && Fits(q, size) && Covers(p, b) && Covers(q, b)
    ensures var m := Spike(size, b, 0);
            && Read(m, p.at, p.w) == 0 == Read(m, q.at, q.w)
            && Write(Write(m, p.at, p.w, Pow(b - p.at)), q.at, q.w, Pow(b - q.at)) == Spike(size, b, 1)
  {
    ReadSpike(size, b, 0, p.at, p.w);
    ReadSpike(size, b, 0, q.at, q.w);
    WriteSpike(size, b, 0, 1, p.at, p.w);
    WriteSpike(size, b, 1, 1, q.at, q.w);
  }

  /** `i` and `j` read before either writes: one of the two is lost. */
  lemma LoseOne(us: seq<Update>, m: Window, tr0: seq<Label>, s0: State, i: nat, j: nat, b: nat)
    requires AllFit(us, |m|) && Exec(us, m, tr0) == M.Some(s0) && i < |us| && j < |us| && i != j
    requires s0.phase[i].Waiting? && s0.phase[j].Waiting? && forall k :: 0 <= k < |us| && k != i && k != j ==> s0.phase[k].Done?
    requires var p, q := us[i].place, us[j].place;
             p != q && Covers(p, b) && Covers(q, b) && us[i].v == Pow(b - p.at) && us[j].v == Pow(b - q.at)
    requires s0.m == Spike(|m|, b, 0)
    ensures Outcome(us, m, Spike(|m|, b, 1))
  {
    var p, q := us[i].place, us[j].place;
    assert Fits(p, |m|) && Fits(q, |m|);
    SecondHidesFirst(p, q, b, |m|);
    var tr, s := BothRead(us, m, tr0, s0, i, j);
    BothWritten(us, m, tr, s, i, j, Update(p, Pow(b - p.at)), Update(q, Pow(b - q.at)));
  }

  lemma {:induction false} LostUpdate(places: seq<Place>, i: nat, j: nat, b: nat, size: nat)
    requires i < |places| && j < |places| && i != j && Covers(places[i], b) && Covers(places[j], b) && places[i] != places[j]
    requires AllFit(Updates(places, Pokes(places, i, j, b)), size)
    ensures Outcome(Updates(places, Pokes(places, i, j, b)), Spike(size, b, 0), Spike(size, b, 1))
  {
    var tr, s := OthersFirst(places, i, j, b, size);
    LoseOne(Updates(places, Pokes(places, i, j, b)), Spike(size, b, 0), tr, s, i, j, b);
  }

  lemma OverlapNotSerialisable(places: seq<Place>, i: nat, j: nat)
    requires i < |places| && j < |places| && places[i] != places[j] && !Disjoint(places[i], places[j])
    ensures !Serialisable(places)
  {
    var b := if places[i].at < places[j].at then places[j].at else places[i].at;
    var size := Reach(places);
    var us := Updates(places, Pokes(places, i, j, b));
    LostUpdate(places, i, j, b, size);
    var m, m' := Spike(size, b, 0), Spike(size, b, 1);
    assert Outcome(us, m, m');
    assert m'[b] == 1 && Spike(size, b, 2)[b] == 2;
    forall order | IsFull(order, |us|)
      ensures Serial(us, m, order) != m'
    {
      SerialPokes(places, i, j, b, size, order);
    }
  }

  /** A window size that holds all places. */
  function Reach(places: seq<Place>): (size: nat)
    ensures forall k :: 0 <= k < |places| ==> Fits(places[k], size)
  {
    if places == [] then 0
    else
      var p, rest := places[|places| - 1], places[..|places| - 1];
      var r := Reach(rest);
      assert forall k :: 0 <= k < |rest| ==> Fits(rest[k], r);
      if p.at + p.w > r then p.at + p.w else r
  }

  /** MAIN RESULT. The condition of `CompatibleIsSerial` is exact. */
  lemma {:induction false} SerialisableExactly(places: seq<Place>)
    ensures Serialisable(places) <==> NeverOverlap(places)
  {
    if NeverOverlap(places) {
      forall vs: seq<int>, m: Window, m': Window |
        |vs| == |places| && AllFit(Updates(places, vs), |m|) && Outcome(Updates(places, vs), m, m')
        ensures SomeOrder(Updates(places, vs), m, m')
      {
        var us := Updates(places, vs);
        assert forall k :: 0 <= k < |us| ==> us[k].place == places[k];
        var order := InOrder(|us|);
        CompatibleIsSerial(us, m, m', order);
      }
    } else {
      var i, j :| 0 <= i < |places| && 0 <= j < |places| && places[i] != places[j] && !Disjoint(places[i], places[j]);
      OverlapNotSerialisable(places, i, j);
    }
  }

  function InOrder(n: nat): (order: seq<nat>)
    ensures IsFull(order, n) && |order| == n
  {
    if n == 0 then []
    else
      var order := InOrder(n - 1) + [n - 1];
      assert forall k: nat :: k < n ==> k in order;
      order
  }

  // ----- two calls

  /** The elements of a call with count `n`, at byte `at`. */
  function Row(at: nat, t: Type, n: nat): (places: seq<Place>)
    ensures |places| == n
  {
    seq(n, k requires 0 <= k < n => Place(at + k * t.size, t))
  }

  /** A call with `n` elements of type `t`, and one with `m` elements of type `u`, displaced by `d` bytes. */
  function TwoCalls(n: nat, t: Type, m: nat, u: Type, d: nat): (places: seq<Place>)
    ensures |places| == n + m
  {
    Row(0, t, n) + Row(d, u, m)
  }

  lemma OneOfTwo(n: nat, t: Type, m: nat, u: Type, d: nat, k: nat)
    requires k < n + m
    ensures TwoCalls(n, t, m, u, d)[k] == if k < n then Place(k * t.size, t) else Place(d + (k - n) * u.size, u)
  {
  }

  lemma WholeElement(n: nat, t: Type, m: nat, d: nat, k: nat)
    requires t.size > 0 && d % t.size == 0 && k < n + m
    ensures TwoCalls(n, t, m, t, d)[k].at % t.size == 0 && TwoCalls(n, t, m, t, d)[k].ty == t
  {
    var w := t.size;
    OneOfTwo(n, t, m, t, d, k);
    if k < n {
      ModUnique(k * w, w, k, 0);
    } else {
      assert d == w * (d / w);
      ModUnique(d + (k - n) * w, w, d / w + (k - n), 0);
    }
  }

  lemma WholeElements(n: nat, t: Type, m: nat, d: nat)
    requires t.size > 0 && d % t.size == 0
    ensures NeverOverlap(TwoCalls(n, t, m, t, d))
  {
    var places := TwoCalls(n, t, m, t, d);
    forall i, j | 0 <= i < |places| && 0 <= j < |places|
      ensures places[i] == places[j] || Disjoint(places[i], places[j])
    {
      WholeElement(n, t, m, d, i);
      WholeElement(n, t, m, d, j);
      if places[i].at < places[j].at {
        MultiplesApart(places[i].at, places[j].at, t.size);
      } else if places[j].at < places[i].at {
        MultiplesApart(places[j].at, places[i].at, t.size);
      }
    }
  }

  lemma NextElement(w: nat, i: nat, j: nat)
    requires i < j
    ensures i * w + w <= j * w
  {
    MulMonotone(w, i + 1, j);
  }

  lemma InLine(n: nat, t: Type, m: nat, u: Type, d: nat, i: nat, j: nat)
    requires (m == 0 || n * t.size <= d) && i < j < n + m
    ensures TwoCalls(n, t, m, u, d)[i].at + TwoCalls(n, t, m, u, d)[i].w <= TwoCalls(n, t, m, u, d)[j].at
  {
    OneOfTwo(n, t, m, u, d, i);
    OneOfTwo(n, t, m, u, d, j);
    if j < n {
      NextElement(t.size, i, j);
    } else if i < n {
      NextElement(t.size, i, n);
    } else {
      NextElement(u.size, i - n, j - n);
    }
  }

  lemma BehindTheOther(n: nat, t: Type, m: nat, u: Type, d: nat)
    requires m == 0 || n * t.size <= d
    ensures NeverOverlap(TwoCalls(n, t, m, u, d))
  {
    var places := TwoCalls(n, t, m, u, d);
    forall i, j | 0 <= i < |places| && 0 <= j < |places|
      ensures places[i] == places[j] || Disjoint(places[i], places[j])
    {
      if i < j {
        InLine(n, t, m, u, d, i, j);
      } else if j < i {
        InLine(n, t, m, u, d, j, i);
      }
    }
  }

  /** The second call begins inside an element of the first, and not with an element of its type. */
  lemma MidElement(n: nat, t: Type, m: nat, u: Type, d: nat)
    requires t.size > 0 && u.size > 0 && m > 0 && d < n * t.size && (t != u || d % t.size != 0)
    ensures !NeverOverlap(TwoCalls(n, t, m, u, d))
  {
    var w := t.size;
    var i, places := d / w, TwoCalls(n, t, m, u, d);
    assert d == w * i + d % w;
    MulMonotone(w, n, i);
    OneOfTwo(n, t, m, u, d, i);
    OneOfTwo(n, t, m, u, d, n);
    assert places[n] == Place(d, u);
    assert places[i] != places[n] && !Disjoint(places[i], places[n]);
  }

  /** MAIN RESULT. Two calls of any counts and types, the second one displaced by `d` bytes: interleaving is
      serialisable exactly when the second is empty or lies past the first, or when both have one type and
      the displacement is a multiple of its size. */
  lemma {:induction false} DisplacementExactly(n: nat, t: Type, m: nat, u: Type, d: nat)
    requires t.size > 0 && u.size > 0
    ensures Serialisable(TwoCalls(n, t, m, u, d)) <==> m == 0 || n * t.size <= d || (t == u && d % t.size == 0)
  {
    SerialisableExactly(TwoCalls(n, t, m, u, d));
    if m == 0 || n * t.size <= d {
      BehindTheOther(n, t, m, u, d);
    } else if t == u && d % t.size == 0 {
      WholeElements(n, t, m, d);
    } else {
      MidElement(n, t, m, u, d);
    }
  }

  const SHORT := Type("MPI_SHORT", 2)
  const INT := Type("MPI_INT", 4)
  const FLOAT := Type("MPI_FLOAT", 4)
  const DOUBLE := Type("MPI_DOUBLE", 8)

  /** The ten programs: 001, 009 and 010 (one type, one place), 004 (one element further) against 002 and
      005 (short and int), 003 (one byte further), 006 and 007 (float and int), 008 (double and float). */
  lemma {:induction false} AtomicPrograms()
    ensures Serialisable(TwoCalls(4, INT, 4, INT, 0)) && Serialisable(TwoCalls(4, INT, 4, INT, 4))
    ensures !Serialisable(TwoCalls(4, SHORT, 4, INT, 0)) && !Serialisable(TwoCalls(4, INT, 4, INT, 1))
    ensures !Serialisable(TwoCalls(4, FLOAT, 4, INT, 0)) && !Serialisable(TwoCalls(4, DOUBLE, 4, FLOAT, 0))
  {
    DisplacementExactly(4, INT, 4, INT, 0);
    DisplacementExactly(4, INT, 4, INT, 4);
    DisplacementExactly(4, SHORT, 4, INT, 0);
    DisplacementExactly(4, INT, 4, INT, 1);
    DisplacementExactly(4, FLOAT, 4, INT, 0);
    assert FLOAT.name[4] != INT.name[4];
    DisplacementExactly(4, DOUBLE, 4, FLOAT, 0);
  }
}
