/**
 Concurrent accumulates on one window, byte by byte (MPIRMA/atomic/001 to 010; MPI 3.1, section 11.7.1).

 An accumulate is a list of element updates. An update reads its element and later writes back the sum,
 and MPI makes the pair atomic only against updates of the very same element: same address and same
 predefined type. An `int` and a `float` at one address are two elements, although their bytes are the
 same. The main results say that this is enough exactly when any two updates touch the same element or
 disjoint bytes, and what the window then holds at the end of every interleaving.
 */
module Accumulate {
  import M = Machine
  import opened WindowBytes

  /** `MPI_SUM` of `v` into the element at `place`. */
  datatype Update = Update(place: Place, v: int)

  /** One whole update. */
  function Add(m: Window, u: Update): (r: Window)
    requires Fits(u.place, |m|)
    ensures |r| == |m|
  {
    Write(m, u.place.at, u.place.w, Read(m, u.place.at, u.place.w) + u.v)
  }

  // ----- interleavings

  datatype Phase = Waiting | Busy(val: nat) | Done
  datatype State = State(m: Window, phase: seq<Phase>)
  datatype Label = Begin(k: nat) | End(k: nat)

  predicate AllFit(us: seq<Update>, size: nat) {
    forall k :: 0 <= k < |us| ==> Fits(us[k].place, size)
  }

  predicate Shape(us: seq<Update>, s: State) {
    |s.phase| == |us| && AllFit(us, |s.m|)
  }

  function Init(us: seq<Update>, m: Window): State {
    State(m, seq(|us|, k => Waiting))
  }

  /** An update waits for another one of the same element, and for nothing else. */
  predicate Enabled(us: seq<Update>, s: State, l: Label)
    requires Shape(us, s)
  {
    l.k < |us| &&
    match l
    case Begin(k) => s.phase[k].Waiting? && forall j :: 0 <= j < |us| && us[j].place == us[k].place ==> !s.phase[j].Busy?
    case End(k) => s.phase[k].Busy?
  }

  function Apply(us: seq<Update>, s: State, l: Label): (s': State)
    requires Shape(us, s) && Enabled(us, s, l)
    ensures Shape(us, s') && |s'.m| == |s.m|
  {
    var p := us[l.k].place;
    match l
    case Begin(k) => s.(phase := s.phase[k := Busy(Read(s.m, p.at, p.w))])
    case End(k) => State(Write(s.m, p.at, p.w, s.phase[k].val + us[k].v), s.phase[k := Done])
  }

  function Exec(us: seq<Update>, m: Window, tr: seq<Label>): (r: M.Option<State>)
    requires AllFit(us, |m|)
    ensures r.Some? ==> Shape(us, r.value) && |r.value.m| == |m|
  {
    if tr == [] then M.Some(Init(us, m))
    else
      var r := Exec(us, m, tr[..|tr| - 1]);
      if r.Some? && Enabled(us, r.value, tr[|tr| - 1]) then M.Some(Apply(us, r.value, tr[|tr| - 1])) else M.None
  }

  predicate Completed(s: State) {
    forall k :: 0 <= k < |s.phase| ==> s.phase[k].Done?
  }

  /** Window `m'` is where some interleaving of all the updates ends. */
  ghost predicate Outcome(us: seq<Update>, m: Window, m': Window)
    requires AllFit(us, |m|)
  {
    exists tr :: Exec(us, m, tr).Some? && Completed(Exec(us, m, tr).value) && Exec(us, m, tr).value.m == m'
  }

  // ----- what the window holds in the end

  /** Any two updates are of one element, or of disjoint bytes. */
  predicate Compatible(us: seq<Update>) {
    forall i, j :: 0 <= i < |us| && 0 <= j < |us| ==> us[i].place == us[j].place || Disjoint(us[i].place, us[j].place)
  }

  /** The sum of the contributions to `p` that `phase` has done. */
  function SumDone(us: seq<Update>, phase: seq<Phase>, p: Place, n: nat): int
    requires n <= |us| == |phase|
  {
    if n == 0 then 0
    else SumDone(us, phase, p, n - 1) + if us[n - 1].place == p && phase[n - 1].Done? then us[n - 1].v else 0
  }

  /** All contributions to `p`. */
  function Sum(us: seq<Update>, p: Place, n: nat): int
    requires n <= |us|
  {
    if n == 0 then 0 else Sum(us, p, n - 1) + if us[n - 1].place == p then us[n - 1].v else 0
  }

  lemma {:induction false} SumDoneStep(us: seq<Update>, phase: seq<Phase>, k: nat, to: Phase, p: Place, n: nat)
    requires n <= |us| == |phase| && k < |us| && !phase[k].Done?
    ensures SumDone(us, phase[k := to], p, n) ==
              SumDone(us, phase, p, n) + if k < n && us[k].place == p && to.Done? then us[k].v else 0
  {
    if n > 0 {
      SumDoneStep(us, phase, k, to, p, n - 1);
    }
  }

  lemma {:induction false} SumAllDone(us: seq<Update>, phase: seq<Phase>, p: Place, n: nat)
    requires n <= |us| == |phase| && forall k :: 0 <= k < |phase| ==> phase[k].Done?
    ensures SumDone(us, phase, p, n) == Sum(us, p, n)
  {
    if n > 0 {
      SumAllDone(us, phase, p, n - 1);
    }
  }

  lemma {:induction false} SumNoneDone(us: seq<Update>, phase: seq<Phase>, p: Place, n: nat)
    requires n <= |us| == |phase| && forall k :: 0 <= k < |phase| ==> !phase[k].Done?
    ensures SumDone(us, phase, p, n) == 0
  {
    if n > 0 {
      SumNoneDone(us, phase, p, n - 1);
    }
  }

  /** What is so of the element at `p` all through a run that starts with window `m`. */
  ghost predicate ElementOk(us: seq<Update>, m: Window, s: State, p: Place)
    requires Shape(us, s) && |s.m| == |m| && Fits(p, |m|)
  {
    && Read(s.m, p.at, p.w) == (Read(m, p.at, p.w) + SumDone(us, s.phase, p, |us|)) % Pow(p.w)
    && (forall k :: 0 <= k < |us| && us[k].place == p && s.phase[k].Busy? ==> s.phase[k].val == Read(s.m, p.at, p.w))
    && (forall j, k :: 0 <= j < k < |us| && us[j].place == us[k].place == p ==> !s.phase[j].Busy? || !s.phase[k].Busy?)
  }

  predicate Apart(us: seq<Update>, p: Place) {
    forall k :: 0 <= k < |us| ==> us[k].place == p || Disjoint(us[k].place, p)
  }

  lemma AddMod(a: int, b: int, v: int, m: nat)
    requires m > 0 && a == b % m
    ensures (a + v) % m == (b + v) % m
  {
    var x := (b + v) % m;
    assert b == m * (b / m) + a && b + v == m * ((b + v) / m) + x;
    assert a + v == m * ((b + v) / m - b / m) + x;
    ModUnique(a + v, m, (b + v) / m - b / m, x);
  }

  lemma ElementStep(us: seq<Update>, m: Window, s: State, l: Label, p: Place)
    requires Shape(us, s) && |s.m| == |m| && Fits(p, |m|) && Apart(us, p) && ElementOk(us, m, s, p) && Enabled(us, s, l)
    ensures ElementOk(us, m, Apply(us, s, l), p)
  {
    var q, u := us[l.k].place, us[l.k];
    SumDoneStep(us, s.phase, l.k, Apply(us, s, l).phase[l.k], p, |us|);
    if l.End? {
      if q == p {
        ReadWritten(s.m, p.at, p.w, s.phase[l.k].val + u.v);
        AddMod(s.phase[l.k].val, Read(m, p.at, p.w) + SumDone(us, s.phase, p, |us|), u.v, Pow(p.w));
      } else {
        ReadOther(s.m, q, p, s.phase[l.k].val + u.v);
      }
    }
  }

  lemma {:induction false} ElementInRun(us: seq<Update>, m: Window, tr: seq<Label>, p: Place)
    requires AllFit(us, |m|) && Fits(p, |m|) && Apart(us, p) && Exec(us, m, tr).Some?
    ensures ElementOk(us, m, Exec(us, m, tr).value, p)
  {
    if tr == [] {
      SumNoneDone(us, Init(us, m).phase, p, |us|);
      ModUnique(Read(m, p.at, p.w), Pow(p.w), 0, Read(m, p.at, p.w));
    } else {
      ElementInRun(us, m, tr[..|tr| - 1], p);
      ElementStep(us, m, Exec(us, m, tr[..|tr| - 1]).value, tr[|tr| - 1], p);
    }
  }

  lemma ElementAtEnd(us: seq<Update>, m: Window, s: State, p: Place)
    requires Shape(us, s) && |s.m| == |m| && Fits(p, |m|) && ElementOk(us, m, s, p) && Completed(s)
    ensures Read(s.m, p.at, p.w) == (Read(m, p.at, p.w) + Sum(us, p, |us|)) % Pow(p.w)
  {
    SumAllDone(us, s.phase, p, |us|);
  }

  lemma RunAddsUp(us: seq<Update>, m: Window, tr: seq<Label>, p: Place)
    requires AllFit(us, |m|) && Fits(p, |m|) && Apart(us, p) && Exec(us, m, tr).Some? && Completed(Exec(us, m, tr).value)
    ensures Read(Exec(us, m, tr).value.m, p.at, p.w) == (Read(m, p.at, p.w) + Sum(us, p, |us|)) % Pow(p.w)
  {
    ElementInRun(us, m, tr, p);
    ElementAtEnd(us, m, Exec(us, m, tr).value, p);
  }

  /** MAIN RESULT. However the updates interleave, an element that every update touches whole or not at all
      ends as its start plus the sum of all contributions to it, modulo the width of its type. */
  lemma {:induction false} AccumulatesAddUp(us: seq<Update>, m: Window, m': Window, p: Place)
    requires AllFit(us, |m|) && Fits(p, |m|) && Apart(us, p) && Outcome(us, m, m')
    ensures |m'| == |m| && Read(m', p.at, p.w) == (Read(m, p.at, p.w) + Sum(us, p, |us|)) % Pow(p.w)
  {
    var tr :| Exec(us, m, tr).Some? && Completed(Exec(us, m, tr).value) && Exec(us, m, tr).value.m == m';
    RunAddsUp(us, m, tr, p);
  }

  /** Elements of one type, at multiples of its size. */
  predicate Aligned(us: seq<Update>, t: Type)
    requires t.size > 0
  {
    forall k :: 0 <= k < |us| ==> us[k].place.ty == t && us[k].place.at % t.size == 0
  }

  lemma MultiplesApart(a: nat, b: nat, w: nat)
    requires w > 0 && a % w == 0 && b % w == 0 && a < b
    ensures a + w <= b
  {
    assert a == w * (a / w) && b == w * (b / w);
    MulMonotone(w, b / w, a / w);
    MulMonotone(w, a / w + 1, b / w);
  }

  lemma {:induction false} AlignedIsCompatible(us: seq<Update>, t: Type)
    requires t.size > 0 && Aligned(us, t)
    ensures Compatible(us)
  {
    forall i, j | 0 <= i < |us| && 0 <= j < |us|
      ensures us[i].place == us[j].place || Disjoint(us[i].place, us[j].place)
    {
      var a, b := us[i].place.at, us[j].place.at;
      if a < b {
        MultiplesApart(a, b, t.size);
      } else if b < a {
        MultiplesApart(b, a, t.size);
      }
    }
  }
}
