/**
 Whole `MPI_Accumulate` calls: their elements, derived types (MPIRMA/atomic/001), and what a call does to
 the window of the target in place.
 */
module AccumulateCalls {
  import opened WindowBytes
  import opened Accumulate
  import opened AccumulateExact

  /** A call with `|values|` elements of the predefined type `t`, at byte `at`. */
  function Elements(at: nat, t: Type, values: seq<int>): (us: seq<Update>)
    ensures |us| == |values|
  {
    seq(|values|, i requires 0 <= i < |values| => Update(Place(at + i * t.size, t), values[i]))
  }

  // ----- derived types

  /** A call with `k` items of the type `contiguous(n)`. */
  function Items(at: nat, t: Type, k: nat, n: nat, values: seq<int>): seq<Update>
    requires |values| == k * n
    decreases k
  {
    if k == 0 then []
    else
      assert |values| == n + (k - 1) * n && 0 <= (k - 1) * n;
      Elements(at, t, values[..n]) + Items(at + n * t.size, t, k - 1, n, values[n..])
  }

  /** MPIRMA/atomic/001: `k` items of `contiguous(n)` are the `k * n` elements of a plain count, so the two
      kinds of call are atomic against each other. */
  lemma {:induction false} ContiguousIsPlain(at: nat, t: Type, k: nat, n: nat, values: seq<int>)
    requires |values| == k * n
    ensures Items(at, t, k, n, values) == Elements(at, t, values)
    decreases k
  {
    if k > 0 {
      var w := t.size;
      assert |values| == n + (k - 1) * n && 0 <= (k - 1) * n;
      ContiguousIsPlain(at + n * w, t, k - 1, n, values[n..]);
      var items, plain := Items(at, t, k, n, values), Elements(at, t, values);
      forall i | 0 <= i < |values|
        ensures items[i] == plain[i]
      {
        if i >= n {
          assert items[i] == Elements(at + n * w, t, values[n..])[i - n];
          assert (n * w) + (i - n) * w == i * w;
        }
      }
    }
  }

  // ----- two calls on one window

  lemma {:induction false} SumConcat(us: seq<Update>, vs: seq<Update>, p: Place, n: nat)
    requires n <= |us| + |vs|
    ensures Sum(us + vs, p, n) == if n <= |us| then Sum(us, p, n) else Sum(us, p, |us|) + Sum(vs, p, n - |us|)
  {
    if n > 0 {
      SumConcat(us, vs, p, n - 1);
    }
  }

  /** What one call contributes to element `x` of the window. */
  function Share(e: nat, values: seq<int>, x: nat): int {
    if e <= x < e + |values| then values[x - e] else 0
  }

  lemma SameElement(w: nat, e: nat, i: nat, x: nat)
    requires w > 0
    ensures e * w + i * w == x * w <==> e + i == x
  {
    assert e * w + i * w == (e + i) * w;
    MulMonotone(w, x + 1, e + i);
    MulMonotone(w, e + i + 1, x);
  }

  lemma {:induction false} SumElements(e: nat, t: Type, values: seq<int>, x: nat, n: nat)
    requires n <= |values| && t.size > 0
    ensures Sum(Elements(e * t.size, t, values), Place(x * t.size, t), n) == if e <= x < e + n then values[x - e] else 0
  {
    if n > 0 {
      SumElements(e, t, values, x, n - 1);
      SameElement(t.size, e, n - 1, x);
    }
  }

  /** Two calls, the second one displaced by `e` elements of the one type. */
  function TwoCallsAt(t: Type, a: seq<int>, e: nat, b: seq<int>): seq<Update> {
    Elements(0, t, a) + Elements(e * t.size, t, b)
  }

  lemma SharesAddUp(t: Type, a: seq<int>, e: nat, b: seq<int>, x: nat)
    requires t.size > 0
    ensures Sum(TwoCallsAt(t, a, e, b), Place(x * t.size, t), |a| + |b|) == Share(0, a, x) + Share(e, b, x)
  {
    SumConcat(Elements(0, t, a), Elements(e * t.size, t, b), Place(x * t.size, t), |a| + |b|);
    assert Elements(0, t, a) == Elements(0 * t.size, t, a);
    SumElements(0, t, a, x, |a|);
    SumElements(e, t, b, x, |b|);
  }

  lemma WholeElementCalls(t: Type, a: seq<int>, e: nat, b: seq<int>)
    requires t.size > 0
    ensures Aligned(TwoCallsAt(t, a, e, b), t)
  {
    var us, w := TwoCallsAt(t, a, e, b), t.size;
    forall k | 0 <= k < |us|
      ensures us[k].place.ty == t && us[k].place.at % w == 0
    {
      if k < |a| {
        ModUnique(k * w, w, k, 0);
      } else {
        var i := k - |a|;
        assert us[k] == Elements(e * w, t, b)[i];
        ModUnique(e * w + i * w, w, e + i, 0);
      }
    }
  }

  lemma AlignedPlace(us: seq<Update>, t: Type, x: nat)
    requires t.size > 0 && Aligned(us, t)
    ensures Apart(us, Place(x * t.size, t))
  {
    var w := t.size;
    ModUnique(x * w, w, x, 0);
    forall k | 0 <= k < |us|
      ensures us[k].place == Place(x * w, t) || Disjoint(us[k].place, Place(x * w, t))
    {
      var a := us[k].place.at;
      if a < x * w {
        MultiplesApart(a, x * w, w);
      } else if x * w < a {
        MultiplesApart(x * w, a, w);
      }
    }
  }

  lemma ElementApart(t: Type, a: seq<int>, e: nat, b: seq<int>, x: nat)
    requires t.size > 0
    ensures Apart(TwoCallsAt(t, a, e, b), Place(x * t.size, t))
  {
    WholeElementCalls(t, a, e, b);
    AlignedPlace(TwoCallsAt(t, a, e, b), t, x);
  }

  /** MAIN RESULT. MPIRMA/atomic/004 (and 001, with `e == 0`) for any counts, values and displacement by
      whole elements: however the two calls interleave, every element of the window ends as its start plus
      the share of each call in it. */
  lemma {:induction false} TwoCallsAddUp(t: Type, a: seq<int>, e: nat, b: seq<int>, m: Window, m': Window, x: nat, p: Place)
    requires t.size > 0 && AllFit(TwoCallsAt(t, a, e, b), |m|) && Outcome(TwoCallsAt(t, a, e, b), m, m')
    requires p == Place(x * t.size, t) && Fits(p, |m|)
    ensures |m'| == |m| && Read(m', p.at, p.w) == (Read(m, p.at, p.w) + (Share(0, a, x) + Share(e, b, x))) % Pow(p.w)
  {
    ElementApart(t, a, e, b, x);
    AccumulatesAddUp(TwoCallsAt(t, a, e, b), m, m', p);
    SharesAddUp(t, a, e, b, x);
  }

  // ----- in place

  /** The updates of one call after the other. */
  function AddAll(m: Window, us: seq<Update>): (r: Window)
    requires AllFit(us, |m|)
    ensures |r| == |m|
  {
    if us == [] then m else Add(AddAll(m, us[..|us| - 1]), us[|us| - 1])
  }

  lemma AddNext(m: Window, us: seq<Update>, i: nat)
    requires AllFit(us, |m|) && i < |us|
    ensures AllFit(us[..i], |m|) && AllFit(us[..i + 1], |m|)
    ensures AddAll(m, us[..i + 1]) == Add(AddAll(m, us[..i]), us[i])
  {
    assert us[..i + 1][..i] == us[..i] && us[..i + 1][i] == us[i];
  }

  method ReadElement(win: array<byte>, at: nat, w: nat) returns (v: nat)
    requires at + w <= win.Length
    ensures v == Read(win[..], at, w)
  {
    v := 0;
    var i := w;
    while i > 0
      invariant 0 <= i <= w
      invariant v == Read(win[..], at + i, w - i)
    {
      i := i - 1;
      v := win[at + i] + 256 * v;
    }
  }

  method WriteElement(win: array<byte>, at: nat, w: nat, v: int)
    requires at + w <= win.Length
    modifies win
    ensures win[..] == Write(old(win[..]), at, w, v)
  {
    var rest, i := v, 0;
    while i < w
      invariant 0 <= i <= w
      invariant Bytes(v, w)[i..] == Bytes(rest, w - i)
      invariant forall k :: 0 <= k < i ==> win[at + k] == Bytes(v, w)[k]
      invariant forall k :: 0 <= k < win.Length && !(at <= k < at + i) ==> win[k] == old(win[k])
    {
      assert Bytes(v, w)[i..][0] == Bytes(v, w)[i];
      win[at + i] := rest % 256;
      rest := rest / 256;
      i := i + 1;
      assert Bytes(v, w)[i..] == Bytes(v, w)[i - 1..][1..];
    }
    forall k | 0 <= k < win.Length
      ensures win[k] == Write(old(win[..]), at, w, v)[k]
    {
      WrittenByte(old(win[..]), at, w, v, k);
      if at <= k < at + w {
        assert win[at + (k - at)] == Bytes(v, w)[k - at];
      }
    }
  }

  lemma SerialNext(us: seq<Update>, m: Window, n: nat)
    requires AllFit(us, |m|) && n < |us| && IsOrder(InOrder(n), |us|) && IsOrder(InOrder(n + 1), |us|)
    ensures Serial(us, m, InOrder(n + 1)) == Add(Serial(us, m, InOrder(n)), us[n])
  {
    var order := InOrder(n + 1);
    assert order == InOrder(n) + [n];
    assert order[..n] == InOrder(n);
  }

  lemma FirstInOrder(n: nat, size: nat)
    requires n <= size
    ensures IsOrder(InOrder(n), size)
  {
  }

  lemma {:induction false} AddAllSerial(us: seq<Update>, m: Window, n: nat)
    requires AllFit(us, |m|) && n <= |us|
    ensures AllFit(us[..n], |m|) && IsOrder(InOrder(n), |us|) && AddAll(m, us[..n]) == Serial(us, m, InOrder(n))
  {
    FirstInOrder(n, |us|);
    if n > 0 {
      AddAllSerial(us, m, n - 1);
      AddNext(m, us, n - 1);
      SerialNext(us, m, n - 1);
    }
  }

  lemma {:induction false} AddAllConcat(m: Window, us: seq<Update>, vs: seq<Update>)
    requires AllFit(us, |m|) && AllFit(vs, |m|)
    ensures AllFit(us + vs, |m|) && AddAll(m, us + vs) == AddAll(AddAll(m, us), vs)
  {
    if vs == [] {
      assert us + vs == us;
    } else {
      var rest := vs[..|vs| - 1];
      AddAllConcat(m, us, rest);
      assert (us + vs)[..|us + vs| - 1] == us + rest;
    }
  }

  lemma FitBoth(us: seq<Update>, vs: seq<Update>, size: nat)
    requires AllFit(us + vs, size)
    ensures AllFit(us, size) && AllFit(vs, size)
  {
    forall k | 0 <= k < |us|
      ensures Fits(us[k].place, size)
    {
      assert us[k] == (us + vs)[k];
    }
    forall k | 0 <= k < |vs|
      ensures Fits(vs[k].place, size)
    {
      assert vs[k] == (us + vs)[|us| + k];
    }
  }

  lemma OutcomeInPlace(us: seq<Update>, m: Window, m': Window)
    requires AllFit(us, |m|) && Compatible(us) && Outcome(us, m, m')
    ensures m' == AddAll(m, us)
  {
    CompatibleIsSerial(us, m, m', InOrder(|us|));
    AddAllSerial(us, m, |us|);
    assert us[..|us|] == us;
  }

  /** Two calls in place, one after the other, end like every interleaving of them. */
  lemma {:induction false} InPlaceIsEveryOutcome(us: seq<Update>, vs: seq<Update>, m: Window, m': Window)
    requires AllFit(us + vs, |m|) && Compatible(us + vs) && Outcome(us + vs, m, m')
    ensures AllFit(us, |m|) && AllFit(vs, |m|) && m' == AddAll(AddAll(m, us), vs)
  {
    FitBoth(us, vs, |m|);
    OutcomeInPlace(us + vs, m, m');
    AddAllConcat(m, us, vs);
  }

  /** MAIN RESULT. MPIRMA/atomic/001, 004, 009 and 010: however two calls of one type interleave, the window
      ends as if the target had applied the first call in place, and then the second. */
  lemma {:induction false} TwoCallsInPlace(t: Type, a: seq<int>, e: nat, b: seq<int>, us: seq<Update>, vs: seq<Update>, m: Window, m': Window)
    requires t.size > 0 && us == Elements(0, t, a) && vs == Elements(e * t.size, t, b)
    requires AllFit(us + vs, |m|) && Outcome(us + vs, m, m')
    ensures AllFit(us, |m|) && AllFit(vs, |m|) && m' == AddAll(AddAll(m, us), vs)
  {
    assert TwoCallsAt(t, a, e, b) == us + vs;
    WholeElementCalls(t, a, e, b);
    AlignedIsCompatible(us + vs, t);
    InPlaceIsEveryOutcome(us, vs, m, m');
  }

  lemma NextUpdate(at: nat, t: Type, values: seq<int>, m: Window, i: nat)
    requires AllFit(Elements(at, t, values), |m|) && i < |values|
    ensures var us := Elements(at, t, values);
            && AllFit(us[..i], |m|) && AllFit(us[..i + 1], |m|) && at + i * t.size + t.size <= |m|
            && var mid := AddAll(m, us[..i]);
               AddAll(m, us[..i + 1]) == Write(mid, at + i * t.size, t.size, Read(mid, at + i * t.size, t.size) + values[i])
  {
    var us := Elements(at, t, values);
    assert us[i] == Update(Place(at + i * t.size, t), values[i]) && Fits(us[i].place, |m|);
    AddNext(m, us, i);
  }

  /** The target's side of one call, on the window itself. */
  method AccumulateInPlace(win: array<byte>, at: nat, t: Type, values: seq<int>)
    requires AllFit(Elements(at, t, values), win.Length)
    modifies win
    ensures win[..] == AddAll(old(win[..]), Elements(at, t, values))
  {
    ghost var us, m := Elements(at, t, values), win[..];
    var i := 0;
    while i < |values|
      invariant 0 <= i <= |values|
      invariant AllFit(us[..i], |m|) && win[..] == AddAll(m, us[..i])
    {
      NextUpdate(at, t, values, m, i);
      var v := ReadElement(win, at + i * t.size, t.size);
      WriteElement(win, at + i * t.size, t.size, v + values[i]);
      i := i + 1;
    }
    assert us[..|values|] == us;
  }
}
