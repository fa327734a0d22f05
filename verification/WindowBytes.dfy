/**
 Elements in a window of bytes: reading and writing integers of any width, low byte first, in two's
 complement.
 */
module WindowBytes {

  type byte = b: int | 0 <= b < 256

  type Window = seq<byte>

  /** A predefined type. Two types of one size are still two types. */
  datatype Type = Type(name: string, size: nat)

  /** One element of the window: where it begins, and as what it is accessed. */
  datatype Place = Place(at: nat, ty: Type) {
    const w: nat := ty.size
  }

  function Pow(w: nat): (r: nat)
    ensures r > 0
  {
    if w == 0 then 1 else 256 * Pow(w - 1)
  }

  predicate Fits(p: Place, size: nat) {
    p.at + p.w <= size
  }

  /** The element of `w` bytes at `at`, low byte first. */
  function Read(m: Window, at: nat, w: nat): (r: nat)
    requires at + w <= |m|
    ensures r < Pow(w)
    decreases w
  {
    if w == 0 then 0 else m[at] + 256 * Read(m, at + 1, w - 1)
  }

  function Bytes(v: int, w: nat): (r: Window)
    ensures |r| == w
    decreases w
  {
    if w == 0 then [] else [v % 256] + Bytes(v / 256, w - 1)
  }

  function Write(m: Window, at: nat, w: nat, v: int): (r: Window)
    requires at + w <= |m|
    ensures |r| == |m|
  {
    var b := Bytes(v, w);
    seq(|m|, i requires 0 <= i < |m| => if at <= i < at + w then b[i - at] else m[i])
  }

  lemma {:induction false} ReadSlice(m: Window, n: Window, at: nat, bt: nat, w: nat)
    requires at + w <= |m| && bt + w <= |n| && m[at..at + w] == n[bt..bt + w]
    ensures Read(m, at, w) == Read(n, bt, w)
    decreases w
  {
    if w > 0 {
      assert m[at..at + w][0] == n[bt..bt + w][0];
      assert m[at + 1..at + w] == m[at..at + w][1..] == n[bt + 1..bt + w];
      ReadSlice(m, n, at + 1, bt + 1, w - 1);
    }
  }

  lemma {:induction false} ReadBytes(v: int, w: nat)
    ensures Read(Bytes(v, w), 0, w) == v % Pow(w)
    decreases w
  {
    if w > 0 {
      var b, rest := Bytes(v, w), Bytes(v / 256, w - 1);
      ReadBytes(v / 256, w - 1);
      assert b[1..] == rest && rest[0..w - 1] == rest;
      ReadSlice(b, rest, 1, 0, w - 1);
      ModTwice(v, Pow(w - 1));
    }
  }

  /** `v % (256 * p)` digit by digit. */
  lemma ModTwice(v: int, p: nat)
    requires p > 0
    ensures v % 256 + 256 * ((v / 256) % p) == v % (256 * p)
  {
    var q, r := v / 256, (v / 256) % p;
    assert q == p * (q / p) + r;
    var x := v % 256 + 256 * r;
    assert v == 256 * p * (q / p) + x;
    assert 0 <= x < 256 * p;
    ModUnique(v, 256 * p, q / p, x);
  }

  lemma MulMonotone(m: nat, x: int, y: int)
    ensures x <= y ==> m * x <= m * y
  {
  }

  lemma ModUnique(v: int, m: nat, k: int, x: int)
    requires m > 0 && v == m * k + x && 0 <= x < m
    ensures v % m == x
  {
    var d := v / m - k;
    assert v == m * (v / m) + v % m;
    assert m * d == m * (v / m) - m * k == x - v % m;
    MulMonotone(m, 1, d);
    MulMonotone(m, d, -1);
  }

  lemma {:induction false} BytesRead(m: Window, at: nat, w: nat)
    requires at + w <= |m|
    ensures Bytes(Read(m, at, w), w) == m[at..at + w]
    decreases w
  {
    if w > 0 {
      BytesRead(m, at + 1, w - 1);
      var rest: nat := Read(m, at + 1, w - 1);
      assert Read(m, at, w) == m[at] + 256 * rest;
      assert Read(m, at, w) / 256 == rest && Read(m, at, w) % 256 == m[at];
      assert m[at..at + w] == [m[at]] + m[at + 1..at + w];
    }
  }

  /** What is written can be read back, up to the width of the type. */
  lemma {:induction false} ReadWritten(m: Window, at: nat, w: nat, v: int)
    requires at + w <= |m|
    ensures Read(Write(m, at, w, v), at, w) == v % Pow(w)
  {
    var m' := Write(m, at, w, v);
    assert m'[at..at + w] == Bytes(v, w) == Bytes(v, w)[0..w];
    ReadSlice(m', Bytes(v, w), at, 0, w);
    ReadBytes(v, w);
  }

  predicate Disjoint(p: Place, q: Place) {
    p.w == 0 || q.w == 0 || p.at + p.w <= q.at || q.at + q.w <= p.at
  }

  lemma WrittenByte(m: Window, at: nat, w: nat, v: int, i: nat)
    requires at + w <= |m| && i < |m|
    ensures Write(m, at, w, v)[i] == if at <= i < at + w then Bytes(v, w)[i - at] else m[i]
  {
  }

  lemma {:induction false} ReadSame(m: Window, n: Window, at: nat, w: nat)
    requires at + w <= |m| == |n| && forall i :: at <= i < at + w ==> m[i] == n[i]
    ensures Read(m, at, w) == Read(n, at, w)
    decreases w
  {
    if w > 0 {
      ReadSame(m, n, at + 1, w - 1);
    }
  }

  lemma ReadOther(m: Window, p: Place, q: Place, v: int)
    requires Fits(p, |m|) && Fits(q, |m|) && Disjoint(p, q)
    ensures Read(Write(m, p.at, p.w, v), q.at, q.w) == Read(m, q.at, q.w)
  {
    var m' := Write(m, p.at, p.w, v);
    forall i | q.at <= i < q.at + q.w
      ensures m'[i] == m[i]
    {
      WrittenByte(m, p.at, p.w, v, i);
    }
    ReadSame(m', m, q.at, q.w);
  }
}
