/**
 Three programs that do not do what their descriptions say.

 The closing notifications of the GASPI programs are left out: they only add order.
 */
module Claims {
  import opened Machine
  import opened Ordering
  import opened Separation
  import opened Witness

  const RANKS: set<nat> := {0, 1}
  const WAIT := Close(Origin, OwnQueue(0))
  const DRAIN := Close(Both, AllOwn)

  function Win(rank: nat): Loc {
    Loc(rank, 0)
  }

  function Buf(rank: nat): Loc {
    Loc(rank, 1)
  }

  // ----- GASPI/misc/002

  /** The load is in `deep`, which is called before the read is posted. */
  const LOAD_THEN_READ := Program([
    Thread(0, [Barrier(RANKS), Load(Buf(0)), Rma(Get, 1, 0, Win(1), Buf(0)), WAIT, Barrier(RANKS), Load(Buf(0)), Load(Win(0))]),
    Thread(1, [Barrier(RANKS), WAIT, Barrier(RANKS), Load(Buf(1)), Load(Win(1))])
  ], map[])

  lemma ReadApart(e: Ev, f: Ev)
    requires IsCall(LOAD_THEN_READ, e) && IsCall(LOAD_THEN_READ, f) && CallAt(LOAD_THEN_READ, e).Rma?
    ensures PairSafe(LOAD_THEN_READ, e, f)
  {
    var P := LOAD_THEN_READ;
    assert e == Ev(0, 2);
    if f == Ev(0, 5) {
      assert Completes(P, Ev(0, 3), e, true);
      assert CompletedBetween(P, e, f, true);
    } else {
      assert DstConflict(P, e, f) ==> f == Ev(0, 1) || f == e;
      assert !SrcConflict(P, e, f);
    }
  }

  lemma ReadIsWaitedFor()
    ensures WellSynchronised(LOAD_THEN_READ)
  {
    forall e, f | IsCall(LOAD_THEN_READ, e) && IsCall(LOAD_THEN_READ, f) && CallAt(LOAD_THEN_READ, e).Rma?
      ensures PairSafe(LOAD_THEN_READ, e, f)
    {
      ReadApart(e, f);
    }
  }

  // ----- GASPI/misc/010

  /** Rank 0 stores to its own segment, and rank 1 reads its own. */
  const OWN_SEGMENTS := Program([
    Thread(0, [Barrier(RANKS), Store(Win(0), 42), WAIT, Barrier(RANKS), Load(Buf(0)), Load(Win(0))]),
    Thread(1, [Barrier(RANKS), Rma(Get, 1, 0, Win(1), Buf(1)), WAIT, Barrier(RANKS), Load(Buf(1)), Load(Win(1))])
  ], map[])

  lemma OwnReadApart(e: Ev, f: Ev)
    requires IsCall(OWN_SEGMENTS, e) && IsCall(OWN_SEGMENTS, f) && CallAt(OWN_SEGMENTS, e).Rma?
    ensures PairSafe(OWN_SEGMENTS, e, f)
  {
    var P := OWN_SEGMENTS;
    assert e == Ev(1, 1);
    if f == Ev(1, 4) {
      assert Completes(P, Ev(1, 2), e, true);
      assert CompletedBetween(P, e, f, true);
    } else {
      assert DstConflict(P, e, f) ==> f == e;
      assert !SrcConflict(P, e, f);
    }
  }

  lemma OwnSegmentsApart()
    ensures WellSynchronised(OWN_SEGMENTS)
  {
    forall e, f | IsCall(OWN_SEGMENTS, e) && IsCall(OWN_SEGMENTS, f) && CallAt(OWN_SEGMENTS, e).Rma?
      ensures PairSafe(OWN_SEGMENTS, e, f)
    {
      OwnReadApart(e, f);
    }
  }

  /** Both programs are said to race, and neither does. */
  lemma {:induction false} NoRaceAtAll()
    ensures RaceFree(LOAD_THEN_READ, true) && RaceFree(LOAD_THEN_READ, false)
    ensures RaceFree(OWN_SEGMENTS, true) && RaceFree(OWN_SEGMENTS, false)
  {
    ReadIsWaitedFor();
    OrderedIsRaceFree(LOAD_THEN_READ);
    OwnSegmentsApart();
    OrderedIsRaceFree(OWN_SEGMENTS);
  }

  // ----- MPIRMA/sync/001

  const PUT_THEN_STORE := Program([
    Thread(0, [DRAIN, Barrier(RANKS), Rma(Put, 1, 0, Buf(0), Win(1)), Store(Buf(0), 42), DRAIN, Barrier(RANKS), Load(Buf(0)), Load(Win(0))]),
    Thread(1, [DRAIN, Barrier(RANKS), DRAIN, Barrier(RANKS), Load(Buf(1)), Load(Win(1))])
  ], map[])

  lemma FenceCompletesPut()
    ensures CompletedBetween(PUT_THEN_STORE, Ev(0, 2), Ev(1, 5), true)
  {
    var P := PUT_THEN_STORE;
    CountEach(P.threads[0].code, Barrier(RANKS), 5);
    CountEach(P.threads[1].code, Barrier(RANKS), 5);
    BarrierBefore(P, Ev(0, 4), Ev(1, 5), RANKS);
    assert Completes(P, Ev(0, 4), Ev(0, 2), true);
  }

  lemma PutIsOnly(e: Ev)
    requires IsCall(PUT_THEN_STORE, e)
    ensures CallAt(PUT_THEN_STORE, e).Rma? ==> e == Ev(0, 2) && CallAt(PUT_THEN_STORE, e).kind == Put
    ensures !CallAt(PUT_THEN_STORE, e).Branch?
  {
  }

  lemma OthersApart(f: Ev)
    requires IsCall(PUT_THEN_STORE, f) && f != Ev(0, 3)
    ensures PairSafe(PUT_THEN_STORE, Ev(0, 2), f)
  {
    var P, e := PUT_THEN_STORE, Ev(0, 2);
    if f == Ev(1, 5) {
      FenceCompletesPut();
    } else {
      assert !DstConflict(P, e, f) || f == e;
      assert !SrcConflict(P, e, f);
    }
  }

  /** The race of 001 is one of the put with the store, and of nothing else: no get and no load takes part. */
  lemma {:induction false} OnlyPutAndStore(imm: bool, tr: seq<Label>, t: nat, k: nat)
    requires Ran(PUT_THEN_STORE, imm, tr) && RaceAt(PUT_THEN_STORE, After(PUT_THEN_STORE, imm, tr), t, k)
    ensures var s := After(PUT_THEN_STORE, imm, tr);
            && s.ops[k].kind == Put && FromCall(s.ops[k], Ev(0, 2))
            && t == 0 && NextCall(PUT_THEN_STORE, s.ctl, t) == Store(Buf(0), 42)
  {
    assert OnlySpins(PUT_THEN_STORE);
    PutOnlyWithStore(PUT_THEN_STORE, imm, tr, t, k);
  }

  lemma PutOnlyWithStore(P: Program, imm: bool, tr: seq<Label>, t: nat, k: nat)
    requires P == PUT_THEN_STORE && OnlySpins(P) && Ran(P, imm, tr) && RaceAt(P, After(P, imm, tr), t, k)
    ensures var s := After(P, imm, tr);
            s.ops[k].kind == Put && FromCall(s.ops[k], Ev(0, 2)) && t == 0 && s.ctl.pc[0] == 3
  {
    var s := After(P, imm, tr);
    RaceIsUnsafe(P, imm, tr, t, k);
    var e, f := Ev(s.ops[k].tid, s.ops[k].pos), Ev(t, s.ctl.pc[t]);
    PutIsOnly(e);
    if f != Ev(0, 3) {
      OthersApart(f);
    }
    Issuers(P, imm, tr);
    assert Issuer(P, s.ctl, s.ops[k]);
  }

  lemma FirstFence() returns (tr: seq<Label>, s: State)
    ensures LeadsTo(PUT_THEN_STORE, true, tr, s) && s.ctl.pc == [2, 2] && s.ctl.held == {}
  {
    var P := PUT_THEN_STORE;
    tr, s := Start(P, true);
    tr, s := Closes(P, tr, s, 0);
    tr, s := Closes(P, tr, s, 1);
    tr, s := Together(P, true, tr, s, RANKS);
  }

  lemma {:induction false} PutMeetsStore()
    ensures !RaceFree(PUT_THEN_STORE, true) && !RaceFree(PUT_THEN_STORE, false)
  {
    var P := PUT_THEN_STORE;
    var tr, s := FirstFence();
    tr, s := Solo(P, true, tr, s, 0, 3);
    Meets(P, tr, s, Ev(0, 2), Ev(0, 3), true);
  }
}
