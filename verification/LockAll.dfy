/**
 `flush_all` and the barrier inside one lock_all epoch: MPIRMA/sync/013, 014 and 017.

 Rank 0 puts, perhaps flushes and perhaps meets rank 1 in a barrier; rank 1 loads the cell. Only with
 both the flush and the barrier is the program race free.
 */
module LockAll {
  import opened Machine
  import opened Ordering
  import opened Separation
  import opened Values
  import opened Witness

  const RANKS: set<nat> := {0, 1}
  const LOCK := 1
  const VALUE := Loc(0, 1)
  const WIN := Loc(1, 0)
  const DRAIN := Close(Both, AllOwn) // flush_all and unlock_all complete both sides

  /** 013: flush and barrier. 014: flush only. 017: neither. */
  function Epoch(flush: bool, barrier: bool, v: int): Program {
    Program([
      Thread(0, [Acquire(LOCK, false), Barrier(RANKS), Store(VALUE, v), Rma(Put, 1, 0, VALUE, WIN)]
                + When(flush, DRAIN) + When(barrier, Barrier(RANKS)) + [DRAIN, Release(LOCK), Barrier(RANKS)]),
      Thread(1, [Acquire(LOCK, false), Barrier(RANKS)] + When(barrier, Barrier(RANKS)) + [Load(WIN), DRAIN, Release(LOCK), Barrier(RANKS)])
    ], map[WIN := 0])
  }

  const SET := Ev(0, 2)
  const PUT := Ev(0, 3)
  const FLUSH := Ev(0, 4)

  function LoadAt(barrier: bool): Ev {
    Ev(1, if barrier then 3 else 2)
  }

  // ----- flush and barrier

  lemma Calls(v: int, e: Ev)
    requires IsCall(Epoch(true, true, v), e)
    ensures var i := CallAt(Epoch(true, true, v), e);
            && !i.Branch? && (i.Rma? ==> e == PUT) && (i.Load? ==> e == Ev(1, 3)) && !i.Add?
            && (i.Store? ==> e == SET) && (Writes(i, VALUE) ==> e == SET) && (Writes(i, WIN) ==> e == PUT)
  {
    var p := e.pos;
    assert p == 0 || p == 1 || p == 2 || p == 3 || p == 4 || p == 5 || p == 6 || p == 7 || p == 8;
  }

  lemma Orders(v: int)
    ensures var P := Epoch(true, true, v);
            && OnlySpins(P) && Before(P, SET, PUT) && Before(P, PUT, FLUSH) && Before(P, FLUSH, Ev(1, 3)) && Completes(P, FLUSH, PUT, true)
  {
    var P := Epoch(true, true, v);
    forall t, j | 0 <= t < |P.threads| && 0 <= j < |P.threads[t].code|
      ensures !P.threads[t].code[j].Branch?
    {
      Calls(v, Ev(t, j));
    }
    var c0, c1 := P.threads[0].code, P.threads[1].code;
    assert c1[0] == Acquire(LOCK, false) && c1[1] == c1[2] == Barrier(RANKS);
    CountEach(c0, Barrier(RANKS), 4);
    CountEach(c1, Barrier(RANKS), 3);
    BarrierBefore(P, FLUSH, Ev(1, 3), RANKS);
  }

  lemma EpochApart(v: int)
    ensures WellSynchronised(Epoch(true, true, v))
  {
    var P := Epoch(true, true, v);
    Orders(v);
    assert CompletedBetween(P, PUT, Ev(1, 3), true);
    forall e, f | IsCall(P, e) && IsCall(P, f) && CallAt(P, e).Rma?
      ensures PairSafe(P, e, f)
    {
      Calls(v, e);
      Calls(v, f);
    }
  }

  /** MPIRMA/sync/013: the load returns the value put. */
  lemma {:induction false} FlushedPutIsSeen(v: int)
    ensures RaceFree(Epoch(true, true, v), false) && AlwaysLoads(Epoch(true, true, v), false, Ev(1, 3), {v})
  {
    var P := Epoch(true, true, v);
    EpochApart(v);
    OrderedIsRaceFree(P);
    Orders(v);
    forall e | IsCall(P, e)
      ensures var i := CallAt(P, e); (Writes(i, VALUE) ==> e == SET) && (Writes(i, WIN) ==> e == PUT)
    {
      Calls(v, e);
    }
    StoreYields(P, SET, VALUE, v);
    CopyYields(P, SET, PUT, v);
    BeforeTrans(P, PUT, FLUSH, Ev(1, 3));
    LoadSeesLastWrite(P, PUT, Ev(1, 3), WIN, v);
  }

  // ----- one of them missing

  lemma Known(flush: bool, barrier: bool, v: int)
    ensures var P := Epoch(flush, barrier, v); var c0, c1 := P.threads[0].code, P.threads[1].code;
            && c0[0] == c1[0] == Acquire(LOCK, false) && c0[1] == c1[1] == Barrier(RANKS) && c0[2] == Store(VALUE, v)
            && c0[3] == Rma(Put, 1, 0, VALUE, WIN) && CallAt(P, LoadAt(barrier)) == Load(WIN)
            && (!flush && barrier ==> c0[4] == c1[2] == Barrier(RANKS))
  {
  }

  lemma BothLocked(flush: bool, barrier: bool, v: int) returns (tr: seq<Label>, s: State)
    ensures LeadsTo(Epoch(flush, barrier, v), true, tr, s) && s.ctl.pc == [1, 1]
  {
    var P := Epoch(flush, barrier, v);
    Known(flush, barrier, v);
    tr, s := Start(P, true);
    Extend(P, true, tr, s, Go(0));
    tr, s := tr + [Go(0)], Next(P, true, s, Go(0)).value;
    assert s.ctl.held == {Hold(0, LOCK, false)} && s.ctl.pc == [1, 0];
    Extend(P, true, tr, s, Go(1));
    tr, s := tr + [Go(1)], Next(P, true, s, Go(1)).value;
  }

  lemma PutIssued(flush: bool, barrier: bool, v: int) returns (tr: seq<Label>, s: State)
    ensures LeadsTo(Epoch(flush, barrier, v), true, tr, s) && s.ctl.pc == [4, 2] && IsOpen(Epoch(flush, barrier, v), s, PUT, true)
  {
    var P := Epoch(flush, barrier, v);
    Known(flush, barrier, v);
    tr, s := BothLocked(flush, barrier, v);
    tr, s := Together(P, true, tr, s, RANKS);
    assert s.ctl.pc == [2, 2];
    Extend(P, true, tr, s, Go(0));
    tr, s := tr + [Go(0)], Next(P, true, s, Go(0)).value;
    assert s.ctl.pc == [3, 2];
    Extend(P, true, tr, s, Go(0));
    NowOpen(P, true, s, 0);
    tr, s := tr + [Go(0)], Next(P, true, s, Go(0)).value;
  }

  lemma OneMissing(flush: bool, barrier: bool, v: int)
    requires !flush || !barrier
    ensures !RaceFree(Epoch(flush, barrier, v), false)
  {
    var P := Epoch(flush, barrier, v);
    Known(flush, barrier, v);
    var tr, s := PutIssued(flush, barrier, v);
    if barrier {
      tr, s := Together(P, true, tr, s, RANKS);
    }
    MeetsLoad(P, tr, s, PUT, LoadAt(barrier), true);
  }

  /** MAIN RESULT. The load is safe exactly when the put is flushed before a common barrier. */
  lemma {:induction false} FlushAndBarrierExactly(flush: bool, barrier: bool, v: int)
    ensures RaceFree(Epoch(flush, barrier, v), false) <==> flush && barrier
  {
    if flush && barrier {
      FlushedPutIsSeen(v);
    } else {
      OneMissing(flush, barrier, v);
    }
  }
}
