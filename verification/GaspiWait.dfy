/**
 `gaspi_wait` and the barrier: GASPI/sync/005 to 008.

 Rank 0 reads rank 1's segment into its own (005, 006, 007), or writes it (008); rank 1 then stores to
 that segment, or loads it. `gaspi_wait` completes a read altogether but a write only at its origin, so
 of the eight ways to combine read or write, wait and barrier exactly one is race free.
 */
module GaspiWait {
  import opened Machine
  import opened Ordering
  import opened Separation
  import opened Witness

  const RANKS: set<nat> := {0, 1}
  const LOCAL := Loc(0, 1)
  const REMOTE := Loc(1, 0)
  const WAIT := Close(Origin, OwnQueue(0))

  function Transfer(read: bool): Instr {
    if read then Rma(Get, 1, 0, REMOTE, LOCAL) else Rma(Put, 1, 0, LOCAL, REMOTE)
  }

  function Reuse(read: bool): Instr {
    if read then Store(REMOTE, 42) else Load(REMOTE)
  }

  /** 005: read, wait, barrier. 006: read, barrier. 007: read, wait. 008: write, wait, barrier. */
  function Transferring(read: bool, wait: bool, barrier: bool): Program {
    Program([
      Thread(0, [Barrier(RANKS), Transfer(read)] + When(wait, WAIT) + When(barrier, Barrier(RANKS)) + [WAIT, Barrier(RANKS)]),
      Thread(1, [Barrier(RANKS)] + When(barrier, Barrier(RANKS)) + [Reuse(read), WAIT, Barrier(RANKS)])
    ], map[])
  }

  const TRANSFER := Ev(0, 1)

  function ReuseAt(barrier: bool): Ev {
    Ev(1, if barrier then 2 else 1)
  }

  lemma Calls(e: Ev)
    requires IsCall(Transferring(true, true, true), e)
    ensures var i := CallAt(Transferring(true, true, true), e);
            !i.Branch? && (i.Rma? ==> e == TRANSFER) && !i.Load? && !i.Add? && (i.Store? ==> e == Ev(1, 2))
  {
    var p := e.pos;
    assert p == 0 || p == 1 || p == 2 || p == 3 || p == 4 || p == 5;
  }

  lemma Orders()
    ensures var P := Transferring(true, true, true);
            && OnlySpins(P) && Before(P, TRANSFER, Ev(0, 2)) && Before(P, Ev(0, 2), Ev(1, 2)) && Completes(P, Ev(0, 2), TRANSFER, true)
  {
    var P := Transferring(true, true, true);
    forall t, j | 0 <= t < |P.threads| && 0 <= j < |P.threads[t].code|
      ensures !P.threads[t].code[j].Branch?
    {
      Calls(Ev(t, j));
    }
    var c0, c1 := P.threads[0].code, P.threads[1].code;
    assert c0 == [Barrier(RANKS), Transfer(true), WAIT, Barrier(RANKS), WAIT, Barrier(RANKS)];
    assert c1[0] == Barrier(RANKS) && c1[1] == Barrier(RANKS);
    CountEach(c0, Barrier(RANKS), 2);
    CountEach(c1, Barrier(RANKS), 2);
    BarrierBefore(P, Ev(0, 2), Ev(1, 2), RANKS);
  }

  lemma ReadWaitBarrier()
    ensures RaceFree(Transferring(true, true, true), false)
  {
    var P := Transferring(true, true, true);
    Orders();
    assert CompletedBetween(P, TRANSFER, Ev(1, 2), true) && CompletedBetween(P, TRANSFER, Ev(1, 2), false);
    forall e, f | IsCall(P, e) && IsCall(P, f) && CallAt(P, e).Rma?
      ensures PairSafe(P, e, f)
    {
      Calls(e);
      Calls(f);
    }
    OrderedIsRaceFree(P);
  }

  lemma Known(read: bool, wait: bool, barrier: bool)
    ensures var P := Transferring(read, wait, barrier); var c0, c1 := P.threads[0].code, P.threads[1].code;
            && OnlySpins(P) && c0[0] == c1[0] == Barrier(RANKS) && c0[1] == Transfer(read) && CallAt(P, ReuseAt(barrier)) == Reuse(read)
            && (wait ==> c0[2] == WAIT) && (barrier ==> c0[if wait then 3 else 2] == c1[1] == Barrier(RANKS))
  {
    var P := Transferring(read, wait, barrier);
    var c0, c1 := P.threads[0].code, P.threads[1].code;
    forall t, j | 0 <= t < |P.threads| && 0 <= j < |P.threads[t].code|
      ensures !P.threads[t].code[j].Branch?
    {
    }
    assert c0 == [Barrier(RANKS), Transfer(read)] + When(wait, WAIT) + When(barrier, Barrier(RANKS)) + [WAIT, Barrier(RANKS)];
    assert wait ==> c0[2] == WAIT;
  }

  lemma InFlight(read: bool, wait: bool, barrier: bool) returns (tr: seq<Label>, s: State)
    ensures LeadsTo(Transferring(read, wait, barrier), true, tr, s) && s.ctl.pc == [2, 1] && s.ctl.held == {}
    ensures IsOpen(Transferring(read, wait, barrier), s, TRANSFER, true)
  {
    var P := Transferring(read, wait, barrier);
    Known(read, wait, barrier);
    tr, s := Start(P, true);
    tr, s := Together(P, true, tr, s, RANKS);
    assert s.ctl.pc == [1, 1];
    tr, s := Solo(P, true, tr, s, 0, 2);
  }

  /** The wait of rank 0 leaves its write open at the target. */
  lemma WaitedFor(read: bool) returns (tr: seq<Label>, s: State)
    requires !read
    ensures LeadsTo(Transferring(read, true, true), true, tr, s) && s.ctl.pc == [3, 1]
    ensures IsOpen(Transferring(read, true, true), s, TRANSFER, false)
  {
    var P := Transferring(read, true, true);
    Known(read, true, true);
    tr, s := InFlight(read, true, true);
    tr, s := ClosesOrigin(P, tr, s, 0, TRANSFER);
  }

  lemma {:induction false} WriteStaysOpen()
    ensures !RaceFree(Transferring(false, true, true), false)
  {
    var P := Transferring(false, true, true);
    Known(false, true, true);
    var tr, s := WaitedFor(false);
    tr, s := Together(P, true, tr, s, RANKS);
    Meets(P, tr, s, TRANSFER, ReuseAt(true), false);
  }

  lemma {:induction false} NotWaitedFor(read: bool, barrier: bool, wait: bool)
    requires !wait || !barrier
    ensures !RaceFree(Transferring(read, wait, barrier), false)
  {
    var P := Transferring(read, wait, barrier);
    Known(read, wait, barrier);
    var tr, s := InFlight(read, wait, barrier);
    if barrier {
      tr, s := Together(P, true, tr, s, RANKS);
    }
    Meets(P, tr, s, TRANSFER, ReuseAt(barrier), true);
  }

  /** MAIN RESULT. Of all these programs only the read that is waited for and followed by the barrier is
      race free. */
  lemma {:induction false} RaceFreeExactly(read: bool, wait: bool, barrier: bool)
    ensures RaceFree(Transferring(read, wait, barrier), false) <==> read && wait && barrier
  {
    if read && wait && barrier {
      ReadWaitBarrier();
    } else if wait && barrier {
      WriteStaysOpen();
    } else {
      NotWaitedFor(read, barrier, wait);
    }
  }
}
