/**
 A notified write and the wait for its notification: GASPI/sync/009 and 010.
 */
module NotifiedWrite {
  import opened Machine
  import opened Ordering
  import opened Separation
  import opened Values
  import opened Witness

  const RANKS: set<nat> := {0, 1}
  const LOCAL := Loc(0, 1)
  const REMOTE := Loc(1, 0)
  const SLOT := Loc(1, 2)

  /** Rank 0 writes and notifies, then waits for its queue; rank 1 loads, after the notification if `waits`
      (009) or without it (010). `u` is what rank 0's segment holds. */
  function Notified(waits: bool, u: int): Program {
    Program([
      Thread(0, [Barrier(RANKS), Rma(Put, 1, 0, LOCAL, REMOTE), Notify(1, 0, SLOT, 1), Close(Origin, OwnQueue(0))]),
      Thread(1, [Barrier(RANKS)] + (if waits then [Await(SLOT, 1)] else []) + [Load(REMOTE)])
    ], map[LOCAL := u])
  }

  const WRITE := Ev(0, 1)
  const SENT := Ev(0, 2)
  const GOT := Ev(1, 1)

  function LoadAt(waits: bool): Ev {
    Ev(1, if waits then 2 else 1)
  }

  lemma Calls(waits: bool, u: int, e: Ev)
    requires IsCall(Notified(waits, u), e)
    ensures var i := CallAt(Notified(waits, u), e);
            && !i.Branch? && (i.Rma? ==> e == WRITE) && (i.Notify? ==> e == SENT) && (i.Load? ==> e == LoadAt(waits))
            && !i.Store? && !i.Add? && (Writes(i, REMOTE) ==> e == WRITE) && !Writes(i, LOCAL)
  {
    var p := e.pos;
    assert p == 0 || p == 1 || p == 2 || p == 3;
  }

  lemma Branchless(waits: bool, u: int)
    ensures OnlySpins(Notified(waits, u))
  {
    var P := Notified(waits, u);
    forall t, j | 0 <= t < |P.threads| && 0 <= j < |P.threads[t].code|
      ensures !P.threads[t].code[j].Branch?
    {
      Calls(waits, u, Ev(t, j));
    }
  }

  lemma CarriedHome(u: int)
    ensures var P := Notified(true, u);
            && OnlySpins(P) && Carries(P, WRITE, GOT) && Before(P, GOT, LoadAt(true)) && Before(P, WRITE, LoadAt(true))
  {
    var P := Notified(true, u);
    Branchless(true, u);
    forall n | Notifier(P, n, GOT)
      ensures n == SENT
    {
      Calls(true, u, n);
    }
    NotifyBefore(P, SENT, GOT, LoadAt(true));
    assert Before(P, WRITE, SENT);
    BeforeTrans(P, WRITE, SENT, LoadAt(true));
  }

  lemma WaitedForApart(u: int)
    ensures WellSynchronised(Notified(true, u))
  {
    var P := Notified(true, u);
    CarriedHome(u);
    assert NotifiedBetween(P, WRITE, LoadAt(true));
    forall e, f | IsCall(P, e) && IsCall(P, f) && CallAt(P, e).Rma?
      ensures PairSafe(P, e, f)
    {
      Calls(true, u, e);
      Calls(true, u, f);
    }
  }

  /** GASPI/sync/009: the load returns what was written. */
  lemma {:induction false} NotificationCarriesWrite(u: int)
    ensures RaceFree(Notified(true, u), false) && AlwaysLoads(Notified(true, u), false, LoadAt(true), {u})
  {
    var P := Notified(true, u);
    WaitedForApart(u);
    OrderedIsRaceFree(P);
    CarriedHome(u);
    forall e | IsCall(P, e)
      ensures (Writes(CallAt(P, e), REMOTE) ==> e == WRITE) && !Writes(CallAt(P, e), LOCAL)
    {
      Calls(true, u, e);
    }
    FirstValueYields(P, WRITE);
    LoadSeesLastWrite(P, WRITE, LoadAt(true), REMOTE, u);
  }

  /** GASPI/sync/010: without the wait the load meets the write. */
  lemma UnawaitedRaces(u: int)
    ensures !RaceFree(Notified(false, u), false)
  {
    var P := Notified(false, u);
    var tr, s := Start(P, true);
    assert P.threads[0].code[0] == Barrier(RANKS) && P.threads[1].code[0] == Barrier(RANKS);
    tr, s := Together(P, true, tr, s, RANKS);
    assert s.ctl.pc == [1, 1];
    tr, s := Solo(P, true, tr, s, 0, 2);
    MeetsLoad(P, tr, s, WRITE, LoadAt(false), true);
  }

  /** MAIN RESULT. The load is safe exactly when the notification is waited for: `gaspi_wait` of the writer
      has no part in it. */
  lemma {:induction false} NotificationExactly(waits: bool, u: int)
    ensures RaceFree(Notified(waits, u), false) <==> waits
  {
    if waits {
      NotificationCarriesWrite(u);
    } else {
      UnawaitedRaces(u);
    }
  }
}
