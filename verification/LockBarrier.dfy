/**
 MPIRMA/sync/022 and 020: consistency (unlock) and order (barrier) are both needed before the load.
 */
module LockBarrier {
  import opened Machine
  import opened Ordering
  import opened Separation
  import opened Values
  import opened Witness

  const ALL: set<nat> := {0, 1}
  const VALUE := Loc(0, 1)   // the origin buffer of rank 0
  const WIN := Loc(1, 0)     // win_base[0] of rank 1
  const LOCK := 1            // the window lock at rank 1

  /** 022: put, unlock, barrier; the target loads after the barrier. `v` is the value put. */
  function Consistent(v: int): Program {
    Program([
      Thread(0, [Barrier(ALL), Store(VALUE, v), Acquire(LOCK, false), Rma(Put, 1, 0, VALUE, WIN),
                 Close(Both, OwnTo(1, 0)), Release(LOCK), Barrier(ALL), Barrier(ALL)]),
      Thread(1, [Store(WIN, 0), Barrier(ALL), Barrier(ALL), Load(WIN), Barrier(ALL)])
    ], map[])
  }

  const INIT := Ev(1, 0)
  const SET := Ev(0, 1)
  const PUT := Ev(0, 3)
  const UNLOCK := Ev(0, 4)
  const LOAD := Ev(1, 3)

  lemma Calls(v: int, e: Ev)
    requires IsCall(Consistent(v), e)
    ensures var i := CallAt(Consistent(v), e);
            && (i.Rma? <==> e == PUT)
            && (Writes(i, WIN) ==> e == INIT || e == PUT)
            && (Writes(i, VALUE) <==> e == SET)
            && (i.Load? <==> e == LOAD) && !i.Branch?
  {
    if e.tid == 0 {
      var p := e.pos;
      assert p == 0 || p == 1 || p == 2 || p == 3 || p == 4 || p == 5 || p == 6 || p == 7;
    } else {
      var p := e.pos;
      assert e.tid == 1 && (p == 0 || p == 1 || p == 2 || p == 3 || p == 4);
    }
  }

  lemma Orders(v: int)
    ensures OnlySpins(Consistent(v)) && Before(Consistent(v), INIT, PUT) && Before(Consistent(v), UNLOCK, LOAD)
    ensures Before(Consistent(v), SET, PUT) && Before(Consistent(v), PUT, UNLOCK) && Completes(Consistent(v), UNLOCK, PUT, true)
  {
    var P := Consistent(v);
    forall t, j | 0 <= t < |P.threads| && 0 <= j < |P.threads[t].code|
      ensures !P.threads[t].code[j].Branch?
    {
      Calls(v, Ev(t, j));
    }
    var c0, c1 := P.threads[0].code, P.threads[1].code;
    CountEach(c0, Barrier(ALL), 4);
    CountEach(c1, Barrier(ALL), 3);
    BarrierBefore(P, INIT, PUT, ALL);
    BarrierBefore(P, UNLOCK, LOAD, ALL);
  }

  lemma Synchronised(v: int)
    ensures WellSynchronised(Consistent(v))
  {
    var P := Consistent(v);
    Orders(v);
    forall e, f | IsCall(P, e) && IsCall(P, f) && CallAt(P, e).Rma?
      ensures PairSafe(P, e, f)
    {
      Calls(v, e);
      Calls(v, f);
      BeforeTrans(P, PUT, UNLOCK, LOAD);
      assert CompletedBetween(P, PUT, LOAD, true);
    }
  }

  /** MPIRMA/sync/022 is race free and its load returns the value put, in every delayed run. */
  lemma {:induction false} UnlockThenBarrierOrders(v: int)
    ensures WellSynchronised(Consistent(v)) && RaceFree(Consistent(v), false)
    ensures AlwaysLoads(Consistent(v), false, Ev(1, 3), {v})
  {
    var P := Consistent(v);
    Synchronised(v);
    Orders(v);
    OrderedIsRaceFree(P);
    forall e | IsCall(P, e)
      ensures Writes(CallAt(P, e), VALUE) ==> e == SET
      ensures Writes(CallAt(P, e), WIN) ==> e == INIT || e == PUT
    {
      Calls(v, e);
    }
    StoreYields(P, SET, VALUE, v);
    CopyYields(P, SET, PUT, v);
    BeforeTrans(P, PUT, UNLOCK, LOAD);
    LoadSeesLastWrite(P, PUT, LOAD, WIN, v);
  }

  /** 020: the same, but the unlock comes after the barrier. */
  function Inconsistent(v: int): Program {
    Program([
      Thread(0, [Barrier(ALL), Store(VALUE, v), Acquire(LOCK, false), Rma(Put, 1, 0, VALUE, WIN),
                 Barrier(ALL), Close(Both, OwnTo(1, 0)), Release(LOCK), Barrier(ALL), Barrier(ALL)]),
      Thread(1, [Store(WIN, 0), Barrier(ALL), Barrier(ALL), Load(WIN), Barrier(ALL), Barrier(ALL)])
    ], map[])
  }

  lemma Initialised(v: int, imm: bool) returns (tr: seq<Label>, s: State)
    ensures LeadsTo(Inconsistent(v), imm, tr, s) && s.ctl.pc == [1, 2] && s.ctl.held == {} && At(s.mem, WIN) == 0
  {
    var P := Inconsistent(v);
    assert P.threads[0].code[0] == Barrier(ALL) && P.threads[1].code[0] == Store(WIN, 0) && P.threads[1].code[1] == Barrier(ALL);
    tr, s := Start(P, imm);
    tr, s := Solo(P, imm, tr, s, 1, 1);
    assert s.ctl.pc == [0, 1];
    tr, s := Together(P, imm, tr, s, ALL);
  }

  lemma PutIssued(v: int, imm: bool) returns (tr: seq<Label>, s: State)
    ensures LeadsTo(Inconsistent(v), imm, tr, s) && s.ctl.pc == [5, 3] && IsOpen(Inconsistent(v), s, Ev(0, 3), true)
    ensures !imm ==> At(s.mem, WIN) == 0
  {
    var P := Inconsistent(v);
    tr, s := Initialised(v, imm);
    tr, s := Solo(P, imm, tr, s, 0, 4);
    tr, s := Together(P, imm, tr, s, ALL);
  }

  /** MPIRMA/sync/020 reaches its race: the load meets the put that the barrier did not complete. Its
      load can even return the old value, which no run without delays does. */
  lemma {:induction false} LateUnlockRaces(v: int)
    ensures !RaceFree(Inconsistent(v), false)
    ensures exists tr :: Exec(Inconsistent(v), false, tr).Some? && Obs(1, 3, 0) in Exec(Inconsistent(v), false, tr).value.obs
  {
    var P := Inconsistent(v);
    var tr, s := PutIssued(v, true);
    assert OnlySpins(P);
    Meets(P, tr, s, Ev(0, 3), Ev(1, 3), true);
    var dt, d := PutIssued(v, false);
    dt := Loads(P, false, dt, d, 1);
  }
}
