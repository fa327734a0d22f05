/**
 MPIRMA/sync/019 and 018: a put and a get of two origins, in different fence epochs or in one.
 */
module FencePrograms {
  import opened Machine
  import opened Ordering
  import opened Separation
  import opened Values
  import opened Fences

  const ALL: set<nat> := Upto(3)
  const MEET: Instr := Barrier(ALL)
  const PUTBUF := Loc(0, 1)
  const GETBUF := Loc(2, 1)
  const WIN := Loc(1, 0)

  const INIT := Ev(1, 0)
  const SET := Ev(0, 2)
  const PUT := Ev(0, 3)
  const GET := Ev(2, 5)
  const LOAD := Ev(2, 8)

  function Putter(v: int): seq<Instr> {
    [DRAIN, MEET, Store(PUTBUF, v), Rma(Put, 1, 0, PUTBUF, WIN), DRAIN, MEET, DRAIN, MEET]
  }

  function Target(): seq<Instr> {
    [Store(WIN, 0), DRAIN, MEET, DRAIN, MEET, DRAIN, MEET]
  }

  function Getter(): seq<Instr> {
    [DRAIN, MEET, DRAIN, MEET, Store(GETBUF, 2), Rma(Get, 1, 0, WIN, GETBUF), DRAIN, MEET, Load(GETBUF)]
  }

  /** 019: fence, put, fence, get, fence; the origin of the get prints what it got. `v` is the value put. */
  function Separate(v: int): Program {
    Program([Thread(0, Putter(v)), Thread(1, Target()), Thread(2, Getter())], map[])
  }

  lemma PutterCounts(v: int)
    ensures FenceCode(Putter(v), MEET) && Count(Putter(v), MEET, 8) == 3 && Count(Putter(v), MEET, 3) == 1
  {
    CountEach(Putter(v), MEET, 8);
  }

  lemma TargetCounts()
    ensures FenceCode(Target(), MEET) && Count(Target(), MEET, 7) == 3 && Count(Target(), MEET, 0) == 0
  {
    CountEach(Target(), MEET, 7);
  }

  lemma GetterIsFenced()
    ensures FenceCode(Getter(), MEET)
  {
  }

  lemma GetterCounts()
    ensures Count(Getter(), MEET, 9) == 3 && Count(Getter(), MEET, 5) == 2 && Count(Getter(), MEET, 8) == 3
  {
    CountEach(Getter(), MEET, 9);
  }

  lemma Calls(v: int, e: Ev)
    requires IsCall(Separate(v), e)
    ensures var i := CallAt(Separate(v), e);
            && (i.Rma? ==> e == PUT || e == GET) && (i.Load? ==> e == LOAD)
            && (Writes(i, WIN) ==> e == INIT || e == PUT) && (Writes(i, PUTBUF) ==> e == SET)
            && (Writes(i, GETBUF) ==> e == Ev(2, 4) || e == GET)
  {
    var p := e.pos;
    assert p == 0 || p == 1 || p == 2 || p == 3 || p == 4 || p == 5 || p == 6 || p == 7 || p == 8;
  }

  lemma SeparateCode(v: int, t: nat)
    requires t < 3
    ensures var code := Separate(v).threads[t].code; FenceCode(code, MEET) && Count(code, MEET, |code|) == 3
  {
    PutterCounts(v);
    TargetCounts();
    GetterIsFenced();
    GetterCounts();
    assert t == 0 || t == 1 || t == 2;
  }

  lemma IsFenced(v: int)
    ensures FenceProgram(Separate(v), 3)
  {
    var P := Separate(v);
    assert Meeting(P) == MEET;
    forall t | 0 <= t < 3
      ensures FenceCode(P.threads[t].code, MEET) && Count(P.threads[t].code, MEET, |P.threads[t].code|) == 3
    {
      SeparateCode(v, t);
    }
  }

  lemma Epochs(v: int)
    ensures var P := Separate(v);
      FenceProgram(P, 3) && Meeting(P) == MEET && Epoch(P, INIT) == 0 && Epoch(P, PUT) == 1 && Epoch(P, GET) == 2 && Epoch(P, LOAD) == 3
  {
    IsFenced(v);
    PutterCounts(v);
    TargetCounts();
    GetterCounts();
  }

  lemma SeparateApart(v: int)
    ensures WellSynchronised(Separate(v))
  {
    var P := Separate(v);
    Epochs(v);
    forall e, f | IsCall(P, e) && IsCall(P, f) && CallAt(P, e).Rma? && (DstConflict(P, e, f) || SrcConflict(P, e, f))
      ensures Epoch(P, e) != Epoch(P, f) || (e.tid == f.tid && f.pos <= e.pos)
    {
      Calls(v, e);
      Calls(v, f);
    }
    EpochsAreSafe(P, 3);
  }

  lemma InitBeforePut(v: int)
    ensures Before(Separate(v), INIT, PUT)
  {
    Epochs(v);
    BarrierBefore(Separate(v), INIT, PUT, ALL);
  }

  lemma SeparateWriters(v: int)
    ensures var P := Separate(v);
      LastWriter(P, SET, PUTBUF) && LastWriter(P, PUT, WIN) && LastWriter(P, GET, GETBUF)
  {
    var P := Separate(v);
    InitBeforePut(v);
    forall e | IsCall(P, e)
      ensures Writes(CallAt(P, e), WIN) ==> e == INIT || e == PUT
      ensures Writes(CallAt(P, e), PUTBUF) ==> e == SET
      ensures Writes(CallAt(P, e), GETBUF) ==> e == Ev(2, 4) || e == GET
    {
      Calls(v, e);
    }
  }

  /** MPIRMA/sync/019 is race free, and the get returns exactly what the put wrote, for every value put
      and however long either is delayed. */
  lemma {:induction false} SeparateEpochs(v: int)
    ensures RaceFree(Separate(v), false) && AlwaysLoads(Separate(v), false, LOAD, {v})
  {
    var P := Separate(v);
    SeparateApart(v);
    SeparateWriters(v);
    Epochs(v);
    OrderedIsRaceFree(P);
    StoreYields(P, SET, PUTBUF, v);
    CopyYields(P, SET, PUT, v);
    EpochOrders(P, 3, PUT, GET);
    CopyYields(P, PUT, GET, v);
    EpochOrders(P, 3, GET, LOAD);
    LoadSeesLastWrite(P, GET, LOAD, GETBUF, v);
  }

  function OneEpoch(buf: Loc, set0: int, op: Instr): seq<Instr> {
    [DRAIN, MEET, Store(buf, set0), op, DRAIN, MEET]
  }

  lemma OneEpochCounts(buf: Loc, set0: int, op: Instr)
    requires op.Rma?
    ensures FenceCode(OneEpoch(buf, set0, op), MEET) && Count(OneEpoch(buf, set0, op), MEET, 3) == 1 && Count(OneEpoch(buf, set0, op), MEET, 6) == 2
  {
    var c := OneEpoch(buf, set0, op);
    CountEach(c, MEET, 6);
  }

  function Bystander(): seq<Instr> {
    [Store(WIN, 0), DRAIN, MEET, DRAIN, MEET]
  }

  lemma BystanderCounts()
    ensures FenceCode(Bystander(), MEET) && Count(Bystander(), MEET, 5) == 2
  {
    CountEach(Bystander(), MEET, 5);
  }

  /** 018: put and get without a fence between them. */
  function Shared(): Program {
    Program([
      Thread(0, OneEpoch(PUTBUF, 0, Rma(Put, 1, 0, PUTBUF, WIN))),
      Thread(1, Bystander()),
      Thread(2, OneEpoch(GETBUF, 2, Rma(Get, 1, 0, WIN, GETBUF)))
    ], map[])
  }

  lemma SharedCode(t: nat)
    requires t < 3
    ensures var code := Shared().threads[t].code; FenceCode(code, MEET) && Count(code, MEET, |code|) == 2
  {
    OneEpochCounts(PUTBUF, 0, Rma(Put, 1, 0, PUTBUF, WIN));
    OneEpochCounts(GETBUF, 2, Rma(Get, 1, 0, WIN, GETBUF));
    BystanderCounts();
    assert t == 0 || t == 1 || t == 2;
  }

  lemma SharedIsFenceProgram()
    ensures FenceProgram(Shared(), 2) && OnlySpins(Shared())
  {
    var P := Shared();
    assert Meeting(P) == MEET;
    forall t | 0 <= t < 3
      ensures FenceCode(P.threads[t].code, MEET) && Count(P.threads[t].code, MEET, |P.threads[t].code|) == 2
    {
      SharedCode(t);
    }
  }

  lemma SharedEpochs()
    ensures Epoch(Shared(), Ev(0, 3)) == 1 && Epoch(Shared(), Ev(2, 3)) == 1
  {
    OneEpochCounts(PUTBUF, 0, Rma(Put, 1, 0, PUTBUF, WIN));
    OneEpochCounts(GETBUF, 2, Rma(Get, 1, 0, WIN, GETBUF));
    assert Meeting(Shared()) == MEET;
  }

  /** MPIRMA/sync/018 has its race, and writes 0 over 0: the race is in the accesses, not in the values. */
  lemma {:induction false} SharedEpochRaces()
    ensures !RaceFree(Shared(), false)
  {
    SharedIsFenceProgram();
    SharedEpochs();
    SameEpochRaces(Shared(), 2, Ev(0, 3), Ev(2, 3));
  }
}
