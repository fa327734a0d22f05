/**
 What `shmem_fence` and `shmem_quiet` do not do: SHMEM/sync/012, 010 and 009.
 */
module ShmemQuiet {
  import opened Machine
  import opened Ordering
  import opened Separation
  import opened Values
  import opened Witness

  const PES: set<nat> := {0, 1}
  const REMOTE := Loc(1, 0)
  const LOCAL := Loc(0, 1)
  const LOCAL2 := Loc(0, 2)
  const LOCAL1 := Loc(1, 1)
  const QUIET: Instr := Close(Both, AllOwn)

  /** 012: a non-blocking get, a fence, a blocking put. The put is on a handle of its own, so that its
      return completes nothing but its own origin buffer. */
  function GetFencePut(v: int): Program {
    Program([Thread(0, [Rma(Get, 1, 0, REMOTE, LOCAL), Order, Rma(Put, 1, 1, LOCAL2, REMOTE),
                        Close(Origin, OwnQueue(1)), QUIET, Load(LOCAL)])], map[LOCAL2 := v, REMOTE := 0])
  }

  /** SHMEM/sync/012: the fence does not order the get. */
  lemma {:induction false} FenceIgnoresGets(v: int)
    ensures !RaceFree(GetFencePut(v), false)
  {
    var P := GetFencePut(v);
    assert OnlySpins(P);
    var tr, s := Start(P, true);
    tr, s := Solo(P, true, tr, s, 0, 1);
    tr, s := Solo(P, true, tr, s, 0, 2);
    Meets(P, tr, s, Ev(0, 0), Ev(0, 2), true);
  }

  lemma BothIssued(v: int) returns (tr: seq<Label>, s: State)
    ensures LeadsTo(GetFencePut(v), false, tr, s) && s.ctl.pc == [3] && |s.ops| == 2 && s.mem == GetFencePut(v).mem
    ensures s.ops[0].phase == Issued && s.ops[0].kind == Get && s.ops[0].src == REMOTE && s.ops[0].dst == LOCAL && s.ops[0].queue == 0 && s.ops[0].owner == 0
    ensures s.ops[1].phase == Issued && s.ops[1].kind == Put && s.ops[1].src == LOCAL2 && s.ops[1].dst == REMOTE && s.ops[1].queue == 1 && s.ops[1].owner == 0
  {
    var P := GetFencePut(v);
    tr, s := [], Init(P);
    assert Exec(P, false, tr) == Some(s);
    Extend(P, false, tr, s, Go(0));
    tr, s := tr + [Go(0)], Next(P, false, s, Go(0)).value;
    assert s.ctl.pc == [1];
    Extend(P, false, tr, s, Go(0));
    tr, s := tr + [Go(0)], Next(P, false, s, Go(0)).value;
    assert s.ctl.pc == [2];
    Extend(P, false, tr, s, Go(0));
    tr, s := tr + [Go(0)], Next(P, false, s, Go(0)).value;
  }

  /** The get issued before the fence can even return what the put after it wrote. */
  lemma {:induction false} GetReadsLaterPut(v: int) returns (tr: seq<Label>)
    ensures Exec(GetFencePut(v), false, tr).Some? && At(Exec(GetFencePut(v), false, tr).value.mem, LOCAL) == v
  {
    var P := GetFencePut(v);
    var s;
    tr, s := BothIssued(v);
    Extend(P, false, tr, s, Fetch(1));
    tr, s := tr + [Fetch(1)], FetchOp(s, 1);
    assert !Ordered(s.ops[0], s.ops[1]);
    Extend(P, false, tr, s, Land(1));
    tr, s := tr + [Land(1)], LandOp(s, 1);
    Extend(P, false, tr, s, Fetch(0));
    tr, s := tr + [Fetch(0)], FetchOp(s, 0);
    Extend(P, false, tr, s, Land(0));
    tr, s := tr + [Land(0)], LandOp(s, 0);
    assert Look(tr);
  }

  /** 009 and 010: a put, quiet on both PEs, and (009) sync, then the other PE's get. */
  function QuietSync(sync: bool, v: int): Program {
    var meet := if sync then [Barrier(PES)] else [];
    Program([
      Thread(0, [Store(LOCAL, v), Rma(Put, 1, 0, LOCAL, REMOTE), Close(Origin, OwnQueue(0)), QUIET] + meet),
      Thread(1, [QUIET] + meet + [Rma(Get, 1, 0, REMOTE, LOCAL1), Close(Both, OwnQueue(0)), Load(LOCAL1)])
    ], map[REMOTE := 0])
  }

  const PUT := Ev(0, 1)
  const DRAINED := Ev(0, 3)
  const GET := Ev(1, 2)
  const LOAD := Ev(1, 4)

  lemma Calls(v: int, e: Ev)
    requires IsCall(QuietSync(true, v), e)
    ensures var i := CallAt(QuietSync(true, v), e);
            && !i.Branch? && (i.Rma? ==> e == PUT || e == GET) && (i.Load? ==> e == LOAD)
            && (Writes(i, LOCAL) ==> e == Ev(0, 0)) && (Writes(i, REMOTE) ==> e == PUT) && (Writes(i, LOCAL1) ==> e == GET)
  {
    var p := e.pos;
    assert p == 0 || p == 1 || p == 2 || p == 3 || p == 4;
  }

  lemma Orders(v: int)
    ensures var P := QuietSync(true, v);
            OnlySpins(P) && Before(P, DRAINED, GET) && Before(P, PUT, DRAINED) && Before(P, PUT, GET) && Completes(P, DRAINED, PUT, true)
            && Completes(P, Ev(1, 3), GET, true)
  {
    var P := QuietSync(true, v);
    var c0, c1 := P.threads[0].code, P.threads[1].code;
    CountNone(c0, Barrier(PES), 0, 3);
    CountSome(c1, Barrier(PES), 1, 2);
    BarrierBefore(P, DRAINED, GET, PES);
    BeforeTrans(P, PUT, DRAINED, GET);
  }

  lemma QuietSyncApart(v: int)
    ensures WellSynchronised(QuietSync(true, v))
  {
    var P := QuietSync(true, v);
    Orders(v);
    assert CompletedBetween(P, PUT, GET, true);
    forall e, f | IsCall(P, e) && IsCall(P, f) && CallAt(P, e).Rma?
      ensures PairSafe(P, e, f)
    {
      Calls(v, e);
      Calls(v, f);
      if e == GET && f == LOAD {
        assert CompletedBetween(P, GET, LOAD, true);
      }
    }
  }

  /** MAIN RESULT. SHMEM/sync/009: quiet completes and sync orders, so the get returns the value put. */
  lemma {:induction false} QuietThenSync(v: int)
    ensures RaceFree(QuietSync(true, v), false) && AlwaysLoads(QuietSync(true, v), false, LOAD, {v})
  {
    var P := QuietSync(true, v);
    QuietSyncApart(v);
    OrderedIsRaceFree(P);
    Orders(v);
    forall e | IsCall(P, e)
      ensures var i := CallAt(P, e); (Writes(i, LOCAL) ==> e == Ev(0, 0)) && (Writes(i, REMOTE) ==> e == PUT) && (Writes(i, LOCAL1) ==> e == GET)
    {
      Calls(v, e);
    }
    StoreYields(P, Ev(0, 0), LOCAL, v);
    CopyYields(P, Ev(0, 0), PUT, v);
    CopyYields(P, PUT, GET, v);
    LoadSeesLastWrite(P, GET, LOAD, LOCAL1, v);
  }

  /** SHMEM/sync/010: quiet alone does not order the other PE's get. */
  lemma {:induction false} QuietAlone(v: int)
    ensures !RaceFree(QuietSync(false, v), false)
  {
    var P := QuietSync(false, v);
    assert OnlySpins(P) && P.threads[1].code[1] == Rma(Get, 1, 0, REMOTE, LOCAL1);
    assert P.threads[0].code[0] == Store(LOCAL, v) && P.threads[0].code[1] == Rma(Put, 1, 0, LOCAL, REMOTE);
    var tr, s := QuietDone(v);
    tr, s := Solo(P, true, tr, s, 0, 2);
    Meets(P, tr, s, Ev(0, 1), Ev(1, 1), true);
  }

  lemma QuietDone(v: int) returns (tr: seq<Label>, s: State)
    ensures LeadsTo(QuietSync(false, v), true, tr, s) && s.ctl.pc == [0, 1] && s.ctl.held == {}
  {
    var P := QuietSync(false, v);
    assert P.threads[1].code[0] == QUIET;
    tr, s := Start(P, true);
    tr, s := Closes(P, tr, s, 1);
  }
}
