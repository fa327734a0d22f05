/**
 Completing an origin buffer by causality only: GASPI/sync/004 and 003, SHMEM/sync/005 and 006.

 Rank 0 puts its buffer with a notification (or signal), waits for the reply of rank 1 and overwrites the
 buffer, with no completing call of its own in between.
 */
module PingPong {
  import opened Machine
  import opened Ordering
  import opened Separation
  import opened Values
  import opened Witness

  const BOTH_RANKS: set<nat> := {0, 1}
  const BUF := Loc(0, 1)
  const BUF1 := Loc(1, 1)
  const REMOTE := Loc(1, 0)
  const REMOTE0 := Loc(0, 0)
  const FLAG0 := Loc(0, 2)
  const FLAG1 := Loc(1, 2)

  /** `shmem_barrier_all` first completes the rank's own operations; `gaspi_barrier` does not. */
  function Meeting(shmem: bool): seq<Instr> {
    (if shmem then [Close(Both, AllOwn)] else []) + [Barrier(BOTH_RANKS)]
  }

  function Ping(shmem: bool, v: int, w: int): seq<Instr> {
    [Store(BUF, v), Rma(Put, 1, 0, BUF, REMOTE), Notify(1, 0, FLAG1, 1), Await(FLAG0, 1), Store(BUF, w)] + Meeting(shmem)
  }

  /** The reply: a bare notification in GASPI, a blocking put with signal in OpenSHMEM. */
  function Reply(shmem: bool): seq<Instr> {
    if shmem then [Rma(Put, 0, 0, BUF1, REMOTE0), Notify(0, 0, FLAG0, 1), Close(Origin, OwnQueue(0))]
    else [Notify(0, 0, FLAG0, 1)]
  }

  function Pong(shmem: bool, waits: bool): seq<Instr> {
    (if shmem then [Store(BUF1, 1337)] else []) + (if waits then [Await(FLAG1, 1)] else []) + Reply(shmem)
    + Meeting(shmem) + [Load(REMOTE)]
  }

  /** Rank 0 puts `v` and then overwrites its buffer with `w`. */
  function PingPongs(shmem: bool, waits: bool, v: int, w: int): Program {
    Program([Thread(0, Ping(shmem, v, w)), Thread(1, Pong(shmem, waits))], map[])
  }

  const PUT := Ev(0, 1)
  const SEND := Ev(0, 2)
  const WAIT := Ev(0, 3)
  const OVERWRITE := Ev(0, 4)

  function Got(shmem: bool): Ev { Ev(1, if shmem then 1 else 0) }
  function Answer(shmem: bool): Ev { Ev(1, if shmem then 3 else 1) }
  function Read(shmem: bool): Ev { Ev(1, if shmem then 7 else 3) }

  lemma Calls(shmem: bool, v: int, w: int, e: Ev)
    requires IsCall(PingPongs(shmem, true, v, w), e)
    ensures var i := CallAt(PingPongs(shmem, true, v, w), e);
            && !i.Branch? && (i.Rma? ==> e == PUT || (shmem && e == Ev(1, 2)))
            && (Writes(i, BUF) <==> e == Ev(0, 0) || e == OVERWRITE)
            && (Writes(i, BUF1) ==> e == Ev(1, 0)) && (Writes(i, REMOTE) ==> e == PUT) && (Writes(i, REMOTE0) ==> e == Ev(1, 2))
            && (i.Load? ==> e == Read(shmem) && i.x == REMOTE)
            && (i.Notify? && i.slot == FLAG1 ==> e == SEND) && (i.Notify? && i.slot == FLAG0 ==> e == Answer(shmem))
  {
    var p := e.pos;
    assert p == 0 || p == 1 || p == 2 || p == 3 || p == 4 || p == 5 || p == 6 || p == 7;
  }

  lemma Known(shmem: bool, v: int, w: int)
    ensures var P := PingPongs(shmem, true, v, w);
            && |P.threads| == 2 && CallAt(P, Ev(0, 0)) == Store(BUF, v) && CallAt(P, PUT) == Rma(Put, 1, 0, BUF, REMOTE)
            && CallAt(P, SEND) == Notify(1, 0, FLAG1, 1) && CallAt(P, WAIT) == Await(FLAG0, 1)
            && IsCall(P, Got(shmem)) && CallAt(P, Got(shmem)) == Await(FLAG1, 1)
            && IsCall(P, Answer(shmem)) && CallAt(P, Answer(shmem)) == Notify(0, 0, FLAG0, 1)
            && IsCall(P, Read(shmem)) && CallAt(P, Read(shmem)) == Load(REMOTE)
            && (shmem ==> CallAt(P, Ev(1, 2)) == Rma(Put, 0, 0, BUF1, REMOTE0))
  {
  }

  lemma Notifiers(shmem: bool, v: int, w: int)
    ensures var P := PingPongs(shmem, true, v, w);
            && OnlySpins(P) && Carries(P, PUT, Got(shmem))
            && (forall n :: Notifier(P, n, Got(shmem)) ==> n == SEND) && (forall n :: Notifier(P, n, WAIT) ==> n == Answer(shmem))
  {
    var P := PingPongs(shmem, true, v, w);
    Known(shmem, v, w);
    forall e | IsCall(P, e)
      ensures !CallAt(P, e).Branch?
      ensures CallAt(P, e).Notify? && CallAt(P, e).slot == FLAG1 ==> e == SEND
      ensures CallAt(P, e).Notify? && CallAt(P, e).slot == FLAG0 ==> e == Answer(shmem)
    {
      Calls(shmem, v, w, e);
    }
    forall t, j | 0 <= t < |P.threads| && 0 <= j < |P.threads[t].code|
      ensures !P.threads[t].code[j].Branch?
    {
      assert IsCall(P, Ev(t, j)) && CallAt(P, Ev(t, j)) == P.threads[t].code[j];
    }
  }

  lemma Chain(shmem: bool, v: int, w: int)
    ensures var P := PingPongs(shmem, true, v, w);
            && Before(P, SEND, Got(shmem).(pos := Got(shmem).pos + 1)) && Before(P, Got(shmem), Answer(shmem)) && Before(P, Answer(shmem), OVERWRITE)
            && Before(P, PUT, Read(shmem)) && Before(P, Got(shmem), Read(shmem))
  {
    var P := PingPongs(shmem, true, v, w);
    Notifiers(shmem, v, w);
    Known(shmem, v, w);
    NotifyBefore(P, Answer(shmem), WAIT, OVERWRITE);
    assert Before(P, Got(shmem), Answer(shmem));
    NotifyBefore(P, SEND, Got(shmem), Got(shmem).(pos := Got(shmem).pos + 1));
    NotifyBefore(P, SEND, Got(shmem), Read(shmem));
    assert Before(P, PUT, SEND);
    BeforeTrans(P, PUT, SEND, Read(shmem));
  }

  /** The chain of causes, in every run: when rank 0 comes to overwrite its buffer the reply has been sent,
      after the notification was received, and by then the put had read the buffer and written its target. */
  lemma {:induction false} Causality(shmem: bool, v: int, w: int, imm: bool, tr: seq<Label>, k: nat)
    requires var P := PingPongs(shmem, true, v, w); Ran(P, imm, tr) && Reached(After(P, imm, tr).ctl, OVERWRITE)
    ensures var P := PingPongs(shmem, true, v, w);
            var s := After(P, imm, tr);
            && Passed(s.ctl, SEND) && Passed(s.ctl, Got(shmem)) && Passed(s.ctl, Answer(shmem))
            && (k < |s.ops| && FromCall(s.ops[k], PUT) ==> s.ops[k].phase == Done && Closed(s.ops[k], true))
  {
    var P := PingPongs(shmem, true, v, w);
    Notifiers(shmem, v, w);
    Chain(shmem, v, w);
    BeforeTrans(P, Got(shmem), Answer(shmem), OVERWRITE);
    assert Reached(After(P, imm, tr).ctl, Got(shmem).(pos := Got(shmem).pos + 1));
    ClosedByNote(P, imm, tr, PUT, Got(shmem));
    ClosedIsFinished(P, imm, tr);
  }

  lemma PingPongApart(shmem: bool, v: int, w: int)
    ensures WellSynchronised(PingPongs(shmem, true, v, w))
  {
    var P := PingPongs(shmem, true, v, w);
    Notifiers(shmem, v, w);
    Chain(shmem, v, w);
    Known(shmem, v, w);
    BeforeTrans(P, Got(shmem), Answer(shmem), OVERWRITE);
    forall e, f | IsCall(P, e) && IsCall(P, f) && CallAt(P, e).Rma?
      ensures PairSafe(P, e, f)
    {
      Calls(shmem, v, w, e);
      Calls(shmem, v, w, f);
      if e == PUT {
        assert NotifiedBetween(P, PUT, OVERWRITE) && NotifiedBetween(P, PUT, Read(shmem));
      }
    }
  }

  lemma {:induction false} BufferHolds(shmem: bool, v: int, w: int, tr: seq<Label>)
    requires Ran(PingPongs(shmem, true, v, w), true, tr)
    ensures var s := After(PingPongs(shmem, true, v, w), true, tr); 1 <= s.ctl.pc[0] <= 4 ==> At(s.mem, BUF) == v
  {
    if tr != [] {
      var P := PingPongs(shmem, true, v, w);
      BufferHolds(shmem, v, w, tr[..|tr| - 1]);
      var s, l := After(P, true, tr[..|tr| - 1]), tr[|tr| - 1];
      MemStep(P, s, l, BUF);
      if l.Go? {
        Calls(shmem, v, w, Ev(l.t, s.ctl.pc[l.t]));
      } else if l.Meet? && 0 in l.g {
        assert NextCall(P, s.ctl, 0) == Barrier(l.g);
      }
    }
  }

  lemma PutYields(shmem: bool, v: int, w: int)
    ensures Yields(PingPongs(shmem, true, v, w), PUT, REMOTE, v)
  {
    var P := PingPongs(shmem, true, v, w);
    Notifiers(shmem, v, w);
    Known(shmem, v, w);
    forall e | IsCall(P, e)
      ensures Writes(CallAt(P, e), REMOTE) ==> e == PUT
    {
      Calls(shmem, v, w, e);
    }
    forall tr | Ran(P, true, tr)
      ensures After(P, true, tr).ctl.pc[0] == 1 ==> At(After(P, true, tr).mem, BUF) == v
    {
      BufferHolds(shmem, v, w, tr);
    }
    assert LeavesValue(P, PUT, REMOTE, v);
    forall tr | Ran(P, true, tr) && Passed(After(P, true, tr).ctl, PUT)
      ensures At(After(P, true, tr).mem, REMOTE) == v
    {
      LastWriterYields(P, tr, PUT, REMOTE, v);
    }
  }

  /** MAIN RESULT. GASPI/sync/004 and SHMEM/sync/005: the overwrite always comes after the put has read
      the buffer, so the target ends with the value that was put, however long the put is delayed. */
  lemma {:induction false} ReplyCompletesBuffer(shmem: bool, v: int, w: int)
    ensures RaceFree(PingPongs(shmem, true, v, w), false)
    ensures AlwaysLoads(PingPongs(shmem, true, v, w), false, Read(shmem), {v})
  {
    var P := PingPongs(shmem, true, v, w);
    PingPongApart(shmem, v, w);
    OrderedIsRaceFree(P);
    PutYields(shmem, v, w);
    Chain(shmem, v, w);
    Known(shmem, v, w);
    LoadSeesLastWrite(P, PUT, Read(shmem), REMOTE, v);
  }

  lemma ReplySentEarly(shmem: bool, v: int, w: int) returns (tr: seq<Label>, s: State)
    ensures var P := PingPongs(shmem, false, v, w);
            && LeadsTo(P, true, tr, s) && s.ctl.pc[0] == 0 && s.ctl.held == {} && FLAG0 in s.ctl.slots && s.ctl.slots[FLAG0].v == 1
  {
    var P, q := PingPongs(shmem, false, v, w), if shmem then 2 else 0;
    tr, s := Start(P, true);
    var code := P.threads[1].code;
    if shmem {
      assert code[0] == Store(BUF1, 1337) && code[1] == Rma(Put, 0, 0, BUF1, REMOTE0);
    }
    tr, s := Solo(P, true, tr, s, 1, q);
    assert code[q] == Notify(0, 0, FLAG0, 1);
    var n;
    tr, s, n := Sends(P, tr, s, 1);
    tr, s := Arrives(P, tr, s, n);
  }

  /** GASPI/sync/003 and SHMEM/sync/006: without the wait on rank 1 the reply proves nothing, and the
      overwrite can meet the put. */
  lemma {:induction false} EarlyReplyRaces(shmem: bool, v: int, w: int)
    ensures !RaceFree(PingPongs(shmem, false, v, w), false)
  {
    var P := PingPongs(shmem, false, v, w);
    PingCode(shmem, v, w);
    var tr, s := WaitOver(shmem, v, w);
    Meets(P, tr, s, PUT, OVERWRITE, true);
  }

  lemma PingCode(shmem: bool, v: int, w: int)
    ensures var P := PingPongs(shmem, false, v, w); var code := P.threads[0].code;
            && OnlySpins(P) && code[0] == Store(BUF, v) && code[1] == Rma(Put, 1, 0, BUF, REMOTE) && code[2] == Notify(1, 0, FLAG1, 1)
            && code[3] == Await(FLAG0, 1) && code[4] == Store(BUF, w)
  {
  }

  lemma WaitOver(shmem: bool, v: int, w: int) returns (tr: seq<Label>, s: State)
    ensures var P := PingPongs(shmem, false, v, w);
            LeadsTo(P, true, tr, s) && s.ctl.pc[0] == 4 && IsOpen(P, s, PUT, true)
  {
    var P := PingPongs(shmem, false, v, w);
    PingCode(shmem, v, w);
    tr, s := ReplySentEarly(shmem, v, w);
    tr, s := Solo(P, true, tr, s, 0, 2);
    tr, s := Solo(P, true, tr, s, 0, 3);
    tr, s := Awaits(P, tr, s, 0);
  }
}
