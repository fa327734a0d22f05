/**
 The polling program MPIRMA/sync/036: rank 1 loads its window cell until it sees the value 1, and locks
 and unlocks the window between two looks; rank 0 puts the value.

 The put and the load race. What can be said all the same, for every delay and any number of turns: the
 loop ends only after the put has reached the cell, and no turn starts after it has been seen.
 */
module Polling {
  import opened Machine
  import opened Refinement
  import opened Witness

  const LOCK := 1
  const WIN := Loc(1, 0)
  const VALUE := Loc(0, 2)

  const PUT := Ev(0, 2)
  const EXIT := 6

  /** `v` is the value put; the program has 1. */
  function Poll(v: int): Program {
    Program([
      Thread(0, [Acquire(LOCK, true), Store(VALUE, v), Rma(Put, 1, 0, VALUE, WIN), Close(Both, OwnTo(1, 0)), Release(LOCK)]),
      Thread(1, [Load(WIN), Branch(Eq, 1, EXIT), Acquire(LOCK, true), Close(Both, OwnTo(1, 0)), Release(LOCK), Branch(Any, 0, 0)])
    ], map[WIN := 0])
  }

  /** The put has reached the window cell. */
  predicate Landed(s: State) {
    |s.ops| == 1 && s.ops[0].phase == Done
  }

  ghost predicate OpOk(v: int, s: State)
    requires Shape(Poll(v), s)
  {
    && |s.ops| == (if s.ctl.pc[0] >= 3 then 1 else 0) && (s.ctl.pc[0] >= 2 ==> At(s.mem, VALUE) == v)
    && (forall k :: 0 <= k < |s.ops| ==>
          (s.ops[k].kind == Put && s.ops[k].src == VALUE && s.ops[k].dst == WIN && (s.ops[k].phase != Issued ==> s.ops[k].val == v)))
    && At(s.mem, WIN) == (if Landed(s) then v else 0)
  }

  ghost predicate PollInv(v: int, s: State)
    requires Shape(Poll(v), s)
  {
    && OpOk(v, s) && s.ctl.notes == {} && s.ctl.pc[0] <= 5 && s.ctl.pc[1] <= EXIT
    && (s.ctl.pc[1] == 1 ==> s.regs[1] == 0 || (s.regs[1] == v && Landed(s)))
    && (s.ctl.pc[1] == EXIT ==> v == 1 && Landed(s))
  }

  lemma OpsOwner(v: int, s: State)
    requires Shape(Poll(v), s) && PollInv(v, s) && Enabled(Poll(v), s, Go(0))
    ensures OpOk(v, Apply(Poll(v), s, Go(0))) && (Landed(s) ==> Landed(Apply(Poll(v), s, Go(0))))
  {
    var p := s.ctl.pc[0];
    assert p == 0 || p == 1 || p == 2 || p == 3 || p == 4;
  }

  lemma PollerOnlyLooks(v: int, s: State)
    requires Shape(Poll(v), s) && PollInv(v, s) && Enabled(Poll(v), s, Go(1))
    ensures var s' := Apply(Poll(v), s, Go(1)); s'.mem == s.mem && s'.ctl.pc[0] == s.ctl.pc[0] && |s'.ops| == |s.ops|
    ensures var s' := Apply(Poll(v), s, Go(1));
            forall k :: 0 <= k < |s.ops| ==> s'.ops[k] == s.ops[k].(srcOpen := s'.ops[k].srcOpen, dstOpen := s'.ops[k].dstOpen)
  {
    var p := s.ctl.pc[1];
    assert p == 0 || p == 1 || p == 2 || p == 3 || p == 4 || p == 5;
  }

  lemma OpsPoller(v: int, s: State)
    requires Shape(Poll(v), s) && PollInv(v, s) && Enabled(Poll(v), s, Go(1))
    ensures OpOk(v, Apply(Poll(v), s, Go(1))) && (Landed(s) ==> Landed(Apply(Poll(v), s, Go(1))))
  {
    PollerOnlyLooks(v, s);
  }

  lemma PollOps(v: int, s: State, l: Label)
    requires Shape(Poll(v), s) && PollInv(v, s) && Enabled(Poll(v), s, l)
    ensures OpOk(v, Apply(Poll(v), s, l)) && (Landed(s) ==> Landed(Apply(Poll(v), s, l)))
  {
    match l {
      case Go(t) =>
        if t == 0 {
          OpsOwner(v, s);
        } else {
          OpsPoller(v, s);
        }
      case Meet(g) =>
        NoBarrier(v, s, g);
      case Deliver(_) =>
      case Fetch(_) =>
      case Land(_) =>
    }
  }

  lemma NoBarrier(v: int, s: State, g: set<nat>)
    requires Shape(Poll(v), s)
    ensures !Enabled(Poll(v), s, Meet(g))
  {
    var P := Poll(v);
    forall t | t in g && Running(P, s.ctl, t)
      ensures !NextCall(P, s.ctl, t).Barrier?
    {
      var p := s.ctl.pc[t];
      assert p == 0 || p == 1 || p == 2 || p == 3 || p == 4 || p == 5;
    }
  }

  lemma PollStep(v: int, s: State, l: Label)
    requires Shape(Poll(v), s) && PollInv(v, s) && Enabled(Poll(v), s, l)
    ensures PollInv(v, Apply(Poll(v), s, l))
  {
    PollOps(v, s, l);
    match l {
      case Go(t) =>
        var p := s.ctl.pc[t];
        assert t == 0 ==> p == 0 || p == 1 || p == 2 || p == 3 || p == 4;
        assert t == 1 ==> p == 0 || p == 1 || p == 2 || p == 3 || p == 4 || p == 5;
      case Meet(g) =>
        NoBarrier(v, s, g);
      case Deliver(_) =>
      case Fetch(_) =>
      case Land(_) =>
    }
  }

  lemma {:induction false} PollHolds(v: int, tr: seq<Label>)
    requires Exec(Poll(v), false, tr).Some?
    ensures PollInv(v, Exec(Poll(v), false, tr).value)
  {
    if tr != [] {
      PollHolds(v, tr[..|tr| - 1]);
      PollStep(v, Exec(Poll(v), false, tr[..|tr| - 1]).value, tr[|tr| - 1]);
    }
  }

  /** At most one look since there had been `base` of them, and that look ends the loop. */
  predicate Ending(s: State, base: nat)
    requires |s.ctl.pc| == |s.regs| == 2
  {
    Landed(s) && (|s.obs| == base || (|s.obs| == base + 1 && (s.ctl.pc[1] == EXIT || (s.ctl.pc[1] == 1 && s.regs[1] == 1))))
  }

  lemma EndingStep(s: State, l: Label, base: nat)
    requires Shape(Poll(1), s) && PollInv(1, s) && Enabled(Poll(1), s, l) && Ending(s, base)
    ensures Ending(Apply(Poll(1), s, l), base)
  {
    PollOps(1, s, l);
    match l {
      case Go(t) =>
        var p := s.ctl.pc[t];
        assert t == 0 ==> p == 0 || p == 1 || p == 2 || p == 3 || p == 4;
        assert t == 1 ==> p == 0 || p == 1 || p == 2 || p == 3 || p == 4 || p == 5;
      case Meet(g) =>
        NoBarrier(1, s, g);
      case Deliver(_) =>
      case Fetch(_) =>
      case Land(_) =>
    }
  }

  /** MAIN RESULT. After the put has reached the cell the loop looks at it at most once more, and that
      look ends it, whatever else is still to happen. */
  lemma {:induction false} NoNewTurn(tr: seq<Label>, more: seq<Label>)
    requires Exec(Poll(1), false, tr + more).Some? && Exec(Poll(1), false, tr).Some? && Landed(Exec(Poll(1), false, tr).value)
    ensures Ending(Exec(Poll(1), false, tr + more).value, |Exec(Poll(1), false, tr).value.obs|)
  {
    if more == [] {
      assert tr + more == tr;
    } else {
      var before := more[..|more| - 1];
      assert (tr + more)[..|tr + more| - 1] == tr + before;
      NoNewTurn(tr, before);
      PollHolds(1, tr + before);
      EndingStep(Exec(Poll(1), false, tr + before).value, more[|more| - 1], |Exec(Poll(1), false, tr).value.obs|);
    }
  }

  ghost predicate Exits(v: int, tr: seq<Label>) {
    Exec(Poll(v), false, tr).Some? && Exec(Poll(v), false, tr).value.ctl.pc[1] == EXIT
  }

  lemma PutReaches() returns (tr: seq<Label>, s: State)
    ensures LeadsTo(Poll(1), true, tr, s) && s.ctl.pc == [3, 0] && At(s.mem, WIN) == 1
  {
    var P := Poll(1);
    tr, s := Start(P, true);
    Extend(P, true, tr, s, Go(0));
    tr, s := tr + [Go(0)], Next(P, true, s, Go(0)).value;
    assert s.ctl.pc == [1, 0];
    Extend(P, true, tr, s, Go(0));
    tr, s := tr + [Go(0)], Next(P, true, s, Go(0)).value;
    assert s.ctl.pc == [2, 0] && At(s.mem, VALUE) == 1;
    Extend(P, true, tr, s, Go(0));
    tr, s := tr + [Go(0)], Next(P, true, s, Go(0)).value;
  }

  lemma LoopCanEnd() returns (tr: seq<Label>)
    ensures Exits(1, tr)
  {
    var P := Poll(1);
    var s;
    tr, s := PutReaches();
    Extend(P, true, tr, s, Go(1));
    tr, s := tr + [Go(1)], Next(P, true, s, Go(1)).value;
    assert s.ctl.pc == [3, 1] && s.regs[1] == 1;
    Extend(P, true, tr, s, Go(1));
    tr, s := tr + [Go(1)], Next(P, true, s, Go(1)).value;
    assert Look(tr);
    tr := ImmediateIsDelayed(P, tr);
  }

  /** MAIN RESULT. In every delayed run the loop ends only after the put has reached the cell, and it can
      end exactly when the value put is the one polled for. */
  lemma {:induction false} ExitMeansLanded(v: int)
    ensures forall tr :: Exits(v, tr) ==> Landed(Exec(Poll(v), false, tr).value)
    ensures (exists tr :: Exits(v, tr)) <==> v == 1
  {
    forall tr | Exits(v, tr)
      ensures v == 1 && Landed(Exec(Poll(v), false, tr).value)
    {
      PollHolds(v, tr);
    }
    if v == 1 {
      var tr := LoopCanEnd();
    }
  }

  /** The load of the loop meets the put in flight. */
  lemma {:induction false} PollingRaces(v: int)
    ensures !RaceFree(Poll(v), false)
  {
    var P := Poll(v);
    var tr, s := Start(P, true);
    tr, s := Solo(P, true, tr, s, 0, 3);
    MeetsLoad(P, tr, s, PUT, Ev(1, 0), true);
  }
}
