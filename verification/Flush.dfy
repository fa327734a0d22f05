/**
 Two operations of one origin, with `flush`, `flush_local` or nothing between them
 (MPIRMA/sync/023, 024, 025 and 026).
 */
module Flush {
  import opened Machine
  import opened Refinement
  import opened Ordering
  import opened Separation
  import opened Witness

  const LOCK := 1
  const UNLOCK: Instr := Close(Both, OwnTo(1, 0))

  datatype Middle = Nothing | FlushLocal | FlushBoth

  function Between(m: Middle): seq<Instr> {
    match m
    case Nothing => []
    case FlushLocal => [Close(Origin, OwnTo(1, 0))]
    case FlushBoth => [Close(Both, OwnTo(1, 0))]
  }

  /** Lock, first operation, completing call, second operation, unlock. */
  function SameOrigin(a: Instr, m: Middle, b: Instr): Program {
    Program([Thread(0, [Acquire(LOCK, false), a] + Between(m) + [b, UNLOCK, Release(LOCK)])], map[])
  }

  predicate IsOp(i: Instr) {
    i.Rma? && i.peer == 1 && i.queue == 0
  }

  /** The second operation touches the destination of the first. */
  predicate DstMeets(a: Instr, b: Instr)
    requires IsOp(a) && IsOp(b)
  {
    b.src == a.dst || (b.dst == a.dst && !(a.kind == Acc && b.kind == Acc))
  }

  /** The second operation writes the source of the first. */
  predicate SrcMeets(a: Instr, b: Instr)
    requires IsOp(a) && IsOp(b)
  {
    b.dst == a.src
  }

  /** What the call between the two has completed of the first. */
  predicate CompletesDst(m: Middle, a: Instr)
    requires IsOp(a)
  {
    m.FlushBoth? || (m.FlushLocal? && a.kind == Get)
  }

  lemma Shape3(a: Instr, m: Middle, b: Instr)
    requires IsOp(a) && IsOp(b)
    ensures var P := SameOrigin(a, m, b); var code := P.threads[0].code; var q := |code| - 3;
            && OnlySpins(P) && |code| == (if m.Nothing? then 5 else 6)
            && code[0] == Acquire(LOCK, false) && code[1] == a && code[q] == b && code[q + 1] == UNLOCK && code[q + 2] == Release(LOCK)
            && (!m.Nothing? ==> q == 3 && code[2] == Between(m)[0]) && (m.Nothing? ==> q == 2)
  {
  }

  lemma OrderedIfCompleted(a: Instr, m: Middle, b: Instr)
    requires IsOp(a) && IsOp(b)
    requires (DstMeets(a, b) ==> CompletesDst(m, a)) && (SrcMeets(a, b) ==> !m.Nothing?)
    ensures WellSynchronised(SameOrigin(a, m, b))
  {
    var P := SameOrigin(a, m, b);
    Shape3(a, m, b);
    forall e, f | IsCall(P, e) && IsCall(P, f) && CallAt(P, e).Rma?
      ensures PairSafe(P, e, f)
    {
      if e.pos < f.pos && CallAt(P, f).Rma? {
        assert e == Ev(0, 1);
        var c := Ev(0, 2);
        if !m.Nothing? {
          assert Before(P, e, c) && Before(P, c, f);
          assert Completes(P, c, e, false);
          if CompletesDst(m, a) {
            assert Completes(P, c, e, true);
          }
        }
      }
    }
  }

  lemma FirstIssued(a: Instr, m: Middle, b: Instr) returns (tr: seq<Label>, s: State)
    requires IsOp(a) && IsOp(b)
    ensures LeadsTo(SameOrigin(a, m, b), true, tr, s) && s.ctl.pc == [2] && s.ctl.batch == [0] && |s.ops| == 1
    ensures var o := s.ops[0];
            && o.kind == a.kind && o.src == a.src && o.dst == a.dst && o.owner == 0 && o.peer == 1 && o.queue == 0
            && o.srcOpen && o.dstOpen && o.batch == 0 && o.phase == Done
  {
    var P := SameOrigin(a, m, b);
    Shape3(a, m, b);
    tr, s := [], Init(P);
    assert Exec(P, true, tr) == Some(s);
    Extend(P, true, tr, s, Go(0));
    tr, s := tr + [Go(0)], Next(P, true, s, Go(0)).value;
    assert s.ctl.pc == [1] && s.ctl.batch == [0] && s.ops == [];
    IssueNow(P, s, 0);
    Extend(P, true, tr, s, Go(0));
    tr, s := tr + [Go(0)], Next(P, true, s, Go(0)).value;
  }

  /** The state in which the second operation is about to be issued. */
  lemma ReachSecond(a: Instr, m: Middle, b: Instr) returns (tr: seq<Label>, s: State)
    requires IsOp(a) && IsOp(b)
    ensures LeadsTo(SameOrigin(a, m, b), true, tr, s) && s.ctl.pc == [|SameOrigin(a, m, b).threads[0].code| - 3] && s.ctl.batch == [0]
    ensures |s.ops| == 1 && s.ops[0].kind == a.kind && s.ops[0].src == a.src && s.ops[0].dst == a.dst
    ensures s.ops[0].srcOpen == m.Nothing? && (s.ops[0].dstOpen <==> !CompletesDst(m, a)) && s.ops[0].batch == 0
  {
    var P := SameOrigin(a, m, b);
    Shape3(a, m, b);
    tr, s := FirstIssued(a, m, b);
    if !m.Nothing? {
      assert Enabled(P, s, Go(0));
      Extend(P, true, tr, s, Go(0));
      tr, s := tr + [Go(0)], Next(P, true, s, Go(0)).value;
    }
  }

  /** MAIN RESULT. Exactly when two operations of one origin to one target race: flush keeps any two
      apart, flush_local those that meet only in the origin buffer. */
  lemma {:induction false} FlushExactly(a: Instr, m: Middle, b: Instr)
    requires IsOp(a) && IsOp(b)
    ensures RaceFree(SameOrigin(a, m, b), false) <==>
            (DstMeets(a, b) ==> CompletesDst(m, a)) && (SrcMeets(a, b) ==> !m.Nothing?)
  {
    var P := SameOrigin(a, m, b);
    if (DstMeets(a, b) ==> CompletesDst(m, a)) && (SrcMeets(a, b) ==> !m.Nothing?) {
      OrderedIfCompleted(a, m, b);
      OrderedIsRaceFree(P);
    } else {
      var tr, s := ReachSecond(a, m, b);
      Shape3(a, m, b);
      assert RaceAt(P, s, 0, 0);
      assert Look(tr) && Exec(P, true, tr) == Some(s);
      RaceFreeEquivalence(P);
    }
  }

  // ----- what a completing call leaves behind

  /** What a completing call of this kind guarantees of an operation it covers. */
  predicate Drained(o: Op, side: Side) {
    && !o.srcOpen && (side == Both ==> o.phase == Done && !o.dstOpen)
    && (side == Origin ==> if o.kind == Get then o.phase == Done else o.phase != Issued)
  }

  lemma DrainedStep(P: Program, s: State, l: Label, k: nat, side: Side)
    requires Shape(P, s) && Enabled(P, s, l) && k < |s.ops| && Drained(s.ops[k], side)
    ensures k < |Apply(P, s, l).ops| && Drained(Apply(P, s, l).ops[k], side)
  {
  }

  /** MAIN RESULT. In any program and any delayed run: once a flush has been executed no access of an
      operation it covered is pending on either side, and after a flush_local none is at the origin;
      neither ever comes back. */
  lemma {:induction false} FlushDrains(P: Program, tr: seq<Label>, t: nat, more: seq<Label>, k: nat)
    requires Exec(P, false, tr).Some? && Running(P, Exec(P, false, tr).value.ctl, t) && Exec(P, false, tr + [Go(t)] + more).Some?
    requires NextCall(P, Exec(P, false, tr).value.ctl, t).Close? && k < |Exec(P, false, tr).value.ops|
    requires Covers(NextCall(P, Exec(P, false, tr).value.ctl, t).scope, P.threads[t].rank, Exec(P, false, tr).value.ops[k])
    ensures k < |Exec(P, false, tr + [Go(t)] + more).value.ops|
    ensures Drained(Exec(P, false, tr + [Go(t)] + more).value.ops[k], NextCall(P, Exec(P, false, tr).value.ctl, t).side)
  {
    var s, run := Exec(P, false, tr).value, tr + [Go(t)] + more;
    var side := NextCall(P, s.ctl, t).side;
    if more == [] {
      assert run == tr + [Go(t)] && run[..|run| - 1] == tr;
      assert Complete(side, s.ops[k]);
    } else {
      var before := more[..|more| - 1];
      assert run[..|run| - 1] == tr + [Go(t)] + before;
      FlushDrains(P, tr, t, before, k);
      DrainedStep(P, Exec(P, false, tr + [Go(t)] + before).value, more[|more| - 1], k, side);
    }
  }

  lemma PutFetched(src: Loc, dst: Loc, b: Instr) returns (tr: seq<Label>, s: State)
    requires IsOp(b)
    ensures LeadsTo(SameOrigin(Rma(Put, 1, 0, src, dst), FlushLocal, b), false, tr, s) && s.ctl.pc == [2]
    ensures |s.ops| == 1 && s.ops[0].kind == Put && s.ops[0].phase == Fetched
  {
    var P := SameOrigin(Rma(Put, 1, 0, src, dst), FlushLocal, b);
    Shape3(Rma(Put, 1, 0, src, dst), FlushLocal, b);
    tr, s := [], Init(P);
    assert Exec(P, false, tr) == Some(s);
    Extend(P, false, tr, s, Go(0));
    tr, s := tr + [Go(0)], Next(P, false, s, Go(0)).value;
    assert s.ctl.pc == [1] && s.ops == [];
    Extend(P, false, tr, s, Go(0));
    tr, s := tr + [Go(0)], Next(P, false, s, Go(0)).value;
    assert s.ctl.pc == [2] && |s.ops| == 1;
    Extend(P, false, tr, s, Fetch(0));
    tr, s := tr + [Fetch(0)], Next(P, false, s, Fetch(0)).value;
  }

  /** flush_local may leave the access at the target pending. */
  lemma {:induction false} FlushLocalLeavesTarget(src: Loc, dst: Loc, b: Instr)
    requires IsOp(b)
    ensures var P := SameOrigin(Rma(Put, 1, 0, src, dst), FlushLocal, b);
            exists tr :: Exec(P, false, tr).Some? && Exec(P, false, tr).value.ctl.pc == [3]
              && |Exec(P, false, tr).value.ops| == 1 && Exec(P, false, tr).value.ops[0].phase == Fetched
  {
    var P := SameOrigin(Rma(Put, 1, 0, src, dst), FlushLocal, b);
    Shape3(Rma(Put, 1, 0, src, dst), FlushLocal, b);
    var tr, s := PutFetched(src, dst, b);
    assert NextCall(P, s.ctl, 0) == Close(Origin, OwnTo(1, 0));
    Extend(P, false, tr, s, Go(0));
    tr, s := tr + [Go(0)], Next(P, false, s, Go(0)).value;
    assert Look(tr);
  }

  const VALUE := Loc(0, 1)
  const VALUE2 := Loc(0, 2)
  const WIN := Loc(1, 0)

  /** The four programs: put, flush, get (023) and get, flush_local, get into one buffer (026) are safe;
      put, get (024) and put, flush_local, get through one buffer (025) are not, and in 025 only the
      target cell is left to race on, although its label calls the race local: with another target cell
      the same buffer is fine. */
  lemma {:induction false} FlushPrograms()
    ensures var put, get, get2 := Rma(Put, 1, 0, VALUE, WIN), Rma(Get, 1, 0, WIN, VALUE), Rma(Get, 1, 0, WIN, VALUE2);
            && RaceFree(SameOrigin(put, FlushBoth, get2), false)
            && !RaceFree(SameOrigin(put, Nothing, get2), false)
            && !RaceFree(SameOrigin(put, FlushLocal, get), false) && DstMeets(put, get)
            && RaceFree(SameOrigin(put, FlushLocal, get.(src := Loc(1, 1))), false)
            && RaceFree(SameOrigin(get, FlushLocal, get), false)
  {
    var put, get, get2 := Rma(Put, 1, 0, VALUE, WIN), Rma(Get, 1, 0, WIN, VALUE), Rma(Get, 1, 0, WIN, VALUE2);
    FlushExactly(put, FlushBoth, get2);
    FlushExactly(put, Nothing, get2);
    FlushExactly(put, FlushLocal, get);
    FlushExactly(put, FlushLocal, get.(src := Loc(1, 1)));
    FlushExactly(get, FlushLocal, get);
  }
}
