/**
 Keeping conflicting accesses apart.

 The main result is that a program is race free, with or without delays, if every conflicting access is
 kept away from an operation in flight in one of five ways: it comes before the issue, it comes after a
 completing call that comes after the issue, a notification carried the operation home, both run under
 one lock, or they are calls of one thread in the other order.
 */
module Separation {
  import opened Machine
  import opened Refinement
  import opened Ordering

  /** Call `f` touches the destination of the operation issued at `e`. */
  predicate DstConflict(P: Program, e: Ev, f: Ev)
    requires IsCall(P, e) && IsCall(P, f) && CallAt(P, e).Rma?
  {
    var o := CallAt(P, e);
    match CallAt(P, f)
    case Load(x) => x == o.dst
    case Store(x, _) => x == o.dst
    case Add(x, _) => x == o.dst
    case Rma(kind, peer, _, src, dst) =>
      || src == o.dst
      || (dst == o.dst && !(o.kind == Acc && kind == Acc)
          && !(e.tid == f.tid && o.peer == peer && o.kind != Get && kind != Get
               && Count(P.threads[e.tid].code, Order, e.pos) < Count(P.threads[f.tid].code, Order, f.pos)))
    case _ => false
  }

  /** Call `f` writes the source of the operation issued at `e`. */
  predicate SrcConflict(P: Program, e: Ev, f: Ev)
    requires IsCall(P, e) && IsCall(P, f) && CallAt(P, e).Rma?
  {
    var o := CallAt(P, e);
    match CallAt(P, f)
    case Store(x, _) => x == o.src
    case Add(x, _) => x == o.src
    case Rma(_, _, _, _, dst) => dst == o.src
    case _ => false
  }

  ghost predicate CompletedBetween(P: Program, e: Ev, f: Ev, dst: bool) {
    exists c :: Completes(P, c, e, dst) && Before(P, e, c) && Before(P, c, f)
  }

  ghost predicate NotifiedBetween(P: Program, e: Ev, f: Ev) {
    exists w :: Carries(P, e, w) && Before(P, w, f)
  }

  ghost predicate LockedApart(P: Program, e: Ev, f: Ev) {
    exists lock, c :: Guarded(P, e, f, lock, c)
  }

  /** The access at `f` never meets the operation issued at `e` in flight. */
  ghost predicate KeptApart(P: Program, e: Ev, f: Ev, dst: bool) {
    || (e.tid == f.tid && f.pos <= e.pos)
    || Before(P, f, e)
    || CompletedBetween(P, e, f, dst)
    || NotifiedBetween(P, e, f)
    || LockedApart(P, e, f)
  }

  ghost predicate PairSafe(P: Program, e: Ev, f: Ev)
    requires IsCall(P, e) && IsCall(P, f) && CallAt(P, e).Rma?
  {
    (DstConflict(P, e, f) ==> KeptApart(P, e, f, true)) && (SrcConflict(P, e, f) ==> KeptApart(P, e, f, false))
  }

  ghost predicate WellSynchronised(P: Program) {
    OnlySpins(P) && forall e, f :: IsCall(P, e) && IsCall(P, f) && CallAt(P, e).Rma? ==> PairSafe(P, e, f)
  }

  lemma ApartMeansClosed(P: Program, imm: bool, tr: seq<Label>, e: Ev, f: Ev, dst: bool, k: nat)
    requires OnlySpins(P) && Ran(P, imm, tr) && IsCall(P, e) && IsCall(P, f) && CallAt(P, e).Rma? && KeptApart(P, e, f, dst)
    requires After(P, imm, tr).ctl.pc[f.tid] == f.pos
    requires k < |After(P, imm, tr).ops| && FromCall(After(P, imm, tr).ops[k], e)
    ensures Closed(After(P, imm, tr).ops[k], dst)
  {
    Issuers(P, imm, tr);
    var s := After(P, imm, tr);
    assert Issuer(P, s.ctl, s.ops[k]);
    assert Reached(s.ctl, f) && !Passed(s.ctl, f) && Reached(s.ctl, e);
    if CompletedBetween(P, e, f, dst) {
      var c :| Completes(P, c, e, dst) && Before(P, e, c) && Before(P, c, f);
      ClosedByCall(P, imm, tr, e, c, dst);
    } else if NotifiedBetween(P, e, f) {
      var w :| Carries(P, e, w) && Before(P, w, f);
      ClosedByNote(P, imm, tr, e, w);
    } else if LockedApart(P, e, f) {
      var lock, c :| Guarded(P, e, f, lock, c);
      ClosedByLock(P, imm, tr, e, f, lock, c);
    }
  }

  /** Two calls that race, in whatever run, are not kept apart. */
  lemma {:induction false} RaceIsUnsafe(P: Program, imm: bool, tr: seq<Label>, t: nat, k: nat)
    requires OnlySpins(P) && Ran(P, imm, tr) && RaceAt(P, After(P, imm, tr), t, k)
    ensures var s := After(P, imm, tr); var e, f := Ev(s.ops[k].tid, s.ops[k].pos), Ev(t, s.ctl.pc[t]);
            IsCall(P, e) && IsCall(P, f) && CallAt(P, e).Rma? && !PairSafe(P, e, f)
  {
    var s := After(P, imm, tr);
    Issuers(P, imm, tr);
    Batches(P, imm, tr, t);
    var e, f := Ev(s.ops[k].tid, s.ops[k].pos), Ev(t, s.ctl.pc[t]);
    assert Issuer(P, s.ctl, s.ops[k]);
    if PairSafe(P, e, f) {
      if DstConflict(P, e, f) {
        ApartMeansClosed(P, imm, tr, e, f, true, k);
      }
      if SrcConflict(P, e, f) {
        ApartMeansClosed(P, imm, tr, e, f, false, k);
      }
      assert false;
    }
  }

  /** MAIN RESULT. Completion plus synchronisation is enough: for any number of threads and any program,
      if every conflicting pair of calls is kept apart then no schedule, delayed or not, has a race. */
  lemma {:induction false} OrderedIsRaceFree(P: Program)
    requires WellSynchronised(P)
    ensures RaceFree(P, true) && RaceFree(P, false)
  {
    forall imm, tr | Exec(P, imm, tr).Some?
      ensures !Race(P, Exec(P, imm, tr).value)
    {
      assert Ran(P, imm, tr);
      if Race(P, After(P, imm, tr)) {
        var t: nat, k: nat :| RaceAt(P, After(P, imm, tr), t, k);
        RaceIsUnsafe(P, imm, tr, t, k);
        assert false;
      }
    }
  }

  /** MAIN RESULT. Hence such a program refines the one without delays: every delayed run loads the values,
      runs the calls and leaves the memory of a run with the same synchronisation in which each operation
      takes effect at its issue. */
  lemma {:induction false} OrderedRefinesImmediate(P: Program, tr: seq<Label>)
    requires WellSynchronised(P) && Exec(P, false, tr).Some?
    ensures Ran(P, true, Erase(tr))
    ensures var d, i := Exec(P, false, tr).value, After(P, true, Erase(tr));
            d.obs == i.obs && d.ctl == i.ctl && (Quiescent(d) ==> d.mem == i.mem)
  {
    OrderedIsRaceFree(P);
    DelaysUnobservable(P, tr);
  }
}
