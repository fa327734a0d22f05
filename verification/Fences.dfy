/**
 Fence epochs, for any number of ranks, fences and operations.

 A fence completes the rank's own operations on both sides and then meets all ranks. A program that
 synchronises by fences alone is race free, with any delays, exactly when no two conflicting calls
 share an epoch (MPIRMA/sync/019 and its twin 018).
 */
module Fences {
  import opened Machine
  import opened Refinement
  import opened Ordering
  import opened Separation
  import opened Witness

  function AllThreads(P: Program): (g: set<nat>)
    ensures forall t: nat :: t in g <==> t < |P.threads|
  {
    Upto(|P.threads|)
  }

  function Meeting(P: Program): Instr {
    Barrier(AllThreads(P))
  }

  const DRAIN: Instr := Close(Both, AllOwn)

  /** Local accesses, operations, and fences: a drain directly followed by the meeting of all. */
  predicate FenceCode(code: seq<Instr>, meeting: Instr) {
    forall j :: 0 <= j < |code| ==>
      && (code[j].Load? || code[j].Store? || code[j].Add? || code[j].Rma? || code[j] == DRAIN || code[j] == meeting)
      && (code[j] == meeting ==> j > 0 && code[j - 1] == DRAIN)
      && (code[j] == DRAIN ==> j + 1 < |code| && code[j + 1] == meeting)
  }

  /** One thread per rank, all with `fences` fences. */
  ghost predicate FenceProgram(P: Program, fences: nat) {
    && (forall t :: 0 <= t < |P.threads| ==> FenceCode(P.threads[t].code, Meeting(P)))
    && (forall t :: 0 <= t < |P.threads| ==> Count(P.threads[t].code, Meeting(P), |P.threads[t].code|) == fences)
    && (forall t, u :: 0 <= t < u < |P.threads| ==> P.threads[t].rank != P.threads[u].rank)
  }

  /** The number of fences before a call. */
  function Epoch(P: Program, e: Ev): nat
    requires IsCall(P, e)
  {
    Count(P.threads[e.tid].code, Meeting(P), e.pos)
  }

  ghost predicate EpochsApart(P: Program) {
    forall e, f :: IsCall(P, e) && IsCall(P, f) && CallAt(P, e).Rma? && (DstConflict(P, e, f) || SrcConflict(P, e, f)) ==>
      Epoch(P, e) != Epoch(P, f) || (e.tid == f.tid && f.pos <= e.pos)
  }

  // ----- epochs never overlap

  /** The first meeting at or after `from`. */
  lemma {:induction false} NextMeeting(code: seq<Instr>, m: Instr, from: nat) returns (j: nat)
    requires from <= |code| && Count(code, m, from) < Count(code, m, |code|)
    ensures from <= j < |code| && code[j] == m && Count(code, m, j) == Count(code, m, from)
    decreases |code| - from
  {
    if code[from] == m {
      j := from;
    } else {
      j := NextMeeting(code, m, from + 1);
    }
  }

  lemma DrainFirst(code: seq<Instr>, m: Instr, j: nat)
    requires FenceCode(code, m) && j < |code| && code[j] == m
    ensures j > 0 && code[j - 1] == DRAIN
  {
  }

  /** The completing part of the fence that ends the epoch of `e`. */
  lemma DrainOf(P: Program, fences: nat, e: Ev) returns (c: Ev)
    requires FenceProgram(P, fences) && IsCall(P, e) && CallAt(P, e).Rma? && Epoch(P, e) < fences
    ensures Completes(P, c, e, true) && Before(P, e, c) && IsCall(P, c) && c.tid == e.tid && Epoch(P, c) == Epoch(P, e)
  {
    var code, m := P.threads[e.tid].code, Meeting(P);
    var j := NextMeeting(code, m, e.pos);
    DrainFirst(code, m, j);
    CountMonotone(code, m, j - 1, j);
    c := Ev(e.tid, j - 1);
  }

  /** An operation is finished at both sides before any access of a later epoch. */
  lemma {:induction false} EpochOrders(P: Program, fences: nat, e: Ev, f: Ev)
    requires FenceProgram(P, fences) && OnlySpins(P) && IsCall(P, e) && IsCall(P, f) && CallAt(P, e).Rma?
    requires Epoch(P, e) < Epoch(P, f)
    ensures CompletedBetween(P, e, f, true) && Before(P, e, f)
  {
    CountMonotone(P.threads[f.tid].code, Meeting(P), f.pos, |P.threads[f.tid].code|);
    var c := DrainOf(P, fences, e);
    BarrierBefore(P, c, f, AllThreads(P));
    BarrierBefore(P, e, f, AllThreads(P));
  }

  lemma EpochsAreSafe(P: Program, fences: nat)
    requires FenceProgram(P, fences) && EpochsApart(P)
    ensures WellSynchronised(P)
  {
    assert OnlySpins(P);
    forall e, f | IsCall(P, e) && IsCall(P, f) && CallAt(P, e).Rma?
      ensures PairSafe(P, e, f)
    {
      if DstConflict(P, e, f) || SrcConflict(P, e, f) {
        if Epoch(P, e) < Epoch(P, f) {
          EpochOrders(P, fences, e, f);
          assert CompletedBetween(P, e, f, false);
        } else if Epoch(P, f) < Epoch(P, e) {
          BarrierBefore(P, f, e, AllThreads(P));
        }
      }
    }
  }

  /** MAIN RESULT. In every delayed run, once any rank has come to a call of a later epoch, an operation of
      an earlier one has finished at both sides, even in a program with races. */
  lemma {:induction false} EarlierEpochFinished(P: Program, fences: nat, tr: seq<Label>, k: nat, f: Ev)
    requires FenceProgram(P, fences) && Exec(P, false, tr).Some? && k < |Exec(P, false, tr).value.ops|
    requires var s := Exec(P, false, tr).value; var e := Ev(s.ops[k].tid, s.ops[k].pos);
             IsCall(P, e) && IsCall(P, f) && Reached(s.ctl, f) && Epoch(P, e) < Epoch(P, f)
    ensures var o := Exec(P, false, tr).value.ops[k]; o.phase == Done && !o.srcOpen && !o.dstOpen
  {
    assert NoBranches(P) && OnlySpins(P);
    ControlSimulates(P, tr);
    var d, i := Exec(P, false, tr).value, After(P, true, Erase(tr));
    assert SameIssue(d.ops[k], i.ops[k]);
    var e := Ev(d.ops[k].tid, d.ops[k].pos);
    Issuers(P, true, Erase(tr));
    assert Issuer(P, i.ctl, i.ops[k]);
    EpochOrders(P, fences, e, f);
    var c :| Completes(P, c, e, true) && Before(P, e, c) && Before(P, c, f);
    ClosedByCall(P, true, Erase(tr), e, c, true);
    assert FromCall(i.ops[k], e);
  }

  // ----- every epoch is reached

  /** Thread `t` is at the first call of epoch `k`. */
  ghost predicate AtStart(P: Program, s: State, k: nat, t: nat)
    requires Shape(P, s) && t < |P.threads|
  {
    var code, m, pc := P.threads[t].code, Meeting(P), s.ctl.pc[t];
    pc <= |code| && Count(code, m, pc) == k && (k > 0 ==> pc > 0 && Count(code, m, pc - 1) < k) && (k == 0 ==> pc == 0)
  }

  /** Thread `t` has drained its operations and waits for the others at the end of epoch `k`. */
  ghost predicate AtEnd(P: Program, s: State, k: nat, t: nat)
    requires Shape(P, s) && t < |P.threads|
  {
    var code, m, pc := P.threads[t].code, Meeting(P), s.ctl.pc[t];
    pc < |code| && code[pc] == m && Count(code, m, pc) == k
  }

  lemma {:induction false} NoMeetingIn(code: seq<Instr>, m: Instr, lo: nat, hi: nat)
    requires lo <= hi <= |code| && Count(code, m, lo) == Count(code, m, hi)
    ensures forall i :: lo <= i < hi ==> code[i] != m
  {
    if lo < hi {
      CountMonotone(code, m, lo, hi - 1);
      NoMeetingIn(code, m, lo, hi - 1);
    }
  }

  /** Inside an epoch a thread waits for nothing. */
  lemma FreeInside(code: seq<Instr>, m: Instr, lo: nat, hi: nat)
    requires FenceCode(code, m) && m.Barrier? && lo <= hi < |code| && Count(code, m, lo) == Count(code, m, hi)
    ensures forall i :: lo <= i < hi && (code[hi] == m ==> i < hi - 1) ==> IsFree(code[i]) && !code[i].Acquire?
  {
    NoMeetingIn(code, m, lo, hi);
    forall i | lo <= i < hi && (code[hi] == m ==> i < hi - 1)
      ensures IsFree(code[i]) && !code[i].Acquire?
    {
      if code[i] == DRAIN {
        assert code[i + 1] == m;
      }
    }
  }

  /** One thread runs to the end of its epoch. */
  lemma FinishEpoch(P: Program, fences: nat, k: nat, tr: seq<Label>, s: State, t: nat) returns (tr': seq<Label>, s': State)
    requires FenceProgram(P, fences) && LeadsTo(P, true, tr, s) && t < |P.threads| && k < fences && AtStart(P, s, k, t)
    requires s.ctl.held == {}
    ensures LeadsTo(P, true, tr', s') && AtEnd(P, s', k, t) && s'.ctl.held == {} && s'.ctl.pc == s.ctl.pc[t := s'.ctl.pc[t]]
  {
    var code, m := P.threads[t].code, Meeting(P);
    var j := NextMeeting(code, m, s.ctl.pc[t]);
    DrainFirst(code, m, j);
    FreeInside(code, m, s.ctl.pc[t], j);
    var tr1, s1 := Solo(P, true, tr, s, t, j - 1);
    DrainStep(P, tr1, s1, t);
    Extend(P, true, tr1, s1, Go(t));
    tr', s' := tr1 + [Go(t)], Next(P, true, s1, Go(t)).value;
  }

  /** In the immediate machine a drain never waits. */
  lemma DrainStep(P: Program, tr: seq<Label>, s: State, t: nat)
    requires LeadsTo(P, true, tr, s) && Running(P, s.ctl, t) && NextCall(P, s.ctl, t) == DRAIN
    ensures Next(P, true, s, Go(t)).Some?
  {
    assert Look(tr);
    ImmediateSettled(P, tr);
  }

  lemma {:induction false} FinishAll(P: Program, fences: nat, k: nat, tr: seq<Label>, s: State, n: nat) returns (tr': seq<Label>, s': State)
    requires FenceProgram(P, fences) && LeadsTo(P, true, tr, s) && n <= |P.threads| && k < fences && s.ctl.held == {}
    requires forall t :: 0 <= t < |P.threads| ==> AtStart(P, s, k, t)
    ensures LeadsTo(P, true, tr', s') && s'.ctl.held == {}
    ensures forall t :: 0 <= t < n ==> AtEnd(P, s', k, t)
    ensures forall t :: n <= t < |P.threads| ==> AtStart(P, s', k, t)
  {
    if n == 0 {
      tr', s' := tr, s;
    } else {
      var tr1, s1 := FinishAll(P, fences, k, tr, s, n - 1);
      tr', s' := FinishEpoch(P, fences, k, tr1, s1, n - 1);
      forall t | 0 <= t < n - 1
        ensures AtEnd(P, s', k, t)
      {
        assert AtEnd(P, s1, k, t);
      }
      forall t | n <= t < |P.threads|
        ensures AtStart(P, s', k, t)
      {
        assert AtStart(P, s1, k, t);
      }
    }
  }

  lemma {:induction false} ReachEpoch(P: Program, fences: nat, k: nat) returns (tr: seq<Label>, s: State)
    requires FenceProgram(P, fences) && k <= fences && |P.threads| > 0
    ensures LeadsTo(P, true, tr, s) && s.ctl.held == {} && forall t :: 0 <= t < |P.threads| ==> AtStart(P, s, k, t)
  {
    if k == 0 {
      tr, s := Start(P, true);
    } else {
      var tr0, s0 := ReachEpoch(P, fences, k - 1);
      var tr1, s1 := FinishAll(P, fences, k - 1, tr0, s0, |P.threads|);
      assert 0 in AllThreads(P);
      forall t | t in AllThreads(P)
        ensures Running(P, s1.ctl, t) && NextCall(P, s1.ctl, t) == Meeting(P)
      {
        assert AtEnd(P, s1, k - 1, t);
      }
      tr, s := Together(P, true, tr1, s1, AllThreads(P));
      forall t | 0 <= t < |P.threads|
        ensures AtStart(P, s, k, t)
      {
        assert AtEnd(P, s1, k - 1, t) && t in AllThreads(P);
      }
    }
  }

  /** From the start of its epoch a thread can run alone up to any call of the epoch. */
  lemma ReachCall(P: Program, fences: nat, k: nat, s: State, e: Ev)
    requires FenceProgram(P, fences) && Shape(P, s) && IsCall(P, e) && Epoch(P, e) == k && AtStart(P, s, k, e.tid)
    requires CallAt(P, e) != Meeting(P)
    ensures s.ctl.pc[e.tid] <= e.pos
    ensures forall i :: s.ctl.pc[e.tid] <= i < e.pos ==> IsFree(P.threads[e.tid].code[i])
    ensures forall i :: s.ctl.pc[e.tid] <= i < e.pos ==> !P.threads[e.tid].code[i].Acquire?
  {
    var code := P.threads[e.tid].code;
    assert FenceCode(code, Meeting(P));
    if e.pos < s.ctl.pc[e.tid] {
      CountMonotone(code, Meeting(P), e.pos, s.ctl.pc[e.tid] - 1);
    }
    FreeInside(code, Meeting(P), s.ctl.pc[e.tid], e.pos);
  }

  /** One thread issues at `e`, and another one or the same comes to `f`. */
  lemma OneThenOther(P: Program, tr: seq<Label>, s: State, e: Ev, f: Ev)
    requires OnlySpins(P) && LeadsTo(P, true, tr, s) && s.ctl.held == {} && IsCall(P, e) && IsCall(P, f) && CallAt(P, e).Rma?
    requires DstConflict(P, e, f) || SrcConflict(P, e, f)
    requires s.ctl.pc[e.tid] <= e.pos && s.ctl.pc[f.tid] <= f.pos && (e.tid == f.tid ==> e.pos < f.pos)
    requires forall i :: s.ctl.pc[e.tid] <= i <= e.pos ==> IsFree(P.threads[e.tid].code[i]) && !P.threads[e.tid].code[i].Acquire?
    requires forall i :: s.ctl.pc[f.tid] <= i < f.pos ==> IsFree(P.threads[f.tid].code[i])
    ensures !RaceFree(P, false)
  {
    var tr1, s1 := Solo(P, true, tr, s, e.tid, e.pos + 1);
    var tr2, s2 := Solo(P, true, tr1, s1, f.tid, f.pos);
    Meets(P, tr2, s2, e, f, true);
  }

  /** Two conflicting calls in one epoch meet in some schedule. */
  lemma SameEpochRaces(P: Program, fences: nat, e: Ev, f: Ev)
    requires FenceProgram(P, fences) && OnlySpins(P) && IsCall(P, e) && IsCall(P, f) && CallAt(P, e).Rma?
    requires DstConflict(P, e, f) || SrcConflict(P, e, f)
    requires Epoch(P, e) == Epoch(P, f) && !(e.tid == f.tid && f.pos <= e.pos)
    ensures !RaceFree(P, false)
  {
    var k := Epoch(P, e);
    CountMonotone(P.threads[e.tid].code, Meeting(P), e.pos, |P.threads[e.tid].code|);
    var tr, s := ReachEpoch(P, fences, k);
    ReachCall(P, fences, k, s, e);
    ReachCall(P, fences, k, s, f);
    OneThenOther(P, tr, s, e, f);
  }

  /** MAIN RESULT. For any number of ranks, fences and operations: a fence program is race free, however
      long its operations are delayed, if and only if no two conflicting calls are in one epoch. */
  lemma {:induction false} FenceRaceFreeExactly(P: Program, fences: nat)
    requires FenceProgram(P, fences)
    ensures RaceFree(P, false) <==> EpochsApart(P)
  {
    if EpochsApart(P) {
      EpochsAreSafe(P, fences);
      OrderedIsRaceFree(P);
    } else {
      assert OnlySpins(P);
      var e, f :| IsCall(P, e) && IsCall(P, f) && CallAt(P, e).Rma? && (DstConflict(P, e, f) || SrcConflict(P, e, f))
        && Epoch(P, e) == Epoch(P, f) && !(e.tid == f.tid && f.pos <= e.pos);
      SameEpochRaces(P, fences, e, f);
    }
  }
}
