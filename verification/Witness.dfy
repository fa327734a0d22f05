/**
 Building schedules: how a race is reached.
 */
module Witness {
  import opened Machine
  import opened Refinement
  import opened Ordering
  import opened Separation

  predicate Look(tr: seq<Label>) {
    true
  }

  /** Schedule `tr` leads to state `s`. The definition is used only where `Look(tr)` is mentioned, which
      keeps it out of proofs that just chain schedules. */
  ghost predicate LeadsTo(P: Program, imm: bool, tr: seq<Label>, s: State) {
    Shape(P, s) && forall u {:trigger Look(u)} :: u == tr ==> Exec(P, imm, u) == Some(s)
  }

  predicate OpenAt(P: Program, s: State, e: Ev, both: bool, k: nat)
    requires IsCall(P, e)
  {
    k < |s.ops| && FromCall(s.ops[k], e) && (both ==> s.ops[k].srcOpen) && s.ops[k].dstOpen && CallAt(P, e).Rma?
    && s.ops[k].kind == CallAt(P, e).kind && s.ops[k].src == CallAt(P, e).src && s.ops[k].dst == CallAt(P, e).dst
  }

  /** No completing call has covered the destination (and source, if `both`) of the operation issued at `e`. */
  ghost predicate IsOpen(P: Program, s: State, e: Ev, both: bool)
    requires IsCall(P, e)
  {
    exists k: nat :: OpenAt(P, s, e, both, k)
  }

  /** Calls that never wait for another thread. */
  predicate IsFree(i: Instr) {
    !i.Barrier? && !i.Recv? && !i.Await? && !i.Branch? && !i.Close?
  }

  predicate NotStored(code: seq<Instr>, x: Loc, lo: nat, hi: nat) {
    forall i :: lo <= i < hi && i < |code| ==> !((code[i].Store? || code[i].Add?) && code[i].x == x)
  }

  lemma Extend(P: Program, imm: bool, tr: seq<Label>, s: State, l: Label)
    requires LeadsTo(P, imm, tr, s) && Next(P, imm, s, l).Some?
    ensures LeadsTo(P, imm, tr + [l], Next(P, imm, s, l).value)
  {
    assert Look(tr) && (tr + [l])[..|tr|] == tr;
    assert Exec(P, imm, tr + [l]) == Next(P, imm, s, l);
  }

  lemma StillOpen(P: Program, imm: bool, s: State, l: Label, e: Ev, both: bool)
    requires Shape(P, s) && Next(P, imm, s, l).Some? && IsCall(P, e) && IsOpen(P, s, e, both)
    requires l.Meet? || (l.Go? && !NextCall(P, s.ctl, l.t).Close?)
    ensures IsOpen(P, Next(P, imm, s, l).value, e, both)
  {
    var k: nat :| OpenAt(P, s, e, both, k);
    assert Apply(P, s, l).ops[k] == s.ops[k];
    assert OpenAt(P, Next(P, imm, s, l).value, e, both, k);
  }

  /** Completing the origin of a put leaves its target open. */
  lemma TargetStillOpen(P: Program, imm: bool, s: State, t: nat, e: Ev)
    requires Shape(P, s) && Next(P, imm, s, Go(t)).Some? && IsCall(P, e) && IsOpen(P, s, e, false)
    requires NextCall(P, s.ctl, t).Close? && NextCall(P, s.ctl, t).side == Origin && CallAt(P, e).Rma? && CallAt(P, e).kind != Get
    ensures IsOpen(P, Next(P, imm, s, Go(t)).value, e, false)
  {
    var k: nat :| OpenAt(P, s, e, false, k);
    assert OpenAt(P, Next(P, imm, s, Go(t)).value, e, false, k);
  }

  /** Without delays a call that completes origins never has to wait, and leaves the target of a put open. */
  lemma ClosesOrigin(P: Program, tr: seq<Label>, s: State, t: nat, e: Ev) returns (tr': seq<Label>, s': State)
    requires LeadsTo(P, true, tr, s) && Running(P, s.ctl, t) && NextCall(P, s.ctl, t).Close? && NextCall(P, s.ctl, t).side == Origin
    requires IsCall(P, e) && IsOpen(P, s, e, true) && CallAt(P, e).Rma? && CallAt(P, e).kind != Get
    ensures LeadsTo(P, true, tr', s') && s'.ctl.pc == s.ctl.pc[t := s.ctl.pc[t] + 1] && s'.ctl.held == s.ctl.held
    ensures IsOpen(P, s', e, false)
  {
    assert Look(tr);
    ImmediateSettled(P, tr);
    Extend(P, true, tr, s, Go(t));
    var k: nat :| OpenAt(P, s, e, true, k);
    assert OpenAt(P, s, e, false, k);
    TargetStillOpen(P, true, s, t, e);
    tr', s' := tr + [Go(t)], Next(P, true, s, Go(t)).value;
  }

  lemma NowOpen(P: Program, imm: bool, s: State, t: nat)
    requires Shape(P, s) && Running(P, s.ctl, t) && NextCall(P, s.ctl, t).Rma? && Next(P, imm, s, Go(t)).Some?
    ensures IsOpen(P, Next(P, imm, s, Go(t)).value, Ev(t, s.ctl.pc[t]), true)
  {
    if imm {
      IssueNow(P, s, t);
    }
    assert OpenAt(P, Next(P, imm, s, Go(t)).value, Ev(t, s.ctl.pc[t]), true, |s.ops|);
  }

  lemma Start(P: Program, imm: bool) returns (tr: seq<Label>, s: State)
    ensures tr == [] && LeadsTo(P, imm, tr, s) && s.ctl.held == {} && s.mem == P.mem && s.obs == []
    ensures forall t :: 0 <= t < |P.threads| ==> s.ctl.pc[t] == 0
  {
    tr, s := [], Init(P);
    assert Exec(P, imm, tr) == Some(s);
  }

  /** Thread `t` runs alone up to call `q`: no completing call, nothing to wait for, no foreign lock. In
      the delayed machine only its own stores change memory. */
  lemma {:induction false} Solo(P: Program, imm: bool, tr: seq<Label>, s: State, t: nat, q: nat) returns (tr': seq<Label>, s': State)
    requires LeadsTo(P, imm, tr, s) && t < |P.threads| && s.ctl.pc[t] <= q <= |P.threads[t].code|
    requires forall i :: s.ctl.pc[t] <= i < q ==> IsFree(P.threads[t].code[i])
    requires forall h :: h in s.ctl.held ==> h.tid == t
    ensures LeadsTo(P, imm, tr', s') && s'.ctl.pc == s.ctl.pc[t := q] && s'.ctl.slots == s.ctl.slots && s.ctl.log <= s'.ctl.log
    ensures forall h :: h in s'.ctl.held ==> h.tid == t
    ensures (forall i :: s.ctl.pc[t] <= i < q ==> !P.threads[t].code[i].Acquire?) && s.ctl.held == {} ==> s'.ctl.held == {}
    ensures forall e, both :: IsCall(P, e) && IsOpen(P, s, e, both) ==> IsOpen(P, s', e, both)
    ensures q > s.ctl.pc[t] && P.threads[t].code[q - 1].Rma? ==> IsOpen(P, s', Ev(t, q - 1), true)
    ensures q > s.ctl.pc[t] && P.threads[t].code[q - 1].Store? ==> At(s'.mem, P.threads[t].code[q - 1].x) == P.threads[t].code[q - 1].v
    ensures !imm ==> forall x :: NotStored(P.threads[t].code, x, s.ctl.pc[t], q) ==> At(s'.mem, x) == At(s.mem, x)
    decreases q
  {
    if q == s.ctl.pc[t] {
      tr', s' := tr, s;
    } else {
      var tr1, s1 := Solo(P, imm, tr, s, t, q - 1);
      assert IsFree(NextCall(P, s1.ctl, t));
      Extend(P, imm, tr1, s1, Go(t));
      tr', s' := tr1 + [Go(t)], Next(P, imm, s1, Go(t)).value;
      forall e, both | IsCall(P, e) && IsOpen(P, s, e, both)
        ensures IsOpen(P, s', e, both)
      {
        StillOpen(P, imm, s1, Go(t), e, both);
      }
      if P.threads[t].code[q - 1].Rma? {
        NowOpen(P, imm, s1, t);
      }
    }
  }

  /** Without delays a completing call never has to wait. */
  lemma Closes(P: Program, tr: seq<Label>, s: State, t: nat) returns (tr': seq<Label>, s': State)
    requires LeadsTo(P, true, tr, s) && Running(P, s.ctl, t) && NextCall(P, s.ctl, t).Close?
    ensures LeadsTo(P, true, tr', s') && s'.ctl.pc == s.ctl.pc[t := s.ctl.pc[t] + 1] && s'.ctl.held == s.ctl.held
    ensures s.ctl.log <= s'.ctl.log && s'.mem == s.mem
  {
    assert Look(tr);
    ImmediateSettled(P, tr);
    Extend(P, true, tr, s, Go(t));
    tr', s' := tr + [Go(t)], Next(P, true, s, Go(t)).value;
  }

  /** The members of a barrier leave it together. */
  lemma Together(P: Program, imm: bool, tr: seq<Label>, s: State, g: set<nat>) returns (tr': seq<Label>, s': State)
    requires LeadsTo(P, imm, tr, s) && Enabled(P, s, Meet(g))
    ensures LeadsTo(P, imm, tr', s') && s'.ctl.pc == MeetPc(s.ctl.pc, g) && s'.ctl.held == s.ctl.held && s'.mem == s.mem
    ensures s'.ctl.slots == s.ctl.slots && s'.ctl.notes == s.ctl.notes
    ensures forall e, both :: IsCall(P, e) && IsOpen(P, s, e, both) ==> IsOpen(P, s', e, both)
  {
    Extend(P, imm, tr, s, Meet(g));
    tr', s' := tr + [Meet(g)], Next(P, imm, s, Meet(g)).value;
    forall e, both | IsCall(P, e) && IsOpen(P, s, e, both)
      ensures IsOpen(P, s', e, both)
    {
      StillOpen(P, imm, s, Meet(g), e, both);
    }
  }

  /** An open operation and a thread about to touch its cell are a race, delays or not. */
  lemma Meets(P: Program, tr: seq<Label>, s: State, e: Ev, f: Ev, both: bool)
    requires OnlySpins(P) && LeadsTo(P, true, tr, s) && IsCall(P, e) && IsCall(P, f) && IsOpen(P, s, e, both)
    requires s.ctl.pc[f.tid] == f.pos && CallAt(P, e).Rma? && (DstConflict(P, e, f) || (both && SrcConflict(P, e, f)))
    ensures Race(P, s) && !RaceFree(P, true) && !RaceFree(P, false)
  {
    var k: nat :| OpenAt(P, s, e, both, k);
    assert Look(tr) && Ran(P, true, tr);
    Issuers(P, true, tr);
    Batches(P, true, tr, f.tid);
    assert Issuer(P, s.ctl, s.ops[k]);
    assert RaceAt(P, s, f.tid, k);
    RaceFreeEquivalence(P);
  }

  /** The same for a load, in programs with any branches. */
  lemma MeetsLoad(P: Program, tr: seq<Label>, s: State, e: Ev, f: Ev, both: bool)
    requires LeadsTo(P, true, tr, s) && IsCall(P, e) && IsCall(P, f) && IsOpen(P, s, e, both) && s.ctl.pc[f.tid] == f.pos
    requires CallAt(P, e).Rma? && CallAt(P, f) == Load(CallAt(P, e).dst)
    ensures Race(P, s) && !RaceFree(P, true) && !RaceFree(P, false)
  {
    var k: nat :| OpenAt(P, s, e, both, k);
    assert Look(tr) && RaceAt(P, s, f.tid, k);
    RaceFreeEquivalence(P);
  }

  /** The next call of thread `t` is a load, and it returns what memory holds. */
  lemma Loads(P: Program, imm: bool, tr: seq<Label>, s: State, t: nat) returns (tr': seq<Label>)
    requires LeadsTo(P, imm, tr, s) && Running(P, s.ctl, t) && NextCall(P, s.ctl, t).Load?
    ensures Exec(P, imm, tr').Some?
    ensures Obs(t, s.ctl.pc[t], At(s.mem, NextCall(P, s.ctl, t).x)) in Exec(P, imm, tr').value.obs
  {
    Extend(P, imm, tr, s, Go(t));
    tr' := tr + [Go(t)];
    assert Look(tr');
  }

  /** Thread `t` posts a notification. */
  lemma Sends(P: Program, tr: seq<Label>, s: State, t: nat) returns (tr': seq<Label>, s': State, n: Note)
    requires LeadsTo(P, true, tr, s) && Running(P, s.ctl, t) && NextCall(P, s.ctl, t).Notify?
    ensures LeadsTo(P, true, tr', s') && s'.ctl.pc == s.ctl.pc[t := s.ctl.pc[t] + 1] && s'.ctl.slots == s.ctl.slots
    ensures s'.ctl.notes == s.ctl.notes + {n} && n.slot == NextCall(P, s.ctl, t).slot && n.v == NextCall(P, s.ctl, t).v
    ensures s'.ctl.held == s.ctl.held
  {
    Extend(P, true, tr, s, Go(t));
    tr', s' := tr + [Go(t)], Next(P, true, s, Go(t)).value;
    var i := NextCall(P, s.ctl, t);
    n := Note(t, s.ctl.pc[t], s.ctl.clock, P.threads[t].rank, i.peer, i.queue, i.slot, i.v);
  }

  /** A notification arrives. */
  lemma Arrives(P: Program, tr: seq<Label>, s: State, n: Note) returns (tr': seq<Label>, s': State)
    requires LeadsTo(P, true, tr, s) && n in s.ctl.notes
    ensures LeadsTo(P, true, tr', s') && s'.ctl.pc == s.ctl.pc && s'.ctl.slots == s.ctl.slots[n.slot := n]
    ensures s'.ctl.notes == s.ctl.notes - {n} && s'.ctl.held == s.ctl.held
  {
    assert Look(tr);
    ImmediateSettled(P, tr);
    Extend(P, true, tr, s, Deliver(n));
    tr', s' := tr + [Deliver(n)], Next(P, true, s, Deliver(n)).value;
  }

  /** Thread `t` finds the slot it waits for set. */
  lemma Awaits(P: Program, tr: seq<Label>, s: State, t: nat) returns (tr': seq<Label>, s': State)
    requires LeadsTo(P, true, tr, s) && Running(P, s.ctl, t) && NextCall(P, s.ctl, t).Await?
    requires NextCall(P, s.ctl, t).slot in s.ctl.slots && s.ctl.slots[NextCall(P, s.ctl, t).slot].v == NextCall(P, s.ctl, t).v
    ensures LeadsTo(P, true, tr', s') && s'.ctl.pc == s.ctl.pc[t := s.ctl.pc[t] + 1] && s'.ctl.slots == s.ctl.slots
    ensures s'.ctl.notes == s.ctl.notes && s'.ctl.held == s.ctl.held
    ensures forall e, both :: IsCall(P, e) && IsOpen(P, s, e, both) ==> IsOpen(P, s', e, both)
  {
    Extend(P, true, tr, s, Go(t));
    tr', s' := tr + [Go(t)], Next(P, true, s, Go(t)).value;
    forall e, both | IsCall(P, e) && IsOpen(P, s, e, both)
      ensures IsOpen(P, s', e, both)
    {
      StillOpen(P, true, s, Go(t), e, both);
    }
  }
}
