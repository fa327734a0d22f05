/**
 The closing notification exchange of the GASPI programs, for any number of ranks
 (GASPI/sync/008:84-91 and the same lines of its siblings).

 Rank `i` first runs some calls of its own, then notifies every rank in slot `i`, then waits for slots
 `0 .. n-1`, then reads its segment. Slots are never reset. So the wait for slot `j` says something about
 rank `j` exactly when no earlier call has set that slot of rank `i` to the value waited for.
 */
module Exchange {
  import opened Machine
  import opened Refinement
  import opened Ordering
  import opened Witness

  function Slot(rank: nat, id: nat): Loc {
    Loc(rank, id)
  }

  function Data(rank: nat): Loc {
    Loc(rank, 0)
  }

  function Notifies(n: nat, i: nat): seq<Instr> {
    seq(n, j requires 0 <= j < n => Notify(j, 0, Slot(j, i), 1))
  }

  function Waits(n: nat, i: nat): seq<Instr> {
    seq(n, j requires 0 <= j < n => Await(Slot(i, j), 1))
  }

  function Code(n: nat, i: nat, own: seq<Instr>): seq<Instr> {
    own + Notifies(n, i) + Waits(n, i) + [Load(Data(i))]
  }

  /** `own[i]` is what rank `i` runs before the exchange. */
  function Exchanging(own: seq<seq<Instr>>): Program {
    Program(seq(|own|, i requires 0 <= i < |own| => Thread(i, Code(|own|, i, own[i]))), map[])
  }

  /** No own call of any rank sets slot `j` of rank `i` to the value the exchange waits for. */
  predicate SlotFree(own: seq<seq<Instr>>, i: nat, j: nat) {
    forall r, p :: 0 <= r < |own| && 0 <= p < |own[r]| ==> !SetsSlot(own[r][p], i, j)
  }

  predicate SetsSlot(c: Instr, i: nat, j: nat) {
    c.Notify? && c.slot == Slot(i, j) && c.v == 1
  }

  /** Rank `j`'s notification to rank `i`, and rank `i`'s wait for it. */
  function NotifyAt(own: seq<seq<Instr>>, j: nat, i: nat): Ev
    requires j < |own|
  {
    Ev(j, |own[j]| + i)
  }

  function WaitAt(own: seq<seq<Instr>>, i: nat, j: nat): Ev
    requires i < |own|
  {
    Ev(i, |own[i]| + |own| + j)
  }

  /** The last read, after the waiting loop. */
  function ReadAt(own: seq<seq<Instr>>, i: nat): Ev
    requires i < |own|
  {
    Ev(i, |own[i]| + 2 * |own|)
  }

  lemma Calls(own: seq<seq<Instr>>, e: Ev)
    requires IsCall(Exchanging(own), e)
    ensures e.tid < |own|
    ensures var n, q := |own|, |own[e.tid]|;
            CallAt(Exchanging(own), e) ==
              if e.pos < q then own[e.tid][e.pos]
              else if e.pos < q + n then Notify(e.pos - q, 0, Slot(e.pos - q, e.tid), 1)
              else if e.pos < q + 2 * n then Await(Slot(e.tid, e.pos - q - n), 1)
              else Load(Data(e.tid))
  {
  }

  // ----- an unused slot

  lemma OneNotifier(own: seq<seq<Instr>>, i: nat, j: nat)
    requires i < |own| && j < |own| && SlotFree(own, i, j)
    ensures var P := Exchanging(own);
            && IsCall(P, WaitAt(own, i, j)) && CallAt(P, WaitAt(own, i, j)) == Await(Slot(i, j), 1)
            && forall n :: Notifier(P, n, WaitAt(own, i, j)) ==> n == NotifyAt(own, j, i)
  {
    var P := Exchanging(own);
    Calls(own, WaitAt(own, i, j));
    forall n | Notifier(P, n, WaitAt(own, i, j))
      ensures n == NotifyAt(own, j, i)
    {
      Calls(own, n);
      assert n.pos >= |own[n.tid]|;
    }
  }

  predicate PostedBy(own: seq<seq<Instr>>, o: Op, j: nat, i: nat)
    requires j < |own|
  {
    o.tid == j && o.pos < |own[j]| && o.peer == i && o.queue == 0
  }

  /** MAIN RESULT. In every run with or without delays, when rank `i` has left the waiting loop and no own
      call had set its slot `j`, then rank `j` has sent its notification to `i`, and every write `j` posted
      to `i` before the exchange has landed. */
  lemma {:induction false} ExchangeCompletes(own: seq<seq<Instr>>, imm: bool, tr: seq<Label>, i: nat, j: nat)
    requires OnlySpins(Exchanging(own)) && i < |own| && j < |own| && SlotFree(own, i, j)
    requires Ran(Exchanging(own), imm, tr) && Reached(After(Exchanging(own), imm, tr).ctl, ReadAt(own, i))
    ensures var s := After(Exchanging(own), imm, tr);
            && Passed(s.ctl, NotifyAt(own, j, i))
            && forall k :: 0 <= k < |s.ops| && PostedBy(own, s.ops[k], j, i) ==> s.ops[k].phase == Done && Closed(s.ops[k], true)
  {
    var P, n, w := Exchanging(own), NotifyAt(own, j, i), WaitAt(own, i, j);
    var s := After(P, imm, tr);
    OneNotifier(own, i, j);
    NotifyBefore(P, n, w, ReadAt(own, i));
    Issuers(P, imm, tr);
    ClosedIsFinished(P, imm, tr);
    forall k | 0 <= k < |s.ops| && PostedBy(own, s.ops[k], j, i)
      ensures s.ops[k].phase == Done && Closed(s.ops[k], true)
    {
      var e := Ev(j, s.ops[k].pos);
      assert Issuer(P, s.ctl, s.ops[k]) && Tracked(s.ops[k]);
      Calls(own, n);
      assert Carries(P, e, w);
      ClosedByNote(P, imm, tr, e, w);
      assert FromCall(s.ops[k], e);
    }
  }

  /** Hence the last read meets no operation in flight, if everything aimed at the segment went through
      queue 0 of the exchange, and the slots of those who aimed at it were unused. */
  lemma {:induction false} LastReadIsSafe(own: seq<seq<Instr>>, imm: bool, tr: seq<Label>, i: nat, k: nat)
    requires OnlySpins(Exchanging(own)) && i < |own|
    requires forall j, p :: 0 <= j < |own| && 0 <= p < |own[j]| && own[j][p].Rma? && own[j][p].dst == Data(i) ==>
               own[j][p].peer == i && own[j][p].queue == 0 && SlotFree(own, i, j)
    requires Ran(Exchanging(own), imm, tr) && After(Exchanging(own), imm, tr).ctl.pc[i] == ReadAt(own, i).pos
    ensures !RaceAt(Exchanging(own), After(Exchanging(own), imm, tr), i, k)
  {
    var P, s := Exchanging(own), After(Exchanging(own), imm, tr);
    Calls(own, ReadAt(own, i));
    if k < |s.ops| && s.ops[k].dst == Data(i) {
      var o := s.ops[k];
      Issuers(P, imm, tr);
      assert Issuer(P, s.ctl, o);
      Calls(own, Ev(o.tid, o.pos));
      ExchangeCompletes(own, imm, tr, i, o.tid);
      assert PostedBy(own, o, o.tid, i);
    }
  }

  // ----- a used slot

  /** Calls that never wait. */
  predicate Unblocked(c: Instr) {
    !c.Barrier? && !c.Recv? && !c.Acquire? && !c.Await? && !c.Branch?
  }

  ghost predicate HasNote(s: State, x: Loc, v: int) {
    exists n :: n in s.ctl.notes && n.slot == x && n.v == v
  }

  lemma FreeNotes(P: Program, s: State, t: nat)
    requires Shape(P, s) && Running(P, s.ctl, t) && Unblocked(NextCall(P, s.ctl, t)) && Next(P, true, s, Go(t)).Some?
    ensures var i, s' := NextCall(P, s.ctl, t), Next(P, true, s, Go(t)).value;
            && s.ctl.notes <= s'.ctl.notes && (i.Notify? ==> HasNote(s', i.slot, i.v))
  {
    var i, s' := NextCall(P, s.ctl, t), Next(P, true, s, Go(t)).value;
    if i.Notify? {
      assert Note(t, s.ctl.pc[t], s.ctl.clock, P.threads[t].rank, i.peer, i.queue, i.slot, i.v) in s'.ctl.notes;
    }
  }

  lemma FreeStep(P: Program, tr: seq<Label>, s: State, t: nat) returns (tr': seq<Label>, s': State)
    requires LeadsTo(P, true, tr, s) && Running(P, s.ctl, t) && Unblocked(NextCall(P, s.ctl, t))
    ensures LeadsTo(P, true, tr', s') && s'.ctl.pc == s.ctl.pc[t := s.ctl.pc[t] + 1] && s'.ctl.slots == s.ctl.slots
    ensures s.ctl.notes <= s'.ctl.notes
    ensures var i := NextCall(P, s.ctl, t); i.Notify? ==> HasNote(s', i.slot, i.v)
  {
    assert Look(tr);
    ImmediateSettled(P, tr);
    Extend(P, true, tr, s, Go(t));
    FreeNotes(P, s, t);
    tr', s' := tr + [Go(t)], Next(P, true, s, Go(t)).value;
  }

  /** Thread `t` runs alone over calls that never wait; what it sends is under way afterwards. */
  lemma {:induction false} FreeRun(P: Program, tr: seq<Label>, s: State, t: nat, q: nat) returns (tr': seq<Label>, s': State)
    requires LeadsTo(P, true, tr, s) && t < |P.threads| && s.ctl.pc[t] <= q <= |P.threads[t].code|
    requires forall p :: s.ctl.pc[t] <= p < q ==> Unblocked(P.threads[t].code[p])
    ensures LeadsTo(P, true, tr', s') && s'.ctl.pc == s.ctl.pc[t := q] && s'.ctl.slots == s.ctl.slots && s.ctl.notes <= s'.ctl.notes
    ensures forall p :: s.ctl.pc[t] <= p < q && P.threads[t].code[p].Notify? ==> HasNote(s', P.threads[t].code[p].slot, P.threads[t].code[p].v)
    decreases q
  {
    if q == s.ctl.pc[t] {
      tr', s' := tr, s;
    } else {
      var tr1, s1 := FreeRun(P, tr, s, t, q - 1);
      tr', s' := FreeStep(P, tr1, s1, t);
      forall p | s.ctl.pc[t] <= p < q && P.threads[t].code[p].Notify?
        ensures HasNote(s', P.threads[t].code[p].slot, P.threads[t].code[p].v)
      {
        if p < q - 1 {
          NoteStays(s1, s', P.threads[t].code[p].slot, P.threads[t].code[p].v);
        }
      }
    }
  }

  lemma NoteStays(s: State, s': State, x: Loc, v: int)
    requires s.ctl.notes <= s'.ctl.notes && HasNote(s, x, v)
    ensures HasNote(s', x, v)
  {
  }

  predicate AllUnblocked(own: seq<seq<Instr>>) {
    forall r, p :: 0 <= r < |own| && 0 <= p < |own[r]| ==> Unblocked(own[r][p])
  }

  /** Where rank `t` stops: rank `j` before its first notification of the exchange, others after the last. */
  function StopAt(own: seq<seq<Instr>>, j: nat, t: nat): nat
    requires t < |own|
  {
    if t == j then |own[t]| else |own[t]| + |own|
  }

  /** What ranks below `m` have sent of interest to slot `x`. */
  ghost predicate SentBelow(own: seq<seq<Instr>>, j: nat, m: nat, s: State)
    requires m <= |own|
  {
    forall t, p :: 0 <= t < m && 0 <= p < StopAt(own, j, t) && Exchanging(own).threads[t].code[p].Notify? ==>
      HasNote(s, Exchanging(own).threads[t].code[p].slot, Exchanging(own).threads[t].code[p].v)
  }

  lemma {:induction false} AllRun(own: seq<seq<Instr>>, j: nat, m: nat) returns (tr: seq<Label>, s: State)
    requires AllUnblocked(own) && m <= |own|
    ensures LeadsTo(Exchanging(own), true, tr, s) && SentBelow(own, j, m, s)
    ensures forall t :: 0 <= t < |own| ==> s.ctl.pc[t] == if t < m then StopAt(own, j, t) else 0
  {
    var P := Exchanging(own);
    if m == 0 {
      tr, s := Start(P, true);
    } else {
      var t := m - 1;
      var tr0, s0 := AllRun(own, j, t);
      forall p | 0 <= p < StopAt(own, j, t)
        ensures Unblocked(P.threads[t].code[p])
      {
        Calls(own, Ev(t, p));
      }
      tr, s := FreeRun(P, tr0, s0, t, StopAt(own, j, t));
      forall u, p | 0 <= u < m && 0 <= p < StopAt(own, j, u) && P.threads[u].code[p].Notify?
        ensures HasNote(s, P.threads[u].code[p].slot, P.threads[u].code[p].v)
      {
        if u < t {
          NoteStays(s0, s, P.threads[u].code[p].slot, P.threads[u].code[p].v);
        }
      }
    }
  }

  /** The slots of rank `i` below `m` are set, and the others are about to be. */
  ghost predicate SetBelow(own: seq<seq<Instr>>, i: nat, m: nat, s: State) {
    forall k: nat :: k < |own| ==>
      if k < m then Slot(i, k) in s.ctl.slots && s.ctl.slots[Slot(i, k)].v == 1 else HasNote(s, Slot(i, k), 1)
  }

  lemma {:induction false} AllDelivered(own: seq<seq<Instr>>, i: nat, tr0: seq<Label>, s0: State, m: nat) returns (tr: seq<Label>, s: State)
    requires LeadsTo(Exchanging(own), true, tr0, s0) && SetBelow(own, i, 0, s0) && m <= |own|
    ensures LeadsTo(Exchanging(own), true, tr, s) && SetBelow(own, i, m, s) && s.ctl.pc == s0.ctl.pc
  {
    var P := Exchanging(own);
    if m == 0 {
      tr, s := tr0, s0;
    } else {
      tr, s := AllDelivered(own, i, tr0, s0, m - 1);
      assert HasNote(s, Slot(i, m - 1), 1);
      var n :| n in s.ctl.notes && n.slot == Slot(i, m - 1) && n.v == 1;
      var before := s;
      tr, s := Arrives(P, tr, s, n);
      forall k: nat | m <= k < |own|
        ensures HasNote(s, Slot(i, k), 1)
      {
        var o :| o in before.ctl.notes && o.slot == Slot(i, k) && o.v == 1;
        assert o in s.ctl.notes;
      }
    }
  }

  lemma {:induction false} AllAwaited(own: seq<seq<Instr>>, i: nat, tr0: seq<Label>, s0: State, m: nat) returns (tr: seq<Label>, s: State)
    requires LeadsTo(Exchanging(own), true, tr0, s0) && i < |own| && m <= |own| && SetBelow(own, i, |own|, s0)
    requires s0.ctl.pc[i] == |own[i]| + |own|
    ensures LeadsTo(Exchanging(own), true, tr, s) && s.ctl.pc == s0.ctl.pc[i := |own[i]| + |own| + m] && s.ctl.slots == s0.ctl.slots
  {
    var P := Exchanging(own);
    if m == 0 {
      tr, s := tr0, s0;
    } else {
      tr, s := AllAwaited(own, i, tr0, s0, m - 1);
      Calls(own, Ev(i, s.ctl.pc[i]));
      tr, s := Awaits(P, tr, s, i);
    }
  }

  /** In every run, rank `j` has notified rank `i` when `i` comes to its last read. */
  ghost predicate Informed(own: seq<seq<Instr>>, i: nat, j: nat)
    requires i < |own| && j < |own|
  {
    forall tr :: Ran(Exchanging(own), false, tr) && Reached(After(Exchanging(own), false, tr).ctl, ReadAt(own, i)) ==>
      Passed(After(Exchanging(own), false, tr).ctl, NotifyAt(own, j, i))
  }

  lemma NotesForRank(own: seq<seq<Instr>>, i: nat, j: nat, s: State)
    requires i < |own| && j < |own| && !SlotFree(own, i, j) && SentBelow(own, j, |own|, s)
    ensures SetBelow(own, i, 0, s)
  {
    var P := Exchanging(own);
    forall k: nat | k < |own|
      ensures HasNote(s, Slot(i, k), 1)
    {
      var e: Ev;
      if k == j {
        var r, p :| 0 <= r < |own| && 0 <= p < |own[r]| && SetsSlot(own[r][p], i, j);
        e := Ev(r, p);
      } else {
        e := NotifyAt(own, k, i);
      }
      Calls(own, e);
      assert P.threads[e.tid].code[e.pos] == CallAt(P, e) && e.pos < StopAt(own, j, e.tid);
    }
  }

  lemma UsedSlotMisleads(own: seq<seq<Instr>>, i: nat, j: nat)
    requires AllUnblocked(own) && i < |own| && j < |own| && i != j && !SlotFree(own, i, j)
    ensures !Informed(own, i, j)
  {
    var P := Exchanging(own);
    var tr, s := AllRun(own, j, |own|);
    NotesForRank(own, i, j, s);
    tr, s := AllDelivered(own, i, tr, s, |own|);
    tr, s := AllAwaited(own, i, tr, s, |own|);
    assert Look(tr);
    var dt := ImmediateIsDelayed(P, tr);
    assert Ran(P, false, dt) && After(P, false, dt) == s;
    assert s.ctl.pc[j] == |own[j]|;
  }

  lemma SelfOrFreeInforms(own: seq<seq<Instr>>, i: nat, j: nat)
    requires OnlySpins(Exchanging(own)) && i < |own| && j < |own| && (i == j || SlotFree(own, i, j))
    ensures Informed(own, i, j)
  {
    forall tr | Ran(Exchanging(own), false, tr) && Reached(After(Exchanging(own), false, tr).ctl, ReadAt(own, i))
      ensures Passed(After(Exchanging(own), false, tr).ctl, NotifyAt(own, j, i))
    {
      if SlotFree(own, i, j) {
        ExchangeCompletes(own, false, tr, i, j);
      }
    }
  }

  lemma NoBranch(own: seq<seq<Instr>>)
    requires AllUnblocked(own)
    ensures OnlySpins(Exchanging(own))
  {
    var P := Exchanging(own);
    forall t, p | 0 <= t < |P.threads| && 0 <= p < |P.threads[t].code|
      ensures !P.threads[t].code[p].Branch?
    {
      Calls(own, Ev(t, p));
    }
  }

  /** MAIN RESULT. For any own calls that do not wait: at its last read rank `i` can be sure of rank `j`'s
      notification if and only if they are the same rank, or no own call has set slot `j` of rank `i`. */
  lemma {:induction false} InformedExactly(own: seq<seq<Instr>>, i: nat, j: nat)
    requires AllUnblocked(own) && i < |own| && j < |own|
    ensures Informed(own, i, j) <==> i == j || SlotFree(own, i, j)
  {
    if i == j || SlotFree(own, i, j) {
      NoBranch(own);
      SelfOrFreeInforms(own, i, j);
    } else {
      UsedSlotMisleads(own, i, j);
    }
  }
}
