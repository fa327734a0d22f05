/**
 Programs that have used a slot before the closing exchange: GASPI/sync/009, and one whose last read races.
 */
module UsedSlots {
  import opened Machine
  import opened Refinement
  import opened Ordering
  import opened Separation
  import opened Witness
  import opened Exchange

  const RANKS: set<nat> := {0, 1}
  const WAIT := Close(Origin, OwnQueue(0))

  /** What the two ranks of GASPI/sync/009 run before the exchange (lines 59-73). */
  const NINE: seq<seq<Instr>> := [
    [Barrier(RANKS), Rma(Put, 1, 0, Loc(0, 1), Data(1)), Notify(1, 0, Slot(1, 0), 1), WAIT, WAIT, Barrier(RANKS)],
    [Barrier(RANKS), Await(Slot(1, 0), 1), Load(Data(1)), WAIT, Barrier(RANKS)]
  ]

  lemma NineCalls(e: Ev)
    requires IsCall(Exchanging(NINE), e)
    ensures var i := CallAt(Exchanging(NINE), e);
            && !i.Branch? && !i.Store? && !i.Add? && (i.Rma? ==> e == Ev(0, 1))
            && (i == Load(Data(1)) ==> e == Ev(1, 2) || e == Ev(1, 9))
            && (i.Notify? && i.slot == Slot(1, 0) ==> e.tid == 0 && e.pos > 1 && i.peer == 1 && i.queue == 0)
  {
    Calls(NINE, e);
    if e.pos < |NINE[e.tid]| {
      var p := e.pos;
      assert p == 0 || p == 1 || p == 2 || p == 3 || p == 4 || p == 5;
    }
  }

  lemma NineSpins()
    ensures OnlySpins(Exchanging(NINE))
  {
    var P := Exchanging(NINE);
    forall t, p | 0 <= t < |P.threads| && 0 <= p < |P.threads[t].code|
      ensures !P.threads[t].code[p].Branch?
    {
      NineCalls(Ev(t, p));
    }
  }

  lemma NineSlots(i: nat, j: nat)
    requires i < 2 && j < 2
    ensures SlotFree(NINE, i, j) <==> !(i == 1 && j == 0)
  {
    if i == 1 && j == 0 {
      assert SetsSlot(NINE[0][2], 1, 0);
    } else {
      forall r, p | 0 <= r < |NINE| && 0 <= p < |NINE[r]|
        ensures !SetsSlot(NINE[r][p], i, j)
      {
        assert p == 0 || p == 1 || p == 2 || p == 3 || p == 4 || p == 5;
      }
    }
  }

  /** The calls of the two ranks, one by one. */
  lemma NineCode()
    ensures var P := Exchanging(NINE);
            && P.threads[0].code == NINE[0] + [Notify(0, 0, Slot(0, 0), 1), Notify(1, 0, Slot(1, 0), 1), Await(Slot(0, 0), 1), Await(Slot(0, 1), 1), Load(Data(0))]
            && P.threads[1].code == NINE[1] + [Notify(0, 0, Slot(0, 1), 1), Notify(1, 0, Slot(1, 1), 1), Await(Slot(1, 0), 1), Await(Slot(1, 1), 1), Load(Data(1))]
  {
  }

  ghost predicate IsSet(s: State, x: Loc) {
    x in s.ctl.slots && s.ctl.slots[x].v == 1
  }

  /** Thread `t` runs on to call `q`, and the notification it sent at call `p` arrives. */
  lemma RunAndDeliver(P: Program, tr: seq<Label>, s: State, t: nat, q: nat, p: nat, x: Loc) returns (tr': seq<Label>, s': State)
    requires LeadsTo(P, true, tr, s) && t < |P.threads| && s.ctl.pc[t] <= p < q <= |P.threads[t].code|
    requires forall i :: s.ctl.pc[t] <= i < q ==> Unblocked(P.threads[t].code[i])
    requires P.threads[t].code[p].Notify? && P.threads[t].code[p].slot == x && P.threads[t].code[p].v == 1
    ensures LeadsTo(P, true, tr', s') && s'.ctl.pc == s.ctl.pc[t := q] && IsSet(s', x)
    ensures forall y :: IsSet(s, y) ==> IsSet(s', y)
  {
    tr', s' := FreeRun(P, tr, s, t, q);
    assert HasNote(s', x, 1);
    var n :| n in s'.ctl.notes && n.slot == x && n.v == 1;
    tr', s' := Arrives(P, tr', s', n);
  }

  /** The wait of rank 1 inside its own calls returns; rank 0 has run its own calls up to the barrier. */
  lemma NineWaited() returns (tr: seq<Label>, s: State)
    ensures LeadsTo(Exchanging(NINE), true, tr, s) && s.ctl.pc == [5, 2] && IsSet(s, Slot(1, 0))
  {
    var P := Exchanging(NINE);
    NineCode();
    tr, s := Start(P, true);
    tr, s := Together(P, true, tr, s, RANKS);
    tr, s := RunAndDeliver(P, tr, s, 0, 5, 2, Slot(1, 0));
    tr, s := Awaits(P, tr, s, 1);
  }

  lemma NineUpToExchange() returns (tr: seq<Label>, s: State)
    ensures LeadsTo(Exchanging(NINE), true, tr, s) && s.ctl.pc == [6, 5] && IsSet(s, Slot(1, 0))
  {
    var P := Exchanging(NINE);
    NineCode();
    tr, s := NineWaited();
    tr, s := FreeRun(P, tr, s, 1, 4);
    tr, s := Together(P, true, tr, s, RANKS);
  }

  /** After the own calls of 009 rank 1 comes to its last read while rank 0 has not yet notified it. */
  lemma NineMisleads()
    ensures !Informed(NINE, 1, 0)
  {
    var P := Exchanging(NINE);
    NineCode();
    var tr, s := NineUpToExchange();
    tr, s := RunAndDeliver(P, tr, s, 1, 7, 6, Slot(1, 1));
    tr, s := Awaits(P, tr, s, 1);
    tr, s := Awaits(P, tr, s, 1);
    assert Look(tr);
    var dt := ImmediateIsDelayed(P, tr);
    assert Ran(P, false, dt) && After(P, false, dt) == s;
    assert Reached(s.ctl, ReadAt(NINE, 1)) && !Passed(s.ctl, NotifyAt(NINE, 0, 1));
  }

  /** MAIN RESULT. In GASPI/sync/009 the exchange tells rank `i` about rank `j` in every case but one: slot
      0 of rank 1 still holds the notification that came with the write. */
  lemma {:induction false} NineExactly(i: nat, j: nat)
    requires i < 2 && j < 2
    ensures Informed(NINE, i, j) <==> !(i == 1 && j == 0)
  {
    if i == 1 && j == 0 {
      NineMisleads();
    } else {
      NineSpins();
      NineSlots(i, j);
      SelfOrFreeInforms(NINE, i, j);
    }
  }

  lemma NineApart(e: Ev, f: Ev)
    requires IsCall(Exchanging(NINE), e) && IsCall(Exchanging(NINE), f) && CallAt(Exchanging(NINE), e).Rma?
    ensures PairSafe(Exchanging(NINE), e, f)
  {
    var P, w := Exchanging(NINE), Ev(1, 1);
    NineCode();
    NineCalls(e);
    NineCalls(f);
    assert CallAt(P, w) == Await(Slot(1, 0), 1);
    forall n | Notifier(P, n, w)
      ensures n.tid == 0 && n.pos > 1 && CallAt(P, n).peer == 1 && CallAt(P, n).queue == 0
    {
      NineCalls(n);
    }
    assert Carries(P, e, w);
    if DstConflict(P, e, f) && f.tid == 1 {
      assert Before(P, w, f);
      assert NotifiedBetween(P, e, f);
    }
  }

  /** Its last read is safe all the same, because the notification that came with the write ordered it
      before the exchange. */
  lemma NineRaceFree()
    ensures RaceFree(Exchanging(NINE), true) && RaceFree(Exchanging(NINE), false)
  {
    NineSpins();
    forall e, f | IsCall(Exchanging(NINE), e) && IsCall(Exchanging(NINE), f) && CallAt(Exchanging(NINE), e).Rma?
      ensures PairSafe(Exchanging(NINE), e, f)
    {
      NineApart(e, f);
    }
    OrderedIsRaceFree(Exchanging(NINE));
  }

  /** Rank 0 has set the slot before it writes. */
  const EARLY: seq<seq<Instr>> := [[Notify(1, 0, Slot(1, 0), 1), Rma(Put, 1, 0, Loc(0, 1), Data(1))], []]

  lemma EarlyCode()
    ensures var P := Exchanging(EARLY);
            && P.threads[0].code == EARLY[0] + [Notify(0, 0, Slot(0, 0), 1), Notify(1, 0, Slot(1, 0), 1), Await(Slot(0, 0), 1), Await(Slot(0, 1), 1), Load(Data(0))]
            && P.threads[1].code == [Notify(0, 0, Slot(0, 1), 1), Notify(1, 0, Slot(1, 1), 1), Await(Slot(1, 0), 1), Await(Slot(1, 1), 1), Load(Data(1))]
  {
  }

  /** Rank 1 comes to its last read while rank 0 has not yet written. */
  lemma EarlyLastRead() returns (tr: seq<Label>, s: State)
    ensures LeadsTo(Exchanging(EARLY), true, tr, s) && s.ctl.pc == [1, 4]
  {
    var P := Exchanging(EARLY);
    EarlyCode();
    tr, s := Start(P, true);
    tr, s := RunAndDeliver(P, tr, s, 0, 1, 0, Slot(1, 0));
    tr, s := RunAndDeliver(P, tr, s, 1, 2, 1, Slot(1, 1));
    tr, s := Awaits(P, tr, s, 1);
    tr, s := Awaits(P, tr, s, 1);
  }

  /** A used slot can make the last read race: the exchange lets rank 1 through before the write is even
      issued. */
  lemma EarlyNotificationRaces()
    ensures !RaceFree(Exchanging(EARLY), true) && !RaceFree(Exchanging(EARLY), false)
  {
    var P := Exchanging(EARLY);
    EarlyCode();
    var tr, s := EarlyLastRead();
    Extend(P, true, tr, s, Go(0));
    NowOpen(P, true, s, 0);
    MeetsLoad(P, tr + [Go(0)], Next(P, true, s, Go(0)).value, Ev(0, 1), Ev(1, 4), true);
  }
}
