/**
 Empty critical sections as synchronisation: MPIRMA/sync/029.

 Rank 0 puts under the lock of one window and then enters and leaves an empty critical section of a
 second window; rank 1 enters and leaves that section and then loads. Whether the put is ordered before
 the load depends on who enters first, and the lock lets either do so.
 */
module LockOrder {
  import opened Machine
  import opened Refinement
  import opened Ordering
  import opened Witness

  const WIN1 := 1
  const WIN2 := 2
  const CELL := Loc(1, 0)
  const VALUE := Loc(0, 1)

  const PUT := Ev(0, 1)
  const ENTER0 := Ev(0, 4)
  const LEAVE0 := Ev(0, 6)
  const ENTER1 := Ev(1, 0)
  const LOAD := Ev(1, 3)

  function Sections(v: int): Program {
    Program([
      Thread(0, [Acquire(WIN1, true), Rma(Put, 1, 0, VALUE, CELL), Close(Both, OwnTo(1, 0)), Release(WIN1),
                 Acquire(WIN2, true), Close(Both, OwnTo(1, 1)), Release(WIN2)]),
      Thread(1, [Acquire(WIN2, true), Close(Both, OwnTo(1, 1)), Release(WIN2), Load(CELL)])
    ], map[VALUE := v, CELL := 0])
  }

  // ----- happens before, on the log of a run

  /** Program order, or an unlock and a later lock of the same window. */
  predicate Edge(P: Program, log: seq<Ev>, i: nat, j: nat) {
    && i < j < |log| && IsCall(P, log[i]) && IsCall(P, log[j])
    && (log[i].tid == log[j].tid
        || (CallAt(P, log[i]).Release? && CallAt(P, log[j]).Acquire? && CallAt(P, log[i]).lock == CallAt(P, log[j]).lock))
  }

  /** Entry `i` of the log is ordered before entry `j` by a chain of edges. */
  ghost predicate HappensBefore(P: Program, log: seq<Ev>, i: nat, j: nat)
    decreases j
  {
    Edge(P, log, i, j) || exists k: nat :: k < j && HappensBefore(P, log, i, k) && Edge(P, log, k, j)
  }

  predicate Entry(log: seq<Ev>, i: nat, e: Ev) {
    i < |log| && log[i] == e
  }

  /** Entries for `a` and `b` in this order. */
  ghost predicate InOrder(log: seq<Ev>, a: Ev, b: Ev) {
    exists i: nat, j: nat :: i < j && Entry(log, i, a) && Entry(log, j, b)
  }

  /** The run has executed both calls, and `a` happens before `b`. */
  ghost predicate Ordered(P: Program, log: seq<Ev>, a: Ev, b: Ev) {
    exists i: nat, j: nat :: Entry(log, i, a) && Entry(log, j, b) && HappensBefore(P, log, i, j)
  }

  // ----- every run

  /** The log of a run without branches: the calls of each thread up to its program counter, in order. */
  ghost predicate Numbered(pc: seq<nat>, log: seq<Ev>) {
    && (forall i :: 0 <= i < |log| ==> log[i].tid < |pc| && log[i].pos < pc[log[i].tid])
    && (forall i, j :: 0 <= i < j < |log| && log[i].tid == log[j].tid ==> log[i].pos < log[j].pos)
    && (forall e: Ev :: e.tid < |pc| && e.pos < pc[e.tid] ==> e in log)
  }

  lemma NumberedAppend(pc: seq<nat>, log: seq<Ev>, t: nat)
    requires Numbered(pc, log) && t < |pc|
    ensures Numbered(pc[t := pc[t] + 1], log + [Ev(t, pc[t])])
  {
    var log' := log + [Ev(t, pc[t])];
    assert log'[|log|] == Ev(t, pc[t]);
    forall e: Ev | e.tid < |pc| && e.pos < pc[t := pc[t] + 1][e.tid]
      ensures e in log'
    {
      assert e == Ev(t, pc[t]) || e in log;
    }
  }

  lemma EntryOf(log: seq<Ev>, e: Ev) returns (i: nat)
    requires e in log
    ensures Entry(log, i, e)
  {
    var k :| 0 <= k < |log| && log[k] == e;
    i := k;
  }

  lemma EntriesInOrder(pc: seq<nat>, log: seq<Ev>, i: nat, a: Ev, j: nat, b: Ev)
    requires Numbered(pc, log) && Entry(log, i, a) && Entry(log, j, b) && a.tid == b.tid && a.pos < b.pos
    ensures i < j
  {
  }

  function HeldAt(p0: nat, p1: nat): set<Hold> {
    (if 1 <= p0 <= 3 then {Hold(0, WIN1, true)} else if 5 <= p0 <= 6 then {Hold(0, WIN2, true)} else {})
    + (if 1 <= p1 <= 2 then {Hold(1, WIN2, true)} else {})
  }

  ghost predicate LogOk(c: Ctl)
    requires |c.pc| == 2
  {
    c.pc[0] <= 7 && c.pc[1] <= 4 && c.notes == {} && Numbered(c.pc, c.log) && c.held == HeldAt(c.pc[0], c.pc[1])
  }

  /** If rank 0 entered the empty section first then it left it before rank 1 entered. */
  ghost predicate LeftInTime(log: seq<Ev>) {
    forall a: nat, b: nat :: a < b && Entry(log, a, ENTER0) && Entry(log, b, ENTER1) ==>
      exists r: nat :: a < r < b && Entry(log, r, LEAVE0)
  }

  ghost predicate PutOk(v: int, s: State)
    requires Shape(Sections(v), s)
  {
    && |s.ops| == (if s.ctl.pc[0] >= 2 then 1 else 0) && At(s.mem, VALUE) == v
    && (forall k :: 0 <= k < |s.ops| ==>
          (s.ops[k].kind == Put && s.ops[k].src == VALUE && s.ops[k].dst == CELL && s.ops[k].owner == 0 && s.ops[k].peer == 1
          && s.ops[k].queue == 0 && (s.ops[k].phase != Issued ==> s.ops[k].val == v)
          && (s.ops[k].phase == Done ==> At(s.mem, CELL) == v) && (s.ctl.pc[0] >= 3 ==> s.ops[k].phase == Done && !s.ops[k].dstOpen)))
  }

  lemma Known(v: int, s: State, t: nat)
    requires Shape(Sections(v), s) && Running(Sections(v), s.ctl, t)
    ensures var p, i := s.ctl.pc[t], NextCall(Sections(v), s.ctl, t);
            && !i.Barrier? && !i.Branch? && !i.Notify? && !i.Await? && !i.Store? && !i.Add? && t < 2 && p < (if t == 0 then 7 else 4)
            && (i.Rma? ==> t == 0 && p == 1 && i == Rma(Put, 1, 0, VALUE, CELL))
            && (Ev(t, p) == ENTER0 || Ev(t, p) == ENTER1 <==> i == Acquire(WIN2, true))
            && (Ev(t, p) == Ev(0, 2) ==> i == Close(Both, OwnTo(1, 0)))
            && (Ev(t, p) == Ev(0, 0) <==> i == Acquire(WIN1, true)) && (Ev(t, p) == Ev(0, 3) <==> i == Release(WIN1))
            && (Ev(t, p) == LEAVE0 || Ev(t, p) == Ev(1, 2) <==> i == Release(WIN2))
            && (i.Acquire? ==> i.excl && (i.lock == WIN1 || i.lock == WIN2)) && (i.Release? ==> i.lock == WIN1 || i.lock == WIN2)
  {
    var p := s.ctl.pc[t];
    assert p == 0 || p == 1 || p == 2 || p == 3 || p == 4 || p == 5 || p == 6;
  }

  lemma NoMeet(v: int, s: State, g: set<nat>)
    requires Shape(Sections(v), s)
    ensures !Enabled(Sections(v), s, Meet(g))
  {
    forall t | t in g && Running(Sections(v), s.ctl, t)
      ensures !NextCall(Sections(v), s.ctl, t).Barrier?
    {
      Known(v, s, t);
    }
  }

  lemma GoControl(v: int, s: State, t: nat)
    requires Shape(Sections(v), s) && Enabled(Sections(v), s, Go(t))
    ensures t < 2 && s.ctl.pc[t] < (if t == 0 then 7 else 4)
    ensures var c := Apply(Sections(v), s, Go(t)).ctl;
            c.pc == s.ctl.pc[t := s.ctl.pc[t] + 1] && c.log == s.ctl.log + [Ev(t, s.ctl.pc[t])] && c.notes == s.ctl.notes
  {
    Known(v, s, t);
  }

  lemma HeldStep(v: int, s: State, t: nat)
    requires Shape(Sections(v), s) && Enabled(Sections(v), s, Go(t)) && s.ctl.held == HeldAt(s.ctl.pc[0], s.ctl.pc[1])
    ensures var c := Apply(Sections(v), s, Go(t)).ctl; c.held == HeldAt(c.pc[0], c.pc[1])
  {
    Known(v, s, t);
  }

  lemma LogStep(v: int, s: State, l: Label)
    requires Shape(Sections(v), s) && LogOk(s.ctl) && Enabled(Sections(v), s, l)
    ensures LogOk(Apply(Sections(v), s, l).ctl)
  {
    match l {
      case Go(t) =>
        GoControl(v, s, t);
        HeldStep(v, s, t);
        NumberedAppend(s.ctl.pc, s.ctl.log, t);
      case Meet(g) => NoMeet(v, s, g);
      case Deliver(_) =>
      case Fetch(_) =>
      case Land(_) =>
    }
  }

  lemma LeftAppend(log: seq<Ev>, e: Ev)
    requires LeftInTime(log) && (e == ENTER1 && ENTER0 in log ==> LEAVE0 in log)
    requires forall i: nat, j: nat :: Entry(log, i, ENTER0) && Entry(log, j, LEAVE0) ==> i < j
    ensures LeftInTime(log + [e])
  {
    var log' := log + [e];
    forall a: nat, b: nat | a < b && Entry(log', a, ENTER0) && Entry(log', b, ENTER1)
      ensures exists r: nat :: a < r < b && Entry(log', r, LEAVE0)
    {
      assert Entry(log, a, ENTER0);
      var r: nat;
      if b < |log| {
        assert Entry(log, b, ENTER1);
        r :| a < r < b && Entry(log, r, LEAVE0);
      } else {
        r := EntryOf(log, LEAVE0);
      }
      assert Entry(log', r, LEAVE0);
    }
  }

  /** The lock: rank 1 cannot enter between rank 0's entering and leaving. */
  lemma LeftStep(v: int, s: State, l: Label)
    requires Shape(Sections(v), s) && LogOk(s.ctl) && LeftInTime(s.ctl.log) && Enabled(Sections(v), s, l)
    ensures LeftInTime(Apply(Sections(v), s, l).ctl.log)
  {
    if l.Go? {
      Known(v, s, l.t);
      forall i: nat, j: nat | Entry(s.ctl.log, i, ENTER0) && Entry(s.ctl.log, j, LEAVE0)
        ensures i < j
      {
        EntriesInOrder(s.ctl.pc, s.ctl.log, i, ENTER0, j, LEAVE0);
      }
      LeftAppend(s.ctl.log, Ev(l.t, s.ctl.pc[l.t]));
    } else if l.Meet? {
      NoMeet(v, s, l.g);
    }
  }

  lemma PutStep(v: int, s: State, l: Label)
    requires Shape(Sections(v), s) && PutOk(v, s) && LogOk(s.ctl) && Enabled(Sections(v), s, l)
    ensures PutOk(v, Apply(Sections(v), s, l))
  {
    match l {
      case Go(t) => Known(v, s, t);
      case Meet(g) => NoMeet(v, s, g);
      case Deliver(_) =>
      case Fetch(_) =>
      case Land(_) =>
    }
  }

  lemma {:induction false} EveryRun(v: int, tr: seq<Label>)
    requires Exec(Sections(v), false, tr).Some?
    ensures var s := Exec(Sections(v), false, tr).value; LogOk(s.ctl) && LeftInTime(s.ctl.log) && PutOk(v, s)
  {
    if tr != [] {
      var s, l := Exec(Sections(v), false, tr[..|tr| - 1]).value, tr[|tr| - 1];
      EveryRun(v, tr[..|tr| - 1]);
      LogStep(v, s, l);
      LeftStep(v, s, l);
      PutStep(v, s, l);
    }
  }

  // ----- ordered exactly when rank 0 enters first

  /** A chain from rank 0 to rank 1 goes through rank 0 leaving and rank 1 then entering the section. */
  lemma {:induction false} ChainCrosses(v: int, log: seq<Ev>, i: nat, j: nat)
    requires HappensBefore(Sections(v), log, i, j) && i < |log| && j < |log| && log[i].tid == 0 && log[j].tid == 1
    ensures InOrder(log, LEAVE0, ENTER1)
    decreases j
  {
    var P := Sections(v);
    if Edge(P, log, i, j) {
      Crossing(v, log, i, j);
    } else {
      var k: nat :| k < j && HappensBefore(P, log, i, k) && Edge(P, log, k, j);
      if log[k].tid == 1 {
        ChainCrosses(v, log, i, k);
      } else {
        Crossing(v, log, k, j);
      }
    }
  }

  lemma Crossing(v: int, log: seq<Ev>, i: nat, j: nat)
    requires Edge(Sections(v), log, i, j) && log[i].tid == 0 && log[j].tid == 1
    ensures InOrder(log, LEAVE0, ENTER1)
  {
    var p, q := log[i].pos, log[j].pos;
    assert p == 0 || p == 1 || p == 2 || p == 3 || p == 4 || p == 5 || p == 6;
    assert q == 0 || q == 1 || q == 2 || q == 3;
    assert Entry(log, i, LEAVE0) && Entry(log, j, ENTER1);
  }

  lemma ThreeEdges(P: Program, log: seq<Ev>, i: nat, r: nat, b: nat, j: nat)
    requires Edge(P, log, i, r) && Edge(P, log, r, b) && Edge(P, log, b, j)
    ensures HappensBefore(P, log, i, j)
  {
    assert HappensBefore(P, log, i, r);
    assert HappensBefore(P, log, i, b);
  }

  lemma LeftBetween(c: Ctl) returns (r: nat, b: nat)
    requires LeftInTime(c.log) && InOrder(c.log, ENTER0, ENTER1)
    ensures r < b && Entry(c.log, r, LEAVE0) && Entry(c.log, b, ENTER1)
  {
    var a: nat;
    a, b :| a < b && Entry(c.log, a, ENTER0) && Entry(c.log, b, ENTER1);
    r :| a < r < b && Entry(c.log, r, LEAVE0);
  }

  lemma ChainFound(v: int, c: Ctl)
    requires |c.pc| == 2 && LogOk(c) && LeftInTime(c.log) && c.pc[1] == 4 && InOrder(c.log, ENTER0, ENTER1)
    ensures Ordered(Sections(v), c.log, PUT, LOAD)
  {
    var r, b := LeftBetween(c);
    assert c.log[r] == LEAVE0;
    var i := EntryOf(c.log, PUT);
    var j := EntryOf(c.log, LOAD);
    EntriesInOrder(c.pc, c.log, i, PUT, r, LEAVE0);
    EntriesInOrder(c.pc, c.log, b, ENTER1, j, LOAD);
    ThreeEdges(Sections(v), c.log, i, r, b, j);
  }

  lemma EnteredFirst(c: Ctl)
    requires |c.pc| == 2 && LogOk(c) && InOrder(c.log, LEAVE0, ENTER1)
    ensures InOrder(c.log, ENTER0, ENTER1)
  {
    var r: nat, b: nat :| r < b && Entry(c.log, r, LEAVE0) && Entry(c.log, b, ENTER1);
    assert c.log[r] == LEAVE0;
    var a := EntryOf(c.log, ENTER0);
    EntriesInOrder(c.pc, c.log, a, ENTER0, r, LEAVE0);
  }

  lemma LeftFirst(c: Ctl)
    requires |c.pc| == 2 && LogOk(c) && LeftInTime(c.log) && InOrder(c.log, ENTER0, ENTER1)
    ensures c.pc[0] == 7
  {
    var r, b := LeftBetween(c);
    assert c.log[r] == LEAVE0;
  }

  /** MAIN RESULT. In every run of MPIRMA/sync/029 that has executed the load, the put happens before it
      if and only if rank 0 entered the empty section before rank 1 did. */
  lemma {:induction false} PutOrderedExactly(v: int, tr: seq<Label>)
    requires Exec(Sections(v), false, tr).Some? && Exec(Sections(v), false, tr).value.ctl.pc[1] == 4
    ensures var log := Exec(Sections(v), false, tr).value.ctl.log; Ordered(Sections(v), log, PUT, LOAD) <==> InOrder(log, ENTER0, ENTER1)
  {
    EveryRun(v, tr);
    OrderedExactly(v, Exec(Sections(v), false, tr).value.ctl);
  }

  lemma OrderedExactly(v: int, c: Ctl)
    requires |c.pc| == 2 && LogOk(c) && LeftInTime(c.log) && c.pc[1] == 4
    ensures Ordered(Sections(v), c.log, PUT, LOAD) <==> InOrder(c.log, ENTER0, ENTER1)
  {
    if Ordered(Sections(v), c.log, PUT, LOAD) {
      var i: nat, j: nat :| Entry(c.log, i, PUT) && Entry(c.log, j, LOAD) && HappensBefore(Sections(v), c.log, i, j);
      ChainCrosses(v, c.log, i, j);
      EnteredFirst(c);
    }
    if InOrder(c.log, ENTER0, ENTER1) {
      ChainFound(v, c);
    }
  }

  /** What the order is good for: once both have entered, rank 0 first, the put is complete and the cell
      holds the value put. */
  lemma {:induction false} EnteredFirstMeansComplete(v: int, tr: seq<Label>)
    requires Exec(Sections(v), false, tr).Some? && InOrder(Exec(Sections(v), false, tr).value.ctl.log, ENTER0, ENTER1)
    ensures var s := Exec(Sections(v), false, tr).value;
            At(s.mem, CELL) == v && forall k :: 0 <= k < |s.ops| ==> s.ops[k].phase == Done && !s.ops[k].dstOpen
  {
    EveryRun(v, tr);
    var s := Exec(Sections(v), false, tr).value;
    LeftFirst(s.ctl);
    assert s.ops[0].phase == Done;
  }

  // ----- both orders are reachable

  ghost predicate Reaches(v: int, tr: seq<Label>, zeroFirst: bool) {
    && Exec(Sections(v), false, tr).Some? && Exec(Sections(v), false, tr).value.ctl.pc == [7, 4]
    && (InOrder(Exec(Sections(v), false, tr).value.ctl.log, ENTER0, ENTER1) <==> zeroFirst)
  }

  lemma Rank0Alone(v: int, tr0: seq<Label>, s0: State) returns (tr: seq<Label>, s: State)
    requires LeadsTo(Sections(v), true, tr0, s0) && s0.ctl.pc[0] == 0 && s0.ctl.held == {}
    ensures LeadsTo(Sections(v), true, tr, s) && s.ctl.pc == s0.ctl.pc[0 := 7] && s0.ctl.log <= s.ctl.log
  {
    var P := Sections(v);
    tr, s := Solo(P, true, tr0, s0, 0, 2);
    tr, s := Closes(P, tr, s, 0);
    tr, s := Solo(P, true, tr, s, 0, 5);
    tr, s := Closes(P, tr, s, 0);
    tr, s := Solo(P, true, tr, s, 0, 7);
  }

  lemma Rank1Alone(v: int, tr0: seq<Label>, s0: State) returns (tr: seq<Label>, s: State)
    requires LeadsTo(Sections(v), true, tr0, s0) && s0.ctl.pc[1] == 0 && s0.ctl.held == {}
    ensures LeadsTo(Sections(v), true, tr, s) && s.ctl.pc == s0.ctl.pc[1 := 4] && s0.ctl.log <= s.ctl.log
  {
    var P := Sections(v);
    tr, s := Solo(P, true, tr0, s0, 1, 1);
    tr, s := Closes(P, tr, s, 1);
    tr, s := Solo(P, true, tr, s, 1, 4);
  }

  lemma LogOf(v: int, tr: seq<Label>, s: State)
    requires LeadsTo(Sections(v), true, tr, s)
    ensures LogOk(s.ctl) && LeftInTime(s.ctl.log)
  {
    assert Look(tr);
    var dt := ImmediateIsDelayed(Sections(v), tr);
    EveryRun(v, dt);
  }

  lemma FirstInOrder(c1: Ctl, c2: Ctl, a: Ev, b: Ev)
    requires |c1.pc| == |c2.pc| == 2 && LogOk(c1) && LogOk(c2) && c1.log <= c2.log
    requires a.tid < 2 && b.tid < 2 && a.pos < c1.pc[a.tid] && c1.pc[b.tid] <= b.pos < c2.pc[b.tid]
    ensures InOrder(c2.log, a, b) && !InOrder(c2.log, b, a)
  {
    var i := EntryOf(c1.log, a);
    var j := EntryOf(c2.log, b);
    assert Entry(c2.log, i, a) && i < j;
    forall i1: nat, j1: nat | Entry(c2.log, i1, b) && Entry(c2.log, j1, a)
      ensures j1 < i1
    {
      assert i1 >= |c1.log|;
      assert j1 == i by {
        assert j1 < i || j1 > i || j1 == i;
      }
    }
  }

  /** MAIN RESULT. The sleep decides nothing: the lock lets either rank enter first, so there are complete
      runs in which the put is ordered before the load and complete runs in which it is not. */
  lemma {:induction false} BothOrdersReachable(v: int)
    ensures exists tr :: Reaches(v, tr, true)
    ensures exists tr :: Reaches(v, tr, false)
  {
    var P := Sections(v);
    var tr, s := Start(P, true);
    assert s.ctl.pc == [0, 0];
    OneAfterOther(v, tr, s, true);
    OneAfterOther(v, tr, s, false);
  }

  lemma OneAfterOther(v: int, tr: seq<Label>, s: State, zeroFirst: bool)
    requires LeadsTo(Sections(v), true, tr, s) && s.ctl.pc == [0, 0] && s.ctl.held == {}
    ensures exists u :: Reaches(v, u, zeroFirst)
  {
    var tr1, s1, tr2, s2;
    if zeroFirst {
      tr1, s1 := Rank0Alone(v, tr, s);
      LogOf(v, tr1, s1);
      tr2, s2 := Rank1Alone(v, tr1, s1);
      InTurn(v, s1, tr2, s2, ENTER0, ENTER1, zeroFirst);
    } else {
      tr1, s1 := Rank1Alone(v, tr, s);
      LogOf(v, tr1, s1);
      tr2, s2 := Rank0Alone(v, tr1, s1);
      InTurn(v, s1, tr2, s2, ENTER1, ENTER0, zeroFirst);
    }
  }

  lemma InTurn(v: int, s1: State, tr: seq<Label>, s: State, a: Ev, b: Ev, zeroFirst: bool)
    requires LeadsTo(Sections(v), true, tr, s) && s.ctl.pc == [7, 4] && |s1.ctl.pc| == 2 && LogOk(s1.ctl) && s1.ctl.log <= s.ctl.log
    requires if zeroFirst then a == ENTER0 && b == ENTER1 else a == ENTER1 && b == ENTER0
    requires a.pos < s1.ctl.pc[a.tid] && s1.ctl.pc[b.tid] <= b.pos
    ensures exists u :: Reaches(v, u, zeroFirst)
  {
    LogOf(v, tr, s);
    FirstInOrder(s1.ctl, s.ctl, a, b);
    assert Look(tr);
    var u := ImmediateIsDelayed(Sections(v), tr);
    assert Reaches(v, u, zeroFirst);
  }

  lemma Rank1Left(v: int, tr: seq<Label>, s: State) returns (tr': seq<Label>, s': State)
    requires LeadsTo(Sections(v), true, tr, s) && s.ctl.pc == [0, 0] && s.ctl.held == {}
    ensures LeadsTo(Sections(v), true, tr', s') && s'.ctl.pc == [0, 3] && s'.ctl.held == {}
  {
    var P := Sections(v);
    tr', s' := Solo(P, true, tr, s, 1, 1);
    tr', s' := Closes(P, tr', s', 1);
    tr', s' := Solo(P, true, tr', s', 1, 3);
    LogOf(v, tr', s');
  }

  /** The two windows have locks of their own: rank 0 can be in its section on the first while rank 1 enters
      its section on the second. */
  lemma {:induction false} WindowsLockApart(v: int)
    ensures var tr := [Go(0), Go(1)];
            Exec(Sections(v), false, tr).Some? && Exec(Sections(v), false, tr).value.ctl.held == {Hold(0, WIN1, true), Hold(1, WIN2, true)}
  {
    var P := Sections(v);
    var tr, s := Start(P, false);
    Extend(P, false, tr, s, Go(0));
    tr, s := tr + [Go(0)], Next(P, false, s, Go(0)).value;
    assert s.ctl.held == {Hold(0, WIN1, true)} && s.ctl.pc == [1, 0];
    Extend(P, false, tr, s, Go(1));
    tr, s := tr + [Go(1)], Next(P, false, s, Go(1)).value;
    assert Look(tr) && tr == [Go(0), Go(1)];
  }

  /** In the second kind of run the put can be in flight at the load. */
  lemma {:induction false} Rank1FirstRaces(v: int)
    ensures !RaceFree(Sections(v), false)
  {
    var P := Sections(v);
    var tr, s := Start(P, true);
    tr, s := Rank1Left(v, tr, s);
    tr, s := Solo(P, true, tr, s, 0, 2);
    MeetsLoad(P, tr, s, PUT, LOAD, true);
  }
}
