/**
 Waiting loops: `my_signal` and `my_wait`, and the task programs MPIRMA/hybrid/010 and 009.
 */
module Tasks {
  import opened Machine
  import opened Refinement
  import opened Ordering
  import opened Separation
  import opened Values
  import opened Witness

  const FLAG := Loc(0, 3)

  // ----- my_signal and my_wait

  /** Thread 0 runs `my_wait(&flag, v)`; each of `n` others runs `my_signal(&flag)`. */
  function Signals(n: nat, v: int): Program {
    Program([Thread(0, [Load(FLAG), Branch(Lt, v, 0)])] + seq(n, k requires 0 <= k < n => Thread(0, [Add(FLAG, 1)])), map[])
  }

  /** How many of the threads `1 .. k` have signalled. */
  function Signalled(pc: seq<nat>, k: nat): nat
    requires k < |pc|
  {
    if k == 0 then 0 else Signalled(pc, k - 1) + if pc[k] > 0 then 1 else 0
  }

  lemma {:induction false} SignalledStep(pc: seq<nat>, t: nat, k: nat)
    requires k < |pc| && 1 <= t < |pc| && pc[t] == 0
    ensures Signalled(pc[t := 1], k) == Signalled(pc, k) + if t <= k then 1 else 0
  {
    if k > 0 {
      SignalledStep(pc, t, k - 1);
    }
  }

  lemma {:induction false} SignalledSame(pc: seq<nat>, pc': seq<nat>, k: nat)
    requires k < |pc| && |pc| == |pc'| && forall t :: 1 <= t < |pc| ==> pc[t] == pc'[t]
    ensures Signalled(pc, k) == Signalled(pc', k)
  {
    if k > 0 {
      SignalledSame(pc, pc', k - 1);
    }
  }

  ghost predicate WaitInv(n: nat, v: int, s: State)
    requires Shape(Signals(n, v), s)
  {
    && s.ops == [] && s.ctl.notes == {} && At(s.mem, FLAG) == Signalled(s.ctl.pc, n)
    && (forall t :: 1 <= t <= n ==> s.ctl.pc[t] <= 1) && s.ctl.pc[0] <= 2
    && (s.ctl.pc[0] > 0 ==> s.regs[0] <= Signalled(s.ctl.pc, n)) && (s.ctl.pc[0] == 2 ==> v <= s.regs[0])
  }

  lemma NoBarrier(n: nat, v: int, s: State, g: set<nat>)
    requires Shape(Signals(n, v), s)
    ensures !Enabled(Signals(n, v), s, Meet(g))
  {
    var P := Signals(n, v);
    forall t | t in g && Running(P, s.ctl, t)
      ensures !NextCall(P, s.ctl, t).Barrier?
    {
      assert t > 0 ==> P.threads[t] == Thread(0, [Add(FLAG, 1)]);
    }
  }

  lemma WaitStep(n: nat, v: int, s: State, l: Label)
    requires Shape(Signals(n, v), s) && WaitInv(n, v, s) && Enabled(Signals(n, v), s, l)
    ensures WaitInv(n, v, Apply(Signals(n, v), s, l))
  {
    var P, s' := Signals(n, v), Apply(Signals(n, v), s, l);
    match l {
      case Go(t) =>
        if t == 0 {
          SignalledSame(s.ctl.pc, s'.ctl.pc, n);
        } else {
          assert P.threads[t] == Thread(0, [Add(FLAG, 1)]);
          SignalledStep(s.ctl.pc, t, n);
        }
      case Meet(g) =>
        NoBarrier(n, v, s, g);
      case Deliver(_) =>
      case Fetch(_) =>
      case Land(_) =>
    }
  }

  lemma {:induction false} WaitInvHolds(n: nat, v: int, tr: seq<Label>)
    requires Exec(Signals(n, v), false, tr).Some?
    ensures WaitInv(n, v, Exec(Signals(n, v), false, tr).value)
  {
    if tr == [] {
      SignalledNone(Init(Signals(n, v)).ctl.pc, n);
    } else {
      WaitInvHolds(n, v, tr[..|tr| - 1]);
      WaitStep(n, v, Exec(Signals(n, v), false, tr[..|tr| - 1]).value, tr[|tr| - 1]);
    }
  }

  lemma {:induction false} SignalledNone(pc: seq<nat>, k: nat)
    requires k < |pc| && forall t :: 0 <= t < |pc| ==> pc[t] == 0
    ensures Signalled(pc, k) == 0
  {
    if k > 0 {
      SignalledNone(pc, k - 1);
    }
  }

  lemma {:induction false} SignalledBound(pc: seq<nat>, k: nat)
    requires k < |pc|
    ensures Signalled(pc, k) <= k
  {
    if k > 0 {
      SignalledBound(pc, k - 1);
    }
  }

  lemma {:induction false} SignalAll(n: nat, v: int, k: nat) returns (tr: seq<Label>, s: State)
    requires k <= n
    ensures LeadsTo(Signals(n, v), true, tr, s) && At(s.mem, FLAG) == k && s.ctl.pc[0] == 0
    ensures forall t :: k < t <= n ==> s.ctl.pc[t] == 0
  {
    var P := Signals(n, v);
    if k == 0 {
      tr, s := Start(P, true);
    } else {
      tr, s := SignalAll(n, v, k - 1);
      assert P.threads[k] == Thread(0, [Add(FLAG, 1)]);
      Extend(P, true, tr, s, Go(k));
      tr, s := tr + [Go(k)], Next(P, true, s, Go(k)).value;
    }
  }

  lemma WaitReturns(n: nat, v: int) returns (tr: seq<Label>)
    requires v <= n
    ensures Exec(Signals(n, v), false, tr).Some? && Exec(Signals(n, v), false, tr).value.ctl.pc[0] == 2
  {
    var P := Signals(n, v);
    var s;
    tr, s := SignalAll(n, v, n);
    Extend(P, true, tr, s, Go(0));
    tr, s := tr + [Go(0)], Next(P, true, s, Go(0)).value;
    assert s.ctl.pc[0] == 1 && s.regs[0] == n;
    Extend(P, true, tr, s, Go(0));
    tr, s := tr + [Go(0)], Next(P, true, s, Go(0)).value;
    assert Look(tr);
    tr := ImmediateIsDelayed(P, tr);
  }

  /** MAIN RESULT. `my_wait(s, v)` returns only after `v` of the signallers have signalled, for any `v`
      and any number of signallers, and it can return exactly when there are at least `v` of them. */
  lemma {:induction false} WaitMeansSignals(n: nat, v: int)
    ensures forall tr :: Exec(Signals(n, v), false, tr).Some? && Exec(Signals(n, v), false, tr).value.ctl.pc[0] == 2 ==>
              v <= Signalled(Exec(Signals(n, v), false, tr).value.ctl.pc, n)
    ensures (exists tr :: Exec(Signals(n, v), false, tr).Some? && Exec(Signals(n, v), false, tr).value.ctl.pc[0] == 2) <==> v <= n
  {
    forall tr | Exec(Signals(n, v), false, tr).Some? && Exec(Signals(n, v), false, tr).value.ctl.pc[0] == 2
      ensures v <= Signalled(Exec(Signals(n, v), false, tr).value.ctl.pc, n) <= n
    {
      WaitInvHolds(n, v, tr);
      SignalledBound(Exec(Signals(n, v), false, tr).value.ctl.pc, n);
    }
    if v <= n {
      var tr := WaitReturns(n, v);
    }
  }

  // ----- 010 and 009: the task's get, with and without taskwait

  const LOCK := 1
  const OTHER := Loc(1, 0)
  const OWN := Loc(0, 0)

  const GET := Ev(1, 2)
  const UNLOCK := Ev(1, 3)

  /** Thread 0 waits for the task's signal, then (`taskwait`) for its end, then loads; thread 1 is the
      task. `u` is the value at the other rank. */
  function TaskGet(taskwait: bool, u: int): Program {
    Program([
      Thread(0, [Load(FLAG), Branch(Lt, 1, 0)] + (if taskwait then [Recv(1, 0)] else []) + [Load(OWN)]),
      Thread(0, [Add(FLAG, 1), Acquire(LOCK, true), Rma(Get, 1, 0, OTHER, OWN), Close(Both, OwnTo(1, 0)), Release(LOCK), Send(0, 0)])
    ], map[OTHER := u, OWN := 0])
  }

  lemma TaskCalls(u: int, e: Ev)
    requires IsCall(TaskGet(true, u), e)
    ensures var i := CallAt(TaskGet(true, u), e);
            && (i.Branch? ==> e == Ev(0, 1)) && (i.Rma? ==> e == GET) && (i.Load? ==> e == Ev(0, 0) || e == Ev(0, 3))
            && (Writes(i, OWN) ==> e == GET) && !Writes(i, OTHER) && (Writes(i, FLAG) ==> e == Ev(1, 0))
  {
    var p := e.pos;
    assert p == 0 || p == 1 || p == 2 || p == 3 || p == 4 || p == 5;
  }

  lemma TaskOrders(u: int)
    ensures OnlySpins(TaskGet(true, u)) && Before(TaskGet(true, u), UNLOCK, Ev(0, 3)) && Before(TaskGet(true, u), GET, UNLOCK)
  {
    var P := TaskGet(true, u);
    var c0, c1 := P.threads[0].code, P.threads[1].code;
    assert c0[0] == Load(FLAG) && c0[1] == Branch(Lt, 1, 0);
    forall t, j | 0 <= t < |P.threads| && 0 <= j < |P.threads[t].code| && P.threads[t].code[j].Branch?
      ensures Spin(P.threads[t].code, j, P.threads[t].code[j].target)
    {
      TaskCalls(u, Ev(t, j));
    }
    CountNone(c1, Send(0, 0), 0, 3);
    CountSome(c0, Recv(1, 0), 2, 3);
    MessageBefore(P, UNLOCK, Ev(0, 3), 0);
  }

  lemma GetYields(u: int)
    ensures Yields(TaskGet(true, u), GET, OWN, u)
  {
    var P := TaskGet(true, u);
    TaskOrders(u);
    forall e | IsCall(P, e)
      ensures Writes(CallAt(P, e), OWN) ==> e == GET
      ensures !Writes(CallAt(P, e), OTHER)
    {
      TaskCalls(u, e);
    }
    assert CallAt(P, GET) == Rma(Get, 1, 0, OTHER, OWN);
    FirstValueYields(P, GET);
  }

  lemma TaskApart(u: int)
    ensures WellSynchronised(TaskGet(true, u))
  {
    var P := TaskGet(true, u);
    TaskOrders(u);
    assert Completes(P, UNLOCK, GET, true);
    assert CompletedBetween(P, GET, Ev(0, 3), true);
    forall e, f | IsCall(P, e) && IsCall(P, f) && CallAt(P, e).Rma?
      ensures PairSafe(P, e, f)
    {
      TaskCalls(u, e);
      TaskCalls(u, f);
    }
  }

  /** MAIN RESULT. MPIRMA/hybrid/010: after taskwait the load returns what the task's get fetched, in
      every delayed run and for any number of turns of the waiting loop. */
  lemma {:induction false} TaskwaitCompletesGet(u: int)
    ensures RaceFree(TaskGet(true, u), false) && AlwaysLoads(TaskGet(true, u), false, Ev(0, 3), {u})
  {
    var P := TaskGet(true, u);
    TaskApart(u);
    OrderedIsRaceFree(P);
    GetYields(u);
    TaskOrders(u);
    BeforeTrans(P, GET, UNLOCK, Ev(0, 3));
    LoadSeesLastWrite(P, GET, Ev(0, 3), OWN, u);
  }

  /** MPIRMA/hybrid/009: the signal comes before the get, so waiting for it does not mean that the get
      has finished. */
  lemma {:induction false} SignalIsNotCompletion(u: int)
    ensures !RaceFree(TaskGet(false, u), false)
  {
    var P := TaskGet(false, u);
    assert P.threads[0].code == [Load(FLAG), Branch(Lt, 1, 0), Load(OWN)];
    var tr, s := Start(P, true);
    Extend(P, true, tr, s, Go(1));
    tr, s := tr + [Go(1)], Next(P, true, s, Go(1)).value;
    SignalThenLoad(u, tr, s);
  }

  /** The waiting loop of rank 0 sees the signal and ends. */
  lemma LoopEnds(u: int, tr0: seq<Label>, s0: State) returns (tr: seq<Label>, s: State)
    requires LeadsTo(TaskGet(false, u), true, tr0, s0) && s0.ctl.pc == [0, 1] && s0.ctl.held == {} && At(s0.mem, FLAG) == 1
    ensures LeadsTo(TaskGet(false, u), true, tr, s) && s.ctl.pc == [2, 1] && s.ctl.held == {}
  {
    var P := TaskGet(false, u);
    tr, s := tr0, s0;
    Extend(P, true, tr, s, Go(0));
    tr, s := tr + [Go(0)], Next(P, true, s, Go(0)).value;
    assert s.ctl.pc == [1, 1] && s.regs[0] == 1;
    Extend(P, true, tr, s, Go(0));
    tr, s := tr + [Go(0)], Next(P, true, s, Go(0)).value;
  }

  lemma SignalThenLoad(u: int, tr0: seq<Label>, s0: State)
    requires LeadsTo(TaskGet(false, u), true, tr0, s0) && s0.ctl.pc == [0, 1] && s0.ctl.held == {} && At(s0.mem, FLAG) == 1
    ensures !RaceFree(TaskGet(false, u), false)
  {
    var P := TaskGet(false, u);
    var tr, s := LoopEnds(u, tr0, s0);
    tr, s := Solo(P, true, tr, s, 1, 3);
    MeetsLoad(P, tr, s, GET, Ev(0, 2), true);
  }
}
