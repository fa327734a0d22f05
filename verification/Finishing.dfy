/**
 Runs that come to an end: if the control of a program is never stuck then every run of it, however long its
 operations are delayed, can be continued until all threads are at their end and nothing is under way.
 */
module Finishing {
  import opened Machine
  import opened Refinement
  import opened Ordering
  import opened Progress

  predicate AtEnd(P: Program, c: Ctl) {
    |c.pc| == |P.threads| && forall t :: 0 <= t < |P.threads| ==> c.pc[t] == |P.threads[t].code|
  }

  ghost predicate Over(P: Program, s: State) {
    AtEnd(P, s.ctl) && Quiescent(s) && s.ctl.notes == {}
  }

  // ----- never stuck

  /** The next call of thread `t` is no barrier and no wait for a notification, and nothing but operations in
      flight can hold it up. */
  predicate FreeToGo(P: Program, c: Ctl, t: nat) {
    Running(P, c, t) &&
    match NextCall(P, c, t)
    case Barrier(_) => false
    case Recv(from, tag) => SentMore(P, c, from, t, tag)
    case Acquire(lock, excl) => forall u :: 0 <= u < |P.threads| && u != t ==> !InTheWay(P, c, u, lock, excl)
    case Await(_, _) => false
    case _ => true
  }

  predicate MayMeet(P: Program, c: Ctl, g: set<nat>) {
    g != {} && forall t :: t in g ==> Running(P, c, t) && NextCall(P, c, t) == Barrier(g)
  }

  ghost predicate CanMove(P: Program, c: Ctl) {
    (exists t :: FreeToGo(P, c, t)) || (exists g :: MayMeet(P, c, g))
  }

  ghost predicate NeverStuck(P: Program) {
    forall tr :: Ran(P, false, tr) && !AtEnd(P, After(P, false, tr).ctl) ==> CanMove(P, After(P, false, tr).ctl)
  }

  lemma SomeAccess(P: Program, tr: seq<Label>, k: nat) returns (l: Label)
    requires OnlySpins(P) && Ran(P, false, tr) && k < |After(P, false, tr).ops| && After(P, false, tr).ops[k].phase != Done
    requires forall j :: 0 <= j < k ==> After(P, false, tr).ops[j].phase == Done
    ensures Next(P, false, After(P, false, tr), l).Some?
  {
    l := if After(P, false, tr).ops[k].phase == Issued then Fetch(k) else Land(k);
  }

  lemma {:induction false} FirstPending(ops: seq<Op>) returns (k: nat)
    requires exists j :: 0 <= j < |ops| && ops[j].phase != Done
    ensures k < |ops| && ops[k].phase != Done && forall j :: 0 <= j < k ==> ops[j].phase == Done
  {
    if ops[0].phase != Done {
      k := 0;
    } else {
      assert forall j :: 0 < j < |ops| ==> ops[1..][j - 1] == ops[j];
      var m := FirstPending(ops[1..]);
      k := m + 1;
      assert forall j :: 0 < j < k ==> ops[j] == ops[1..][j - 1];
    }
  }

  lemma FreeGoes(P: Program, tr: seq<Label>, t: nat)
    requires OnlySpins(P) && Ran(P, false, tr) && Quiescent(After(P, false, tr)) && FreeToGo(P, After(P, false, tr).ctl, t)
    ensures Next(P, false, After(P, false, tr), Go(t)).Some?
  {
    var s := After(P, false, tr);
    match NextCall(P, s.ctl, t)
    case Recv(from, tag) => RecvExactly(P, false, tr, from, t, tag);
    case Acquire(lock, excl) => AcquireExactly(P, false, tr, t, lock, excl);
    case _ =>
  }

  /** A run that is not over can take a step. */
  lemma StepThere(P: Program, tr: seq<Label>) returns (l: Label)
    requires OnlySpins(P) && NeverStuck(P) && Ran(P, false, tr) && !Over(P, After(P, false, tr))
    ensures Next(P, false, After(P, false, tr), l).Some?
  {
    var s := After(P, false, tr);
    if !Quiescent(s) {
      var k := FirstPending(s.ops);
      l := SomeAccess(P, tr, k);
    } else if s.ctl.notes != {} {
      var n :| n in s.ctl.notes;
      l := Deliver(n);
    } else if exists t :: FreeToGo(P, s.ctl, t) {
      var t :| FreeToGo(P, s.ctl, t);
      FreeGoes(P, tr, t);
      l := Go(t);
    } else {
      var g :| MayMeet(P, s.ctl, g);
      l := Meet(g);
    }
  }

  // ----- every step leaves less to do

  /** The steps a call is good for: its own, and those of what it sends off. */
  function Weight(i: Instr): nat {
    if i.Rma? then 3 else if i.Notify? then 2 else 1
  }

  function CallsLeft(code: seq<Instr>, p: nat): nat
    decreases |code| - p
  {
    if p >= |code| then 0 else Weight(code[p]) + CallsLeft(code, p + 1)
  }

  function AllCallsLeft(P: Program, pc: seq<nat>, n: nat): nat
    requires n <= |P.threads| == |pc|
  {
    if n == 0 then 0 else AllCallsLeft(P, pc, n - 1) + CallsLeft(P.threads[n - 1].code, pc[n - 1])
  }

  function OpLeft(o: Op): nat {
    match o.phase
    case Issued => 2
    case Fetched => 1
    case Done => 0
  }

  function OpsLeft(ops: seq<Op>): nat {
    if ops == [] then 0 else OpsLeft(ops[..|ops| - 1]) + OpLeft(ops[|ops| - 1])
  }

  function Left(P: Program, s: State): nat
    requires Shape(P, s)
  {
    AllCallsLeft(P, s.ctl.pc, |P.threads|) + OpsLeft(s.ops) + |s.ctl.notes|
  }

  lemma {:induction false} OneCallLess(P: Program, pc: seq<nat>, t: nat, n: nat)
    requires n <= |P.threads| == |pc| && t < |P.threads| && pc[t] < |P.threads[t].code|
    ensures AllCallsLeft(P, pc, n) == AllCallsLeft(P, pc[t := pc[t] + 1], n) + if t < n then Weight(P.threads[t].code[pc[t]]) else 0
  {
    if n > 0 {
      OneCallLess(P, pc, t, n - 1);
    }
  }

  lemma {:induction false} CallsLess(P: Program, pc: seq<nat>, pc': seq<nat>, n: nat)
    requires n <= |P.threads| == |pc| == |pc'| && forall t :: 0 <= t < n ==> pc'[t] == pc[t] || pc'[t] == pc[t] + 1
    ensures AllCallsLeft(P, pc', n) <= AllCallsLeft(P, pc, n)
    ensures (exists t :: 0 <= t < n && pc'[t] == pc[t] + 1 && pc[t] < |P.threads[t].code|) ==> AllCallsLeft(P, pc', n) < AllCallsLeft(P, pc, n)
  {
    if n > 0 {
      CallsLess(P, pc, pc', n - 1);
    }
  }

  lemma {:induction false} OpsLeftSame(ops: seq<Op>, ops': seq<Op>)
    requires |ops| == |ops'| && forall k :: 0 <= k < |ops| ==> ops'[k].phase == ops[k].phase
    ensures OpsLeft(ops') == OpsLeft(ops)
  {
    if ops != [] {
      OpsLeftSame(ops[..|ops| - 1], ops'[..|ops| - 1]);
    }
  }

  lemma {:induction false} OpsLeftLess(ops: seq<Op>, k: nat, o: Op)
    requires k < |ops| && OpLeft(o) < OpLeft(ops[k])
    ensures OpsLeft(ops[k := o]) < OpsLeft(ops)
  {
    var n := |ops| - 1;
    if k < n {
      OpsLeftLess(ops[..n], k, o);
      assert ops[k := o][..n] == ops[..n][k := o];
    } else {
      assert ops[k := o][..n] == ops[..n];
    }
  }

  lemma GoLeavesLess(P: Program, s: State, t: nat)
    requires Shape(P, s) && NoBranches(P) && Next(P, false, s, Go(t)).Some?
    ensures Left(P, Next(P, false, s, Go(t)).value) < Left(P, s)
  {
    var i, s' := NextCall(P, s.ctl, t), Next(P, false, s, Go(t)).value;
    OneCallLess(P, s.ctl.pc, t, |P.threads|);
    assert s'.ctl.pc == s.ctl.pc[t := s.ctl.pc[t] + 1];
    if i.Rma? {
      assert s'.ops == s.ops + [NewOp(P, s.ctl, t, i)] && s'.ops[..|s.ops|] == s.ops;
    } else {
      OpsLeftSame(s.ops, s'.ops);
    }
  }

  lemma StepLeavesLess(P: Program, s: State, l: Label)
    requires Shape(P, s) && NoBranches(P) && Next(P, false, s, l).Some?
    ensures Left(P, Next(P, false, s, l).value) < Left(P, s)
  {
    var s' := Next(P, false, s, l).value;
    match l
    case Go(t) => GoLeavesLess(P, s, t);
    case Meet(g) =>
      var t :| t in g;
      CallsLess(P, s.ctl.pc, s'.ctl.pc, |P.threads|);
      assert Running(P, s.ctl, t) && s'.ctl.pc[t] == s.ctl.pc[t] + 1;
    case Deliver(_) => OpsLeftSame(s.ops, s'.ops);
    case Fetch(k) => OpsLeftLess(s.ops, k, s'.ops[k]);
    case Land(k) => OpsLeftLess(s.ops, k, s'.ops[k]);
  }

  /** MAIN RESULT. If control is never stuck, every run of a program without branches can be continued until it
      is over. */
  lemma {:induction false} CanFinish(P: Program, tr: seq<Label>) returns (all: seq<Label>)
    requires NoBranches(P) && NeverStuck(P) && Ran(P, false, tr)
    ensures tr <= all && Ran(P, false, all) && Over(P, After(P, false, all))
    decreases Left(P, After(P, false, tr))
  {
    var s := After(P, false, tr);
    if Over(P, s) {
      all := tr;
    } else {
      var l := StepThere(P, tr);
      StepLeavesLess(P, s, l);
      assert (tr + [l])[..|tr|] == tr;
      assert Exec(P, false, tr + [l]) == Next(P, false, s, l);
      all := CanFinish(P, tr + [l]);
    }
  }

  /** Every run of the program can be continued until it is over. */
  ghost predicate EveryRunCanFinish(P: Program) {
    forall tr :: Ran(P, false, tr) ==> exists all :: Finishes(P, tr, all)
  }

  ghost predicate Finishes(P: Program, tr: seq<Label>, all: seq<Label>) {
    tr <= all && Ran(P, false, all) && Over(P, After(P, false, all))
  }

  lemma NeverStuckFinishes(P: Program)
    requires NoBranches(P) && NeverStuck(P)
    ensures EveryRunCanFinish(P)
  {
    forall tr | Ran(P, false, tr)
      ensures exists all :: Finishes(P, tr, all)
    {
      var all := CanFinish(P, tr);
      assert Finishes(P, tr, all);
    }
  }
}
