/**
 A token chain of any length over a passive target (MPIRMA/sync/032, and 033 with the token from the
 wrong rank).
 */
module Chain {
  import opened Machine
  import opened Refinement
  import opened Ordering
  import opened Separation
  import opened Values
  import opened Witness
  import opened Progress
  import opened Finishing

  const LOCK := 1

  /** The target is the rank after the last of the `n` origins. */
  function Win(n: nat): Loc {
    Loc(n, 0)
  }

  function Buf(i: nat): Loc {
    Loc(i, 1)
  }

  function Shift(i: nat): nat {
    if i == 0 then 0 else 1
  }

  /** Origin `i`: receive the token, lock, put, unlock, pass the token on. */
  function Code(n: nat, i: nat, v: int): seq<Instr> {
    (if i == 0 then [] else [Recv(i - 1, 0)])
    + [Store(Buf(i), v), Acquire(LOCK, false), Rma(Put, n, 0, Buf(i), Win(n)), Close(Both, OwnTo(n, 0)), Release(LOCK)]
    + (if i + 1 < n then [Send(i + 1, 0)] else []) + [Barrier(Upto(n + 1))]
  }

  function Origins(vs: seq<int>): seq<Thread> {
    seq(|vs|, i requires 0 <= i < |vs| => Thread(i, Code(|vs|, i, vs[i])))
  }

  function TokenChain(vs: seq<int>): Program {
    Program(Origins(vs) + [Thread(|vs|, [Barrier(Upto(|vs| + 1)), Load(Win(|vs|))])], map[Win(|vs|) := 0])
  }

  function SetAt(i: nat): Ev { Ev(i, Shift(i)) }
  function PutAt(i: nat): Ev { Ev(i, Shift(i) + 2) }
  function UnlockAt(i: nat): Ev { Ev(i, Shift(i) + 3) }

  lemma Calls(vs: seq<int>, e: Ev)
    requires IsCall(TokenChain(vs), e)
    ensures var i := CallAt(TokenChain(vs), e);
            && !i.Branch? && (i.Rma? ==> e.tid < |vs| && e == PutAt(e.tid))
            && (Writes(i, Win(|vs|)) ==> e.tid < |vs| && e == PutAt(e.tid))
            && (forall t: nat :: Writes(i, Buf(t)) ==> t == e.tid && t < |vs| && e == SetAt(t))
            && (i.Load? ==> e == Ev(|vs|, 1) && i.x == Win(|vs|))
  {
    if e.tid < |vs| {
      var p := e.pos - Shift(e.tid);
      assert p == -1 || p == 0 || p == 1 || p == 2 || p == 3 || p == 4 || p == 5 || p == 6;
    }
  }

  lemma Known(vs: seq<int>, i: nat)
    requires i < |vs|
    ensures var P, n := TokenChain(vs), |vs|;
            && P.threads[i] == Thread(i, Code(n, i, vs[i])) && IsCall(P, SetAt(i)) && IsCall(P, PutAt(i)) && IsCall(P, UnlockAt(i))
            && CallAt(P, SetAt(i)) == Store(Buf(i), vs[i]) && CallAt(P, PutAt(i)) == Rma(Put, n, 0, Buf(i), Win(n))
            && Completes(P, UnlockAt(i), PutAt(i), true)
            && Before(P, SetAt(i), PutAt(i)) && Before(P, PutAt(i), UnlockAt(i))
  {
  }

  lemma InOrder(P: Program, i: nat)
    ensures Before(P, PutAt(i), UnlockAt(i))
  {
  }

  lemma Branchless(vs: seq<int>)
    ensures OnlySpins(TokenChain(vs))
  {
    var P := TokenChain(vs);
    forall t, j | 0 <= t < |P.threads| && 0 <= j < |P.threads[t].code|
      ensures !P.threads[t].code[j].Branch?
    {
      Calls(vs, Ev(t, j));
    }
  }

  lemma SentAfterUnlock(n: nat, i: nat, v: int)
    requires i + 1 < n
    ensures UnlockAt(i).pos <= |Code(n, i, v)| && Count(Code(n, i, v), Send(i + 1, 0), UnlockAt(i).pos) == 0
  {
    var c := Code(n, i, v);
    CountNone(c, Send(i + 1, 0), 0, UnlockAt(i).pos);
  }

  lemma ReceivedBeforePut(n: nat, i: nat, v: int)
    requires i + 1 < n
    ensures PutAt(i + 1).pos <= |Code(n, i + 1, v)| && Count(Code(n, i + 1, v), Recv(i, 0), PutAt(i + 1).pos) > 0
  {
    var d := Code(n, i + 1, v);
    assert d[0] == Recv(i, 0);
    CountSome(d, Recv(i, 0), 0, PutAt(i + 1).pos);
  }

  lemma TokenStep(vs: seq<int>, i: nat)
    requires i + 1 < |vs|
    ensures Before(TokenChain(vs), UnlockAt(i), PutAt(i + 1))
  {
    Branchless(vs);
    Known(vs, i);
    Known(vs, i + 1);
    SentAfterUnlock(|vs|, i, vs[i]);
    ReceivedBeforePut(|vs|, i, vs[i + 1]);
    MessageBefore(TokenChain(vs), UnlockAt(i), PutAt(i + 1), 0);
  }

  lemma Link(P: Program, e: Ev, j: nat)
    requires Before(P, e, PutAt(j)) && Before(P, UnlockAt(j), PutAt(j + 1))
    ensures Before(P, e, PutAt(j + 1))
  {
    InOrder(P, j);
    BeforeTrans(P, e, PutAt(j), UnlockAt(j));
    BeforeTrans(P, e, UnlockAt(j), PutAt(j + 1));
  }

  lemma {:induction false} LinkAll(P: Program, i: nat, j: nat)
    requires i < j && forall k: nat :: i <= k < j ==> Before(P, UnlockAt(k), PutAt(k + 1))
    ensures Before(P, UnlockAt(i), PutAt(j))
    decreases j
  {
    assert Before(P, UnlockAt(j - 1), PutAt(j - 1 + 1));
    if i < j - 1 {
      LinkAll(P, i, j - 1);
      Link(P, UnlockAt(i), j - 1);
    }
  }

  /** An origin comes to its put only after every earlier origin has unlocked. */
  lemma ChainOrder(vs: seq<int>, i: nat, j: nat)
    requires i < j < |vs|
    ensures Before(TokenChain(vs), UnlockAt(i), PutAt(j))
  {
    forall k: nat | i <= k < j
      ensures Before(TokenChain(vs), UnlockAt(k), PutAt(k + 1))
    {
      TokenStep(vs, k);
    }
    LinkAll(TokenChain(vs), i, j);
  }

  lemma {:induction false} PutOrder(vs: seq<int>, i: nat, j: nat)
    requires i < j < |vs|
    ensures Before(TokenChain(vs), PutAt(i), PutAt(j))
  {
    ChainOrder(vs, i, j);
    InOrder(TokenChain(vs), i);
    BeforeTrans(TokenChain(vs), PutAt(i), UnlockAt(i), PutAt(j));
  }

  lemma LoadAfter(vs: seq<int>, i: nat)
    requires i < |vs|
    ensures Before(TokenChain(vs), UnlockAt(i), Ev(|vs|, 1)) && Before(TokenChain(vs), PutAt(i), Ev(|vs|, 1))
  {
    var P, n := TokenChain(vs), |vs|;
    Branchless(vs);
    Known(vs, i);
    CountNone(Code(n, i, vs[i]), Barrier(Upto(n + 1)), 0, UnlockAt(i).pos);
    CountSome(P.threads[n].code, Barrier(Upto(n + 1)), 0, 1);
    BarrierBefore(P, UnlockAt(i), Ev(n, 1), Upto(n + 1));
    BeforeTrans(P, PutAt(i), UnlockAt(i), Ev(n, 1));
  }

  lemma ChainApart(vs: seq<int>)
    ensures WellSynchronised(TokenChain(vs))
  {
    var P := TokenChain(vs);
    Branchless(vs);
    forall e, f | IsCall(P, e) && IsCall(P, f) && CallAt(P, e).Rma?
      ensures PairSafe(P, e, f)
    {
      Calls(vs, e);
      Calls(vs, f);
      var i, j := e.tid, f.tid;
      Known(vs, i);
      if j == |vs| {
        LoadAfter(vs, i);
        assert f == Ev(|vs|, 1) ==> CompletedBetween(P, e, f, true);
      } else if f == PutAt(j) && i < j {
        ChainOrder(vs, i, j);
        assert CompletedBetween(P, e, f, true);
      } else if f == PutAt(j) && j < i {
        PutOrder(vs, j, i);
      }
    }
  }

  lemma LastPut(vs: seq<int>)
    requires vs != []
    ensures Yields(TokenChain(vs), PutAt(|vs| - 1), Win(|vs|), vs[|vs| - 1])
  {
    var P, i := TokenChain(vs), |vs| - 1;
    Branchless(vs);
    Known(vs, i);
    forall e | IsCall(P, e)
      ensures Writes(CallAt(P, e), Buf(i)) ==> e == SetAt(i)
      ensures Writes(CallAt(P, e), Win(|vs|)) && e != PutAt(i) ==> Before(P, e, PutAt(i))
    {
      Calls(vs, e);
      if Writes(CallAt(P, e), Win(|vs|)) && e != PutAt(i) {
        PutOrder(vs, e.tid, i);
      }
    }
    StoreYields(P, SetAt(i), Buf(i), vs[i]);
    CopyYields(P, SetAt(i), PutAt(i), vs[i]);
  }

  /** The put of origin `i` has read its buffer and written the target. */
  ghost predicate Landed(s: State, i: nat) {
    forall k :: 0 <= k < |s.ops| && FromCall(s.ops[k], PutAt(i)) ==> s.ops[k].phase == Done && Closed(s.ops[k], true)
  }

  /** An origin that comes to its put finds every earlier put landed. */
  ghost predicate PutsInOrder(vs: seq<int>, s: State) {
    forall i: nat, j: nat :: i < j < |vs| && Reached(s.ctl, PutAt(j)) ==> Passed(s.ctl, PutAt(i)) && Landed(s, i)
  }

  lemma EarlierPutLanded(vs: seq<int>, tr: seq<Label>, i: nat, j: nat)
    requires i < j < |vs| && Ran(TokenChain(vs), false, tr) && Reached(After(TokenChain(vs), false, tr).ctl, PutAt(j))
    ensures Passed(After(TokenChain(vs), false, tr).ctl, PutAt(i)) && Landed(After(TokenChain(vs), false, tr), i)
  {
    var P := TokenChain(vs);
    var s := After(P, false, tr);
    Branchless(vs);
    Known(vs, i);
    ChainOrder(vs, i, j);
    ClosedByCall(P, false, tr, PutAt(i), UnlockAt(i), true);
    ClosedIsFinished(P, false, tr);
    forall k | 0 <= k < |s.ops| && FromCall(s.ops[k], PutAt(i))
      ensures s.ops[k].phase == Done && Closed(s.ops[k], true)
    {
      assert Tracked(s.ops[k]);
    }
  }

  /** MAIN RESULT. A token chain of any length, with any values: the puts reach the passive target in
      chain order in every delayed run, so there is no race and the target ends with the last value. */
  lemma {:induction false} ChainSerialises(vs: seq<int>)
    requires vs != []
    ensures forall tr :: Ran(TokenChain(vs), false, tr) ==> PutsInOrder(vs, After(TokenChain(vs), false, tr))
    ensures RaceFree(TokenChain(vs), false)
    ensures AlwaysLoads(TokenChain(vs), false, Ev(|vs|, 1), {vs[|vs| - 1]})
  {
    forall tr, i: nat, j: nat | Ran(TokenChain(vs), false, tr) && i < j < |vs| && Reached(After(TokenChain(vs), false, tr).ctl, PutAt(j))
      ensures Passed(After(TokenChain(vs), false, tr).ctl, PutAt(i)) && Landed(After(TokenChain(vs), false, tr), i)
    {
      EarlierPutLanded(vs, tr, i, j);
    }
    ChainApart(vs);
    OrderedIsRaceFree(TokenChain(vs));
    LastPut(vs);
    LoadAfter(vs, |vs| - 1);
    LoadSeesLastWrite(TokenChain(vs), PutAt(|vs| - 1), Ev(|vs|, 1), Win(|vs|), vs[|vs| - 1]);
  }

  // ----- and every run gets there

  /** The barrier at the end of origin `i`. */
  function EndAt(n: nat, i: nat): nat {
    Shift(i) + if i + 1 < n then 6 else 5
  }

  lemma LastCall(n: nat, i: nat, v: int)
    requires i < n
    ensures |Code(n, i, v)| == EndAt(n, i) + 1 && Code(n, i, v)[EndAt(n, i)] == Barrier(Upto(n + 1))
    ensures forall p :: 0 <= p < EndAt(n, i) ==> var c := Code(n, i, v)[p]; !c.Barrier? && !c.Await? && (c.Recv? <==> p == 0 && i > 0)
    ensures forall p :: 0 <= p < EndAt(n, i) ==> var c := Code(n, i, v)[p]; c.Acquire? ==> c == Acquire(LOCK, false)
    ensures i > 0 ==> Code(n, i, v)[0] == Recv(i - 1, 0)
    ensures i + 1 < n ==> Code(n, i, v)[EndAt(n, i) - 1] == Send(i + 1, 0)
  {
  }

  lemma {:induction false} NobodyExcludes(code: seq<Instr>, lock: nat, n: nat)
    requires n <= |code| && forall p :: 0 <= p < |code| ==> code[p] != Acquire(lock, true)
    ensures !HoldsIn(code, lock, true, n)
  {
    if n > 0 {
      NobodyExcludes(code, lock, n - 1);
    }
  }

  lemma SharedLockIsFree(vs: seq<int>, c: Ctl, u: nat)
    requires u < |TokenChain(vs).threads|
    ensures !InTheWay(TokenChain(vs), c, u, LOCK, false)
  {
    var P := TokenChain(vs);
    forall p | 0 <= p < |P.threads[u].code|
      ensures P.threads[u].code[p] != Acquire(LOCK, true)
    {
      if u < |vs| {
        Known(vs, u);
        LastCall(|vs|, u, vs[u]);
      }
    }
    if u < |c.pc| && c.pc[u] <= |P.threads[u].code| {
      NobodyExcludes(P.threads[u].code, LOCK, c.pc[u]);
    }
  }

  /** An origin that has not come to the barrier can go on, if the one before it has. */
  lemma OriginMoves(vs: seq<int>, c: Ctl, i: nat)
    requires i < |vs| && |c.pc| == |vs| + 1 && c.pc[i] < EndAt(|vs|, i)
    requires i > 0 ==> EndAt(|vs|, i - 1) <= c.pc[i - 1] <= EndAt(|vs|, i - 1) + 1
    ensures FreeToGo(TokenChain(vs), c, i)
  {
    var P, n := TokenChain(vs), |vs|;
    Known(vs, i);
    LastCall(n, i, vs[i]);
    forall u | 0 <= u < |P.threads|
      ensures !InTheWay(P, c, u, LOCK, false)
    {
      SharedLockIsFree(vs, c, u);
    }
    if i > 0 && c.pc[i] == 0 {
      Known(vs, i - 1);
      LastCall(n, i - 1, vs[i - 1]);
      CountSome(P.threads[i - 1].code, Send(i, 0), EndAt(n, i - 1) - 1, c.pc[i - 1]);
    }
  }

  lemma {:induction false} FirstBehind(vs: seq<int>, c: Ctl, k: nat) returns (i: nat)
    requires |c.pc| == |vs| + 1 && k < |vs| && c.pc[k] < EndAt(|vs|, k)
    ensures i <= k && c.pc[i] < EndAt(|vs|, i) && forall j :: 0 <= j < i ==> c.pc[j] >= EndAt(|vs|, j)
  {
    if j: nat :| j < k && c.pc[j] < EndAt(|vs|, j) {
      i := FirstBehind(vs, c, j);
    } else {
      i := k;
    }
  }

  lemma OneBarrier(n: nat, i: nat, v: int, p: nat)
    requires i < n && p <= |Code(n, i, v)|
    ensures Count(Code(n, i, v), Barrier(Upto(n + 1)), p) == if p > EndAt(n, i) then 1 else 0
  {
    var code, b := Code(n, i, v), Barrier(Upto(n + 1));
    LastCall(n, i, v);
    CountNone(code, b, 0, if p > EndAt(n, i) then EndAt(n, i) else p);
  }

  /** At the final barrier, or past it. */
  lemma AtBarrier(vs: seq<int>, tr: seq<Label>, i: nat)
    requires i < |vs| && Ran(TokenChain(vs), false, tr)
    requires After(TokenChain(vs), false, tr).ctl.pc[i] >= EndAt(|vs|, i)
    ensures var c := After(TokenChain(vs), false, tr).ctl;
            c.pc[i] == EndAt(|vs|, i) + (if c.pc[|vs|] == 0 then 0 else 1) && c.pc[|vs|] <= 2
  {
    var P, n, g := TokenChain(vs), |vs|, Upto(|vs| + 1);
    var c := After(P, false, tr).ctl;
    Branchless(vs);
    Known(vs, i);
    LastCall(n, i, vs[i]);
    BarrierCounts(P, false, tr, g, i, n);
    OneBarrier(n, i, vs[i], c.pc[i]);
    CountEach(P.threads[n].code, Barrier(g), 2);
  }

  /** All origins are at the barrier or past it, the target with them. */
  lemma AllArrived(vs: seq<int>, c: Ctl)
    requires vs != [] && |c.pc| == |vs| + 1 && c.pc[|vs|] <= 2
    requires forall i: nat :: i < |vs| ==> c.pc[i] == EndAt(|vs|, i) + if c.pc[|vs|] == 0 then 0 else 1
    ensures AtEnd(TokenChain(vs), c) || CanMove(TokenChain(vs), c)
  {
    var P, n := TokenChain(vs), |vs|;
    forall i: nat | i < n
      ensures P.threads[i].code == Code(n, i, vs[i]) && |P.threads[i].code| == EndAt(n, i) + 1
      ensures P.threads[i].code[EndAt(n, i)] == Barrier(Upto(n + 1))
    {
      LastCall(n, i, vs[i]);
    }
    if c.pc[n] == 0 {
      assert 0 in Upto(n + 1);
      assert MayMeet(P, c, Upto(n + 1));
    } else if c.pc[n] == 1 {
      assert FreeToGo(P, c, n);
    }
  }

  lemma ChainMoves(vs: seq<int>, tr: seq<Label>)
    requires vs != [] && Ran(TokenChain(vs), false, tr)
    ensures var P, c := TokenChain(vs), After(TokenChain(vs), false, tr).ctl; AtEnd(P, c) || CanMove(P, c)
  {
    var P, n := TokenChain(vs), |vs|;
    var c := After(P, false, tr).ctl;
    if k: nat :| k < n && c.pc[k] < EndAt(n, k) {
      var i := FirstBehind(vs, c, k);
      if i > 0 {
        AtBarrier(vs, tr, i - 1);
      }
      OriginMoves(vs, c, i);
    } else {
      forall i: nat | i < n
        ensures c.pc[i] == EndAt(n, i) + (if c.pc[n] == 0 then 0 else 1) && c.pc[n] <= 2
      {
        AtBarrier(vs, tr, i);
      }
      assert c.pc[0] >= EndAt(n, 0);
      AllArrived(vs, c);
    }
  }

  /** MAIN RESULT. No token is ever stuck: every run of the chain, whatever its delays, can be continued until
      all ranks are at their end, and then the load has returned the last value and the target holds it. */
  lemma {:induction false} ChainFinishes(vs: seq<int>, tr: seq<Label>) returns (all: seq<Label>)
    requires vs != [] && Ran(TokenChain(vs), false, tr)
    ensures Finishes(TokenChain(vs), tr, all)
    ensures Obs(|vs|, 1, vs[|vs| - 1]) in After(TokenChain(vs), false, all).obs
    ensures At(After(TokenChain(vs), false, all).mem, Win(|vs|)) == vs[|vs| - 1]
  {
    var P, n := TokenChain(vs), |vs|;
    Straight(vs);
    forall u | Ran(P, false, u) && !AtEnd(P, After(P, false, u).ctl)
      ensures CanMove(P, After(P, false, u).ctl)
    {
      ChainMoves(vs, u);
    }
    all := CanFinish(P, tr);
    EndOfChain(vs, all);
  }

  lemma Straight(vs: seq<int>)
    ensures NoBranches(TokenChain(vs))
  {
    var P := TokenChain(vs);
    forall t, j | 0 <= t < |P.threads| && 0 <= j < |P.threads[t].code|
      ensures !P.threads[t].code[j].Branch?
    {
      Calls(vs, Ev(t, j));
    }
  }

  lemma EndOfChain(vs: seq<int>, all: seq<Label>)
    requires vs != [] && Ran(TokenChain(vs), false, all) && Over(TokenChain(vs), After(TokenChain(vs), false, all))
    ensures Obs(|vs|, 1, vs[|vs| - 1]) in After(TokenChain(vs), false, all).obs
    ensures At(After(TokenChain(vs), false, all).mem, Win(|vs|)) == vs[|vs| - 1]
  {
    var P, n := TokenChain(vs), |vs|;
    Straight(vs);
    ChainSerialises(vs);
    var k := LoadObserved(P, false, all, Ev(n, 1));
    assert After(P, false, all).obs[k].value in {vs[n - 1]};
    ChainApart(vs);
    OrderedRefinesImmediate(P, all);
    LastPut(vs);
    Known(vs, n - 1);
    assert Passed(After(P, true, Erase(all)).ctl, PutAt(n - 1));
  }

  /** 033: rank 1 takes the token of rank 2, which is not in the chain, and loads. */
  function WrongToken(v: int): Program {
    Program([
      Thread(0, [Store(Buf(0), v), Acquire(LOCK, true), Rma(Put, 1, 0, Buf(0), Loc(1, 0)), Close(Both, OwnTo(1, 0)), Release(LOCK), Send(1, 0)]),
      Thread(1, [Recv(2, 0), Load(Loc(1, 0)), Recv(0, 0)]),
      Thread(2, [Send(1, 0)])
    ], map[])
  }

  lemma TokenTaken(v: int) returns (tr: seq<Label>, s: State)
    ensures LeadsTo(WrongToken(v), true, tr, s) && s.ctl.pc == [0, 1, 1] && s.ctl.held == {}
  {
    var P := WrongToken(v);
    tr, s := Start(P, true);
    Extend(P, true, tr, s, Go(2));
    tr, s := tr + [Go(2)], Next(P, true, s, Go(2)).value;
    assert s.ctl.pc == [0, 0, 1] && ChanAt(s.ctl, Chan(2, 1, 0)) > 0;
    Extend(P, true, tr, s, Go(1));
    tr, s := tr + [Go(1)], Next(P, true, s, Go(1)).value;
  }

  /** A token from a rank outside the chain orders nothing. */
  lemma {:induction false} WrongTokenRaces(v: int)
    ensures !RaceFree(WrongToken(v), false)
  {
    var P := WrongToken(v);
    var tr, s := TokenTaken(v);
    tr, s := Solo(P, true, tr, s, 0, 3);
    assert OnlySpins(P);
    Meets(P, tr, s, Ev(0, 2), Ev(1, 1), true);
  }
}
