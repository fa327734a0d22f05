/**
 The ordered loop of MPIRMA/hybrid/019 always comes to its end: whatever the schedule of the iterations and
 the delays, each iteration gets its turn.
 */
module LoopEnds {
  import opened Machine
  import opened Refinement
  import opened Ordering
  import opened Values
  import opened Progress
  import opened Finishing
  import opened Hybrid

  /** The thread of iteration `i` has finished it. */
  predicate DoneWith(own: seq<nat>, c: Ctl, i: nat)
    requires i < |own|
  {
    own[i] < |c.pc| && c.pc[own[i]] >= |Iterations(own, own[i], i + 1)|
  }

  lemma {:induction false} Progressed(own: seq<nat>, c: Ctl, t: nat, k: nat)
    requires k <= |own| && t < |c.pc| && forall j :: 0 <= j < k ==> DoneWith(own, c, j)
    ensures c.pc[t] >= |Iterations(own, t, k)|
  {
    if k > 0 {
      if own[k - 1] == t {
        assert DoneWith(own, c, k - 1);
      } else {
        Progressed(own, c, t, k - 1);
      }
    }
  }

  lemma {:induction false} FirstUndone(own: seq<nat>, c: Ctl, k: nat) returns (i: nat)
    requires k < |own| && !DoneWith(own, c, k)
    ensures i <= k && !DoneWith(own, c, i) && forall j :: 0 <= j < i ==> DoneWith(own, c, j)
  {
    if j: nat :| j < k && !DoneWith(own, c, j) {
      i := FirstUndone(own, c, j);
    } else {
      i := k;
    }
  }

  /** The calls of the loop: no lock, no notification, a barrier only at the very start. */
  lemma {:induction false} LoopCalls(own: seq<nat>, t: nat, k: nat, p: nat)
    requires k <= |own| && p < |Iterations(own, t, k)|
    ensures var c := Iterations(own, t, k)[p];
            !c.Acquire? && !c.Await? && (c.Recv? ==> c.tag < k) && (c.Barrier? <==> t == own[0] && p == 0)
  {
    if p < |Iterations(own, t, k - 1)| {
      LoopCalls(own, t, k - 1, p);
    } else {
      var q := p - |Iterations(own, t, k - 1)|;
      assert own[k - 1] == t && Iterations(own, t, k)[p] == Region(own, k - 1)[q];
      assert q == 0 || q == 1 || q == 2;
      if t == own[0] && k > 1 {
        IterationsPrefix(own, t, 1, k - 1);
        assert Iterations(own, t, 1) == Iterations(own, t, 0) + Region(own, 0);
      }
    }
  }

  /** Thread `own[i]` stands at a call of iteration `i`. */
  lemma InIteration(own: seq<nat>, c: Ctl, i: nat) returns (q: nat)
    requires i < |own| && own[i] < |c.pc| && !DoneWith(own, c, i) && forall j :: 0 <= j < i ==> DoneWith(own, c, j)
    ensures c.pc[own[i]] == |Iterations(own, own[i], i)| + q && q < |Region(own, i)|
    ensures c.pc[own[i]] < |Iterations(own, own[i], |own|)| && Iterations(own, own[i], |own|)[c.pc[own[i]]] == Region(own, i)[q]
  {
    var t := own[i];
    Progressed(own, c, t, i);
    assert Iterations(own, t, i + 1) == Iterations(own, t, i) + Region(own, i);
    IterationsPrefix(own, t, i + 1, |own|);
    q := c.pc[t] - |Iterations(own, t, i)|;
    assert Iterations(own, t, i + 1)[c.pc[t]] == Region(own, i)[q];
  }

  /** The iteration before has let iteration `i` in. */
  lemma LetInByNow(n: nat, own: seq<nat>, v: int, c: Ctl, i: nat)
    requires Schedule(n, own) && 1 <= i < |own| && |c.pc| == n + 1 && DoneWith(own, c, i - 1)
    requires c.pc[own[i]] == |Iterations(own, own[i], i)| && c.pc[own[i - 1]] <= |Iterations(own, own[i - 1], |own|)|
    ensures SentMore(OrderedLoop(n, own, v), c, own[i - 1], own[i], i)
  {
    var t, u := own[i], own[i - 1];
    OrderedTeam(n, own, v);
    var code, last := Iterations(own, u, |own|), |Iterations(own, u, i)| - 1;
    IterationsPrefix(own, u, i, |own|);
    assert Iterations(own, u, i) == Iterations(own, u, i - 1) + Region(own, i - 1);
    assert code[last] == Iterations(own, u, i)[last] == Send(t, i);
    CountSome(code, Send(t, i), last, c.pc[u]);
    var mine := Iterations(own, t, |own|);
    IterationsPrefix(own, t, i, |own|);
    forall j | 0 <= j < c.pc[t]
      ensures mine[j] != Recv(u, i)
    {
      assert mine[j] == Iterations(own, t, i)[j];
      LoopCalls(own, t, i, j);
    }
    CountNone(mine, Recv(u, i), 0, c.pc[t]);
  }

  /** The first iteration that is not done can go on, or waits at the process barrier. */
  lemma TurnMoves(n: nat, own: seq<nat>, v: int, c: Ctl, i: nat)
    requires Schedule(n, own) && i < |own| && |c.pc| == n + 1 && !DoneWith(own, c, i) && forall j :: 0 <= j < i ==> DoneWith(own, c, j)
    requires forall t :: 1 <= t <= n ==> c.pc[t] <= |Iterations(own, t, |own|)|
    ensures FreeToGo(OrderedLoop(n, own, v), c, own[i]) || (i == 0 && c.pc[own[0]] == 0)
  {
    OrderedTeam(n, own, v);
    var q := InIteration(own, c, i);
    if i > 0 && q == 0 {
      assert DoneWith(own, c, i - 1);
      LetInByNow(n, own, v, c, i);
    }
  }

  /** The origin holds the only lock. */
  lemma PutterMoves(n: nat, own: seq<nat>, v: int, c: Ctl)
    requires Schedule(n, own) && |c.pc| == n + 1 && c.pc[0] < 5
    ensures FreeToGo(OrderedLoop(n, own, v), c, 0)
  {
    var P := OrderedLoop(n, own, v);
    OrderedTeam(n, own, v);
    forall u | 0 <= u < |P.threads| && u != 0
      ensures !InTheWay(P, c, u, LOCK, true)
    {
      var code := Iterations(own, u, |own|);
      forall p | 0 <= p < |code|
        ensures !code[p].Acquire?
      {
        LoopCalls(own, u, |own|, p);
      }
      if c.pc[u] <= |code| {
        NoLockTaken(code, LOCK, true, c.pc[u]);
        NoLockTaken(code, LOCK, false, c.pc[u]);
      }
    }
    var p := c.pc[0];
    assert p == 0 || p == 1 || p == 2 || p == 3 || p == 4;
  }

  lemma {:induction false} NoLockTaken(code: seq<Instr>, lock: nat, excl: bool, n: nat)
    requires n <= |code| && forall p :: 0 <= p < |code| ==> !code[p].Acquire?
    ensures !HoldsIn(code, lock, excl, n)
  {
    if n > 0 {
      NoLockTaken(code, lock, excl, n - 1);
    }
  }

  /** The origin has passed the process barrier exactly when the thread of iteration 0 has. */
  lemma PassTogether(n: nat, own: seq<nat>, v: int, tr: seq<Label>)
    requires Schedule(n, own) && Ran(OrderedLoop(n, own, v), false, tr)
    ensures var c := After(OrderedLoop(n, own, v), false, tr).ctl; c.pc[0] <= 6 && (c.pc[0] == 6 <==> c.pc[own[0]] > 0)
  {
    var P, b := OrderedLoop(n, own, v), Barrier({0, own[0]});
    var c := After(P, false, tr).ctl;
    OrderedTeam(n, own, v);
    BarrierCounts(P, false, tr, {0, own[0]}, 0, own[0]);
    var code := P.threads[own[0]].code;
    RegionAt(own, 0);
    assert code[0] == Region(own, 0)[0] == b;
    CountNone(P.threads[0].code, b, 0, if c.pc[0] < 6 then c.pc[0] else 5);
    if c.pc[0] == 6 {
      CountSome(P.threads[0].code, b, 5, 6);
    }
    if c.pc[own[0]] > 0 {
      CountSome(code, b, 0, c.pc[own[0]]);
    }
  }

  lemma DoneMeansEnd(n: nat, own: seq<nat>, v: int, c: Ctl)
    requires Schedule(n, own) && |c.pc| == n + 1 && 5 <= c.pc[0] <= 6 && (c.pc[0] == 6 <==> c.pc[own[0]] > 0)
    requires forall t :: 1 <= t <= n ==> c.pc[t] <= |Iterations(own, t, |own|)|
    requires forall k :: 0 <= k < |own| ==> DoneWith(own, c, k)
    ensures AtEnd(OrderedLoop(n, own, v), c)
  {
    OrderedTeam(n, own, v);
    forall t | 1 <= t <= n
      ensures c.pc[t] == |Iterations(own, t, |own|)|
    {
      Progressed(own, c, t, |own|);
    }
    assert DoneWith(own, c, 0);
    assert Iterations(own, own[0], 1) == Iterations(own, own[0], 0) + Region(own, 0);
  }

  lemma StartMeets(n: nat, own: seq<nat>, v: int, c: Ctl)
    requires Schedule(n, own) && |c.pc| == n + 1 && c.pc[0] == 5 && c.pc[own[0]] == 0
    ensures MayMeet(OrderedLoop(n, own, v), c, {0, own[0]})
  {
    OrderedTeam(n, own, v);
    RegionAt(own, 0);
    assert Iterations(own, own[0], |own|)[0] == Region(own, 0)[0];
  }

  lemma LoopMovesAt(n: nat, own: seq<nat>, v: int, c: Ctl)
    requires Schedule(n, own) && |c.pc| == n + 1 && c.pc[0] <= 6 && (c.pc[0] == 6 <==> c.pc[own[0]] > 0)
    requires forall t :: 1 <= t <= n ==> c.pc[t] <= |Iterations(own, t, |own|)|
    ensures AtEnd(OrderedLoop(n, own, v), c) || CanMove(OrderedLoop(n, own, v), c)
  {
    if c.pc[0] < 5 {
      PutterMoves(n, own, v, c);
    } else if k: nat :| k < |own| && !DoneWith(own, c, k) {
      var i := FirstUndone(own, c, k);
      TurnMoves(n, own, v, c, i);
      if i == 0 && c.pc[own[0]] == 0 {
        StartMeets(n, own, v, c);
      }
    } else {
      DoneMeansEnd(n, own, v, c);
    }
  }

  lemma LoopMoves(n: nat, own: seq<nat>, v: int, tr: seq<Label>)
    requires Schedule(n, own) && Ran(OrderedLoop(n, own, v), false, tr)
    ensures var P, c := OrderedLoop(n, own, v), After(OrderedLoop(n, own, v), false, tr).ctl; AtEnd(P, c) || CanMove(P, c)
  {
    var P := OrderedLoop(n, own, v);
    OrderedTeam(n, own, v);
    PassTogether(n, own, v, tr);
    forall t | 1 <= t <= n
      ensures After(P, false, tr).ctl.pc[t] <= |Iterations(own, t, |own|)|
    {
      InBounds(P, false, tr, t);
    }
    LoopMovesAt(n, own, v, After(P, false, tr).ctl);
  }

  /** MAIN RESULT. MPIRMA/hybrid/019 for any team size, iteration count and schedule: every run can be continued
      until all threads are at their end, and then the load of every later iteration has returned the value put. */
  lemma {:induction false} LoopFinishes(n: nat, own: seq<nat>, v: int, tr: seq<Label>) returns (all: seq<Label>)
    requires Schedule(n, own) && Ran(OrderedLoop(n, own, v), false, tr)
    ensures Finishes(OrderedLoop(n, own, v), tr, all)
    ensures forall i :: 1 <= i < |own| ==>
      Obs(IterationLoad(own, i).tid, IterationLoad(own, i).pos, v) in After(OrderedLoop(n, own, v), false, all).obs
  {
    var P := OrderedLoop(n, own, v);
    OrderedTeam(n, own, v);
    forall t, j | 0 <= t < |P.threads| && 0 <= j < |P.threads[t].code|
      ensures !P.threads[t].code[j].Branch?
    {
      PutterCalls(P, v, own[0], Ev(t, j));
    }
    forall u | Ran(P, false, u) && !AtEnd(P, After(P, false, u).ctl)
      ensures CanMove(P, After(P, false, u).ctl)
    {
      LoopMoves(n, own, v, u);
    }
    all := CanFinish(P, tr);
    forall i | 1 <= i < |own|
      ensures Obs(IterationLoad(own, i).tid, IterationLoad(own, i).pos, v) in After(P, false, all).obs
    {
      IterationLoaded(n, own, v, all, i);
    }
  }

  lemma IterationLoaded(n: nat, own: seq<nat>, v: int, all: seq<Label>, i: nat)
    requires Schedule(n, own) && 1 <= i < |own| && Ran(OrderedLoop(n, own, v), false, all) && NoBranches(OrderedLoop(n, own, v))
    requires Over(OrderedLoop(n, own, v), After(OrderedLoop(n, own, v), false, all))
    ensures var f := IterationLoad(own, i); Obs(f.tid, f.pos, v) in After(OrderedLoop(n, own, v), false, all).obs
  {
    var P, f := OrderedLoop(n, own, v), IterationLoad(own, i);
    OrderedTeam(n, own, v);
    RegionAt(own, i);
    assert CallAt(P, f) == Region(own, i)[1] == Load(WIN);
    OrderedLoopOrdersAll(n, own, v, i);
    var k := LoadObserved(P, false, all, f);
    assert After(P, false, all).obs[k].value in {v};
  }
}
