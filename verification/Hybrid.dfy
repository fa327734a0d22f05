/**
 One process barrier for a team of threads (MPIRMA/hybrid/012, 019 and 021).

 Thread 0 is the origin process; threads `1 .. n` are the OpenMP team of the target process.
 */
module Hybrid {
  import opened Machine
  import opened Ordering
  import opened Separation
  import opened Values
  import opened Witness

  const LOCK := 1
  const VALUE := Loc(0, 1)
  const WIN := Loc(1, 0)

  const SET := Ev(0, 0)
  const PUT := Ev(0, 2)
  const UNLOCK := Ev(0, 3)

  /** The origin: lock, put, unlock, then the process barrier with thread `partner`. */
  function Putter(v: int, partner: nat): seq<Instr> {
    [Store(VALUE, v), Acquire(LOCK, true), Rma(Put, 1, 0, VALUE, WIN), Close(Both, OwnTo(1, 0)), Release(LOCK), Barrier({0, partner})]
  }

  predicate Plain(i: Instr) {
    !i.Rma? && !i.Branch? && !i.Store? && !i.Add? && (i.Load? ==> i.x == WIN)
  }

  predicate PlainCode(code: seq<Instr>) {
    forall p :: 0 <= p < |code| ==> Plain(code[p])
  }

  /** A putter, and a team that only synchronises and loads the cell. */
  ghost predicate PutterAndTeam(P: Program, v: int, partner: nat) {
    && |P.threads| > 0 && P.threads[0] == Thread(0, Putter(v, partner))
    && (forall t :: 1 <= t < |P.threads| ==> PlainCode(P.threads[t].code))
  }

  lemma PutterCalls(P: Program, v: int, partner: nat, e: Ev)
    requires PutterAndTeam(P, v, partner) && IsCall(P, e)
    ensures var i := CallAt(P, e);
            && !i.Branch? && (i.Rma? <==> e == PUT) && (e == PUT ==> i == Rma(Put, 1, 0, VALUE, WIN)) && (e == SET ==> i == Store(VALUE, v))
            && (Writes(i, WIN) ==> e == PUT) && (Writes(i, VALUE) ==> e == SET) && (i.Load? ==> e.tid > 0 && i.x == WIN)
  {
    if e.tid == 0 {
      var p := e.pos;
      assert p == 0 || p == 1 || p == 2 || p == 3 || p == 4 || p == 5;
    } else {
      assert PlainCode(P.threads[e.tid].code);
    }
  }

  /** If every load of the team comes after the unlock, the program is race free and every load by every
      thread sees the finished put. */
  lemma TeamSeesPut(P: Program, v: int, partner: nat, f: Ev)
    requires PutterAndTeam(P, v, partner)
    requires forall g :: IsCall(P, g) && CallAt(P, g).Load? ==> Before(P, UNLOCK, g)
    requires IsCall(P, f) && CallAt(P, f).Load?
    ensures RaceFree(P, false) && AlwaysLoads(P, false, f, {v})
  {
    forall e | IsCall(P, e)
      ensures var i := CallAt(P, e);
              && !i.Branch? && (i.Rma? <==> e == PUT) && (Writes(i, WIN) ==> e == PUT) && (Writes(i, VALUE) ==> e == SET)
              && (i.Load? ==> e.tid > 0 && i.x == WIN)
    {
      PutterCalls(P, v, partner, e);
    }
    assert OnlySpins(P) by {
      forall t, j | 0 <= t < |P.threads| && 0 <= j < |P.threads[t].code|
        ensures !P.threads[t].code[j].Branch?
      {
        assert CallAt(P, Ev(t, j)) == P.threads[t].code[j];
      }
    }
    PutterCalls(P, v, partner, PUT);
    PutterCalls(P, v, partner, SET);
    assert Completes(P, UNLOCK, PUT, true) && Before(P, PUT, UNLOCK) && Before(P, SET, PUT);
    TeamApart(P);
    BeforeTrans(P, PUT, UNLOCK, f);
    StoreYields(P, SET, VALUE, v);
    CopyYields(P, SET, PUT, v);
    OrderedIsRaceFree(P);
    LoadSeesLastWrite(P, PUT, f, WIN, v);
  }

  lemma TeamApart(P: Program)
    requires OnlySpins(P) && Completes(P, UNLOCK, PUT, true) && Before(P, PUT, UNLOCK)
    requires forall g :: IsCall(P, g) && CallAt(P, g).Load? ==> Before(P, UNLOCK, g)
    requires forall e :: IsCall(P, e) ==> (CallAt(P, e).Rma? <==> e == PUT)
    requires forall e :: IsCall(P, e) && Writes(CallAt(P, e), CallAt(P, PUT).dst) ==> e == PUT
    requires forall e :: IsCall(P, e) && Writes(CallAt(P, e), CallAt(P, PUT).src) ==> e == SET
    ensures WellSynchronised(P)
  {
    forall e, f | IsCall(P, e) && IsCall(P, f) && CallAt(P, e).Rma?
      ensures PairSafe(P, e, f)
    {
      if CallAt(P, f).Load? {
        assert CompletedBetween(P, e, f, true);
      }
    }
  }

  // ----- 012: the master thread runs the process barrier, then all threads meet

  function Team(n: nat): set<nat> {
    Upto(n + 1) - {0}
  }

  function Member(n: nat, t: nat): Thread {
    Thread(1, (if t == 1 then [Barrier({0, 1})] else []) + [Barrier(Team(n)), Load(WIN)])
  }

  function MasterBarrier(n: nat, v: int): Program {
    Program([Thread(0, Putter(v, 1))] + seq(n, k requires 0 <= k < n => Member(n, k + 1)), map[WIN := 0])
  }

  function LoadOf(t: nat): Ev {
    Ev(t, if t == 1 then 2 else 1)
  }

  lemma MasterIsTeam(n: nat, v: int)
    requires n > 0
    ensures PutterAndTeam(MasterBarrier(n, v), v, 1) && OnlySpins(MasterBarrier(n, v))
  {
    var P := MasterBarrier(n, v);
    forall u | 1 <= u <= n
      ensures PlainCode(P.threads[u].code)
    {
      assert P.threads[u] == Member(n, u);
    }
    forall u, j | 0 <= u < |P.threads| && 0 <= j < |P.threads[u].code|
      ensures !P.threads[u].code[j].Branch?
    {
      PutterCalls(P, v, 1, Ev(u, j));
    }
  }

  /** The process barrier orders the unlock before the team barrier, and the team barrier all loads. */
  lemma TwoBarriers(P: Program, v: int, n: nat, t: nat)
    requires OnlySpins(P) && 1 <= t <= n && |P.threads| == n + 1 && P.threads[0] == Thread(0, Putter(v, 1))
    requires P.threads[1] == Member(n, 1) && P.threads[t] == Member(n, t)
    ensures Before(P, UNLOCK, LoadOf(t))
  {
    var master, code := P.threads[1].code, P.threads[t].code;
    CountNone(P.threads[0].code, Barrier({0, 1}), 0, 3);
    CountSome(master, Barrier({0, 1}), 0, 1);
    BarrierBefore(P, UNLOCK, Ev(1, 1), {0, 1});
    assert 0 !in Team(n) && Barrier({0, 1}) != Barrier(Team(n));
    CountNone(master, Barrier(Team(n)), 0, 1);
    CountSome(code, Barrier(Team(n)), LoadOf(t).pos - 1, LoadOf(t).pos);
    BarrierBefore(P, Ev(1, 1), LoadOf(t), Team(n));
    BeforeTrans(P, UNLOCK, Ev(1, 1), LoadOf(t));
  }

  lemma MasterOrders(n: nat, v: int, t: nat)
    requires 1 <= t <= n
    ensures PutterAndTeam(MasterBarrier(n, v), v, 1) && OnlySpins(MasterBarrier(n, v))
    ensures Before(MasterBarrier(n, v), UNLOCK, LoadOf(t))
  {
    MasterIsTeam(n, v);
    TwoBarriers(MasterBarrier(n, v), v, n, t);
  }

  /** MAIN RESULT. MPIRMA/hybrid/012 for any team size: one process barrier by the master and one team
      barrier let every thread's load see the finished put, however long the put is delayed. */
  lemma {:induction false} MasterBarrierOrdersAll(n: nat, v: int, t: nat)
    requires 1 <= t <= n
    ensures RaceFree(MasterBarrier(n, v), false) && AlwaysLoads(MasterBarrier(n, v), false, LoadOf(t), {v})
  {
    var P := MasterBarrier(n, v);
    MasterOrders(n, v, t);
    forall g | IsCall(P, g) && CallAt(P, g).Load?
      ensures Before(P, UNLOCK, g)
    {
      PutterCalls(P, v, 1, g);
      assert P.threads[g.tid] == Member(n, g.tid);
      assert g == LoadOf(g.tid);
      MasterOrders(n, v, g.tid);
    }
    assert P.threads[t] == Member(n, t);
    TeamSeesPut(P, v, 1, LoadOf(t));
  }

  // ----- 019: an ordered loop carries the synchronisation

  /** What thread `own[i]` does in iteration `i` of the ordered loop: wait for the ordered region of the
      iteration before, run the region, let the next iteration in. Iteration 0 runs the process barrier,
      the others load. */
  function Region(own: seq<nat>, i: nat): seq<Instr>
    requires i < |own|
  {
    (if i == 0 then [Barrier({0, own[0]})] else [Recv(own[i - 1], i), Load(WIN)])
    + (if i + 1 < |own| then [Send(own[i + 1], i + 1)] else [])
  }

  /** The iterations below `k` that thread `t` runs, in increasing order. */
  function Iterations(own: seq<nat>, t: nat, k: nat): seq<Instr>
    requires k <= |own|
  {
    if k == 0 then [] else Iterations(own, t, k - 1) + if own[k - 1] == t then Region(own, k - 1) else []
  }

  /** `own[i]` is the thread that the schedule gives iteration `i` to, among `1 .. n`. */
  function OrderedLoop(n: nat, own: seq<nat>, v: int): Program
    requires |own| > 0
  {
    Program([Thread(0, Putter(v, own[0]))] + seq(n, k requires 0 <= k < n => Thread(1, Iterations(own, k + 1, |own|))), map[WIN := 0])
  }

  predicate Schedule(n: nat, own: seq<nat>) {
    |own| > 0 && forall i :: 0 <= i < |own| ==> 1 <= own[i] <= n
  }

  /** The load of iteration `i`, and the point where iteration `i` lets the next one in. */
  function IterationLoad(own: seq<nat>, i: nat): Ev
    requires i < |own|
  {
    Ev(own[i], |Iterations(own, own[i], i)| + 1)
  }

  function HandOver(own: seq<nat>, i: nat): Ev
    requires i < |own|
  {
    Ev(own[i], |Iterations(own, own[i], i)| + if i == 0 then 1 else 2)
  }

  lemma {:induction false} IterationsPrefix(own: seq<nat>, t: nat, k: nat, m: nat)
    requires k <= m <= |own|
    ensures Iterations(own, t, k) <= Iterations(own, t, m)
  {
    if k < m {
      IterationsPrefix(own, t, k, m - 1);
    }
  }

  lemma RegionAt(own: seq<nat>, i: nat)
    requires i < |own|
    ensures var code, p := Iterations(own, own[i], |own|), |Iterations(own, own[i], i)|;
            p + |Region(own, i)| <= |code| && code[p..p + |Region(own, i)|] == Region(own, i)
  {
    var t := own[i];
    IterationsPrefix(own, t, i + 1, |own|);
    assert Iterations(own, t, i + 1) == Iterations(own, t, i) + Region(own, i);
  }

  /** Every call of a team thread is plain, its loads are those of the iterations, its hand-overs carry
      the number of the iteration they let in. */
  lemma {:induction false} IterationCalls(own: seq<nat>, t: nat, k: nat, p: nat)
    requires k <= |own| && p < |Iterations(own, t, k)|
    ensures var i := Iterations(own, t, k)[p];
            && Plain(i) && (i.Send? ==> i.tag <= k)
            && (i.Load? ==> exists j :: 1 <= j < k && own[j] == t && IterationLoad(own, j) == Ev(t, p))
  {
    if p < |Iterations(own, t, k - 1)| {
      IterationCalls(own, t, k - 1, p);
    } else {
      var q := p - |Iterations(own, t, k - 1)|;
      assert own[k - 1] == t && Iterations(own, t, k)[p] == Region(own, k - 1)[q];
      assert q == 0 || q == 1 || q == 2;
      if Region(own, k - 1)[q].Load? {
        assert IterationLoad(own, k - 1) == Ev(t, p);
      }
    }
  }

  lemma TeamThread(n: nat, own: seq<nat>, v: int, t: nat)
    requires |own| > 0 && 1 <= t <= n
    ensures OrderedLoop(n, own, v).threads[t] == Thread(1, Iterations(own, t, |own|))
  {
  }

  lemma IterationsPlain(own: seq<nat>, t: nat)
    ensures PlainCode(Iterations(own, t, |own|))
  {
    var code := Iterations(own, t, |own|);
    forall p | 0 <= p < |code|
      ensures Plain(code[p])
    {
      IterationCalls(own, t, |own|, p);
    }
  }

  lemma OrderedTeam(n: nat, own: seq<nat>, v: int)
    requires Schedule(n, own)
    ensures PutterAndTeam(OrderedLoop(n, own, v), v, own[0]) && OnlySpins(OrderedLoop(n, own, v))
    ensures forall t :: 1 <= t <= n ==> OrderedLoop(n, own, v).threads[t] == Thread(1, Iterations(own, t, |own|))
  {
    var P := OrderedLoop(n, own, v);
    forall t | 1 <= t <= n
      ensures P.threads[t] == Thread(1, Iterations(own, t, |own|)) && PlainCode(P.threads[t].code)
    {
      TeamThread(n, own, v, t);
      IterationsPlain(own, t);
    }
    TeamSpins(P, v, own[0]);
  }

  lemma TeamSpins(P: Program, v: int, partner: nat)
    requires PutterAndTeam(P, v, partner)
    ensures OnlySpins(P)
  {
    forall u, j | 0 <= u < |P.threads| && 0 <= j < |P.threads[u].code|
      ensures !P.threads[u].code[j].Branch?
    {
      PutterCalls(P, v, partner, Ev(u, j));
    }
  }

  /** The calls of iteration `i` before its hand-over hand nothing over. */
  lemma BeforeHandOver(own: seq<nat>, i: nat, q: nat, to: nat, tag: nat)
    requires i < |own| && q < (if i == 0 then 1 else 2) && q < |Region(own, i)| && tag == i + 1
    ensures Region(own, i)[q] != Send(to, tag)
  {
  }

  lemma EarlierIterationsSend(own: seq<nat>, i: nat, u: nat, j: nat)
    requires 1 <= i < |own| && j < |Iterations(own, own[i - 1], i - 1)|
    ensures j < |Iterations(own, own[i - 1], |own|)| && Iterations(own, own[i - 1], |own|)[j] != Send(u, i)
  {
    IterationsPrefix(own, own[i - 1], i - 1, |own|);
    IterationCalls(own, own[i - 1], i - 1, j);
  }

  lemma CallOfRegion(own: seq<nat>, i: nat, q: nat)
    requires i < |own| && q < |Region(own, i)|
    ensures var code, p := Iterations(own, own[i], |own|), |Iterations(own, own[i], i)|;
            p + q < |code| && code[p + q] == Region(own, i)[q]
  {
    RegionAt(own, i);
    var code, p := Iterations(own, own[i], |own|), |Iterations(own, own[i], i)|;
    assert code[p..p + |Region(own, i)|][q] == code[p + q];
  }

  /** Nor do the iterations before it. */
  lemma NoEarlySend(own: seq<nat>, i: nat, u: nat, j: nat)
    requires 1 <= i < |own| && j < HandOver(own, i - 1).pos && j < |Iterations(own, own[i - 1], |own|)|
    ensures Iterations(own, own[i - 1], |own|)[j] != Send(u, i)
  {
    var p := |Iterations(own, own[i - 1], i - 1)|;
    if j < p {
      EarlierIterationsSend(own, i, u, j);
    } else {
      CallOfRegion(own, i - 1, j - p);
      BeforeHandOver(own, i - 1, j - p, u, i);
    }
  }

  lemma NothingHandedOverEarly(own: seq<nat>, i: nat)
    requires 1 <= i < |own|
    ensures var c, a := Iterations(own, own[i - 1], |own|), HandOver(own, i - 1).pos;
            a <= |c| && Count(c, Send(own[i], i), a) == 0
  {
    var c, a := Iterations(own, own[i - 1], |own|), HandOver(own, i - 1).pos;
    RegionAt(own, i - 1);
    forall j | 0 <= j < a
      ensures c[j] != Send(own[i], i)
    {
      NoEarlySend(own, i, own[i], j);
    }
    CountNone(c, Send(own[i], i), 0, a);
  }

  lemma LetIn(own: seq<nat>, i: nat)
    requires 1 <= i < |own|
    ensures var d, b := Iterations(own, own[i], |own|), IterationLoad(own, i).pos;
            b <= |d| && Count(d, Recv(own[i - 1], i), b) > 0
  {
    var d, q := Iterations(own, own[i], |own|), |Iterations(own, own[i], i)|;
    RegionAt(own, i);
    assert d[q] == Region(own, i)[0];
    CountSome(d, Recv(own[i - 1], i), q, q + 1);
  }

  /** Iteration `i` runs after what iteration `i - 1` handed over. */
  lemma HandOverOrders(n: nat, own: seq<nat>, v: int, i: nat)
    requires Schedule(n, own) && 1 <= i < |own|
    ensures Before(OrderedLoop(n, own, v), HandOver(own, i - 1), IterationLoad(own, i))
  {
    OrderedTeam(n, own, v);
    NothingHandedOverEarly(own, i);
    LetIn(own, i);
    MessageBefore(OrderedLoop(n, own, v), HandOver(own, i - 1), IterationLoad(own, i), i);
  }

  lemma {:induction false} LoopOrders(n: nat, own: seq<nat>, v: int, i: nat)
    requires Schedule(n, own) && i < |own|
    ensures Before(OrderedLoop(n, own, v), UNLOCK, HandOver(own, i))
    ensures i > 0 ==> Before(OrderedLoop(n, own, v), UNLOCK, IterationLoad(own, i))
  {
    var P := OrderedLoop(n, own, v);
    if i == 0 {
      OrderedTeam(n, own, v);
      RegionAt(own, 0);
      var c := P.threads[own[0]].code;
      CountNone(P.threads[0].code, Barrier({0, own[0]}), 0, 3);
      assert c[0] == Region(own, 0)[0];
      CountSome(c, Barrier({0, own[0]}), 0, 1);
      BarrierBefore(P, UNLOCK, HandOver(own, 0), {0, own[0]});
    } else {
      LoopOrders(n, own, v, i - 1);
      HandOverOrders(n, own, v, i);
      BeforeTrans(P, UNLOCK, HandOver(own, i - 1), IterationLoad(own, i));
      assert Before(P, IterationLoad(own, i), HandOver(own, i));
      BeforeTrans(P, UNLOCK, IterationLoad(own, i), HandOver(own, i));
    }
  }

  /** MAIN RESULT. MPIRMA/hybrid/019 for any team size, iteration count and schedule: the process barrier
      in iteration 0 of the ordered loop lets the load of every later iteration see the finished put. */
  lemma {:induction false} OrderedLoopOrdersAll(n: nat, own: seq<nat>, v: int, i: nat)
    requires Schedule(n, own) && 1 <= i < |own|
    ensures RaceFree(OrderedLoop(n, own, v), false) && AlwaysLoads(OrderedLoop(n, own, v), false, IterationLoad(own, i), {v})
  {
    var P := OrderedLoop(n, own, v);
    OrderedTeam(n, own, v);
    forall g | IsCall(P, g) && CallAt(P, g).Load?
      ensures Before(P, UNLOCK, g)
    {
      PutterCalls(P, v, own[0], g);
      IterationCalls(own, g.tid, |own|, g.pos);
      var j :| 1 <= j < |own| && own[j] == g.tid && IterationLoad(own, j) == g;
      LoopOrders(n, own, v, j);
    }
    RegionAt(own, i);
    var f := IterationLoad(own, i);
    assert CallAt(P, f) == Region(own, i)[1];
    TeamSeesPut(P, v, own[0], f);
  }

  // ----- 021: the barrier is run by a thread other than the one that puts

  function OtherThread(v: int): Program {
    Program([
      Thread(0, [Store(VALUE, v), Acquire(LOCK, true), Rma(Put, 1, 0, VALUE, WIN), Close(Both, OwnTo(1, 0)), Release(LOCK)]),
      Thread(0, [Barrier({1, 2})]),
      Thread(1, [Barrier({1, 2}), Load(WIN)])
    ], map[WIN := 0])
  }

  /** MPIRMA/hybrid/021: such a barrier orders nothing. */
  lemma {:induction false} OtherThreadRaces(v: int)
    ensures !RaceFree(OtherThread(v), false)
  {
    var P := OtherThread(v);
    var tr, s := Start(P, true);
    tr, s := Together(P, true, tr, s, {1, 2});
    assert s.ctl.pc == [0, 1, 1];
    tr, s := Solo(P, true, tr, s, 0, 3);
    MeetsLoad(P, tr, s, Ev(0, 2), Ev(2, 1), true);
  }
}
