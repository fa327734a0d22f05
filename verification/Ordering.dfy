/**
 When synchronisation and completion order two accesses.

 `Before(P, a, b)` says that in every run, with or without delays, a thread that has come as far as call
 `b` finds call `a` executed. Barriers, messages and notifications give such facts, and they compose. Completing calls,
 notifications and locks say when an operation is over.
 */
module Ordering {
  import opened Machine
  import opened Refinement

  ghost predicate Ran(P: Program, imm: bool, tr: seq<Label>) {
    Exec(P, imm, tr).Some?
  }

  ghost function After(P: Program, imm: bool, tr: seq<Label>): (s: State)
    requires Ran(P, imm, tr)
    ensures Shape(P, s)
  {
    Exec(P, imm, tr).value
  }

  predicate IsCall(P: Program, e: Ev) {
    e.tid < |P.threads| && e.pos < |P.threads[e.tid].code|
  }

  function CallAt(P: Program, e: Ev): Instr
    requires IsCall(P, e)
  {
    P.threads[e.tid].code[e.pos]
  }

  /** The threads `0 .. n-1`. */
  function Upto(n: nat): (g: set<nat>)
    ensures forall t: nat :: t in g <==> t < n
  {
    if n == 0 then {} else Upto(n - 1) + {n - 1}
  }

  /** The part of `log` before the first `e`. */
  function Until(log: seq<Ev>, e: Ev): (r: seq<Ev>)
    ensures r <= log && e !in r
  {
    if e in log then Until(log[..|log| - 1], e) else log
  }

  predicate Reached(c: Ctl, e: Ev) {
    e.tid < |c.pc| && c.pc[e.tid] >= e.pos
  }

  predicate Passed(c: Ctl, e: Ev) {
    e.tid < |c.pc| && c.pc[e.tid] > e.pos
  }

  ghost predicate Before(P: Program, a: Ev, b: Ev) {
    forall imm, tr :: Ran(P, imm, tr) && Reached(After(P, imm, tr).ctl, b) ==> Passed(After(P, imm, tr).ctl, a)
  }

  lemma BeforeTrans(P: Program, a: Ev, b: Ev, c: Ev)
    requires Before(P, a, b) && Before(P, b, c)
    ensures Before(P, a, c)
  {
  }

  // ----- loops

  predicate IsQuiet(i: Instr) {
    i.Load? || i.Branch?
  }

  predicate AllQuiet(code: seq<Instr>, lo: nat, hi: nat) {
    forall i :: lo <= i < hi && i < |code| ==> IsQuiet(code[i])
  }

  /** Branches only skip or repeat loads: the waiting loops of the programs. */
  predicate OnlySpins(P: Program) {
    forall t, j :: 0 <= t < |P.threads| && 0 <= j < |P.threads[t].code| && P.threads[t].code[j].Branch? ==>
      Spin(P.threads[t].code, j, P.threads[t].code[j].target)
  }

  predicate Spin(code: seq<Instr>, j: nat, target: nat) {
    target <= |code| && (if target <= j then AllQuiet(code, target, j + 1) else AllQuiet(code, j, target))
  }

  /** How often call `i` occurs in the first `n` calls. */
  function Count(code: seq<Instr>, i: Instr, n: nat): nat
    requires n <= |code|
  {
    if n == 0 then 0 else Count(code, i, n - 1) + if code[n - 1] == i then 1 else 0
  }

  /** The first `n` counts one by one, for short programs. */
  lemma CountEach(code: seq<Instr>, i: Instr, n: nat)
    requires n <= |code|
    ensures Count(code, i, 0) == 0
    ensures forall k {:trigger Count(code, i, k)} :: 0 <= k < n ==> Count(code, i, k + 1) == Count(code, i, k) + if code[k] == i then 1 else 0
  {
  }

  lemma {:induction false} CountMonotone(code: seq<Instr>, i: Instr, a: nat, b: nat)
    requires a <= b <= |code|
    ensures Count(code, i, a) <= Count(code, i, b)
  {
    if a < b {
      CountMonotone(code, i, a, b - 1);
    }
  }

  lemma {:induction false} CountNone(code: seq<Instr>, i: Instr, a: nat, b: nat)
    requires a <= b <= |code| && forall j :: a <= j < b ==> code[j] != i
    ensures Count(code, i, a) == Count(code, i, b)
  {
    if a < b {
      CountNone(code, i, a, b - 1);
    }
  }

  lemma CountSome(code: seq<Instr>, i: Instr, p: nat, b: nat)
    requires p < b <= |code| && code[p] == i
    ensures Count(code, i, b) > Count(code, i, p)
  {
    CountMonotone(code, i, p + 1, b);
  }

  lemma {:induction false} CountQuiet(code: seq<Instr>, i: Instr, a: nat, b: nat)
    requires a <= b <= |code| && AllQuiet(code, a, b) && !IsQuiet(i)
    ensures Count(code, i, a) == Count(code, i, b)
  {
    if a < b {
      CountQuiet(code, i, a, b - 1);
      assert IsQuiet(code[b - 1]);
    }
  }

  /** The mode in which a thread that executed the first `n` calls holds `lock`. */
  function HoldMode(code: seq<Instr>, lock: nat, n: nat): Option<bool>
    requires n <= |code|
  {
    if n == 0 then None
    else if code[n - 1].Acquire? && code[n - 1].lock == lock then Some(code[n - 1].excl)
    else if code[n - 1].Release? && code[n - 1].lock == lock then None
    else HoldMode(code, lock, n - 1)
  }

  predicate TouchesLock(i: Instr, lock: nat) {
    (i.Acquire? || i.Release?) && i.lock == lock
  }

  lemma {:induction false} HoldModeSame(code: seq<Instr>, lock: nat, a: nat, b: nat)
    requires a <= b <= |code| && forall i :: a <= i < b ==> !TouchesLock(code[i], lock)
    ensures HoldMode(code, lock, a) == HoldMode(code, lock, b)
  {
    if a < b {
      HoldModeSame(code, lock, a, b - 1);
      assert !TouchesLock(code[b - 1], lock);
    }
  }

  // ----- one step

  lemma {:induction false} InBounds(P: Program, imm: bool, tr: seq<Label>, t: nat)
    requires OnlySpins(P) && Ran(P, imm, tr) && t < |P.threads|
    ensures After(P, imm, tr).ctl.pc[t] <= |P.threads[t].code|
  {
    if tr != [] {
      InBounds(P, imm, tr[..|tr| - 1], t);
      var s, l := After(P, imm, tr[..|tr| - 1]), tr[|tr| - 1];
      if l.Go? && l.t == t {
        var code, j := P.threads[t].code, s.ctl.pc[t];
        assert code[j].Branch? ==> Spin(code, j, code[j].target);
      }
    }
  }

  /** Step `l` from `s` executes call `e`. */
  predicate Executes(P: Program, s: State, l: Label, e: Ev)
    requires Shape(P, s) && IsCall(P, e)
  {
    s.ctl.pc[e.tid] == e.pos && (l == Go(e.tid) || (l.Meet? && e.tid in l.g))
  }

  /** A call other than a load or branch is passed exactly by executing it, and stays passed. */
  lemma PassedStep(P: Program, imm: bool, s: State, l: Label, e: Ev)
    requires OnlySpins(P) && Shape(P, s) && Next(P, imm, s, l).Some?
    requires IsCall(P, e) && !IsQuiet(CallAt(P, e))
    ensures Passed(Next(P, imm, s, l).value.ctl, e) <==> Passed(s.ctl, e) || Executes(P, s, l, e)
  {
    if l == Go(e.tid) && NextCall(P, s.ctl, e.tid).Branch? {
      var code, j := P.threads[e.tid].code, s.ctl.pc[e.tid];
      assert Spin(code, j, code[j].target);
      assert IsQuiet(code[j]) && !IsQuiet(code[e.pos]);
    }
  }

  lemma CountStep(P: Program, imm: bool, s: State, l: Label, t: nat, i: Instr)
    requires OnlySpins(P) && Shape(P, s) && Next(P, imm, s, l).Some? && t < |P.threads| && !IsQuiet(i)
    requires s.ctl.pc[t] <= |P.threads[t].code| && Next(P, imm, s, l).value.ctl.pc[t] <= |P.threads[t].code|
    ensures var code := P.threads[t].code;
            Count(code, i, Next(P, imm, s, l).value.ctl.pc[t]) == Count(code, i, s.ctl.pc[t])
            + if (l == Go(t) || (l.Meet? && t in l.g)) && code[s.ctl.pc[t]] == i then 1 else 0
  {
    var code, j, j' := P.threads[t].code, s.ctl.pc[t], Next(P, imm, s, l).value.ctl.pc[t];
    if l == Go(t) && code[j].Branch? {
      assert Spin(code, j, code[j].target);
      if j' <= j {
        CountQuiet(code, i, j', j);
      } else {
        CountQuiet(code, i, j, j');
      }
    }
  }

  // ----- barriers

  lemma {:induction false} BarrierCounts(P: Program, imm: bool, tr: seq<Label>, g: set<nat>, t: nat, u: nat)
    requires OnlySpins(P) && Ran(P, imm, tr) && t in g && u in g && t < |P.threads| && u < |P.threads|
    ensures After(P, imm, tr).ctl.pc[t] <= |P.threads[t].code| && After(P, imm, tr).ctl.pc[u] <= |P.threads[u].code|
    ensures Count(P.threads[t].code, Barrier(g), After(P, imm, tr).ctl.pc[t]) == Count(P.threads[u].code, Barrier(g), After(P, imm, tr).ctl.pc[u])
  {
    InBounds(P, imm, tr, t);
    InBounds(P, imm, tr, u);
    if tr != [] {
      var before := tr[..|tr| - 1];
      BarrierCounts(P, imm, before, g, t, u);
      CountStep(P, imm, After(P, imm, before), tr[|tr| - 1], t, Barrier(g));
      CountStep(P, imm, After(P, imm, before), tr[|tr| - 1], u, Barrier(g));
    }
  }

  /** A barrier orders what comes before it in one member with what comes after it in another. */
  lemma {:induction false} BarrierBefore(P: Program, a: Ev, b: Ev, g: set<nat>)
    requires OnlySpins(P) && a.tid in g && b.tid in g && a.tid < |P.threads| && b.tid < |P.threads|
    requires a.pos <= |P.threads[a.tid].code| && b.pos <= |P.threads[b.tid].code|
    requires Count(P.threads[a.tid].code, Barrier(g), a.pos) < Count(P.threads[b.tid].code, Barrier(g), b.pos)
    ensures Before(P, a, b)
  {
    forall imm, tr | Ran(P, imm, tr) && Reached(After(P, imm, tr).ctl, b)
      ensures Passed(After(P, imm, tr).ctl, a)
    {
      BarrierCounts(P, imm, tr, g, a.tid, b.tid);
      CountMonotone(P.threads[b.tid].code, Barrier(g), b.pos, After(P, imm, tr).ctl.pc[b.tid]);
      if After(P, imm, tr).ctl.pc[a.tid] <= a.pos {
        CountMonotone(P.threads[a.tid].code, Barrier(g), After(P, imm, tr).ctl.pc[a.tid], a.pos);
      }
    }
  }

  // ----- messages

  lemma ChanStep(P: Program, imm: bool, s: State, l: Label, t: nat, u: nat, tag: nat)
    requires Shape(P, s) && Next(P, imm, s, l).Some? && t < |P.threads| && u < |P.threads|
    ensures var c, c' := s.ctl, Next(P, imm, s, l).value.ctl;
            var got, put := l == Go(u) && NextCall(P, c, u) == Recv(t, tag), l == Go(t) && NextCall(P, c, t) == Send(u, tag);
            ChanAt(c', Chan(t, u, tag)) + (if got then 1 else 0) == ChanAt(c, Chan(t, u, tag)) + (if put then 1 else 0)
  {
  }

  lemma {:induction false} MessageCounts(P: Program, imm: bool, tr: seq<Label>, t: nat, u: nat, tag: nat)
    requires OnlySpins(P) && Ran(P, imm, tr) && t < |P.threads| && u < |P.threads|
    ensures After(P, imm, tr).ctl.pc[t] <= |P.threads[t].code| && After(P, imm, tr).ctl.pc[u] <= |P.threads[u].code|
    ensures ChanAt(After(P, imm, tr).ctl, Chan(t, u, tag)) + Count(P.threads[u].code, Recv(t, tag), After(P, imm, tr).ctl.pc[u])
         == Count(P.threads[t].code, Send(u, tag), After(P, imm, tr).ctl.pc[t])
  {
    InBounds(P, imm, tr, t);
    InBounds(P, imm, tr, u);
    if tr != [] {
      var before, l := tr[..|tr| - 1], tr[|tr| - 1];
      MessageCounts(P, imm, before, t, u, tag);
      CountStep(P, imm, After(P, imm, before), l, t, Send(u, tag));
      CountStep(P, imm, After(P, imm, before), l, u, Recv(t, tag));
      ChanStep(P, imm, After(P, imm, before), l, t, u, tag);
    }
  }

  /** A received message orders what its sender did first. */
  lemma {:induction false} MessageBefore(P: Program, a: Ev, b: Ev, tag: nat)
    requires OnlySpins(P) && a.tid < |P.threads| && b.tid < |P.threads|
    requires a.pos <= |P.threads[a.tid].code| && b.pos <= |P.threads[b.tid].code|
    requires Count(P.threads[a.tid].code, Send(b.tid, tag), a.pos) < Count(P.threads[b.tid].code, Recv(a.tid, tag), b.pos)
    ensures Before(P, a, b)
  {
    forall imm, tr | Ran(P, imm, tr) && Reached(After(P, imm, tr).ctl, b)
      ensures Passed(After(P, imm, tr).ctl, a)
    {
      MessageCounts(P, imm, tr, a.tid, b.tid, tag);
      CountMonotone(P.threads[b.tid].code, Recv(a.tid, tag), b.pos, After(P, imm, tr).ctl.pc[b.tid]);
      if After(P, imm, tr).ctl.pc[a.tid] <= a.pos {
        CountMonotone(P.threads[a.tid].code, Send(b.tid, tag), After(P, imm, tr).ctl.pc[a.tid], a.pos);
      }
    }
  }

  // ----- operations in flight

  /** Operation `o` was issued by the call at its recorded position. */
  ghost predicate Issuer(P: Program, c: Ctl, o: Op) {
    var e := Ev(o.tid, o.pos);
    && IsCall(P, e) && Passed(c, e)
    && CallAt(P, e) == Rma(o.kind, o.peer, o.queue, o.src, o.dst)
    && o.owner == P.threads[o.tid].rank
    && o.batch == Count(P.threads[o.tid].code, Order, o.pos)
    && o.id < c.clock
  }

  /** The same operation, but for what its accesses and its completing calls change. */
  predicate SameIssued(a: Op, b: Op) {
    b == a.(srcOpen := b.srcOpen, dstOpen := b.dstOpen, phase := b.phase, val := b.val)
  }

  /** A step keeps every operation, only lowers its flags, and adds at most the one it issues. */
  lemma IssueStep(P: Program, imm: bool, s: State, l: Label, k: nat)
    requires Shape(P, s) && Next(P, imm, s, l).Some? && k < |Next(P, imm, s, l).value.ops|
    ensures var s' := Next(P, imm, s, l).value;
            if k < |s.ops| then
              && SameIssued(s.ops[k], s'.ops[k])
              && (s'.ops[k].srcOpen ==> s.ops[k].srcOpen) && (s'.ops[k].dstOpen ==> s.ops[k].dstOpen)
            else
              && l.Go? && k == |s.ops| && Running(P, s.ctl, l.t) && NextCall(P, s.ctl, l.t).Rma?
              && SameIssued(NewOp(P, s.ctl, l.t, NextCall(P, s.ctl, l.t)), s'.ops[k])
  {
  }

  lemma IssuerStep(P: Program, imm: bool, s: State, l: Label, k: nat)
    requires OnlySpins(P) && Shape(P, s) && Next(P, imm, s, l).Some? && k < |Next(P, imm, s, l).value.ops|
    requires k < |s.ops| ==> Issuer(P, s.ctl, s.ops[k])
    requires l.Go? && l.t < |P.threads| ==>
      s.ctl.pc[l.t] <= |P.threads[l.t].code| && s.ctl.batch[l.t] == Count(P.threads[l.t].code, Order, s.ctl.pc[l.t])
    ensures Issuer(P, Next(P, imm, s, l).value.ctl, Next(P, imm, s, l).value.ops[k])
  {
    IssueStep(P, imm, s, l, k);
    if k < |s.ops| {
      PassedStep(P, imm, s, l, Ev(s.ops[k].tid, s.ops[k].pos));
    }
  }

  lemma {:induction false} Issuers(P: Program, imm: bool, tr: seq<Label>)
    requires OnlySpins(P) && Ran(P, imm, tr)
    ensures forall k :: 0 <= k < |After(P, imm, tr).ops| ==> Issuer(P, After(P, imm, tr).ctl, After(P, imm, tr).ops[k])
  {
    if tr != [] {
      var before, l := tr[..|tr| - 1], tr[|tr| - 1];
      Issuers(P, imm, before);
      if l.Go? && l.t < |P.threads| {
        Batches(P, imm, before, l.t);
      }
      forall k | 0 <= k < |After(P, imm, tr).ops|
        ensures Issuer(P, After(P, imm, tr).ctl, After(P, imm, tr).ops[k])
      {
        IssuerStep(P, imm, After(P, imm, before), l, k);
      }
    }
  }

  lemma {:induction false} Batches(P: Program, imm: bool, tr: seq<Label>, t: nat)
    requires OnlySpins(P) && Ran(P, imm, tr) && t < |P.threads|
    ensures After(P, imm, tr).ctl.pc[t] <= |P.threads[t].code|
    ensures After(P, imm, tr).ctl.batch[t] == Count(P.threads[t].code, Order, After(P, imm, tr).ctl.pc[t])
  {
    InBounds(P, imm, tr, t);
    if tr != [] {
      Batches(P, imm, tr[..|tr| - 1], t);
      CountStep(P, imm, After(P, imm, tr[..|tr| - 1]), tr[|tr| - 1], t, Order);
    }
  }

  predicate FromCall(o: Op, e: Ev) {
    o.tid == e.tid && o.pos == e.pos
  }

  /** Completing call `c` covers the operation issued at `e`; `dst` asks for its destination too. */
  predicate Completes(P: Program, c: Ev, e: Ev, dst: bool) {
    && IsCall(P, c) && IsCall(P, e) && CallAt(P, c).Close? && CallAt(P, e).Rma?
    && P.threads[c.tid].rank == P.threads[e.tid].rank
    && (match CallAt(P, c).scope
        case AllOwn => true
        case OwnTo(peer, queue) => CallAt(P, e).peer == peer && CallAt(P, e).queue == queue
        case OwnQueue(queue) => CallAt(P, e).queue == queue)
    && (dst ==> CallAt(P, c).side == Both || CallAt(P, e).kind == Get)
  }

  predicate Closed(o: Op, dst: bool) {
    !o.srcOpen && (dst ==> !o.dstOpen)
  }

  lemma ClosedStep(P: Program, imm: bool, s: State, l: Label, e: Ev, c: Ev, dst: bool, k: nat)
    requires OnlySpins(P) && Shape(P, s) && Next(P, imm, s, l).Some? && k < |Next(P, imm, s, l).value.ops|
    requires Completes(P, c, e, dst) && (Reached(s.ctl, c) ==> Passed(s.ctl, e))
    requires FromCall(Next(P, imm, s, l).value.ops[k], e) && Passed(Next(P, imm, s, l).value.ctl, c)
    requires k < |s.ops| ==> Issuer(P, s.ctl, s.ops[k]) && (Passed(s.ctl, c) ==> Closed(s.ops[k], dst))
    ensures Closed(Next(P, imm, s, l).value.ops[k], dst)
  {
    IssueStep(P, imm, s, l, k);
    PassedStep(P, imm, s, l, c);
  }

  /** An operation issued before a completing call is closed once that call is passed. */
  lemma {:induction false} ClosedByCall(P: Program, imm: bool, tr: seq<Label>, e: Ev, c: Ev, dst: bool)
    requires OnlySpins(P) && Ran(P, imm, tr) && Completes(P, c, e, dst) && Before(P, e, c)
    ensures Passed(After(P, imm, tr).ctl, c) ==>
      forall k :: 0 <= k < |After(P, imm, tr).ops| && FromCall(After(P, imm, tr).ops[k], e) ==> Closed(After(P, imm, tr).ops[k], dst)
  {
    if tr != [] {
      var before, l := tr[..|tr| - 1], tr[|tr| - 1];
      ClosedByCall(P, imm, before, e, c, dst);
      Issuers(P, imm, before);
      if Passed(After(P, imm, tr).ctl, c) {
        forall k | 0 <= k < |After(P, imm, tr).ops| && FromCall(After(P, imm, tr).ops[k], e)
          ensures Closed(After(P, imm, tr).ops[k], dst)
        {
          IssueStep(P, imm, After(P, imm, before), l, k);
          ClosedStep(P, imm, After(P, imm, before), l, e, c, dst, k);
        }
      }
    }
  }

  // ----- notifications

  ghost predicate Posted(P: Program, s: State, n: Note) {
    var e := Ev(n.tid, n.pos);
    && IsCall(P, e) && Passed(s.ctl, e)
    && CallAt(P, e) == Notify(n.peer, n.queue, n.slot, n.v)
    && n.owner == P.threads[n.tid].rank
    && n.id < s.ctl.clock
  }

  predicate EarlierOp(o: Op, n: Note) {
    o.tid == n.tid && o.pos < n.pos && o.queue == n.queue && o.peer == n.peer
  }

  /** A pending notification is newer than every operation it must not overtake. */
  ghost predicate NoteOk(P: Program, s: State, n: Note) {
    Posted(P, s, n) && forall k :: 0 <= k < |s.ops| && EarlierOp(s.ops[k], n) ==> Precedes(s.ops[k], n)
  }

  /** A notification that arrived has closed every operation posted before it. */
  ghost predicate SlotOk(P: Program, s: State, x: Loc)
    requires x in s.ctl.slots
  {
    var n := s.ctl.slots[x];
    n.slot == x && Posted(P, s, n) && forall k :: 0 <= k < |s.ops| && EarlierOp(s.ops[k], n) ==> Closed(s.ops[k], true)
  }

  lemma PostedStep(P: Program, imm: bool, s: State, l: Label, n: Note)
    requires OnlySpins(P) && Shape(P, s) && Next(P, imm, s, l).Some? && Posted(P, s, n)
    ensures Posted(P, Next(P, imm, s, l).value, n)
  {
    PassedStep(P, imm, s, l, Ev(n.tid, n.pos));
  }

  lemma NoteStep(P: Program, imm: bool, s: State, l: Label, n: Note)
    requires OnlySpins(P) && Shape(P, s) && Next(P, imm, s, l).Some?
    requires forall k :: 0 <= k < |s.ops| ==> Issuer(P, s.ctl, s.ops[k])
    requires n in s.ctl.notes ==> NoteOk(P, s, n)
    requires n in Next(P, imm, s, l).value.ctl.notes
    ensures NoteOk(P, Next(P, imm, s, l).value, n)
  {
    var s' := Next(P, imm, s, l).value;
    if n in s.ctl.notes {
      PostedStep(P, imm, s, l, n);
    }
    forall k | 0 <= k < |s'.ops| && EarlierOp(s'.ops[k], n)
      ensures Precedes(s'.ops[k], n)
    {
      IssueStep(P, imm, s, l, k);
      if k < |s.ops| {
        assert Issuer(P, s.ctl, s.ops[k]);
      }
    }
  }

  lemma SlotStep(P: Program, imm: bool, s: State, l: Label, x: Loc)
    requires OnlySpins(P) && Shape(P, s) && Next(P, imm, s, l).Some?
    requires forall n :: n in s.ctl.notes ==> NoteOk(P, s, n)
    requires x in s.ctl.slots ==> SlotOk(P, s, x)
    requires x in Next(P, imm, s, l).value.ctl.slots
    ensures SlotOk(P, Next(P, imm, s, l).value, x)
  {
    var s' := Next(P, imm, s, l).value;
    var n := s'.ctl.slots[x];
    if l.Deliver? && l.n.slot == x {
      assert NoteOk(P, s, n);
    }
    PostedStep(P, imm, s, l, n);
    forall k | 0 <= k < |s'.ops| && EarlierOp(s'.ops[k], n)
      ensures Closed(s'.ops[k], true)
    {
      IssueStep(P, imm, s, l, k);
      if k < |s.ops| {
        assert EarlierOp(s.ops[k], n);
      }
    }
  }

  lemma {:induction false} NotesHold(P: Program, imm: bool, tr: seq<Label>)
    requires OnlySpins(P) && Ran(P, imm, tr)
    ensures forall n :: n in After(P, imm, tr).ctl.notes ==> NoteOk(P, After(P, imm, tr), n)
    ensures forall x :: x in After(P, imm, tr).ctl.slots ==> SlotOk(P, After(P, imm, tr), x)
  {
    if tr != [] {
      var before, l := tr[..|tr| - 1], tr[|tr| - 1];
      NotesHold(P, imm, before);
      Issuers(P, imm, before);
      forall n | n in After(P, imm, tr).ctl.notes
        ensures NoteOk(P, After(P, imm, tr), n)
      {
        NoteStep(P, imm, After(P, imm, before), l, n);
      }
      forall x | x in After(P, imm, tr).ctl.slots
        ensures SlotOk(P, After(P, imm, tr), x)
      {
        SlotStep(P, imm, After(P, imm, before), l, x);
      }
    }
  }

  /** Call `n` notifies the slot that `w` waits for, with the value it waits for. */
  predicate Notifier(P: Program, n: Ev, w: Ev) {
    && IsCall(P, n) && CallAt(P, n).Notify? && IsCall(P, w) && CallAt(P, w).Await?
    && CallAt(P, n).slot == CallAt(P, w).slot && CallAt(P, n).v == CallAt(P, w).v
  }

  /** When `w` runs, the slot holds a notification that has been sent. */
  lemma AwaitedNote(P: Program, imm: bool, tr: seq<Label>, w: Ev) returns (n: Ev)
    requires OnlySpins(P) && Ran(P, imm, tr) && IsCall(P, w) && CallAt(P, w).Await?
    requires After(P, imm, tr).ctl.pc[w.tid] == w.pos && CtlEnabled(P, After(P, imm, tr).ctl, w.tid)
    ensures Notifier(P, n, w) && Passed(After(P, imm, tr).ctl, n)
    ensures forall k :: 0 <= k < |After(P, imm, tr).ops| && PostedFirst(P, After(P, imm, tr).ops[k], n) ==> Closed(After(P, imm, tr).ops[k], true)
  {
    NotesHold(P, imm, tr);
    var s := After(P, imm, tr);
    var note := s.ctl.slots[CallAt(P, w).slot];
    assert SlotOk(P, s, CallAt(P, w).slot) && Posted(P, s, note);
    n := Ev(note.tid, note.pos);
    forall k | 0 <= k < |s.ops| && PostedFirst(P, s.ops[k], n)
      ensures Closed(s.ops[k], true)
    {
      assert EarlierOp(s.ops[k], note);
    }
  }

  /** Operation `o` was posted before notification `n`, by its thread, on its queue, to its rank. */
  predicate PostedFirst(P: Program, o: Op, n: Ev)
    requires IsCall(P, n) && CallAt(P, n).Notify?
  {
    o.tid == n.tid && o.pos < n.pos && o.queue == CallAt(P, n).queue && o.peer == CallAt(P, n).peer
  }

  ghost predicate SomeSent(P: Program, c: Ctl, w: Ev) {
    exists n :: Notifier(P, n, w) && Passed(c, n)
  }

  lemma {:induction false} AwaitedSent(P: Program, imm: bool, tr: seq<Label>, w: Ev)
    requires OnlySpins(P) && Ran(P, imm, tr) && IsCall(P, w) && CallAt(P, w).Await?
    ensures Passed(After(P, imm, tr).ctl, w) ==> SomeSent(P, After(P, imm, tr).ctl, w)
  {
    if tr != [] && Passed(After(P, imm, tr).ctl, w) {
      var before, l := tr[..|tr| - 1], tr[|tr| - 1];
      var s := After(P, imm, before);
      AwaitedSent(P, imm, before, w);
      PassedStep(P, imm, s, l, w);
      var n: Ev;
      if Passed(s.ctl, w) {
        n :| Notifier(P, n, w) && Passed(s.ctl, n);
      } else {
        n := AwaitedNote(P, imm, before, w);
      }
      PassedStep(P, imm, s, l, n);
    }
  }

  /** A wait that has returned orders what every notifier of its slot comes after. */
  lemma {:induction false} NotifyBefore(P: Program, a: Ev, w: Ev, b: Ev)
    requires OnlySpins(P) && IsCall(P, w) && CallAt(P, w).Await? && w.tid == b.tid && w.pos < b.pos
    requires forall n :: Notifier(P, n, w) ==> n == a || Before(P, a, n)
    ensures Before(P, a, b)
  {
    forall imm, tr | Ran(P, imm, tr) && Reached(After(P, imm, tr).ctl, b)
      ensures Passed(After(P, imm, tr).ctl, a)
    {
      AwaitedSent(P, imm, tr, w);
      var n :| Notifier(P, n, w) && Passed(After(P, imm, tr).ctl, n);
      assert Reached(After(P, imm, tr).ctl, n);
    }
  }

  /** The operation at `e` is carried home by every notification that `w` may wait for. */
  ghost predicate Carries(P: Program, e: Ev, w: Ev) {
    && IsCall(P, e) && CallAt(P, e).Rma? && IsCall(P, w) && CallAt(P, w).Await?
    && forall n :: Notifier(P, n, w) ==>
         e.tid == n.tid && e.pos < n.pos && CallAt(P, e).peer == CallAt(P, n).peer && CallAt(P, e).queue == CallAt(P, n).queue
  }

  lemma CarriedStep(P: Program, imm: bool, tr: seq<Label>, l: Label, e: Ev, w: Ev, k: nat)
    requires OnlySpins(P) && Ran(P, imm, tr) && Carries(P, e, w) && Next(P, imm, After(P, imm, tr), l).Some?
    requires var s, s' := After(P, imm, tr), Next(P, imm, After(P, imm, tr), l).value;
             k < |s'.ops| && FromCall(s'.ops[k], e) && Passed(s'.ctl, w) && (Passed(s.ctl, w) && k < |s.ops| ==> Closed(s.ops[k], true))
    ensures Closed(Next(P, imm, After(P, imm, tr), l).value.ops[k], true)
  {
    var s := After(P, imm, tr);
    IssueStep(P, imm, s, l, k);
    PassedStep(P, imm, s, l, w);
    Issuers(P, imm, tr);
    var n: Ev;
    if Passed(s.ctl, w) {
      AwaitedSent(P, imm, tr, w);
      n :| Notifier(P, n, w) && Passed(s.ctl, n);
    } else {
      n := AwaitedNote(P, imm, tr, w);
    }
    if k < |s.ops| {
      assert Issuer(P, s.ctl, s.ops[k]) && PostedFirst(P, s.ops[k], n);
    }
  }

  lemma {:induction false} ClosedByNote(P: Program, imm: bool, tr: seq<Label>, e: Ev, w: Ev)
    requires OnlySpins(P) && Ran(P, imm, tr) && Carries(P, e, w)
    ensures Passed(After(P, imm, tr).ctl, w) ==>
      forall k :: 0 <= k < |After(P, imm, tr).ops| && FromCall(After(P, imm, tr).ops[k], e) ==> Closed(After(P, imm, tr).ops[k], true)
  {
    if tr != [] {
      var before, l := tr[..|tr| - 1], tr[|tr| - 1];
      ClosedByNote(P, imm, before, e, w);
      if Passed(After(P, imm, tr).ctl, w) {
        forall k | 0 <= k < |After(P, imm, tr).ops| && FromCall(After(P, imm, tr).ops[k], e)
          ensures Closed(After(P, imm, tr).ops[k], true)
        {
          IssueStep(P, imm, After(P, imm, before), l, k);
          CarriedStep(P, imm, before, l, e, w, k);
        }
      }
    }
  }

  // ----- closed means finished

  lemma TrackedStep(P: Program, imm: bool, s: State, l: Label, k: nat)
    requires Shape(P, s) && Next(P, imm, s, l).Some? && k < |Next(P, imm, s, l).value.ops|
    requires k < |s.ops| ==> Tracked(s.ops[k])
    ensures Tracked(Next(P, imm, s, l).value.ops[k])
  {
  }

  /** In every run an operation whose destination is closed has landed, and one whose source is closed has
      read it. */
  lemma {:induction false} ClosedIsFinished(P: Program, imm: bool, tr: seq<Label>)
    requires Ran(P, imm, tr)
    ensures forall k :: 0 <= k < |After(P, imm, tr).ops| ==> Tracked(After(P, imm, tr).ops[k])
  {
    if tr != [] {
      ClosedIsFinished(P, imm, tr[..|tr| - 1]);
      forall k | 0 <= k < |After(P, imm, tr).ops|
        ensures Tracked(After(P, imm, tr).ops[k])
      {
        TrackedStep(P, imm, After(P, imm, tr[..|tr| - 1]), tr[|tr| - 1], k);
      }
    }
  }

  // ----- locks

  /** At most one exclusive holder, or only shared ones. */
  ghost predicate Exclusive(held: set<Hold>) {
    forall h, h' :: h in held && h' in held && h.lock == h'.lock && h.tid != h'.tid ==> !h.excl && !h'.excl
  }

  lemma ExclusiveStep(P: Program, c: Ctl, t: nat)
    requires Running(P, c, t) && CtlEnabled(P, c, t) && Exclusive(c.held)
    ensures Exclusive(HeldGo(NextCall(P, c, t), c, t))
  {
  }

  /** MAIN RESULT. In every reachable state of any program, with or without delays, a lock has at most one
      exclusive holder, or only shared ones. */
  lemma {:induction false} LockExclusion(P: Program, imm: bool, tr: seq<Label>)
    requires Exec(P, imm, tr).Some?
    ensures Exclusive(Exec(P, imm, tr).value.ctl.held)
  {
    if tr != [] {
      LockExclusion(P, imm, tr[..|tr| - 1]);
      if tr[|tr| - 1].Go? {
        ExclusiveStep(P, Exec(P, imm, tr[..|tr| - 1]).value.ctl, tr[|tr| - 1].t);
      }
    }
  }

  /** `held` agrees with the calls thread `t` has executed. */
  ghost predicate HoldsAt(P: Program, c: Ctl, t: nat, lock: nat)
    requires t < |P.threads| && t < |c.pc| && c.pc[t] <= |P.threads[t].code|
  {
    var mode := HoldMode(P.threads[t].code, lock, c.pc[t]);
    mode.Some? ==> Hold(t, lock, mode.value) in c.held
  }

  lemma HoldsStep(P: Program, c: Ctl, r: int, t: nat, u: nat, lock: nat)
    requires OnlySpins(P) && t < |P.threads| && t < |c.pc| && |c.pc| == |c.batch|
    requires Running(P, c, u) && CtlEnabled(P, c, u) && c.pc[t] <= |P.threads[t].code| && HoldsAt(P, c, t, lock)
    requires CtlGo(P, c, r, u).pc[t] <= |P.threads[t].code|
    ensures HoldsAt(P, CtlGo(P, c, r, u), t, lock)
  {
    var code, j, j' := P.threads[t].code, c.pc[t], CtlGo(P, c, r, u).pc[t];
    if u == t && code[j].Branch? {
      assert Spin(code, j, code[j].target);
      if j' <= j {
        HoldModeSame(code, lock, j', j);
      } else {
        HoldModeSame(code, lock, j, j');
      }
    }
  }

  lemma {:induction false} HoldsLock(P: Program, imm: bool, tr: seq<Label>, t: nat, lock: nat)
    requires OnlySpins(P) && Ran(P, imm, tr) && t < |P.threads|
    ensures After(P, imm, tr).ctl.pc[t] <= |P.threads[t].code| && HoldsAt(P, After(P, imm, tr).ctl, t, lock)
  {
    InBounds(P, imm, tr, t);
    if tr != [] {
      var before, l := tr[..|tr| - 1], tr[|tr| - 1];
      HoldsLock(P, imm, before, t, lock);
      var c := After(P, imm, before).ctl;
      if l.Go? {
        HoldsStep(P, c, After(P, imm, before).regs[l.t], t, l.t, lock);
      } else if l.Meet? && t in l.g {
        assert NextCall(P, c, t) == Barrier(l.g);
      }
    }
  }

  /** The operation at `e` is issued and completed inside a critical section of `lock`, and `f` runs
      inside one of another thread; at least one of the two is exclusive. */
  ghost predicate Guarded(P: Program, e: Ev, f: Ev, lock: nat, c: Ev) {
    && IsCall(P, f) && e.tid != f.tid && c.tid == e.tid && e.pos < c.pos && Completes(P, c, e, true)
    && HoldMode(P.threads[e.tid].code, lock, e.pos).Some? && HoldMode(P.threads[f.tid].code, lock, f.pos).Some?
    && (HoldMode(P.threads[e.tid].code, lock, e.pos).value || HoldMode(P.threads[f.tid].code, lock, f.pos).value)
    && (forall i :: e.pos <= i < c.pos ==> !TouchesLock(P.threads[e.tid].code[i], lock))
  }

  lemma {:induction false} ClosedByLock(P: Program, imm: bool, tr: seq<Label>, e: Ev, f: Ev, lock: nat, c: Ev)
    requires OnlySpins(P) && Ran(P, imm, tr) && Guarded(P, e, f, lock, c) && After(P, imm, tr).ctl.pc[f.tid] == f.pos
    ensures forall k :: 0 <= k < |After(P, imm, tr).ops| && FromCall(After(P, imm, tr).ops[k], e) ==> Closed(After(P, imm, tr).ops[k], true)
  {
    ClosedByCall(P, imm, tr, e, c, true);
    Issuers(P, imm, tr);
    HoldsLock(P, imm, tr, e.tid, lock);
    HoldsLock(P, imm, tr, f.tid, lock);
    LockExclusion(P, imm, tr);
    var s := After(P, imm, tr);
    forall k | 0 <= k < |s.ops| && FromCall(s.ops[k], e)
      ensures Closed(s.ops[k], true)
    {
      assert Issuer(P, s.ctl, s.ops[k]);
      if !Passed(s.ctl, c) {
        HoldModeSame(P.threads[e.tid].code, lock, e.pos, s.ctl.pc[e.tid]);
      }
    }
  }
}
