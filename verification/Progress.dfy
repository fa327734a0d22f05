/**
 What the next step of a run can be, told from the program text, the counters and log of the run and the
 schedule so far, without the machine's own bookkeeping of locks, channels, slots and operations.

 `StepExactly` says that nothing more is needed to go on and nothing less will do; `CompletionExactly`
 says which operations have been completed, and no others.
 */
module Progress {
  import opened Machine
  import opened Refinement
  import opened Ordering

  // ----- the history of a run

  /** The operations of a run, in the order of their issue. */
  function Issues(P: Program, log: seq<Ev>): seq<Ev> {
    if log == [] then []
    else
      var e := log[|log| - 1];
      Issues(P, log[..|log| - 1]) + if IsCall(P, e) && CallAt(P, e).Rma? then [e] else []
  }

  /** How many operations and notifications a log has. */
  function Posts(P: Program, log: seq<Ev>): nat {
    if log == [] then 0
    else
      var e := log[|log| - 1];
      Posts(P, log[..|log| - 1]) + if IsCall(P, e) && (CallAt(P, e).Rma? || CallAt(P, e).Notify?) then 1 else 0
  }

  /** A thread that has executed the first `n` calls of its code holds `lock` in this mode. */
  predicate HoldsIn(code: seq<Instr>, lock: nat, excl: bool, n: nat)
    requires n <= |code|
  {
    n > 0 && (code[n - 1] == Acquire(lock, excl) || (code[n - 1] != Release(lock) && HoldsIn(code, lock, excl, n - 1)))
  }

  /** The notification that arrived last in slot `x`. */
  function LastArrived(tr: seq<Label>, x: Loc): Option<Note> {
    if tr == [] then None
    else
      var l := tr[|tr| - 1];
      if l.Deliver? && l.n.slot == x then Some(l.n) else LastArrived(tr[..|tr| - 1], x)
  }

  /** Operation `k` has read its source; it has written its destination. */
  predicate HasRead(imm: bool, tr: seq<Label>, k: nat) {
    imm || Fetch(k) in tr
  }

  predicate HasLanded(imm: bool, tr: seq<Label>, k: nat) {
    imm || Land(k) in tr
  }

  /** Notification `n` was sent by a call of the log, and is stamped with the number of posts before it. */
  predicate Sent(P: Program, log: seq<Ev>, n: Note) {
    var e := Ev(n.tid, n.pos);
    && e in log && IsCall(P, e) && CallAt(P, e) == Notify(n.peer, n.queue, n.slot, n.v)
    && n.owner == P.threads[n.tid].rank && n.id == Posts(P, Until(log, e))
  }

  /** The write at `e` was posted before notification `n`, by its process, on its queue, to its rank. */
  predicate Followed(P: Program, log: seq<Ev>, e: Ev, n: Note) {
    && IsCall(P, e) && CallAt(P, e).Rma? && P.threads[e.tid].rank == n.owner
    && CallAt(P, e).peer == n.peer && CallAt(P, e).queue == n.queue && e in Until(log, Ev(n.tid, n.pos))
  }

  /** A fence lies between the writes at `e` and `f` of one thread to one rank. */
  predicate Fenced(P: Program, e: Ev, f: Ev) {
    && IsCall(P, e) && IsCall(P, f) && CallAt(P, e).Rma? && CallAt(P, f).Rma? && e.tid == f.tid
    && CallAt(P, e).peer == CallAt(P, f).peer && CallAt(P, e).kind != Get && CallAt(P, f).kind != Get
    && Count(P.threads[e.tid].code, Order, e.pos) < Count(P.threads[e.tid].code, Order, f.pos)
  }

  /** The access that completing call `c` waits for, of the operation at `e`. */
  predicate Ready(P: Program, imm: bool, tr: seq<Label>, c: Ev, e: Ev, k: nat)
    requires IsCall(P, c) && CallAt(P, c).Close? && IsCall(P, e) && CallAt(P, e).Rma?
  {
    if CallAt(P, c).side == Origin && CallAt(P, e).kind != Get then HasRead(imm, tr, k) else HasLanded(imm, tr, k)
  }

  // ----- what can come next

  ghost predicate CanGo(P: Program, imm: bool, tr: seq<Label>, c: Ctl, t: nat)
    requires Running(P, c, t)
  {
    var code, p := P.threads[t].code, c.pc[t];
    match code[p]
    case Barrier(_) => false
    case Recv(from, tag) => SentMore(P, c, from, t, tag)
    case Acquire(lock, excl) => forall u: nat :: u < |P.threads| && u != t ==> !InTheWay(P, c, u, lock, excl)
    case Await(slot, v) => LastArrived(tr, slot).Some? && LastArrived(tr, slot).value.v == v
    case Close(_, _) =>
      forall k :: 0 <= k < |Issues(P, c.log)| && Completes(P, Ev(t, p), Issues(P, c.log)[k], false) ==>
        Ready(P, imm, tr, Ev(t, p), Issues(P, c.log)[k], k)
    case _ => true
  }

  /** More messages have been sent than received. */
  predicate SentMore(P: Program, c: Ctl, from: nat, t: nat, tag: nat)
  {
    && from < |P.threads| && from < |c.pc| && c.pc[from] <= |P.threads[from].code|
    && t < |P.threads| && t < |c.pc| && c.pc[t] <= |P.threads[t].code|
    && Count(P.threads[t].code, Recv(from, tag), c.pc[t]) < Count(P.threads[from].code, Send(t, tag), c.pc[from])
  }

  /** Thread `u` holds the lock in a mode that excludes mode `excl`. */
  predicate InTheWay(P: Program, c: Ctl, u: nat, lock: nat, excl: bool) {
    && u < |P.threads| && u < |c.pc| && c.pc[u] <= |P.threads[u].code|
    && (HoldsIn(P.threads[u].code, lock, true, c.pc[u]) || (excl && HoldsIn(P.threads[u].code, lock, false, c.pc[u])))
  }

  ghost predicate CanStep(P: Program, imm: bool, tr: seq<Label>, l: Label)
    requires Ran(P, imm, tr)
  {
    var c := After(P, imm, tr).ctl;
    var issues := Issues(P, c.log);
    match l
    case Go(t) => Running(P, c, t) && CanGo(P, imm, tr, c, t)
    case Meet(g) => g != {} && forall t :: t in g ==> Running(P, c, t) && NextCall(P, c, t) == Barrier(g)
    case Deliver(n) =>
      && Sent(P, c.log, n) && Deliver(n) !in tr
      && forall k :: 0 <= k < |issues| && Followed(P, c.log, issues[k], n) ==> HasLanded(imm, tr, k)
    case Fetch(k) => !imm && k < |issues| && Fetch(k) !in tr
    case Land(k) =>
      && !imm && k < |issues| && Fetch(k) in tr && Land(k) !in tr
      && forall j :: 0 <= j < k && Fenced(P, issues[j], issues[k]) ==> Land(j) in tr
  }

  // ----- one step back

  lemma LastStep(P: Program, imm: bool, tr: seq<Label>) returns (before: seq<Label>, l: Label)
    requires tr != [] && Ran(P, imm, tr)
    ensures tr == before + [l] && |before| < |tr| && Ran(P, imm, before) && Next(P, imm, After(P, imm, before), l) == Some(After(P, imm, tr))
  {
    before, l := tr[..|tr| - 1], tr[|tr| - 1];
  }

  // ----- locks

  lemma {:induction false} HoldsInSame(code: seq<Instr>, lock: nat, excl: bool, a: nat, b: nat)
    requires a <= b <= |code| && AllQuiet(code, a, b)
    ensures HoldsIn(code, lock, excl, a) == HoldsIn(code, lock, excl, b)
  {
    if a < b {
      HoldsInSame(code, lock, excl, a, b - 1);
      assert IsQuiet(code[b - 1]);
    }
  }

  ghost predicate HeldAsTold(P: Program, c: Ctl, h: Hold) {
    h in c.held <==> h.tid < |P.threads| && h.tid < |c.pc| && c.pc[h.tid] <= |P.threads[h.tid].code| && HoldsIn(P.threads[h.tid].code, h.lock, h.excl, c.pc[h.tid])
  }

  lemma HeldStep(P: Program, c: Ctl, r: int, u: nat, h: Hold)
    requires OnlySpins(P) && |c.pc| == |c.batch| == |P.threads| && Running(P, c, u) && CtlEnabled(P, c, u) && HeldAsTold(P, c, h)
    requires h.tid < |P.threads| ==> c.pc[h.tid] <= |P.threads[h.tid].code| && CtlGo(P, c, r, u).pc[h.tid] <= |P.threads[h.tid].code|
    ensures HeldAsTold(P, CtlGo(P, c, r, u), h)
  {
    if u == h.tid {
      var code, j, j' := P.threads[u].code, c.pc[u], CtlGo(P, c, r, u).pc[u];
      if code[j].Branch? {
        assert Spin(code, j, code[j].target);
        if j' <= j {
          HoldsInSame(code, h.lock, h.excl, j', j);
        } else {
          HoldsInSame(code, h.lock, h.excl, j, j');
        }
      }
    }
  }

  /** The locks held are those the program text says, for each thread from its counter. */
  lemma {:induction false} HeldExactly(P: Program, imm: bool, tr: seq<Label>, h: Hold)
    requires OnlySpins(P) && Ran(P, imm, tr)
    ensures HeldAsTold(P, After(P, imm, tr).ctl, h)
  {
    if tr != [] {
      var before, l := LastStep(P, imm, tr);
      HeldExactly(P, imm, before, h);
      var s := After(P, imm, before);
      if h.tid < |P.threads| {
        InBounds(P, imm, before, h.tid);
        InBounds(P, imm, tr, h.tid);
      }
      if l.Go? {
        HeldStep(P, s.ctl, s.regs[l.t], l.t, h);
      } else if l.Meet? && h.tid in l.g {
        assert NextCall(P, s.ctl, h.tid) == Barrier(l.g);
      }
    }
  }

  // ----- channels and slots

  lemma {:induction false} NoStrangers(P: Program, imm: bool, tr: seq<Label>, ch: Chan)
    requires Ran(P, imm, tr) && ch.from >= |P.threads|
    ensures ChanAt(After(P, imm, tr).ctl, ch) == 0
  {
    if tr != [] {
      var before, _ := LastStep(P, imm, tr);
      NoStrangers(P, imm, before, ch);
    }
  }

  lemma {:induction false} SlotsExactly(P: Program, imm: bool, tr: seq<Label>, x: Loc)
    requires Ran(P, imm, tr)
    ensures var c := After(P, imm, tr).ctl;
            if x in c.slots then LastArrived(tr, x) == Some(c.slots[x]) else LastArrived(tr, x) == None
  {
    if tr != [] {
      var before, l := LastStep(P, imm, tr);
      SlotsExactly(P, imm, before, x);
      assert tr[..|tr| - 1] == before && tr[|tr| - 1] == l;
    }
  }

  // ----- the log

  lemma UntilMore(log: seq<Ev>, next: Ev, e: Ev)
    ensures e in log || next == e ==> Until(log + [next], e) == Until(log, e)
  {
    assert (log + [next])[..|log|] == log;
  }

  ghost predicate LogPassed(P: Program, c: Ctl) {
    forall e :: e in c.log ==> IsCall(P, e) && (!IsQuiet(CallAt(P, e)) ==> Passed(c, e))
  }

  lemma {:induction false} LoggedIsPassed(P: Program, imm: bool, tr: seq<Label>)
    requires OnlySpins(P) && Ran(P, imm, tr)
    ensures LogPassed(P, After(P, imm, tr).ctl)
  {
    if tr != [] {
      var before, l := LastStep(P, imm, tr);
      LoggedIsPassed(P, imm, before);
      var s, s' := After(P, imm, before), After(P, imm, tr);
      forall e | e in s'.ctl.log
        ensures IsCall(P, e) && (!IsQuiet(CallAt(P, e)) ==> Passed(s'.ctl, e))
      {
        assert e in s.ctl.log || (l.Go? && e == Ev(l.t, s.ctl.pc[l.t]));
        if !IsQuiet(CallAt(P, e)) {
          PassedStep(P, imm, s, l, e);
        }
      }
    }
  }

  lemma IssuesMore(P: Program, log: seq<Ev>, e: Ev)
    ensures Issues(P, log + [e]) == Issues(P, log) + if IsCall(P, e) && CallAt(P, e).Rma? then [e] else []
    ensures Posts(P, log + [e]) == Posts(P, log) + if IsCall(P, e) && (CallAt(P, e).Rma? || CallAt(P, e).Notify?) then 1 else 0
  {
    assert (log + [e])[..|log|] == log;
  }

  lemma {:induction false} IssuesFrom(P: Program, log: seq<Ev>)
    ensures forall k :: 0 <= k < |Issues(P, log)| ==> Issues(P, log)[k] in log && IsCall(P, Issues(P, log)[k]) && CallAt(P, Issues(P, log)[k]).Rma?
  {
    if log != [] {
      IssuesFrom(P, log[..|log| - 1]);
    }
  }

  /** Call `e` is about to be executed for the first time. */
  lemma NotYet(P: Program, c: Ctl, t: nat)
    requires LogPassed(P, c) && Running(P, c, t) && !IsQuiet(NextCall(P, c, t))
    ensures Ev(t, c.pc[t]) !in c.log && Until(c.log, Ev(t, c.pc[t])) == c.log
  {
  }

  ghost predicate OpAsTold(P: Program, imm: bool, tr: seq<Label>, s: State, k: nat)
    requires k < |s.ops| == |Issues(P, s.ctl.log)|
  {
    var o, e := s.ops[k], Issues(P, s.ctl.log)[k];
    && FromCall(o, e) && o.id == Posts(P, Until(s.ctl.log, e))
    && (o.phase != Issued <==> HasRead(imm, tr, k)) && (o.phase == Done <==> HasLanded(imm, tr, k))
  }

  ghost predicate OpsAsTold(P: Program, imm: bool, tr: seq<Label>, s: State) {
    && |s.ops| == |Issues(P, s.ctl.log)| && s.ctl.clock == Posts(P, s.ctl.log)
    && (forall k :: 0 <= k < |s.ops| ==> OpAsTold(P, imm, tr, s, k))
    && (forall k :: k >= |s.ops| ==> Fetch(k) !in tr && Land(k) !in tr)
  }

  lemma SameLog(P: Program, imm: bool, tr: seq<Label>, l: Label, s: State, s': State)
    requires OpsAsTold(P, imm, tr, s) && s'.ctl.log == s.ctl.log && s'.ctl.clock == s.ctl.clock && |s'.ops| == |s.ops|
    requires forall k :: 0 <= k < |s.ops| ==> FromCall(s'.ops[k], Ev(s.ops[k].tid, s.ops[k].pos)) && s'.ops[k].id == s.ops[k].id
    requires forall k: nat :: l == Fetch(k) || l == Land(k) ==> k < |s.ops|
    requires forall k :: 0 <= k < |s.ops| ==>
      && (s'.ops[k].phase != Issued <==> s.ops[k].phase != Issued || l == Fetch(k)) && (s'.ops[k].phase == Done <==> s.ops[k].phase == Done || l == Land(k))
    ensures OpsAsTold(P, imm, tr + [l], s')
  {
    forall k | 0 <= k < |s.ops|
      ensures OpAsTold(P, imm, tr + [l], s', k)
    {
      assert OpAsTold(P, imm, tr, s, k);
    }
  }

  lemma MoreLog(P: Program, imm: bool, tr: seq<Label>, t: nat, s: State, s': State, e: Ev)
    requires OpsAsTold(P, imm, tr, s) && s'.ctl.log == s.ctl.log + [e] && IsCall(P, e)
    requires s'.ctl.clock == s.ctl.clock + if CallAt(P, e).Rma? || CallAt(P, e).Notify? then 1 else 0
    requires |s'.ops| == |s.ops| + if CallAt(P, e).Rma? then 1 else 0
    requires forall k :: 0 <= k < |s.ops| ==>
      FromCall(s'.ops[k], Ev(s.ops[k].tid, s.ops[k].pos)) && s'.ops[k].id == s.ops[k].id && s'.ops[k].phase == s.ops[k].phase
    requires CallAt(P, e).Rma? ==> e !in s.ctl.log && FromCall(s'.ops[|s.ops|], e) && s'.ops[|s.ops|].id == s.ctl.clock
    requires CallAt(P, e).Rma? ==> s'.ops[|s.ops|].phase == if imm then Done else Issued
    ensures OpsAsTold(P, imm, tr + [Go(t)], s')
  {
    IssuesMore(P, s.ctl.log, e);
    IssuesFrom(P, s.ctl.log);
    forall k | 0 <= k < |s'.ops|
      ensures OpAsTold(P, imm, tr + [Go(t)], s', k)
    {
      if k < |s.ops| {
        assert OpAsTold(P, imm, tr, s, k);
        UntilMore(s.ctl.log, e, Issues(P, s.ctl.log)[k]);
      } else {
        UntilMore(s.ctl.log, e, e);
      }
    }
  }

  lemma HistoryStep(P: Program, imm: bool, tr: seq<Label>, s: State, l: Label)
    requires Shape(P, s) && Next(P, imm, s, l).Some? && OpsAsTold(P, imm, tr, s) && LogPassed(P, s.ctl)
    requires imm ==> Quiescent(s) && Quiescent(Next(P, imm, s, l).value)
    ensures OpsAsTold(P, imm, tr + [l], Next(P, imm, s, l).value)
  {
    var s' := Next(P, imm, s, l).value;
    forall k | 0 <= k < |s.ops|
      ensures FromCall(s'.ops[k], Ev(s.ops[k].tid, s.ops[k].pos)) && s'.ops[k].id == s.ops[k].id
    {
      IssueStep(P, imm, s, l, k);
    }
    if l.Go? {
      var e := Ev(l.t, s.ctl.pc[l.t]);
      if CallAt(P, e).Rma? {
        NotYet(P, s.ctl, l.t);
        IssueStep(P, imm, s, l, |s.ops|);
      }
      MoreLog(P, imm, tr, l.t, s, s', e);
    } else {
      SameLog(P, imm, tr, l, s, s');
    }
  }

  /** Which operations there are, and how far each has come. */
  lemma {:induction false} OpsExactly(P: Program, imm: bool, tr: seq<Label>)
    requires OnlySpins(P) && Ran(P, imm, tr)
    ensures OpsAsTold(P, imm, tr, After(P, imm, tr))
  {
    if tr != [] {
      var before, l := LastStep(P, imm, tr);
      OpsExactly(P, imm, before);
      LoggedIsPassed(P, imm, before);
      if imm {
        ImmediateSettled(P, before);
        ImmediateSettled(P, tr);
      }
      HistoryStep(P, imm, before, After(P, imm, before), l);
    }
  }

  // ----- notifications

  ghost predicate NotesAsTold(P: Program, tr: seq<Label>, c: Ctl) {
    && (forall n :: n in c.notes <==> Sent(P, c.log, n) && Deliver(n) !in tr)
    && (forall n :: Deliver(n) in tr ==> Sent(P, c.log, n))
  }

  lemma SentMoreLog(P: Program, log: seq<Ev>, next: Ev, n: Note)
    ensures Sent(P, log + [next], n) <==> Sent(P, log, n) || (next !in log && next == Ev(n.tid, n.pos) && Sent(P, log + [next], n))
  {
    UntilMore(log, next, Ev(n.tid, n.pos));
  }

  lemma NotesGoStep(P: Program, tr: seq<Label>, c: Ctl, r: int, t: nat)
    requires Running(P, c, t) && CtlEnabled(P, c, t) && |c.pc| == |c.batch| && LogPassed(P, c) && c.clock == Posts(P, c.log)
    requires NotesAsTold(P, tr, c)
    ensures NotesAsTold(P, tr + [Go(t)], CtlGo(P, c, r, t))
  {
    var i, e, c' := NextCall(P, c, t), Ev(t, c.pc[t]), CtlGo(P, c, r, t);
    assert IsCall(P, e) && CallAt(P, e) == i;
    if i.Notify? {
      NotYet(P, c, t);
      UntilMore(c.log, e, e);
    }
    forall n
      ensures n in c'.notes <==> Sent(P, c'.log, n) && Deliver(n) !in tr + [Go(t)]
      ensures Deliver(n) in tr ==> Sent(P, c'.log, n)
    {
      SentMoreLog(P, c.log, e, n);
      assert n in c.notes <==> Sent(P, c.log, n) && Deliver(n) !in tr;
    }
  }

  lemma NotesOtherStep(P: Program, tr: seq<Label>, c: Ctl, c': Ctl, l: Label)
    requires NotesAsTold(P, tr, c) && c'.log == c.log && (l.Deliver? ==> l.n in c.notes)
    requires c'.notes == if l.Deliver? then c.notes - {l.n} else c.notes
    ensures NotesAsTold(P, tr + [l], c')
  {
    forall n
      ensures n in c'.notes <==> Sent(P, c'.log, n) && Deliver(n) !in tr + [l]
    {
      assert n in c.notes <==> Sent(P, c.log, n) && Deliver(n) !in tr;
    }
  }

  /** The pending notifications are those that have been sent and have not arrived. */
  lemma {:induction false} NotesExactly(P: Program, imm: bool, tr: seq<Label>)
    requires OnlySpins(P) && Ran(P, imm, tr)
    ensures NotesAsTold(P, tr, After(P, imm, tr).ctl)
  {
    if tr != [] {
      var before, l := LastStep(P, imm, tr);
      NotesExactly(P, imm, before);
      OpsExactly(P, imm, before);
      LoggedIsPassed(P, imm, before);
      var s := After(P, imm, before);
      if l.Go? {
        NotesGoStep(P, before, s.ctl, s.regs[l.t], l.t);
      } else {
        NotesOtherStep(P, before, s.ctl, After(P, imm, tr).ctl, l);
      }
    }
  }

  // ----- before and after in the log

  lemma {:induction false} PostsMonotone(P: Program, log: seq<Ev>, a: nat)
    requires a <= |log|
    ensures Posts(P, log[..a]) <= Posts(P, log)
  {
    if a < |log| {
      PostsMonotone(P, log[..|log| - 1], a);
      assert log[..|log| - 1][..a] == log[..a];
    } else {
      assert log[..a] == log;
    }
  }

  lemma {:induction false} UntilIs(log: seq<Ev>, e: Ev)
    requires e in log
    ensures |Until(log, e)| < |log| && Until(log, e) == log[..|Until(log, e)|] && log[|Until(log, e)|] == e
  {
    var rest := log[..|log| - 1];
    if e in rest {
      UntilIs(rest, e);
    } else {
      assert Until(log, e) == rest && log[|log| - 1] == e;
    }
  }

  /** The stamp of a post tells which posts came before it. */
  lemma {:induction false} StampsTell(P: Program, log: seq<Ev>, a: Ev, b: Ev)
    requires a in log && b in log && IsCall(P, a) && CallAt(P, a).Rma?
    ensures Posts(P, Until(log, a)) < Posts(P, Until(log, b)) <==> a in Until(log, b)
  {
    UntilIs(log, a);
    UntilIs(log, b);
    var i, j := |Until(log, a)|, |Until(log, b)|;
    if i < j {
      assert log[..j][i] == a;
      IssuesMore(P, log[..i], a);
      assert log[..i] + [a] == log[..i + 1] == log[..j][..i + 1];
      PostsMonotone(P, log[..j], i + 1);
    } else {
      assert log[..i][..j] == log[..j];
      PostsMonotone(P, log[..i], j);
      assert forall k :: 0 <= k < j ==> log[..j][k] == log[..i][k];
    }
  }

  // ----- the next step

  lemma RecvExactly(P: Program, imm: bool, tr: seq<Label>, from: nat, t: nat, tag: nat)
    requires OnlySpins(P) && Ran(P, imm, tr) && t < |P.threads|
    ensures var c := After(P, imm, tr).ctl; ChanAt(c, Chan(from, t, tag)) > 0 <==> SentMore(P, c, from, t, tag)
  {
    if from < |P.threads| {
      MessageCounts(P, imm, tr, from, t, tag);
    } else {
      NoStrangers(P, imm, tr, Chan(from, t, tag));
    }
  }

  lemma AcquireExactly(P: Program, imm: bool, tr: seq<Label>, t: nat, lock: nat, excl: bool)
    requires OnlySpins(P) && Ran(P, imm, tr)
    ensures var c := After(P, imm, tr).ctl;
            (forall h :: h in c.held && h.lock == lock && h.tid != t ==> !excl && !h.excl)
            <==> (forall u: nat :: u < |P.threads| && u != t ==> !InTheWay(P, c, u, lock, excl))
  {
    var c := After(P, imm, tr).ctl;
    forall h
      ensures HeldAsTold(P, c, h)
    {
      HeldExactly(P, imm, tr, h);
    }
    if forall h :: h in c.held && h.lock == lock && h.tid != t ==> !excl && !h.excl {
      forall u: nat | u < |P.threads| && u != t
        ensures !InTheWay(P, c, u, lock, excl)
      {
        assert HeldAsTold(P, c, Hold(u, lock, true)) && HeldAsTold(P, c, Hold(u, lock, false));
      }
    } else {
      var h :| h in c.held && h.lock == lock && h.tid != t && (excl || h.excl);
      assert HeldAsTold(P, c, h) && h == Hold(h.tid, lock, h.excl);
      assert InTheWay(P, c, h.tid, lock, excl);
    }
  }

  lemma CoversExactly(P: Program, imm: bool, tr: seq<Label>, f: Ev, k: nat)
    requires OnlySpins(P) && Ran(P, imm, tr) && IsCall(P, f) && CallAt(P, f).Close? && k < |After(P, imm, tr).ops|
    ensures var s := After(P, imm, tr);
            && |s.ops| == |Issues(P, s.ctl.log)| && IsCall(P, Issues(P, s.ctl.log)[k]) && CallAt(P, Issues(P, s.ctl.log)[k]).Rma?
            && (Covers(CallAt(P, f).scope, P.threads[f.tid].rank, s.ops[k]) <==> Completes(P, f, Issues(P, s.ctl.log)[k], false))
            && (Complete(CallAt(P, f).side, s.ops[k]) <==> Ready(P, imm, tr, f, Issues(P, s.ctl.log)[k], k))
  {
    var s := After(P, imm, tr);
    OpsExactly(P, imm, tr);
    IssuesFrom(P, s.ctl.log);
    Issuers(P, imm, tr);
    assert OpAsTold(P, imm, tr, s, k) && Issuer(P, s.ctl, s.ops[k]);
  }

  lemma CloseExactly(P: Program, imm: bool, tr: seq<Label>, t: nat)
    requires OnlySpins(P) && Ran(P, imm, tr) && Running(P, After(P, imm, tr).ctl, t) && NextCall(P, After(P, imm, tr).ctl, t).Close?
    ensures Next(P, imm, After(P, imm, tr), Go(t)).Some? <==> CanGo(P, imm, tr, After(P, imm, tr).ctl, t)
  {
    var s := After(P, imm, tr);
    var f := Ev(t, s.ctl.pc[t]);
    OpsExactly(P, imm, tr);
    forall k | 0 <= k < |s.ops|
      ensures IsCall(P, Issues(P, s.ctl.log)[k]) && CallAt(P, Issues(P, s.ctl.log)[k]).Rma?
      ensures Covers(CallAt(P, f).scope, P.threads[t].rank, s.ops[k]) <==> Completes(P, f, Issues(P, s.ctl.log)[k], false)
      ensures Complete(CallAt(P, f).side, s.ops[k]) <==> Ready(P, imm, tr, f, Issues(P, s.ctl.log)[k], k)
    {
      CoversExactly(P, imm, tr, f, k);
    }
  }

  lemma GoExactly(P: Program, imm: bool, tr: seq<Label>, t: nat)
    requires OnlySpins(P) && Ran(P, imm, tr) && Running(P, After(P, imm, tr).ctl, t)
    ensures Next(P, imm, After(P, imm, tr), Go(t)).Some? <==> CanGo(P, imm, tr, After(P, imm, tr).ctl, t)
  {
    var c := After(P, imm, tr).ctl;
    match NextCall(P, c, t)
    case Recv(from, tag) => RecvExactly(P, imm, tr, from, t, tag);
    case Acquire(lock, excl) => AcquireExactly(P, imm, tr, t, lock, excl);
    case Await(slot, v) => SlotsExactly(P, imm, tr, slot);
    case Close(_, _) => CloseExactly(P, imm, tr, t);
    case _ =>
  }

  lemma FollowsExactly(P: Program, imm: bool, tr: seq<Label>, n: Note, k: nat)
    requires OnlySpins(P) && Ran(P, imm, tr) && k < |After(P, imm, tr).ops| && Sent(P, After(P, imm, tr).ctl.log, n)
    ensures var s := After(P, imm, tr);
            && |s.ops| == |Issues(P, s.ctl.log)|
            && (Precedes(s.ops[k], n) <==> Followed(P, s.ctl.log, Issues(P, s.ctl.log)[k], n))
            && (s.ops[k].phase == Done <==> HasLanded(imm, tr, k))
  {
    var s := After(P, imm, tr);
    OpsExactly(P, imm, tr);
    IssuesFrom(P, s.ctl.log);
    Issuers(P, imm, tr);
    assert OpAsTold(P, imm, tr, s, k) && Issuer(P, s.ctl, s.ops[k]);
    StampsTell(P, s.ctl.log, Issues(P, s.ctl.log)[k], Ev(n.tid, n.pos));
  }

  lemma DeliverExactly(P: Program, imm: bool, tr: seq<Label>, n: Note)
    requires OnlySpins(P) && Ran(P, imm, tr)
    ensures Next(P, imm, After(P, imm, tr), Deliver(n)).Some? <==> CanStep(P, imm, tr, Deliver(n))
  {
    var s := After(P, imm, tr);
    NotesExactly(P, imm, tr);
    OpsExactly(P, imm, tr);
    assert n in s.ctl.notes <==> Sent(P, s.ctl.log, n) && Deliver(n) !in tr;
    if Sent(P, s.ctl.log, n) {
      forall k | 0 <= k < |s.ops|
        ensures Precedes(s.ops[k], n) <==> Followed(P, s.ctl.log, Issues(P, s.ctl.log)[k], n)
        ensures s.ops[k].phase == Done <==> HasLanded(imm, tr, k)
      {
        FollowsExactly(P, imm, tr, n, k);
      }
    }
  }

  lemma FencedExactly(P: Program, imm: bool, tr: seq<Label>, j: nat, k: nat)
    requires OnlySpins(P) && Ran(P, imm, tr) && j < |After(P, imm, tr).ops| && k < |After(P, imm, tr).ops|
    ensures var s := After(P, imm, tr);
            && |s.ops| == |Issues(P, s.ctl.log)|
            && (Machine.Ordered(s.ops[j], s.ops[k]) <==> Fenced(P, Issues(P, s.ctl.log)[j], Issues(P, s.ctl.log)[k]))
  {
    var s := After(P, imm, tr);
    OpsExactly(P, imm, tr);
    Issuers(P, imm, tr);
    assert OpAsTold(P, imm, tr, s, j) && OpAsTold(P, imm, tr, s, k);
    assert Issuer(P, s.ctl, s.ops[j]) && Issuer(P, s.ctl, s.ops[k]);
  }

  lemma AccessExactly(P: Program, imm: bool, tr: seq<Label>, k: nat)
    requires OnlySpins(P) && Ran(P, imm, tr)
    ensures Next(P, imm, After(P, imm, tr), Fetch(k)).Some? <==> CanStep(P, imm, tr, Fetch(k))
    ensures Next(P, imm, After(P, imm, tr), Land(k)).Some? <==> CanStep(P, imm, tr, Land(k))
  {
    var s := After(P, imm, tr);
    OpsExactly(P, imm, tr);
    if k < |s.ops| {
      assert OpAsTold(P, imm, tr, s, k);
      forall j | 0 <= j < k
        ensures Machine.Ordered(s.ops[j], s.ops[k]) <==> Fenced(P, Issues(P, s.ctl.log)[j], Issues(P, s.ctl.log)[k])
        ensures s.ops[j].phase == Done <==> HasLanded(imm, tr, j)
      {
        assert OpAsTold(P, imm, tr, s, j);
        FencedExactly(P, imm, tr, j, k);
      }
    }
  }

  /** MAIN RESULT. For any program whose branches only repeat or skip loads, and after any schedule, with or
      without delays: a step is possible if and only if program text, counters, log and schedule say so. */
  lemma {:induction false} StepExactly(P: Program, imm: bool, tr: seq<Label>, l: Label)
    requires OnlySpins(P) && Ran(P, imm, tr)
    ensures Ran(P, imm, tr + [l]) <==> CanStep(P, imm, tr, l)
  {
    assert (tr + [l])[..|tr|] == tr;
    assert Exec(P, imm, tr + [l]) == Next(P, imm, After(P, imm, tr), l);
    match l
    case Go(t) =>
      if Running(P, After(P, imm, tr).ctl, t) {
        GoExactly(P, imm, tr, t);
      }
    case Meet(_) =>
    case Deliver(n) => DeliverExactly(P, imm, tr, n);
    case Fetch(k) => AccessExactly(P, imm, tr, k);
    case Land(k) => AccessExactly(P, imm, tr, k);
  }

  // ----- what has been completed

  /** A completing call that covers the operation at `e` has run after it. */
  ghost predicate CompletedIn(P: Program, log: seq<Ev>, e: Ev, dst: bool) {
    exists i: nat :: i < |log| && Completes(P, log[i], e, dst) && e in log[..i]
  }

  /** A notification that was posted after the operation at `e`, on its queue, has arrived. */
  ghost predicate NotifiedIn(P: Program, tr: seq<Label>, log: seq<Ev>, e: Ev) {
    exists n :: Deliver(n) in tr && Followed(P, log, e, n)
  }

  ghost predicate FlagsAsTold(P: Program, tr: seq<Label>, log: seq<Ev>, o: Op, e: Ev) {
    && (o.srcOpen ==> o.dstOpen)
    && (Closed(o, false) <==> CompletedIn(P, log, e, false) || NotifiedIn(P, tr, log, e))
    && (Closed(o, true) <==> CompletedIn(P, log, e, true) || NotifiedIn(P, tr, log, e))
  }

  ghost predicate CompletedAsTold(P: Program, tr: seq<Label>, s: State, k: nat) {
    k < |s.ops| && k < |Issues(P, s.ctl.log)| && FlagsAsTold(P, tr, s.ctl.log, s.ops[k], Issues(P, s.ctl.log)[k])
  }

  lemma CompletedMore(P: Program, log: seq<Ev>, next: Ev, e: Ev, dst: bool)
    ensures CompletedIn(P, log + [next], e, dst) <==> CompletedIn(P, log, e, dst) || (Completes(P, next, e, dst) && e in log)
  {
    var more := log + [next];
    if CompletedIn(P, log, e, dst) {
      var i: nat :| i < |log| && Completes(P, log[i], e, dst) && e in log[..i];
      assert more[i] == log[i] && more[..i] == log[..i];
    }
    if Completes(P, next, e, dst) && e in log {
      assert more[|log|] == next && more[..|log|] == log;
    }
    if CompletedIn(P, more, e, dst) {
      var i: nat :| i < |more| && Completes(P, more[i], e, dst) && e in more[..i];
      if i < |log| {
        assert more[i] == log[i] && more[..i] == log[..i];
      } else {
        assert more[..i] == log;
      }
    }
  }

  lemma NotifiedMoreLog(P: Program, tr: seq<Label>, t: nat, c: Ctl, next: Ev, e: Ev)
    requires NotesAsTold(P, tr, c)
    ensures NotifiedIn(P, tr + [Go(t)], c.log + [next], e) <==> NotifiedIn(P, tr, c.log, e)
  {
    forall n | Deliver(n) in tr
      ensures Until(c.log + [next], Ev(n.tid, n.pos)) == Until(c.log, Ev(n.tid, n.pos))
    {
      assert Sent(P, c.log, n);
      UntilMore(c.log, next, Ev(n.tid, n.pos));
    }
    if NotifiedIn(P, tr, c.log, e) {
      var n :| Deliver(n) in tr && Followed(P, c.log, e, n);
      assert Deliver(n) in tr + [Go(t)] && Followed(P, c.log + [next], e, n);
    }
  }

  lemma NotifiedMoreTrace(P: Program, tr: seq<Label>, l: Label, log: seq<Ev>, e: Ev)
    ensures NotifiedIn(P, tr + [l], log, e) <==> NotifiedIn(P, tr, log, e) || (l.Deliver? && Followed(P, log, e, l.n))
  {
    if NotifiedIn(P, tr, log, e) {
      var n :| Deliver(n) in tr && Followed(P, log, e, n);
      assert Deliver(n) in tr + [l];
    }
    if l.Deliver? && Followed(P, log, e, l.n) {
      assert Deliver(l.n) in tr + [l];
    }
  }

  /** A new operation has nothing behind it that could have completed it. */
  lemma NewIsOpen(P: Program, tr: seq<Label>, c: Ctl, t: nat)
    requires NotesAsTold(P, tr, c) && LogPassed(P, c) && Running(P, c, t) && NextCall(P, c, t).Rma?
    ensures var e := Ev(t, c.pc[t]); var log := c.log + [e];
            !CompletedIn(P, log, e, false) && !CompletedIn(P, log, e, true) && !NotifiedIn(P, tr + [Go(t)], log, e)
  {
    var e := Ev(t, c.pc[t]);
    NotYet(P, c, t);
    CompletedMore(P, c.log, e, e, false);
    CompletedMore(P, c.log, e, e, true);
    NotifiedMoreLog(P, tr, t, c, e, e);
  }

  lemma FlagsClose(P: Program, tr: seq<Label>, log: seq<Ev>, t: nat, o: Op, e: Ev, f: Ev)
    requires FlagsAsTold(P, tr, log, o, e) && IsCall(P, e) && CallAt(P, e).Rma? && o.kind == CallAt(P, e).kind && e in log
    requires NotifiedIn(P, tr + [Go(t)], log + [f], e) <==> NotifiedIn(P, tr, log, e)
    requires IsCall(P, f) && CallAt(P, f).Close?
    ensures FlagsAsTold(P, tr + [Go(t)], log + [f], if Completes(P, f, e, false) then CloseOp(CallAt(P, f).side, o) else o, e)
  {
    CompletedMore(P, log, f, e, false);
    CompletedMore(P, log, f, e, true);
  }

  lemma FlagsKept(P: Program, tr: seq<Label>, log: seq<Ev>, t: nat, o: Op, e: Ev, f: Ev)
    requires FlagsAsTold(P, tr, log, o, e) && (NotifiedIn(P, tr + [Go(t)], log + [f], e) <==> NotifiedIn(P, tr, log, e))
    requires IsCall(P, f) && !CallAt(P, f).Close?
    ensures FlagsAsTold(P, tr + [Go(t)], log + [f], o, e)
  {
    CompletedMore(P, log, f, e, false);
    CompletedMore(P, log, f, e, true);
  }

  lemma FlagsGoStep(P: Program, imm: bool, tr: seq<Label>, t: nat, k: nat)
    requires OnlySpins(P) && Ran(P, imm, tr) && Next(P, imm, After(P, imm, tr), Go(t)).Some? && k < |After(P, imm, tr).ops|
    requires var s := After(P, imm, tr);
             |s.ops| == |Issues(P, s.ctl.log)| && FlagsAsTold(P, tr, s.ctl.log, s.ops[k], Issues(P, s.ctl.log)[k])
    ensures var s := After(P, imm, tr); var s' := Next(P, imm, s, Go(t)).value;
            k < |s'.ops| && FlagsAsTold(P, tr + [Go(t)], s'.ctl.log, s'.ops[k], Issues(P, s.ctl.log)[k])
  {
    var s := After(P, imm, tr);
    var e, f := Issues(P, s.ctl.log)[k], Ev(t, s.ctl.pc[t]);
    NotesExactly(P, imm, tr);
    NotifiedMoreLog(P, tr, t, s.ctl, f, e);
    if CallAt(P, f).Close? {
      OpsExactly(P, imm, tr);
      Issuers(P, imm, tr);
      IssuesFrom(P, s.ctl.log);
      assert OpAsTold(P, imm, tr, s, k) && Issuer(P, s.ctl, s.ops[k]);
      CoversExactly(P, imm, tr, f, k);
      FlagsClose(P, tr, s.ctl.log, t, s.ops[k], e, f);
    } else {
      FlagsKept(P, tr, s.ctl.log, t, s.ops[k], e, f);
    }
  }

  lemma FlagsOtherStep(P: Program, imm: bool, tr: seq<Label>, l: Label, k: nat)
    requires OnlySpins(P) && Ran(P, imm, tr) && Next(P, imm, After(P, imm, tr), l).Some? && !l.Go? && k < |After(P, imm, tr).ops|
    requires var s := After(P, imm, tr);
             |s.ops| == |Issues(P, s.ctl.log)| && FlagsAsTold(P, tr, s.ctl.log, s.ops[k], Issues(P, s.ctl.log)[k])
    ensures var s := After(P, imm, tr); var s' := Next(P, imm, s, l).value;
            k < |s'.ops| && FlagsAsTold(P, tr + [l], s'.ctl.log, s'.ops[k], Issues(P, s.ctl.log)[k])
  {
    var s := After(P, imm, tr);
    NotesExactly(P, imm, tr);
    NotifiedMoreTrace(P, tr, l, s.ctl.log, Issues(P, s.ctl.log)[k]);
    if l.Deliver? {
      FollowsExactly(P, imm, tr, l.n, k);
    }
  }

  lemma FlagsNewOp(P: Program, imm: bool, tr: seq<Label>, t: nat)
    requires OnlySpins(P) && Ran(P, imm, tr) && Next(P, imm, After(P, imm, tr), Go(t)).Some? && NextCall(P, After(P, imm, tr).ctl, t).Rma?
    ensures var s := After(P, imm, tr); var s', e := Next(P, imm, s, Go(t)).value, Ev(t, s.ctl.pc[t]);
            |s'.ops| == |s.ops| + 1 && FlagsAsTold(P, tr + [Go(t)], s'.ctl.log, s'.ops[|s.ops|], e)
  {
    var s := After(P, imm, tr);
    NotesExactly(P, imm, tr);
    LoggedIsPassed(P, imm, tr);
    NewIsOpen(P, tr, s.ctl, t);
    if imm {
      IssueNow(P, s, t);
    }
  }

  lemma FlagsStep(P: Program, imm: bool, tr: seq<Label>, l: Label, k: nat)
    requires OnlySpins(P) && Ran(P, imm, tr) && Next(P, imm, After(P, imm, tr), l).Some? && k < |Next(P, imm, After(P, imm, tr), l).value.ops|
    requires |After(P, imm, tr).ops| == |Issues(P, After(P, imm, tr).ctl.log)|
    requires k < |After(P, imm, tr).ops| ==> CompletedAsTold(P, tr, After(P, imm, tr), k)
    ensures CompletedAsTold(P, tr + [l], Next(P, imm, After(P, imm, tr), l).value, k)
  {
    var s := After(P, imm, tr);
    if l.Go? {
      IssuesMore(P, s.ctl.log, Ev(l.t, s.ctl.pc[l.t]));
    }
    if k >= |s.ops| {
      IssueStep(P, imm, s, l, k);
      FlagsNewOp(P, imm, tr, l.t);
    } else if l.Go? {
      FlagsGoStep(P, imm, tr, l.t, k);
    } else {
      FlagsOtherStep(P, imm, tr, l, k);
    }
  }

  /** MAIN RESULT. In every run of such a program, with or without delays, an operation is complete at a side
      if and only if a completing call that covers this side of it has run after it, or a notification
      posted after it by its process, on its queue and to its rank, has arrived. */
  lemma {:induction false} CompletionExactly(P: Program, imm: bool, tr: seq<Label>, k: nat)
    requires OnlySpins(P) && Ran(P, imm, tr) && k < |After(P, imm, tr).ops|
    ensures CompletedAsTold(P, tr, After(P, imm, tr), k)
  {
    if tr != [] {
      var before, l := LastStep(P, imm, tr);
      OpsExactly(P, imm, before);
      if k < |After(P, imm, before).ops| {
        CompletionExactly(P, imm, before, k);
      }
      FlagsStep(P, imm, before, l, k);
    }
  }
}
