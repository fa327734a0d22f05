/**
 Critical sections on one window lock, for any number of ranks (MPIRMA/sync/027 and 028).

 Each rank locks the window of the target exclusively and, inside the lock, puts to one cell, gets it,
 or (the target itself) loads it. The accesses never meet, whatever the delays and whoever comes first.
 The order in which the ranks were given the lock decides what is seen: a reader finds the value of the
 last writer that had the lock before it, and the cell ends with the value of the last writer of all.
 */
module Locks {
  import opened Machine
  import opened Refinement
  import opened Ordering
  import opened Separation
  import opened Values
  import opened Progress
  import opened Finishing

  const LOCK := 1
  const WIN := Loc(1, 0)

  datatype Role = Writer(v: int) | Reader | Owner

  function Buf(i: nat): Loc {
    Loc(i, 1)
  }

  function Access(i: nat, r: Role): Instr {
    match r
    case Writer(_) => Rma(Put, 1, 0, Buf(i), WIN)
    case Reader => Rma(Get, 1, 0, WIN, Buf(i))
    case Owner => Load(WIN)
  }

  /** One rank: set its buffer, barrier, critical section, barrier, print its buffer. */
  function Code(n: nat, i: nat, r: Role): seq<Instr> {
    [Store(Buf(i), if r.Writer? then r.v else 2), Barrier(Upto(n)), Acquire(LOCK, true), Access(i, r),
     Close(Both, OwnTo(1, 0)), Release(LOCK), Barrier(Upto(n)), Load(Buf(i))]
  }

  function Contend(roles: seq<Role>): Program {
    Program(seq(|roles|, i requires 0 <= i < |roles| => Thread(i, Code(|roles|, i, roles[i]))), map[WIN := 0])
  }

  lemma Calls(roles: seq<Role>, e: Ev)
    requires IsCall(Contend(roles), e)
    ensures e.tid < |roles| && e.pos < 8
    ensures var i, r := CallAt(Contend(roles), e), roles[e.tid];
            && !i.Branch? && !i.Notify? && (i.Rma? ==> e.pos == 3 && !r.Owner?)
            && (e.pos == 3 ==> i == Access(e.tid, r))
            && (Writes(i, WIN) ==> e.pos == 3 && r.Writer?)
            && (forall t :: Writes(i, Buf(t)) ==> t == e.tid && (e.pos == 0 || (e.pos == 3 && r.Reader?)))
            && (i.Load? ==> (e.pos == 3 && i.x == WIN) || (e.pos == 7 && i.x == Buf(e.tid)))
            && (e.pos == 0 ==> i == Store(Buf(e.tid), if r.Writer? then r.v else 2))
  {
    var p := e.pos;
    assert p == 0 || p == 1 || p == 2 || p == 3 || p == 4 || p == 5 || p == 6 || p == 7;
  }

  lemma Inside(roles: seq<Role>, i: nat)
    requires i < |roles|
    ensures var P := Contend(roles); var code := P.threads[i].code;
            && HoldMode(code, LOCK, 3) == Some(true)
            && (forall j :: 3 <= j < 4 ==> !TouchesLock(code[j], LOCK))
            && (!roles[i].Owner? ==> Completes(P, Ev(i, 4), Ev(i, 3), true))
            && Before(P, Ev(i, 3), Ev(i, 4)) && Before(P, Ev(i, 4), Ev(i, 7))
  {
  }

  lemma Straight(roles: seq<Role>)
    ensures NoBranches(Contend(roles)) && OnlySpins(Contend(roles))
  {
    var P := Contend(roles);
    forall t, j | 0 <= t < |P.threads| && 0 <= j < |P.threads[t].code|
      ensures !P.threads[t].code[j].Branch?
    {
      Calls(roles, Ev(t, j));
    }
  }

  lemma SectionsApart(roles: seq<Role>)
    ensures WellSynchronised(Contend(roles))
  {
    var P := Contend(roles);
    Straight(roles);
    forall e, f | IsCall(P, e) && IsCall(P, f) && CallAt(P, e).Rma?
      ensures PairSafe(P, e, f)
    {
      Calls(roles, e);
      Calls(roles, f);
      Inside(roles, e.tid);
      Inside(roles, f.tid);
      if DstConflict(P, e, f) || SrcConflict(P, e, f) {
        if e.tid != f.tid {
          assert f.pos == 3;
          assert Guarded(P, e, f, LOCK, Ev(e.tid, 4));
        } else if f.pos == 7 {
          assert CompletedBetween(P, e, f, true);
        }
      }
    }
  }

  /** Rank `t` has the lock. */
  predicate InSection(c: Ctl, t: nat) {
    t < |c.pc| && 3 <= c.pc[t] <= 5
  }

  /** An operation that its unlock has not closed belongs to a rank inside the section. */
  lemma OpenMeansInside(roles: seq<Role>, tr: seq<Label>, k: nat)
    requires Ran(Contend(roles), true, tr) && k < |After(Contend(roles), true, tr).ops| && After(Contend(roles), true, tr).ops[k].dstOpen
    ensures var s := After(Contend(roles), true, tr); Hold(s.ops[k].tid, LOCK, true) in s.ctl.held && InSection(s.ctl, s.ops[k].tid)
  {
    var P, s := Contend(roles), After(Contend(roles), true, tr);
    var o := s.ops[k];
    Straight(roles);
    Issuers(P, true, tr);
    assert Issuer(P, s.ctl, o);
    Calls(roles, Ev(o.tid, o.pos));
    Inside(roles, o.tid);
    ClosedByCall(P, true, tr, Ev(o.tid, 3), Ev(o.tid, 4), true);
    assert s.ctl.pc[o.tid] == 4;
    HoldsLock(P, true, tr, o.tid, LOCK);
    assert HoldMode(P.threads[o.tid].code, LOCK, 4) == HoldMode(P.threads[o.tid].code, LOCK, 3);
  }

  /** MAIN RESULT. In every delayed run an operation that is still in flight belongs to a rank that holds
      the lock, and nobody else does. */
  lemma {:induction false} InFlightMeansLocked(roles: seq<Role>, tr: seq<Label>, k: nat)
    requires Exec(Contend(roles), false, tr).Some? && k < |Exec(Contend(roles), false, tr).value.ops|
    requires Exec(Contend(roles), false, tr).value.ops[k].phase != Done
    ensures var s := Exec(Contend(roles), false, tr).value;
            && Hold(s.ops[k].tid, LOCK, true) in s.ctl.held
            && forall h :: h in s.ctl.held && h.lock == LOCK ==> h.tid == s.ops[k].tid
  {
    var P := Contend(roles);
    var d := Exec(P, false, tr).value;
    Straight(roles);
    ControlSimulates(P, tr);
    var i := After(P, true, Erase(tr));
    assert SameIssue(d.ops[k], i.ops[k]);
    OpenMeansInside(roles, Erase(tr), k);
    LockExclusion(P, false, tr);
  }

  // ----- what is seen

  /** What the last writer that was given the lock puts, or the initial 0. */
  function LastPut(roles: seq<Role>, log: seq<Ev>): int {
    if log == [] then 0
    else
      var e := log[|log| - 1];
      if e.pos == 2 && e.tid < |roles| && roles[e.tid].Writer? then roles[e.tid].v else LastPut(roles, log[..|log| - 1])
  }

  /** What rank `t` finds in the cell when it is given the lock. */
  function Found(roles: seq<Role>, c: Ctl, t: nat): int {
    LastPut(roles, Until(c.log, Ev(t, 2)))
  }

  /** The load of a rank that does not put. */
  function LookAt(t: nat, r: Role): Ev {
    Ev(t, if r.Owner? then 3 else 7)
  }

  lemma LogGrows(roles: seq<Role>, log: seq<Ev>, next: Ev, e: Ev)
    ensures LastPut(roles, log + [next]) ==
      if next.pos == 2 && next.tid < |roles| && roles[next.tid].Writer? then roles[next.tid].v else LastPut(roles, log)
    ensures e in log || next == e ==> Until(log + [next], e) == Until(log, e)
  {
    assert (log + [next])[..|log|] == log;
  }

  lemma WriterBuffer(roles: seq<Role>, i: nat)
    requires i < |roles| && roles[i].Writer?
    ensures Yields(Contend(roles), Ev(i, 0), Buf(i), roles[i].v)
  {
    var P := Contend(roles);
    SectionsApart(roles);
    forall e | IsCall(P, e)
      ensures Writes(CallAt(P, e), Buf(i)) ==> e == Ev(i, 0)
    {
      Calls(roles, e);
    }
    StoreYields(P, Ev(i, 0), Buf(i), roles[i].v);
  }

  /** Writers have set their buffers, and at most one rank is in its section. */
  ghost predicate Serial(roles: seq<Role>, s: State)
    requires Shape(Contend(roles), s)
  {
    && (forall t :: 0 <= t < |roles| && roles[t].Writer? && s.ctl.pc[t] == 3 ==> At(s.mem, Buf(t)) == roles[t].v)
    && (forall t: nat, u: nat :: InSection(s.ctl, t) && InSection(s.ctl, u) ==> t == u)
    && (forall t: nat :: InSection(s.ctl, t) ==> Hold(t, LOCK, true) in s.ctl.held)
  }

  lemma RunIsSerial(roles: seq<Role>, tr: seq<Label>)
    requires Ran(Contend(roles), true, tr)
    ensures Serial(roles, After(Contend(roles), true, tr))
  {
    var P, s := Contend(roles), After(Contend(roles), true, tr);
    Straight(roles);
    LockExclusion(P, true, tr);
    forall t: nat | InSection(s.ctl, t)
      ensures Hold(t, LOCK, true) in s.ctl.held
    {
      HoldsLock(P, true, tr, t, LOCK);
      Inside(roles, t);
      HoldModeSame(P.threads[t].code, LOCK, 3, s.ctl.pc[t]);
    }
    forall t | 0 <= t < |roles| && roles[t].Writer? && s.ctl.pc[t] == 3
      ensures At(s.mem, Buf(t)) == roles[t].v
    {
      WriterBuffer(roles, t);
      assert Passed(s.ctl, Ev(t, 0));
    }
  }

  /** The cell, seen from rank `t`: what it found, and what it leaves. */
  ghost predicate SectionOk(roles: seq<Role>, s: State, t: nat)
    requires t < |roles|
  {
    && (Passed(s.ctl, Ev(t, 2)) <==> Ev(t, 2) in s.ctl.log)
    && (InSection(s.ctl, t) ==>
          && LastPut(roles, s.ctl.log) == (if roles[t].Writer? then roles[t].v else Found(roles, s.ctl, t))
          && At(s.mem, WIN) == if s.ctl.pc[t] == 3 then Found(roles, s.ctl, t) else LastPut(roles, s.ctl.log))
    && (roles[t].Reader? && Passed(s.ctl, Ev(t, 3)) ==> At(s.mem, Buf(t)) == Found(roles, s.ctl, t))
  }

  ghost predicate LooksOk(roles: seq<Role>, s: State, t: nat)
    requires t < |roles|
  {
    !roles[t].Writer? ==>
      forall k :: 0 <= k < |s.obs| && LoadedBy(s.obs[k], LookAt(t, roles[t])) ==>
        Ev(t, 2) in s.ctl.log && s.obs[k].value == Found(roles, s.ctl, t)
  }

  ghost predicate CellOk(roles: seq<Role>, s: State) {
    (forall t: nat :: !InSection(s.ctl, t)) ==> At(s.mem, WIN) == LastPut(roles, s.ctl.log)
  }

  ghost predicate AllOk(roles: seq<Role>, s: State)
    requires Shape(Contend(roles), s)
  {
    Serial(roles, s) && CellOk(roles, s) && forall t: nat :: t < |roles| ==> SectionOk(roles, s, t)
  }

  /** What the next call of rank `u` does to the cell, the buffers and the log. */
  ghost predicate Moves(roles: seq<Role>, s: State, u: nat, s': State) {
    && u < |roles| == |s.ctl.pc| && s.ctl.pc[u] < 8
    && var p := s.ctl.pc[u];
       && s'.ctl.pc == s.ctl.pc[u := p + 1] && s'.ctl.log == s.ctl.log + [Ev(u, p)]
       && At(s'.mem, WIN) == (if p == 3 && roles[u].Writer? then At(s.mem, Buf(u)) else At(s.mem, WIN))
       && (forall t :: 0 <= t < |roles| && (t != u || (p != 0 && p != 3)) ==> At(s'.mem, Buf(t)) == At(s.mem, Buf(t)))
       && (p == 3 && roles[u].Reader? ==> At(s'.mem, Buf(u)) == At(s.mem, WIN))
  }

  lemma GoMoves(roles: seq<Role>, s: State, u: nat)
    requires Shape(Contend(roles), s) && Next(Contend(roles), true, s, Go(u)).Some?
    ensures Moves(roles, s, u, Next(Contend(roles), true, s, Go(u)).value)
  {
    var P := Contend(roles);
    Calls(roles, Ev(u, s.ctl.pc[u]));
    MemStep(P, s, Go(u), WIN);
    forall t | 0 <= t < |roles|
      ensures t != u || (s.ctl.pc[u] != 0 && s.ctl.pc[u] != 3) ==> At(Next(P, true, s, Go(u)).value.mem, Buf(t)) == At(s.mem, Buf(t))
      ensures t == u && s.ctl.pc[u] == 3 && roles[u].Reader? ==> At(Next(P, true, s, Go(u)).value.mem, Buf(t)) == At(s.mem, WIN)
    {
      MemStep(P, s, Go(u), Buf(t));
    }
  }

  lemma OwnMove(roles: seq<Role>, s: State, t: nat, s': State)
    requires Moves(roles, s, t, s') && SectionOk(roles, s, t)
    requires s.ctl.pc[t] == 2 ==> At(s.mem, WIN) == LastPut(roles, s.ctl.log)
    requires s.ctl.pc[t] == 3 && roles[t].Writer? ==> At(s.mem, Buf(t)) == roles[t].v
    ensures SectionOk(roles, s', t)
  {
    LogGrows(roles, s.ctl.log, Ev(t, s.ctl.pc[t]), Ev(t, 2));
  }

  lemma OtherMove(roles: seq<Role>, s: State, u: nat, t: nat, s': State)
    requires Moves(roles, s, u, s') && t < |roles| && t != u && SectionOk(roles, s, t)
    requires InSection(s.ctl, t) ==> s.ctl.pc[u] != 2 && s.ctl.pc[u] != 3
    ensures SectionOk(roles, s', t)
  {
    LogGrows(roles, s.ctl.log, Ev(u, s.ctl.pc[u]), Ev(t, 2));
  }

  lemma CellMove(roles: seq<Role>, s: State, u: nat, s': State)
    requires Moves(roles, s, u, s') && SectionOk(roles, s, u)
    requires forall t: nat :: t != u ==> InSection(s'.ctl, t) == InSection(s.ctl, t)
    requires !InSection(s.ctl, u) ==> CellOk(roles, s)
    ensures CellOk(roles, s')
  {
    LogGrows(roles, s.ctl.log, Ev(u, s.ctl.pc[u]), Ev(u, 2));
    if forall t: nat :: !InSection(s'.ctl, t) {
      assert !InSection(s'.ctl, u);
      if !InSection(s.ctl, u) {
        assert forall t: nat :: !InSection(s.ctl, t) by {
          assert forall t: nat :: t != u ==> !InSection(s'.ctl, t);
        }
      }
    }
  }

  lemma GoStep(roles: seq<Role>, s: State, u: nat)
    requires Shape(Contend(roles), s) && Next(Contend(roles), true, s, Go(u)).Some? && AllOk(roles, s)
    requires Serial(roles, Next(Contend(roles), true, s, Go(u)).value)
    ensures AllOk(roles, Next(Contend(roles), true, s, Go(u)).value)
  {
    var s' := Next(Contend(roles), true, s, Go(u)).value;
    GoMoves(roles, s, u);
    if s.ctl.pc[u] == 2 {
      assert InSection(s'.ctl, u);
      assert forall t: nat :: t != u && InSection(s.ctl, t) ==> InSection(s'.ctl, t);
    }
    if s.ctl.pc[u] == 3 {
      assert InSection(s.ctl, u);
    }
    forall t: nat | t < |roles|
      ensures SectionOk(roles, s', t)
    {
      if t == u {
        OwnMove(roles, s, u, s');
      } else {
        OtherMove(roles, s, u, t, s');
      }
    }
    CellMove(roles, s, u, s');
  }

  lemma MeetStep(roles: seq<Role>, s: State, g: set<nat>)
    requires Shape(Contend(roles), s) && Next(Contend(roles), true, s, Meet(g)).Some? && AllOk(roles, s)
    requires Serial(roles, Next(Contend(roles), true, s, Meet(g)).value)
    ensures AllOk(roles, Next(Contend(roles), true, s, Meet(g)).value)
  {
    var P, s' := Contend(roles), Next(Contend(roles), true, s, Meet(g)).value;
    forall t: nat | t < |roles|
      ensures SectionOk(roles, s', t) && InSection(s'.ctl, t) == InSection(s.ctl, t)
    {
      if t in g {
        assert NextCall(P, s.ctl, t) == Barrier(g);
        Calls(roles, Ev(t, s.ctl.pc[t]));
      }
      assert SectionOk(roles, s, t);
    }
    assert forall t: nat :: InSection(s.ctl, t) ==> InSection(s'.ctl, t);
  }

  lemma {:induction false} SectionsOk(roles: seq<Role>, tr: seq<Label>)
    requires Ran(Contend(roles), true, tr)
    ensures AllOk(roles, After(Contend(roles), true, tr))
  {
    RunIsSerial(roles, tr);
    if tr != [] {
      var s, l := After(Contend(roles), true, tr[..|tr| - 1]), tr[|tr| - 1];
      SectionsOk(roles, tr[..|tr| - 1]);
      match l
      case Go(u) => GoStep(roles, s, u);
      case Meet(g) => MeetStep(roles, s, g);
      case Deliver(n) => NoNotes(roles, tr[..|tr| - 1]);
      case _ =>
    }
  }

  lemma {:induction false} NoNotes(roles: seq<Role>, tr: seq<Label>)
    requires Ran(Contend(roles), true, tr)
    ensures After(Contend(roles), true, tr).ctl.notes == {}
  {
    if tr != [] {
      var s, l := After(Contend(roles), true, tr[..|tr| - 1]), tr[|tr| - 1];
      NoNotes(roles, tr[..|tr| - 1]);
      if l.Go? {
        Calls(roles, Ev(l.t, s.ctl.pc[l.t]));
      }
    }
  }

  lemma LookStep(roles: seq<Role>, s: State, l: Label, t: nat)
    requires t < |roles| && Shape(Contend(roles), s) && Next(Contend(roles), true, s, l).Some?
    requires SectionOk(roles, s, t) && LooksOk(roles, s, t)
    ensures LooksOk(roles, Next(Contend(roles), true, s, l).value, t)
  {
    var P, s' := Contend(roles), Next(Contend(roles), true, s, l).value;
    if l.Go? {
      LogGrows(roles, s.ctl.log, Ev(l.t, s.ctl.pc[l.t]), Ev(t, 2));
      Calls(roles, Ev(l.t, s.ctl.pc[l.t]));
    }
    forall k | !roles[t].Writer? && 0 <= k < |s'.obs| && LoadedBy(s'.obs[k], LookAt(t, roles[t]))
      ensures Ev(t, 2) in s'.ctl.log && s'.obs[k].value == Found(roles, s'.ctl, t)
    {
      ObsStep(P, s, l, k);
    }
  }

  lemma {:induction false} LooksAreFound(roles: seq<Role>, tr: seq<Label>, t: nat)
    requires Ran(Contend(roles), true, tr) && t < |roles|
    ensures LooksOk(roles, After(Contend(roles), true, tr), t)
  {
    if tr != [] {
      var before := tr[..|tr| - 1];
      LooksAreFound(roles, before, t);
      SectionsOk(roles, before);
      LookStep(roles, After(Contend(roles), true, before), tr[|tr| - 1], t);
    }
  }

  lemma NothingInFlight(roles: seq<Role>, tr: seq<Label>)
    requires Exec(Contend(roles), false, tr).Some?
    requires forall t: nat :: !InSection(Exec(Contend(roles), false, tr).value.ctl, t)
    ensures Quiescent(Exec(Contend(roles), false, tr).value)
  {
    var P := Contend(roles);
    var d := Exec(P, false, tr).value;
    Straight(roles);
    ControlSimulates(P, tr);
    var i := After(P, true, Erase(tr));
    forall k | 0 <= k < |d.ops|
      ensures d.ops[k].phase == Done
    {
      assert SameIssue(d.ops[k], i.ops[k]);
      if i.ops[k].dstOpen {
        OpenMeansInside(roles, Erase(tr), k);
      }
    }
  }

  /** MAIN RESULT. MPIRMA/sync/027 and 028 for any number of ranks, in every delayed run: there is no race;
      a get or a guarded load returns the value of the last writer that was given the lock before it (0 if
      there was none); and whenever nobody is inside, the cell holds the value of the last writer of all. */
  lemma {:induction false} CriticalSectionsNeverMeet(roles: seq<Role>, tr: seq<Label>)
    requires Exec(Contend(roles), false, tr).Some?
    ensures RaceFree(Contend(roles), false)
    ensures var d := Exec(Contend(roles), false, tr).value;
            && (forall t: nat :: t < |roles| ==> LooksOk(roles, d, t))
            && ((forall t: nat :: !InSection(d.ctl, t)) ==> At(d.mem, WIN) == LastPut(roles, d.ctl.log))
  {
    var P := Contend(roles);
    SectionsApart(roles);
    OrderedIsRaceFree(P);
    DelaysUnobservable(P, tr);
    var d, i := Exec(P, false, tr).value, After(P, true, Erase(tr));
    SectionsOk(roles, Erase(tr));
    forall t: nat | t < |roles|
      ensures LooksOk(roles, d, t)
    {
      LooksAreFound(roles, Erase(tr), t);
    }
    if forall t: nat :: !InSection(d.ctl, t) {
      NothingInFlight(roles, tr);
    }
  }

  // ----- and every rank gets its turn

  /** Whoever holds the lock is in its section. */
  lemma HolderInSection(roles: seq<Role>, i: nat, excl: bool, p: nat)
    requires i < |roles| && p <= 8 && HoldsIn(Code(|roles|, i, roles[i]), LOCK, excl, p)
    ensures 3 <= p <= 5
  {
    var c := Code(|roles|, i, roles[i]);
    assert c[5] == Release(LOCK) && c[2] == Acquire(LOCK, true);
    assert p == 0 || p == 1 || p == 2 || p == 3 || p == 4 || p == 5 || p == 6 || p == 7 || p == 8;
    assert !HoldsIn(c, LOCK, excl, 0) && !HoldsIn(c, LOCK, excl, 1) && !HoldsIn(c, LOCK, excl, 2);
    assert !HoldsIn(c, LOCK, excl, 6) && !HoldsIn(c, LOCK, excl, 7);
  }

  lemma CallIs(roles: seq<Role>, i: nat, p: nat)
    requires i < |roles| && p < 8
    ensures var c := Contend(roles).threads[i].code[p];
            && (p == 1 || p == 6 ==> c == Barrier(Upto(|roles|))) && (p == 2 ==> c == Acquire(LOCK, true))
            && (p != 1 && p != 6 && p != 2 ==> !c.Barrier? && !c.Acquire? && !c.Recv? && !c.Await?)
  {
    assert p == 0 || p == 1 || p == 2 || p == 3 || p == 4 || p == 5 || p == 6 || p == 7;
  }

  lemma NobodyInside(roles: seq<Role>, c: Ctl, i: nat)
    requires |c.pc| == |roles| && i < |roles| && c.pc[i] == 2 && forall u: nat :: !InSection(c, u)
    ensures FreeToGo(Contend(roles), c, i)
  {
    var P := Contend(roles);
    CallIs(roles, i, 2);
    forall u | 0 <= u < |P.threads| && u != i
      ensures !InTheWay(P, c, u, LOCK, true)
    {
      if InTheWay(P, c, u, LOCK, true) {
        assert P.threads[u].code == Code(|roles|, u, roles[u]) && c.pc[u] <= 8;
        HolderInSection(roles, u, HoldsIn(P.threads[u].code, LOCK, true, c.pc[u]), c.pc[u]);
        assert InSection(c, u);
      }
    }
  }

  lemma BarriersPassed(roles: seq<Role>, i: nat, p: nat)
    requires i < |roles| && p <= 8
    ensures Count(Code(|roles|, i, roles[i]), Barrier(Upto(|roles|)), p) == if p < 2 then 0 else if p < 7 then 1 else 2
  {
    CountEach(Code(|roles|, i, roles[i]), Barrier(Upto(|roles|)), 8);
    assert p == 0 || p == 1 || p == 2 || p == 3 || p == 4 || p == 5 || p == 6 || p == 7 || p == 8;
  }

  /** All ranks wait at the same barrier, or all are at their end. */
  lemma SameBarrier(roles: seq<Role>, tr: seq<Label>, i: nat, j: nat)
    requires Ran(Contend(roles), false, tr) && i < |roles| && j < |roles|
    requires var c := After(Contend(roles), false, tr).ctl; forall t :: 0 <= t < |roles| ==> c.pc[t] == 1 || c.pc[t] == 6 || c.pc[t] >= 8
    ensures After(Contend(roles), false, tr).ctl.pc[i] == After(Contend(roles), false, tr).ctl.pc[j]
  {
    var P := Contend(roles);
    var c := After(P, false, tr).ctl;
    Straight(roles);
    assert i in Upto(|roles|) && j in Upto(|roles|);
    BarrierCounts(P, false, tr, Upto(|roles|), i, j);
    BarriersPassed(roles, i, c.pc[i]);
    BarriersPassed(roles, j, c.pc[j]);
  }

  lemma SectionsMove(roles: seq<Role>, tr: seq<Label>)
    requires Ran(Contend(roles), false, tr) && !AtEnd(Contend(roles), After(Contend(roles), false, tr).ctl)
    ensures CanMove(Contend(roles), After(Contend(roles), false, tr).ctl)
  {
    var P := Contend(roles);
    var c := After(P, false, tr).ctl;
    Straight(roles);
    forall t: nat | t < |roles|
      ensures c.pc[t] <= 8 && |P.threads[t].code| == 8
    {
      InBounds(P, false, tr, t);
    }
    if i: nat :| i < |roles| && c.pc[i] != 1 && c.pc[i] != 2 && c.pc[i] != 6 && c.pc[i] < 8 {
      CallIs(roles, i, c.pc[i]);
      assert FreeToGo(P, c, i);
    } else if i: nat :| i < |roles| && c.pc[i] == 2 {
      NobodyInside(roles, c, i);
    } else {
      AllTogether(roles, tr);
    }
  }

  lemma AllMeet(roles: seq<Role>, c: Ctl, p: nat)
    requires |c.pc| == |roles| > 0 && (p == 1 || p == 6) && forall t :: 0 <= t < |roles| ==> c.pc[t] == p
    ensures MayMeet(Contend(roles), c, Upto(|roles|))
  {
    var P := Contend(roles);
    assert 0 in Upto(|roles|);
    forall t | t in Upto(|roles|)
      ensures Running(P, c, t) && NextCall(P, c, t) == Barrier(Upto(|roles|))
    {
      CallIs(roles, t, p);
    }
  }

  lemma AllTogether(roles: seq<Role>, tr: seq<Label>)
    requires Ran(Contend(roles), false, tr) && !AtEnd(Contend(roles), After(Contend(roles), false, tr).ctl)
    requires var c := After(Contend(roles), false, tr).ctl; forall t :: 0 <= t < |roles| ==> c.pc[t] == 1 || c.pc[t] == 6 || c.pc[t] == 8
    ensures MayMeet(Contend(roles), After(Contend(roles), false, tr).ctl, Upto(|roles|))
  {
    var c := After(Contend(roles), false, tr).ctl;
    var i :| 0 <= i < |roles| && c.pc[i] != |Contend(roles).threads[i].code|;
    forall t | 0 <= t < |roles|
      ensures c.pc[t] == c.pc[i]
    {
      SameBarrier(roles, tr, i, t);
    }
    AllMeet(roles, c, c.pc[i]);
  }

  /** MAIN RESULT. Nobody waits for ever: every run, whatever its delays and whoever came first, can be
      continued until all ranks are at their end. Then each has had the lock, and what it found in the cell
      and what the cell holds are as said above. */
  lemma {:induction false} SectionsFinish(roles: seq<Role>)
    ensures EveryRunCanFinish(Contend(roles))
  {
    Straight(roles);
    forall tr | Ran(Contend(roles), false, tr) && !AtEnd(Contend(roles), After(Contend(roles), false, tr).ctl)
      ensures CanMove(Contend(roles), After(Contend(roles), false, tr).ctl)
    {
      SectionsMove(roles, tr);
    }
    NeverStuckFinishes(Contend(roles));
  }
}
