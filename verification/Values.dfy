/**
 What loads return, in every run and with any delays.
 */
module Values {
  import opened Machine
  import opened Refinement
  import opened Ordering
  import opened Separation

  predicate Writes(i: Instr, x: Loc) {
    (i.Store? && i.x == x) || (i.Add? && i.x == x) || (i.Rma? && i.dst == x)
  }

  /** Every other write to `x` is executed before call `e`. */
  ghost predicate LastWriter(P: Program, e: Ev, x: Loc) {
    IsCall(P, e) && Writes(CallAt(P, e), x) &&
    forall f :: IsCall(P, f) && Writes(CallAt(P, f), x) && f != e ==> Before(P, f, e)
  }

  /** Once `e` has run, cell `x` holds `v` for good (when operations take effect at issue). */
  ghost predicate Yields(P: Program, e: Ev, x: Loc, v: int) {
    forall tr :: Ran(P, true, tr) && Passed(After(P, true, tr).ctl, e) ==> At(After(P, true, tr).mem, x) == v
  }

  /** What the step that executes `e` leaves in `x`. */
  ghost predicate LeavesValue(P: Program, e: Ev, x: Loc, v: int)
    requires IsCall(P, e)
  {
    forall tr :: Ran(P, true, tr) && After(P, true, tr).ctl.pc[e.tid] == e.pos ==>
      match CallAt(P, e)
      case Store(_, w) => w == v
      case Rma(kind, _, _, src, _) => kind != Acc && At(After(P, true, tr).mem, src) == v
      case _ => false
  }

  lemma MemStep(P: Program, s: State, l: Label, x: Loc)
    requires Shape(P, s) && Next(P, true, s, l).Some?
    ensures At(Next(P, true, s, l).value.mem, x) ==
      if l.Go? && NextCall(P, s.ctl, l.t).Rma? && NextCall(P, s.ctl, l.t).dst == x then
        (if NextCall(P, s.ctl, l.t).kind == Acc then At(s.mem, x) else 0) + At(s.mem, NextCall(P, s.ctl, l.t).src)
      else if l.Go? then At(MemGo(NextCall(P, s.ctl, l.t), s.mem), x)
      else At(s.mem, x)
  {
    if l.Go? && NextCall(P, s.ctl, l.t).Rma? {
      IssueNow(P, s, l.t);
    }
  }

  lemma {:induction false} LastWriterYields(P: Program, tr: seq<Label>, e: Ev, x: Loc, v: int)
    requires OnlySpins(P) && LastWriter(P, e, x) && LeavesValue(P, e, x, v) && Ran(P, true, tr)
    ensures Passed(After(P, true, tr).ctl, e) ==> At(After(P, true, tr).mem, x) == v
  {
    if tr != [] {
      var before, l := tr[..|tr| - 1], tr[|tr| - 1];
      LastWriterYields(P, before, e, x, v);
      var s := After(P, true, before);
      PassedStep(P, true, s, l, e);
      MemStep(P, s, l, x);
      if l.Go? && Running(P, s.ctl, l.t) {
        var f := Ev(l.t, s.ctl.pc[l.t]);
        assert Writes(CallAt(P, f), x) && f != e && Passed(s.ctl, e) ==> Passed(s.ctl, f);
      }
    }
  }

  lemma StoreYields(P: Program, e: Ev, x: Loc, v: int)
    requires OnlySpins(P) && LastWriter(P, e, x) && CallAt(P, e) == Store(x, v)
    ensures Yields(P, e, x, v)
  {
    forall tr | Ran(P, true, tr) && Passed(After(P, true, tr).ctl, e)
      ensures At(After(P, true, tr).mem, x) == v
    {
      LastWriterYields(P, tr, e, x, v);
    }
  }

  /** A put or get passes on the value that its source was left with. */
  lemma CopyYields(P: Program, e0: Ev, e: Ev, v: int)
    requires OnlySpins(P) && IsCall(P, e) && CallAt(P, e).Rma? && CallAt(P, e).kind != Acc
    requires LastWriter(P, e, CallAt(P, e).dst) && Yields(P, e0, CallAt(P, e).src, v) && Before(P, e0, e)
    ensures Yields(P, e, CallAt(P, e).dst, v)
  {
    assert LeavesValue(P, e, CallAt(P, e).dst, v) by {
      forall tr | Ran(P, true, tr) && After(P, true, tr).ctl.pc[e.tid] == e.pos
        ensures At(After(P, true, tr).mem, CallAt(P, e).src) == v
      {
        assert Reached(After(P, true, tr).ctl, e);
      }
    }
    forall tr | Ran(P, true, tr) && Passed(After(P, true, tr).ctl, e)
      ensures At(After(P, true, tr).mem, CallAt(P, e).dst) == v
    {
      LastWriterYields(P, tr, e, CallAt(P, e).dst, v);
    }
  }

  /** A cell that no call writes keeps its first value. */
  lemma {:induction false} Unwritten(P: Program, tr: seq<Label>, x: Loc)
    requires Ran(P, true, tr) && forall e :: IsCall(P, e) ==> !Writes(CallAt(P, e), x)
    ensures At(After(P, true, tr).mem, x) == At(P.mem, x)
  {
    if tr != [] {
      var s, l := After(P, true, tr[..|tr| - 1]), tr[|tr| - 1];
      Unwritten(P, tr[..|tr| - 1], x);
      MemStep(P, s, l, x);
      if l.Go? {
        assert !Writes(CallAt(P, Ev(l.t, s.ctl.pc[l.t])), x);
      }
    }
  }

  /** A put or get from such a cell passes on its first value. */
  lemma FirstValueYields(P: Program, e: Ev)
    requires OnlySpins(P) && IsCall(P, e) && CallAt(P, e).Rma? && CallAt(P, e).kind != Acc && LastWriter(P, e, CallAt(P, e).dst)
    requires forall f :: IsCall(P, f) ==> !Writes(CallAt(P, f), CallAt(P, e).src)
    ensures Yields(P, e, CallAt(P, e).dst, At(P.mem, CallAt(P, e).src))
  {
    var v := At(P.mem, CallAt(P, e).src);
    forall tr | Ran(P, true, tr)
      ensures At(After(P, true, tr).mem, CallAt(P, e).src) == v
    {
      Unwritten(P, tr, CallAt(P, e).src);
    }
    assert LeavesValue(P, e, CallAt(P, e).dst, v);
    forall tr | Ran(P, true, tr) && Passed(After(P, true, tr).ctl, e)
      ensures At(After(P, true, tr).mem, CallAt(P, e).dst) == v
    {
      LastWriterYields(P, tr, e, CallAt(P, e).dst, v);
    }
  }

  /** Every value that load `f` returns satisfies `ok`, with or without delays. */
  ghost predicate AlwaysLoads(P: Program, imm: bool, f: Ev, ok: set<int>) {
    forall tr :: Exec(P, imm, tr).Some? ==>
      forall k :: 0 <= k < |Exec(P, imm, tr).value.obs| && LoadedBy(Exec(P, imm, tr).value.obs[k], f) ==>
        Exec(P, imm, tr).value.obs[k].value in ok
  }

  predicate LoadedBy(o: Obs, f: Ev) {
    o.tid == f.tid && o.pos == f.pos
  }

  lemma ObsStep(P: Program, s: State, l: Label, k: nat)
    requires Shape(P, s) && Next(P, true, s, l).Some? && k < |Next(P, true, s, l).value.obs|
    ensures var o := Next(P, true, s, l).value.obs[k];
            if k < |s.obs| then o == s.obs[k]
            else l.Go? && Running(P, s.ctl, l.t) && NextCall(P, s.ctl, l.t).Load?
                 && o == Obs(l.t, s.ctl.pc[l.t], At(s.mem, NextCall(P, s.ctl, l.t).x))
  {
  }

  lemma {:induction false} LoadsIn(P: Program, tr: seq<Label>, f: Ev, x: Loc, ok: set<int>)
    requires IsCall(P, f) && CallAt(P, f) == Load(x) && Ran(P, true, tr)
    requires forall tr' :: Ran(P, true, tr') && After(P, true, tr').ctl.pc[f.tid] == f.pos ==> At(After(P, true, tr').mem, x) in ok
    ensures forall k :: 0 <= k < |After(P, true, tr).obs| && LoadedBy(After(P, true, tr).obs[k], f) ==> After(P, true, tr).obs[k].value in ok
  {
    if tr != [] {
      LoadsIn(P, tr[..|tr| - 1], f, x, ok);
      forall k | 0 <= k < |After(P, true, tr).obs| && LoadedBy(After(P, true, tr).obs[k], f)
        ensures After(P, true, tr).obs[k].value in ok
      {
        ObsStep(P, After(P, true, tr[..|tr| - 1]), tr[|tr| - 1], k);
      }
    }
  }

  /** If the cell holds a value in `ok` whenever the immediate machine comes to load `f`, then the load
      returns such a value in every run, with or without delays. */
  lemma {:induction false} LoadsSurviveDelays(P: Program, f: Ev, x: Loc, ok: set<int>)
    requires RaceFree(P, true) && IsCall(P, f) && CallAt(P, f) == Load(x)
    requires forall tr :: Ran(P, true, tr) && After(P, true, tr).ctl.pc[f.tid] == f.pos ==> At(After(P, true, tr).mem, x) in ok
    ensures AlwaysLoads(P, true, f, ok) && AlwaysLoads(P, false, f, ok)
  {
    forall tr | Exec(P, true, tr).Some?
      ensures forall k :: 0 <= k < |Exec(P, true, tr).value.obs| && LoadedBy(Exec(P, true, tr).value.obs[k], f) ==>
                Exec(P, true, tr).value.obs[k].value in ok
    {
      assert Ran(P, true, tr);
      LoadsIn(P, tr, f, x, ok);
    }
    forall tr | Exec(P, false, tr).Some?
      ensures forall k :: 0 <= k < |Exec(P, false, tr).value.obs| && LoadedBy(Exec(P, false, tr).value.obs[k], f) ==>
                Exec(P, false, tr).value.obs[k].value in ok
    {
      DelaysUnobservable(P, tr);
    }
  }

  /** MAIN RESULT. In a well synchronised program a load ordered after the last write to its cell
      returns that write's value in every run, however long the operations are delayed. */
  lemma {:induction false} LoadSeesLastWrite(P: Program, e: Ev, f: Ev, x: Loc, v: int)
    requires WellSynchronised(P) && Yields(P, e, x, v) && Before(P, e, f)
    requires IsCall(P, f) && CallAt(P, f) == Load(x)
    ensures AlwaysLoads(P, false, f, {v})
  {
    OrderedIsRaceFree(P);
    forall tr | Ran(P, true, tr) && After(P, true, tr).ctl.pc[f.tid] == f.pos
      ensures At(After(P, true, tr).mem, x) in {v}
    {
      assert Reached(After(P, true, tr).ctl, f);
    }
    LoadsSurviveDelays(P, f, x, {v});
  }

  /** A load that has been executed has returned something. */
  lemma {:induction false} LoadObserved(P: Program, imm: bool, tr: seq<Label>, f: Ev) returns (k: nat)
    requires NoBranches(P) && Ran(P, imm, tr) && IsCall(P, f) && CallAt(P, f).Load? && Passed(After(P, imm, tr).ctl, f)
    ensures k < |After(P, imm, tr).obs| && LoadedBy(After(P, imm, tr).obs[k], f)
    decreases |tr|
  {
    var before, l := tr[..|tr| - 1], tr[|tr| - 1];
    var s, s' := After(P, imm, before), After(P, imm, tr);
    if Passed(s.ctl, f) {
      k := LoadObserved(P, imm, before, f);
    } else {
      assert l == Go(f.tid) && s.ctl.pc[f.tid] == f.pos;
      k := |s.obs|;
    }
  }
}
