/**
 Delayed execution refines immediate execution.

 If no schedule of the immediate machine reaches a race, then no schedule of the delayed machine does,
 and the delays cannot be observed: every delayed run loads the same values, in the same order and with
 the same synchronisation, as the immediate run that drops the scheduler's accesses, and ends in the
 same memory once no operation is pending. Conversely every immediate run is a delayed run.
 */
module Refinement {
  import opened Machine

  // ----- the pending writes, settled in issue order

  function Settle1(m: Memory, d: Op, val: int): Memory {
    if d.phase == Done then m else WriteTo(m, d.kind, d.dst, val)
  }

  /** The memory after all pending writes of `ops` land in issue order, with the values in `im`. */
  function Settle(m: Memory, ops: seq<Op>, im: seq<Op>): Memory
    requires |ops| == |im|
  {
    if ops == [] then m
    else Settle1(Settle(m, ops[..|ops| - 1], im[..|im| - 1]), ops[|ops| - 1], im[|im| - 1].val)
  }

  ghost predicate NoPendingTo(ops: seq<Op>, x: Loc) {
    forall k :: 0 <= k < |ops| && ops[k].phase != Done ==> ops[k].dst != x
  }

  lemma {:induction false} SettleUntouched(m: Memory, ops: seq<Op>, im: seq<Op>, x: Loc)
    requires |ops| == |im| && NoPendingTo(ops, x)
    ensures At(Settle(m, ops, im), x) == At(m, x)
  {
    if ops != [] {
      SettleUntouched(m, ops[..|ops| - 1], im[..|im| - 1], x);
      assert ops[|ops| - 1].phase != Done ==> ops[|ops| - 1].dst != x;
    }
  }

  lemma {:induction false} SettleStore(m: Memory, ops: seq<Op>, im: seq<Op>, x: Loc, v: int)
    requires |ops| == |im| && NoPendingTo(ops, x)
    ensures Settle(m[x := v], ops, im) == Settle(m, ops, im)[x := v]
  {
    if ops != [] {
      SettleStore(m, ops[..|ops| - 1], im[..|im| - 1], x, v);
      assert ops[|ops| - 1].phase != Done ==> ops[|ops| - 1].dst != x;
    }
  }

  /** Two pending writes may land in either order. */
  predicate Commute(a: Op, b: Op) {
    a.dst != b.dst || (a.kind == Acc && b.kind == Acc)
  }

  lemma SwapWrites(m: Memory, a: Op, va: int, b: Op, vb: int)
    requires a.phase != Done ==> Commute(a, b)
    ensures Settle1(WriteTo(m, b.kind, b.dst, vb), a, va) == WriteTo(Settle1(m, a, va), b.kind, b.dst, vb)
  {
  }

  /** A write that commutes with every pending write may land before them. */
  lemma {:induction false} SettleAfter(m: Memory, ops: seq<Op>, im: seq<Op>, o: Op, val: int)
    requires |ops| == |im|
    requires forall j :: 0 <= j < |ops| && ops[j].phase != Done ==> Commute(ops[j], o)
    ensures Settle(WriteTo(m, o.kind, o.dst, val), ops, im) == WriteTo(Settle(m, ops, im), o.kind, o.dst, val)
  {
    if ops != [] {
      var n := |ops| - 1;
      SettleAfter(m, ops[..n], im[..n], o, val);
      SwapWrites(Settle(m, ops[..n], im[..n]), ops[n], im[n].val, o, val);
    }
  }

  /** Landing operation `k` out of issue order does not change the settled memory. */
  lemma {:induction false} SettleLand(m: Memory, ops: seq<Op>, im: seq<Op>, k: nat)
    requires |ops| == |im| && k < |ops| && ops[k].phase != Done
    requires forall j :: 0 <= j < k && ops[j].phase != Done ==> Commute(ops[j], ops[k])
    ensures Settle(WriteTo(m, ops[k].kind, ops[k].dst, im[k].val), ops[k := ops[k].(phase := Done)], im) == Settle(m, ops, im)
  {
    var n := |ops| - 1;
    var ops' := ops[k := ops[k].(phase := Done)];
    if k == n {
      assert ops'[..n] == ops[..n];
      SettleAfter(m, ops[..n], im[..n], ops[n], im[n].val);
    } else {
      assert ops'[..n] == ops[..n][k := ops[k].(phase := Done)];
      SettleLand(m, ops[..n], im[..n], k);
    }
  }

  lemma {:induction false} SettleSame(m: Memory, ops: seq<Op>, ops': seq<Op>, im: seq<Op>, im': seq<Op>)
    requires |ops| == |im| == |ops'| == |im'|
    requires forall k :: 0 <= k < |ops| ==> SameWrite(ops[k], ops'[k]) && im'[k].val == im[k].val
    ensures Settle(m, ops', im') == Settle(m, ops, im)
  {
    if ops != [] {
      var n := |ops| - 1;
      SettleSame(m, ops[..n], ops'[..n], im[..n], im'[..n]);
      assert SameWrite(ops[n], ops'[n]);
    }
  }

  predicate SameWrite(a: Op, b: Op) {
    a.kind == b.kind && a.dst == b.dst && (a.phase == Done <==> b.phase == Done)
  }

  lemma {:induction false} SettleDone(m: Memory, ops: seq<Op>, im: seq<Op>)
    requires |ops| == |im| && forall k :: 0 <= k < |ops| ==> ops[k].phase == Done
    ensures Settle(m, ops, im) == m
  {
    if ops != [] {
      SettleDone(m, ops[..|ops| - 1], im[..|im| - 1]);
    }
  }

  // ----- the simulation relation

  /** An operation in the delayed state `d` and the same operation in the immediate state. */
  predicate Match(d: Op, i: Op) {
    i.phase == Done && i == d.(phase := Done, val := i.val) && (d.phase != Issued ==> d.val == i.val)
  }

  ghost predicate Related(d: State, i: State) {
    && d.ctl == i.ctl && d.regs == i.regs && d.obs == i.obs
    && |d.ops| == |i.ops|
    && (forall k :: 0 <= k < |d.ops| ==> Match(d.ops[k], i.ops[k]))
    && (forall k :: 0 <= k < |d.ops| ==> Tracked(d.ops[k]))
    && (forall k :: 0 <= k < |d.ops| && d.ops[k].phase == Issued ==> At(d.mem, d.ops[k].src) == i.ops[k].val)
    && SourcesQuiet(d.ops)
    && WritesOrdered(d.ops)
    && i.mem == Settle(d.mem, d.ops, i.ops)
  }

  /** An access that has not happened is still open. */
  predicate Tracked(o: Op) {
    (o.phase == Issued ==> o.srcOpen) && (o.phase != Done ==> o.dstOpen)
  }

  /** No pending write goes to a source that is still to be read. */
  ghost predicate SourcesQuiet(ops: seq<Op>) {
    forall j, k :: 0 <= j < |ops| && 0 <= k < |ops| && j != k && ops[j].phase == Issued && ops[k].phase != Done
      ==> ops[k].dst != ops[j].src
  }

  ghost predicate WritesOrdered(ops: seq<Op>) {
    forall j, k :: 0 <= j < k < |ops| && ops[j].phase != Done && ops[k].phase != Done
      ==> Commute(ops[j], ops[k]) || Ordered(ops[j], ops[k])
  }

  lemma NoClash(P: Program, d: State, i: State, t: nat)
    requires Shape(P, d) && Shape(P, i) && Related(d, i) && !Race(P, i) && Running(P, i.ctl, t)
    ensures forall k :: 0 <= k < |d.ops| ==> !Clash(t, d.ctl.batch[t], NextCall(P, d.ctl, t), d.ops[k])
  {
    forall k | 0 <= k < |d.ops|
      ensures !Clash(t, d.ctl.batch[t], NextCall(P, d.ctl, t), d.ops[k])
    {
      assert !RaceAt(P, i, t, k);
      assert Match(d.ops[k], i.ops[k]);
    }
  }

  /** The delayed state has no race either. */
  lemma RelatedNoRace(P: Program, d: State, i: State)
    requires Shape(P, d) && Shape(P, i) && Related(d, i) && !Race(P, i)
    ensures !Race(P, d)
  {
    forall t: nat, k: nat
      ensures !RaceAt(P, d, t, k)
    {
      if Running(P, d.ctl, t) {
        NoClash(P, d, i, t);
      }
    }
  }

  // ----- one step

  /** A local store that no open operation clashes with. */
  lemma StoreThrough(d: State, i: State, c: Ctl, x: Loc, v: int)
    requires Related(d, i) && NoPendingTo(d.ops, x)
    requires forall k :: 0 <= k < |d.ops| && d.ops[k].phase == Issued ==> d.ops[k].src != x
    ensures Related(d.(ctl := c, mem := d.mem[x := v]), i.(ctl := c, mem := i.mem[x := v]))
  {
    SettleStore(d.mem, d.ops, i.ops, x, v);
  }

  /** A local access that clashes with nothing finds its cell out of reach of the pending operations. */
  lemma CellQuiet(d: State, t: nat, call: Instr)
    requires t < |d.ctl.batch| && (call.Load? || call.Store? || call.Add?)
    requires forall k :: 0 <= k < |d.ops| ==> Tracked(d.ops[k]) && !Clash(t, d.ctl.batch[t], call, d.ops[k])
    ensures NoPendingTo(d.ops, call.x)
    ensures !call.Load? ==> forall k :: 0 <= k < |d.ops| && d.ops[k].phase == Issued ==> d.ops[k].src != call.x
  {
    forall k | 0 <= k < |d.ops|
      ensures d.ops[k].phase != Done ==> d.ops[k].dst != call.x
      ensures !call.Load? && d.ops[k].phase == Issued ==> d.ops[k].src != call.x
    {
      assert Tracked(d.ops[k]) && !Clash(t, d.ctl.batch[t], call, d.ops[k]);
    }
  }

  lemma StepLoad(P: Program, d: State, i: State, t: nat)
    requires Shape(P, d) && Shape(P, i) && Related(d, i) && !Race(P, i)
    requires Enabled(P, d, Go(t)) && NextCall(P, d.ctl, t).Load?
    ensures Next(P, true, i, Go(t)).Some? && Related(Apply(P, d, Go(t)), Next(P, true, i, Go(t)).value)
  {
    var call := NextCall(P, d.ctl, t);
    NoClash(P, d, i, t);
    CellQuiet(d, t, call);
    SettleUntouched(d.mem, d.ops, i.ops, call.x);
  }

  function Written(call: Instr, m: Memory): int
    requires call.Store? || call.Add?
  {
    if call.Store? then call.v else At(m, call.x) + call.v
  }

  lemma WriteInBoth(P: Program, d: State, i: State, t: nat)
    requires Shape(P, d) && Shape(P, i) && Enabled(P, d, Go(t)) && d.ctl == i.ctl && d.regs == i.regs
    requires var call := NextCall(P, d.ctl, t); (call.Store? || call.Add?) && At(d.mem, call.x) == At(i.mem, call.x)
    ensures var call, c := NextCall(P, d.ctl, t), CtlGo(P, d.ctl, d.regs[t], t);
            && Apply(P, d, Go(t)) == d.(ctl := c, mem := d.mem[call.x := Written(call, d.mem)])
            && Next(P, true, i, Go(t)) == Some(i.(ctl := c, mem := i.mem[call.x := Written(call, d.mem)]))
  {
  }

  lemma StepWrite(P: Program, d: State, i: State, t: nat)
    requires Shape(P, d) && Shape(P, i) && Related(d, i) && !Race(P, i)
    requires Enabled(P, d, Go(t)) && (NextCall(P, d.ctl, t).Store? || NextCall(P, d.ctl, t).Add?)
    ensures Next(P, true, i, Go(t)).Some? && Related(Apply(P, d, Go(t)), Next(P, true, i, Go(t)).value)
  {
    var call := NextCall(P, d.ctl, t);
    NoClash(P, d, i, t);
    CellQuiet(d, t, call);
    SettleUntouched(d.mem, d.ops, i.ops, call.x);
    StoreThrough(d, i, CtlGo(P, d.ctl, d.regs[t], t), call.x, Written(call, d.mem));
    WriteInBoth(P, d, i, t);
  }

  lemma StepAccess(P: Program, d: State, i: State, t: nat)
    requires Shape(P, d) && Shape(P, i) && Related(d, i) && !Race(P, i)
    requires Enabled(P, d, Go(t))
    requires !NextCall(P, d.ctl, t).Rma? && !NextCall(P, d.ctl, t).Close?
    ensures Next(P, true, i, Go(t)).Some? && Related(Apply(P, d, Go(t)), Next(P, true, i, Go(t)).value)
  {
    var call := NextCall(P, d.ctl, t);
    if call.Load? {
      StepLoad(P, d, i, t);
    } else if call.Store? || call.Add? {
      StepWrite(P, d, i, t);
    }
  }

  lemma AppendedWrites(ops: seq<Op>, o: Op)
    requires SourcesQuiet(ops) && WritesOrdered(ops)
    requires forall k :: 0 <= k < |ops| && ops[k].phase != Done ==>
      && ops[k].dst != o.src
      && (ops[k].phase == Issued ==> ops[k].src != o.dst)
      && (Commute(ops[k], o) || Ordered(ops[k], o))
    ensures SourcesQuiet(ops + [o]) && WritesOrdered(ops + [o])
  {
  }

  /** A new operation goes in flight. */
  lemma AppendOp(d: State, i: State, c: Ctl, o: Op, val: int)
    requires Related(d, i)
    requires o.phase == Issued && o.srcOpen && o.dstOpen && At(d.mem, o.src) == val
    requires forall k :: 0 <= k < |d.ops| && d.ops[k].phase != Done ==>
      && d.ops[k].dst != o.src
      && (d.ops[k].phase == Issued ==> d.ops[k].src != o.dst)
      && (Commute(d.ops[k], o) || Ordered(d.ops[k], o))
    ensures Related(d.(ctl := c, ops := d.ops + [o]),
                    i.(ctl := c, ops := i.ops + [o.(phase := Done, val := val)], mem := WriteTo(i.mem, o.kind, o.dst, val)))
  {
    var n, dops, iops := |d.ops|, d.ops + [o], i.ops + [o.(phase := Done, val := val)];
    assert dops[..n] == d.ops && iops[..n] == i.ops;
    assert Settle(d.mem, dops, iops) == Settle1(Settle(d.mem, d.ops, i.ops), o, val);
    AppendedWrites(d.ops, o);
  }

  lemma StepRma(P: Program, d: State, i: State, t: nat)
    requires Shape(P, d) && Shape(P, i) && Related(d, i) && !Race(P, i)
    requires Enabled(P, d, Go(t)) && NextCall(P, d.ctl, t).Rma?
    ensures Next(P, true, i, Go(t)).Some? && Related(Apply(P, d, Go(t)), Next(P, true, i, Go(t)).value)
  {
    NoClash(P, d, i, t);
    var call := NextCall(P, d.ctl, t);
    var o := NewOp(P, d.ctl, t, call);
    forall k | 0 <= k < |d.ops| && d.ops[k].phase != Done
      ensures d.ops[k].dst != call.src
      ensures d.ops[k].phase == Issued ==> d.ops[k].src != call.dst
      ensures Commute(d.ops[k], o) || Ordered(d.ops[k], o)
    {
      assert Tracked(d.ops[k]) && !Clash(t, d.ctl.batch[t], call, d.ops[k]);
    }
    SettleUntouched(d.mem, d.ops, i.ops, call.src);
    var val, c := At(i.mem, call.src), CtlGo(P, d.ctl, d.regs[t], t);
    AppendOp(d, i, c, o, val);
    IssueNow(P, i, t);
  }

  /** In the immediate machine the issue of an operation is also its effect. */
  lemma IssueNow(P: Program, i: State, t: nat)
    requires Shape(P, i) && Enabled(P, i, Go(t)) && NextCall(P, i.ctl, t).Rma?
    ensures var o := NewOp(P, i.ctl, t, NextCall(P, i.ctl, t));
            var val := At(i.mem, o.src);
            Next(P, true, i, Go(t)) == Some(i.(ctl := CtlGo(P, i.ctl, i.regs[t], t),
                                               ops := i.ops + [o.(phase := Done, val := val)],
                                               mem := WriteTo(i.mem, o.kind, o.dst, val)))
  {
    var o := NewOp(P, i.ctl, t, NextCall(P, i.ctl, t));
    var val, n := At(i.mem, o.src), |i.ops|;
    assert (i.ops + [o])[n := o.(phase := Fetched, val := val)] == i.ops + [o.(phase := Fetched, val := val)];
    assert (i.ops + [o.(phase := Fetched, val := val)])[n := o.(phase := Done, val := val)] == i.ops + [o.(phase := Done, val := val)];
  }

  predicate SameButFlags(a: Op, b: Op) {
    b == a.(srcOpen := b.srcOpen, dstOpen := b.dstOpen)
  }

  /** Completing calls only change which accesses are still open. */
  lemma Reflag(d: State, i: State, c: Ctl, dops: seq<Op>, iops: seq<Op>)
    requires Related(d, i) && |dops| == |d.ops| && |iops| == |i.ops|
    requires forall k :: 0 <= k < |d.ops| ==>
      SameButFlags(d.ops[k], dops[k]) && SameButFlags(i.ops[k], iops[k]) && Match(dops[k], iops[k]) && Tracked(dops[k])
    ensures Related(d.(ctl := c, ops := dops), i.(ctl := c, ops := iops))
  {
    forall k | 0 <= k < |d.ops|
      ensures SameWrite(d.ops[k], dops[k]) && iops[k].val == i.ops[k].val
      ensures dops[k].phase == d.ops[k].phase && dops[k].src == d.ops[k].src
    {
      assert SameButFlags(d.ops[k], dops[k]) && SameButFlags(i.ops[k], iops[k]);
    }
    SettleSame(d.mem, d.ops, dops, i.ops, iops);
    assert SourcesQuiet(dops);
    forall j, k | 0 <= j < k < |dops| && dops[j].phase != Done && dops[k].phase != Done
      ensures Commute(dops[j], dops[k]) || Ordered(dops[j], dops[k])
    {
      assert SameButFlags(d.ops[j], dops[j]) && SameButFlags(d.ops[k], dops[k]);
      assert Commute(d.ops[j], d.ops[k]) || Ordered(d.ops[j], d.ops[k]);
    }
  }

  lemma StepClose(P: Program, d: State, i: State, t: nat)
    requires Shape(P, d) && Shape(P, i) && Related(d, i)
    requires Enabled(P, d, Go(t)) && NextCall(P, d.ctl, t).Close?
    ensures Next(P, true, i, Go(t)).Some? && Related(Apply(P, d, Go(t)), Next(P, true, i, Go(t)).value)
  {
    var call := NextCall(P, d.ctl, t);
    var me := P.threads[t].rank;
    forall k | 0 <= k < |i.ops| && Covers(call.scope, me, i.ops[k])
      ensures Complete(call.side, i.ops[k])
    {
      assert Match(d.ops[k], i.ops[k]);
    }
    var dops, iops := CloseOps(d.ops, call.side, call.scope, me), CloseOps(i.ops, call.side, call.scope, me);
    forall k | 0 <= k < |d.ops|
      ensures SameButFlags(d.ops[k], dops[k]) && SameButFlags(i.ops[k], iops[k]) && Match(dops[k], iops[k]) && Tracked(dops[k])
    {
      assert Match(d.ops[k], i.ops[k]) && Tracked(d.ops[k]);
    }
    Reflag(d, i, CtlGo(P, d.ctl, d.regs[t], t), dops, iops);
  }

  lemma StepDeliver(P: Program, d: State, i: State, n: Note)
    requires Shape(P, d) && Shape(P, i) && Related(d, i)
    requires Enabled(P, d, Deliver(n))
    ensures Next(P, true, i, Deliver(n)).Some? && Related(Apply(P, d, Deliver(n)), Next(P, true, i, Deliver(n)).value)
  {
    forall k | 0 <= k < |i.ops| && Precedes(i.ops[k], n)
      ensures i.ops[k].phase == Done
    {
      assert Match(d.ops[k], i.ops[k]);
    }
    var dops, iops := DeliverOps(d.ops, n), DeliverOps(i.ops, n);
    forall k | 0 <= k < |d.ops|
      ensures SameButFlags(d.ops[k], dops[k]) && SameButFlags(i.ops[k], iops[k]) && Match(dops[k], iops[k]) && Tracked(dops[k])
    {
      assert Match(d.ops[k], i.ops[k]) && Tracked(d.ops[k]);
    }
    Reflag(d, i, Apply(P, d, Deliver(n)).ctl, dops, iops);
  }

  lemma FetchedWrites(ops: seq<Op>, k: nat, o: Op)
    requires k < |ops| && ops[k].phase == Issued && o.phase == Fetched && o == ops[k].(phase := Fetched, val := o.val)
    requires SourcesQuiet(ops) && WritesOrdered(ops)
    ensures SourcesQuiet(ops[k := o]) && WritesOrdered(ops[k := o])
  {
    var ops' := ops[k := o];
    forall a, b | 0 <= a < b < |ops| && ops'[a].phase != Done && ops'[b].phase != Done
      ensures Commute(ops'[a], ops'[b]) || Ordered(ops'[a], ops'[b])
    {
      assert Commute(ops[a], ops[b]) || Ordered(ops[a], ops[b]);
    }
  }

  lemma StepFetch(P: Program, d: State, i: State, k: nat)
    requires Shape(P, d) && Related(d, i) && Enabled(P, d, Fetch(k))
    ensures Related(Apply(P, d, Fetch(k)), i)
  {
    assert Match(d.ops[k], i.ops[k]) && Tracked(d.ops[k]);
    var o := d.ops[k].(phase := Fetched, val := i.ops[k].val);
    var dops := d.ops[k := o];
    FetchedWrites(d.ops, k, o);
    SettleSame(d.mem, d.ops, dops, i.ops, i.ops);
    assert Apply(P, d, Fetch(k)) == d.(ops := dops);
    forall j | 0 <= j < |dops|
      ensures Match(dops[j], i.ops[j]) && Tracked(dops[j])
    {
      assert Match(d.ops[j], i.ops[j]) && Tracked(d.ops[j]);
    }
  }

  lemma LandedWrites(ops: seq<Op>, k: nat)
    requires k < |ops| && SourcesQuiet(ops) && WritesOrdered(ops)
    ensures SourcesQuiet(ops[k := ops[k].(phase := Done)]) && WritesOrdered(ops[k := ops[k].(phase := Done)])
  {
    var ops' := ops[k := ops[k].(phase := Done)];
    forall a, b | 0 <= a < b < |ops| && ops'[a].phase != Done && ops'[b].phase != Done
      ensures Commute(ops'[a], ops'[b]) || Ordered(ops'[a], ops'[b])
    {
      assert Commute(ops[a], ops[b]) || Ordered(ops[a], ops[b]);
    }
  }

  /** A landed write leaves alone the sources that are still to be read. */
  lemma LandedSources(d: State, i: State, k: nat)
    requires Related(d, i) && k < |d.ops| && d.ops[k].phase != Done
    ensures forall j :: 0 <= j < |d.ops| && j != k && d.ops[j].phase == Issued ==>
              At(WriteTo(d.mem, d.ops[k].kind, d.ops[k].dst, d.ops[k].val), d.ops[j].src) == i.ops[j].val
  {
    forall j | 0 <= j < |d.ops| && j != k && d.ops[j].phase == Issued
      ensures d.ops[j].src != d.ops[k].dst
    {
    }
  }

  lemma StepLand(P: Program, d: State, i: State, k: nat)
    requires Shape(P, d) && Related(d, i) && Enabled(P, d, Land(k))
    ensures Related(Apply(P, d, Land(k)), i)
  {
    assert Match(d.ops[k], i.ops[k]) && Tracked(d.ops[k]);
    var d' := LandOp(d, k);
    SettleLand(d.mem, d.ops, i.ops, k);
    LandedWrites(d.ops, k);
    LandedSources(d, i, k);
    forall j | 0 <= j < |d.ops|
      ensures Match(d'.ops[j], i.ops[j]) && Tracked(d'.ops[j])
    {
      assert Match(d.ops[j], i.ops[j]) && Tracked(d.ops[j]);
    }
  }

  // ----- whole runs

  /** The schedule without the scheduler's own accesses. */
  function Erase(tr: seq<Label>): seq<Label> {
    if tr == [] then []
    else
      var l := tr[|tr| - 1];
      Erase(tr[..|tr| - 1]) + if l.Fetch? || l.Land? then [] else [l]
  }

  /** A step that is not one of the scheduler's accesses is a step of both machines. */
  lemma StepVisible(P: Program, d: State, i: State, l: Label)
    requires Shape(P, d) && Shape(P, i) && Related(d, i) && !Race(P, i) && Enabled(P, d, l) && !l.Fetch? && !l.Land?
    ensures Next(P, true, i, l).Some? && Related(Apply(P, d, l), Next(P, true, i, l).value)
  {
    match l
    case Go(t) =>
      if NextCall(P, d.ctl, t).Rma? {
        StepRma(P, d, i, t);
      } else if NextCall(P, d.ctl, t).Close? {
        StepClose(P, d, i, t);
      } else {
        StepAccess(P, d, i, t);
      }
    case Meet(_) =>
    case Deliver(n) =>
      StepDeliver(P, d, i, n);
  }

  lemma {:induction false} Simulates(P: Program, tr: seq<Label>)
    requires RaceFree(P, true) && Exec(P, false, tr).Some?
    ensures Exec(P, true, Erase(tr)).Some? && Related(Exec(P, false, tr).value, Exec(P, true, Erase(tr)).value)
  {
    if tr != [] {
      var l, before := tr[|tr| - 1], tr[..|tr| - 1];
      Simulates(P, before);
      var d, i := Exec(P, false, before).value, Exec(P, true, Erase(before)).value;
      if l.Fetch? {
        StepFetch(P, d, i, l.k);
        assert Erase(tr) == Erase(before);
      } else if l.Land? {
        StepLand(P, d, i, l.k);
        assert Erase(tr) == Erase(before);
      } else {
        StepVisible(P, d, i, l);
        assert Erase(tr)[..|Erase(tr)| - 1] == Erase(before) && Erase(tr)[|Erase(tr)| - 1] == l;
      }
    }
  }

  /** No operation is pending. */
  ghost predicate Quiescent(s: State) {
    forall k :: 0 <= k < |s.ops| ==> s.ops[k].phase == Done
  }

  /** MAIN RESULT. A program that is race free when every operation takes effect at issue cannot observe
      the delays: any delayed run has the loaded values and the order of calls of the immediate run with
      the same synchronisation, and the same memory once nothing is pending. */
  lemma {:induction false} DelaysUnobservable(P: Program, tr: seq<Label>)
    requires RaceFree(P, true) && Exec(P, false, tr).Some?
    ensures Exec(P, true, Erase(tr)).Some?
    ensures var d, i := Exec(P, false, tr).value, Exec(P, true, Erase(tr)).value;
            && d.obs == i.obs && d.ctl == i.ctl
            && (Quiescent(d) ==> d.mem == i.mem)
            && (forall x :: NoPendingTo(d.ops, x) ==> At(d.mem, x) == At(i.mem, x))
            && !Race(P, d)
  {
    Simulates(P, tr);
    var d, i := Exec(P, false, tr).value, Exec(P, true, Erase(tr)).value;
    RelatedNoRace(P, d, i);
    if Quiescent(d) {
      SettleDone(d.mem, d.ops, i.ops);
    }
    forall x | NoPendingTo(d.ops, x)
      ensures At(d.mem, x) == At(i.mem, x)
    {
      SettleUntouched(d.mem, d.ops, i.ops, x);
    }
  }

  // ----- the other direction

  /** A step of the immediate machine keeps every operation but for its flags, which only go down, and
      adds at most one, finished. */
  lemma OpsStep(P: Program, s: State, l: Label, k: nat)
    requires Shape(P, s) && Next(P, true, s, l).Some? && k < |Next(P, true, s, l).value.ops|
    ensures var s' := Next(P, true, s, l).value;
            if k < |s.ops| then
              && SameButFlags(s.ops[k], s'.ops[k])
              && (s'.ops[k].srcOpen ==> s.ops[k].srcOpen) && (s'.ops[k].dstOpen ==> s.ops[k].dstOpen)
            else
              && l.Go? && k == |s.ops| && Running(P, s.ctl, l.t) && NextCall(P, s.ctl, l.t).Rma?
              && (var o := NewOp(P, s.ctl, l.t, NextCall(P, s.ctl, l.t));
                  s'.ops[k] == o.(phase := Done, val := At(s.mem, o.src)))
  {
  }

  lemma {:induction false} ImmediateSettled(P: Program, tr: seq<Label>)
    requires Exec(P, true, tr).Some?
    ensures Quiescent(Exec(P, true, tr).value)
  {
    if tr != [] {
      ImmediateSettled(P, tr[..|tr| - 1]);
      var s, s' := Exec(P, true, tr[..|tr| - 1]).value, Exec(P, true, tr).value;
      forall k | 0 <= k < |s'.ops|
        ensures s'.ops[k].phase == Done
      {
        OpsStep(P, s, tr[|tr| - 1], k);
      }
    }
  }

  lemma LandAtOnce(P: Program, dt: seq<Label>, s: State, l: Label)
    requires Shape(P, s) && Quiescent(s) && Enabled(P, s, l) && |Apply(P, s, l).ops| > |s.ops|
    requires Exec(P, false, dt) == Some(Apply(P, s, l))
    ensures Exec(P, false, dt + [Fetch(|s.ops|)] + [Land(|s.ops|)]) == Next(P, true, s, l)
    ensures Erase(dt + [Fetch(|s.ops|)] + [Land(|s.ops|)]) == Erase(dt)
  {
    var s1, n := Apply(P, s, l), |s.ops|;
    var d1 := dt + [Fetch(n)];
    var d2 := d1 + [Land(n)];
    assert d1[..|dt|] == dt && d2[..|d1|] == d1;
    var s2 := FetchOp(s1, n);
    assert Enabled(P, s1, Fetch(n));
    assert Exec(P, false, d1) == Some(s2);
    assert forall j :: 0 <= j < n ==> s2.ops[j] == s.ops[j];
    assert Enabled(P, s2, Land(n));
  }

  /** Every immediate run is a delayed run: the scheduler places both accesses right after the issue. */
  lemma {:induction false} ImmediateIsDelayed(P: Program, tr: seq<Label>) returns (dt: seq<Label>)
    requires Exec(P, true, tr).Some?
    ensures Exec(P, false, dt) == Exec(P, true, tr) && Erase(dt) == tr
  {
    if tr == [] {
      dt := [];
    } else {
      var l, before := tr[|tr| - 1], tr[..|tr| - 1];
      var d := ImmediateIsDelayed(P, before);
      ImmediateSettled(P, before);
      var s := Exec(P, true, before).value;
      var s1 := Apply(P, s, l);
      assert (d + [l])[..|d|] == d;
      assert Exec(P, false, d + [l]) == Some(s1);
      assert tr == before + [l];
      if |s1.ops| > |s.ops| {
        dt := d + [l] + [Fetch(|s.ops|)] + [Land(|s.ops|)];
        LandAtOnce(P, d + [l], s, l);
      } else {
        dt := d + [l];
      }
    }
  }

  /** MAIN RESULT. The delayed machine is race free exactly when the immediate one is. */
  lemma {:induction false} RaceFreeEquivalence(P: Program)
    ensures RaceFree(P, false) <==> RaceFree(P, true)
  {
    if RaceFree(P, true) {
      forall tr | Exec(P, false, tr).Some?
        ensures !Race(P, Exec(P, false, tr).value)
      {
        DelaysUnobservable(P, tr);
      }
    }
    if RaceFree(P, false) {
      forall tr | Exec(P, true, tr).Some?
        ensures !Race(P, Exec(P, true, tr).value)
      {
        var dt := ImmediateIsDelayed(P, tr);
      }
    }
  }

  // ----- what delays never change, race or not

  predicate NoBranches(P: Program) {
    forall t, j :: 0 <= t < |P.threads| && 0 <= j < |P.threads[t].code| ==> !P.threads[t].code[j].Branch?
  }

  predicate SameIssue(d: Op, i: Op) {
    i.phase == Done && i == d.(phase := Done, val := i.val) && Tracked(d)
  }

  ghost predicate SameControl(d: State, i: State) {
    d.ctl == i.ctl && |d.ops| == |i.ops| && forall k :: 0 <= k < |d.ops| ==> SameIssue(d.ops[k], i.ops[k])
  }

  lemma ControlClose(P: Program, d: State, i: State, t: nat)
    requires Shape(P, d) && Shape(P, i) && SameControl(d, i) && Enabled(P, d, Go(t)) && NextCall(P, d.ctl, t).Close?
    ensures Next(P, true, i, Go(t)).Some?
    ensures forall k :: 0 <= k < |d.ops| ==> SameIssue(Apply(P, d, Go(t)).ops[k], Next(P, true, i, Go(t)).value.ops[k])
  {
    var call, me := NextCall(P, d.ctl, t), P.threads[t].rank;
    forall k | 0 <= k < |d.ops|
      ensures SameIssue(CloseOps(d.ops, call.side, call.scope, me)[k], CloseOps(i.ops, call.side, call.scope, me)[k])
    {
      assert SameIssue(d.ops[k], i.ops[k]);
    }
  }

  /** A call of a program without branches moves control in one way, whatever the registers hold. */
  lemma ControlMoves(P: Program, c: Ctl, r: int, r': int, t: nat)
    requires NoBranches(P) && Running(P, c, t) && CtlEnabled(P, c, t) && |c.pc| == |c.batch|
    ensures CtlGo(P, c, r, t) == CtlGo(P, c, r', t)
  {
  }

  lemma ControlGo(P: Program, d: State, i: State, t: nat)
    requires Shape(P, d) && Shape(P, i) && NoBranches(P) && SameControl(d, i) && Enabled(P, d, Go(t))
    ensures Next(P, true, i, Go(t)).Some? && SameControl(Apply(P, d, Go(t)), Next(P, true, i, Go(t)).value)
  {
    ControlMoves(P, d.ctl, d.regs[t], i.regs[t], t);
    if NextCall(P, d.ctl, t).Rma? {
      IssueNow(P, i, t);
    } else if NextCall(P, d.ctl, t).Close? {
      ControlClose(P, d, i, t);
    }
  }

  lemma ControlStep(P: Program, d: State, i: State, l: Label)
    requires Shape(P, d) && Shape(P, i) && NoBranches(P) && SameControl(d, i) && Enabled(P, d, l)
    ensures if l.Fetch? || l.Land? then SameControl(Apply(P, d, l), i)
            else Next(P, true, i, l).Some? && SameControl(Apply(P, d, l), Next(P, true, i, l).value)
  {
    if l.Go? {
      ControlGo(P, d, i, l.t);
    } else {
      forall k | 0 <= k < |d.ops|
        ensures SameIssue(d.ops[k], i.ops[k])
      {
      }
    }
  }

  /** MAIN RESULT. Without branches on loaded values the delays never change which calls run, in which
      order, and what has been completed, even in a program with races. */
  lemma {:induction false} ControlSimulates(P: Program, tr: seq<Label>)
    requires NoBranches(P) && Exec(P, false, tr).Some?
    ensures Exec(P, true, Erase(tr)).Some? && SameControl(Exec(P, false, tr).value, Exec(P, true, Erase(tr)).value)
  {
    if tr != [] {
      var l, before := tr[|tr| - 1], tr[..|tr| - 1];
      ControlSimulates(P, before);
      ControlStep(P, Exec(P, false, before).value, Exec(P, true, Erase(before)).value, l);
      if l.Fetch? || l.Land? {
        assert Erase(tr) == Erase(before);
      } else {
        assert Erase(tr)[..|Erase(tr)| - 1] == Erase(before) && Erase(tr)[|Erase(tr)| - 1] == l;
      }
    }
  }
}
