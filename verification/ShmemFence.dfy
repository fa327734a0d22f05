/**
 `shmem_fence` orders puts to one PE and nothing else; `shmem_quiet` completes, `shmem_sync` orders
 (SHMEM/sync/011, 012, 009 and 010).
 */
module ShmemFence {
  import opened Machine
  import opened Refinement
  import opened Ordering
  import opened Separation
  import opened Witness

  /** What PE 0 does to PE 1: put `v` to a cell, or call `shmem_fence`. */
  datatype Item = PutTo(cell: nat, v: int) | Fence

  function Source(i: nat): Loc { Loc(0, i) }
  function Target(cell: nat): Loc { Loc(1, cell) }

  function Call(i: nat, item: Item): Instr {
    match item
    case PutTo(cell, _) => Rma(Put, 1, 0, Source(i), Target(cell))
    case Fence => Order
  }

  const QUIET: Instr := Close(Both, AllOwn)

  /** The call at position `p` of PE 0. */
  function ItemCall(items: seq<Item>, p: nat): Instr {
    if p < |items| then Call(p, items[p]) else QUIET
  }

  function Code(items: seq<Item>): seq<Instr> {
    seq(|items|, i requires 0 <= i < |items| => Call(i, items[i])) + [QUIET]
  }

  function Sources(items: seq<Item>): Memory {
    map x: Loc | x in set i | 0 <= i < |items| :: Source(i) :: if items[x.cell].PutTo? then items[x.cell].v else 0
  }

  /** Any sequence of puts split by fences, then quiet. */
  function Batched(items: seq<Item>): Program {
    Program([Thread(0, Code(items))], Sources(items))
  }

  /** The number of fences before item `i`. */
  function Batch(items: seq<Item>, i: nat): nat
    requires i <= |items|
  {
    if i == 0 then 0 else Batch(items, i - 1) + if items[i - 1].Fence? then 1 else 0
  }

  lemma {:induction false} BatchMonotone(items: seq<Item>, i: nat, j: nat)
    requires i <= j <= |items|
    ensures Batch(items, i) <= Batch(items, j)
  {
    if i < j {
      BatchMonotone(items, i, j - 1);
    }
  }

  // ----- the order in which the puts land

  /** Operation `o` was issued by item `o.pos`. */
  ghost predicate FromItem(items: seq<Item>, pc: nat, o: Op) {
    && o.pos < pc && o.pos < |items| && items[o.pos].PutTo?
    && o.kind == Put && o.tid == 0 && o.owner == 0 && o.peer == 1 && o.batch == Batch(items, o.pos)
    && o.src == Source(o.pos) && o.dst == Target(items[o.pos].cell)
    && (o.phase != Issued ==> o.val == items[o.pos].v)
  }

  /** The cell holds its initial value, or the value of a put of the latest batch that has landed on it. */
  ghost predicate LatestLanded(s: State, x: Loc, start: int) {
    || (At(s.mem, x) == start && forall k :: 0 <= k < |s.ops| && s.ops[k].phase == Done ==> s.ops[k].dst != x)
    || exists w :: IsLatest(s, x, w)
  }

  ghost predicate IsLatest(s: State, x: Loc, w: int) {
    && 0 <= w < |s.ops| && s.ops[w].phase == Done && s.ops[w].dst == x && At(s.mem, x) == s.ops[w].val
    && forall k :: 0 <= k < |s.ops| && s.ops[k].phase == Done && s.ops[k].dst == x ==> s.ops[k].batch <= s.ops[w].batch
  }

  ghost predicate Inv(items: seq<Item>, s: State)
    requires Shape(Batched(items), s)
  {
    var pc := s.ctl.pc[0];
    && pc <= |items| + 1 && (pc <= |items| ==> s.ctl.batch[0] == Batch(items, pc)) && s.ctl.notes == {}
    && (forall k :: 0 <= k < |s.ops| ==> FromItem(items, pc, s.ops[k]))
    && (forall j, k :: 0 <= j < k < |s.ops| ==> s.ops[j].pos < s.ops[k].pos)
    && (forall j, k :: 0 <= j < k < |s.ops| && s.ops[j].batch < s.ops[k].batch && s.ops[k].phase == Done ==> s.ops[j].phase == Done)
    && (forall i :: 0 <= i < |items| ==> At(s.mem, Source(i)) == At(Sources(items), Source(i)))
    && (pc > |items| ==> Quiescent(s))
  }

  lemma TheCall(items: seq<Item>, c: Ctl)
    requires Running(Batched(items), c, 0)
    ensures c.pc[0] <= |items|
    ensures NextCall(Batched(items), c, 0) == ItemCall(items, c.pc[0])
  {
  }

  /** Only thread 0 and the scheduler's accesses move this program. */
  lemma OnlyPuts(items: seq<Item>, s: State, l: Label)
    requires Shape(Batched(items), s) && Enabled(Batched(items), s, l) && s.ctl.notes == {}
    ensures l == Go(0) || l.Fetch? || l.Land?
  {
    if l.Meet? {
      var t :| t in l.g;
      TheCall(items, s.ctl);
    }
  }

  /** Steps that land nothing keep what has landed. */
  lemma LatestKept(s: State, s': State, x: Loc)
    requires LatestLanded(s, x, 0) && At(s'.mem, x) == At(s.mem, x) && |s.ops| <= |s'.ops|
    requires forall k :: 0 <= k < |s.ops| ==> s'.ops[k].phase != Done || s.ops[k].phase == Done
    requires forall k :: 0 <= k < |s.ops| && s.ops[k].phase == Done ==> s'.ops[k] == s.ops[k].(srcOpen := s'.ops[k].srcOpen, dstOpen := s'.ops[k].dstOpen)
    requires forall k :: |s.ops| <= k < |s'.ops| ==> s'.ops[k].phase != Done
    ensures LatestLanded(s', x, 0)
  {
    if exists w :: IsLatest(s, x, w) {
      var w :| IsLatest(s, x, w);
      assert IsLatest(s', x, w);
    }
  }

  lemma InvFencing(items: seq<Item>, s: State)
    requires Shape(Batched(items), s) && Inv(items, s) && Enabled(Batched(items), s, Go(0)) && s.ctl.pc[0] < |items|
    requires !items[s.ctl.pc[0]].PutTo?
    ensures Inv(items, Apply(Batched(items), s, Go(0)))
  {
    TheCall(items, s.ctl);
    var s', pc := Apply(Batched(items), s, Go(0)), s.ctl.pc[0];
    forall k | 0 <= k < |s.ops|
      ensures FromItem(items, pc + 1, s.ops[k])
    {
      assert FromItem(items, pc, s.ops[k]);
    }
  }

  lemma InvIssue(items: seq<Item>, s: State)
    requires Shape(Batched(items), s) && Inv(items, s) && Enabled(Batched(items), s, Go(0)) && s.ctl.pc[0] < |items|
    requires items[s.ctl.pc[0]].PutTo?
    ensures Inv(items, Apply(Batched(items), s, Go(0)))
  {
    var P, pc := Batched(items), s.ctl.pc[0];
    TheCall(items, s.ctl);
    var s' := Apply(P, s, Go(0));
    assert s'.ops == s.ops + [NewOp(P, s.ctl, 0, Call(pc, items[pc]))];
    forall k | 0 <= k < |s'.ops|
      ensures FromItem(items, pc + 1, s'.ops[k])
    {
      assert k < |s.ops| ==> FromItem(items, pc, s.ops[k]);
    }
  }

  lemma InvQuiet(items: seq<Item>, s: State)
    requires Shape(Batched(items), s) && Inv(items, s) && Enabled(Batched(items), s, Go(0)) && s.ctl.pc[0] == |items|
    ensures Inv(items, Apply(Batched(items), s, Go(0)))
  {
    TheCall(items, s.ctl);
    var s' := Apply(Batched(items), s, Go(0));
    assert s'.ops == CloseOps(s.ops, Both, AllOwn, 0);
    forall k | 0 <= k < |s.ops|
      ensures s'.ops[k].phase == Done && FromItem(items, s'.ctl.pc[0], s'.ops[k])
    {
      assert FromItem(items, s.ctl.pc[0], s.ops[k]) && Covers(AllOwn, 0, s.ops[k]);
    }
  }

  lemma InvGo(items: seq<Item>, s: State, x: Loc)
    requires Shape(Batched(items), s) && Inv(items, s) && LatestLanded(s, x, 0) && Enabled(Batched(items), s, Go(0))
    ensures Inv(items, Apply(Batched(items), s, Go(0))) && LatestLanded(Apply(Batched(items), s, Go(0)), x, 0)
  {
    TheCall(items, s.ctl);
    if s.ctl.pc[0] < |items| {
      if items[s.ctl.pc[0]].PutTo? {
        InvIssue(items, s);
      } else {
        InvFencing(items, s);
      }
    } else {
      InvQuiet(items, s);
    }
    LatestKept(s, Apply(Batched(items), s, Go(0)), x);
  }

  lemma InvFetch(items: seq<Item>, s: State, x: Loc, k: nat)
    requires Shape(Batched(items), s) && Inv(items, s) && LatestLanded(s, x, 0) && Enabled(Batched(items), s, Fetch(k))
    ensures Inv(items, FetchOp(s, k)) && LatestLanded(FetchOp(s, k), x, 0)
  {
    assert FromItem(items, s.ctl.pc[0], s.ops[k]);
    LatestKept(s, FetchOp(s, k), x);
  }

  lemma LandedOrder(items: seq<Item>, s: State, k: nat)
    requires Shape(Batched(items), s) && Inv(items, s) && Enabled(Batched(items), s, Land(k))
    ensures forall m :: 0 <= m < |s.ops| && s.ops[m].phase == Done ==> s.ops[m].batch <= s.ops[k].batch
    ensures forall j :: 0 <= j < k && s.ops[j].batch < s.ops[k].batch ==> s.ops[j].phase == Done
  {
    var o := s.ops[k];
    assert FromItem(items, s.ctl.pc[0], o);
    forall m | 0 <= m < |s.ops| && s.ops[m].phase == Done
      ensures s.ops[m].batch <= o.batch
    {
      if m < k {
        assert FromItem(items, s.ctl.pc[0], s.ops[m]);
        BatchMonotone(items, s.ops[m].pos, o.pos);
      }
    }
    forall j | 0 <= j < k && s.ops[j].batch < o.batch
      ensures s.ops[j].phase == Done
    {
      assert FromItem(items, s.ctl.pc[0], s.ops[j]) && Ordered(s.ops[j], o);
    }
  }

  lemma LatestAfterLand(s: State, x: Loc, k: nat)
    requires k < |s.ops| && s.ops[k].kind == Put && s.ops[k].phase != Done && LatestLanded(s, x, 0)
    requires forall j :: 0 <= j < |s.ops| && s.ops[j].phase == Done && s.ops[j].dst == x && s.ops[k].dst == x ==> s.ops[j].batch <= s.ops[k].batch
    ensures LatestLanded(LandOp(s, k), x, 0)
  {
    var s' := LandOp(s, k);
    if s.ops[k].dst == x {
      assert IsLatest(s', x, k);
    } else if exists w :: IsLatest(s, x, w) {
      var w :| IsLatest(s, x, w);
      assert IsLatest(s', x, w);
    }
  }

  lemma InvLand(items: seq<Item>, s: State, x: Loc, k: nat)
    requires Shape(Batched(items), s) && Inv(items, s) && LatestLanded(s, x, 0) && Enabled(Batched(items), s, Land(k))
    ensures Inv(items, LandOp(s, k)) && LatestLanded(LandOp(s, k), x, 0)
  {
    assert FromItem(items, s.ctl.pc[0], s.ops[k]);
    LandedOrder(items, s, k);
    LatestAfterLand(s, x, k);
  }

  lemma {:induction false} InvHolds(items: seq<Item>, tr: seq<Label>, x: Loc)
    requires Exec(Batched(items), false, tr).Some? && x.rank == 1
    ensures var s := Exec(Batched(items), false, tr).value; Inv(items, s) && LatestLanded(s, x, 0)
  {
    if tr != [] {
      var before, l := tr[..|tr| - 1], tr[|tr| - 1];
      InvHolds(items, before, x);
      var s := Exec(Batched(items), false, before).value;
      OnlyPuts(items, s, l);
      if l.Go? {
        InvGo(items, s, x);
      } else if l.Fetch? {
        InvFetch(items, s, x, l.k);
      } else {
        InvLand(items, s, x, l.k);
      }
    }
  }

  lemma PosStep(items: seq<Item>, s: State, l: Label)
    requires Shape(Batched(items), s) && Enabled(Batched(items), s, l) && s.ctl.notes == {}
    ensures var s', pc := Apply(Batched(items), s, l), s.ctl.pc[0];
            && |s.ops| <= |s'.ops| && (forall k :: 0 <= k < |s.ops| ==> s'.ops[k].pos == s.ops[k].pos)
            && s'.ctl.pc[0] <= pc + 1
            && (s'.ctl.pc[0] == pc + 1 && pc < |items| && items[pc].PutTo? ==> |s'.ops| > |s.ops| && s'.ops[|s.ops|].pos == pc)
  {
    OnlyPuts(items, s, l);
    if l.Go? {
      TheCall(items, s.ctl);
    }
  }

  /** Every put before the current call is an operation. */
  lemma {:induction false} AllIssued(items: seq<Item>, tr: seq<Label>, i: nat)
    requires Exec(Batched(items), false, tr).Some? && i < |items| && items[i].PutTo?
    ensures var s := Exec(Batched(items), false, tr).value;
            i < s.ctl.pc[0] ==> exists k :: 0 <= k < |s.ops| && s.ops[k].pos == i
  {
    if tr != [] {
      var before := tr[..|tr| - 1];
      AllIssued(items, before, i);
      InvHolds(items, before, Target(0));
      var s, s' := Exec(Batched(items), false, before).value, Exec(Batched(items), false, tr).value;
      PosStep(items, s, tr[|tr| - 1]);
      if i < s.ctl.pc[0] {
        var k :| 0 <= k < |s.ops| && s.ops[k].pos == i;
        assert s'.ops[k].pos == i;
      } else if i < s'.ctl.pc[0] {
        assert s'.ops[|s.ops|].pos == i;
      }
    }
  }

  /** MAIN RESULT. For any puts split by fences, in any delayed run: after quiet every cell that was
      written holds the value of a put of the last batch that wrote it. */
  lemma {:induction false} LastBatchWins(items: seq<Item>, tr: seq<Label>, i: nat) returns (w: nat)
    requires i < |items| && items[i].PutTo?
    requires Exec(Batched(items), false, tr).Some? && Exec(Batched(items), false, tr).value.ctl.pc[0] == |items| + 1
    ensures w < |items| && items[w].PutTo? && items[w].cell == items[i].cell
    ensures At(Exec(Batched(items), false, tr).value.mem, Target(items[i].cell)) == items[w].v
    ensures forall j :: 0 <= j < |items| && items[j].PutTo? && items[j].cell == items[i].cell ==> Batch(items, j) <= Batch(items, w)
  {
    var s, x := Exec(Batched(items), false, tr).value, Target(items[i].cell);
    InvHolds(items, tr, x);
    AllIssued(items, tr, i);
    var k :| 0 <= k < |s.ops| && s.ops[k].pos == i;
    assert FromItem(items, s.ctl.pc[0], s.ops[k]);
    var l :| IsLatest(s, x, l);
    assert FromItem(items, s.ctl.pc[0], s.ops[l]);
    w := s.ops[l].pos;
    forall j | 0 <= j < |items| && items[j].PutTo? && items[j].cell == items[i].cell
      ensures Batch(items, j) <= Batch(items, w)
    {
      AllIssued(items, tr, j);
      var m :| 0 <= m < |s.ops| && s.ops[m].pos == j;
      assert FromItem(items, s.ctl.pc[0], s.ops[m]);
    }
  }

  // ----- races among fenced puts

  lemma {:induction false} BatchIsCount(items: seq<Item>, i: nat)
    requires i <= |items|
    ensures Count(Code(items), Order, i) == Batch(items, i)
  {
    if i > 0 {
      BatchIsCount(items, i - 1);
      assert Code(items)[i - 1] == Call(i - 1, items[i - 1]);
    }
  }

  ghost predicate CellsApart(items: seq<Item>) {
    forall i, j :: 0 <= i < j < |items| && items[i].PutTo? && items[j].PutTo? && items[i].cell == items[j].cell ==>
      Batch(items, i) != Batch(items, j)
  }

  lemma CallIs(items: seq<Item>, e: Ev)
    requires IsCall(Batched(items), e)
    ensures e.tid == 0 && e.pos <= |items| && Batched(items).threads[e.tid].code == Code(items)
    ensures CallAt(Batched(items), e) == ItemCall(items, e.pos)
  {
  }

  lemma TwoPuts(P: Program, e: Ev, f: Ev, c: nat, d: nat, a: nat, b: nat)
    requires IsCall(P, e) && IsCall(P, f) && e.tid == f.tid && a <= b
    requires CallAt(P, e) == Rma(Put, 1, 0, Source(e.pos), Target(c)) && CallAt(P, f) == Rma(Put, 1, 0, Source(f.pos), Target(d))
    requires a == Count(P.threads[e.tid].code, Order, e.pos) && b == Count(P.threads[f.tid].code, Order, f.pos)
    ensures !SrcConflict(P, e, f) && (DstConflict(P, e, f) <==> c == d && a == b)
  {
  }

  lemma NotTwoPuts(P: Program, e: Ev, f: Ev)
    requires IsCall(P, e) && IsCall(P, f) && CallAt(P, e).Rma? && (CallAt(P, f).Order? || CallAt(P, f).Close?)
    ensures !SrcConflict(P, e, f) && !DstConflict(P, e, f)
  {
  }

  lemma CallsMeet(P: Program, items: seq<Item>, e: Ev, f: Ev)
    requires IsCall(P, e) && IsCall(P, f) && e.tid == f.tid && e.pos < f.pos && P.threads[e.tid].code == Code(items)
    requires CallAt(P, e) == ItemCall(items, e.pos) && CallAt(P, f) == ItemCall(items, f.pos) && CallAt(P, e).Rma?
    ensures e.pos < |items| && items[e.pos].PutTo? && !SrcConflict(P, e, f)
    ensures DstConflict(P, e, f) <==>
              f.pos < |items| && items[f.pos].PutTo? && items[e.pos].cell == items[f.pos].cell && Batch(items, e.pos) == Batch(items, f.pos)
  {
    if f.pos < |items| && items[f.pos].PutTo? {
      BatchIsCount(items, e.pos);
      BatchIsCount(items, f.pos);
      BatchMonotone(items, e.pos, f.pos);
      TwoPuts(P, e, f, items[e.pos].cell, items[f.pos].cell, Batch(items, e.pos), Batch(items, f.pos));
    } else {
      NotTwoPuts(P, e, f);
    }
  }

  lemma PutsMeet(items: seq<Item>, e: Ev, f: Ev)
    requires IsCall(Batched(items), e) && IsCall(Batched(items), f) && CallAt(Batched(items), e).Rma? && e.pos < f.pos
    ensures e.pos < |items| && items[e.pos].PutTo? && !SrcConflict(Batched(items), e, f)
    ensures DstConflict(Batched(items), e, f) <==>
              f.pos < |items| && items[f.pos].PutTo? && items[e.pos].cell == items[f.pos].cell && Batch(items, e.pos) == Batch(items, f.pos)
  {
    CallIs(items, e);
    CallIs(items, f);
    CallsMeet(Batched(items), items, e, f);
  }

  lemma ApartIsSafe(items: seq<Item>)
    requires CellsApart(items)
    ensures WellSynchronised(Batched(items))
  {
    var P := Batched(items);
    forall e, f | IsCall(P, e) && IsCall(P, f) && CallAt(P, e).Rma?
      ensures PairSafe(P, e, f)
    {
      if e.pos < f.pos {
        PutsMeet(items, e, f);
      }
    }
  }

  /** Thread 0 alone issues at `i` and comes to `j`. */
  lemma IssueThenReach(P: Program, i: nat, j: nat) returns (tr: seq<Label>, s: State)
    requires |P.threads| > 0 && i < j < |P.threads[0].code| && P.threads[0].code[i].Rma?
    requires forall p :: 0 <= p < j ==> IsFree(P.threads[0].code[p])
    ensures LeadsTo(P, true, tr, s) && s.ctl.pc[0] == j && IsOpen(P, s, Ev(0, i), true)
  {
    tr, s := Start(P, true);
    tr, s := Solo(P, true, tr, s, 0, i + 1);
    tr, s := Solo(P, true, tr, s, 0, j);
  }

  lemma SameBatchRaces(items: seq<Item>, i: nat, j: nat)
    requires i < j < |items| && items[i].PutTo? && items[j].PutTo? && items[i].cell == items[j].cell && Batch(items, i) == Batch(items, j)
    ensures !RaceFree(Batched(items), false)
  {
    var P := Batched(items);
    assert OnlySpins(P);
    CallIs(items, Ev(0, i));
    CallIs(items, Ev(0, j));
    PutsMeet(items, Ev(0, i), Ev(0, j));
    var tr, s := IssueThenReach(P, i, j);
    Meets(P, tr, s, Ev(0, i), Ev(0, j), true);
  }

  /** MAIN RESULT. SHMEM/sync/011 for any puts: fenced puts to one PE race exactly when two puts of one
      batch go to the same cell. */
  lemma {:induction false} FencedPutsExactly(items: seq<Item>)
    ensures RaceFree(Batched(items), false) <==> CellsApart(items)
  {
    if CellsApart(items) {
      ApartIsSafe(items);
      OrderedIsRaceFree(Batched(items));
    } else {
      var i, j :| 0 <= i < j < |items| && items[i].PutTo? && items[j].PutTo? && items[i].cell == items[j].cell
        && Batch(items, i) == Batch(items, j);
      SameBatchRaces(items, i, j);
    }
  }
}
