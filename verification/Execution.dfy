/**
 The machine as an object whose fields the calls of the programs change in place: counters of the
 threads, memory cells, the list of operations in flight. Each method changes the state as the step
 machine says, so what is proved of `Exec` is true of every run of the object.
 */
module Execution {
  import opened Machine

  class Cluster {
    const P: Program
    const imm: bool

    var ctl: Ctl
    var regs: seq<int>
    var mem: Memory
    var ops: seq<Op>
    var obs: seq<Obs>

    ghost function Value(): State
      reads this
    {
      State(ctl, regs, mem, ops, obs)
    }

    ghost predicate Valid()
      reads this
    {
      Shape(P, Value())
    }

    constructor (P: Program, imm: bool)
      ensures this.P == P && this.imm == imm && Valid() && Value() == Init(P)
    {
      this.P, this.imm := P, imm;
      var s := Init(P);
      ctl, regs, mem, ops, obs := s.ctl, s.regs, s.mem, s.ops, s.obs;
    }

    /** A completing call: the operations it covers lose their open sides. */
    method Complete(side: Side, scope: Scope, me: nat)
      modifies this`ops
      ensures ops == CloseOps(old(ops), side, scope, me)
    {
      for k := 0 to |ops|
        invariant |ops| == |old(ops)|
        invariant forall j :: 0 <= j < k ==> ops[j] == CloseOps(old(ops), side, scope, me)[j]
        invariant forall j :: k <= j < |ops| ==> ops[j] == old(ops)[j]
      {
        if Covers(scope, me, ops[k]) {
          ops := ops[k := CloseOp(side, ops[k])];
        }
      }
    }

    /** A notification arrives: the writes it followed are complete. */
    method Arrive(n: Note)
      modifies this`ops
      ensures ops == DeliverOps(old(ops), n)
    {
      for k := 0 to |ops|
        invariant |ops| == |old(ops)|
        invariant forall j :: 0 <= j < k ==> ops[j] == DeliverOps(old(ops), n)[j]
        invariant forall j :: k <= j < |ops| ==> ops[j] == old(ops)[j]
      {
        if Precedes(ops[k], n) {
          ops := ops[k := CloseOp(Both, ops[k])];
        }
      }
    }

    /** The source of operation `k` is read. */
    method ReadSource(k: nat)
      requires Valid() && k < |ops|
      modifies this`ops
      ensures Value() == FetchOp(old(Value()), k)
    {
      ops := ops[k := ops[k].(phase := Fetched, val := At(mem, ops[k].src))];
    }

    /** The destination of operation `k` is written. */
    method WriteTarget(k: nat)
      requires Valid() && k < |ops|
      modifies this`ops, this`mem
      ensures Value() == LandOp(old(Value()), k)
    {
      var o := ops[k];
      mem := WriteTo(mem, o.kind, o.dst, o.val);
      ops := ops[k := o.(phase := Done)];
    }

    /** Thread `t` runs its next call. */
    method Call(t: nat)
      requires Valid() && Enabled(P, Value(), Go(t))
      modifies this
      ensures Valid() && Value() == Apply(P, old(Value()), Go(t))
    {
      var i := NextCall(P, ctl, t);
      var c := CtlGo(P, ctl, regs[t], t);
      match i {
        case Load(x) =>
          obs := obs + [Obs(t, ctl.pc[t], At(mem, x))];
          regs := regs[t := At(mem, x)];
        case Store(x, v) =>
          mem := mem[x := v];
        case Add(x, v) =>
          mem := mem[x := At(mem, x) + v];
        case Rma(_, _, _, _, _) =>
          ops := ops + [NewOp(P, ctl, t, i)];
        case Close(side, scope) =>
          Complete(side, scope, P.threads[t].rank);
        case _ =>
      }
      ctl := c;
    }

    /** One step of the scheduler, if it is possible. */
    method Step(l: Label) returns (ok: bool)
      requires Valid()
      modifies this
      ensures Valid() && ok == Next(P, imm, old(Value()), l).Some?
      ensures Value() == if ok then Next(P, imm, old(Value()), l).value else old(Value())
    {
      ok := Enabled(P, State(ctl, regs, mem, ops, obs), l) && !(imm && (l.Fetch? || l.Land?));
      if !ok {
        return;
      }
      var n := |ops|;
      match l {
        case Go(t) =>
          Call(t);
        case Meet(g) =>
          ctl := ctl.(pc := MeetPc(ctl.pc, g));
        case Deliver(note) =>
          ctl := ctl.(notes := ctl.notes - {note}, slots := ctl.slots[note.slot := note]);
          Arrive(note);
        case Fetch(k) =>
          ReadSource(k);
        case Land(k) =>
          WriteTarget(k);
      }
      if imm && |ops| > n {
        ReadSource(n);
        WriteTarget(n);
      }
    }
  }

  /** A schedule, from the start; `ok` says whether every step of it was possible. */
  method Run(P: Program, imm: bool, tr: seq<Label>) returns (ok: bool, c: Cluster)
    ensures c.P == P && c.imm == imm && c.Valid()
    ensures ok == Exec(P, imm, tr).Some? && (ok ==> c.Value() == Exec(P, imm, tr).value)
  {
    c := new Cluster(P, imm);
    ok := true;
    for k := 0 to |tr|
      invariant fresh(c) && c.P == P && c.imm == imm && c.Valid()
      invariant ok == Exec(P, imm, tr[..k]).Some? && (ok ==> c.Value() == Exec(P, imm, tr[..k]).value)
    {
      assert tr[..k + 1][..k] == tr[..k];
      if ok {
        ok := c.Step(tr[k]);
      }
    }
    assert tr[..|tr|] == tr;
  }
}
