/**
 The one-sided communication step machine.

 A program is a list of threads, each a list of calls in the order of the C source. A put, a get or an
 accumulate only puts an operation in flight: its source cell is read and its destination cell is
 written by two later steps, which the scheduler takes whenever it likes before the call that completes
 that side. The completion and ordering rules are those of MPI 3.1 (chapter 11), OpenSHMEM 1.5
 (sections 9.8, 9.10, 9.11) and GASPI (sections 8.2, 8.3).
 */
module Machine {

  datatype Option<+T> = None | Some(value: T)

  /** A memory cell of one rank: a window or segment element, a local buffer, or a shared variable. */
  datatype Loc = Loc(rank: nat, cell: nat)

  type Memory = map<Loc, int>

  function At(m: Memory, x: Loc): int {
    if x in m then m[x] else 0
  }

  datatype Kind = Put | Get | Acc
  datatype Phase = Issued | Fetched | Done

  /** An operation in flight. Every operation copies (or, for `Acc`, adds) its source to its destination;
      for a put the source is at the origin, for a get it is at the target. `srcOpen` and `dstOpen` say
      whether a completing call has covered that access yet. */
  datatype Op = Op(kind: Kind, tid: nat, pos: nat, id: nat, owner: nat, peer: nat, queue: nat,
                   src: Loc, dst: Loc, batch: nat, srcOpen: bool, dstOpen: bool, phase: Phase, val: int)

  datatype Side = Origin | Both

  /** Which operations of the calling process a completing call is about. */
  datatype Scope = AllOwn | OwnTo(peer: nat, queue: nat) | OwnQueue(queue: nat)

  datatype Test = Lt | Eq | Any

  datatype Instr =
    | Load(x: Loc)
    | Store(x: Loc, v: int)
    | Add(x: Loc, v: int)
    | Rma(kind: Kind, peer: nat, queue: nat, src: Loc, dst: Loc)
    | Close(side: Side, scope: Scope)
    | Order
    | Barrier(members: set<nat>)
    | Send(to: nat, tag: nat)
    | Recv(from: nat, tag: nat)
    | Acquire(lock: nat, excl: bool)
    | Release(lock: nat)
    | Notify(peer: nat, queue: nat, slot: Loc, v: int)
    | Await(slot: Loc, v: int)
    | Branch(test: Test, v: int, target: nat)

  /** A call that only some variants of a program make. */
  function When(b: bool, i: Instr): seq<Instr> {
    if b then [i] else []
  }

  datatype Thread = Thread(rank: nat, code: seq<Instr>)
  datatype Program = Program(threads: seq<Thread>, mem: Memory)

  datatype Chan = Chan(from: nat, to: nat, tag: nat)
  datatype Hold = Hold(tid: nat, lock: nat, excl: bool)
  datatype Note = Note(tid: nat, pos: nat, id: nat, owner: nat, peer: nat, queue: nat, slot: Loc, v: int)
  datatype Obs = Obs(tid: nat, pos: nat, value: int)
  datatype Ev = Ev(tid: nat, pos: nat)

  /** The control part of a state: everything but memory and operations. `log` is the order in which
      threads executed their calls. */
  datatype Ctl = Ctl(pc: seq<nat>, batch: seq<nat>, chans: map<Chan, nat>, held: set<Hold>,
                     notes: set<Note>, slots: map<Loc, Note>, clock: nat, log: seq<Ev>)
  datatype State = State(ctl: Ctl, regs: seq<int>, mem: Memory, ops: seq<Op>, obs: seq<Obs>)

  /** One step: a thread runs its next call, the members of a barrier leave it together, a
      notification arrives, or one of the two accesses of operation `k` happens. */
  datatype Label = Go(t: nat) | Meet(g: set<nat>) | Deliver(n: Note) | Fetch(k: nat) | Land(k: nat)

  predicate Shape(P: Program, s: State) {
    |s.ctl.pc| == |s.ctl.batch| == |s.regs| == |P.threads|
  }

  function Init(P: Program): (s: State)
    ensures Shape(P, s)
  {
    var n := |P.threads|;
    State(Ctl(seq(n, t => 0), seq(n, t => 0), map[], {}, {}, map[], 0, []), seq(n, t => 0), P.mem, [], [])
  }

  /** Thread `t` has a next call, and it is `Next(P, c, t)`. */
  predicate Running(P: Program, c: Ctl, t: nat) {
    t < |P.threads| && t < |c.pc| && c.pc[t] < |P.threads[t].code|
  }

  function NextCall(P: Program, c: Ctl, t: nat): Instr
    requires Running(P, c, t)
  {
    P.threads[t].code[c.pc[t]]
  }

  // ----- completion

  predicate Covers(scope: Scope, me: nat, o: Op) {
    o.owner == me &&
    match scope
    case AllOwn => true
    case OwnTo(peer, queue) => o.peer == peer && o.queue == queue
    case OwnQueue(queue) => o.queue == queue
  }

  /** The accesses that `side` is about have happened. A get is complete at its origin only once its
      destination is written. */
  predicate Complete(side: Side, o: Op) {
    if side == Origin && o.kind != Get then o.phase != Issued else o.phase == Done
  }

  function CloseOp(side: Side, o: Op): Op {
    if side == Origin && o.kind != Get then o.(srcOpen := false) else o.(srcOpen := false, dstOpen := false)
  }

  function CloseOps(ops: seq<Op>, side: Side, scope: Scope, me: nat): (r: seq<Op>)
    ensures |r| == |ops|
  {
    seq(|ops|, k requires 0 <= k < |ops| => if Covers(scope, me, ops[k]) then CloseOp(side, ops[k]) else ops[k])
  }

  /** The writes a notification must not overtake: same process, same queue, same rank, posted before. An
      OpenSHMEM signal promises the data it was sent with and no other; the programs modelled here that use
      one have no other write under way (`PingPong`), so that the rule says no more than the standard. */
  predicate Precedes(o: Op, n: Note) {
    o.owner == n.owner && o.queue == n.queue && o.peer == n.peer && o.id < n.id
  }

  function DeliverOps(ops: seq<Op>, n: Note): (r: seq<Op>)
    ensures |r| == |ops|
  {
    seq(|ops|, k requires 0 <= k < |ops| => if Precedes(ops[k], n) then CloseOp(Both, ops[k]) else ops[k])
  }

  // ----- control

  function ChanAt(c: Ctl, ch: Chan): nat {
    if ch in c.chans then c.chans[ch] else 0
  }

  predicate Holds(test: Test, r: int, v: int) {
    match test
    case Lt => r < v
    case Eq => r == v
    case Any => true
  }

  function NextPc(i: Instr, r: int, pc: nat): nat {
    if i.Branch? && Holds(i.test, r, i.v) then i.target else pc + 1
  }

  predicate CtlEnabled(P: Program, c: Ctl, t: nat)
    requires Running(P, c, t)
  {
    match NextCall(P, c, t)
    case Barrier(_) => false
    case Recv(from, tag) => ChanAt(c, Chan(from, t, tag)) > 0
    case Acquire(lock, excl) => forall h :: h in c.held && h.lock == lock && h.tid != t ==> !excl && !h.excl
    case Await(slot, v) => slot in c.slots && c.slots[slot].v == v
    case _ => true
  }

  function BatchGo(i: Instr, c: Ctl, t: nat): (r: seq<nat>)
    requires t < |c.batch|
    ensures |r| == |c.batch|
  {
    if i.Order? then c.batch[t := c.batch[t] + 1] else c.batch
  }

  function ChansGo(i: Instr, c: Ctl, t: nat): map<Chan, nat>
    requires i.Recv? ==> ChanAt(c, Chan(i.from, t, i.tag)) > 0
  {
    if i.Send? then c.chans[Chan(t, i.to, i.tag) := ChanAt(c, Chan(t, i.to, i.tag)) + 1]
    else if i.Recv? then c.chans[Chan(i.from, t, i.tag) := ChanAt(c, Chan(i.from, t, i.tag)) - 1]
    else c.chans
  }

  function HeldGo(i: Instr, c: Ctl, t: nat): set<Hold> {
    if i.Acquire? then c.held + {Hold(t, i.lock, i.excl)}
    else if i.Release? then set h | h in c.held && !(h.tid == t && h.lock == i.lock)
    else c.held
  }

  function NotesGo(i: Instr, c: Ctl, t: nat, rank: nat, pos: nat): set<Note> {
    if i.Notify? then c.notes + {Note(t, pos, c.clock, rank, i.peer, i.queue, i.slot, i.v)} else c.notes
  }

  /** What thread `t` running its next call does to the control part. */
  function CtlGo(P: Program, c: Ctl, r: int, t: nat): (c': Ctl)
    requires Running(P, c, t) && CtlEnabled(P, c, t) && |c.pc| == |c.batch|
    ensures |c'.pc| == |c.pc| == |c'.batch|
  {
    var i, pos := NextCall(P, c, t), c.pc[t];
    Ctl(c.pc[t := NextPc(i, r, pos)], BatchGo(i, c, t), ChansGo(i, c, t), HeldGo(i, c, t),
        NotesGo(i, c, t, P.threads[t].rank, pos), c.slots,
        if i.Notify? || i.Rma? then c.clock + 1 else c.clock, c.log + [Ev(t, pos)])
  }

  function MeetPc(pc: seq<nat>, g: set<nat>): (r: seq<nat>)
    ensures |r| == |pc|
  {
    seq(|pc|, t requires 0 <= t < |pc| => if t in g then pc[t] + 1 else pc[t])
  }

  // ----- memory

  function WriteTo(m: Memory, kind: Kind, dst: Loc, val: int): Memory {
    m[dst := if kind == Acc then At(m, dst) + val else val]
  }

  function NewOp(P: Program, c: Ctl, t: nat, i: Instr): Op
    requires t < |P.threads| && t < |c.pc| && t < |c.batch| && i.Rma?
  {
    Op(i.kind, t, c.pc[t], c.clock, P.threads[t].rank, i.peer, i.queue, i.src, i.dst, c.batch[t], true, true, Issued, 0)
  }

  /** `shmem_fence` puts two writes of one thread to one rank in order when a fence lies between them;
      it does not order gets. */
  predicate Ordered(a: Op, b: Op) {
    a.tid == b.tid && a.peer == b.peer && a.kind != Get && b.kind != Get && a.batch < b.batch
  }

  // ----- steps

  predicate Enabled(P: Program, s: State, l: Label)
    requires Shape(P, s)
  {
    match l
    case Go(t) =>
      && Running(P, s.ctl, t)
      && CtlEnabled(P, s.ctl, t)
      && (var i := NextCall(P, s.ctl, t);
          i.Close? ==> forall k :: 0 <= k < |s.ops| && Covers(i.scope, P.threads[t].rank, s.ops[k]) ==> Complete(i.side, s.ops[k]))
    case Meet(g) => g != {} && forall t :: t in g ==> Running(P, s.ctl, t) && NextCall(P, s.ctl, t) == Barrier(g)
    case Deliver(n) => n in s.ctl.notes && forall k :: 0 <= k < |s.ops| && Precedes(s.ops[k], n) ==> s.ops[k].phase == Done
    case Fetch(k) => k < |s.ops| && s.ops[k].phase == Issued
    case Land(k) => k < |s.ops| && s.ops[k].phase == Fetched &&
                    forall j :: 0 <= j < k && Ordered(s.ops[j], s.ops[k]) ==> s.ops[j].phase == Done
  }

  function FetchOp(s: State, k: nat): State
    requires k < |s.ops|
  {
    s.(ops := s.ops[k := s.ops[k].(phase := Fetched, val := At(s.mem, s.ops[k].src))])
  }

  function LandOp(s: State, k: nat): State
    requires k < |s.ops|
  {
    var o := s.ops[k];
    s.(ops := s.ops[k := o.(phase := Done)], mem := WriteTo(s.mem, o.kind, o.dst, o.val))
  }

  /** The value a load or an atomic update works on, and the memory after a local access. */
  function MemGo(i: Instr, m: Memory): Memory {
    if i.Store? then m[i.x := i.v] else if i.Add? then m[i.x := At(m, i.x) + i.v] else m
  }

  function OpsGo(P: Program, s: State, t: nat, i: Instr): seq<Op>
    requires t < |P.threads| && Shape(P, s)
  {
    if i.Rma? then s.ops + [NewOp(P, s.ctl, t, i)]
    else if i.Close? then CloseOps(s.ops, i.side, i.scope, P.threads[t].rank)
    else s.ops
  }

  function Apply(P: Program, s: State, l: Label): (s': State)
    requires Shape(P, s) && Enabled(P, s, l)
    ensures Shape(P, s')
  {
    match l
    case Go(t) =>
      var i := NextCall(P, s.ctl, t);
      State(CtlGo(P, s.ctl, s.regs[t], t),
            if i.Load? then s.regs[t := At(s.mem, i.x)] else s.regs,
            MemGo(i, s.mem),
            OpsGo(P, s, t, i),
            if i.Load? then s.obs + [Obs(t, s.ctl.pc[t], At(s.mem, i.x))] else s.obs)
    case Meet(g) => s.(ctl := s.ctl.(pc := MeetPc(s.ctl.pc, g)))
    case Deliver(n) => s.(ctl := s.ctl.(notes := s.ctl.notes - {n}, slots := s.ctl.slots[n.slot := n]),
                          ops := DeliverOps(s.ops, n))
    case Fetch(k) => FetchOp(s, k)
    case Land(k) => LandOp(s, k)
  }

  /** In the immediate machine an operation that `l` issued takes effect with the issue. */
  function Settled(s1: State, n: nat): (r: State)
    ensures r.ctl == s1.ctl && r.regs == s1.regs && r.obs == s1.obs
  {
    if |s1.ops| > n then LandOp(FetchOp(s1, n), n) else s1
  }

  /** The next state. With `imm` every operation takes effect the moment it is issued, so the scheduler
      has no accesses of its own to place. */
  function Next(P: Program, imm: bool, s: State, l: Label): (r: Option<State>)
    requires Shape(P, s)
    ensures r.Some? ==> Shape(P, r.value)
  {
    if (imm && (l.Fetch? || l.Land?)) || !Enabled(P, s, l) then None
    else Some(if imm then Settled(Apply(P, s, l), |s.ops|) else Apply(P, s, l))
  }

  /** The state a schedule leads to, if every step of it is possible. */
  function Exec(P: Program, imm: bool, tr: seq<Label>): (r: Option<State>)
    ensures r.Some? ==> Shape(P, r.value)
  {
    if tr == [] then Some(Init(P))
    else
      var r := Exec(P, imm, tr[..|tr| - 1]);
      if r.None? then None else Next(P, imm, r.value, tr[|tr| - 1])
  }

  // ----- races

  /** Call `i` of thread `t` touches a cell that operation `o` may still touch, and the two are neither
      both reads, nor both accumulates, nor put in order by a fence. */
  predicate Clash(t: nat, batch: nat, i: Instr, o: Op) {
    match i
    case Load(x) => o.dstOpen && o.dst == x
    case Store(x, _) => (o.dstOpen && o.dst == x) || (o.srcOpen && o.src == x)
    case Add(x, _) => (o.dstOpen && o.dst == x) || (o.srcOpen && o.src == x)
    case Rma(kind, peer, _, src, dst) =>
      || (o.dstOpen && o.dst == src)
      || (o.srcOpen && o.src == dst)
      || (o.dstOpen && o.dst == dst
          && !(o.kind == Acc && kind == Acc)
          && !(o.tid == t && o.peer == peer && o.kind != Get && kind != Get && o.batch < batch))
    case _ => false
  }

  ghost predicate RaceAt(P: Program, s: State, t: nat, k: nat)
    requires Shape(P, s)
  {
    Running(P, s.ctl, t) && k < |s.ops| && Clash(t, s.ctl.batch[t], NextCall(P, s.ctl, t), s.ops[k])
  }

  ghost predicate Race(P: Program, s: State)
    requires Shape(P, s)
  {
    exists t: nat, k: nat :: RaceAt(P, s, t, k)
  }

  /** No schedule of the program reaches a race. */
  ghost predicate RaceFree(P: Program, imm: bool) {
    forall tr :: Exec(P, imm, tr).Some? ==> !Race(P, Exec(P, imm, tr).value)
  }
}
