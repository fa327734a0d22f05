/**
 Post, start, complete, wait (MPIRMA/sync/034 and 035; MPI 3.1, section 11.5.2).

 One target posts groups of origins one after the other. Each origin runs a list of access epochs, and
 its `e`-th access epoch is served by the `e`-th group it is a member of. `MPI_Win_start` need not wait
 for the post, and `MPI_Win_complete` completes the origin side only; what holds an early operation back
 is that the target side of it may happen only in an exposure epoch for its origin.
 */
module Pscw {
  import M = Machine

  /** An RMA call of an access epoch, on a cell of the target's window. */
  datatype Call = Put(cell: nat, v: int) | Get(cell: nat)

  /** `groups[k]` is the argument of the `k`-th post; `origins[o][e]` are the calls of epoch `e` of `o`. */
  datatype Config = Config(groups: seq<set<nat>>, origins: seq<seq<seq<Call>>>)

  /** `near` and `far`: the access at the origin and the access at the target have happened. */
  datatype Op = Op(origin: nat, epoch: nat, idx: nat, call: Call, near: bool, far: bool, val: int)

  datatype State = State(posted: nat, waited: nat, started: seq<nat>, completed: seq<nat>, issued: seq<nat>,
                         ops: seq<Op>, win: map<nat, int>)

  datatype Label = Post | Wait | Start(o: nat) | Issue(o: nat) | Complete(o: nat) | Near(k: nat) | Far(k: nat)

  predicate Shape(c: Config, s: State) {
    |s.started| == |s.completed| == |s.issued| == |c.origins|
  }

  function Init(c: Config): (s: State)
    ensures Shape(c, s)
  {
    var n := |c.origins|;
    State(0, 0, seq(n, o => 0), seq(n, o => 0), seq(n, o => 0), [], map[])
  }

  function At(win: map<nat, int>, cell: nat): int {
    if cell in win then win[cell] else 0
  }

  /** How many of the first `k` groups contain `o`. */
  function Turns(groups: seq<set<nat>>, o: nat, k: nat): nat
    requires k <= |groups|
  {
    if k == 0 then 0 else Turns(groups, o, k - 1) + if o in groups[k - 1] then 1 else 0
  }

  /** Group `k` serves access epoch `e` of origin `o`. */
  predicate Serves(groups: seq<set<nat>>, k: nat, o: nat, e: nat) {
    k < |groups| && o in groups[k] && Turns(groups, o, k) == e
  }

  /** The target has posted the group that serves the epoch of `op`. */
  predicate Exposed(c: Config, s: State, op: Op) {
    s.posted <= |c.groups| && Turns(c.groups, op.origin, s.posted) > op.epoch
  }

  predicate InEpoch(s: State, o: nat) {
    o < |s.started| && o < |s.completed| && s.started[o] == s.completed[o] + 1
  }

  /** The origins of group `k` have completed the epochs it serves, and their operations have ended here. */
  predicate Served(c: Config, s: State, k: nat)
    requires Shape(c, s) && k < |c.groups|
  {
    && (forall o :: o in c.groups[k] && o < |c.origins| ==> s.completed[o] > Turns(c.groups, o, k))
    && (forall o :: o in c.groups[k] ==> o < |c.origins|)
    && (forall i :: 0 <= i < |s.ops| && s.ops[i].origin in c.groups[k] && s.ops[i].epoch == Turns(c.groups, s.ops[i].origin, k) ==> s.ops[i].far)
  }

  predicate Enabled(c: Config, s: State, l: Label)
    requires Shape(c, s)
  {
    match l
    case Post => s.posted == s.waited && s.posted < |c.groups|
    case Wait => s.posted == s.waited + 1 && s.waited < |c.groups| && Served(c, s, s.waited)
    case Start(o) => o < |c.origins| && s.started[o] == s.completed[o] && s.started[o] < |c.origins[o]|
    case Issue(o) => InEpoch(s, o) && s.completed[o] < |c.origins[o]| && s.issued[o] < |c.origins[o][s.completed[o]]|
    case Complete(o) => InEpoch(s, o) && s.completed[o] < |c.origins[o]| && s.issued[o] == |c.origins[o][s.completed[o]]| &&
                        forall i :: 0 <= i < |s.ops| && s.ops[i].origin == o && s.ops[i].epoch == s.completed[o] ==> s.ops[i].near
    case Near(k) => k < |s.ops| && !s.ops[k].near && (s.ops[k].call.Put? || s.ops[k].far)
    case Far(k) => k < |s.ops| && !s.ops[k].far && (s.ops[k].call.Get? || s.ops[k].near) && Exposed(c, s, s.ops[k])
  }

  function Apply(c: Config, s: State, l: Label): (s': State)
    requires Shape(c, s) && Enabled(c, s, l)
    ensures Shape(c, s')
  {
    match l
    case Post => s.(posted := s.posted + 1)
    case Wait => s.(waited := s.waited + 1)
    case Start(o) => s.(started := s.started[o := s.started[o] + 1], issued := s.issued[o := 0])
    case Issue(o) =>
      s.(ops := s.ops + [Op(o, s.completed[o], s.issued[o], c.origins[o][s.completed[o]][s.issued[o]], false, false, 0)],
         issued := s.issued[o := s.issued[o] + 1])
    case Complete(o) => s.(completed := s.completed[o := s.completed[o] + 1])
    case Near(k) => s.(ops := s.ops[k := s.ops[k].(near := true)])
    case Far(k) =>
      var op := s.ops[k];
      match op.call
      case Put(cell, v) => s.(ops := s.ops[k := op.(far := true)], win := s.win[cell := v])
      case Get(cell) => s.(ops := s.ops[k := op.(far := true, val := At(s.win, cell))])
  }

  function Exec(c: Config, tr: seq<Label>): (r: M.Option<State>)
    ensures r.Some? ==> Shape(c, r.value)
  {
    if tr == [] then M.Some(Init(c))
    else
      var r := Exec(c, tr[..|tr| - 1]);
      if r.Some? && Enabled(c, r.value, tr[|tr| - 1]) then M.Some(Apply(c, r.value, tr[|tr| - 1])) else M.None
  }

  // ----- turns

  lemma {:induction false} TurnsMonotone(groups: seq<set<nat>>, o: nat, a: nat, b: nat)
    requires a <= b <= |groups|
    ensures Turns(groups, o, a) <= Turns(groups, o, b)
  {
    if a < b {
      TurnsMonotone(groups, o, a, b - 1);
    }
  }

  /** An exposed operation belongs to a group that has been posted, and to no other. */
  lemma ServedWhenPosted(c: Config, s: State, op: Op, k: nat)
    requires Exposed(c, s, op) && Serves(c.groups, k, op.origin, op.epoch)
    ensures k < s.posted
  {
    if s.posted <= k {
      TurnsMonotone(c.groups, op.origin, s.posted, k);
    }
  }

  lemma {:induction false} ServingGroup(groups: seq<set<nat>>, o: nat, e: nat, p: nat) returns (k: nat)
    requires p <= |groups| && e < Turns(groups, o, p)
    ensures k < p && Serves(groups, k, o, e)
  {
    if e < Turns(groups, o, p - 1) {
      k := ServingGroup(groups, o, e, p - 1);
    } else {
      k := p - 1;
    }
  }

  // ----- what every step keeps

  /** Call `idx` of epoch `e` of origin `o` has been issued. */
  predicate HasIssued(s: State, o: nat, e: nat, idx: nat, size: nat)
    requires o < |s.completed| == |s.started| == |s.issued|
  {
    (e < s.completed[o] && idx < size) || (e == s.completed[o] && InEpoch(s, o) && idx < s.issued[o])
  }

  ghost predicate Counters(c: Config, s: State)
    requires Shape(c, s)
  {
    && s.posted <= |c.groups| && (s.posted == s.waited || s.posted == s.waited + 1)
    && forall o :: 0 <= o < |c.origins| ==>
         && (s.started[o] == s.completed[o] || s.started[o] == s.completed[o] + 1) && s.started[o] <= |c.origins[o]|
         && (InEpoch(s, o) ==> s.issued[o] <= |c.origins[o][s.completed[o]]|)
  }

  predicate OpOk(c: Config, s: State, op: Op)
    requires Shape(c, s)
  {
    && op.origin < |c.origins| && op.epoch < |c.origins[op.origin]| && op.idx < |c.origins[op.origin][op.epoch]|
    && op.call == c.origins[op.origin][op.epoch][op.idx]
    && HasIssued(s, op.origin, op.epoch, op.idx, |c.origins[op.origin][op.epoch]|)
    && (op.far ==> Exposed(c, s, op) && (op.call.Put? ==> op.near)) && (op.near && op.call.Get? ==> op.far)
    && (op.epoch < s.completed[op.origin] ==> op.near)
  }

  predicate OpAt(s: State, i: nat, o: nat, e: nat, idx: nat) {
    i < |s.ops| && s.ops[i].origin == o && s.ops[i].epoch == e && s.ops[i].idx == idx
  }

  ghost predicate Present(s: State, o: nat, e: nat, idx: nat) {
    exists i: nat :: OpAt(s, i, o, e, idx)
  }

  ghost predicate AllPresent(c: Config, s: State)
    requires Shape(c, s)
  {
    forall o: nat, e: nat, idx: nat :: o < |c.origins| && e < |c.origins[o]| && HasIssued(s, o, e, idx, |c.origins[o][e]|) ==> Present(s, o, e, idx)
  }

  predicate SameCall(a: Op, b: Op) {
    a.origin == b.origin && a.epoch == b.epoch && a.idx == b.idx
  }

  ghost predicate Inv(c: Config, s: State)
    requires Shape(c, s)
  {
    && Counters(c, s) && (forall i :: 0 <= i < |s.ops| ==> OpOk(c, s, s.ops[i])) && AllPresent(c, s)
    && (forall i, j :: 0 <= i < j < |s.ops| ==> !SameCall(s.ops[i], s.ops[j]))
    && (forall k :: 0 <= k < s.waited ==> Served(c, s, k))
  }

  lemma CountersStep(c: Config, s: State, l: Label)
    requires Shape(c, s) && Counters(c, s) && Enabled(c, s, l)
    ensures Counters(c, Apply(c, s, l))
  {
  }

  lemma OpStep(c: Config, s: State, l: Label, i: nat)
    requires Shape(c, s) && Counters(c, s) && Enabled(c, s, l) && i < |Apply(c, s, l).ops|
    requires i < |s.ops| ==> OpOk(c, s, s.ops[i])
    ensures OpOk(c, Apply(c, s, l), Apply(c, s, l).ops[i])
  {
    if l.Post? && i < |s.ops| {
      TurnsMonotone(c.groups, s.ops[i].origin, s.posted, s.posted + 1);
    }
  }

  lemma PresentStep(c: Config, s: State, l: Label)
    requires Shape(c, s) && Counters(c, s) && AllPresent(c, s) && Enabled(c, s, l)
    ensures AllPresent(c, Apply(c, s, l))
  {
    var s' := Apply(c, s, l);
    forall o: nat, e: nat, idx: nat | o < |c.origins| && e < |c.origins[o]| && HasIssued(s', o, e, idx, |c.origins[o][e]|)
      ensures Present(s', o, e, idx)
    {
      if l == Issue(o) && e == s.completed[o] && idx == s.issued[o] {
        assert OpAt(s', |s.ops|, o, e, idx);
      } else {
        assert HasIssued(s, o, e, idx, |c.origins[o][e]|);
        var i: nat :| OpAt(s, i, o, e, idx);
        assert OpAt(s', i, o, e, idx);
      }
    }
  }

  lemma ServedStep(c: Config, s: State, l: Label, k: nat)
    requires Shape(c, s) && Counters(c, s) && Enabled(c, s, l) && k < |c.groups|
    requires Served(c, s, k) || (l == Wait && k == s.waited)
    ensures Served(c, Apply(c, s, l), k)
  {
    var s' := Apply(c, s, l);
    forall i | 0 <= i < |s'.ops| && s'.ops[i].origin in c.groups[k] && s'.ops[i].epoch == Turns(c.groups, s'.ops[i].origin, k)
      ensures s'.ops[i].far
    {
      assert l.Issue? ==> l.o in c.groups[k] ==> s.completed[l.o] > Turns(c.groups, l.o, k);
    }
  }

  lemma DistinctStep(c: Config, s: State, l: Label)
    requires Shape(c, s) && Enabled(c, s, l) && (forall i :: 0 <= i < |s.ops| ==> OpOk(c, s, s.ops[i]))
    requires forall i, j :: 0 <= i < j < |s.ops| ==> !SameCall(s.ops[i], s.ops[j])
    ensures var s' := Apply(c, s, l); forall i, j :: 0 <= i < j < |s'.ops| ==> !SameCall(s'.ops[i], s'.ops[j])
  {
    var s' := Apply(c, s, l);
    forall i, j | 0 <= i < j < |s'.ops|
      ensures !SameCall(s'.ops[i], s'.ops[j])
    {
      assert j < |s.ops| ==> !SameCall(s.ops[i], s.ops[j]);
      assert i < |s.ops| && OpOk(c, s, s.ops[i]);
    }
  }

  lemma Step(c: Config, s: State, l: Label)
    requires Shape(c, s) && Inv(c, s) && Enabled(c, s, l)
    ensures Inv(c, Apply(c, s, l))
  {
    var s' := Apply(c, s, l);
    CountersStep(c, s, l);
    PresentStep(c, s, l);
    forall i | 0 <= i < |s'.ops|
      ensures OpOk(c, s', s'.ops[i])
    {
      OpStep(c, s, l, i);
    }
    DistinctStep(c, s, l);
    forall k | 0 <= k < s'.waited
      ensures Served(c, s', k)
    {
      ServedStep(c, s, l, k);
    }
  }

  lemma {:induction false} EveryRun(c: Config, tr: seq<Label>)
    requires Exec(c, tr).Some?
    ensures Inv(c, Exec(c, tr).value)
  {
    if tr != [] {
      EveryRun(c, tr[..|tr| - 1]);
      Step(c, Exec(c, tr[..|tr| - 1]).value, tr[|tr| - 1]);
    }
  }

  // ----- groups are serialised

  ghost predicate Finished(s: State, o: nat, e: nat, idx: nat) {
    exists i: nat :: OpAt(s, i, o, e, idx) && s.ops[i].near && s.ops[i].far
  }

  /** MAIN RESULT. For any sequence of groups and any access epochs: before an operation served by a later
      group may touch the target, every call of every epoch served by an earlier group has been issued and
      has finished at both sides. */
  lemma {:induction false} GroupsSerialised(c: Config, tr: seq<Label>, b: nat, k: nat, later: nat, o: nat, idx: nat)
    requires Exec(c, tr).Some? && b < |Exec(c, tr).value.ops| && Exposed(c, Exec(c, tr).value, Exec(c, tr).value.ops[b])
    requires Serves(c.groups, later, Exec(c, tr).value.ops[b].origin, Exec(c, tr).value.ops[b].epoch) && k < later && o in c.groups[k]
    ensures var s, e := Exec(c, tr).value, Turns(c.groups, o, k);
            && o < |c.origins| && e < s.completed[o] <= |c.origins[o]|
            && (idx < |c.origins[o][e]| ==> Finished(s, o, e, idx))
  {
    var s := Exec(c, tr).value;
    EveryRun(c, tr);
    ServedWhenPosted(c, s, s.ops[b], later);
    assert Served(c, s, k);
    var e := Turns(c.groups, o, k);
    assert s.completed[o] > e;
    if idx < |c.origins[o][e]| {
      assert HasIssued(s, o, e, idx, |c.origins[o][e]|);
      var i: nat :| OpAt(s, i, o, e, idx);
      assert OpOk(c, s, s.ops[i]) && s.ops[i].far;
    }
  }

  /** Two operations that may both touch the target now. */
  predicate InFlightTogether(c: Config, s: State, a: nat, b: nat) {
    && a < |s.ops| && b < |s.ops| && a != b && !s.ops[a].far && !s.ops[b].far
    && Exposed(c, s, s.ops[a]) && Exposed(c, s, s.ops[b])
  }

  predicate Conflict(a: Call, b: Call) {
    a.cell == b.cell && (a.Put? || b.Put?)
  }

  lemma NotEarlier(c: Config, s: State, a: nat, b: nat, k: nat, j: nat)
    requires Shape(c, s) && Inv(c, s) && InFlightTogether(c, s, a, b)
    requires Serves(c.groups, k, s.ops[a].origin, s.ops[a].epoch) && Serves(c.groups, j, s.ops[b].origin, s.ops[b].epoch)
    ensures j <= k
  {
    ServedWhenPosted(c, s, s.ops[b], j);
    assert k < s.waited ==> Served(c, s, k);
  }

  /** Operations that may touch the target at the same time are served by one group. */
  lemma {:induction false} TogetherMeansSameGroup(c: Config, tr: seq<Label>, a: nat, b: nat) returns (k: nat)
    requires Exec(c, tr).Some? && InFlightTogether(c, Exec(c, tr).value, a, b)
    ensures var s := Exec(c, tr).value;
            Serves(c.groups, k, s.ops[a].origin, s.ops[a].epoch) && Serves(c.groups, k, s.ops[b].origin, s.ops[b].epoch)
  {
    var s := Exec(c, tr).value;
    EveryRun(c, tr);
    k := ServingGroup(c.groups, s.ops[a].origin, s.ops[a].epoch, s.posted);
    var j := ServingGroup(c.groups, s.ops[b].origin, s.ops[b].epoch, s.posted);
    NotEarlier(c, s, a, b, k, j);
    NotEarlier(c, s, b, a, j, k);
  }

  // ----- and one group is enough

  predicate Look(tr: seq<Label>) {
    true
  }

  /** Schedule `tr` leads to state `s`. The definition is used only where `Look(tr)` is mentioned. */
  ghost predicate LeadsTo(c: Config, tr: seq<Label>, s: State) {
    Shape(c, s) && forall u {:trigger Look(u)} :: u == tr ==> Exec(c, u) == M.Some(s)
  }

  lemma Then(c: Config, tr: seq<Label>, s: State, l: Label) returns (tr': seq<Label>, s': State)
    requires LeadsTo(c, tr, s) && Enabled(c, s, l)
    ensures s' == Apply(c, s, l) && LeadsTo(c, tr', s')
  {
    tr', s' := tr + [l], Apply(c, s, l);
    assert Look(tr) && tr'[..|tr|] == tr;
    assert Exec(c, tr') == M.Some(s');
  }

  lemma Begin(c: Config) returns (tr: seq<Label>, s: State)
    ensures s == Init(c) && LeadsTo(c, tr, s)
  {
    tr, s := [], Init(c);
    assert Exec(c, tr) == M.Some(s);
  }

  /** Every member of a group is an origin, and has an access epoch for every post that names it. */
  ghost predicate Matched(c: Config) {
    && (forall k, o :: 0 <= k < |c.groups| && o in c.groups[k] ==> o < |c.origins|)
    && (forall o :: 0 <= o < |c.origins| ==> Turns(c.groups, o, |c.groups|) <= |c.origins[o]|)
  }

  predicate AllOver(s: State) {
    forall i :: 0 <= i < |s.ops| ==> s.ops[i].near && s.ops[i].far
  }

  /** Nothing is in flight, and origin `o` is between two epochs, having run `e` of them. */
  predicate Resting(s: State, o: nat, e: nat) {
    o < |s.started| && o < |s.completed| && s.started[o] == s.completed[o] == e
  }

  /** The next call of `o` is issued, and accesses both sides at once. */
  lemma CallAtOnce(c: Config, tr: seq<Label>, s: State, o: nat) returns (tr': seq<Label>, s': State)
    requires LeadsTo(c, tr, s) && Enabled(c, s, Issue(o)) && AllOver(s)
    requires s.posted <= |c.groups| && Turns(c.groups, o, s.posted) > s.completed[o]
    ensures LeadsTo(c, tr', s') && AllOver(s') && s'.issued == s.issued[o := s.issued[o] + 1]
    ensures s'.posted == s.posted && s'.waited == s.waited && s'.started == s.started && s'.completed == s.completed
  {
    var n := |s.ops|;
    tr', s' := Then(c, tr, s, Issue(o));
    if s'.ops[n].call.Put? {
      tr', s' := Then(c, tr', s', Near(n));
      tr', s' := Then(c, tr', s', Far(n));
    } else {
      tr', s' := Then(c, tr', s', Far(n));
      tr', s' := Then(c, tr', s', Near(n));
    }
  }

  lemma {:induction false} CallsAtOnce(c: Config, tr: seq<Label>, s: State, o: nat, n: nat) returns (tr': seq<Label>, s': State)
    requires LeadsTo(c, tr, s) && AllOver(s) && InEpoch(s, o) && s.issued[o] == 0
    requires s.completed[o] < |c.origins[o]| && n <= |c.origins[o][s.completed[o]]|
    requires s.posted <= |c.groups| && Turns(c.groups, o, s.posted) > s.completed[o]
    ensures LeadsTo(c, tr', s') && AllOver(s') && s'.issued == s.issued[o := n]
    ensures s'.posted == s.posted && s'.waited == s.waited && s'.started == s.started && s'.completed == s.completed
  {
    if n == 0 {
      tr', s' := tr, s;
    } else {
      var tr1, s1 := CallsAtOnce(c, tr, s, o, n - 1);
      tr', s' := CallAtOnce(c, tr1, s1, o);
    }
  }

  /** Origin `o` runs the whole epoch that the posted group serves. */
  lemma WholeEpoch(c: Config, tr: seq<Label>, s: State, o: nat) returns (tr': seq<Label>, s': State)
    requires LeadsTo(c, tr, s) && AllOver(s) && o < |c.origins| && s.started[o] == s.completed[o] < |c.origins[o]|
    requires s.posted <= |c.groups| && Turns(c.groups, o, s.posted) > s.completed[o]
    ensures LeadsTo(c, tr', s') && AllOver(s') && s'.posted == s.posted && s'.waited == s.waited
    ensures s'.started == s.started[o := s.started[o] + 1] && s'.completed == s.completed[o := s.completed[o] + 1]
  {
    tr', s' := Then(c, tr, s, Start(o));
    tr', s' := CallsAtOnce(c, tr', s', o, |c.origins[o][s.completed[o]]|);
    tr', s' := Then(c, tr', s', Complete(o));
  }

  /** Group `k` is posted, and the origins below `m` have run the epochs it serves. */
  ghost predicate ServedBelow(c: Config, s: State, k: nat, m: nat) {
    && AllOver(s) && k < |c.groups| && s.posted == k + 1 && s.waited == k
    && (forall o: nat :: o < m && o < |c.origins| ==> HadTurn(c, s, o, k))
    && (forall o: nat :: m <= o < |c.origins| ==> RestsAfter(c, s, o, k))
  }

  /** Origin `o` has run its epochs of the first `k` groups. */
  predicate RestsAfter(c: Config, s: State, o: nat, k: nat)
    requires k <= |c.groups|
  {
    Resting(s, o, Turns(c.groups, o, k))
  }

  /** Groups below `k` have been served, and no other has been posted. */
  ghost predicate Idle(c: Config, s: State, k: nat) {
    && AllOver(s) && k <= |c.groups| && s.posted == s.waited == k
    && forall o: nat :: o < |c.origins| ==> RestsAfter(c, s, o, k)
  }

  /** Group `k` is served as far as origin `o` is concerned. */
  predicate HadTurn(c: Config, s: State, o: nat, k: nat)
    requires k < |c.groups|
  {
    RestsAfter(c, s, o, k + 1)
  }

  lemma EnoughEpochs(c: Config, o: nat, k: nat)
    requires Matched(c) && o < |c.origins| && k <= |c.groups|
    ensures Turns(c.groups, o, k) <= |c.origins[o]|
  {
    TurnsMonotone(c.groups, o, k, |c.groups|);
  }

  lemma OthersRest(c: Config, s: State, s': State, k: nat, o: nat)
    requires ServedBelow(c, s, k, o) && o < |c.origins| && RestsAfter(c, s, o, k) && o in c.groups[k]
    requires |s.started| == |s.completed| == |c.origins|
    requires AllOver(s') && s'.posted == s.posted && s'.waited == s.waited
    requires s'.started == s.started[o := s.started[o] + 1] && s'.completed == s.completed[o := s.completed[o] + 1]
    ensures ServedBelow(c, s', k, o + 1)
  {
    forall p: nat | p < o
      ensures HadTurn(c, s', p, k)
    {
      assert HadTurn(c, s, p, k);
    }
    forall p: nat | o < p < |c.origins|
      ensures RestsAfter(c, s', p, k)
    {
      assert RestsAfter(c, s, p, k);
    }
  }

  lemma {:induction false} ServeBelow(c: Config, tr: seq<Label>, s: State, k: nat, m: nat) returns (tr': seq<Label>, s': State)
    requires Matched(c) && LeadsTo(c, tr, s) && ServedBelow(c, s, k, 0) && m <= |c.origins|
    ensures LeadsTo(c, tr', s') && ServedBelow(c, s', k, m)
  {
    if m == 0 {
      tr', s' := tr, s;
    } else {
      var o := m - 1;
      tr', s' := ServeBelow(c, tr, s, k, o);
      assert RestsAfter(c, s', o, k);
      if o in c.groups[k] {
        var before := s';
        EnoughEpochs(c, o, k + 1);
        tr', s' := WholeEpoch(c, tr', s', o);
        OthersRest(c, before, s', k, o);
      }
    }
  }

  lemma WholeGroup(c: Config, tr: seq<Label>, s: State, k: nat) returns (tr': seq<Label>, s': State)
    requires Matched(c) && LeadsTo(c, tr, s) && Idle(c, s, k) && k < |c.groups|
    ensures LeadsTo(c, tr', s') && Idle(c, s', k + 1)
  {
    var s0 := s;
    tr', s' := Then(c, tr, s, Post);
    forall o: nat | o < |c.origins|
      ensures RestsAfter(c, s', o, k)
    {
      assert RestsAfter(c, s0, o, k);
    }
    tr', s' := ServeBelow(c, tr', s', k, |c.origins|);
    var s1 := s';
    forall o | o in c.groups[k]
      ensures o < |c.origins| && s1.completed[o] > Turns(c.groups, o, k)
    {
      assert HadTurn(c, s1, o, k);
    }
    tr', s' := Then(c, tr', s', Wait);
    var next := k + 1;
    forall o: nat | o < |c.origins|
      ensures RestsAfter(c, s', o, next)
    {
      assert HadTurn(c, s1, o, k);
    }
  }

  lemma {:induction false} ReachIdle(c: Config, k: nat) returns (tr: seq<Label>, s: State)
    requires Matched(c) && k <= |c.groups|
    ensures LeadsTo(c, tr, s) && Idle(c, s, k)
  {
    if k == 0 {
      tr, s := Begin(c);
      assert forall o: nat :: o < |c.origins| ==> RestsAfter(c, s, o, 0);
    } else {
      tr, s := ReachIdle(c, k - 1);
      tr, s := WholeGroup(c, tr, s, k - 1);
    }
  }

  /** Call `idx` of epoch `e` of `o` has been issued and has not reached the target. */
  ghost predicate Pending(s: State, o: nat, e: nat, idx: nat) {
    exists a: nat :: OpAt(s, a, o, e, idx) && !s.ops[a].far
  }

  lemma StillPending(c: Config, s: State, l: Label, o: nat, e: nat, idx: nat)
    requires Shape(c, s) && Enabled(c, s, l) && !l.Far? && Pending(s, o, e, idx)
    ensures Pending(Apply(c, s, l), o, e, idx)
  {
    var a: nat :| OpAt(s, a, o, e, idx) && !s.ops[a].far;
    assert OpAt(Apply(c, s, l), a, o, e, idx);
  }

  /** `o` starts its next epoch and issues its first `n` calls. */
  lemma {:induction false} Opened(c: Config, tr: seq<Label>, s: State, o: nat, n: nat) returns (tr': seq<Label>, s': State)
    requires LeadsTo(c, tr, s) && o < |c.origins| && s.started[o] == s.completed[o] < |c.origins[o]|
    requires n <= |c.origins[o][s.completed[o]]|
    ensures LeadsTo(c, tr', s') && s'.posted == s.posted && s'.completed == s.completed
    ensures s'.started == s.started[o := s.started[o] + 1] && s'.issued[o] == n
    ensures forall idx: nat :: idx < n ==> Pending(s', o, s.completed[o], idx)
    ensures forall p: nat, e: nat, idx: nat :: Pending(s, p, e, idx) ==> Pending(s', p, e, idx)
  {
    if n == 0 {
      tr', s' := Then(c, tr, s, Start(o));
      forall p: nat, e: nat, idx: nat | Pending(s, p, e, idx)
        ensures Pending(s', p, e, idx)
      {
        StillPending(c, s, Start(o), p, e, idx);
      }
    } else {
      var tr1, s1 := Opened(c, tr, s, o, n - 1);
      tr', s' := Then(c, tr1, s1, Issue(o));
      assert OpAt(s', |s1.ops|, o, s.completed[o], n - 1);
      forall p: nat, e: nat, idx: nat | Pending(s1, p, e, idx)
        ensures Pending(s', p, e, idx)
      {
        StillPending(c, s1, Issue(o), p, e, idx);
      }
    }
  }

  /** A call of the configuration: call `idx` of epoch `epoch` of `origin`. */
  datatype Place = Place(origin: nat, epoch: nat, idx: nat)

  predicate IsCall(c: Config, x: Place) {
    x.origin < |c.origins| && x.epoch < |c.origins[x.origin]| && x.idx < |c.origins[x.origin][x.epoch]|
  }

  ghost predicate OneGroupServes(c: Config, x: Place, y: Place) {
    exists k :: Serves(c.groups, k, x.origin, x.epoch) && Serves(c.groups, k, y.origin, y.epoch)
  }

  /** Some run has calls `x` and `y` in flight at the target together. */
  ghost predicate CanMeet(c: Config, x: Place, y: Place) {
    exists tr, a: nat, b: nat :: Exec(c, tr).Some? && Meeting(c, Exec(c, tr).value, a, b, x, y)
  }

  predicate Meeting(c: Config, s: State, a: nat, b: nat, x: Place, y: Place) {
    OpAt(s, a, x.origin, x.epoch, x.idx) && OpAt(s, b, y.origin, y.epoch, y.idx) && InFlightTogether(c, s, a, b)
  }

  /** Both calls are issued while the group that serves them is posted. */
  lemma IssueBoth(c: Config, k: nat, x: Place, y: Place) returns (tr: seq<Label>, s: State)
    requires Matched(c) && IsCall(c, x) && IsCall(c, y)
    requires Serves(c.groups, k, x.origin, x.epoch) && Serves(c.groups, k, y.origin, y.epoch)
    ensures LeadsTo(c, tr, s) && s.posted == k + 1
    ensures Pending(s, x.origin, x.epoch, x.idx) && Pending(s, y.origin, y.epoch, y.idx)
  {
    tr, s := ReachIdle(c, k);
    assert RestsAfter(c, s, x.origin, k) && RestsAfter(c, s, y.origin, k);
    tr, s := Then(c, tr, s, Post);
    if x.origin == y.origin {
      tr, s := Opened(c, tr, s, x.origin, if x.idx < y.idx then y.idx + 1 else x.idx + 1);
    } else {
      tr, s := Opened(c, tr, s, x.origin, x.idx + 1);
      tr, s := Opened(c, tr, s, y.origin, y.idx + 1);
    }
  }

  lemma OneGroupMeets(c: Config, k: nat, x: Place, y: Place)
    requires Matched(c) && IsCall(c, x) && IsCall(c, y) && x != y
    requires Serves(c.groups, k, x.origin, x.epoch) && Serves(c.groups, k, y.origin, y.epoch)
    ensures CanMeet(c, x, y)
  {
    var tr, s := IssueBoth(c, k, x, y);
    var a: nat :| OpAt(s, a, x.origin, x.epoch, x.idx) && !s.ops[a].far;
    var b: nat :| OpAt(s, b, y.origin, y.epoch, y.idx) && !s.ops[b].far;
    assert Look(tr) && Meeting(c, s, a, b, x, y);
  }

  /** MAIN RESULT. Two different calls can be in flight at the target together if and only if one group
      serves the epochs of both. */
  lemma {:induction false} MeetExactly(c: Config, x: Place, y: Place)
    requires Matched(c) && IsCall(c, x) && IsCall(c, y) && x != y
    ensures CanMeet(c, x, y) <==> OneGroupServes(c, x, y)
  {
    if CanMeet(c, x, y) {
      var tr, a: nat, b: nat :| Exec(c, tr).Some? && Meeting(c, Exec(c, tr).value, a, b, x, y);
      var k := TogetherMeansSameGroup(c, tr, a, b);
    } else if OneGroupServes(c, x, y) {
      var k :| Serves(c.groups, k, x.origin, x.epoch) && Serves(c.groups, k, y.origin, y.epoch);
      OneGroupMeets(c, k, x, y);
    }
  }

  /** Some run has two conflicting operations in flight at the target together. */
  ghost predicate HasRace(c: Config) {
    exists tr, a: nat, b: nat :: Exec(c, tr).Some? && var s := Exec(c, tr).value;
      InFlightTogether(c, s, a, b) && Conflict(s.ops[a].call, s.ops[b].call)
  }

  function CallOf(c: Config, x: Place): Call
    requires IsCall(c, x)
  {
    c.origins[x.origin][x.epoch][x.idx]
  }

  ghost predicate ConflictInGroup(c: Config) {
    exists x, y :: IsCall(c, x) && IsCall(c, y) && x != y && Conflict(CallOf(c, x), CallOf(c, y)) && OneGroupServes(c, x, y)
  }

  function PlaceOf(op: Op): Place {
    Place(op.origin, op.epoch, op.idx)
  }

  lemma FromPlace(c: Config, s: State, a: nat)
    requires Shape(c, s) && Inv(c, s) && a < |s.ops|
    ensures IsCall(c, PlaceOf(s.ops[a])) && CallOf(c, PlaceOf(s.ops[a])) == s.ops[a].call
  {
    assert OpOk(c, s, s.ops[a]);
  }

  lemma RaceMeansGroup(c: Config, tr: seq<Label>, a: nat, b: nat)
    requires Exec(c, tr).Some? && InFlightTogether(c, Exec(c, tr).value, a, b)
    requires Conflict(Exec(c, tr).value.ops[a].call, Exec(c, tr).value.ops[b].call)
    ensures ConflictInGroup(c)
  {
    var s := Exec(c, tr).value;
    EveryRun(c, tr);
    FromPlace(c, s, a);
    FromPlace(c, s, b);
    assert !SameCall(s.ops[if a < b then a else b], s.ops[if a < b then b else a]);
    var k := TogetherMeansSameGroup(c, tr, a, b);
    assert OneGroupServes(c, PlaceOf(s.ops[a]), PlaceOf(s.ops[b]));
  }

  lemma GroupMeansRace(c: Config, x: Place, y: Place)
    requires Matched(c) && IsCall(c, x) && IsCall(c, y) && x != y && Conflict(CallOf(c, x), CallOf(c, y)) && OneGroupServes(c, x, y)
    ensures HasRace(c)
  {
    MeetExactly(c, x, y);
    var tr, a: nat, b: nat :| Exec(c, tr).Some? && Meeting(c, Exec(c, tr).value, a, b, x, y);
    EveryRun(c, tr);
    FromPlace(c, Exec(c, tr).value, a);
    FromPlace(c, Exec(c, tr).value, b);
  }

  /** MAIN RESULT. Hence a program has a race if and only if one group serves two conflicting calls. */
  lemma {:induction false} RaceExactly(c: Config)
    requires Matched(c)
    ensures HasRace(c) <==> ConflictInGroup(c)
  {
    if HasRace(c) {
      var tr, a: nat, b: nat :| Exec(c, tr).Some? && var s := Exec(c, tr).value;
        InFlightTogether(c, s, a, b) && Conflict(s.ops[a].call, s.ops[b].call);
      RaceMeansGroup(c, tr, a, b);
    }
    if ConflictInGroup(c) {
      var x, y :| IsCall(c, x) && IsCall(c, y) && x != y && Conflict(CallOf(c, x), CallOf(c, y)) && OneGroupServes(c, x, y);
      GroupMeansRace(c, x, y);
    }
  }

  // ----- complete before the post

  /** Some run completes epoch `e` of `o` while group `k` has not been posted, and then none of the operations of
      the epoch has reached the target. */
  ghost predicate CompletesEarly(c: Config, k: nat, o: nat, e: nat) {
    exists tr :: Exec(c, tr).Some? && EarlyIn(c, Exec(c, tr).value, k, o, e)
  }

  predicate EarlyIn(c: Config, s: State, k: nat, o: nat, e: nat) {
    && s.posted <= k && o < |s.completed| && s.completed[o] > e
    && forall i :: 0 <= i < |s.ops| && s.ops[i].origin == o && s.ops[i].epoch == e ==> s.ops[i].near && !s.ops[i].far
  }

  predicate OnlyPuts(calls: seq<Call>) {
    forall i :: 0 <= i < |calls| ==> calls[i].Put?
  }

  /** A get can only be completed after the post, which its target access waits for. */
  lemma GetWaitsForPost(c: Config, tr: seq<Label>, k: nat, o: nat, e: nat, idx: nat)
    requires Matched(c) && Serves(c.groups, k, o, e) && o < |c.origins| && e < |c.origins[o]| && idx < |c.origins[o][e]|
    requires Exec(c, tr).Some? && EarlyIn(c, Exec(c, tr).value, k, o, e)
    ensures c.origins[o][e][idx].Put?
  {
    var s := Exec(c, tr).value;
    EveryRun(c, tr);
    assert HasIssued(s, o, e, idx, |c.origins[o][e]|);
    var i: nat :| OpAt(s, i, o, e, idx);
    assert OpOk(c, s, s.ops[i]);
  }

  /** Every origin side is done, and no operation of epoch `e` of `o` has reached the target. */
  predicate NearDone(s: State, o: nat, e: nat) {
    forall i :: 0 <= i < |s.ops| ==> s.ops[i].near && (s.ops[i].origin == o && s.ops[i].epoch == e ==> !s.ops[i].far)
  }

  lemma {:induction false} PutsIssued(c: Config, tr: seq<Label>, s: State, o: nat, e: nat, n: nat) returns (tr': seq<Label>, s': State)
    requires LeadsTo(c, tr, s) && InEpoch(s, o) && s.completed[o] == e && s.issued[o] == 0 && NearDone(s, o, e)
    requires o < |c.origins| && e < |c.origins[o]| && OnlyPuts(c.origins[o][e]) && n <= |c.origins[o][e]|
    ensures LeadsTo(c, tr', s') && NearDone(s', o, e) && s'.issued == s.issued[o := n]
    ensures s'.posted == s.posted && s'.started == s.started && s'.completed == s.completed
  {
    if n == 0 {
      tr', s' := tr, s;
    } else {
      tr', s' := PutsIssued(c, tr, s, o, e, n - 1);
      tr', s' := Then(c, tr', s', Issue(o));
      tr', s' := Then(c, tr', s', Near(|s'.ops| - 1));
    }
  }

  lemma PutsComplete(c: Config, k: nat, o: nat, e: nat)
    requires Matched(c) && Serves(c.groups, k, o, e) && o < |c.origins| && e < |c.origins[o]| && OnlyPuts(c.origins[o][e])
    ensures CompletesEarly(c, k, o, e)
  {
    var tr, s := ReachIdle(c, k);
    assert RestsAfter(c, s, o, k) && Look(tr);
    EveryRun(c, tr);
    forall i | 0 <= i < |s.ops|
      ensures !(s.ops[i].origin == o && s.ops[i].epoch == e)
    {
      assert OpOk(c, s, s.ops[i]);
    }
    tr, s := Then(c, tr, s, Start(o));
    tr, s := PutsIssued(c, tr, s, o, e, |c.origins[o][e]|);
    tr, s := Then(c, tr, s, Complete(o));
    assert Look(tr) && EarlyIn(c, s, k, o, e);
  }

  /** MAIN RESULT. `MPI_Win_complete` ends the origin side only: an access epoch can be completed before the group
      that serves it is posted, with all its operations still to reach the target, if and only if it has no gets. */
  lemma {:induction false} CompletesEarlyExactly(c: Config, k: nat, o: nat, e: nat)
    requires Matched(c) && Serves(c.groups, k, o, e)
    ensures o < |c.origins| && e < |c.origins[o]| && (CompletesEarly(c, k, o, e) <==> OnlyPuts(c.origins[o][e]))
  {
    EnoughEpochs(c, o, k + 1);
    if CompletesEarly(c, k, o, e) {
      var tr :| Exec(c, tr).Some? && EarlyIn(c, Exec(c, tr).value, k, o, e);
      forall idx | 0 <= idx < |c.origins[o][e]|
        ensures c.origins[o][e][idx].Put?
      {
        GetWaitsForPost(c, tr, k, o, e, idx);
      }
    } else if OnlyPuts(c.origins[o][e]) {
      PutsComplete(c, k, o, e);
    }
  }

  // ----- no deadlock

  lemma EarlierTurnsServed(c: Config, s: State, o: nat)
    requires Matched(c) && Shape(c, s) && Inv(c, s) && s.waited <= |c.groups| && o < |c.origins|
    ensures s.completed[o] >= Turns(c.groups, o, s.waited)
  {
    var e := Turns(c.groups, o, s.waited);
    if e > 0 {
      var k := ServingGroup(c.groups, o, e - 1, s.waited);
      assert Served(c, s, k);
    }
  }

  /** An operation of the posted group that has not reached the target can go on. */
  lemma OperationGoes(c: Config, s: State, i: nat) returns (l: Label)
    requires Shape(c, s) && Inv(c, s) && i < |s.ops| && !s.ops[i].far && s.posted == s.waited + 1 <= |c.groups|
    requires Serves(c.groups, s.waited, s.ops[i].origin, s.ops[i].epoch)
    ensures Enabled(c, s, l)
  {
    l := if s.ops[i].call.Put? && !s.ops[i].near then Near(i) else Far(i);
  }

  /** So can an origin that still has to complete the epoch which the posted group serves. */
  lemma OriginGoes(c: Config, s: State, o: nat) returns (l: Label)
    requires Shape(c, s) && Inv(c, s) && o < |c.origins| && s.completed[o] < |c.origins[o]|
    requires forall i :: 0 <= i < |s.ops| && s.ops[i].origin == o && s.ops[i].epoch == s.completed[o] ==> s.ops[i].far
    ensures Enabled(c, s, l)
  {
    if s.started[o] == s.completed[o] {
      l := Start(o);
    } else if s.issued[o] < |c.origins[o][s.completed[o]]| {
      l := Issue(o);
    } else if i: nat :| i < |s.ops| && s.ops[i].origin == o && s.ops[i].epoch == s.completed[o] && !s.ops[i].near {
      assert OpOk(c, s, s.ops[i]);
      l := Near(i);
    } else {
      l := Complete(o);
    }
  }

  /** MAIN RESULT. While a group is still to be served, some step is possible, whatever has been done so far. */
  lemma {:induction false} NoDeadlock(c: Config, tr: seq<Label>) returns (l: Label)
    requires Matched(c) && Exec(c, tr).Some? && Exec(c, tr).value.waited < |c.groups|
    ensures Enabled(c, Exec(c, tr).value, l)
  {
    var s := Exec(c, tr).value;
    EveryRun(c, tr);
    var k := s.waited;
    if s.posted == k {
      l := Post;
    } else if i: nat :| i < |s.ops| && s.ops[i].origin in c.groups[k] && s.ops[i].epoch == Turns(c.groups, s.ops[i].origin, k) && !s.ops[i].far {
      l := OperationGoes(c, s, i);
    } else if o :| o in c.groups[k] && s.completed[o] <= Turns(c.groups, o, k) {
      EarlierTurnsServed(c, s, o);
      EnoughEpochs(c, o, k + 1);
      l := OriginGoes(c, s, o);
    } else {
      l := Wait;
    }
  }

  // ----- 034, for any number of origins

  /** Origin `i` makes one call, and the target posts for one origin after the other. */
  function OneByOne(calls: seq<Call>): Config {
    Config(seq(|calls|, i requires 0 <= i < |calls| => {i}), seq(|calls|, i requires 0 <= i < |calls| => [[calls[i]]]))
  }

  /** The window after the first `n` calls, one after the other. */
  function Serial(calls: seq<Call>, n: nat): map<nat, int>
    requires n <= |calls|
  {
    if n == 0 then map[]
    else match calls[n - 1] {
      case Put(cell, v) => Serial(calls, n - 1)[cell := v]
      case Get(_) => Serial(calls, n - 1)
    }
  }

  lemma {:induction false} OneTurn(calls: seq<Call>, o: nat, k: nat)
    requires k <= |calls|
    ensures Turns(OneByOne(calls).groups, o, k) == if o < k then 1 else 0
  {
    if k > 0 {
      OneTurn(calls, o, k - 1);
    }
  }

  /** The origins below `m` have had their access at the target, in order. */
  ghost predicate InOrder(calls: seq<Call>, s: State, m: nat) {
    && s.waited <= m <= s.posted <= |calls| && s.win == Serial(calls, m)
    && (forall i :: 0 <= i < |s.ops| ==> (s.ops[i].far <==> s.ops[i].origin < m))
    && (forall o: nat :: o < m ==> Present(s, o, 0, 0))
    && (forall i :: 0 <= i < |s.ops| && s.ops[i].far && s.ops[i].call.Get? ==>
          s.ops[i].origin < |calls| && s.ops[i].val == At(Serial(calls, s.ops[i].origin), s.ops[i].call.cell))
  }

  lemma PresentStays(c: Config, s: State, l: Label, o: nat)
    requires Shape(c, s) && Enabled(c, s, l) && Present(s, o, 0, 0)
    ensures Present(Apply(c, s, l), o, 0, 0)
  {
    var i: nat :| OpAt(s, i, o, 0, 0);
    assert OpAt(Apply(c, s, l), i, o, 0, 0);
  }

  /** Only the origin whose turn it is can reach the target. */
  lemma FarInOrder(calls: seq<Call>, s: State, k: nat, m: nat)
    requires var c := OneByOne(calls); Shape(c, s) && Inv(c, s) && InOrder(calls, s, m) && Enabled(c, s, Far(k))
    ensures s.ops[k].origin == m < s.posted && s.ops[k].epoch == 0 && s.ops[k].idx == 0 && s.ops[k].call == calls[m]
    ensures forall i :: 0 <= i < |s.ops| && s.ops[i].origin == m ==> i == k
  {
    var c, op := OneByOne(calls), s.ops[k];
    assert OpOk(c, s, op);
    OneTurn(calls, op.origin, s.posted);
    forall i | 0 <= i < |s.ops| && s.ops[i].origin == m
      ensures i == k
    {
      assert OpOk(c, s, s.ops[i]) && SameCall(s.ops[i], op);
    }
  }

  lemma WaitInOrder(calls: seq<Call>, s: State, m: nat)
    requires var c := OneByOne(calls); Shape(c, s) && Inv(c, s) && InOrder(calls, s, m) && Enabled(c, s, Wait)
    ensures s.waited < m
  {
    var c, o := OneByOne(calls), s.waited;
    OneTurn(calls, o, o);
    assert o in c.groups[o] && s.completed[o] > 0;
    assert HasIssued(s, o, 0, 0, |c.origins[o][0]|);
    var i: nat :| OpAt(s, i, o, 0, 0);
    assert s.ops[i].far;
  }

  lemma NotReissued(calls: seq<Call>, s: State, o: nat, m: nat)
    requires var c := OneByOne(calls); Shape(c, s) && Inv(c, s) && InOrder(calls, s, m) && Enabled(c, s, Issue(o))
    ensures m <= o
  {
    assert !Present(s, o, 0, 0);
  }

  lemma InOrderStep(calls: seq<Call>, s: State, l: Label, m: nat)
    requires var c := OneByOne(calls); Shape(c, s) && Inv(c, s) && InOrder(calls, s, m) && Enabled(c, s, l)
    ensures InOrder(calls, Apply(OneByOne(calls), s, l), if l.Far? then m + 1 else m)
  {
    var c := OneByOne(calls);
    var s' := Apply(c, s, l);
    forall o: nat | o < m
      ensures Present(s', o, 0, 0)
    {
      PresentStays(c, s, l, o);
    }
    if l.Far? {
      FarInOrder(calls, s, l.k, m);
      assert OpAt(s', l.k, m, 0, 0);
    } else if l.Wait? {
      WaitInOrder(calls, s, m);
    } else if l.Issue? {
      NotReissued(calls, s, l.o, m);
    }
  }

  lemma {:induction false} EveryRunInOrder(calls: seq<Call>, tr: seq<Label>) returns (m: nat)
    requires Exec(OneByOne(calls), tr).Some?
    ensures InOrder(calls, Exec(OneByOne(calls), tr).value, m)
  {
    if tr == [] {
      m := 0;
    } else {
      var before := tr[..|tr| - 1];
      m := EveryRunInOrder(calls, before);
      EveryRun(OneByOne(calls), before);
      InOrderStep(calls, Exec(OneByOne(calls), before).value, tr[|tr| - 1], m);
      if tr[|tr| - 1].Far? {
        m := m + 1;
      }
    }
  }

  /** MAIN RESULT. MPIRMA/sync/034 for any number of origins: a get that has been completed holds what
      the earlier origins left in the cell, and at the last wait the window is that of the serial run. */
  lemma {:induction false} OneByOneIsSerial(calls: seq<Call>, tr: seq<Label>, i: nat)
    requires Exec(OneByOne(calls), tr).Some?
    ensures var s := Exec(OneByOne(calls), tr).value;
            && (i < |s.ops| && s.ops[i].call.Get? && s.ops[i].origin < |calls| && s.completed[s.ops[i].origin] > 0 ==>
                  s.ops[i].val == At(Serial(calls, s.ops[i].origin), s.ops[i].call.cell))
            && (s.waited == |calls| ==> s.win == Serial(calls, |calls|))
  {
    var c := OneByOne(calls);
    var s := Exec(c, tr).value;
    var m := EveryRunInOrder(calls, tr);
    EveryRun(c, tr);
    if i < |s.ops| {
      assert OpOk(c, s, s.ops[i]);
    }
  }

  /** 034: origin 0 puts `v` (42 in the program), origin 1 gets the same cell. */
  function TwoGroups(v: int): Config {
    OneByOne([Put(0, v), Get(0)])
  }

  /** MPIRMA/sync/034: the get always returns the value put. */
  lemma {:induction false} GetReturnsPut(v: int, tr: seq<Label>, i: nat)
    requires Exec(TwoGroups(v), tr).Some?
    ensures var s := Exec(TwoGroups(v), tr).value;
            i < |s.ops| && s.ops[i].origin == 1 && s.completed[1] > 0 ==> s.ops[i].val == v
  {
    var calls := [Put(0, v), Get(0)];
    OneByOneIsSerial(calls, tr, i);
    EveryRun(TwoGroups(v), tr);
    var s := Exec(TwoGroups(v), tr).value;
    if i < |s.ops| && s.ops[i].origin == 1 {
      assert OpOk(TwoGroups(v), s, s.ops[i]);
      assert Serial(calls, 1) == Serial(calls, 0)[0 := v];
    }
  }

  // ----- 035

  /** One post for both origins. */
  function OneGroup(v: int): Config {
    Config([{0, 1}], [[[Put(0, v)]], [[Get(0)]]])
  }

  lemma BothPosted(v: int) returns (tr: seq<Label>, s: State)
    ensures LeadsTo(OneGroup(v), tr, s) && s.posted == 1 && s.started == [1, 1] && s.completed == [0, 0] && s.issued == [0, 0]
    ensures s.ops == [] && s.win == map[]
  {
    var c := OneGroup(v);
    tr, s := Begin(c);
    tr, s := Then(c, tr, s, Post);
    tr, s := Then(c, tr, s, Start(0));
    tr, s := Then(c, tr, s, Start(1));
  }

  /** The put and the get are under way. */
  lemma BothIssued(v: int) returns (tr: seq<Label>, s: State)
    ensures LeadsTo(OneGroup(v), tr, s) && s.posted == 1 && s.win == map[]
    ensures s.ops == [Op(0, 0, 0, Put(0, v), true, false, 0), Op(1, 0, 0, Get(0), false, false, 0)]
  {
    var c := OneGroup(v);
    tr, s := BothPosted(v);
    tr, s := Then(c, tr, s, Issue(0));
    assert s.ops == [Op(0, 0, 0, Put(0, v), false, false, 0)];
    tr, s := Then(c, tr, s, Issue(1));
    tr, s := Then(c, tr, s, Near(0));
  }

  ghost predicate GetSees(v: int, x: int) {
    exists tr :: Exec(OneGroup(v), tr).Some? && var s := Exec(OneGroup(v), tr).value; |s.ops| == 2 && s.ops[1].call.Get? && s.ops[1].far && s.ops[1].val == x
  }

  lemma SeesEither(v: int, tr: seq<Label>, s: State)
    requires LeadsTo(OneGroup(v), tr, s) && s.posted == 1 && s.win == map[]
    requires s.ops == [Op(0, 0, 0, Put(0, v), true, false, 0), Op(1, 0, 0, Get(0), false, false, 0)]
    ensures GetSees(v, 0) && GetSees(v, v) && InFlightTogether(OneGroup(v), s, 0, 1)
  {
    var c := OneGroup(v);
    assert Turns(c.groups, 0, 1) == 1 && Turns(c.groups, 1, 1) == 1;
    var tr0, s0 := Then(c, tr, s, Far(1));
    var tr1, s1 := Then(c, tr, s, Far(0));
    tr1, s1 := Then(c, tr1, s1, Far(1));
    assert Look(tr0) && Look(tr1);
  }

  /** MPIRMA/sync/035: with one post for both origins the put and the get are in flight together, and the
      get can return the old value or the new one. */
  lemma {:induction false} OnePostRaces(v: int)
    ensures HasRace(OneGroup(v))
    ensures GetSees(v, 0) && GetSees(v, v)
  {
    var tr, s := BothIssued(v);
    SeesEither(v, tr, s);
    assert Look(tr) && Conflict(s.ops[0].call, s.ops[1].call);
  }
}
