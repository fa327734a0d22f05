/**
 The conflict tables of util/generate.py.

 A row names two kinds of access to one cell and says whether they race. The rows follow one rule, and
 the rule is exact: kinds race if and only if they are not both atomic and there are accesses of these
 kinds and a value of the cell for which the two orders differ in the final value or in a result. The
 clash of the step machine is the same rule on the cells that two calls touch.
 */
module Tables {
  import M = Machine

  /** The `opkind` strings of the operations. */
  datatype Kind = LOAD | STORE | BUFFER_READ | BUFFER_WRITE | RMA_READ | RMA_WRITE | ATOMIC_READ | ATOMIC_WRITE

  predicate Writing(k: Kind) {
    k == STORE || k == BUFFER_WRITE || k == RMA_WRITE || k == ATOMIC_WRITE
  }

  predicate Atomic(k: Kind) {
    k == ATOMIC_READ || k == ATOMIC_WRITE
  }

  /** The rule behind the tables. */
  predicate Races(a: Kind, b: Kind) {
    (Writing(a) || Writing(b)) && !(Atomic(a) && Atomic(b))
  }

  // ----- what accesses do to a cell

  datatype Access =
    | Read
    | Write(v: int)
    | Sum(v: int)
    | FetchSum(v: int)
    | Swap(v: int)
    | CompareSwap(expected: int, v: int)

  /** The cell after access `a` of a cell that holds `x`. */
  function CellAfter(a: Access, x: int): int {
    match a
    case Read => x
    case Write(v) => v
    case Sum(v) => x + v
    case FetchSum(v) => x + v
    case Swap(v) => v
    case CompareSwap(expected, v) => if x == expected then v else x
  }

  /** What the access returns to its origin. */
  function ResultOf(a: Access, x: int): M.Option<int> {
    match a
    case Read => M.Some(x)
    case Write(_) => M.None
    case Sum(_) => M.None
    case FetchSum(_) => M.Some(x)
    case Swap(_) => M.Some(x)
    case CompareSwap(_, _) => M.Some(x)
  }

  predicate HasKind(a: Access, k: Kind) {
    match k
    case LOAD => a.Read?
    case BUFFER_READ => a.Read?
    case RMA_READ => a.Read?
    case ATOMIC_READ => a.Read?
    case STORE => a.Write?
    case BUFFER_WRITE => a.Write?
    case RMA_WRITE => a.Write?
    case ATOMIC_WRITE => !a.Read?
  }

  /** What can be said of the accesses of a kind: those of reading kinds leave every cell alone, those of writing
      kinds are all others, and only the atomic kinds have more than plain reads and writes. */
  lemma KindsOf(a: Access, k: Kind)
    ensures HasKind(a, k) <==> (Writing(k) <==> !a.Read?) && (Atomic(k) || a.Read? || a.Write?)
    ensures HasKind(a, k) && !Writing(k) ==> forall x :: CellAfter(a, x) == x
  {
  }

  /** From `x`, both orders leave the same value and give both accesses the same results. */
  predicate OrdersAgree(a: Access, b: Access, x: int) {
    && CellAfter(b, CellAfter(a, x)) == CellAfter(a, CellAfter(b, x))
    && ResultOf(a, x) == ResultOf(a, CellAfter(b, x))
    && ResultOf(b, CellAfter(a, x)) == ResultOf(b, x)
  }

  ghost predicate SomeOrdersDiffer(k: Kind, l: Kind) {
    exists a, b, x :: HasKind(a, k) && HasKind(b, l) && !OrdersAgree(a, b, x)
  }

  function Sample(k: Kind, n: int): Access {
    if !Writing(k) then Read else if Atomic(k) then Sum(n) else Write(n)
  }

  /** MAIN RESULT. Two kinds race by the rule if and only if they are not both atomic and the order of some
      accesses of these kinds matters. */
  lemma {:induction false} RaceMeansOrderMatters(k: Kind, l: Kind)
    ensures Races(k, l) <==> SomeOrdersDiffer(k, l) && !(Atomic(k) && Atomic(l))
  {
    if Races(k, l) {
      assert HasKind(Sample(k, 1), k) && HasKind(Sample(l, 2), l) && !OrdersAgree(Sample(k, 1), Sample(l, 2), 0);
    }
  }

  // ----- what the atomic accesses do, many at a time

  /** The cell after a list of accesses, one after the other. */
  function CellAfterAll(accesses: seq<Access>, x: int): int {
    if accesses == [] then x else CellAfterAll(accesses[1..], CellAfter(accesses[0], x))
  }

  /** What access `k` of the list returns. */
  function ResultAt(accesses: seq<Access>, k: nat, x: int): M.Option<int>
    requires k < |accesses|
  {
    if k == 0 then ResultOf(accesses[0], x) else ResultAt(accesses[1..], k - 1, CellAfter(accesses[0], x))
  }

  predicate Adds(a: Access) {
    a.Sum? || a.FetchSum?
  }

  function TotalOf(accesses: seq<Access>, n: nat): int
    requires n <= |accesses| && forall k :: 0 <= k < |accesses| ==> Adds(accesses[k])
  {
    if n == 0 then 0 else TotalOf(accesses, n - 1) + accesses[n - 1].v
  }

  lemma {:induction false} TotalTail(accesses: seq<Access>, n: nat)
    requires 1 <= n <= |accesses| && forall k :: 0 <= k < |accesses| ==> Adds(accesses[k])
    ensures TotalOf(accesses, n) == accesses[0].v + TotalOf(accesses[1..], n - 1)
  {
    if n > 1 {
      TotalTail(accesses, n - 1);
    }
  }

  /** Atomic additions never lose anything: the cell ends as its start plus all that was added, and a fetching one
      returns the start plus what was added before it. */
  lemma {:induction false} SumsAddUp(accesses: seq<Access>, x: int, k: nat)
    requires forall k :: 0 <= k < |accesses| ==> Adds(accesses[k])
    ensures CellAfterAll(accesses, x) == x + TotalOf(accesses, |accesses|)
    ensures k < |accesses| && accesses[k].FetchSum? ==> ResultAt(accesses, k, x) == M.Some(x + TotalOf(accesses, k))
    decreases |accesses|
  {
    if accesses != [] {
      var rest, y := accesses[1..], x + accesses[0].v;
      TotalTail(accesses, |accesses|);
      SumsAddUp(rest, y, if k > 0 then k - 1 else 0);
      if 0 < k < |accesses| {
        TotalTail(accesses, k);
      }
    }
  }

  /** A swap leaves its value and returns the one that the access before it left. */
  lemma {:induction false} SwapsPassOn(accesses: seq<Access>, x: int, k: nat)
    requires k < |accesses| && forall k :: 0 <= k < |accesses| ==> accesses[k].Swap?
    ensures ResultAt(accesses, k, x) == M.Some(if k == 0 then x else accesses[k - 1].v)
    ensures CellAfterAll(accesses, x) == accesses[|accesses| - 1].v
    decreases |accesses|
  {
    var rest := accesses[1..];
    if k > 0 {
      SwapsPassOn(rest, accesses[0].v, k - 1);
    } else if rest != [] {
      SwapsPassOn(rest, accesses[0].v, 0);
    }
  }

  /** Compare-and-swaps that expect `e` and bring in something else. */
  predicate Competes(a: Access, e: int) {
    a.CompareSwap? && a.expected == e && a.v != e
  }

  /** Once the cell does not hold what they expect, no compare-and-swap has an effect. */
  lemma {:induction false} LosersFail(accesses: seq<Access>, e: int, x: int, k: nat)
    requires x != e && forall k :: 0 <= k < |accesses| ==> Competes(accesses[k], e)
    ensures CellAfterAll(accesses, x) == x && (k < |accesses| ==> ResultAt(accesses, k, x) == M.Some(x))
    decreases |accesses|
  {
    if accesses != [] {
      LosersFail(accesses[1..], e, x, if k > 0 then k - 1 else 0);
    }
  }

  /** MAIN RESULT. Of any number of compare-and-swaps for one value, in any order, exactly the first takes effect: it
      gets back the value they all expect, and all others get back what the first has left. */
  lemma {:induction false} FirstSwapWins(accesses: seq<Access>, e: int, k: nat)
    requires k < |accesses| && forall k :: 0 <= k < |accesses| ==> Competes(accesses[k], e)
    ensures Competes(accesses[0], e) && CellAfterAll(accesses, e) == accesses[0].v
    ensures ResultAt(accesses, k, e) == M.Some(if k == 0 then e else accesses[0].v)
  {
    LosersFail(accesses[1..], e, accesses[0].v, if k > 0 then k - 1 else 0);
  }

  /** Which accesses change the cell. */
  lemma ChangesExactly(a: Access, x: int)
    ensures CellAfter(a, x) != x <==>
      match a
      case Read => false
      case Sum(v) => v != 0
      case FetchSum(v) => v != 0
      case CompareSwap(expected, v) => ResultOf(a, x) == M.Some(expected) && v != expected
      case _ => a.v != x
    ensures !a.Write? && !a.Sum? ==> ResultOf(a, x) == M.Some(x)
  {
  }

  // ----- the tables

  datatype Row = Row(a: Kind, b: Kind, race: bool)

  const LOCAL_ROWS := [
    Row(BUFFER_READ, LOAD, false),
    Row(BUFFER_READ, STORE, true),
    Row(BUFFER_READ, BUFFER_READ, false),
    Row(BUFFER_WRITE, LOAD, true),
    Row(BUFFER_WRITE, STORE, true),
    Row(BUFFER_WRITE, BUFFER_READ, true),
    Row(BUFFER_WRITE, BUFFER_WRITE, true)
  ]

  const REMOTE_ROWS := [
    Row(RMA_READ, LOAD, false),
    Row(RMA_READ, RMA_READ, false),
    Row(RMA_READ, STORE, true),
    Row(RMA_READ, RMA_WRITE, true),
    Row(RMA_READ, ATOMIC_READ, false),
    Row(RMA_READ, ATOMIC_WRITE, true),
    Row(RMA_WRITE, LOAD, true),
    Row(RMA_WRITE, STORE, true),
    Row(RMA_WRITE, RMA_WRITE, true),
    Row(RMA_WRITE, ATOMIC_READ, true),
    Row(RMA_WRITE, ATOMIC_WRITE, true),
    Row(ATOMIC_WRITE, LOAD, true),
    Row(ATOMIC_WRITE, STORE, true),
    Row(ATOMIC_WRITE, ATOMIC_WRITE, false),
    Row(ATOMIC_WRITE, ATOMIC_READ, false),
    Row(ATOMIC_READ, ATOMIC_READ, false),
    Row(ATOMIC_READ, LOAD, false),
    Row(ATOMIC_READ, STORE, true)
  ]

  /** An operation of the additional rows with the kinds of its two accesses. */
  datatype Operation = Operation(near: Kind, far: Kind)

  const DIRECT_LOAD := Operation(LOAD, LOAD)
  const DIRECT_STORE := Operation(STORE, STORE)
  const WRITER := Operation(BUFFER_READ, RMA_WRITE)          // put, write and their variants
  const READER := Operation(BUFFER_WRITE, RMA_READ)          // get, read and their variants
  const UPDATE_FROM := Operation(BUFFER_READ, ATOMIC_WRITE)  // acc, gacc1, fop1, cas1
  const UPDATE_INTO := Operation(BUFFER_WRITE, ATOMIC_WRITE) // gacc2, fop2, cas2, fetch and inc, compare and swap
  const FETCH := Operation(BUFFER_WRITE, ATOMIC_READ)        // atomic fetch

  datatype Extra = Extra(a: Operation, b: Operation, race: bool)

  const LOCAL_MPI := [
    Extra(UPDATE_FROM, DIRECT_STORE, true), Extra(UPDATE_FROM, DIRECT_LOAD, false),
    Extra(UPDATE_FROM, DIRECT_STORE, true), Extra(UPDATE_INTO, DIRECT_LOAD, true),
    Extra(UPDATE_FROM, DIRECT_STORE, true), Extra(UPDATE_INTO, DIRECT_LOAD, true),
    Extra(UPDATE_FROM, DIRECT_STORE, true), Extra(UPDATE_INTO, DIRECT_LOAD, true)
  ]

  const LOCAL_SHMEM := [
    Extra(WRITER, DIRECT_STORE, true), Extra(WRITER, DIRECT_LOAD, false),
    Extra(FETCH, DIRECT_STORE, true), Extra(FETCH, DIRECT_LOAD, true),
    Extra(UPDATE_INTO, DIRECT_STORE, true), Extra(UPDATE_INTO, DIRECT_LOAD, true),
    Extra(UPDATE_INTO, DIRECT_LOAD, true), Extra(UPDATE_INTO, DIRECT_STORE, true)
  ]

  const LOCAL_GASPI := [
    Extra(WRITER, DIRECT_LOAD, false), Extra(WRITER, DIRECT_STORE, true),
    Extra(READER, DIRECT_LOAD, true), Extra(READER, DIRECT_STORE, true),
    Extra(WRITER, DIRECT_LOAD, false), Extra(WRITER, DIRECT_STORE, true),
    Extra(READER, DIRECT_LOAD, true), Extra(READER, DIRECT_STORE, true),
    Extra(WRITER, DIRECT_LOAD, false), Extra(WRITER, DIRECT_STORE, true),
    Extra(READER, DIRECT_LOAD, true), Extra(READER, DIRECT_STORE, true)
  ]

  const REMOTE_MPI := [
    Extra(UPDATE_FROM, DIRECT_STORE, true), Extra(UPDATE_FROM, UPDATE_FROM, false),
    Extra(UPDATE_FROM, UPDATE_FROM, false), Extra(UPDATE_FROM, DIRECT_STORE, true),
    Extra(UPDATE_FROM, DIRECT_STORE, true), Extra(UPDATE_FROM, UPDATE_FROM, false)
  ]

  const REMOTE_SHMEM := [
    Extra(WRITER, DIRECT_STORE, true), Extra(WRITER, WRITER, true),
    Extra(READER, DIRECT_STORE, true), Extra(READER, WRITER, true),
    Extra(WRITER, DIRECT_LOAD, true), Extra(WRITER, READER, true),
    Extra(WRITER, DIRECT_STORE, true), Extra(WRITER, WRITER, true),
    Extra(READER, DIRECT_STORE, true), Extra(READER, WRITER, true),
    Extra(FETCH, FETCH, false), Extra(FETCH, DIRECT_LOAD, false),
    Extra(UPDATE_INTO, UPDATE_INTO, false), Extra(FETCH, DIRECT_STORE, true),
    Extra(UPDATE_INTO, DIRECT_STORE, true), Extra(UPDATE_INTO, FETCH, false)
  ]

  const REMOTE_GASPI := [
    Extra(WRITER, DIRECT_LOAD, true), Extra(WRITER, WRITER, true),
    Extra(READER, DIRECT_LOAD, false), Extra(READER, WRITER, true),
    Extra(WRITER, DIRECT_LOAD, true), Extra(WRITER, WRITER, true),
    Extra(READER, DIRECT_LOAD, false), Extra(READER, WRITER, true),
    Extra(WRITER, DIRECT_LOAD, true), Extra(WRITER, WRITER, true),
    Extra(READER, DIRECT_LOAD, false), Extra(READER, WRITER, true)
  ]

  /** The flag of a row says that the order of some accesses of its kinds matters, and that they are not
      both atomic. */
  ghost predicate Exact(a: Kind, b: Kind, race: bool) {
    race <==> SomeOrdersDiffer(a, b) && !(Atomic(a) && Atomic(b))
  }

  lemma RowExact(a: Kind, b: Kind, race: bool)
    requires race == Races(a, b)
    ensures Exact(a, b, race)
  {
    RaceMeansOrderMatters(a, b);
  }

  lemma LocalFollows(e: Extra)
    requires e in LOCAL_MPI || e in LOCAL_SHMEM || e in LOCAL_GASPI
    ensures e.race == Races(e.a.near, e.b.near)
  {
  }

  lemma RemoteFollows(e: Extra)
    requires e in REMOTE_MPI || e in REMOTE_SHMEM || e in REMOTE_GASPI
    ensures e.race == Races(e.a.far, e.b.far)
  {
  }

  lemma RowFollows(r: Row)
    requires r in LOCAL_ROWS || r in REMOTE_ROWS
    ensures r.race == Races(r.a, r.b)
  {
  }

  /** MAIN RESULT. Every row of every table is exact. */
  lemma {:induction false} TablesExact()
    ensures forall r :: r in LOCAL_ROWS || r in REMOTE_ROWS ==> Exact(r.a, r.b, r.race)
    ensures forall e :: e in LOCAL_MPI || e in LOCAL_SHMEM || e in LOCAL_GASPI ==> Exact(e.a.near, e.b.near, e.race)
    ensures forall e :: e in REMOTE_MPI || e in REMOTE_SHMEM || e in REMOTE_GASPI ==> Exact(e.a.far, e.b.far, e.race)
  {
    forall r | r in LOCAL_ROWS || r in REMOTE_ROWS
      ensures Exact(r.a, r.b, r.race)
    {
      RowFollows(r);
      RowExact(r.a, r.b, r.race);
    }
    forall e | e in LOCAL_MPI || e in LOCAL_SHMEM || e in LOCAL_GASPI
      ensures Exact(e.a.near, e.b.near, e.race)
    {
      LocalFollows(e);
      RowExact(e.a.near, e.b.near, e.race);
    }
    forall e | e in REMOTE_MPI || e in REMOTE_SHMEM || e in REMOTE_GASPI
      ensures Exact(e.a.far, e.b.far, e.race)
    {
      RemoteFollows(e);
      RowExact(e.a.far, e.b.far, e.race);
    }
  }

  // ----- the same rule in the step machine

  datatype Touch = Touch(cell: M.Loc, kind: Kind)

  function Source(kind: M.Kind): Kind {
    if kind == M.Get then RMA_READ else BUFFER_READ
  }

  function Target(kind: M.Kind): Kind {
    match kind
    case Put => RMA_WRITE
    case Get => BUFFER_WRITE
    case Acc => ATOMIC_WRITE
  }

  /** The accesses of an operation that no completing call has covered. */
  function OpenTouches(o: M.Op): set<Touch> {
    (if o.srcOpen then {Touch(o.src, Source(o.kind))} else {}) + (if o.dstOpen then {Touch(o.dst, Target(o.kind))} else {})
  }

  /** The accesses of a call. */
  function Touches(i: M.Instr): set<Touch> {
    match i
    case Load(x) => {Touch(x, LOAD)}
    case Store(x, _) => {Touch(x, STORE)}
    case Add(x, _) => {Touch(x, STORE)}
    case Rma(kind, _, _, src, dst) => {Touch(src, Source(kind)), Touch(dst, Target(kind))}
    case _ => {}
  }

  /** A fence between two writes to one rank puts their target accesses in order. */
  predicate FenceOrders(o: M.Op, t: nat, batch: nat, i: M.Instr, a: Touch, b: Touch) {
    && i.Rma? && o.tid == t && o.peer == i.peer && o.kind != M.Get && i.kind != M.Get && o.batch < batch
    && a.cell == o.dst && a.kind == Target(o.kind) && b.cell == i.dst && b.kind == Target(i.kind)
  }

  /** MAIN RESULT. A call clashes with an operation in flight exactly when they have accesses of one cell
      whose kinds race by the tables and which no fence has put in order. */
  lemma {:induction false} ClashFollowsTables(t: nat, batch: nat, i: M.Instr, o: M.Op)
    ensures M.Clash(t, batch, i, o) <==>
              exists a, b :: a in OpenTouches(o) && b in Touches(i) && a.cell == b.cell && Races(a.kind, b.kind)
                && !FenceOrders(o, t, batch, i, a, b)
  {
    var s, d := Touch(o.src, Source(o.kind)), Touch(o.dst, Target(o.kind));
    if M.Clash(t, batch, i, o) {
      if i.Rma? {
        var u, v := Touch(i.src, Source(i.kind)), Touch(i.dst, Target(i.kind));
        if o.dstOpen && o.dst == i.src {
          assert d in OpenTouches(o) && u in Touches(i) && Races(d.kind, u.kind);
        } else if o.srcOpen && o.src == i.dst {
          assert s in OpenTouches(o) && v in Touches(i) && Races(s.kind, v.kind);
        } else {
          assert d in OpenTouches(o) && v in Touches(i) && Races(d.kind, v.kind);
        }
      } else {
        var u := Touch(i.x, if i.Load? then LOAD else STORE);
        if o.dstOpen && o.dst == i.x {
          assert d in OpenTouches(o) && u in Touches(i) && Races(d.kind, u.kind);
        } else {
          assert s in OpenTouches(o) && u in Touches(i) && Races(s.kind, u.kind);
        }
      }
    }
  }
}
