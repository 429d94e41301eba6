/** The locks of the server: whatever requests run at the same time, some of them can always go on. */
module Locks {
  datatype Lock = StateLock | NodesLock | BucketLock(index: nat)

  /** The order in which the locks are taken. */
  function Level(lock: Lock): nat {
    match lock
    case StateLock => 0
    case NodesLock => 1
    case BucketLock(_) => 2
  }

  /** What a request does to locks; an acquisition is exclusive or shared with other readers. */
  datatype Op = Acquire(lock: Lock, exclusive: bool) | Release(lock: Lock)

  /** The locks held after the first `n` operations, and how. */
  function Held(prog: seq<Op>, n: nat): map<Lock, bool>
    requires n <= |prog|
  {
    if n == 0 then map[]
    else match prog[n - 1]
      case Acquire(lock, exclusive) => Held(prog, n - 1)[lock := exclusive]
      case Release(lock) => Held(prog, n - 1) - {lock}
  }

  /** A request takes a lock only above all it holds, and ends with none. */
  ghost predicate Disciplined(prog: seq<Op>) {
    && (forall n, held | 0 <= n < |prog| && prog[n].Acquire? && held in Held(prog, n) ::
      Level(held) < Level(prog[n].lock))
    && Held(prog, |prog|) == map[]
  }

  // ----- threads

  /** A thread runs one request. A writer that waits for a lock has announced itself: readers that
      come later wait behind it. */
  datatype Thread = Thread(prog: seq<Op>, pc: nat, announced: bool)
  {
    predicate Ok() {
      pc <= |prog| && (announced ==> pc < |prog| && prog[pc].Acquire? && prog[pc].exclusive)
    }

    predicate Done()
      requires Ok()
    {
      pc == |prog|
    }

    predicate Holds(lock: Lock)
      requires Ok()
    {
      lock in Held(prog, pc)
    }

    predicate HoldsAlone(lock: Lock)
      requires Ok()
    {
      lock in Held(prog, pc) && Held(prog, pc)[lock]
    }

    predicate Awaits(lock: Lock)
      requires Ok()
    {
      announced && prog[pc].lock == lock
    }
  }

  ghost predicate AllOk(ts: seq<Thread>) {
    forall i | 0 <= i < |ts| :: ts[i].Ok() && Disciplined(ts[i].prog)
  }

  /** No other thread writes under this lock or is next to do so. */
  ghost predicate NoWriter(ts: seq<Thread>, i: nat, lock: Lock)
    requires AllOk(ts)
  {
    forall j | 0 <= j < |ts| && j != i :: !ts[j].HoldsAlone(lock) && !ts[j].Awaits(lock)
  }

  ghost predicate NoHolder(ts: seq<Thread>, i: nat, lock: Lock)
    requires AllOk(ts)
  {
    forall j | 0 <= j < |ts| && j != i :: !ts[j].Holds(lock)
  }

  /** Thread `i` can go on. A writer first announces itself, which one writer at a time can do, and
      then waits for the readers to leave; a reader waits for writers, announced ones included. */
  ghost predicate CanStep(ts: seq<Thread>, i: nat)
    requires AllOk(ts)
  {
    i < |ts| && !ts[i].Done() &&
    match ts[i].prog[ts[i].pc]
    case Release(_) => true
    case Acquire(lock, exclusive) => if ts[i].announced then NoHolder(ts, i, lock) else NoWriter(ts, i, lock)
  }

  ghost function Step(ts: seq<Thread>, i: nat): (ts': seq<Thread>)
    requires AllOk(ts) && CanStep(ts, i)
    ensures AllOk(ts') && |ts'| == |ts|
  {
    var t := ts[i];
    if t.prog[t.pc].Acquire? && t.prog[t.pc].exclusive && !t.announced
    then ts[i := t.(announced := true)]
    else ts[i := t.(pc := t.pc + 1, announced := false)]
  }

  // ----- progress

  /** The level of the lock a thread has to take next. */
  function Wanted(t: Thread): nat
    requires t.Ok() && !t.Done() && t.prog[t.pc].Acquire?
  {
    Level(t.prog[t.pc].lock)
  }

  ghost predicate AllBlocked(ts: seq<Thread>) {
    AllOk(ts) && forall i | 0 <= i < |ts| :: !CanStep(ts, i)
  }

  /** If a blocked thread wants a lock, another unfinished thread holds one at least as high. */
  lemma SomeoneHoldsIt(ts: seq<Thread>, i: nat) returns (k: nat)
    requires AllBlocked(ts) && i < |ts| && !ts[i].Done()
    ensures ts[i].prog[ts[i].pc].Acquire?
    ensures k < |ts| && k != i && ts[k].Holds(ts[i].prog[ts[i].pc].lock)
  {
    assert !CanStep(ts, i);
    var lock := ts[i].prog[ts[i].pc].lock;
    if ts[i].announced {
      k :| 0 <= k < |ts| && k != i && ts[k].Holds(lock);
    } else {
      var j :| 0 <= j < |ts| && j != i && (ts[j].HoldsAlone(lock) || ts[j].Awaits(lock));
      if ts[j].HoldsAlone(lock) {
        k := j;
      } else {
        assert !CanStep(ts, j);
        k :| 0 <= k < |ts| && k != j && ts[k].Holds(lock);
        assert k != i;
      }
    }
  }

  /** A blocked thread waits for one that itself wants a higher lock. */
  lemma BlockedBehindHigher(ts: seq<Thread>, i: nat) returns (k: nat)
    requires AllBlocked(ts) && i < |ts| && !ts[i].Done()
    ensures ts[i].prog[ts[i].pc].Acquire?
    ensures k < |ts| && !ts[k].Done() && ts[k].prog[ts[k].pc].Acquire? && Wanted(ts[k]) > Wanted(ts[i])
  {
    k := SomeoneHoldsIt(ts, i);
    var lock := ts[i].prog[ts[i].pc].lock;
    assert Disciplined(ts[k].prog) && lock in Held(ts[k].prog, ts[k].pc);
    assert !CanStep(ts, k);
  }

  /** There is no deadlock: as long as some request is unfinished, some request can go on. */
  lemma NoDeadlock(ts: seq<Thread>)
    requires AllOk(ts) && exists i :: 0 <= i < |ts| && !ts[i].Done()
    ensures exists i :: 0 <= i < |ts| && CanStep(ts, i)
  {
    if AllBlocked(ts) {
      var i :| 0 <= i < |ts| && !ts[i].Done();
      ClimbForever(ts, i);
    }
  }

  lemma {:induction false} ClimbForever(ts: seq<Thread>, i: nat)
    requires AllBlocked(ts) && i < |ts| && !ts[i].Done()
    ensures false
    decreases if ts[i].prog[ts[i].pc].Acquire? then 3 - Wanted(ts[i]) else 3
  {
    var k := BlockedBehindHigher(ts, i);
    ClimbForever(ts, k);
  }

  function Left(t: Thread): nat
    requires t.Ok()
  {
    2 * (|t.prog| - t.pc) - if t.announced then 1 else 0
  }

  /** Operations left to do, announcements included. */
  function Work(ts: seq<Thread>): nat
    requires forall i | 0 <= i < |ts| :: ts[i].Ok()
  {
    if ts == [] then 0
    else
      Work(ts[..|ts| - 1]) + Left(ts[|ts| - 1])
  }

  lemma {:induction false} WorkUpdate(ts: seq<Thread>, i: nat, t: Thread)
    requires (forall j | 0 <= j < |ts| :: ts[j].Ok()) && i < |ts| && t.Ok()
    ensures Work(ts[i := t]) - Work(ts) == Left(t) - Left(ts[i])
  {
    var last := |ts| - 1;
    if i == last {
      assert ts[i := t][..last] == ts[..last];
    } else {
      assert ts[i := t][..last] == ts[..last][i := t];
      WorkUpdate(ts[..last], i, t);
    }
  }

  /** Every step leaves less to do, so with `NoDeadlock` every run ends with all requests finished. */
  lemma StepsEnd(ts: seq<Thread>, i: nat)
    requires AllOk(ts) && CanStep(ts, i)
    ensures Work(Step(ts, i)) < Work(ts)
  {
    WorkUpdate(ts, i, Step(ts, i)[i]);
  }

  // ----- exclusion

  /** A writer is alone: no other thread holds its lock, and no second writer is announced. */
  ghost predicate Exclusive(ts: seq<Thread>)
    requires AllOk(ts)
  {
    forall i, j, lock | 0 <= i < |ts| && 0 <= j < |ts| && i != j :: Apart(ts[i], ts[j], lock)
  }

  predicate Apart(a: Thread, b: Thread, lock: Lock)
    requires a.Ok() && b.Ok()
  {
    && (a.HoldsAlone(lock) ==> !b.Holds(lock) && !b.Awaits(lock))
    && (a.Awaits(lock) ==> !b.HoldsAlone(lock) && !b.Awaits(lock))
  }

  lemma StepKeepsExclusive(ts: seq<Thread>, i: nat)
    requires AllOk(ts) && Exclusive(ts) && CanStep(ts, i)
    ensures Exclusive(Step(ts, i))
  {
    var ts' := Step(ts, i);
    forall j, lock | 0 <= j < |ts| && j != i
      ensures Apart(ts'[i], ts[j], lock) && Apart(ts[j], ts'[i], lock)
    {
      assert Apart(ts[i], ts[j], lock) && Apart(ts[j], ts[i], lock);
    }
    forall j, k, lock | 0 <= j < |ts| && 0 <= k < |ts| && j != k
      ensures Apart(ts'[j], ts'[k], lock)
    {
      assert Apart(ts[j], ts[k], lock);
    }
  }

  /** A waiting writer is next: while it waits for a lock, no other request takes that lock, though readers
      may hold it. */
  lemma WriterIsNext(ts: seq<Thread>, i: nat, j: nat, lock: Lock)
    requires AllOk(ts) && Exclusive(ts) && CanStep(ts, i) && j < |ts| && j != i && ts[j].Awaits(lock)
    ensures Step(ts, i)[j] == ts[j] && (Step(ts, i)[i].Holds(lock) ==> ts[i].Holds(lock))
  {
    assert Apart(ts[i], ts[j], lock);
  }

  /** Readers do not wait for each other: a reader goes on exactly if no other request writes under the lock or
      waits to. */
  lemma ReadersShare(ts: seq<Thread>, i: nat, lock: Lock)
    requires AllOk(ts) && i < |ts| && !ts[i].Done() && ts[i].prog[ts[i].pc] == Acquire(lock, false)
    ensures CanStep(ts, i) <==> forall j | 0 <= j < |ts| && j != i ::
      && (ts[j].Holds(lock) ==> !Held(ts[j].prog, ts[j].pc)[lock])
      && !(ts[j].announced && ts[j].prog[ts[j].pc].lock == lock)
  {
    assert !ts[i].announced;
  }

  /** A request may arrive at any time. */
  lemma ArrivalKeeps(ts: seq<Thread>, prog: seq<Op>)
    requires AllOk(ts) && Exclusive(ts) && Disciplined(prog)
    ensures AllOk(ts + [Thread(prog, 0, false)]) && Exclusive(ts + [Thread(prog, 0, false)])
  {
    var all := ts + [Thread(prog, 0, false)];
    forall i, j, lock | 0 <= i < |all| && 0 <= j < |all| && i != j
      ensures Apart(all[i], all[j], lock)
    {
      if i < |ts| && j < |ts| {
        assert Apart(ts[i], ts[j], lock);
      }
    }
  }

  // ----- the requests

  function Around(lock: Lock, exclusive: bool, inner: seq<Op>): seq<Op> {
    [Acquire(lock, exclusive)] + inner + [Release(lock)]
  }

  /** Visits buckets one after the other. */
  function Buckets(indices: seq<nat>): seq<Op> {
    if indices == [] then []
    else Buckets(indices[..|indices| - 1]) + Around(BucketLock(indices[|indices| - 1]), true, [])
  }

  datatype Request =
    | ReadJobs                        // list or get jobs, tasks, logs
    | ChangeJob                       // create, delete, halt, resume, modify; terminate a job that is over
    | ReadNodes                       // list or get nodes
    | SwitchNode                      // online, offline
    | RegisterNode(bucket: nat)
    | Heartbeat(bucket: nat)
    | UpdateTasks
    | AcrossNodes(buckets: seq<nat>)  // terminate a job, check nodes, run a schedule cycle

  function Program(r: Request): seq<Op> {
    match r
    case ReadJobs => Around(StateLock, false, [])
    case ChangeJob => Around(StateLock, true, [])
    case ReadNodes => Around(NodesLock, false, [])
    case SwitchNode => Around(NodesLock, true, [])
    case RegisterNode(bucket) => Around(NodesLock, true, Buckets([bucket]))
    case Heartbeat(bucket) => Buckets([bucket])
    case UpdateTasks => Around(StateLock, true, Around(NodesLock, true, []))
    case AcrossNodes(buckets) => Around(StateLock, true, Around(NodesLock, true, Buckets(buckets)))
  }

  /** The operations stay above a level, and give back what they take. */
  ghost predicate Above(prog: seq<Op>, level: int) {
    Disciplined(prog) && forall n | 0 <= n < |prog| :: Level(prog[n].lock) > level
  }

  lemma {:induction false} HeldPrefix(prog: seq<Op>, more: seq<Op>, n: nat)
    requires n <= |prog|
    ensures Held(prog + more, n) == Held(prog, n)
  {
    if n > 0 {
      HeldPrefix(prog, more, n - 1);
    }
  }

  lemma {:induction false} HeldAbove(prog: seq<Op>, n: nat, level: int)
    requires n <= |prog| && Above(prog, level)
    ensures forall lock | lock in Held(prog, n) :: Level(lock) > level
  {
    if n > 0 {
      HeldAbove(prog, n - 1, level);
    }
  }

  /** Running operations with some locks held adds those locks, if the operations do not touch them. */
  lemma {:induction false} HeldAfter(before: seq<Op>, prog: seq<Op>, n: nat, level: int)
    requires n <= |prog| && Above(prog, level)
    requires forall lock | lock in Held(before, |before|) :: Level(lock) <= level
    ensures Held(before + prog, |before| + n) == Held(before, |before|) + Held(prog, n)
    ensures forall lock | lock in Held(prog, n) :: Level(lock) > level
  {
    if n == 0 {
      HeldPrefix(before, prog, |before|);
    } else {
      HeldAfter(before, prog, n - 1, level);
      HeldAbove(prog, n, level);
      HeldNext(before + prog, |before| + n, prog[n - 1]);
      HeldNext(prog, n, prog[n - 1]);
      MergeNext(Held(before, |before|), Held(prog, n - 1), prog[n - 1], level);
    }
  }

  /** The locks held after one more operation. */
  function Touched(held: map<Lock, bool>, op: Op): map<Lock, bool> {
    match op case Acquire(lock, exclusive) => held[lock := exclusive] case Release(lock) => held - {lock}
  }

  lemma HeldNext(prog: seq<Op>, n: nat, op: Op)
    requires 0 < n <= |prog| && prog[n - 1] == op
    ensures Held(prog, n) == Touched(Held(prog, n - 1), op)
  {
  }

  lemma MergeNext(low: map<Lock, bool>, high: map<Lock, bool>, op: Op, level: int)
    requires (forall lock | lock in low :: Level(lock) <= level) && Level(op.lock) > level
    ensures Touched(low + high, op) == low + Touched(high, op)
  {
  }

  lemma DisciplinedConcat(a: seq<Op>, b: seq<Op>, level: int)
    requires Above(a, level) && Above(b, level)
    ensures Above(a + b, level)
  {
    HeldPrefix(a, b, |a|);
    forall n | 0 <= n <= |b|
      ensures Held(a + b, |a| + n) == Held(b, n)
    {
      HeldAfterNone(a, b, n);
    }
    forall n, held | 0 <= n < |a + b| && (a + b)[n].Acquire? && held in Held(a + b, n)
      ensures Level(held) < Level((a + b)[n].lock)
    {
      if n < |a| {
        HeldPrefix(a, b, n);
      } else {
        assert Held(a + b, |a| + (n - |a|)) == Held(b, n - |a|);
      }
    }
    assert Held(a + b, |a| + |b|) == Held(b, |b|);
  }

  lemma {:induction false} HeldAfterNone(a: seq<Op>, b: seq<Op>, n: nat)
    requires Held(a, |a|) == map[] && n <= |b|
    ensures Held(a + b, |a| + n) == Held(b, n)
  {
    if n == 0 {
      HeldPrefix(a, b, |a|);
    } else {
      HeldAfterNone(a, b, n - 1);
    }
  }

  /** Around operations on higher locks, a lock is held from the first of them to the last. */
  lemma HeldAround(lock: Lock, exclusive: bool, inner: seq<Op>, n: nat)
    requires Above(inner, Level(lock)) && n <= |inner|
    ensures Held(Around(lock, exclusive, inner), 1 + n) == map[lock := exclusive] + Held(inner, n)
    ensures forall other | other in Held(inner, n) :: Level(other) > Level(lock)
  {
    var before := [Acquire(lock, exclusive)];
    assert Held(before, 1) == map[lock := exclusive];
    HeldAfter(before, inner, n, Level(lock));
    HeldPrefix(before + inner, [Release(lock)], 1 + n);
  }

  /** Taking a lock around operations on higher locks is disciplined. */
  lemma DisciplinedAround(lock: Lock, exclusive: bool, inner: seq<Op>, level: int)
    requires Above(inner, Level(lock)) && level < Level(lock)
    ensures Above(Around(lock, exclusive, inner), level)
  {
    var prog := Around(lock, exclusive, inner);
    forall n | 0 <= n <= |inner|
      ensures Held(prog, 1 + n) == map[lock := exclusive] + Held(inner, n)
      ensures forall other | other in Held(inner, n) :: Level(other) > Level(lock)
    {
      HeldAround(lock, exclusive, inner, n);
    }
    assert Held(prog, |prog| - 1) == map[lock := exclusive];
    assert Held(prog, |prog|) == map[];
    forall n, held | 0 <= n < |prog| && prog[n].Acquire? && held in Held(prog, n)
      ensures Level(held) < Level(prog[n].lock)
    {
      if n > 0 {
        assert prog[n] == inner[n - 1];
        assert Held(prog, 1 + (n - 1)) == map[lock := exclusive] + Held(inner, n - 1);
      }
    }
  }

  lemma {:induction false} BucketsAreDisciplined(indices: seq<nat>)
    ensures Above(Buckets(indices), 1)
  {
    if indices != [] {
      var last := indices[|indices| - 1];
      BucketsAreDisciplined(indices[..|indices| - 1]);
      DisciplinedAround(BucketLock(last), true, [], 1);
      DisciplinedConcat(Buckets(indices[..|indices| - 1]), Around(BucketLock(last), true, []), 1);
    }
  }

  /** Every request takes the locks in their order. */
  lemma RequestsAreDisciplined(r: Request)
    ensures Disciplined(Program(r))
  {
    match r
    case ReadJobs => DisciplinedAround(StateLock, false, [], -1);
    case ChangeJob => DisciplinedAround(StateLock, true, [], -1);
    case ReadNodes => DisciplinedAround(NodesLock, false, [], -1);
    case SwitchNode => DisciplinedAround(NodesLock, true, [], -1);
    case RegisterNode(bucket) =>
      BucketsAreDisciplined([bucket]);
      DisciplinedAround(NodesLock, true, Buckets([bucket]), -1);
    case Heartbeat(bucket) => BucketsAreDisciplined([bucket]);
    case UpdateTasks =>
      DisciplinedAround(NodesLock, true, [], 0);
      DisciplinedAround(StateLock, true, Around(NodesLock, true, []), -1);
    case AcrossNodes(buckets) =>
      BucketsAreDisciplined(buckets);
      DisciplinedAround(NodesLock, true, Buckets(buckets), 0);
      DisciplinedAround(StateLock, true, Around(NodesLock, true, Buckets(buckets)), -1);
  }

  /** Terminating a job, checking nodes and scheduling touch a bucket only while they write under the state lock
      and the nodes lock. */
  lemma BucketsAreGuarded(buckets: seq<nat>, n: nat)
    requires n < |Program(AcrossNodes(buckets))| && Program(AcrossNodes(buckets))[n].lock.BucketLock?
    ensures var held := Held(Program(AcrossNodes(buckets)), n);
      StateLock in held && held[StateLock] && NodesLock in held && held[NodesLock]
  {
    var inner, prog := Buckets(buckets), Program(AcrossNodes(buckets));
    var before, after := [Acquire(StateLock, true), Acquire(NodesLock, true)], [Release(NodesLock), Release(StateLock)];
    assert prog == before + inner + after;
    BucketsAreDisciplined(buckets);
    assert Held(before, 1) == map[StateLock := true];
    assert Held(before, 2) == map[StateLock := true, NodesLock := true];
    assert 2 <= n < 2 + |inner|;
    HeldAfter(before, inner, n - 2, 1);
    HeldPrefix(before + inner, after, n);
  }

  predicate ChangesJobs(r: Request) {
    r.ChangeJob? || r.UpdateTasks? || r.AcrossNodes?
  }

  /** A request that changes jobs writes under the state lock from its first operation to its last. */
  lemma ChangesHoldState(r: Request, n: nat)
    requires ChangesJobs(r) && 0 < n < |Program(r)|
    ensures StateLock in Held(Program(r), n) && Held(Program(r), n)[StateLock]
  {
    var inner := Program(r)[1..|Program(r)| - 1];
    assert Program(r) == Around(StateLock, true, inner);
    if r.UpdateTasks? {
      assert inner == Around(NodesLock, true, []);
      DisciplinedAround(NodesLock, true, [], 0);
    } else if r.AcrossNodes? {
      assert inner == Around(NodesLock, true, Buckets(r.buckets));
      BucketsAreDisciplined(r.buckets);
      DisciplinedAround(NodesLock, true, Buckets(r.buckets), 0);
    }
    HeldAround(StateLock, true, inner, n - 1);
  }

  // ----- runs of the server

  datatype Move = Arrive(request: Request) | Go(thread: nat)

  ghost predicate Possible(moves: seq<Move>)
    decreases |moves|, 0
  {
    moves != [] ==>
      var front, last := moves[..|moves| - 1], moves[|moves| - 1];
      Possible(front) && (last.Go? ==> CanStep(After(front), last.thread))
  }

  /** The threads after some moves, from a server without requests. */
  ghost function After(moves: seq<Move>): (ts: seq<Thread>)
    requires Possible(moves)
    ensures AllOk(ts) && Exclusive(ts)
    decreases |moves|, 1
  {
    if moves == [] then []
    else
      var before := After(moves[..|moves| - 1]);
      match moves[|moves| - 1]
      case Arrive(request) =>
        RequestsAreDisciplined(request);
        ArrivalKeeps(before, Program(request));
        before + [Thread(Program(request), 0, false)]
      case Go(thread) =>
        StepKeepsExclusive(before, thread);
        Step(before, thread)
  }

  /** Whatever requests arrive and however they interleave: as long as one is unfinished one can go on,
      and no two hold the same lock unless both read. */
  lemma ServerNeverDeadlocks(moves: seq<Move>, i: nat, j: nat, lock: Lock)
    requires Possible(moves)
    ensures (exists k :: 0 <= k < |After(moves)| && !After(moves)[k].Done()) ==>
      exists k :: 0 <= k < |After(moves)| && Possible(moves + [Go(k)])
    ensures i < |After(moves)| && j < |After(moves)| && i != j && After(moves)[i].HoldsAlone(lock) ==>
      !After(moves)[j].Holds(lock)
  {
    var ts := After(moves);
    if exists k :: 0 <= k < |ts| && !ts[k].Done() {
      NoDeadlock(ts);
      var k :| 0 <= k < |ts| && CanStep(ts, k);
      assert (moves + [Go(k)])[..|moves|] == moves;
      assert Possible(moves + [Go(k)]);
    }
    if i < |ts| && j < |ts| && i != j {
      assert Apart(ts[i], ts[j], lock);
    }
  }
  /** However requests interleave: those that change jobs come one after the other, and no jobs are read while
      one of them is under way. */
  lemma ChangesAreSerial(moves: seq<Move>, i: nat, j: nat, r: Request, q: Request)
    requires Possible(moves) && i < |After(moves)| && j < |After(moves)| && i != j
    requires After(moves)[i].prog == Program(r) && After(moves)[j].prog == Program(q)
    requires ChangesJobs(r) && (ChangesJobs(q) || q.ReadJobs?)
    ensures var a, b := After(moves)[i], After(moves)[j]; !(0 < a.pc < |a.prog|) || !(0 < b.pc < |b.prog|)
  {
    var a, b := After(moves)[i], After(moves)[j];
    assert Apart(a, b, StateLock);
    if 0 < a.pc < |a.prog| {
      ChangesHoldState(r, a.pc);
      if ChangesJobs(q) && 0 < b.pc < |b.prog| {
        ChangesHoldState(q, b.pc);
      } else {
        HeldAround(StateLock, false, [], 0);
      }
    }
  }
}
