/** The order in which a schedule cycle considers tasks, and when its loop over priorities ends. */
module ScheduleOrders {
  import opened Resources
  import opened TaskIds
  import opened Tasks
  import opened Jobs
  import opened Scheduling

  /** A job of an enabled queue, as one cycle sees it. */
  datatype Snap = Snap(queue: string, queuePriority: int, id: string, rec: JobRec, totalTasks: int)

  /** One task of a job, considered. */
  datatype Entry = Entry(snap: Snap, candidate: Candidate)

  function CandidateFor(snap: Snap, ref: TaskRef): Candidate
    requires Within(snap.rec.groups, ref)
  {
    var task := TaskAt(snap.rec.groups, ref);
    Candidate(snap.id, ref, task.labels, task.taints, task.resources)
  }

  function CandidatesIn(es: seq<Entry>): (cs: seq<Candidate>)
    ensures |cs| == |es| && forall k | 0 <= k < |es| :: cs[k] == es[k].candidate
  {
    seq(|es|, k requires 0 <= k < |es| => es[k].candidate)
  }

  lemma CandidatesConcat(cs: seq<Candidate>, es: seq<Entry>, more: seq<Entry>)
    ensures cs + CandidatesIn(es) + CandidatesIn(more) == cs + CandidatesIn(es + more)
  {
  }

  /** Queues by priority; in a queue jobs by priority, then earlier submission, then fewer tasks. */
  predicate JobBefore(a: Snap, b: Snap) {
    || a.queuePriority > b.queuePriority
    || (a.queuePriority == b.queuePriority && (a.queue != b.queue
        || a.rec.priority > b.rec.priority
        || (a.rec.priority == b.rec.priority && (a.rec.submitTime < b.rec.submitTime
            || (a.rec.submitTime == b.rec.submitTime && a.totalTasks <= b.totalTasks)))))
  }

  /** Inside one job, tasks that need more GPU cards come first. */
  predicate Before(a: Entry, b: Entry) {
    if a.snap.id == b.snap.id then a.candidate.demand.cards >= b.candidate.demand.cards else JobBefore(a.snap, b.snap)
  }

  ghost predicate Ordered(es: seq<Entry>) {
    forall i, j | 0 <= i < j < |es| :: Before(es[i], es[j])
  }

  ghost predicate NoTaskTwice(es: seq<Entry>) {
    forall i, j | 0 <= i < j < |es| :: !(es[i].snap.id == es[j].snap.id && es[i].candidate.ref == es[j].candidate.ref)
  }

  /** The entry of a task that may be scheduled now. */
  ghost predicate Schedules(e: Entry) {
    TaskSchedulable(e.snap.rec.groups, e.candidate.ref) && e.candidate == CandidateFor(e.snap, e.candidate.ref)
  }

  /** The entries are exactly the schedulable tasks of these jobs, each once, in order. */
  ghost predicate Enumerates(es: seq<Entry>, snaps: seq<Snap>) {
    && (forall e | e in es :: e.snap in snaps && Schedules(e))
    && (forall snap, ref | snap in snaps && TaskSchedulable(snap.rec.groups, ref) ::
      Entry(snap, CandidateFor(snap, ref)) in es)
    && Ordered(es) && NoTaskTwice(es)
  }

  lemma EnumeratesConcat(es: seq<Entry>, snaps: seq<Snap>, more: seq<Entry>, snaps': seq<Snap>)
    requires Enumerates(es, snaps) && Enumerates(more, snaps')
    requires forall a, b | a in snaps && b in snaps' :: a.id != b.id && JobBefore(a, b)
    ensures Enumerates(es + more, snaps + snaps')
  {
    var all := es + more;
    forall i, j | 0 <= i < j < |all|
      ensures Before(all[i], all[j])
      ensures !(all[i].snap.id == all[j].snap.id && all[i].candidate.ref == all[j].candidate.ref)
    {
      if i < |es| <= j {
        assert all[i] in es && all[j] in more;
      }
    }
    assert forall snap :: snap in snaps + snaps' <==> snap in snaps || snap in snaps';
  }

  // ----- the loop that drains one priority class after another

  lemma SomePriority(keys: set<int>)
    requires keys != {}
    ensures exists p :: p in keys
  {
    var p := SomeElement(keys);
    assert p in keys;
  }

  lemma SomeElement<T>(s: set<T>) returns (x: T)
    requires s != {}
    ensures x in s
  {
    x :| x in s;
  }

  predicate IsGreatest(m: int, keys: set<int>) {
    m in keys && forall k | k in keys :: k <= m
  }

  /** The greatest of the keys and 0: the search for the highest priority starts from 0. */
  ghost function Highest(keys: set<int>): (p: int)
    ensures p >= 0 && (p != 0 ==> p in keys)
    ensures forall k | k in keys :: k <= p
  {
    if exists m :: IsGreatest(m, keys) && m > 0 then
      var m :| IsGreatest(m, keys) && m > 0; m
    else
      NonePositive(keys);
      0
  }

  lemma NonePositive(keys: set<int>)
    requires forall m | IsGreatest(m, keys) :: m <= 0
    ensures forall k | k in keys :: k <= 0
  {
    forall k | k in keys
      ensures k <= 0
    {
      var m := GreatestOf(keys, k);
    }
  }

  lemma {:induction false} GreatestOf(keys: set<int>, x: int) returns (m: int)
    requires x in keys
    ensures IsGreatest(m, keys)
    decreases keys
  {
    m := x;
    if y :| y in keys && y > x {
      m := GreatestOf(keys - {x}, y);
      assert forall k | k in keys :: k == x || k in keys - {x};
    }
  }

  /** The priority classes left after some rounds of the loop. */
  ghost function Remaining(keys: set<int>, rounds: nat): set<int> {
    if rounds == 0 then keys
    else var left := Remaining(keys, rounds - 1); left - {Highest(left)}
  }

  lemma {:induction false} NegativeRemains(keys: set<int>, rounds: nat, p: int)
    requires p in keys && p < 0
    ensures p in Remaining(keys, rounds)
  {
    if rounds > 0 {
      NegativeRemains(keys, rounds - 1, p);
    }
  }

  lemma {:induction false} NonNegativeShrinks(keys: set<int>, rounds: nat)
    requires forall p | p in keys :: p >= 0
    ensures Remaining(keys, rounds) <= keys
    ensures |Remaining(keys, rounds)| <= if rounds <= |keys| then |keys| - rounds else 0
  {
    if rounds > 0 {
      NonNegativeShrinks(keys, rounds - 1);
      var left := Remaining(keys, rounds - 1);
      if left != {} {
        var p :| p in left;
        assert Highest(left) in left;
      }
    }
  }

  /** The loop ends exactly when no schedulable job has a negative priority: each round then removes a
      class, and otherwise a negative class is never chosen. */
  lemma DrainEnds(keys: set<int>)
    ensures (exists rounds: nat :: Remaining(keys, rounds) == {}) <==> forall p | p in keys :: p >= 0
  {
    if forall p | p in keys :: p >= 0 {
      NonNegativeShrinks(keys, |keys|);
      assert Remaining(keys, |keys|) == {};
    } else {
      var p :| p in keys && p < 0;
      forall rounds: nat
        ensures Remaining(keys, rounds) != {}
      {
        NegativeRemains(keys, rounds, p);
      }
    }
  }
}
