/** Messages waiting for a node, the rule by which a new message withdraws waiting ones, and what a
    node receives over a whole history of appends and fetches. */
module Messages {
  import opened TaskIds
  import opened Tasks

  /** A ScheduleTask message carries the task as it was when it was scheduled; its object is the
      task's ID. The object of a TerminateJob message is the job's ID. */
  datatype Message = ScheduleTask(object_: string, task: Task) | TerminateJob(object_: string)

  /** Whether a waiting message may be sent together with a new one. */
  predicate Filter(msg: Message, other: Message) {
    msg.TerminateJob? && other.ScheduleTask? ==> !(msg.object_ <= other.object_)
  }

  /** The waiting messages that stay when `msg` arrives. */
  function Kept(box: seq<Message>, msg: Message): seq<Message> {
    if box == [] then []
    else
      var last := box[|box| - 1];
      Kept(box[..|box| - 1], msg) + if Filter(msg, last) then [last] else []
  }

  /** The waiting messages that `msg` withdraws. */
  function Withdrawn(box: seq<Message>, msg: Message): seq<Message> {
    if box == [] then []
    else
      var last := box[|box| - 1];
      Withdrawn(box[..|box| - 1], msg) + if Filter(msg, last) then [] else [last]
  }

  lemma KeptAppend(box: seq<Message>, m: Message, msg: Message)
    ensures Kept(box + [m], msg) == Kept(box, msg) + if Filter(msg, m) then [m] else []
    ensures Withdrawn(box + [m], msg) == Withdrawn(box, msg) + if Filter(msg, m) then [] else [m]
  {
    assert (box + [m])[..|box|] == box;
  }

  lemma {:induction false} KeptMembers(box: seq<Message>, msg: Message)
    ensures forall m :: m in Kept(box, msg) <==> m in box && Filter(msg, m)
    ensures forall m :: m in Withdrawn(box, msg) <==> m in box && !Filter(msg, m)
  {
    if box != [] {
      KeptMembers(box[..|box| - 1], msg);
    }
  }

  lemma {:induction false} NothingWithdrawn(box: seq<Message>, msg: Message)
    requires forall m | m in box :: Filter(msg, m)
    ensures Kept(box, msg) == box && Withdrawn(box, msg) == []
  {
    if box != [] {
      NothingWithdrawn(box[..|box| - 1], msg);
    }
  }

  /** A TerminateJob message withdraws exactly the scheduled tasks of the jobs whose ID it prefixes. */
  lemma TerminationWithdraws(job: string, owner: string, ref: TaskRef, task: Task)
    requires '.' !in job && '.' !in owner
    ensures Filter(TerminateJob(job), ScheduleTask(TaskId(owner, ref.group, ref.task), task)) <==> !(job <= owner)
  {
    PrefixSelectsJob(job, owner, ref.group, ref.task);
  }

  lemma {:induction false} KeptConcat(a: seq<Message>, b: seq<Message>, msg: Message)
    ensures Kept(a + b, msg) == Kept(a, msg) + Kept(b, msg)
    ensures Withdrawn(a + b, msg) == Withdrawn(a, msg) + Withdrawn(b, msg)
  {
    if b == [] {
      assert a + b == a;
    } else {
      var front, last := b[..|b| - 1], b[|b| - 1];
      assert a + b == (a + front) + [last] && b == front + [last];
      KeptConcat(a, front, msg);
      KeptAppend(a + front, last, msg);
      KeptAppend(front, last, msg);
      AppendAssoc(Kept(a, msg), Kept(front, msg), if Filter(msg, last) then [last] else []);
      AppendAssoc(Withdrawn(a, msg), Withdrawn(front, msg), if Filter(msg, last) then [] else [last]);
    }
  }

  lemma AppendAssoc(a: seq<Message>, b: seq<Message>, c: seq<Message>)
    ensures a + b + c == a + (b + c)
  {
  }

  /** Whether one waiting message stays does not depend on the others: only a termination withdraws, and
      only starts of tasks whose ID begins with the ID of its job. */
  lemma WithdrawnOneByOne(before: seq<Message>, m: Message, after: seq<Message>, msg: Message)
    ensures var gone := msg.TerminateJob? && m.ScheduleTask? && msg.object_ <= m.object_;
      && Kept(before + [m] + after, msg) == Kept(before, msg) + (if gone then [] else [m]) + Kept(after, msg)
      && Withdrawn(before + [m] + after, msg) ==
        Withdrawn(before, msg) + (if gone then [m] else []) + Withdrawn(after, msg)
  {
    KeptConcat(before + [m], after, msg);
    KeptAppend(before, m, msg);
  }

  /** The start of a task withdraws nothing. */
  lemma StartWithdrawsNothing(box: seq<Message>, object_: string, task: Task)
    ensures Kept(box, ScheduleTask(object_, task)) == box && Withdrawn(box, ScheduleTask(object_, task)) == []
  {
    NothingWithdrawn(box, ScheduleTask(object_, task));
  }

  // ----- histories of one mailbox

  datatype Event = Append(msg: Message) | Fetch

  datatype Mailbox = Mailbox(delivered: seq<Message>, pending: seq<Message>)

  /** The mailbox after a history that starts when its node registers. */
  function MailAfter(events: seq<Event>): Mailbox {
    if events == [] then Mailbox([], [])
    else
      var before := MailAfter(events[..|events| - 1]);
      match events[|events| - 1]
      case Append(msg) => Mailbox(before.delivered, Kept(before.pending, msg) + [msg])
      case Fetch => Mailbox(before.delivered + before.pending, [])
  }

  ghost predicate Fetched(events: seq<Event>, lo: nat, hi: nat)
    requires hi <= |events|
  {
    exists k | lo < k < hi :: events[k].Fetch?
  }

  /** The message appended at `j` withdraws the one appended at `i`: no fetch has taken it in between. */
  ghost predicate Withdraws(events: seq<Event>, j: nat, i: nat)
    requires i < j < |events|
  {
    events[i].Append? && events[j].Append? && !Filter(events[j].msg, events[i].msg) && !Fetched(events, i, j)
  }

  ghost predicate Survives(events: seq<Event>, i: nat) {
    i < |events| && events[i].Append? && forall j | i < j < |events| :: !Withdraws(events, j, i)
  }

  /** The surviving messages appended at positions `lo` to `hi`, in order. */
  ghost function Survivors(events: seq<Event>, lo: nat, hi: nat): seq<Message>
    requires lo <= hi <= |events|
  {
    if lo == hi then []
    else Survivors(events, lo, hi - 1) + if Survives(events, hi - 1) then [events[hi - 1].msg] else []
  }

  /** Position just after the last fetch. */
  function LastFetch(events: seq<Event>): (f: nat)
    ensures f <= |events|
    ensures f > 0 ==> events[f - 1].Fetch?
    ensures forall k | f <= k < |events| :: events[k].Append?
  {
    if events == [] || events[|events| - 1].Fetch? then |events|
    else LastFetch(events[..|events| - 1])
  }

  lemma FetchedExtends(events: seq<Event>, e: Event, lo: nat, hi: nat)
    requires hi <= |events|
    ensures Fetched(events + [e], lo, hi) <==> Fetched(events, lo, hi)
  {
    var longer := events + [e];
    assert forall k | lo < k < hi :: longer[k] == events[k];
  }

  lemma FetchedBeforeLast(events: seq<Event>, i: nat)
    requires i < |events| && events[i].Append?
    ensures Fetched(events, i, |events|) <==> i < LastFetch(events)
  {
    var f := LastFetch(events);
    if i < f {
      assert events[f - 1].Fetch?;
      assert i < f - 1 < |events|;
    }
  }

  /** Earlier survivals are unaffected by an event, except that an append may withdraw messages not yet fetched. */
  lemma SurvivesExtend(events: seq<Event>, e: Event, i: nat)
    requires i < |events|
    ensures Survives(events + [e], i) <==>
      && Survives(events, i)
      && (e.Append? && i >= LastFetch(events) ==> Filter(e.msg, events[i].msg))
  {
    var longer, n := events + [e], |events|;
    assert longer[i] == events[i] && longer[n] == e;
    if events[i].Append? {
      forall j | i < j < n
        ensures Withdraws(longer, j, i) <==> Withdraws(events, j, i)
      {
        FetchedExtends(events, e, i, j);
        assert longer[j] == events[j];
      }
      FetchedExtends(events, e, i, n);
      FetchedBeforeLast(events, i);
      assert Withdraws(longer, n, i) <==> e.Append? && !Filter(e.msg, events[i].msg) && i >= LastFetch(events);
    }
  }

  /** Before the last fetch an event changes nothing. */
  lemma {:induction false} FetchedSurvivors(events: seq<Event>, e: Event, hi: nat)
    requires hi <= LastFetch(events)
    ensures Survivors(events + [e], 0, hi) == Survivors(events, 0, hi)
  {
    if hi > 0 {
      FetchedSurvivors(events, e, hi - 1);
      SurvivesExtend(events, e, hi - 1);
    }
  }

  /** What an event leaves of messages not yet fetched. */
  function Sifted(box: seq<Message>, e: Event): seq<Message> {
    if e.Append? then Kept(box, e.msg) else box
  }

  lemma SiftedAppend(box: seq<Message>, m: Message, e: Event)
    ensures Sifted(box + [m], e) == Sifted(box, e) + if e.Append? ==> Filter(e.msg, m) then [m] else []
  {
    if e.Append? {
      KeptAppend(box, m, e.msg);
    }
  }

  /** After the last fetch an append filters what survives. */
  lemma {:induction false} PendingSurvivors(events: seq<Event>, e: Event, hi: nat)
    requires LastFetch(events) <= hi <= |events|
    ensures Survivors(events + [e], LastFetch(events), hi) == Sifted(Survivors(events, LastFetch(events), hi), e)
  {
    var f := LastFetch(events);
    if f < hi {
      PendingSurvivors(events, e, hi - 1);
      SurvivesExtend(events, e, hi - 1);
      assert (events + [e])[hi - 1] == events[hi - 1];
      if Survives(events, hi - 1) {
        SiftedAppend(Survivors(events, f, hi - 1), events[hi - 1].msg, e);
      } else {
        assert Survivors(events, f, hi) == Survivors(events, f, hi - 1);
      }
    }
  }

  lemma {:induction false} SurvivorsSplit(events: seq<Event>, mid: nat, hi: nat)
    requires mid <= hi <= |events|
    ensures Survivors(events, 0, hi) == Survivors(events, 0, mid) + Survivors(events, mid, hi)
  {
    if mid < hi {
      SurvivorsSplit(events, mid, hi - 1);
    }
  }

  lemma {:induction false} DeliveredAndPending(events: seq<Event>)
    ensures MailAfter(events).delivered == Survivors(events, 0, LastFetch(events))
    ensures MailAfter(events).pending == Survivors(events, LastFetch(events), |events|)
  {
    if events != [] {
      var n := |events| - 1;
      var front, e := events[..n], events[n];
      var f := LastFetch(front);
      DeliveredAndPending(front);
      assert events == front + [e];
      FetchedSurvivors(front, e, f);
      PendingSurvivors(front, e, n);
      if e.Fetch? {
        SurvivorsSplit(events, f, n);
        assert Survivors(events, 0, n + 1) == Survivors(events, 0, n);
      } else {
        assert Survives(events, n);
        assert LastFetch(events) == f;
      }
    }
  }

  /** What a node has received, followed by what still waits, is the sequence of appended messages in
      order, without exactly those withdrawn by a later message before any fetch. */
  lemma MailboxDelivers(events: seq<Event>)
    ensures MailAfter(events).delivered + MailAfter(events).pending == Survivors(events, 0, |events|)
  {
    DeliveredAndPending(events);
    SurvivorsSplit(events, LastFetch(events), |events|);
  }

  /** A message appended at `i` reaches the node, or waits for it, unless it starts a task and a message that
      terminates a job whose ID begins the task's is appended later, before any fetch. */
  lemma SurvivesExactly(events: seq<Event>, i: nat)
    requires i < |events| && events[i].Append?
    ensures Survives(events, i) <==>
      !exists j | i < j < |events| ::
        && events[j].Append? && events[j].msg.TerminateJob? && events[i].msg.ScheduleTask?
        && events[j].msg.object_ <= events[i].msg.object_
        && forall k | i < k < j :: events[k].Append?
  {
    forall j | i < j < |events|
      ensures Withdraws(events, j, i) <==>
        && events[j].Append? && events[j].msg.TerminateJob? && events[i].msg.ScheduleTask?
        && events[j].msg.object_ <= events[i].msg.object_
        && forall k | i < k < j :: events[k].Append?
    {
      assert Fetched(events, i, j) <==> exists k | i < k < j :: !events[k].Append?;
    }
  }

  /** The jobs that some messages terminate, in order. */
  function Terminations(msgs: seq<Message>): seq<string> {
    if msgs == [] then []
    else
      var last := msgs[|msgs| - 1];
      Terminations(msgs[..|msgs| - 1]) + if last.TerminateJob? then [last.object_] else []
  }

  /** All messages appended in a history, in order. */
  function Appended(events: seq<Event>): seq<Message> {
    if events == [] then []
    else
      var last := events[|events| - 1];
      Appended(events[..|events| - 1]) + if last.Append? then [last.msg] else []
  }

  lemma {:induction false} TerminationsConcat(a: seq<Message>, b: seq<Message>)
    ensures Terminations(a + b) == Terminations(a) + Terminations(b)
  {
    if b == [] {
      assert a + b == a;
    } else {
      assert (a + b)[..|a + b| - 1] == a + b[..|b| - 1];
      TerminationsConcat(a, b[..|b| - 1]);
    }
  }

  lemma {:induction false} KeptTerminations(box: seq<Message>, msg: Message)
    ensures Terminations(Kept(box, msg)) == Terminations(box)
  {
    if box != [] {
      var front, last := box[..|box| - 1], box[|box| - 1];
      KeptTerminations(front, msg);
      if Filter(msg, last) {
        TerminationsConcat(Kept(front, msg), [last]);
      } else {
        assert Kept(box, msg) == Kept(front, msg) && Terminations(front) + [] == Terminations(front);
      }
    }
  }

  /** No termination is ever withdrawn: over any history, those a node has received and those that wait for
      it are all that were appended, in order. */
  lemma {:induction false} TerminationsArrive(events: seq<Event>)
    ensures var mail := MailAfter(events);
      Terminations(mail.delivered + mail.pending) == Terminations(Appended(events))
  {
    if events != [] {
      var front, last := events[..|events| - 1], events[|events| - 1];
      var before := MailAfter(front);
      TerminationsArrive(front);
      TerminationsConcat(before.delivered, before.pending);
      if last.Append? {
        var kept := Kept(before.pending, last.msg);
        KeptTerminations(before.pending, last.msg);
        TerminationsConcat(kept, [last.msg]);
        TerminationsConcat(before.delivered, kept + [last.msg]);
        TerminationsConcat(Appended(front), [last.msg]);
      } else {
        assert before.delivered + before.pending + [] == before.delivered + before.pending;
        assert Appended(events) == Appended(front);
      }
    }
  }

  /** No message would withdraw one that stands before it. */
  ghost predicate Compatible(box: seq<Message>) {
    forall i, j | 0 <= i < j < |box| :: Filter(box[j], box[i])
  }

  lemma CompatibleAppend(box: seq<Message>, m: Message)
    requires Compatible(box) && forall other | other in box :: Filter(m, other)
    ensures Compatible(box + [m])
  {
  }

  lemma {:induction false} KeptCompatible(box: seq<Message>, msg: Message)
    requires Compatible(box)
    ensures Compatible(Kept(box, msg))
  {
    if box != [] {
      var front, last := box[..|box| - 1], box[|box| - 1];
      KeptCompatible(front, msg);
      KeptMembers(front, msg);
      assert forall m | m in front :: Filter(last, m);
      if Filter(msg, last) {
        CompatibleAppend(Kept(front, msg), last);
      }
    }
  }

  /** What waits for a node is always compatible. */
  lemma {:induction false} PendingIsCompatible(events: seq<Event>)
    ensures Compatible(MailAfter(events).pending)
  {
    if events != [] && events[|events| - 1].Append? {
      PendingIsCompatible(events[..|events| - 1]);
      var box, msg := MailAfter(events[..|events| - 1]).pending, events[|events| - 1].msg;
      KeptCompatible(box, msg);
      KeptMembers(box, msg);
      CompatibleAppend(Kept(box, msg), msg);
    }
  }
}
