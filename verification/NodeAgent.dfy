/** The service on a node: it folds the updates of its tasks into one report per task between
    heartbeats, tracks what executes, and survives failed sends. */
module NodeAgents {
  import opened Resources
  import opened TaskIds
  import opened Tasks
  import opened Messages
  import opened NodeCaches

  datatype TaskProcess = TaskProcess(process: int, killed: bool)

  /** An update of a task; its first one carries the process. */
  datatype TaskUpdate = TaskUpdate(status: TaskReport, process: Option<int>)

  /** How a heartbeat ends: the answer of the server, or where it failed. */
  datatype Outcome = MarshalFailed | PostFailed | Replied(msgs: seq<Message>, notFound: bool)

  /** How an attempt to register ends. */
  datatype Registration = Unreachable | Refused | Registered

  const MAX_ERRORS := 8

  // ----- folding updates

  /** The entry of a task after one more update: an update that brings no new state refreshes the
      progress, any other replaces the entry; error texts are kept, joined by semicolons. */
  function Merged(last: Option<TaskReport>, update: TaskReport): TaskReport {
    if last.Some? && last.value.state == update.state then
      last.value.(progress := update.progress, error := JoinError(last.value.error, update.error))
    else if last.Some? then update.(error := JoinError(last.value.error, update.error))
    else update
  }

  function JoinError(before: string, more: string): string {
    if more == "" then before else if before == "" then more else before + ";" + more
  }

  /** A task that fails after its process was killed counts as terminated. */
  function Recorded(update: TaskReport, proc: Option<TaskProcess>): TaskState {
    if update.state == TaskFailed && proc.Some? && proc.value.killed then TaskTerminated else update.state
  }

  function Lookup<T>(m: map<string, T>, id: string): Option<T> {
    if id in m then Some(m[id]) else None
  }

  /** What the service remembers of its tasks. */
  datatype Board = Board(payload: map<string, TaskReport>, executings: map<string, TaskProcess>)

  function Updated(b: Board, u: TaskUpdate): Board {
    var id, proc := u.status.id, Lookup(b.executings, u.status.id);
    var entry := Merged(Lookup(b.payload, id), u.status).(id := id, state := Recorded(u.status, proc));
    Board(b.payload[id := entry], Tracked(b.executings, u))
  }

  function Tracked(executings: map<string, TaskProcess>, u: TaskUpdate): map<string, TaskProcess> {
    var id := u.status.id;
    if id in executings then if u.status.state == TaskExecuting then executings else executings - {id}
    else if u.status.state == TaskExecuting && u.process.Some?
    then executings[id := TaskProcess(u.process.value, false)]
    else executings
  }

  /** Some message of these terminates the job of the task. */
  ghost predicate Ends(msgs: seq<Message>, id: string) {
    exists m :: m in msgs && m.TerminateJob? && m.object_ <= id
  }

  /** The processes of the ended jobs are killed, except those that cannot be. */
  ghost function KilledBy(executings: map<string, TaskProcess>, msgs: seq<Message>, immune: set<int>)
    : map<string, TaskProcess>
  {
    map id | id in executings :: MarkedIf(executings[id], Ends(msgs, id) && executings[id].process !in immune)
  }

  function MarkedIf(proc: TaskProcess, killed: bool): TaskProcess {
    if killed then proc.(killed := true) else proc
  }

  class NodeServer {
    var state: NodeState
    var errors: nat
    var payload: map<string, TaskReport>
    var executings: map<string, TaskProcess>

    constructor ()
      ensures Valid() && state == NodeUnknown && Seen() == Board(map[], map[])
    {
      state, errors, payload, executings := NodeUnknown, 0, map[], map[];
    }

    /** Each report is filed under its own task; a node gives up before it counts more failures. */
    predicate Valid()
      reads this
    {
      (forall id | id in payload :: payload[id].id == id) && errors <= MAX_ERRORS
    }

    function Seen(): Board
      reads this
    {
      Board(payload, executings)
    }

    method HandleUpdate(update: TaskUpdate)
      requires Valid()
      modifies this`payload, this`executings
      ensures Valid() && Seen() == Updated(old(Seen()), update)
    {
      FileUpdate(update.status);
      TrackProcess(update);
    }

    /** Merges a report into the one that waits for the same task. */
    method FileUpdate(update: TaskReport)
      requires Valid()
      modifies this`payload
      ensures Valid()
        && payload == old(payload)[update.id := Merged(Lookup(old(payload), update.id), update).(id := update.id)]
    {
      var status := update;
      if status.id in payload && payload[status.id].state == status.state {
        var last := payload[status.id].(progress := status.progress);
        if |status.error| > 0 {
          if |last.error| == 0 {
            last := last.(error := status.error);
          } else {
            last := last.(error := last.error + ";" + status.error);
          }
        }
        payload := payload[status.id := last];
      } else {
        if status.id in payload && |payload[status.id].error| != 0 {
          if |status.error| == 0 {
            status := status.(error := payload[status.id].error);
          } else {
            status := status.(error := payload[status.id].error + ";" + status.error);
          }
        }
        payload := payload[status.id := status];
      }
    }

    /** Starts or ends to keep a process; a failure after a kill is reported as a termination. */
    method TrackProcess(update: TaskUpdate)
      requires Valid() && update.status.id in payload
      modifies this`payload, this`executings
      ensures Valid() && executings == Tracked(old(executings), update)
      ensures var id := update.status.id; var state := Recorded(update.status, Lookup(old(executings), id));
        payload ==
          if state == update.status.state then old(payload) else old(payload)[id := old(payload)[id].(state := state)]
    {
      var status := update.status;
      if status.id in executings {
        if status.state != TaskExecuting {
          if status.state == TaskFailed && executings[status.id].killed {
            payload := payload[status.id := payload[status.id].(state := TaskTerminated)];
          }
          executings := executings - {status.id};
        }
      } else if status.state == TaskExecuting && update.process.Some? {
        executings := executings[status.id := TaskProcess(update.process.value, false)];
      }
    }

    /** The reports waiting to be sent, in some order, each once; none waits any more. */
    method TakePayload() returns (reports: seq<TaskReport>)
      requires Valid()
      modifies this`payload
      ensures payload == map[]
      ensures forall r :: r in reports <==> r.id in old(payload) && old(payload)[r.id] == r
      ensures forall i, j | 0 <= i < j < |reports| :: reports[i].id != reports[j].id
    {
      reports := [];
      var left := payload.Keys;
      while left != {}
        invariant left <= payload.Keys
        invariant forall r :: r in reports <==> r.id in payload && r.id !in left && payload[r.id] == r
        invariant forall i, j | 0 <= i < j < |reports| :: reports[i].id != reports[j].id
      {
        var id :| id in left;
        assert forall r | r in reports :: r.id != id;
        reports := reports + [payload[id]];
        left := left - {id};
      }
      payload := map[];
    }

    /** A failed send puts the reports back. */
    method RestorePayload(reports: seq<TaskReport>)
      modifies this`payload
      ensures forall id :: id in payload <==> id in old(payload) || exists r :: r in reports && r.id == id
      ensures forall r | r in reports && (forall other | other in reports && other.id == r.id :: other == r) ::
        payload[r.id] == r
      ensures forall id | id in old(payload) && (forall r | r in reports :: r.id != id) ::
        payload[id] == old(payload)[id]
    {
      for i := 0 to |reports|
        invariant forall id :: id in payload <==> id in old(payload) || exists r :: r in reports[..i] && r.id == id
        invariant forall r | r in reports[..i] ::
          exists other :: other in reports[..i] && other.id == r.id && payload[r.id] == other
        invariant forall id | id in old(payload) && (forall r | r in reports[..i] :: r.id != id) ::
          payload[id] == old(payload)[id]
      {
        assert reports[..i + 1] == reports[..i] + [reports[i]];
        payload := payload[reports[i].id := reports[i]];
        assert reports[i] in reports[..i + 1];
      }
      assert reports[..|reports|] == reports;
    }

    /** Runs the messages of the server: tasks to start are handed on, processes of ended jobs killed. */
    method RunServerMessages(msgs: seq<Message>, immune: set<int>) returns (started: seq<Task>)
      modifies this`executings
      ensures executings == KilledBy(old(executings), msgs, immune)
      ensures started == TasksOf(msgs)
    {
      started := [];
      ghost var was := executings;
      for i := 0 to |msgs|
        invariant executings == KilledBy(was, msgs[..i], immune) && started == TasksOf(msgs[..i])
      {
        assert msgs[..i + 1][..i] == msgs[..i];
        EndsAppend(msgs[..i], msgs[i]);
        assert msgs[..i + 1] == msgs[..i] + [msgs[i]];
        match msgs[i]
        case ScheduleTask(_, task) => started := started + [task];
        case TerminateJob(job) => KillJob(job, immune);
      }
      assert msgs[..|msgs|] == msgs;
    }

    method KillJob(job: string, immune: set<int>)
      modifies this`executings
      ensures executings == KilledBy(old(executings), [TerminateJob(job)], immune)
    {
      var was, left := executings, executings.Keys;
      while left != {}
        invariant left <= was.Keys && executings.Keys == was.Keys
        invariant forall id | id in was ::
          executings[id] == if id in left then was[id] else MarkedIf(was[id], job <= id && was[id].process !in immune)
      {
        var id :| id in left;
        var proc := executings[id];
        if job <= id && proc.process !in immune {
          executings := executings[id := TaskProcess(proc.process, true)];
        }
        left := left - {id};
      }
      forall id
        ensures Ends([TerminateJob(job)], id) <==> job <= id
      {
        assert TerminateJob(job) in [TerminateJob(job)];
      }
    }

    /** Sends what waits. A reply takes it, and so does a request that cannot be built; a request that
        cannot be sent leaves it as it was. */
    method SendHeartbeat(outcome: Outcome, immune: set<int>)
      returns (sent: seq<TaskReport>, started: seq<Task>, ok: bool)
      requires Valid()
      modifies this`payload, this`executings
      ensures Valid()
      ensures payload == if outcome.PostFailed? then old(payload) else map[]
      ensures executings ==
        if outcome.Replied? then KilledBy(old(executings), outcome.msgs, immune) else old(executings)
      ensures started == if outcome.Replied? then TasksOf(outcome.msgs) else []
      ensures forall r :: r in sent <==> r.id in old(payload) && old(payload)[r.id] == r
      ensures ok <==> outcome.Replied? && !outcome.notFound
    {
      started := [];
      sent := TakePayload();
      match outcome
      case MarshalFailed => ok := false;
      case PostFailed =>
        RestorePayload(sent);
        SameReports(old(payload), payload, sent);
        ok := false;
      case Replied(msgs, notFound) =>
        started := RunServerMessages(msgs, immune);
        ok := !notFound;
    }

    /** The timer: an unknown node tries to register, an online one sends a heartbeat. After more than
        8 failures in a row everything is forgotten and the node becomes unknown. */
    method OnTimer(registration: Registration, outcome: Outcome, immune: set<int>)
      requires Valid()
      modifies this
      ensures Valid()
      ensures Health(state, errors) == Ticked(old(Health(state, errors)), registration, outcome)
      ensures Seen() == TickedBoard(old(Health(state, errors)), old(Seen()), outcome, immune)
    {
      if state == NodeUnknown {
        if registration == Registered {
          state, errors := NodeOnline, 0;
        }
      } else if state == NodeOnline {
        var sent, started, ok := SendHeartbeat(outcome, immune);
        if ok {
          errors := 0;
        } else if outcome.Replied? {
          state, errors := NodeUnknown, 0;
        } else if errors + 1 > MAX_ERRORS {
          state, errors := NodeUnknown, 0;
          executings, payload := map[], map[];
        } else {
          errors := errors + 1;
        }
      }
    }
  }

  /** The state of the node and the number of heartbeats that failed in a row. */
  datatype Health = Health(state: NodeState, errors: nat)

  function Ticked(h: Health, registration: Registration, outcome: Outcome): Health {
    match h.state
    case NodeUnknown => if registration == Registered then Health(NodeOnline, 0) else h
    case NodeOffline => h
    case NodeOnline =>
      match outcome
      case Replied(_, notFound) => Health(if notFound then NodeUnknown else NodeOnline, 0)
      case _ => if h.errors < MAX_ERRORS then h.(errors := h.errors + 1) else Health(NodeUnknown, 0)
  }

  ghost function TickedBoard(h: Health, b: Board, outcome: Outcome, immune: set<int>): Board {
    if h.state != NodeOnline then b
    else match outcome
      case Replied(msgs, _) => Board(map[], KilledBy(b.executings, msgs, immune))
      case MarshalFailed => if h.errors < MAX_ERRORS then b.(payload := map[]) else Board(map[], map[])
      case PostFailed => if h.errors < MAX_ERRORS then b else Board(map[], map[])
  }

  function TasksOf(msgs: seq<Message>): seq<Task> {
    if msgs == [] then []
    else TasksOf(msgs[..|msgs| - 1]) + if msgs[|msgs| - 1].ScheduleTask? then [msgs[|msgs| - 1].task] else []
  }

  lemma EndsAppend(msgs: seq<Message>, m: Message)
    ensures forall id :: Ends(msgs + [m], id) <==> Ends(msgs, id) || (m.TerminateJob? && m.object_ <= id)
    ensures forall executings, immune ::
      KilledBy(executings, msgs + [m], immune) == KilledBy(KilledBy(executings, msgs, immune), [m], immune)
  {
  }

  lemma SameReports(before: map<string, TaskReport>, after: map<string, TaskReport>, reports: seq<TaskReport>)
    requires forall r :: r in reports <==> r.id in before && before[r.id] == r
    requires forall id | id in before :: before[id].id == id
    requires forall id :: id in after <==> exists r :: r in reports && r.id == id
    requires forall r | r in reports && (forall other | other in reports && other.id == r.id :: other == r) ::
      after[r.id] == r
    ensures after == before
  {
    forall id | id in before
      ensures id in after && after[id] == before[id]
    {
      assert before[id] in reports;
    }
    forall id | id in after
      ensures id in before
    {
      var r :| r in reports && r.id == id;
    }
  }

  // ----- whole histories

  datatype Event = Update(update: TaskUpdate) | Tick(registration: Registration, outcome: Outcome, immune: set<int>)

  datatype Agent = Agent(health: Health, board: Board)

  ghost function AgentAfter(events: seq<Event>): Agent {
    if events == [] then Agent(Health(NodeUnknown, 0), Board(map[], map[]))
    else
      var before := AgentAfter(events[..|events| - 1]);
      match events[|events| - 1]
      case Update(u) => before.(board := Updated(before.board, u))
      case Tick(registration, outcome, immune) =>
        Agent(Ticked(before.health, registration, outcome), TickedBoard(before.health, before.board, outcome, immune))
  }

  /** The timer empties the payload: a heartbeat took it, or the node gave up. */
  predicate Empties(h: Health, e: Event) {
    e.Tick? && h.state == NodeOnline && !(e.outcome.PostFailed? && h.errors < MAX_ERRORS)
  }

  /** The node gives up: it forgets what executes. */
  predicate GivesUp(h: Health, e: Event) {
    e.Tick? && h.state == NodeOnline && !e.outcome.Replied? && h.errors >= MAX_ERRORS
  }

  /** An update, and the state it was recorded under. */
  datatype Note = Note(status: TaskReport, recorded: TaskState)

  /** The updates of a task since the payload was last emptied. */
  ghost function Since(events: seq<Event>, id: string): seq<Note> {
    if events == [] then []
    else
      var front, last := events[..|events| - 1], events[|events| - 1];
      var before := AgentAfter(front);
      if Empties(before.health, last) then []
      else if last.Update? && last.update.status.id == id then
        Since(front, id) + [Note(last.update.status, Recorded(last.update.status, Lookup(before.board.executings, id)))]
      else Since(front, id)
  }

  /** The error texts that say something, in order. */
  function Texts(notes: seq<Note>): seq<string> {
    if notes == [] then []
    else
      var error := notes[|notes| - 1].status.error;
      Texts(notes[..|notes| - 1]) + (if error == "" then [] else [error])
  }

  function Joined(texts: seq<string>): string {
    if texts == [] then ""
    else if |texts| == 1 then texts[0]
    else Joined(texts[..|texts| - 1]) + ";" + texts[|texts| - 1]
  }

  lemma {:induction false} JoinedSays(notes: seq<Note>)
    ensures forall k | 0 <= k < |Texts(notes)| :: Texts(notes)[k] != ""
    ensures Joined(Texts(notes)) == "" <==> Texts(notes) == []
  {
    if notes != [] {
      JoinedSays(notes[..|notes| - 1]);
    }
  }

  lemma JoinNext(notes: seq<Note>, n: Note)
    ensures Joined(Texts(notes + [n])) == JoinError(Joined(Texts(notes)), n.status.error)
  {
    assert (notes + [n])[..|notes|] == notes;
    JoinedSays(notes);
    var texts := Texts(notes);
    if n.status.error != "" {
      assert (texts + [n.status.error])[..|texts|] == texts;
    } else {
      assert texts + [] == texts;
    }
  }

  /** The exit code of the update that brought the last state: later ones that repeat it do not count. */
  function ExitOf(notes: seq<Note>): int
    requires notes != []
  {
    var last := notes[|notes| - 1];
    if |notes| > 1 && notes[|notes| - 2].recorded == last.status.state
    then ExitOf(notes[..|notes| - 1]) else last.status.exitCode
  }

  /** What the next heartbeat will say of a task: the fold of its updates since the last one. */
  ghost predicate Folds(entry: TaskReport, id: string, notes: seq<Note>)
    requires notes != []
  {
    var last := notes[|notes| - 1];
    entry == TaskReport(id, last.recorded, last.status.progress, ExitOf(notes), Joined(Texts(notes)))
  }

  lemma FoldNext(entry: Option<TaskReport>, id: string, notes: seq<Note>, n: Note)
    requires entry.Some? <==> notes != []
    requires entry.Some? ==> Folds(entry.value, id, notes)
    requires n.status.id == id
    ensures Folds(Merged(entry, n.status).(id := id, state := n.recorded), id, notes + [n])
  {
    JoinNext(notes, n);
    var all := notes + [n];
    assert all[..|notes|] == notes;
    if notes != [] {
      assert all[|all| - 2] == notes[|notes| - 1];
    }
  }

  /** The merged report of every task is the fold of its updates since the payload was last emptied;
      tasks without updates have none. */
  lemma {:induction false} PayloadIsFold(events: seq<Event>, id: string)
    ensures var payload, notes := AgentAfter(events).board.payload, Since(events, id);
      && (id in payload <==> notes != [])
      && (id in payload ==> Folds(payload[id], id, notes))
  {
    if events != [] {
      var front, last := events[..|events| - 1], events[|events| - 1];
      var before := AgentAfter(front);
      PayloadIsFold(front, id);
      if last.Update? && last.update.status.id == id {
        FoldNext(Lookup(before.board.payload, id), id, Since(front, id),
                 Note(last.update.status, Recorded(last.update.status, Lookup(before.board.executings, id))));
      }
    }
  }

  /** The state of the last update of a task since the node last gave up. */
  ghost function LastState(events: seq<Event>, id: string): Option<TaskState> {
    if events == [] then None
    else
      var front, last := events[..|events| - 1], events[|events| - 1];
      if GivesUp(AgentAfter(front).health, last) then None
      else if last.Update? && last.update.status.id == id then Some(last.update.status.state)
      else LastState(front, id)
  }

  /** Every update that says a task executes carries its process. */
  ghost predicate CarryProcesses(events: seq<Event>) {
    forall i | 0 <= i < |events| && events[i].Update? && events[i].update.status.state == TaskExecuting ::
      events[i].update.process.Some?
  }

  /** A task is among those executing exactly if its last update said so. */
  lemma {:induction false} ExecutingExactly(events: seq<Event>, id: string)
    requires CarryProcesses(events)
    ensures id in AgentAfter(events).board.executings <==> LastState(events, id) == Some(TaskExecuting)
  {
    if events != [] {
      ExecutingExactly(events[..|events| - 1], id);
    }
  }

  // ----- what killed means

  ghost predicate Executes(events: seq<Event>, n: nat, id: string)
    requires n <= |events|
  {
    id in AgentAfter(events[..n]).board.executings
  }

  /** The event at `j` is a reply that ends the job of the executing task, whose process can be killed. */
  ghost predicate Kills(events: seq<Event>, j: nat, id: string)
    requires j < |events|
  {
    var before := AgentAfter(events[..j]);
    && Executes(events, j, id) && events[j].Tick? && before.health.state == NodeOnline
    && events[j].outcome.Replied? && Ends(events[j].outcome.msgs, id)
    && before.board.executings[id].process !in events[j].immune
  }

  /** A task was told to end, by a reply at `j`, and has not stopped executing since. */
  ghost predicate EndedAt(events: seq<Event>, j: nat, id: string)
    requires j < |events|
  {
    Kills(events, j, id) && forall k | j < k <= |events| :: Executes(events, k, id)
  }

  lemma EndedNext(events: seq<Event>, e: Event, j: nat, id: string)
    requires j < |events|
    ensures EndedAt(events + [e], j, id) <==> EndedAt(events, j, id) && Executes(events + [e], |events| + 1, id)
  {
    var longer := events + [e];
    forall k | 0 <= k <= |events|
      ensures Executes(longer, k, id) <==> Executes(events, k, id)
    {
      assert longer[..k] == events[..k];
    }
    assert longer[..j] == events[..j] && longer[j] == events[j];
    assert Kills(longer, j, id) <==> Kills(events, j, id);
    if EndedAt(longer, j, id) {
      assert forall k | j < k <= |events| :: Executes(longer, k, id);
    }
  }

  /** A process is marked exactly if the server asked for its end while it was executing. */
  lemma {:induction false} KilledExactly(events: seq<Event>, id: string)
    requires id in AgentAfter(events).board.executings
    ensures AgentAfter(events).board.executings[id].killed <==> exists j :: 0 <= j < |events| && EndedAt(events, j, id)
  {
    var n := |events| - 1;
    var front, last := events[..n], events[n];
    var before := AgentAfter(front);
    assert events == front + [last] && events[..n + 1] == events;
    if id in before.board.executings {
      KilledExactly(front, id);
      forall j | 0 <= j < n
        ensures EndedAt(events, j, id) <==> EndedAt(front, j, id)
      {
        EndedNext(front, last, j, id);
      }
      assert EndedAt(events, n, id) <==> Kills(events, n, id);
    } else {
      assert !Executes(events, n, id);
    }
  }

  /** A process is ended for its job: of tasks and jobs whose IDs have no dot in the job's, exactly the tasks of
      the jobs whose ID begins with the one in a message. */
  lemma EndsItsJob(msgs: seq<Message>, owner: string, ref: TaskRef)
    requires '.' !in owner && forall m | m in msgs && m.TerminateJob? :: '.' !in m.object_
    ensures Ends(msgs, TaskId(owner, ref.group, ref.task)) <==>
      exists m :: m in msgs && m.TerminateJob? && m.object_ <= owner
  {
    forall m | m in msgs && m.TerminateJob?
      ensures m.object_ <= TaskId(owner, ref.group, ref.task) <==> m.object_ <= owner
    {
      PrefixSelectsJob(m.object_, owner, ref.group, ref.task);
    }
  }

  /** What a node reports of an update: the state it says, but terminated for a task that failed after the server
      had ended its job during this execution. */
  lemma FailureAfterEnd(events: seq<Event>, u: TaskUpdate)
    ensures var id := u.status.id; var after := AgentAfter(events + [Update(u)]).board.payload;
      && id in after
      && after[id].state ==
        if u.status.state == TaskFailed && exists j :: 0 <= j < |events| && EndedAt(events, j, id)
        then TaskTerminated else u.status.state
  {
    var id := u.status.id;
    assert (events + [Update(u)])[..|events|] == events;
    if id in AgentAfter(events).board.executings {
      KilledExactly(events, id);
    } else {
      assert events[..|events|] == events;
      assert forall j | 0 <= j < |events| && EndedAt(events, j, id) :: Executes(events, |events|, id);
    }
  }

  // ----- one tick

  /** Only an unknown node registers, and only an online one sends a heartbeat. A reply ends the failures in a
      row; one that says not found makes the node unknown, as the ninth failure does. */
  lemma TickEffect(events: seq<Event>, registration: Registration, outcome: Outcome, immune: set<int>)
    ensures var before := AgentAfter(events).health;
      var after := AgentAfter(events + [Tick(registration, outcome, immune)]).health;
      && (before.state == NodeUnknown ==>
            after == if registration == Registered then Health(NodeOnline, 0) else before)
      && (before.state == NodeOffline ==> after == before)
      && (before.state == NodeOnline && outcome.Replied? ==>
            after == if outcome.notFound then Health(NodeUnknown, 0) else Health(NodeOnline, 0))
      && (before.state == NodeOnline && !outcome.Replied? ==>
            after == if before.errors >= 8 then Health(NodeUnknown, 0) else Health(NodeOnline, before.errors + 1))
  {
    var e := Tick(registration, outcome, immune);
    assert (events + [e])[..|events|] == events;
  }

  /** The tasks of a reply are started one by one, in order, and nothing else is. */
  lemma {:induction false} StartedOneByOne(before: seq<Message>, m: Message, after: seq<Message>)
    ensures TasksOf(before + [m] + after) ==
      TasksOf(before) + (if m.ScheduleTask? then [m.task] else []) + TasksOf(after)
  {
    var all := before + [m] + after;
    if after == [] {
      assert all == before + [m] && all[..|before|] == before;
    } else {
      var front := after[..|after| - 1];
      assert all[..|all| - 1] == before + [m] + front;
      StartedOneByOne(before, m, front);
    }
  }

  // ----- giving up

  function HealthAfter(h: Health, outcomes: seq<Outcome>): Health {
    if outcomes == [] then h else Ticked(HealthAfter(h, outcomes[..|outcomes| - 1]), Refused, outcomes[|outcomes| - 1])
  }

  /** A node that has just been heard stays online through 8 failed heartbeats in a row and gives up at
      the ninth; then only a registration brings it back. */
  lemma {:induction false} NinthFailureGivesUp(outcomes: seq<Outcome>)
    requires forall o | o in outcomes :: !o.Replied?
    ensures HealthAfter(Health(NodeOnline, 0), outcomes) ==
      if |outcomes| <= MAX_ERRORS then Health(NodeOnline, |outcomes|) else Health(NodeUnknown, 0)
  {
    if outcomes != [] {
      NinthFailureGivesUp(outcomes[..|outcomes| - 1]);
      assert outcomes[|outcomes| - 1] in outcomes;
    }
  }
}
