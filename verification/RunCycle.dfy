/** Running a schedule cycle: the plan is made on copies and then committed to the real nodes. */
module RunCycles {
  import opened Resources
  import opened TaskIds
  import opened Tasks
  import opened Jobs
  import opened StateStores
  import opened Messages
  import opened NodeCaches
  import opened Cluster
  import opened Ledger
  import opened Runs
  import opened Scheduling
  import opened ScheduleOrders
  import opened ScheduleCycles
  import opened Commits
  import opened Servers

  // ----- the committed part of a table, as a run

  ghost predicate Committing(s: State, rows: seq<Row>, offers: seq<Offer>, n: nat, s': State) {
    && Inv(s) && Copies(offers, s) && Targets(rows, offers) && Fits(rows, offers) && Pending(rows, 0, s)
    && n <= |rows| && Possible(s, StepsOf(rows, offers, n)) && s' == After(s, StepsOf(rows, offers, n))
  }

  lemma CommittingNext(s: State, rows: seq<Row>, offers: seq<Offer>, n: nat, s': State)
    requires Committing(s, rows, offers, n, s') && n < |rows|
    ensures var step := StepOf(rows[n], offers);
      Shape(s') && Enabled(s', step) && Committing(s, rows, offers, n + 1, Placed(s', step.name, step.id, step.ref))
  {
    CommitIsARun(s, rows, offers, n, StepsOf(rows, offers, n));
    var step := StepOf(rows[n], offers);
    CommitRow(s', rows, offers, n, step);
    RunAppend(s, StepsOf(rows, offers, n), step);
  }

  /** The rows of a plan for waiting tasks can be committed. */
  lemma CommittingStart(s: State, cs: seq<Candidate>, offers: seq<Offer>)
    requires Inv(s) && Copies(offers, s) && AllAsk(cs) && AllScorable(offers) && AllWait(cs, s)
    ensures Committing(s, Plan(cs, offers, |cs|).rows, offers, 0, s)
  {
    ReplayReproducesPlan(cs, offers, |cs|);
    PlannedRowsWait(s, cs, offers);
  }

  // ----- what the planner saw

  /** Every online node makes an offer. */
  ghost predicate CoverOnline(offers: seq<Offer>, s: State) {
    forall name | name in s.nodes && s.nodes[name].state == NodeOnline ::
      exists i :: 0 <= i < |offers| && offers[i].name == name
  }

  lemma OffersAreCopies(server: Server, s: State, nodes: seq<ScheduleNode>, offers: seq<Offer>)
    requires server.nodes.Valid() && server.Shows(s)
    requires Started(nodes, offers, OnlineOf(server.nodes.nodeList))
    ensures Copies(offers, s) && CoverOnline(offers, s)
  {
    var online := OnlineOf(server.nodes.nodeList);
    OnlineMembers(server.nodes.nodeList);
    OnlineDistinct(server.nodes.nodeList);
    forall i | 0 <= i < |offers|
      ensures CopyOf(offers[i], s)
    {
      assert online[i] in online;
      assert ShowsNode(server.nodes.nodeMap[online[i].name], online[i].name, s.nodes[online[i].name]);
    }
    forall name | name in s.nodes && s.nodes[name].state == NodeOnline
      ensures exists i :: 0 <= i < |offers| && offers[i].name == name
    {
      var node := server.nodes.nodeMap[name];
      assert ShowsNode(node, name, s.nodes[name]) && node in online;
      var i :| 0 <= i < |online| && online[i] == node;
      assert offers[i].name == name;
    }
  }

  /** The jobs a cycle considers look to it as they do to the state machine. */
  lemma SnapIsShown(server: Server, s: State, snap: Snap)
    requires server.state.Valid() && server.Shows(s) && FromEnabled(snap, server.state)
    ensures snap.id in s.jobs && snap.rec == s.jobs[snap.id] && IsSchedulable(snap.rec.state)
  {
    var state := server.state;
    var k :| k in state.jobQueues && state.jobQueues[k].enabled && snap in SchedulableSnaps(state.jobQueues[k]);
    var j :| j in state.jobQueues[k].jobs && Schedulable(j) && snap == SnapOf(state.jobQueues[k], j);
    assert Lists(state.jobQueues[k].jobs, state.jobMap, Resources.Some(k));
    assert ShowsJob(state.jobMap[j.id], j.id, s.jobs[j.id]);
  }

  lemma CandidatesWait(server: Server, s: State, es: seq<Entry>, snaps: seq<Snap>)
    requires server.state.Valid() && server.Shows(s)
    requires Enumerates(es, snaps) && forall snap | snap in snaps :: FromEnabled(snap, server.state)
    ensures AllWait(CandidatesIn(es), s)
  {
    forall k | 0 <= k < |es|
      ensures Waits(es[k].candidate, s)
    {
      assert es[k] in es && Schedules(es[k]);
      SnapIsShown(server, s, es[k].snap);
    }
    forall k, l | 0 <= k < l < |es|
      ensures !SameTask(es[k].candidate, es[l].candidate)
    {
      assert es[k] in es && es[l] in es && Schedules(es[k]) && Schedules(es[l]);
    }
  }

  // ----- what a cycle needs

  /** What no state of the machine guarantees: no schedulable job of an enabled queue has a negative
      priority, and no online node has a size by which a score would divide by zero. */
  ghost predicate CycleReady(state: StateStore, list: seq<WorkNode>)
    reads state, state.jobQueues.Values, set k, i | k in state.jobQueues && 0 <= i < |state.jobQueues[k].jobs| ::
      state.jobQueues[k].jobs[i]
    reads list
  {
    && (forall snap | FromEnabled(snap, state) :: snap.rec.priority >= 0)
    && (forall n | n in list && n.state == NodeOnline :: Sized(n.resources))
  }

  /** A known node has no more cards available than it has. */
  lemma KnownOffer(s: State, name: string)
    requires Shape(s) && Known(s, name) && NodeInv(s, name)
    ensures var node := s.nodes[name];
      NonNegative(node.available) && (node.available.cards > 0 ==> node.resources.cards > 0)
  {
    var out := Outstanding(s, name);
    forall t | t in out
      ensures NonNegative(t.resources)
    {
      assert Located(s.jobs, name, t);
    }
    SumNonNegative(out, Cards);
    SumNonNegative(s.lost[name], Cards);
    assert Tracks(Base(s.nodes[name]), Cards) && 0 <= Amount(s.nodes[name].reserved, Cards);
  }

  /** The rest of what planning needs holds in every state of the machine. */
  lemma ReadyIsPlannable(server: Server, s: State)
    requires Inv(s) && server.state.Valid() && server.nodes.Valid() && server.Shows(s)
    requires CycleReady(server.state, server.nodes.nodeList)
    ensures Plannable(server.state, server.nodes.nodeList)
  {
    JobsAreManageable(server, s);
    NodesAreScorable(server, s);
  }

  lemma JobsAreManageable(server: Server, s: State)
    requires Inv(s) && server.state.Valid() && server.Shows(s) && CycleReady(server.state, server.nodes.nodeList)
    ensures forall k | k in server.state.jobQueues && server.state.jobQueues[k].enabled ::
      Manageable(SchedulableSnaps(server.state.jobQueues[k]))
  {
    forall snap | FromEnabled(snap, server.state)
      ensures Askable(snap.rec.groups)
    {
      SnapIsShown(server, s, snap);
      JobIsAskable(s, snap.id);
    }
    forall k, snap | k in server.state.jobQueues && server.state.jobQueues[k].enabled
      && snap in SchedulableSnaps(server.state.jobQueues[k])
      ensures FromEnabled(snap, server.state)
    {
    }
  }

  lemma JobIsAskable(s: State, id: string)
    requires Inv(s) && id in s.jobs
    ensures Askable(s.jobs[id].groups)
  {
    assert JobInv(id, s.jobs[id]);
    assert forall ref | Within(s.jobs[id].groups, ref) :: DemandOk(TaskAt(s.jobs[id].groups, ref).resources);
  }

  lemma NodesAreScorable(server: Server, s: State)
    requires Inv(s) && server.nodes.Valid() && server.Shows(s) && CycleReady(server.state, server.nodes.nodeList)
    ensures forall n | n in server.nodes.nodeList && n.state == NodeOnline :: Scorable(OfferOf(n))
  {
    forall n | n in server.nodes.nodeList && n.state == NodeOnline
      ensures Scorable(OfferOf(n))
    {
      assert server.nodes.nodeMap[n.name] == n && ShowsNode(n, n.name, s.nodes[n.name]);
      KnownOffer(s, n.name);
    }
  }

  // ----- commit

  ghost predicate RowsOf(table: seq<ScheduleRecord>, rows: seq<Row>, offers: seq<Offer>) {
    && |table| == |rows| && Targets(rows, offers)
    && forall m | 0 <= m < |rows| ::
      table[m].candidate == rows[m].candidate && table[m].target.node.name == offers[rows[m].node].name
  }

  /** Commits the table, row by row. */
  method CommitTable(server: Server, table: seq<ScheduleRecord>, ghost rows: seq<Row>, ghost offers: seq<Offer>,
                     ghost s: State)
    returns (ghost s': State)
    requires server.nodes.Valid() && server.Shows(s)
    requires RowsOf(table, rows, offers) && Committing(s, rows, offers, 0, s)
    modifies server.nodes`buckets, server.state.jobMap.Values, set n | n in server.nodes.nodeMap.Values :: n.available
    ensures server.nodes.Valid() && server.Shows(s') && Committing(s, rows, offers, |rows|, s')
  {
    ghost var at := CommittedStates(s, rows, offers);
    CommitRows(server, table, rows, offers, s, at);
    s' := at(|rows|);
    assert Committing(s, rows, offers, |rows|, at(|rows|));
  }

  /** The state after each number of rows. */
  ghost predicate Passes(at: nat -> State, s: State, rows: seq<Row>, offers: seq<Offer>) {
    forall m: nat {:trigger Committing(s, rows, offers, m, at(m))} | m <= |rows| ::
      Committing(s, rows, offers, m, at(m))
  }

  lemma CommittedStates(s: State, rows: seq<Row>, offers: seq<Offer>) returns (at: nat -> State)
    requires Committing(s, rows, offers, 0, s)
    ensures Passes(at, s, rows, offers) && at(0) == s
  {
    forall m: nat | m <= |rows| {
      CommitIsARun(s, rows, offers, m, StepsOf(rows, offers, m));
    }
    at := (m: nat) =>
      if m <= |rows| && Possible(s, StepsOf(rows, offers, m)) then After(s, StepsOf(rows, offers, m)) else s;
  }

  method CommitRows(server: Server, table: seq<ScheduleRecord>, ghost rows: seq<Row>, ghost offers: seq<Offer>,
                    ghost s: State, ghost at: nat -> State)
    requires server.nodes.Valid() && server.Shows(at(0)) && RowsOf(table, rows, offers) && Passes(at, s, rows, offers)
    modifies server.nodes`buckets, server.state.jobMap.Values, set n | n in server.nodes.nodeMap.Values :: n.available
    ensures server.nodes.Valid() && server.Shows(at(|rows|))
  {
    for m := 0 to |table|
      invariant server.nodes.Valid() && server.Shows(at(m))
    {
      CommitNext(server, table, rows, offers, m, s, at);
    }
  }

  method CommitNext(server: Server, table: seq<ScheduleRecord>, ghost rows: seq<Row>, ghost offers: seq<Offer>, m: nat,
                    ghost s: State, ghost at: nat -> State)
    requires server.nodes.Valid() && server.Shows(at(m)) && RowsOf(table, rows, offers) && m < |table|
      && Passes(at, s, rows, offers)
    modifies server.nodes`buckets, server.state.jobMap.Values, set n | n in server.nodes.nodeMap.Values :: n.available
    ensures server.nodes.Valid() && server.Shows(at(m + 1))
  {
    assert Committing(s, rows, offers, m, at(m)) && Committing(s, rows, offers, m + 1, at(m + 1));
    CommittingNext(s, rows, offers, m, at(m));
    ghost var s' := CommitOne(server, table[m], at(m), StepOf(rows[m], offers));
  }

  method CommitOne(server: Server, record: ScheduleRecord, ghost s: State, ghost step: Step) returns (ghost s': State)
    requires server.nodes.Valid() && Shape(s) && server.Shows(s) && step.Place? && Enabled(s, step)
    requires step == Place(record.target.node.name, record.candidate.job, record.candidate.ref)
    modifies server.nodes`buckets, server.state.jobMap.Values, set n | n in server.nodes.nodeMap.Values :: n.available
    ensures server.nodes.Valid() && server.Shows(s') && s' == Placed(s, step.name, step.id, step.ref)
  {
    var name, id, ref := record.target.node.name, record.candidate.job, record.candidate.ref;
    server.CommitRecord(name, id, ref, s);
    s' := Placed(s, name, id, ref);
  }

  /** What a cycle has done: it considered waiting tasks, copied all online nodes and placed the planned rows by
      a run of the state machine that leaves every node with the availability planned for it. */
  ghost predicate Cycled(s: State, s': State, es: seq<Entry>, offers: seq<Offer>, steps: seq<Step>) {
    var cs := CandidatesIn(es);
    && Copies(offers, s) && CoverOnline(offers, s) && AllAsk(cs) && AllScorable(offers) && AllWait(cs, s)
    && steps == StepsOf(Plan(cs, offers, |cs|).rows, offers, |Plan(cs, offers, |cs|).rows|)
    && Possible(s, steps) && s' == After(s, steps) && Copies(Plan(cs, offers, |cs|).offers, s')
  }

  /** The task of an entry has been placed, or every node, as it is now, refuses it. */
  ghost predicate Settled(e: Entry, steps: seq<Step>, offers: seq<Offer>, s': State) {
    || (exists m :: 0 <= m < |steps| && PlacesTask(steps[m], e.candidate))
    || forall i | 0 <= i < |offers| :: RefusedBy(offers[i], e.candidate, s')
  }

  predicate PlacesTask(step: Step, c: Candidate) {
    step.Place? && step.id == c.job && step.ref == c.ref
  }

  ghost predicate RefusedBy(o: Offer, c: Candidate, s': State) {
    o.name in s'.nodes && !Accepts(o.(available := s'.nodes[o.name].available), c)
  }

  lemma {:induction false} StepsAreRows(rows: seq<Row>, offers: seq<Offer>, n: nat)
    requires Targets(rows, offers) && n <= |rows|
    ensures |StepsOf(rows, offers, n)| == n
    ensures forall m | 0 <= m < n :: StepsOf(rows, offers, n)[m] == StepOf(rows[m], offers)
  {
    if n > 0 {
      StepsAreRows(rows, offers, n - 1);
    }
  }

  lemma {:induction false} PlanKeepsShape(cs: seq<Candidate>, offers: seq<Offer>, n: nat, i: nat)
    requires AllAsk(cs) && AllScorable(offers) && n <= |cs| && i < |offers|
    ensures Plan(cs, offers, n).offers[i] == offers[i].(available := Plan(cs, offers, n).offers[i].available)
  {
    if n > 0 {
      PlanKeepsShape(cs, offers, n - 1, i);
      StepKeepsShape(Plan(cs, offers, n - 1), cs[n - 1], i);
    }
  }

  lemma StepKeepsShape(p: Planned, c: Candidate, i: nat)
    requires Asks(c) && AllScorable(p.offers) && Targets(p.rows, p.offers) && i < |p.offers|
    ensures PlanStep(p, c).offers[i] == p.offers[i].(available := PlanStep(p, c).offers[i].available)
  {
  }

  /** The step places a task on an online node that has every label of the task and none of its taints. */
  ghost predicate Suits(s: State, step: Step) {
    && step.Place? && step.name in s.nodes && step.id in s.jobs && Within(s.jobs[step.id].groups, step.ref)
    && var node, task := s.nodes[step.name], TaskAt(s.jobs[step.id].groups, step.ref);
       && node.state == NodeOnline
       && (forall k | k in task.labels :: k in node.labels && node.labels[k] == task.labels[k])
       && (forall k | k in task.taints && k in node.taints :: node.taints[k] != task.taints[k])
  }

  /** Every placement of a cycle suits its task. */
  lemma PlacementsSuit(s: State, s': State, es: seq<Entry>, offers: seq<Offer>, steps: seq<Step>, m: nat)
    requires Cycled(s, s', es, offers, steps) && m < |steps|
    ensures Suits(s, steps[m])
  {
    var cs := CandidatesIn(es);
    var rows := Plan(cs, offers, |cs|).rows;
    StepsAreRows(rows, offers, |rows|);
    ReplayReproducesPlan(cs, offers, |cs|);
    PlannedRowsWait(s, cs, offers);
    RowSuits(s, rows, offers, m);
  }

  lemma RowSuits(s: State, rows: seq<Row>, offers: seq<Offer>, m: nat)
    requires Targets(rows, offers) && Fits(rows, offers) && Copies(offers, s) && Pending(rows, 0, s) && m < |rows|
    ensures Suits(s, StepOf(rows[m], offers))
  {
    var row, copies := rows[m], Replay(rows[..m], offers);
    assert Waits(row.candidate, s) && CopyOf(offers[row.node], s);
    assert Accepts(copies[row.node], row.candidate);
    ReplayOffer(rows[..m], offers, row.node);
  }

  lemma {:induction false} ReplayOffer(rows: seq<Row>, offers: seq<Offer>, i: nat)
    requires Targets(rows, offers) && i < |offers|
    ensures Replay(rows, offers)[i] == offers[i].(available := Replay(rows, offers)[i].available)
  {
    if rows != [] {
      ReplayOffer(rows[..|rows| - 1], offers, i);
    }
  }

  /** A cycle settles every task it considers. */
  lemma CycleSettles(s: State, s': State, es: seq<Entry>, offers: seq<Offer>, steps: seq<Step>, k: nat)
    requires Cycled(s, s', es, offers, steps) && k < |es|
    ensures Settled(es[k], steps, offers, s')
  {
    var cs := CandidatesIn(es);
    var p := Plan(cs, offers, |cs|);
    StepsAreRows(p.rows, offers, |p.rows|);
    if LeftOut(cs, offers, k) {
      forall i | 0 <= i < |offers|
        ensures RefusedBy(offers[i], es[k].candidate, s')
      {
        LeftOutIsRefused(cs, offers, k, |cs|, i);
        PlanKeepsShape(cs, offers, |cs|, i);
        assert CopyOf(p.offers[i], s');
      }
    } else {
      var m := PlacedHasRow(cs, offers, k, |cs|);
      assert PlacesTask(steps[m], es[k].candidate);
    }
  }

  lemma WaitingPlanCommits(s: State, es: seq<Entry>, offers: seq<Offer>) returns (rows: seq<Row>, steps: seq<Step>)
    requires Inv(s) && Copies(offers, s) && CoverOnline(offers, s) && AllWait(CandidatesIn(es), s)
    requires AllAsk(CandidatesIn(es)) && AllScorable(offers)
    ensures rows == Plan(CandidatesIn(es), offers, |es|).rows && Committing(s, rows, offers, 0, s)
    ensures steps == StepsOf(rows, offers, |rows|) && Possible(s, steps)
      && Cycled(s, After(s, steps), es, offers, steps)
  {
    var cs := CandidatesIn(es);
    rows := Plan(cs, offers, |cs|).rows;
    CommittingStart(s, cs, offers);
    steps := StepsOf(rows, offers, |rows|);
    PlanCommits(s, cs, offers);
  }

  lemma TableIsRows(nodes: seq<ScheduleNode>, table: seq<ScheduleRecord>, rows: seq<Row>, offers: seq<Offer>,
                    online: seq<WorkNode>)
    requires Started(nodes, offers, online) && Tabulates(table, rows, nodes)
    ensures RowsOf(table, rows, offers)
  {
    assert forall i | 0 <= i < |nodes| :: nodes[i].node == online[i] && offers[i] == OfferOf(online[i]);
  }

  lemma PlanIsCycled(server: Server, s: State, nodes: seq<ScheduleNode>, table: seq<ScheduleRecord>,
                     es: seq<Entry>, snaps: seq<Snap>, offers: seq<Offer>)
    returns (rows: seq<Row>, steps: seq<Step>)
    requires Inv(s) && server.state.Valid() && server.nodes.Valid() && server.Shows(s)
    requires Started(nodes, offers, OnlineOf(server.nodes.nodeList))
      && Planning(Views(nodes), nodes, table, CandidatesIn(es), offers)
    requires Enumerates(es, snaps) && forall snap | snap in snaps :: FromEnabled(snap, server.state)
    ensures RowsOf(table, rows, offers) && Committing(s, rows, offers, 0, s)
    ensures steps == StepsOf(rows, offers, |rows|) && Possible(s, steps)
      && Cycled(s, After(s, steps), es, offers, steps)
  {
    OffersAreCopies(server, s, nodes, offers);
    CandidatesWait(server, s, es, snaps);
    rows, steps := WaitingPlanCommits(s, es, offers);
    TableIsRows(nodes, table, rows, offers, OnlineOf(server.nodes.nodeList));
  }

  /** No node is online, or no queue is enabled. */
  ghost predicate NothingToPlan(state: StateStore, list: seq<WorkNode>)
    reads state, list
  {
    OnlineOf(list) == [] || forall k | k in state.jobQueues :: !state.jobQueues[k].enabled
  }

  /** These are exactly the schedulable jobs of the enabled queues, as they are. */
  ghost predicate Considers(snaps: seq<Snap>, state: StateStore)
    reads state, state.jobQueues.Values, set k, i | k in state.jobQueues && 0 <= i < |state.jobQueues[k].jobs| ::
      state.jobQueues[k].jobs[i]
  {
    forall snap :: snap in snaps <==> FromEnabled(snap, state)
  }

  /** The rows of a table, and the run of placements they stand for. */
  ghost predicate PlannedRun(s: State, table: seq<ScheduleRecord>, rows: seq<Row>, steps: seq<Step>, es: seq<Entry>,
                             offers: seq<Offer>) {
    && RowsOf(table, rows, offers) && Committing(s, rows, offers, 0, s)
    && steps == StepsOf(rows, offers, |rows|) && Possible(s, steps) && Cycled(s, After(s, steps), es, offers, steps)
  }

  /** Plans on copies of the online nodes. */
  method MakePlan(server: Server, ghost s: State)
    returns (table: seq<ScheduleRecord>, nodes: seq<ScheduleNode>, ghost es: seq<Entry>, ghost snaps: seq<Snap>,
             ghost offers: seq<Offer>, ghost rows: seq<Row>, ghost steps: seq<Step>)
    requires Inv(s) && server.state.Valid() && server.nodes.Valid() && server.Shows(s)
    requires CycleReady(server.state, server.nodes.nodeList)
    ensures server.nodes.Valid() && server.Shows(s)
    ensures nodes == [] ==> NothingToPlan(server.state, server.nodes.nodeList)
    ensures nodes != [] ==>
      PlannedRun(s, table, rows, steps, es, offers) && Enumerates(es, snaps) && Considers(snaps, server.state)
  {
    table, nodes, es, snaps, offers := PlanBeside(server, s);
    rows, steps := [], [];
    if nodes != [] {
      rows, steps := PlanIsCycled(server, s, nodes, table, es, snaps, offers);
    }
  }

  /** Planning leaves the server as it is. */
  method PlanBeside(server: Server, ghost s: State)
    returns (table: seq<ScheduleRecord>, nodes: seq<ScheduleNode>, ghost es: seq<Entry>, ghost snaps: seq<Snap>,
             ghost offers: seq<Offer>)
    requires Inv(s) && server.state.Valid() && server.nodes.Valid() && server.Shows(s)
    requires CycleReady(server.state, server.nodes.nodeList)
    ensures server.state.Valid() && server.nodes.Valid() && server.Shows(s)
    ensures nodes == [] ==> NothingToPlan(server.state, server.nodes.nodeList)
    ensures nodes != [] ==>
      && Started(nodes, offers, OnlineOf(server.nodes.nodeList))
      && Planning(Views(nodes), nodes, table, CandidatesIn(es), offers)
      && Enumerates(es, snaps) && Considers(snaps, server.state)
  {
    ReadyIsPlannable(server, s);
    table, nodes, es, snaps, offers := ScheduleCycle(server.state, server.nodes);
  }

  /** Commits a plan made on copies of the online nodes. */
  method CommitPlan(server: Server, table: seq<ScheduleRecord>, ghost rows: seq<Row>, ghost steps: seq<Step>,
                    ghost es: seq<Entry>, ghost offers: seq<Offer>, ghost s: State) returns (ghost s': State)
    requires server.nodes.Valid() && server.Shows(s) && PlannedRun(s, table, rows, steps, es, offers)
    modifies server.nodes`buckets, server.state.jobMap.Values, set n | n in server.nodes.nodeMap.Values :: n.available
    ensures server.nodes.Valid() && server.Shows(s') && Cycled(s, s', es, offers, steps)
  {
    s' := s;
    if |table| == 0 {
      return;
    }
    s' := CommitTable(server, table, rows, offers, s);
  }

  /** Plans and, if there is anything to plan, commits. */
  method PlanAndCommit(server: Server, ghost s: State)
    returns (ghost planned: bool, ghost s': State, ghost es: seq<Entry>, ghost snaps: seq<Snap>,
             ghost offers: seq<Offer>, ghost steps: seq<Step>)
    requires Inv(s) && server.state.Valid() && server.nodes.Valid() && server.Shows(s)
    requires CycleReady(server.state, server.nodes.nodeList)
    modifies server.nodes`buckets, server.state.jobMap.Values, set n | n in server.nodes.nodeMap.Values :: n.available
    ensures server.nodes.Valid() && server.Shows(s')
    ensures if planned
      then Cycled(s, s', es, offers, steps) && Enumerates(es, snaps) && old(Considers(snaps, server.state))
      else s' == s && old(NothingToPlan(server.state, server.nodes.nodeList))
  {
    var table, nodes;
    ghost var rows;
    s' := s;
    table, nodes, es, snaps, offers, rows, steps := MakePlan(server, s);
    planned := nodes != [];
    if nodes != [] {
      s' := CommitPlan(server, table, rows, steps, es, offers, s);
    }
  }

  /** Runs a cycle if one has been asked for. It is a run of placements: of the tasks planned, on the
      nodes planned, ending with exactly the availabilities planned. */
  method RunScheduleCycle(server: Server, flag: nat, ghost s: State)
    returns (ghost planned: bool, ghost s': State, ghost es: seq<Entry>, ghost snaps: seq<Snap>,
             ghost offers: seq<Offer>, ghost steps: seq<Step>)
    requires Inv(s) && server.state.Valid() && server.nodes.Valid() && server.Shows(s)
    requires CycleReady(server.state, server.nodes.nodeList)
    modifies server.nodes`buckets, server.state.jobMap.Values, set n | n in server.nodes.nodeMap.Values :: n.available
    ensures server.nodes.Valid() && server.Shows(s')
    ensures !planned ==> s' == s
    ensures !planned && flag != 0 ==>
      old(NothingToPlan(server.state, server.nodes.nodeList))
    ensures planned ==> Cycled(s, s', es, offers, steps)
    ensures planned ==> Enumerates(es, snaps) && old(Considers(snaps, server.state))
  {
    planned, s', steps := false, s, [];
    es, snaps, offers := [], [], [];
    if flag != 0 {
      planned, s', es, snaps, offers, steps := PlanAndCommit(server, s);
    }
  }
}
