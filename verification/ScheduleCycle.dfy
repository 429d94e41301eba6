/** The schedule cycle: queues in order of priority, in each queue jobs in order of priority, and every
    task given to the best node as long as one accepts it. */
module ScheduleCycles {
  import opened Resources
  import opened TaskIds
  import opened Tasks
  import opened Jobs
  import opened StateStores
  import opened NodeCaches
  import opened Scheduling
  import opened ScheduleOrders
  import opened Sorting

  /** A node in one cycle, with the planner's private copy of its availability. */
  class ScheduleNode {
    const node: WorkNode
    const available: ResourceSet
    var score: real

    constructor (node: WorkNode)
      ensures this.node == node && fresh(available) && available.Value() == node.available.Value()
    {
      this.node := node;
      score := 0.0;
      var copy := node.available.Clone();
      available := copy;
    }

    function View(): Offer
      reads available
    {
      Offer(node.name, node.labels, node.taints, node.resources, available.Value())
    }
  }

  function Views(nodes: seq<ScheduleNode>): (offers: seq<Offer>)
    reads set n | n in nodes :: n.available
    ensures |offers| == |nodes| && forall i | 0 <= i < |nodes| :: offers[i] == nodes[i].View()
  {
    seq(|nodes|, i requires 0 <= i < |nodes| reads set n | n in nodes :: n.available => nodes[i].View())
  }

  ghost predicate Separate(nodes: seq<ScheduleNode>) {
    forall i, j | 0 <= i < j < |nodes| :: nodes[i].available != nodes[j].available
  }

  method LabelsMatch(c: Candidate, node: WorkNode) returns (passed: bool)
    ensures passed <==> forall k | k in c.labels :: k in node.labels && node.labels[k] == c.labels[k]
  {
    var keys := c.labels.Keys;
    while keys != {}
      invariant keys <= c.labels.Keys
      invariant forall k | k in c.labels.Keys - keys :: k in node.labels && node.labels[k] == c.labels[k]
    {
      var k :| k in keys;
      if k !in node.labels || node.labels[k] != c.labels[k] {
        return false;
      }
      keys := keys - {k};
    }
    return true;
  }

  method TaintsClear(c: Candidate, node: WorkNode) returns (passed: bool)
    ensures passed <==> forall k | k in c.taints :: k in node.taints ==> node.taints[k] != c.taints[k]
  {
    var keys := c.taints.Keys;
    while keys != {}
      invariant keys <= c.taints.Keys
      invariant forall k | k in c.taints.Keys - keys :: k in node.taints ==> node.taints[k] != c.taints[k]
    {
      var k :| k in keys;
      if k in node.taints && node.taints[k] == c.taints[k] {
        return false;
      }
      keys := keys - {k};
    }
    return true;
  }

  /** Scores one node for a task: nothing if it refuses the task. */
  method ScoreNode(c: Candidate, node: ScheduleNode) returns (score: Option<real>)
    requires Asks(c) && Scorable(node.View())
    modifies node`score
    ensures score.Some? <==> Accepts(node.View(), c)
    ensures score.Some? ==> score.value == ScoreOn(c, node.View())
  {
    var passed := LabelsMatch(c, node.node);
    if !passed {
      return None;
    }
    passed := TaintsClear(c, node.node);
    if !passed {
      return None;
    }
    node.score := 0.0;
    var lack := c.demand.SatisfiedWith(node.available);
    if lack.Some? {
      return None;
    }
    AcceptedScoresPositive(c, node.View());
    node.score := CpuScore(c.demand, node.node.resources, node.available.Value());
    node.score := node.score + node.available.memory as real / node.node.resources.memory as real;
    if c.demand.cards > 0 {
      node.score := node.score + GpuScore(node.node.resources, node.available.Value());
    }
    return Some(node.score);
  }

  /** Finds the first node of greatest score among those that accept the task; none if all refuse. */
  method ScheduleOneTask(c: Candidate, nodes: seq<ScheduleNode>) returns (target: ScheduleNode?, ghost at: Option<nat>)
    requires Asks(c) && AllScorable(Views(nodes))
    modifies nodes
    ensures at == Best(c, Views(nodes)) && (at.Some? ==> Heaviest(c, Views(nodes), at.value))
    ensures target == if at.None? then null else nodes[at.value]
    ensures Views(nodes) == old(Views(nodes))
  {
    target, at := null, None;
    var maxScore: real := 0.0;
    ghost var offers := Views(nodes);
    for i := 0 to |nodes|
      invariant Views(nodes) == offers
      invariant at == Best(c, offers[..i])
      invariant target == if at.None? then null else nodes[at.value]
      invariant maxScore == if at.None? then 0.0 else ScoreOn(c, offers[at.value])
    {
      BestNext(c, offers, i);
      assert offers[i] == nodes[i].View();
      var score := ScoreNode(c, nodes[i]);
      assert Views(nodes) == offers;
      if score.Some? {
        AcceptedScoresPositive(c, offers[i]);
        if maxScore < score.value {
          maxScore, target := score.value, nodes[i];
          at := Some(i);
        }
      }
    }
    assert offers[..|nodes|] == offers;
    if at.Some? {
      BestIsHeaviest(c, offers, at.value);
    }
  }

  // ----- one task after another

  /** A row of the schedule table; the candidate names the task. */
  datatype ScheduleRecord = ScheduleRecord(candidate: Candidate, target: ScheduleNode)

  function CandidateOf(job: Job, ref: TaskRef): Candidate
    requires Within(job.groups, ref)
    reads job
  {
    var task := TaskAt(job.groups, ref);
    Candidate(job.id, ref, task.labels, task.taints, task.resources)
  }

  /** The table holds the rows of a plan. */
  ghost predicate Tabulates(table: seq<ScheduleRecord>, rows: seq<Row>, nodes: seq<ScheduleNode>) {
    && |table| == |rows|
    && forall m | 0 <= m < |rows| ::
      && rows[m].node < |nodes| && table[m].target == nodes[rows[m].node]
      && table[m].candidate == rows[m].candidate
  }

  /** The cycle so far: the table and the private availabilities are those of the plan for the
      candidates considered, starting from the given offers. */
  ghost predicate Planning(views: seq<Offer>, nodes: seq<ScheduleNode>, table: seq<ScheduleRecord>, cs: seq<Candidate>,
                           offers: seq<Offer>) {
    && AllAsk(cs) && AllScorable(offers) && Separate(nodes) && |nodes| == |offers|
    && views == Plan(cs, offers, |cs|).offers
    && Tabulates(table, Plan(cs, offers, |cs|).rows, nodes)
  }

  lemma PlanningStep(views: seq<Offer>, nodes: seq<ScheduleNode>, table: seq<ScheduleRecord>, cs: seq<Candidate>,
                     offers: seq<Offer>,
                     c: Candidate)
    requires Planning(views, nodes, table, cs, offers) && Asks(c)
    ensures AllScorable(views) && |views| == |nodes|
    ensures match Best(c, views)
      case None => Planning(views, nodes, table, cs + [c], offers)
      case Some(i) =>
        Planning(views[i := Spend(views[i], c.demand)], nodes, table + [ScheduleRecord(c, nodes[i])], cs + [c], offers)
  {
    PlanPrefix(cs, cs + [c], offers, |cs|);
  }

  /** Charges a node's private copy; the other copies are other objects. */
  method Charge(target: ScheduleNode, demand: Amounts, ghost nodes: seq<ScheduleNode>, ghost i: nat)
    requires i < |nodes| && Separate(nodes) && target == nodes[i]
    modifies target.available
    ensures Views(nodes) == old(Views(nodes))[i := Spend(old(Views(nodes))[i], demand)]
  {
    ghost var before := Views(nodes);
    target.available.Consume(demand);
    forall j | 0 <= j < |nodes|
      ensures Views(nodes)[j] == if j == i then Spend(before[i], demand) else before[j]
    {
      assert j != i ==> nodes[j].available != nodes[i].available;
    }
  }

  /** Considers one task: places it if some node accepts it and charges that node's private copy. */
  method ConsiderTask(job: Job, ref: TaskRef, nodes: seq<ScheduleNode>, table: seq<ScheduleRecord>,
                      ghost cs: seq<Candidate>, ghost offers: seq<Offer>) returns (table': seq<ScheduleRecord>)
    requires Within(job.groups, ref) && Asks(CandidateOf(job, ref))
    requires Planning(Views(nodes), nodes, table, cs, offers)
    modifies nodes, set n | n in nodes :: n.available
    ensures Planning(Views(nodes), nodes, table', cs + [CandidateOf(job, ref)], offers)
  {
    var c := CandidateOf(job, ref);
    ghost var views := Views(nodes);
    PlanningStep(views, nodes, table, cs, offers, c);
    var target, i := ScheduleOneTask(c, nodes);
    table' := table;
    if target != null {
      table' := table' + [ScheduleRecord(c, target)];
      Charge(target, c.demand, nodes, i.value);
    }
  }

  // ----- the tasks of one job

  /** Every task of the job asks for something, in non-negative amounts. */
  ghost predicate Askable(groups: seq<TaskGroup>) {
    forall ref | Within(groups, ref) ::
      NonNegative(TaskAt(groups, ref).resources) && AsksMain(TaskAt(groups, ref).resources)
  }

  ghost predicate Shows(snap: Snap, job: Job)
    reads job
  {
    snap.id == job.id && snap.rec == job.Rec() && snap.totalTasks == job.totalTasks && Askable(snap.rec.groups)
  }

  function Cards(groups: seq<TaskGroup>, ref: TaskRef): int {
    if Within(groups, ref) then TaskAt(groups, ref).resources.cards else 0
  }

  /** Sorts tasks by GPU cards, most first. */
  method SortByCards(groups: seq<TaskGroup>, found: seq<TaskRef>) returns (refs: seq<TaskRef>)
    requires NoDuplicates(found)
    ensures NoDuplicates(refs) && forall ref :: ref in refs <==> ref in found
    ensures forall i, j | 0 <= i < j < |refs| :: Cards(groups, refs[i]) >= Cards(groups, refs[j])
  {
    var ranks := seq(|found|, k requires 0 <= k < |found| => Rank(-Cards(groups, found[k]), 0, 0));
    ghost var order;
    refs, order := SortItems(found, ranks);
    forall i | 0 <= i < |refs|
      ensures refs[i] in found && order[i].first == -Cards(groups, refs[i])
    {
      assert Takes(found, ranks, refs[i], order[i]);
    }
  }

  ghost predicate AllWithin(groups: seq<TaskGroup>, refs: seq<TaskRef>) {
    forall k | 0 <= k < |refs| :: Within(groups, refs[k])
  }

  ghost function EntriesOf(snap: Snap, refs: seq<TaskRef>): (es: seq<Entry>)
    requires AllWithin(snap.rec.groups, refs)
    ensures |es| == |refs| && forall k | 0 <= k < |refs| :: es[k] == Entry(snap, CandidateFor(snap, refs[k]))
  {
    seq(|refs|, k requires 0 <= k < |refs| => Entry(snap, CandidateFor(snap, refs[k])))
  }

  lemma TasksAreListed(snap: Snap, refs: seq<TaskRef>)
    requires AllWithin(snap.rec.groups, refs) && NoDuplicates(refs)
    requires forall ref :: ref in refs <==> TaskSchedulable(snap.rec.groups, ref)
    requires forall i, j | 0 <= i < j < |refs| :: Cards(snap.rec.groups, refs[i]) >= Cards(snap.rec.groups, refs[j])
    ensures Enumerates(EntriesOf(snap, refs), [snap])
  {
    var es := EntriesOf(snap, refs);
    assert forall k | 0 <= k < |refs| :: refs[k] in refs;
    forall ref | ref in refs
      ensures Entry(snap, CandidateFor(snap, ref)) in es
    {
      var k :| 0 <= k < |refs| && refs[k] == ref;
      assert es[k] in es;
    }
  }

  /** The tasks of a job that may be scheduled, those with more GPU cards first. */
  method SortedTasks(job: Job, ghost snap: Snap) returns (refs: seq<TaskRef>)
    requires Shows(snap, job)
    ensures AllWithin(snap.rec.groups, refs) && Enumerates(EntriesOf(snap, refs), [snap])
  {
    var found := job.GetSchedulableTasks();
    assert forall k | 0 <= k < |found| :: found[k] in found;
    refs := SortByCards(job.groups, found);
    assert forall k | 0 <= k < |refs| :: refs[k] in refs;
    TasksAreListed(snap, refs);
  }

  /** Considers the given tasks of a job, in order. */
  method ScheduleTasks(job: Job, refs: seq<TaskRef>, nodes: seq<ScheduleNode>, table: seq<ScheduleRecord>,
                       ghost snap: Snap, ghost cs: seq<Candidate>, ghost offers: seq<Offer>)
    returns (table': seq<ScheduleRecord>)
    requires Shows(snap, job) && AllWithin(snap.rec.groups, refs)
    requires Planning(Views(nodes), nodes, table, cs, offers)
    modifies nodes, set n | n in nodes :: n.available
    ensures Planning(Views(nodes), nodes, table', cs + CandidatesIn(EntriesOf(snap, refs)), offers)
  {
    table' := table;
    ghost var all := CandidatesIn(EntriesOf(snap, refs));
    assert cs + all[..0] == cs;
    for k := 0 to |refs|
      invariant Planning(Views(nodes), nodes, table', cs + all[..k], offers)
    {
      table' := ScheduleNext(job, refs, k, nodes, table', snap, cs, all, offers);
    }
    assert all[..|refs|] == all;
  }

  method ScheduleNext(job: Job, refs: seq<TaskRef>, k: nat, nodes: seq<ScheduleNode>, table: seq<ScheduleRecord>,
                      ghost snap: Snap, ghost cs: seq<Candidate>, ghost all: seq<Candidate>, ghost offers: seq<Offer>)
    returns (table': seq<ScheduleRecord>)
    requires Shows(snap, job) && AllWithin(snap.rec.groups, refs) && all == CandidatesIn(EntriesOf(snap, refs))
      && k < |refs|
    requires Planning(Views(nodes), nodes, table, cs + all[..k], offers)
    modifies nodes, set n | n in nodes :: n.available
    ensures Planning(Views(nodes), nodes, table', cs + all[..k + 1], offers)
  {
    assert CandidateOf(job, refs[k]) == all[k];
    assert cs + all[..k] + [all[k]] == cs + all[..k + 1];
    table' := ConsiderTask(job, refs[k], nodes, table, cs + all[..k], offers);
  }

  // ----- the jobs of one queue

  ghost function SnapOf(queue: JobQueue, job: Job): Snap
    reads job
  {
    Snap(queue.name, queue.priority, job.id, job.Rec(), job.totalTasks)
  }

  ghost function SnapsOf(queue: JobQueue, jobs: seq<Job>): (snaps: seq<Snap>)
    reads jobs
    ensures |snaps| == |jobs| && forall i | 0 <= i < |jobs| :: snaps[i] == SnapOf(queue, jobs[i])
  {
    seq(|jobs|, i requires 0 <= i < |jobs| reads jobs => SnapOf(queue, jobs[i]))
  }

  /** Consecutive jobs come in the order of the queue, under distinct IDs. */
  ghost predicate InOrder(snaps: seq<Snap>) {
    forall i, j | 0 <= i < j < |snaps| :: snaps[i].id != snaps[j].id && JobBefore(snaps[i], snaps[j])
  }

  ghost predicate AllAskable(snaps: seq<Snap>) {
    forall i | 0 <= i < |snaps| :: Askable(snaps[i].rec.groups)
  }

  ghost predicate Collected(snaps: seq<Snap>, jobTasks: seq<seq<TaskRef>>) {
    |jobTasks| <= |snaps| && forall k | 0 <= k < |jobTasks| :: TasksOf(snaps[k], jobTasks[k])
  }

  ghost predicate TasksOf(snap: Snap, refs: seq<TaskRef>) {
    AllWithin(snap.rec.groups, refs) && Enumerates(EntriesOf(snap, refs), [snap])
  }

  method CollectTasks(jobs: seq<Job>, ghost queue: JobQueue) returns (jobTasks: seq<seq<TaskRef>>)
    requires AllAskable(SnapsOf(queue, jobs))
    ensures |jobTasks| == |jobs| && Collected(SnapsOf(queue, jobs), jobTasks)
  {
    ghost var snaps := SnapsOf(queue, jobs);
    jobTasks := [];
    for i := 0 to |jobs|
      invariant |jobTasks| == i && Collected(snaps, jobTasks)
    {
      var refs := SortedTasks(jobs[i], snaps[i]);
      jobTasks := jobTasks + [refs];
    }
  }

  /** Considers the jobs of one priority, one after the other: first all their tasks are collected,
      then they are placed. */
  method ScheduleClass(jobs: seq<Job>, nodes: seq<ScheduleNode>, table: seq<ScheduleRecord>,
                       ghost queue: JobQueue, ghost cs: seq<Candidate>, ghost offers: seq<Offer>)
    returns (table': seq<ScheduleRecord>, ghost es: seq<Entry>)
    requires InOrder(SnapsOf(queue, jobs)) && AllAskable(SnapsOf(queue, jobs))
    requires Planning(Views(nodes), nodes, table, cs, offers)
    modifies nodes, set n | n in nodes :: n.available
    ensures Enumerates(es, SnapsOf(queue, jobs)) && SnapsOf(queue, jobs) == old(SnapsOf(queue, jobs))
    ensures Planning(Views(nodes), nodes, table', cs + CandidatesIn(es), offers)
  {
    ghost var snaps := SnapsOf(queue, jobs);
    var jobTasks := CollectTasks(jobs, queue);
    table', es := table, [];
    assert cs + CandidatesIn([]) == cs;
    for i := 0 to |jobs|
      invariant SnapsOf(queue, jobs) == snaps && Enumerates(es, snaps[..i])
      invariant Planning(Views(nodes), nodes, table', cs + CandidatesIn(es), offers)
    {
      assert TasksOf(snaps[i], jobTasks[i]) && snaps[i] == SnapOf(queue, jobs[i]);
      table', es := ScheduleJob(jobs[i], jobTasks[i], nodes, table', snaps, i, es, cs, offers);
    }
    assert snaps[..|jobs|] == snaps;
  }

  method ScheduleJob(job: Job, refs: seq<TaskRef>, nodes: seq<ScheduleNode>, table: seq<ScheduleRecord>,
                     ghost snaps: seq<Snap>,
                     ghost i: nat, ghost es: seq<Entry>, ghost cs: seq<Candidate>, ghost offers: seq<Offer>)
    returns (table': seq<ScheduleRecord>, ghost es': seq<Entry>)
    requires i < |snaps| && InOrder(snaps) && Enumerates(es, snaps[..i]) && TasksOf(snaps[i], refs)
      && Shows(snaps[i], job)
    requires Planning(Views(nodes), nodes, table, cs + CandidatesIn(es), offers)
    modifies nodes, set n | n in nodes :: n.available
    ensures Enumerates(es', snaps[..i + 1]) && Planning(Views(nodes), nodes, table', cs + CandidatesIn(es'), offers)
  {
    ghost var more := EntriesOf(snaps[i], refs);
    table' := ScheduleTasks(job, refs, nodes, table, snaps[i], cs + CandidatesIn(es), offers);
    ClassStep(snaps, es, i, more, cs);
    es' := es + more;
  }

  lemma ClassStep(snaps: seq<Snap>, es: seq<Entry>, i: nat, more: seq<Entry>, cs: seq<Candidate>)
    requires i < |snaps| && InOrder(snaps) && Enumerates(es, snaps[..i]) && Enumerates(more, [snaps[i]])
    ensures Enumerates(es + more, snaps[..i + 1])
    ensures cs + CandidatesIn(es) + CandidatesIn(more) == cs + CandidatesIn(es + more)
  {
    EnumeratesConcat(es, snaps[..i], more, [snaps[i]]);
    assert snaps[..i] + [snaps[i]] == snaps[..i + 1];
    CandidatesConcat(cs, es, more);
  }

  // ----- one queue

  ghost predicate Schedulable(job: Job)
    reads job
  {
    IsSchedulable(job.state)
  }

  /** The schedulable jobs among some jobs, grouped by priority. */
  ghost predicate Grouped(classes: map<int, seq<Job>>, jobs: seq<Job>)
    reads jobs
  {
    && (forall p, j | p in classes && j in classes[p] :: j in jobs && j.priority == p && IsSchedulable(j.state))
    && (forall j | j in jobs && IsSchedulable(j.state) :: j.priority in classes && j in classes[j.priority])
    && (forall p | p in classes :: classes[p] != [] && DistinctJobs(classes[p]))
  }

  /** Sorts the jobs of one priority by submission, then by number of tasks. */
  method SortJobs(jobs: seq<Job>, ghost queue: JobQueue) returns (sorted: seq<Job>)
    requires DistinctJobs(jobs) && forall i, j | 0 <= i < j < |jobs| :: jobs[i].priority == jobs[j].priority
    ensures forall j :: j in sorted <==> j in jobs
    ensures DistinctJobs(sorted) && InOrder(SnapsOf(queue, sorted))
  {
    var ranks := seq(|jobs|,
      k requires 0 <= k < |jobs| reads jobs => Rank(-jobs[k].priority, jobs[k].submitTime, jobs[k].totalTasks));
    ghost var order;
    sorted, order := SortItems(jobs, ranks);
    forall i | 0 <= i < |sorted|
      ensures sorted[i] in jobs
      ensures order[i] == Rank(-sorted[i].priority, sorted[i].submitTime, sorted[i].totalTasks)
    {
      assert Takes(jobs, ranks, sorted[i], order[i]);
    }
    forall i, j | 0 <= i < j < |sorted|
      ensures sorted[i].id != sorted[j].id && sorted[i].priority == sorted[j].priority
    {
      assert sorted[i] != sorted[j];
    }
  }

  /** The classes after one more job. */
  function GroupedWith(classes: map<int, seq<Job>>, job: Job): map<int, seq<Job>>
    reads job
  {
    if IsSchedulable(job.state) then
      classes[job.priority := (if job.priority in classes then classes[job.priority] else []) + [job]]
    else classes
  }

  lemma GroupNext(classes: map<int, seq<Job>>, jobs: seq<Job>, job: Job)
    requires Grouped(classes, jobs) && forall j | j in jobs :: j.id != job.id
    ensures Grouped(GroupedWith(classes, job), jobs + [job])
  {
    var all, after := jobs + [job], GroupedWith(classes, job);
    assert forall j :: j in all <==> j in jobs || j == job;
    forall p | p in after
      ensures after[p] != [] && DistinctJobs(after[p])
      ensures forall j | j in after[p] :: j in all && j.priority == p && IsSchedulable(j.state)
    {
      if IsSchedulable(job.state) && p == job.priority {
        var before := if p in classes then classes[p] else [];
        DistinctWith(before, job);
      } else {
        assert p in classes && after[p] == classes[p];
      }
    }
    forall j | j in all && IsSchedulable(j.state)
      ensures j.priority in after && j in after[j.priority]
    {
      if j != job {
        assert j in jobs && j in classes[j.priority];
      }
    }
  }

  lemma DistinctWith(jobs: seq<Job>, job: Job)
    requires DistinctJobs(jobs) && forall j | j in jobs :: j.id != job.id
    ensures DistinctJobs(jobs + [job]) && forall j | j in jobs + [job] :: j in jobs || j == job
  {
    forall i, k | 0 <= i < k < |jobs + [job]|
      ensures (jobs + [job])[i].id != (jobs + [job])[k].id
    {
      assert jobs[i] in jobs;
    }
  }

  method GroupJobs(jobs: seq<Job>) returns (classes: map<int, seq<Job>>)
    requires DistinctJobs(jobs)
    ensures Grouped(classes, jobs)
  {
    classes := map[];
    for i := 0 to |jobs|
      invariant Grouped(classes, jobs[..i])
    {
      var job := jobs[i];
      GroupNext(classes, jobs[..i], job);
      if IsSchedulable(job.state) {
        var before := if job.priority in classes then classes[job.priority] else [];
        classes := classes[job.priority := before + [job]];
      }
      assert jobs[..i + 1] == jobs[..i] + [job];
    }
    assert jobs[..|jobs|] == jobs;
  }

  /** The schedulable jobs of a queue, by priority, each class in order. */
  method GetSchedulableJobs(queue: JobQueue) returns (classes: map<int, seq<Job>>)
    requires DistinctJobs(queue.jobs)
    ensures Grouped(classes, queue.jobs)
    ensures forall p | p in classes :: InOrder(SnapsOf(queue, classes[p]))
  {
    classes := GroupJobs(queue.jobs);
    var keys := classes.Keys;
    while keys != {}
      invariant forall p | p in keys :: p in classes
      invariant Grouped(classes, queue.jobs)
      invariant forall p | p in classes && p !in keys :: InOrder(SnapsOf(queue, classes[p]))
    {
      SomePriority(keys);
      var p :| p in keys;
      var sorted := SortJobs(classes[p], queue);
      assert sorted != [] by {
        assert classes[p][0] in classes[p];
      }
      classes := classes[p := sorted];
      keys := keys - {p};
    }
  }

  /** The highest priority, searched from 0. */
  method MaxPriority(keys: set<int>) returns (highest: int)
    ensures highest == Highest(keys)
  {
    highest := 0;
    var rest := keys;
    while rest != {}
      invariant (forall k | k in rest :: k in keys) && highest >= 0 && (highest != 0 ==> highest in keys)
      invariant forall k | k in keys && k !in rest :: k <= highest
    {
      SomePriority(rest);
      var p :| p in rest;
      if highest < p {
        highest := p;
      }
      rest := rest - {p};
    }
  }

  /** The schedulable jobs of a queue, as values. */
  ghost function SchedulableSnaps(queue: JobQueue): set<Snap>
    reads queue, queue.jobs
  {
    set j | j in queue.jobs && IsSchedulable(j.state) :: SnapOf(queue, j)
  }

  /** What the cycle needs of the jobs of a queue: priorities that end the loop, tasks that ask for something. */
  ghost predicate Manageable(snaps: set<Snap>) {
    forall s | s in snaps :: s.rec.priority >= 0 && Askable(s.rec.groups)
  }

  /** The classes divide the jobs of one queue by priority, each class in order. */
  ghost predicate Divides(classes: map<int, seq<Snap>>, all: set<Snap>) {
    && (forall p, s | p in classes && s in classes[p] :: s in all && s.rec.priority == p)
    && (forall s | s in all :: s.rec.priority in classes && s in classes[s.rec.priority])
    && (forall p | p in classes :: classes[p] != [] && InOrder(classes[p]))
    && (forall s, t | s in all && t in all ::
      s.queue == t.queue && s.queuePriority == t.queuePriority && (s.id == t.id ==> s == t))
  }

  /** What has been considered is the jobs of the classes not left, and those outrank the classes left. */
  ghost predicate Drained(snaps: seq<Snap>, left: set<int>, classes: map<int, seq<Snap>>, all: set<Snap>) {
    && left <= classes.Keys
    && (forall p, q | p in classes && p !in left && q in left :: q < p)
    && (forall s :: s in snaps <==> s in all && s.rec.priority !in left)
  }

  lemma DrainOne(snaps: seq<Snap>, left: set<int>, classes: map<int, seq<Snap>>, all: set<Snap>, p: int, es: seq<Entry>,
                 more: seq<Entry>)
    requires Divides(classes, all) && Drained(snaps, left, classes, all) && p in left && p == Highest(left)
    requires Enumerates(es, snaps) && Enumerates(more, classes[p])
    ensures Drained(snaps + classes[p], left - {p}, classes, all)
    ensures Enumerates(es + more, snaps + classes[p])
  {
    forall a, b | a in snaps && b in classes[p]
      ensures a.id != b.id && JobBefore(a, b)
    {
      assert a.rec.priority in classes && a.rec.priority !in left;
    }
    EnumeratesConcat(es, snaps, more, classes[p]);
    assert forall s :: s in snaps + classes[p] <==> s in snaps || s in classes[p];
  }

  /** The jobs of each class are some of these, and look like this. */
  ghost predicate ShowClasses(classes: map<int, seq<Job>>, values: map<int, seq<Snap>>, queue: JobQueue, jobs: seq<Job>)
    reads jobs
  {
    && classes.Keys == values.Keys
    && forall p | p in classes :: ShowClass(classes[p], values[p], queue, jobs)
  }

  ghost predicate ShowClass(class_: seq<Job>, snaps: seq<Snap>, queue: JobQueue, jobs: seq<Job>)
    reads jobs
  {
    |class_| == |snaps| && forall i | 0 <= i < |class_| :: class_[i] in jobs && SnapOf(queue, class_[i]) == snaps[i]
  }

  lemma ClassesDivide(queue: JobQueue, classes: map<int, seq<Job>>, values: map<int, seq<Snap>>)
    requires DistinctJobs(queue.jobs) && Grouped(classes, queue.jobs)
    requires forall p | p in classes :: InOrder(SnapsOf(queue, classes[p]))
    requires ShowClasses(classes, values, queue, queue.jobs)
    ensures Divides(values, SchedulableSnaps(queue))
  {
    var all := SchedulableSnaps(queue);
    forall p, s | p in values && s in values[p]
      ensures s in all && s.rec.priority == p
    {
      var i :| 0 <= i < |values[p]| && values[p][i] == s;
      assert classes[p][i] in classes[p];
    }
    forall s | s in all
      ensures s.rec.priority in values && s in values[s.rec.priority]
    {
      var j :| j in queue.jobs && IsSchedulable(j.state) && s == SnapOf(queue, j);
      var i :| 0 <= i < |classes[j.priority]| && classes[j.priority][i] == j;
      assert values[j.priority][i] == s;
    }
  }

  method ClassesOf(queue: JobQueue) returns (classes: map<int, seq<Job>>, ghost values: map<int, seq<Snap>>)
    requires DistinctJobs(queue.jobs)
    ensures ShowClasses(classes, values, queue, queue.jobs)
    ensures Divides(values, SchedulableSnaps(queue))
  {
    classes := GetSchedulableJobs(queue);
    values := map p | p in classes :: SnapsOf(queue, classes[p]);
    ClassesDivide(queue, classes, values);
  }

  /** Considers the highest priority class that is left in a queue. */
  method ScheduleHighest(queue: JobQueue, classes: map<int, seq<Job>>, left: set<int>, nodes: seq<ScheduleNode>,
                         table: seq<ScheduleRecord>,
                         ghost m: Midway, ghost cs: seq<Candidate>, ghost offers: seq<Offer>)
    returns (highest: int, table': seq<ScheduleRecord>, ghost m': Midway)
    requires left != {} && InProgress(m, classes, left, queue, queue.jobs)
    requires Planning(Views(nodes), nodes, table, cs + CandidatesIn(m.es), offers)
    modifies nodes, set n | n in nodes :: n.available
    ensures highest in left && InProgress(m', classes, left - {highest}, queue, queue.jobs)
    ensures m'.values == m.values && m'.all == m.all
    ensures Planning(Views(nodes), nodes, table', cs + CandidatesIn(m'.es), offers)
  {
    highest := MaxPriority(left);
    HighestClass(m, classes, left, queue, queue.jobs);
    ghost var more;
    table', more := ScheduleChosen(highest, queue, classes, nodes, table, m.values, cs + CandidatesIn(m.es), offers);
    m' := Advanced(m, classes, left, queue, queue.jobs, more, cs);
  }

  /** Considers one priority class; the jobs and the classes stay as they are. */
  method ScheduleChosen(highest: int, queue: JobQueue, classes: map<int, seq<Job>>, nodes: seq<ScheduleNode>,
                        table: seq<ScheduleRecord>, ghost values: map<int, seq<Snap>>,
                        ghost cs: seq<Candidate>, ghost offers: seq<Offer>)
    returns (table': seq<ScheduleRecord>, ghost more: seq<Entry>)
    requires ShowClasses(classes, values, queue, queue.jobs) && highest in classes && highest in values
    requires SnapsOf(queue, classes[highest]) == values[highest] && InOrder(values[highest])
      && AllAskable(values[highest])
    requires Planning(Views(nodes), nodes, table, cs, offers)
    modifies nodes, set n | n in nodes :: n.available
    ensures ShowClasses(classes, values, queue, queue.jobs) && Enumerates(more, values[highest])
    ensures Planning(Views(nodes), nodes, table', cs + CandidatesIn(more), offers)
  {
    table', more := ScheduleClass(classes[highest], nodes, table, queue, cs, offers);
    assert ShowClasses(classes, values, queue, queue.jobs);
  }

  lemma HighestClass(m: Midway, classes: map<int, seq<Job>>, left: set<int>, queue: JobQueue, jobs: seq<Job>)
    requires left != {} && InProgress(m, classes, left, queue, jobs)
    ensures var highest := Highest(left);
      && highest in left && highest in classes && SnapsOf(queue, classes[highest]) == m.values[highest]
      && InOrder(m.values[highest]) && AllAskable(m.values[highest])
  {
    assert forall p | p in left :: ClassOk(p, m.values[p]);
    HighestIsLeft(left);
    assert ShowClass(classes[Highest(left)], m.values[Highest(left)], queue, jobs);
  }

  lemma Advanced(m: Midway, classes: map<int, seq<Job>>, left: set<int>, queue: JobQueue, jobs: seq<Job>,
                 more: seq<Entry>, cs: seq<Candidate>)
    returns (m': Midway)
    requires InProgress(m, classes, left, queue, jobs) && Highest(left) in left
      && Enumerates(more, m.values[Highest(left)])
    ensures InProgress(m', classes, left - {Highest(left)}, queue, jobs)
    ensures m'.values == m.values && m'.all == m.all
    ensures cs + CandidatesIn(m.es) + CandidatesIn(more) == cs + CandidatesIn(m'.es)
  {
    m' := m.(snaps := m.snaps + m.values[Highest(left)], es := m.es + more);
    DrainOne(m.snaps, left, m.values, m.all, Highest(left), m.es, more);
    CandidatesConcat(cs, m.es, more);
  }

  /** The jobs of a queue as values, and what has been considered of them. */
  datatype Midway = Midway(values: map<int, seq<Snap>>, all: set<Snap>, snaps: seq<Snap>, es: seq<Entry>)

  ghost predicate InProgress(m: Midway, classes: map<int, seq<Job>>, left: set<int>, queue: JobQueue, jobs: seq<Job>)
    reads jobs
  {
    && ShowClasses(classes, m.values, queue, jobs) && (forall p | p in m.values :: ClassOk(p, m.values[p]))
    && Divides(m.values, m.all) && Drained(m.snaps, left, m.values, m.all) && Enumerates(m.es, m.snaps)
  }

  /** Considers the schedulable jobs of a queue, one priority class after the other. */
  method ScheduleQueue(queue: JobQueue, nodes: seq<ScheduleNode>, table: seq<ScheduleRecord>,
                       ghost cs: seq<Candidate>, ghost offers: seq<Offer>)
    returns (table': seq<ScheduleRecord>, ghost es: seq<Entry>, ghost snaps: seq<Snap>)
    requires DistinctJobs(queue.jobs) && Manageable(SchedulableSnaps(queue))
    requires Planning(Views(nodes), nodes, table, cs, offers)
    modifies nodes, set n | n in nodes :: n.available
    ensures Enumerates(es, snaps) && forall s :: s in snaps <==> s in old(SchedulableSnaps(queue))
    ensures Planning(Views(nodes), nodes, table', cs + CandidatesIn(es), offers)
  {
    var classes;
    ghost var m;
    classes, m := StartQueue(queue);
    ghost var all := m.all;
    table' := table;
    assert cs + CandidatesIn(m.es) == cs;
    var left := classes.Keys;
    while left != {}
      invariant InProgress(m, classes, left, queue, queue.jobs) && m.all == all
      invariant Planning(Views(nodes), nodes, table', cs + CandidatesIn(m.es), offers)
    {
      var highest;
      highest, table', m := ScheduleHighest(queue, classes, left, nodes, table', m, cs, offers);
      left := left - {highest};
    }
    es, snaps := m.es, m.snaps;
  }

  method StartQueue(queue: JobQueue) returns (classes: map<int, seq<Job>>, ghost m: Midway)
    requires DistinctJobs(queue.jobs) && Manageable(SchedulableSnaps(queue))
    ensures InProgress(m, classes, classes.Keys, queue, queue.jobs)
    ensures m.all == SchedulableSnaps(queue) && m.es == []
  {
    ghost var values;
    classes, values := ClassesOf(queue);
    m := Midway(values, SchedulableSnaps(queue), [], []);
    ClassesAskable(values, m.all);
  }

  ghost predicate ClassOk(p: int, snaps: seq<Snap>) {
    p >= 0 && InOrder(snaps) && AllAskable(snaps)
  }

  lemma ClassesAskable(classes: map<int, seq<Snap>>, all: set<Snap>)
    requires Divides(classes, all) && Manageable(all)
    ensures forall p | p in classes :: ClassOk(p, classes[p])
  {
    forall p | p in classes
      ensures ClassOk(p, classes[p])
    {
      var s := classes[p][0];
      assert s in classes[p] && s in all && s.rec.priority == p;
      forall i | 0 <= i < |classes[p]|
        ensures Askable(classes[p][i].rec.groups)
      {
        assert classes[p][i] in classes[p] && classes[p][i] in all;
      }
    }
  }

  lemma HighestIsLeft(left: set<int>)
    requires left != {} && forall p | p in left :: p >= 0
    ensures Highest(left) in left
  {
    SomePriority(left);
    var p :| p in left;
    assert p <= Highest(left);
  }

  // ----- the whole cycle

  /** The online nodes of a list, in order. */
  function OnlineOf(list: seq<WorkNode>): seq<WorkNode>
    reads list
  {
    if list == [] then []
    else
      var last := list[|list| - 1];
      OnlineOf(list[..|list| - 1]) + if last.state == NodeOnline then [last] else []
  }

  lemma {:induction false} OnlineMembers(list: seq<WorkNode>)
    ensures forall n | n in OnlineOf(list) :: n in list && n.state == NodeOnline
    ensures forall n | n in list && n.state == NodeOnline :: n in OnlineOf(list)
  {
    if list != [] {
      OnlineMembers(list[..|list| - 1]);
    }
  }

  lemma {:induction false} OnlineDistinct(list: seq<WorkNode>)
    requires DistinctNames(list)
    ensures DistinctNames(OnlineOf(list))
  {
    if list != [] {
      var front := list[..|list| - 1];
      OnlineDistinct(front);
      OnlineMembers(front);
      assert forall n | n in front :: n.name != list[|list| - 1].name;
    }
  }

  /** Private copies of these nodes, one each. */
  ghost predicate CopiesOf(nodes: seq<ScheduleNode>, originals: seq<WorkNode>)
    reads set n | n in originals :: n.available
    reads set n | n in nodes :: n.available
  {
    && |nodes| == |originals| && Separate(nodes)
    && forall i | 0 <= i < |nodes| ::
      nodes[i].node == originals[i] && nodes[i].available.Value() == originals[i].available.Value()
  }

  method OnlineNodes(list: seq<WorkNode>) returns (nodes: seq<ScheduleNode>)
    ensures CopiesOf(nodes, OnlineOf(list))
    ensures forall n | n in nodes :: fresh(n) && fresh(n.available)
    ensures forall n, w | n in nodes && w in OnlineOf(list) :: n.available != w.available
  {
    nodes := [];
    for i := 0 to |list|
      invariant CopiesOf(nodes, OnlineOf(list[..i]))
      invariant forall n | n in nodes :: fresh(n) && fresh(n.available)
      invariant forall n, w | n in nodes && w in list :: n.available != w.available
    {
      assert list[..i + 1][..i] == list[..i];
      if list[i].state == NodeOnline {
        var copy := new ScheduleNode(list[i]);
        nodes := nodes + [copy];
      }
    }
    assert list[..|list|] == list;
    OnlineMembers(list);
  }

  /** The snaps of several queues: each is of one of the first queues, and ranks before the later ones. */
  ghost predicate QueueSnaps(queues: seq<JobQueue>, values: seq<set<Snap>>)
    reads queues, set i, k | 0 <= i < |queues| && 0 <= k < |queues[i].jobs| :: queues[i].jobs[k]
  {
    |values| == |queues| && forall i | 0 <= i < |queues| :: SchedulableSnaps(queues[i]) == values[i]
  }

  ghost function ValuesOf(queues: seq<JobQueue>, n: nat): (values: seq<set<Snap>>)
    requires n <= |queues|
    reads queues, set i, k | 0 <= i < |queues| && 0 <= k < |queues[i].jobs| :: queues[i].jobs[k]
    ensures |values| == n && forall i | 0 <= i < n :: values[i] == SchedulableSnaps(queues[i])
  {
    if n == 0 then [] else ValuesOf(queues, n - 1) + [SchedulableSnaps(queues[n - 1])]
  }

  /** Queues in order, whose jobs have distinct IDs. */
  ghost predicate QueuesInOrder(values: seq<set<Snap>>) {
    && (forall i, j, a, b | 0 <= i < j < |values| && a in values[i] && b in values[j] ::
      a.id != b.id && JobBefore(a, b))
    && (forall i | 0 <= i < |values| :: Manageable(values[i]))
  }

  /** The snaps are exactly those of the first queues. */
  ghost predicate OfFirst(snaps: seq<Snap>, values: seq<set<Snap>>, n: nat)
    requires n <= |values|
  {
    && (forall i, s | 0 <= i < n && s in values[i] :: s in snaps)
    && (forall s | s in snaps :: exists i :: 0 <= i < n && s in values[i])
  }

  lemma NextQueue(snaps: seq<Snap>, values: seq<set<Snap>>, n: nat, es: seq<Entry>, more: seq<Entry>, snaps': seq<Snap>)
    requires QueuesInOrder(values) && n < |values| && OfFirst(snaps, values, n) && Enumerates(es, snaps)
    requires Enumerates(more, snaps') && forall s :: s in snaps' <==> s in values[n]
    ensures OfFirst(snaps + snaps', values, n + 1) && Enumerates(es + more, snaps + snaps')
    ensures CandidatesIn(es) + CandidatesIn(more) == CandidatesIn(es + more)
  {
    FirstOutrank(snaps, values, n, snaps');
    EnumeratesConcat(es, snaps, more, snaps');
    OfFirstNext(snaps, values, n, snaps');
    assert [] + CandidatesIn(es) == CandidatesIn(es);
    CandidatesConcat([], es, more);
  }

  lemma FirstOutrank(snaps: seq<Snap>, values: seq<set<Snap>>, n: nat, snaps': seq<Snap>)
    requires QueuesInOrder(values) && n < |values| && OfFirst(snaps, values, n)
    requires forall s | s in snaps' :: s in values[n]
    ensures forall a, b | a in snaps && b in snaps' :: a.id != b.id && JobBefore(a, b)
  {
    forall a, b | a in snaps && b in snaps'
      ensures a.id != b.id && JobBefore(a, b)
    {
      var i :| 0 <= i < n && a in values[i];
    }
  }

  lemma OfFirstNext(snaps: seq<Snap>, values: seq<set<Snap>>, n: nat, snaps': seq<Snap>)
    requires n < |values| && OfFirst(snaps, values, n) && forall s :: s in snaps' <==> s in values[n]
    ensures OfFirst(snaps + snaps', values, n + 1)
  {
    forall s | s in snaps + snaps'
      ensures exists i :: 0 <= i < n + 1 && s in values[i]
    {
      if s in snaps {
        var i :| 0 <= i < n && s in values[i];
      } else {
        assert s in values[n];
      }
    }
  }

  /** Considers the queues one after the other. */
  method ScheduleQueues(queues: seq<JobQueue>, nodes: seq<ScheduleNode>, ghost values: seq<set<Snap>>,
                        ghost offers: seq<Offer>)
    returns (table: seq<ScheduleRecord>, ghost es: seq<Entry>, ghost snaps: seq<Snap>)
    requires QueueSnaps(queues, values) && QueuesInOrder(values)
    requires forall q | q in queues :: q.enabled && DistinctJobs(q.jobs)
    requires Planning(Views(nodes), nodes, [], [], offers)
    modifies nodes, set n | n in nodes :: n.available
    ensures QueueSnaps(queues, values) && Enumerates(es, snaps) && OfFirst(snaps, values, |values|)
    ensures Planning(Views(nodes), nodes, table, CandidatesIn(es), offers)
  {
    table, es, snaps := [], [], [];
    ghost var considered: seq<Candidate> := [];
    for i := 0 to |queues|
      invariant QueueSnaps(queues, values)
      invariant Enumerates(es, snaps) && OfFirst(snaps, values, i) && considered == CandidatesIn(es)
      invariant Planning(Views(nodes), nodes, table, considered, offers)
    {
      var queue := queues[i];
      if queue.enabled == false {
        continue;
      }
      table, es, snaps := NextOf(queues, i, nodes, table, values, es, snaps, offers);
      considered := CandidatesIn(es);
    }
  }

  method NextOf(queues: seq<JobQueue>, i: nat, nodes: seq<ScheduleNode>, table: seq<ScheduleRecord>,
                ghost values: seq<set<Snap>>,
                ghost es: seq<Entry>, ghost snaps: seq<Snap>, ghost offers: seq<Offer>)
    returns (table': seq<ScheduleRecord>, ghost es': seq<Entry>, ghost snaps': seq<Snap>)
    requires QueueSnaps(queues, values) && QueuesInOrder(values) && i < |queues| && DistinctJobs(queues[i].jobs)
    requires Enumerates(es, snaps) && OfFirst(snaps, values, i)
      && Planning(Views(nodes), nodes, table, CandidatesIn(es), offers)
    modifies nodes, set n | n in nodes :: n.available
    ensures QueueSnaps(queues, values) && Enumerates(es', snaps') && OfFirst(snaps', values, i + 1)
    ensures Planning(Views(nodes), nodes, table', CandidatesIn(es'), offers)
  {
    assert SchedulableSnaps(queues[i]) == values[i] && Manageable(values[i]);
    ghost var more, of;
    table', more, of := ScheduleQueue(queues[i], nodes, table, CandidatesIn(es), offers);
    NextQueue(snaps, values, i, es, more, of);
    es', snaps' := es + more, snaps + of;
  }

  function OfferOf(node: WorkNode): Offer
    reads node.available
  {
    Offer(node.name, node.labels, node.taints, node.resources, node.available.Value())
  }

  function OffersOf(nodes: seq<WorkNode>): (offers: seq<Offer>)
    reads set n | n in nodes :: n.available
    ensures |offers| == |nodes| && forall i | 0 <= i < |nodes| :: offers[i] == OfferOf(nodes[i])
  {
    seq(|nodes|, i requires 0 <= i < |nodes| reads set n | n in nodes :: n.available => OfferOf(nodes[i]))
  }

  /** What planning needs: no schedulable job of an enabled queue has a negative priority or a task that
      asks for nothing, and every online node can be scored. */
  ghost predicate Plannable(state: StateStore, list: seq<WorkNode>)
    reads state, state.jobQueues.Values, set k, i | k in state.jobQueues && 0 <= i < |state.jobQueues[k].jobs| ::
      state.jobQueues[k].jobs[i]
    reads list, set n | n in list :: n.available
  {
    && (forall k | k in state.jobQueues && state.jobQueues[k].enabled ::
      Manageable(SchedulableSnaps(state.jobQueues[k])))
    && (forall n | n in list && n.state == NodeOnline :: Scorable(OfferOf(n)))
  }

  lemma DistinctQueues(state: StateStore, queues: seq<JobQueue>, values: seq<set<Snap>>)
    requires state.Valid() && QueueSnaps(queues, values)
    requires forall q | q in queues :: q.name in state.jobQueues && state.jobQueues[q.name] == q
    requires forall i, j | 0 <= i < j < |queues| ::
      queues[i].name != queues[j].name && queues[i].priority >= queues[j].priority
    requires forall q | q in queues :: Manageable(SchedulableSnaps(q))
    ensures QueuesInOrder(values) && forall q | q in queues :: DistinctJobs(q.jobs)
  {
    forall q | q in queues
      ensures Lists(q.jobs, state.jobMap, Resources.Some(q.name))
    {
      assert state.jobQueues[q.name] == q;
    }
    forall i, j, a, b | 0 <= i < j < |values| && a in values[i] && b in values[j]
      ensures a.id != b.id && JobBefore(a, b)
    {
      var ja :| ja in queues[i].jobs && a == SnapOf(queues[i], ja);
      var jb :| jb in queues[j].jobs && b == SnapOf(queues[j], jb);
      assert queues[i] in queues && queues[j] in queues;
      assert ja.queue == queues[i].name && jb.queue == queues[j].name;
      assert state.jobMap[ja.id] == ja && state.jobMap[jb.id] == jb;
    }
  }

  /** The jobs of the queues as values, queue after queue. */
  lemma QueueValues(state: StateStore, queues: seq<JobQueue>) returns (values: seq<set<Snap>>)
    requires state.Valid()
    requires forall q | q in queues :: q.name in state.jobQueues && state.jobQueues[q.name] == q
    requires forall i, j | 0 <= i < j < |queues| ::
      queues[i].name != queues[j].name && queues[i].priority >= queues[j].priority
    requires forall q | q in queues :: Manageable(SchedulableSnaps(q))
    ensures QueueSnaps(queues, values) && QueuesInOrder(values) && forall q | q in queues :: DistinctJobs(q.jobs)
  {
    values := ValuesOf(queues, |queues|);
    DistinctQueues(state, queues, values);
  }

  /** The job of a snap waits in an enabled queue. */
  ghost predicate FromEnabled(s: Snap, state: StateStore)
    reads state, state.jobQueues.Values, set k, i | k in state.jobQueues && 0 <= i < |state.jobQueues[k].jobs| ::
      state.jobQueues[k].jobs[i]
  {
    exists k :: k in state.jobQueues && state.jobQueues[k].enabled && s in SchedulableSnaps(state.jobQueues[k])
  }

  lemma FirstAreEnabled(state: StateStore, queues: seq<JobQueue>, values: seq<set<Snap>>, snaps: seq<Snap>)
    requires QueueSnaps(queues, values) && OfFirst(snaps, values, |values|)
    requires forall q | q in queues :: q.enabled && q.name in state.jobQueues && state.jobQueues[q.name] == q
    requires forall k | k in state.jobQueues && state.jobQueues[k].enabled :: state.jobQueues[k] in queues
    ensures forall s :: s in snaps <==> FromEnabled(s, state)
  {
    forall s | s in snaps
      ensures FromEnabled(s, state)
    {
      var i :| 0 <= i < |values| && s in values[i];
      assert queues[i] in queues && s in SchedulableSnaps(state.jobQueues[queues[i].name]);
    }
    forall s | FromEnabled(s, state)
      ensures s in snaps
    {
      var k :| k in state.jobQueues && state.jobQueues[k].enabled && s in SchedulableSnaps(state.jobQueues[k]);
      var i :| 0 <= i < |queues| && queues[i] == state.jobQueues[k];
      assert s in values[i];
    }
  }

  lemma StartPlanning(nodes: seq<ScheduleNode>, list: seq<WorkNode>)
    requires CopiesOf(nodes, OnlineOf(list)) && forall n | n in list && n.state == NodeOnline :: Scorable(OfferOf(n))
    ensures Planning(Views(nodes), nodes, [], [], OffersOf(OnlineOf(list)))
  {
    var online := OnlineOf(list);
    OnlineMembers(list);
    assert forall i | 0 <= i < |online| :: online[i] in online;
    assert Views(nodes) == OffersOf(online);
  }

  /** What a cycle started from: copies of the online nodes, and their offers. */
  ghost predicate Started(nodes: seq<ScheduleNode>, offers: seq<Offer>, online: seq<WorkNode>)
    reads set n | n in online :: n.available
  {
    && |nodes| == |online| == |offers|
    && forall i | 0 <= i < |nodes| :: nodes[i].node == online[i] && offers[i] == OfferOf(online[i])
  }

  /** One schedule cycle. It plans on fresh copies of the online nodes and changes nothing that existed:
      unless there is no enabled queue or no online node, the table is that of the plan for all
      schedulable tasks of all enabled queues, in order, starting from the nodes' availabilities. */
  method ScheduleCycle(state: StateStore, cache: NodeCache)
    returns (table: seq<ScheduleRecord>, nodes: seq<ScheduleNode>, ghost es: seq<Entry>, ghost snaps: seq<Snap>,
             ghost offers: seq<Offer>)
    requires state.Valid() && Plannable(state, cache.nodeList)
    ensures forall n | n in nodes :: fresh(n) && fresh(n.available)
    ensures nodes == [] ==> table == []
    ensures nodes == [] ==>
      OnlineOf(cache.nodeList) == [] || forall k | k in state.jobQueues :: !state.jobQueues[k].enabled
    ensures nodes != [] ==>
      && Started(nodes, offers, OnlineOf(cache.nodeList))
      && Planning(Views(nodes), nodes, table, CandidatesIn(es), offers)
      && Enumerates(es, snaps) && forall s :: s in snaps <==> FromEnabled(s, state)
  {
    table, nodes, es, snaps, offers := [], [], [], [], [];
    var queues := state.GetSchedulableQueues();
    if |queues| == 0 {
      return;
    }
    nodes := OnlineNodes(cache.nodeList);
    if |nodes| == 0 {
      return;
    }
    table, es, snaps, offers := PlanOn(state, queues, nodes, cache.nodeList);
  }

  /** Plans the queues on fresh copies of the online nodes of a list. */
  method PlanOn(state: StateStore, queues: seq<JobQueue>, nodes: seq<ScheduleNode>, ghost list: seq<WorkNode>)
    returns (table: seq<ScheduleRecord>, ghost es: seq<Entry>, ghost snaps: seq<Snap>, ghost offers: seq<Offer>)
    requires state.Valid() && CopiesOf(nodes, OnlineOf(list))
    requires forall n | n in list && n.state == NodeOnline :: Scorable(OfferOf(n))
    requires forall n, w | n in nodes && w in OnlineOf(list) :: n.available != w.available
    requires forall q | q in queues :: q.enabled && q.name in state.jobQueues && state.jobQueues[q.name] == q
    requires forall k | k in state.jobQueues && state.jobQueues[k].enabled :: state.jobQueues[k] in queues
    requires forall i, j | 0 <= i < j < |queues| ::
      queues[i].name != queues[j].name && queues[i].priority >= queues[j].priority
    requires forall q | q in queues :: Manageable(SchedulableSnaps(q))
    modifies nodes, set n | n in nodes :: n.available
    ensures Started(nodes, offers, OnlineOf(list)) && Planning(Views(nodes), nodes, table, CandidatesIn(es), offers)
    ensures Enumerates(es, snaps) && forall s :: s in snaps <==> FromEnabled(s, state)
  {
    StartPlanning(nodes, list);
    ghost var online := OnlineOf(list);
    offers := OffersOf(online);
    table, es, snaps := PlanQueues(state, queues, nodes, offers);
    assert OnlineOf(list) == online;
    forall i | 0 <= i < |online|
      ensures OfferOf(online[i]) == offers[i]
    {
      assert online[i] in online;
    }
  }

  method PlanQueues(state: StateStore, queues: seq<JobQueue>, nodes: seq<ScheduleNode>, ghost offers: seq<Offer>)
    returns (table: seq<ScheduleRecord>, ghost es: seq<Entry>, ghost snaps: seq<Snap>)
    requires state.Valid()
    requires forall q | q in queues :: q.enabled && q.name in state.jobQueues && state.jobQueues[q.name] == q
    requires forall k | k in state.jobQueues && state.jobQueues[k].enabled :: state.jobQueues[k] in queues
    requires forall i, j | 0 <= i < j < |queues| ::
      queues[i].name != queues[j].name && queues[i].priority >= queues[j].priority
    requires forall q | q in queues :: Manageable(SchedulableSnaps(q))
    requires Planning(Views(nodes), nodes, [], [], offers)
    modifies nodes, set n | n in nodes :: n.available
    ensures Planning(Views(nodes), nodes, table, CandidatesIn(es), offers)
    ensures Enumerates(es, snaps) && forall s :: s in snaps <==> FromEnabled(s, state)
  {
    ghost var values := QueueValues(state, queues);
    table, es, snaps := ScheduleQueues(queues, nodes, values, offers);
    FirstAreEnabled(state, queues, values, snaps);
  }

  // ----- what a cycle considers

  /** A cycle considers exactly the queued tasks of the queued and executing jobs of enabled queues, except where
      a group the task's group depends on counts fewer completions than it has tasks; and each as it is. */
  lemma ConsideredExactly(state: StateStore, es: seq<Entry>, snaps: seq<Snap>, k: string, job: Job, ref: TaskRef)
    requires state.Valid() && k in state.jobQueues && job in state.jobQueues[k].jobs && Within(job.groups, ref)
    requires Enumerates(es, snaps) && forall s :: s in snaps <==> FromEnabled(s, state)
    ensures var task := TaskAt(job.groups, ref);
      (exists e :: e in es
         && e.candidate == Candidate(job.id, ref, task.labels, task.taints, task.resources) && e.snap.id == job.id)
      <==>
      && state.jobQueues[k].enabled && job.state in {JobQueued, JobExecuting} && task.state == TaskQueued
      && forall g | 0 <= g < |job.groups| && job.groups[g].name in job.groups[ref.group].dependents
                    && (forall i | 0 <= i < g :: job.groups[i].name != job.groups[g].name) ::
           job.groups[g].completions == |job.groups[g].tasks|
  {
    SchedulableMeans(job.groups, ref);
    ConsideredIfSchedulable(state, es, snaps, k, job, ref);
  }

  lemma ConsideredIfSchedulable(state: StateStore, es: seq<Entry>, snaps: seq<Snap>, k: string, job: Job, ref: TaskRef)
    requires state.Valid() && k in state.jobQueues && job in state.jobQueues[k].jobs && Within(job.groups, ref)
    requires Enumerates(es, snaps) && forall s :: s in snaps <==> FromEnabled(s, state)
    ensures var task := TaskAt(job.groups, ref);
      (exists e :: e in es
         && e.candidate == Candidate(job.id, ref, task.labels, task.taints, task.resources) && e.snap.id == job.id)
      <==> state.jobQueues[k].enabled && IsSchedulable(job.state) && TaskSchedulable(job.groups, ref)
  {
    var queue, task := state.jobQueues[k], TaskAt(job.groups, ref);
    var snap, c := SnapOf(queue, job), Candidate(job.id, ref, task.labels, task.taints, task.resources);
    if exists e :: e in es && e.candidate == c && e.snap.id == job.id {
      var e :| e in es && e.candidate == c && e.snap.id == job.id;
      SnapOfJob(state, e.snap, k, job);
    }
    if queue.enabled && IsSchedulable(job.state) && TaskSchedulable(job.groups, ref) {
      assert snap in SchedulableSnaps(queue) && FromEnabled(snap, state);
      assert Entry(snap, c) in es && Entry(snap, c).candidate == c;
    }
  }

  /** Jobs are told apart by their IDs. */
  lemma SnapOfJob(state: StateStore, snap: Snap, k: string, job: Job)
    requires state.Valid() && k in state.jobQueues && job in state.jobQueues[k].jobs
    requires FromEnabled(snap, state) && snap.id == job.id
    ensures state.jobQueues[k].enabled && IsSchedulable(job.state) && snap == SnapOf(state.jobQueues[k], job)
  {
    var l :| l in state.jobQueues && state.jobQueues[l].enabled && snap in SchedulableSnaps(state.jobQueues[l]);
    var other :| other in state.jobQueues[l].jobs && IsSchedulable(other.state)
      && snap == SnapOf(state.jobQueues[l], other);
    assert Lists(state.jobQueues[l].jobs, state.jobMap, Resources.Some(l));
    assert Lists(state.jobQueues[k].jobs, state.jobMap, Resources.Some(k));
  }

  // ----- what a cycle has achieved

  /** Every schedulable task of the cycle has a row in the table, or is refused by what remains
      available on every node. */
  lemma CycleIsMaximal(views: seq<Offer>, nodes: seq<ScheduleNode>, table: seq<ScheduleRecord>,
                       es: seq<Entry>, offers: seq<Offer>, k: nat)
    requires Planning(views, nodes, table, CandidatesIn(es), offers) && k < |es|
    ensures (exists m :: 0 <= m < |table| && table[m].candidate == es[k].candidate)
      || forall i | 0 <= i < |views| :: !Accepts(views[i], es[k].candidate)
  {
    var cs := CandidatesIn(es);
    if LeftOut(cs, offers, k) {
      forall i | 0 <= i < |views|
        ensures !Accepts(views[i], es[k].candidate)
      {
        LeftOutIsRefused(cs, offers, k, |cs|, i);
      }
    } else {
      var rows := Plan(cs, offers, |cs|).rows;
      var m := PlacedHasRow(cs, offers, k, |cs|);
      assert table[m].candidate == rows[m].candidate;
    }
  }

  lemma {:induction false} PlacedHasRow(cs: seq<Candidate>, offers: seq<Offer>, k: nat, n: nat) returns (m: nat)
    requires AllAsk(cs) && AllScorable(offers) && k < n <= |cs| && !LeftOut(cs, offers, k)
    ensures m < |Plan(cs, offers, n).rows| && Plan(cs, offers, n).rows[m].candidate == cs[k]
  {
    if k == n - 1 {
      m := |Plan(cs, offers, n - 1).rows|;
    } else {
      m := PlacedHasRow(cs, offers, k, n - 1);
    }
  }

  /** The table holds schedulable tasks only, none twice. */
  lemma TablePositions(views: seq<Offer>, nodes: seq<ScheduleNode>, table: seq<ScheduleRecord>,
                       es: seq<Entry>, snaps: seq<Snap>, offers: seq<Offer>)
    returns (at: seq<nat>)
    requires Planning(views, nodes, table, CandidatesIn(es), offers) && Enumerates(es, snaps)
    ensures |at| == |table| && forall m | 0 <= m < |table| ::
      at[m] < |es| && table[m].candidate == es[at[m]].candidate && Schedules(es[at[m]])
    ensures forall m, l | 0 <= m < l < |table| :: Before(es[at[m]], es[at[l]])
    ensures forall m, l | 0 <= m < l < |table| ::
      !(table[m].candidate.job == table[l].candidate.job && table[m].candidate.ref == table[l].candidate.ref)
  {
    at := RowPositions(CandidatesIn(es), offers, |es|);
    assert forall k | 0 <= k < |es| :: es[k] in es && es[k].candidate.job == es[k].snap.id;
    forall m, l | 0 <= m < l < |table|
      ensures Before(es[at[m]], es[at[l]])
      ensures !(table[m].candidate.job == table[l].candidate.job && table[m].candidate.ref == table[l].candidate.ref)
    {
      assert at[m] < at[l];
    }
  }

  /** The rows of the table follow the order of the cycle: tasks of one job by GPU cards; jobs by the priority of
      their queues, and in one queue by their own priority, then submission, then number of tasks. */
  lemma TableInOrder(views: seq<Offer>, nodes: seq<ScheduleNode>, table: seq<ScheduleRecord>,
                     es: seq<Entry>, snaps: seq<Snap>, offers: seq<Offer>)
    returns (at: seq<nat>)
    requires Planning(views, nodes, table, CandidatesIn(es), offers) && Enumerates(es, snaps)
    ensures |at| == |table| && forall m | 0 <= m < |table| ::
      at[m] < |es| && table[m].candidate == es[at[m]].candidate && Schedules(es[at[m]])
    ensures forall m, l | 0 <= m < l < |table| ::
      !(table[m].candidate.job == table[l].candidate.job && table[m].candidate.ref == table[l].candidate.ref)
    ensures forall m, l | 0 <= m < l < |table| ::
      var a, b := es[at[m]].snap, es[at[l]].snap;
      if a.id == b.id then table[m].candidate.demand.cards >= table[l].candidate.demand.cards
      else
        && a.queuePriority >= b.queuePriority
        && (a.queuePriority == b.queuePriority && a.queue == b.queue ==>
              && a.rec.priority >= b.rec.priority
              && (a.rec.priority == b.rec.priority ==> a.rec.submitTime <= b.rec.submitTime)
              && (a.rec.priority == b.rec.priority && a.rec.submitTime == b.rec.submitTime ==>
                    a.totalTasks <= b.totalTasks))
  {
    at := TablePositions(views, nodes, table, es, snaps, offers);
  }
}
