/** The server's requests, on its real indexes and objects, proved to be steps of the state machine. */
module Servers {
  import opened Resources
  import opened TaskIds
  import opened Tasks
  import opened Jobs
  import opened StateStores
  import opened Messages
  import opened NodeCaches
  import opened Cluster
  import opened Effects

  const DEFAULT_QUEUE := "default"

  // ----- what the objects stand for

  ghost predicate ShowsJobs(jobMap: map<string, Job>, jobs: map<string, JobRec>)
    reads jobMap.Values
  {
    && (forall id :: id in jobs <==> id in jobMap)
    && forall id {:trigger jobMap[id]} | id in jobMap :: ShowsJob(jobMap[id], id, jobs[id])
  }

  ghost predicate ShowsJob(job: Job, id: string, rec: JobRec)
    reads job
  {
    job.id == id && job.Rec() == rec && job.Valid()
  }

  ghost predicate ShowsNodes(nodeMap: map<string, WorkNode>, recs: map<string, NodeRec>)
    reads nodeMap.Values, set n | n in nodeMap.Values :: n.available
  {
    && (forall k :: k in recs <==> k in nodeMap) && OwnAvailability(nodeMap)
    && forall k {:trigger nodeMap[k]} | k in nodeMap :: ShowsNode(nodeMap[k], k, recs[k])
  }

  ghost predicate ShowsNode(node: WorkNode, name: string, rec: NodeRec)
    reads node, node.available
  {
    node.name == name && node.Rec() == rec
  }

  lemma NodeAdded(nodeMap: map<string, WorkNode>, recs: map<string, NodeRec>, node: WorkNode)
    requires ShowsNodes(nodeMap, recs) && forall k | k in nodeMap :: nodeMap[k].available != node.available
    ensures ShowsNodes(nodeMap[node.name := node], recs[node.name := node.Rec()])
  {
    assert ShowsNode(node, node.name, node.Rec());
  }

  ghost predicate ShowsMail(mail: Shards, boxes: map<string, seq<Message>>) {
    mail.Ok() && forall k | k in boxes :: mail.HasBucket(k) && mail.Box(k) == boxes[k]
  }

  function ReturnedTo(recs: map<string, NodeRec>, name: string, demand: Amounts): map<string, NodeRec> {
    if name in recs then recs[name := recs[name].(available := GivenBack(recs[name].available, demand))] else recs
  }

  /** A report of an existing job names one of its tasks. */
  ghost predicate Reportable(s: State, report: TaskReport) {
    ParseTaskId(report.id).0 in s.jobs ==> Named(s, report.id).Some?
  }

  function TaskIn(s: State, id: string): Task
    requires Named(s, id).Some?
  {
    var (job, ref) := Named(s, id).value;
    TaskAt(s.jobs[job].groups, ref)
  }

  /** A report of an existing job found its task, with the node and the amounts that it was charged. */
  predicate Charges(s: State, report: TaskReport, task: Option<Task>) {
    && (task.Some? <==> Named(s, report.id).Some?)
    && (task.Some? ==>
          var t := TaskIn(s, report.id);
          task.value.nodeName == t.nodeName && task.value.resources == t.resources)
  }

  ghost predicate Frees(s: State, report: TaskReport) {
    Named(s, report.id).Some? && IsFinishState(report.state)
  }

  ghost function FreedIn(s: State, report: TaskReport): map<string, NodeRec> {
    if Frees(s, report)
      then ReturnedTo(s.nodes, TaskIn(s, report.id).nodeName, TaskIn(s, report.id).resources) else s.nodes
  }

  /** A report changes the jobs, and if its task is finished the node. */
  lemma ReportParts(s: State, report: TaskReport)
    requires Shape(s)
    ensures var s' := ReportedTo(s, report);
      Shape(s') && s'.jobs == NotedIn(s, report) && s'.nodes == FreedIn(s, report) && s'.boxes == s.boxes
  {
  }

  ghost function AllReportedTo(s: State, updates: seq<TaskReport>): (s': State)
    requires Shape(s)
    ensures Shape(s')
  {
    if updates == [] then s
    else
      var before := AllReportedTo(s, updates[..|updates| - 1]);
      ReportParts(before, updates[|updates| - 1]);
      ReportedTo(before, updates[|updates| - 1])
  }

  /** The first `n` reports have been applied. */
  ghost predicate Applied(s: State, updates: seq<TaskReport>, n: nat, s': State, freed: bool)
    requires Shape(s) && n <= |updates|
  {
    && s' == AllReportedTo(s, updates[..n])
    && (forall u | u in updates :: Reportable(s', u) && (Frees(s', u) <==> Frees(s, u)))
    && (freed <==> exists i :: 0 <= i < n && Frees(s, updates[i]))
  }

  lemma ApplyNext(s: State, updates: seq<TaskReport>, n: nat, s': State, freed: bool)
    requires Shape(s) && n < |updates| && Applied(s, updates, n, s', freed)
    ensures Reportable(s', updates[n])
    ensures Applied(s, updates, n + 1, ReportedTo(s', updates[n]), freed || Frees(s', updates[n]))
  {
    assert updates[..n + 1][..n] == updates[..n];
    ReportParts(s', updates[n]);
    forall u | u in updates
      ensures Reportable(ReportedTo(s', updates[n]), u) && (Frees(ReportedTo(s', updates[n]), u) <==> Frees(s', u))
    {
      StillNamed(s', updates[n], u);
    }
  }

  lemma StillNamed(s: State, report: TaskReport, u: TaskReport)
    requires Shape(s) && Reportable(s, u)
    ensures Reportable(ReportedTo(s, report), u) && (Frees(ReportedTo(s, report), u) <==> Frees(s, u))
  {
    ReportParts(s, report);
  }

  lemma AllApplied(s: State, updates: seq<TaskReport>, s': State, freed: bool)
    requires Shape(s) && Applied(s, updates, |updates|, s', freed)
    ensures s' == AllReportedTo(s, updates) && (freed <==> SomeFrees(s, updates))
  {
    assert updates[..|updates|] == updates;
  }

  ghost predicate SomeFrees(s: State, updates: seq<TaskReport>) {
    exists i :: 0 <= i < |updates| && Frees(s, updates[i])
  }

  /** Some report of an existing job says that a task is finished. */
  lemma FreesMeans(s: State, updates: seq<TaskReport>)
    requires forall u | u in updates :: Reportable(s, u)
    ensures SomeFrees(s, updates) <==> exists u ::
      && u in updates && ParseTaskId(u.id).0 in s.jobs
      && u.state in {TaskCompleted, TaskFailed, TaskAborted, TaskTerminated}
  {
    if SomeFrees(s, updates) {
      var i :| 0 <= i < |updates| && Frees(s, updates[i]);
      assert updates[i] in updates;
    }
    if exists u :: u in updates && Frees(s, u) {
      var u :| u in updates && Frees(s, u);
      var i :| 0 <= i < |updates| && updates[i] == u;
      assert Frees(s, updates[i]);
    }
  }

  /** A message arrives at a node's mailbox; what it withdraws is given back. */
  function Notified(s: State, name: string, msg: Message): State
    requires name in s.nodes && name in s.boxes
  {
    s.(nodes := s.nodes[name := Restored(s.nodes[name], s.boxes[name], msg)],
       boxes := s.boxes[name := Kept(s.boxes[name], msg) + [msg]])
  }

  lemma MailIgnored(mail: Shards, mail': Shards, boxes: map<string, seq<Message>>, name: string)
    requires ShowsMail(mail, boxes) && name !in boxes && OthersKept(mail, mail', name)
    ensures ShowsMail(mail', boxes)
  {
  }

  lemma MailChanges(mail: Shards, mail': Shards, boxes: map<string, seq<Message>>, name: string, box: seq<Message>)
    requires ShowsMail(mail, boxes) && MailChanged(mail, mail', name, box)
    ensures ShowsMail(mail', boxes[name := box])
  {
  }

  function Given(value: Option<int>, otherwise: int): int {
    if value.Some? then value.value else otherwise
  }

  ghost function Adjusted(s: State, id: string, priority: Option<int>, maxErrors: Option<int>): State
    requires id in s.jobs
  {
    var job := s.jobs[id];
    s.(jobs := s.jobs[id :=
      job.(priority := Given(priority, job.priority), maxErrors := Given(maxErrors, job.maxErrors))])
  }

  // ----- termination

  ghost predicate HostsKnown(s: State, id: string)
    requires id in s.jobs
  {
    forall n | Hosts(s.jobs[id], n) :: n in s.nodes
  }

  /** The name hosts a task at a position before this one. */
  ghost predicate HostsBefore(groups: seq<TaskGroup>, name: string, g: nat, t: nat) {
    exists ref :: Within(groups, ref) && RefLess(ref, TaskRef(g, t)) && HostsAt(groups, name, ref)
  }

  ghost predicate HostsAt(groups: seq<TaskGroup>, name: string, ref: TaskRef)
    requires Within(groups, ref)
  {
    IsActiveState(TaskAt(groups, ref).state) && TaskAt(groups, ref).nodeName == name
  }

  lemma HostsNext(groups: seq<TaskGroup>, g: nat, t: nat)
    requires Within(groups, TaskRef(g, t))
    ensures forall n :: HostsBefore(groups, n, g, t + 1) <==>
      HostsBefore(groups, n, g, t) || HostsAt(groups, n, TaskRef(g, t))
  {
    forall ref
      ensures RefLess(ref, TaskRef(g, t + 1)) <==> RefLess(ref, TaskRef(g, t)) || ref == TaskRef(g, t)
    {
    }
    forall n | HostsAt(groups, n, TaskRef(g, t))
      ensures HostsBefore(groups, n, g, t + 1)
    {
      assert RefLess(TaskRef(g, t), TaskRef(g, t + 1));
    }
    forall n | HostsBefore(groups, n, g, t)
      ensures HostsBefore(groups, n, g, t + 1)
    {
      var ref :| Within(groups, ref) && RefLess(ref, TaskRef(g, t)) && HostsAt(groups, n, ref);
      assert RefLess(ref, TaskRef(g, t + 1));
    }
  }

  lemma HostsCarry(groups: seq<TaskGroup>, g: nat)
    requires g < |groups|
    ensures forall n :: HostsBefore(groups, n, g + 1, 0) <==> HostsBefore(groups, n, g, |groups[g].tasks|)
  {
    assert forall ref | Within(groups, ref) ::
      RefLess(ref, TaskRef(g + 1, 0)) <==> RefLess(ref, TaskRef(g, |groups[g].tasks|));
  }

  lemma HostsEnd(job: JobRec, name: string)
    ensures HostsBefore(job.groups, name, |job.groups|, 0) <==> Hosts(job, name)
  {
    assert forall ref | Within(job.groups, ref) :: RefLess(ref, TaskRef(|job.groups|, 0));
    if Hosts(job, name) {
      var ref :| Within(job.groups, ref) && IsActiveState(TaskAt(job.groups, ref).state)
        && TaskAt(job.groups, ref).nodeName == name;
      assert HostsAt(job.groups, name, ref) && RefLess(ref, TaskRef(|job.groups|, 0));
    }
  }

  /** The message has arrived at each of these nodes. */
  ghost function NotifiedAll(s: State, names: set<string>, msg: Message): State
    requires Shape(s)
  {
    s.(nodes := map n | n in s.nodes :: if n in names then Restored(s.nodes[n], s.boxes[n], msg) else s.nodes[n],
       boxes := map n | n in s.boxes :: if n in names then Kept(s.boxes[n], msg) + [msg] else s.boxes[n])
  }

  /** All but the names left have been notified. */
  ghost predicate Notifying(s: State, names: set<string>, left: set<string>, msg: Message, s': State) {
    Shape(s) && names <= s.nodes.Keys && s' == NotifiedAll(s, names - left, msg)
  }

  /** The states on the way, by the names left. */
  ghost predicate NotifiedBy(at: set<string> -> State, s: State, names: set<string>, msg: Message) {
    forall left {:trigger Notifying(s, names, left, msg, at(left))} | left <= names ::
      Notifying(s, names, left, msg, at(left))
  }

  lemma NotifyNext(s: State, names: set<string>, left: set<string>, name: string, msg: Message, s': State)
    requires Notifying(s, names, left, msg, s') && left <= names && name in left
    ensures name in s'.nodes && name in s'.boxes && Notifying(s, names, left - {name}, msg, Notified(s', name, msg))
  {
    assert names - (left - {name}) == names - left + {name};
    NotifyMore(s, names - left, name, msg);
  }

  lemma NotifyMore(s: State, done: set<string>, name: string, msg: Message)
    requires Shape(s) && name in s.nodes && name !in done
    ensures name in s.boxes && Notified(NotifiedAll(s, done, msg), name, msg) == NotifiedAll(s, done + {name}, msg)
  {
    var s' := Notified(NotifiedAll(s, done, msg), name, msg);
    assert s'.nodes == NotifiedAll(s, done + {name}, msg).nodes;
    assert s'.boxes == NotifiedAll(s, done + {name}, msg).boxes;
  }

  lemma NotifyStart(s: State, names: set<string>, msg: Message)
    requires Shape(s) && names <= s.nodes.Keys
    ensures Notifying(s, names, names, msg, s)
  {
    assert names - names == {};
  }

  lemma TerminatedParts(s: State, id: string, names: set<string>)
    requires Shape(s) && id in s.jobs && s.jobs[id].state !in {JobTerminated, JobCompleted, JobFailed}
    requires forall n :: n in names <==> Hosts(s.jobs[id], n)
    ensures NotifiedAll(WithState(s, id, JobTerminated), names, Message.TerminateJob(id)) == Terminated(s, id)
  {
  }

  // ----- time-outs

  /** The list of jobs holds every job of the map, once. */
  ghost predicate AllListed(jobList: seq<Job>, jobMap: map<string, Job>) {
    Lists(jobList, jobMap, Resources.None)
  }

  function LateNodes(recs: map<string, NodeRec>, late: set<string>): map<string, NodeRec> {
    map n | n in recs :: recs[n].(state := Mark(recs[n].state, n in late))
  }

  function LateBoxes(boxes: map<string, seq<Message>>, late: set<string>): map<string, seq<Message>> {
    map n | n in boxes :: if n in late then [] else boxes[n]
  }

  function LateJobs(jobs: map<string, JobRec>, late: set<string>): map<string, JobRec> {
    map id | id in jobs :: RequeuedJob(jobs[id], late)
  }

  function StatesIn(recs: map<string, NodeRec>): map<string, NodeState> {
    map n | n in recs :: recs[n].state
  }

  /** The online nodes whose remembered heartbeat has expired. */
  ghost function LateIn(recs: map<string, NodeRec>, mail: Shards, expired: set<string>): set<string>
    requires mail.Ok()
  {
    Late(StatesIn(recs), mail, expired)
  }

  lemma EmptiedMail(mail: Shards, mail': Shards, boxes: map<string, seq<Message>>, late: set<string>)
    requires ShowsMail(mail, boxes) && Emptied(mail, mail', late)
    ensures ShowsMail(mail', LateBoxes(boxes, late))
  {
    assert forall k | k in boxes :: SameOrEmpty(mail, mail', k, k in late);
  }

  lemma TimedOutParts(s: State, late: set<string>)
    ensures TimedOut(s, late) ==
      s.(nodes := LateNodes(s.nodes, late), boxes := LateBoxes(s.boxes, late), jobs := LateJobs(s.jobs, late))
  {
  }

  lemma NothingTimesOut(s: State)
    ensures TimedOut(s, {}) == s
  {
    forall id | id in s.jobs
      ensures RequeuedJob(s.jobs[id], {}) == s.jobs[id]
    {
      var groups := s.jobs[id].groups;
      assert forall g | 0 <= g < |groups| :: RequeuedGroup(groups[g], {}).tasks == groups[g].tasks;
      assert RequeuedJob(s.jobs[id], {}).groups == groups;
    }
  }

  /** The groups when the tasks before position (g, t) have been looked at. */
  ghost function Halfway(groups: seq<TaskGroup>, late: set<string>, g: nat, t: nat): (half: seq<TaskGroup>)
    ensures |half| == |groups| && forall k | 0 <= k < |groups| :: |half[k].tasks| == |groups[k].tasks|
  {
    seq(|groups|, k requires 0 <= k < |groups| =>
      if k < g then RequeuedGroup(groups[k], late) else if k == g then HalfGroup(groups[k], late, t) else groups[k])
  }

  ghost function HalfGroup(group: TaskGroup, late: set<string>, t: nat): TaskGroup {
    group.(tasks := seq(|group.tasks|, k requires 0 <= k < |group.tasks| =>
      if k < t then Requeued(group.tasks[k], late) else group.tasks[k]))
  }

  lemma NotStarted(groups: seq<TaskGroup>, late: set<string>)
    ensures Halfway(groups, late, 0, 0) == groups
  {
    assert forall k | 0 <= k < |groups| :: HalfGroup(groups[k], late, 0).tasks == groups[k].tasks;
  }

  lemma HalfwayNext(groups: seq<TaskGroup>, late: set<string>, g: nat, t: nat)
    requires Within(groups, TaskRef(g, t))
    ensures var half, task := Halfway(groups, late, g, t), groups[g].tasks[t];
      && Within(half, TaskRef(g, t)) && half[g].tasks[t] == task
      && Halfway(groups, late, g, t + 1) == WithTask(half, TaskRef(g, t), Requeued(task, late))
      && (Requeued(task, late) == task ==> Halfway(groups, late, g, t + 1) == half)
      && (Requeued(task, late) != task ==> Halfway(groups, late, g, t + 1) != groups)
  {
    var half, next, task := Halfway(groups, late, g, t), Halfway(groups, late, g, t + 1), groups[g].tasks[t];
    assert next[g].tasks == half[g].tasks[t := Requeued(task, late)];
    assert half[g].tasks[t := task] == half[g].tasks;
    assert next[g].tasks[t] == Requeued(task, late);
  }

  /** The tasks before position (g, t) have been looked at, and `moved` says whether any has changed. */
  ghost predicate Midway(groups: seq<TaskGroup>, was: seq<TaskGroup>, late: set<string>, g: nat, t: nat, moved: bool) {
    groups == Halfway(was, late, g, t) && (moved <==> groups != was)
  }

  lemma MidwayNext(groups: seq<TaskGroup>, was: seq<TaskGroup>, late: set<string>, g: nat, t: nat, moved: bool)
    requires Within(was, TaskRef(g, t)) && Midway(groups, was, late, g, t, moved)
    ensures Within(groups, TaskRef(g, t)) && groups[g].tasks[t] == was[g].tasks[t]
    ensures var task := was[g].tasks[t];
      if IsActiveState(task.state) && task.nodeName in late
      then Midway(WithTask(groups, TaskRef(g, t), Requeued(task, late)), was, late, g, t + 1, true)
      else Midway(groups, was, late, g, t + 1, moved)
  {
    HalfwayNext(was, late, g, t);
  }

  lemma HalfwayCarry(groups: seq<TaskGroup>, late: set<string>, g: nat)
    requires g < |groups|
    ensures Halfway(groups, late, g + 1, 0) == Halfway(groups, late, g, |groups[g].tasks|)
  {
    assert HalfGroup(groups[g], late, |groups[g].tasks|).tasks == RequeuedGroup(groups[g], late).tasks;
    assert forall k | 0 <= k < |groups| :: HalfGroup(groups[k], late, 0).tasks == groups[k].tasks;
  }

  lemma HalfwayEnd(job: JobRec, late: set<string>)
    requires job.state == JobExecuting
    ensures RequeuedJob(job, late).groups == Halfway(job.groups, late, |job.groups|, 0)
  {
  }

  ghost predicate Seen(id: string, jobs: seq<Job>) {
    exists j :: j in jobs && j.id == id
  }

  /** The jobs of this list have been looked at. */
  ghost predicate RequeuedTo(jobs: map<string, JobRec>, late: set<string>, seen: seq<Job>, jobs': map<string, JobRec>) {
    && (forall id :: id in jobs' <==> id in jobs)
    && forall id | id in jobs :: jobs'[id] == if Seen(id, seen) then RequeuedJob(jobs[id], late) else jobs[id]
  }

  /** Looking at one more job. */
  lemma RequeueNext(jobs: map<string, JobRec>, late: set<string>, all: seq<Job>, i: nat, jobs': map<string, JobRec>)
    requires i < |all| && DistinctJobs(all) && RequeuedTo(jobs, late, all[..i], jobs') && all[i].id in jobs
    ensures jobs'[all[i].id] == jobs[all[i].id]
    ensures var job := RequeuedJob(jobs[all[i].id], late); var next := jobs'[all[i].id := job];
      RequeuedTo(jobs, late, all[..i + 1], next) && (next != jobs <==> jobs' != jobs || job != jobs[all[i].id])
  {
    forall id
      ensures Seen(id, all[..i + 1]) <==> id == all[i].id || Seen(id, all[..i])
    {
      assert all[..i + 1] == all[..i] + [all[i]];
      assert all[i] in all[..i + 1];
    }
    OneMoreDiffers(jobs, jobs', all[i].id, RequeuedJob(jobs[all[i].id], late));
  }

  lemma OneMoreDiffers(jobs: map<string, JobRec>, jobs': map<string, JobRec>, id: string, job: JobRec)
    requires (forall x :: x in jobs' <==> x in jobs) && id in jobs && jobs'[id] == jobs[id]
    ensures jobs'[id := job] != jobs <==> jobs' != jobs || job != jobs[id]
  {
    if jobs'[id := job] == jobs {
      forall x | x in jobs
        ensures jobs'[x] == jobs[x]
      {
        assert jobs'[id := job][x] == jobs[x];
      }
    }
  }

  lemma RequeueEnd(jobs: map<string, JobRec>, late: set<string>, all: seq<Job>, jobMap: map<string, Job>,
                   jobs': map<string, JobRec>)
    requires AllListed(all, jobMap) && (forall id :: id in jobs <==> id in jobMap)
    requires forall id {:trigger jobMap[id]} | id in jobMap :: jobMap[id].id == id
    requires RequeuedTo(jobs, late, all, jobs')
    ensures jobs' == LateJobs(jobs, late)
  {
    forall id | id in jobs
      ensures jobs'[id] == RequeuedJob(jobs[id], late)
    {
      assert jobMap[id] in all && jobMap[id].id == id;
    }
  }

  // ----- placement

  function Assigned(s: State, id: string, ref: TaskRef, task: Task): State
    requires id in s.jobs && Within(s.jobs[id].groups, ref)
  {
    s.(jobs := s.jobs[id := s.jobs[id].(groups := WithTask(s.jobs[id].groups, ref, task))])
  }

  function Booked(s: State, name: string, demand: Amounts): State
    requires name in s.nodes
  {
    s.(nodes := s.nodes[name := Charged(s.nodes[name], demand)])
  }

  function PlacedTask(s: State, name: string, id: string, ref: TaskRef): State
    requires name in s.nodes && name in s.boxes && id in s.jobs && Within(s.jobs[id].groups, ref)
  {
    var task := TaskAt(s.jobs[id].groups, ref).(state := TaskScheduled, nodeName := name);
    Notified(Booked(Assigned(s, id, ref, task), name, task.resources), name, ScheduleTask(task.id, task))
  }

  /** Assigning, charging and telling, one after the other, place a task. */
  lemma PlacedParts(s: State, name: string, id: string, ref: TaskRef)
    requires Shape(s) && name in s.nodes && id in s.jobs && Within(s.jobs[id].groups, ref)
    ensures name in s.boxes
    ensures PlacedTask(s, name, id, ref) == Placed(s, name, id, ref)
  {
    var task := TaskAt(s.jobs[id].groups, ref).(state := TaskScheduled, nodeName := name);
    NothingWithdrawn(s.boxes[name], ScheduleTask(task.id, task));
  }

  /** No amount in a specification is negative. */
  ghost predicate NonNegativeSpecs(specs: seq<GroupSpec>) {
    forall g | 0 <= g < |specs| ::
      && (specs[g].resources.Some? ==> NonNegative(specs[g].resources.value))
      && forall t | 0 <= t < |specs[g].tasks| ::
        specs[g].tasks[t].resources.Some? ==> NonNegative(specs[g].tasks[t].resources.value)
  }

  lemma DemandIsNonNegative(own: Option<Amounts>, group: Option<Amounts>)
    requires own.Some? ==> NonNegative(own.value)
    requires group.Some? ==> NonNegative(group.value)
    ensures NonNegative(Demand(own, group))
  {
    var chosen := if own.Some? then own.value else if group.Some? then group.value else STANDARD;
    assert NonNegative(chosen);
    forall kind
      ensures 0 <= Amount(Demand(own, group), kind)
    {
      assert 0 <= Amount(chosen, kind);
    }
  }

  /** A job built from a specification may enter the state machine: its tasks ask for something
      whatever the specification says, and for nothing negative if the specification does not. */
  lemma BuiltIsSubmitted(id: string, specs: seq<GroupSpec>, job: JobRec)
    requires '.' !in id && NonNegativeSpecs(specs) && job.state == JobQueued && WellNumbered(id, job.groups)
    requires |job.groups| == |specs| && forall g | 0 <= g < |specs| :: Built(id, specs, g, job.groups[g])
    ensures Submitted(id, job)
  {
    forall ref | Within(job.groups, ref)
      ensures var t := TaskAt(job.groups, ref);
        t.state == TaskQueued && t.nodeName == "" && NonNegative(t.resources) && AsksMain(t.resources)
    {
      assert Built(id, specs, ref.group, job.groups[ref.group]);
      DemandIsNonNegative(specs[ref.group].tasks[ref.task].resources, specs[ref.group].resources);
    }
  }

  lemma JobsShown(jobMap: map<string, Job>, jobs: map<string, JobRec>, id: string)
    requires ShowsJobs(jobMap, jobs)
    ensures id in jobMap <==> id in jobs
    ensures id in jobMap ==> ShowsJob(jobMap[id], id, jobs[id])
  {
  }

  lemma JobDropped(jobMap: map<string, Job>, jobs: map<string, JobRec>, id: string)
    requires ShowsJobs(jobMap, jobs)
    ensures ShowsJobs(jobMap - {id}, jobs - {id})
  {
  }

  lemma JobAdded(jobMap: map<string, Job>, jobs: map<string, JobRec>, job: Job)
    requires ShowsJobs(jobMap, jobs) && job.Valid()
    ensures ShowsJobs(jobMap[job.id := job], jobs[job.id := job.Rec()])
  {
  }

  /** Methods that may set the flag which asks for a schedule cycle answer whether they do. */
  class Server {
    const state: StateStore
    const nodes: NodeCache

    constructor (queues: map<string, JobQueue>, hash: string -> nat)
      requires forall k | k in queues :: queues[k].name == k && queues[k].jobs == []
      ensures state.Valid() && nodes.Valid() && Shows(EMPTY)
    {
      state := new StateStore(queues);
      nodes := new NodeCache(hash);
    }

    /** The objects stand for this state of the machine. */
    ghost predicate Shows(s: State)
      reads state, state.jobMap.Values, nodes, nodes.nodeMap.Values, set n | n in nodes.nodeMap.Values :: n.available
    {
      ShowsJobs(state.jobMap, s.jobs) && ShowsNodes(nodes.nodeMap, s.nodes) && ShowsMail(nodes.Mail(), s.boxes)
    }

    // ----- halt and resume

    method HaltJob(id: string, ghost s: State) returns (reply: Reply)
      requires Shows(s)
      modifies if id in state.jobMap then {state.jobMap[id]} else {}
      ensures reply.Accepted? <==> id in s.jobs
      ensures Shows(if id in s.jobs then WithState(s, id, JobHalted) else s)
    {
      if id !in state.jobMap {
        return Rejected("Job not found");
      }
      SetState(id, JobHalted, s);
      return Accepted;
    }

    method SetState(id: string, to: JobState, ghost s: State)
      requires Shows(s) && id in s.jobs
      modifies state.jobMap[id]
      ensures Shows(WithState(s, id, to))
    {
      SetInMap(id, to, s.jobs);
    }

    method SetInMap(id: string, to: JobState, ghost jobs: map<string, JobRec>)
      requires ShowsJobs(state.jobMap, jobs) && id in jobs
      modifies state.jobMap[id]
      ensures ShowsJobs(state.jobMap, jobs[id := jobs[id].(state := to)])
    {
      assert ShowsJob(state.jobMap[id], id, jobs[id]);
      var _ := state.SetJobState(id, to);
    }

    method ResumeJob(id: string, ghost s: State) returns (reschedule: bool)
      requires Shows(s) && id in s.jobs
      modifies state.jobMap[id]
      ensures Shows(Resumed(s, id)) && reschedule
    {
      assert ShowsJob(state.jobMap[id], id, s.jobs[id]);
      Requeue(state.jobMap[id]);
      return true;
    }

    method Requeue(job: Job)
      requires job.Valid() && job.id in state.jobMap && state.jobMap[job.id] == job
      modifies job
      ensures job.Valid() && job.Rec() == Refreshed(old(job.Rec()).(state := JobQueued))
    {
      job.state := JobQueued;
      var changed := job.RefreshState();
      if changed {
        var _ := state.SetJobState(job.id, job.state);
      }
    }

    /** Changes the properties of a job that are given. */
    method ModifyJob(id: string, priority: Option<int>, maxErrors: Option<int>, ghost s: State) returns (reply: Reply)
      requires Shows(s)
      modifies if id in state.jobMap then {state.jobMap[id]} else {}
      ensures reply.Accepted? <==> id in s.jobs
      ensures Shows(if id in s.jobs then Adjusted(s, id, priority, maxErrors) else s)
      ensures id in s.jobs ==>
        && state.jobMap[id].priority == (if priority.Some? then priority.value else s.jobs[id].priority)
        && state.jobMap[id].maxErrors == (if maxErrors.Some? then maxErrors.value else s.jobs[id].maxErrors)
    {
      if id !in state.jobMap {
        return Rejected("Job not found");
      }
      SetProps(state.jobMap[id], priority, maxErrors, s);
      assert ShowsJob(state.jobMap[id], id, Adjusted(s, id, priority, maxErrors).jobs[id]);
      return Accepted;
    }

    method SetProps(job: Job, priority: Option<int>, maxErrors: Option<int>, ghost s: State)
      requires Shows(s) && job.id in s.jobs && state.jobMap[job.id] == job
      modifies job
      ensures Shows(Adjusted(s, job.id, priority, maxErrors))
    {
      assert ShowsJob(job, job.id, s.jobs[job.id]);
      WriteProps(job, priority, maxErrors);
      assert ShowsJob(job, job.id, Adjusted(s, job.id, priority, maxErrors).jobs[job.id]);
    }

    method WriteProps(job: Job, priority: Option<int>, maxErrors: Option<int>)
      modifies job`priority, job`maxErrors
      ensures job.priority == Given(priority, old(job.priority))
        && job.maxErrors == Given(maxErrors, old(job.maxErrors))
    {
      if priority.Some? {
        job.priority := priority.value;
      }
      if maxErrors.Some? {
        job.maxErrors := maxErrors.value;
      }
    }

    // ----- reports

    /** Applies the reports, in order: each to its task, and if the task is finished to its node. */
    method UpdateTasks(updates: seq<TaskReport>, ghost s: State) returns (reschedule: bool)
      requires Shape(s) && Shows(s) && forall u | u in updates :: Reportable(s, u)
      modifies state.jobMap.Values, set n | n in nodes.nodeMap.Values :: n.available
      ensures Shows(AllReportedTo(s, updates))
      ensures reschedule <==> exists u ::
        && u in updates && ParseTaskId(u.id).0 in s.jobs
        && u.state in {TaskCompleted, TaskFailed, TaskAborted, TaskTerminated}
    {
      reschedule := false;
      ghost var s' := s;
      for i := 0 to |updates|
        invariant Shape(s') && Shows(s') && Applied(s, updates, i, s', reschedule)
      {
        ApplyNext(s, updates, i, s', reschedule);
        var finished := ApplyReport(updates[i], s');
        s' := ReportedTo(s', updates[i]);
        reschedule := reschedule || finished;
      }
      AllApplied(s, updates, s', reschedule);
      FreesMeans(s, updates);
    }

    method ApplyReport(report: TaskReport, ghost s: State) returns (finished: bool)
      requires Shape(s) && Shows(s) && Reportable(s, report)
      modifies state.jobMap.Values, set n | n in nodes.nodeMap.Values :: n.available
      ensures Shows(ReportedTo(s, report)) && (finished <==> Frees(s, report))
    {
      ReportParts(s, report);
      finished := UpdateTask(report, s);
    }

    method UpdateTask(report: TaskReport, ghost s: State) returns (finished: bool)
      requires ShowsJobs(state.jobMap, s.jobs) && ShowsNodes(nodes.nodeMap, s.nodes) && Reportable(s, report)
      modifies state.jobMap.Values, set n | n in nodes.nodeMap.Values :: n.available
      ensures ShowsJobs(state.jobMap, NotedIn(s, report))
      ensures ShowsNodes(nodes.nodeMap, FreedIn(s, report))
      ensures finished <==> Frees(s, report)
    {
      var task := RecordReport(report, s, NotedIn(s, report));
      finished := task.Some? && IsFinishState(report.state);
      if finished {
        ReturnResources(task.value, NotedIn(s, report), s.nodes);
      }
    }

    method RecordReport(report: TaskReport, ghost s: State, ghost noted: map<string, JobRec>)
      returns (task: Option<Task>)
      requires ShowsJobs(state.jobMap, s.jobs) && ShowsNodes(nodes.nodeMap, s.nodes) && Reportable(s, report)
      requires noted == NotedIn(s, report)
      modifies state.jobMap.Values
      ensures ShowsJobs(state.jobMap, noted) && ShowsNodes(nodes.nodeMap, s.nodes)
      ensures Charges(s, report, task)
    {
      task := RecordInJob(report, s, noted);
    }

    method RecordInJob(report: TaskReport, ghost s: State, ghost noted: map<string, JobRec>)
      returns (task: Option<Task>)
      requires ShowsJobs(state.jobMap, s.jobs) && Reportable(s, report) && noted == NotedIn(s, report)
      modifies state.jobMap.Values
      ensures ShowsJobs(state.jobMap, noted)
      ensures Charges(s, report, task)
    {
      ghost var id := ParseTaskId(report.id).0;
      assert id in state.jobMap ==> ShowsJob(state.jobMap[id], id, s.jobs[id]);
      task := state.UpdateTaskStatus(report);
    }

    method ReturnResources(task: Task, ghost jobs: map<string, JobRec>, ghost recs: map<string, NodeRec>)
      requires ShowsJobs(state.jobMap, jobs) && ShowsNodes(nodes.nodeMap, recs)
      modifies set n | n in nodes.nodeMap.Values :: n.available
      ensures ShowsJobs(state.jobMap, jobs)
      ensures ShowsNodes(nodes.nodeMap, ReturnedTo(recs, task.nodeName, task.resources))
    {
      if task.nodeName in nodes.nodeMap {
        assert ShowsNode(nodes.nodeMap[task.nodeName], task.nodeName, recs[task.nodeName]);
        nodes.nodeMap[task.nodeName].available.GiveBack(task.resources);
      }
    }

    // ----- messages

    method AppendMessage(name: string, msg: Message, ghost s: State)
      requires nodes.Valid() && Shows(s) && name in s.nodes && name in s.boxes
      requires msg.ScheduleTask? ==> msg.task.nodeName == name
      modifies nodes`buckets, nodes.nodeMap[name].available
      ensures nodes.Valid() && Shows(Notified(s, name, msg))
    {
      PostBesideJobs(name, msg, s);
    }

    method PostBesideJobs(name: string, msg: Message, ghost s: State)
      requires nodes.Valid() && Shows(s) && name in s.nodes && name in s.boxes
      requires msg.ScheduleTask? ==> msg.task.nodeName == name
      modifies nodes`buckets, nodes.nodeMap[name].available
      ensures nodes.Valid() && ShowsJobs(state.jobMap, s.jobs)
      ensures ShowsNodes(nodes.nodeMap, s.nodes[name := Restored(s.nodes[name], s.boxes[name], msg)])
      ensures ShowsMail(nodes.Mail(), s.boxes[name := Kept(s.boxes[name], msg) + [msg]])
    {
      Post(name, msg, s.nodes, s.boxes);
    }

    method Post(name: string, msg: Message, ghost recs: map<string, NodeRec>, ghost boxes: map<string, seq<Message>>)
      requires nodes.Valid() && ShowsNodes(nodes.nodeMap, recs) && ShowsMail(nodes.Mail(), boxes)
      requires name in recs && name in boxes && (msg.ScheduleTask? ==> msg.task.nodeName == name)
      modifies nodes`buckets, nodes.nodeMap[name].available
      ensures nodes.Valid()
      ensures ShowsNodes(nodes.nodeMap, recs[name := Restored(recs[name], boxes[name], msg)])
      ensures ShowsMail(nodes.Mail(), boxes[name := Kept(boxes[name], msg) + [msg]])
    {
      ghost var mail := nodes.Mail();
      Send(name, msg, recs, boxes[name]);
      MailChanges(mail, nodes.Mail(), boxes, name, Kept(boxes[name], msg) + [msg]);
    }

    method Send(name: string, msg: Message, ghost recs: map<string, NodeRec>, ghost box: seq<Message>)
      requires nodes.Valid() && ShowsNodes(nodes.nodeMap, recs) && nodes.Mail().HasBucket(name)
        && nodes.Mail().Box(name) == box
      requires name in recs && (msg.ScheduleTask? ==> msg.task.nodeName == name)
      modifies nodes`buckets, nodes.nodeMap[name].available
      ensures nodes.Valid()
      ensures ShowsNodes(nodes.nodeMap, recs[name := Restored(recs[name], box, msg)])
      ensures MailChanged(old(nodes.Mail()), nodes.Mail(), name, Kept(box, msg) + [msg])
    {
      assert ShowsNode(nodes.nodeMap[name], name, recs[name]);
      nodes.AppendNodeMessage(name, msg);
      assert ShowsNode(nodes.nodeMap[name], name, Restored(recs[name], box, msg));
    }

    // ----- termination

    /** Terminates a job that is not over: every node on which it has tasks is told, and gets back what
        was still waiting for it there. */
    method TerminateJob(id: string, ghost s: State)
      requires nodes.Valid() && Shape(s) && Shows(s) && id in s.jobs && HostsKnown(s, id)
      modifies state.jobMap[id], nodes`buckets, set n | n in nodes.nodeMap.Values :: n.available
      ensures nodes.Valid() && Shows(Terminated(s, id))
    {
      var job := state.jobMap[id];
      assert ShowsJob(job, id, s.jobs[id]);
      if job.state == JobTerminated || job.state == JobCompleted || job.state == JobFailed {
        return;
      }
      var names := HostNames(job);
      TerminatedParts(s, id, names);
      SetState(id, JobTerminated, s);
      NotifyStart(WithState(s, id, JobTerminated), names, Message.TerminateJob(id));
      NotifyAll(names, Message.TerminateJob(id), WithState(s, id, JobTerminated));
    }

    /** The nodes on which a job has tasks scheduled or executing. */
    method HostNames(job: Job) returns (names: set<string>)
      ensures forall n :: n in names <==> Hosts(job.Rec(), n)
    {
      names := {};
      for g := 0 to |job.groups|
        invariant forall n :: n in names <==> HostsBefore(job.groups, n, g, 0)
      {
        var tasks := job.groups[g].tasks;
        for t := 0 to |tasks|
          invariant forall n :: n in names <==> HostsBefore(job.groups, n, g, t)
        {
          HostsNext(job.groups, g, t);
          if !IsActiveState(tasks[t].state) {
            continue;
          }
          names := names + {tasks[t].nodeName};
        }
        HostsCarry(job.groups, g);
      }
      forall n
        ensures n in names <==> Hosts(job.Rec(), n)
      {
        HostsEnd(job.Rec(), n);
      }
    }

    method NotifyAll(names: set<string>, msg: Message, ghost s: State)
      requires nodes.Valid() && Shows(s) && Notifying(s, names, names, msg, s) && !msg.ScheduleTask?
      modifies nodes`buckets, set n | n in nodes.nodeMap.Values :: n.available
      ensures nodes.Valid() && Shows(NotifiedAll(s, names, msg))
    {
      ghost var at := (left: set<string>) => NotifiedAll(s, names - left, msg);
      assert at(names) == s;
      assert names - {} == names;
      NotifyEach(names, msg, s, at);
    }

    method NotifyEach(names: set<string>, msg: Message, ghost s: State, ghost at: set<string> -> State)
      requires nodes.Valid() && Shows(at(names)) && NotifiedBy(at, s, names, msg) && !msg.ScheduleTask?
      modifies nodes`buckets, set n | n in nodes.nodeMap.Values :: n.available
      ensures nodes.Valid() && Shows(at({}))
    {
      var left := names;
      while left != {}
        invariant left <= names && nodes.Valid() && Shows(at(left))
      {
        var name :| name in left;
        NotifyOne(name, names, left, msg, s, at);
        left := left - {name};
      }
    }

    method NotifyOne(name: string, ghost names: set<string>, ghost left: set<string>, msg: Message, ghost s: State,
                     ghost at: set<string> -> State)
      requires nodes.Valid() && Shows(at(left)) && NotifiedBy(at, s, names, msg) && !msg.ScheduleTask? && left <= names
        && name in left
      modifies nodes`buckets, set n | n in nodes.nodeMap.Values :: n.available
      ensures nodes.Valid() && Shows(at(left - {name}))
    {
      assert Notifying(s, names, left, msg, at(left)) && Notifying(s, names, left - {name}, msg, at(left - {name}));
      NotifyNext(s, names, left, name, msg, at(left));
      AppendMessage(name, msg, at(left));
    }

    // ----- nodes

    method RegisterNode(name: string, labels: map<string, string>, resources: Amounts, ghost s: State)
      returns (reply: Reply, reschedule: bool)
      requires nodes.Valid() && Shows(s)
      modifies nodes
      ensures reschedule <==> reply.Accepted?
      ensures nodes.Valid() && (reply.Accepted? <==> name != "")
      ensures Shows(if name != "" then Registered(s, name, labels, resources) else s)
      ensures name != "" ==> name in nodes.nodeMap && IsNew(nodes.nodeMap[name].Rec(), labels, resources)
    {
      if |name| == 0 {
        return Rejected("the name of the node is empty"), false;
      }
      var node := new WorkNode(name, labels, resources, STANDARD);
      NewNodeIsNew(labels, resources);
      AddNode(node, s);
      assert ShowsNode(nodes.nodeMap[name], name, NewNode(labels, resources));
      return Accepted, true;
    }

    method AddNode(node: WorkNode, ghost s: State)
      requires nodes.Valid() && Shows(s)
      requires forall k | k in nodes.nodeMap :: nodes.nodeMap[k].available != node.available
      modifies nodes
      ensures nodes.Valid() && ShowsJobs(state.jobMap, s.jobs)
      ensures ShowsNodes(nodes.nodeMap, s.nodes[node.name := node.Rec()])
      ensures ShowsMail(nodes.Mail(), s.boxes[node.name := []])
    {
      ghost var mail := nodes.Mail();
      InsertNode(node, s.nodes);
      MailChanges(mail, nodes.Mail(), s.boxes, node.name, []);
    }

    method InsertNode(node: WorkNode, ghost recs: map<string, NodeRec>)
      requires nodes.Valid() && ShowsNodes(nodes.nodeMap, recs)
      requires forall k | k in nodes.nodeMap :: nodes.nodeMap[k].available != node.available
      modifies nodes
      ensures nodes.Valid() && ShowsNodes(nodes.nodeMap, recs[node.name := node.Rec()])
      ensures MailChanged(old(nodes.Mail()), nodes.Mail(), node.name, [])
    {
      ghost var map_ := nodes.nodeMap;
      nodes.AddNode(node);
      NodeAdded(map_, recs, node);
    }

    /** Switches a registered node online or offline. */
    method SwitchNode(name: string, to: NodeState, ghost s: State) returns (reply: Reply, reschedule: bool)
      requires Shows(s)
      modifies if name in nodes.nodeMap then {nodes.nodeMap[name]} else {}
      ensures reschedule <==> reply.Accepted?
      ensures reply.Accepted? <==> name in s.nodes
      ensures Shows(if name in s.nodes then Switched(s, name, to) else s)
    {
      if name !in nodes.nodeMap {
        return Rejected("Node not found"), false;
      }
      SetNodeState(name, to, s);
      return Accepted, true;
    }

    method SetNodeState(name: string, to: NodeState, ghost s: State)
      requires Shows(s) && name in s.nodes
      modifies nodes.nodeMap[name]
      ensures Shows(Switched(s, name, to))
    {
      MarkNode(name, to, s.nodes);
    }

    method MarkNode(name: string, to: NodeState, ghost recs: map<string, NodeRec>)
      requires ShowsNodes(nodes.nodeMap, recs) && name in recs
      modifies nodes.nodeMap[name]
      ensures ShowsNodes(nodes.nodeMap, recs[name := recs[name].(state := to)])
      ensures nodes.Mail() == old(nodes.Mail())
    {
      assert ShowsNode(nodes.nodeMap[name], name, recs[name]);
      nodes.nodeMap[name].state := to;
    }

    /** A heartbeat of a registered node: the messages waiting for it are handed over. */
    method Heartbeat(name: string, now: int, ghost s: State) returns (msgs: seq<Message>, found: bool)
      requires nodes.Valid() && Shape(s) && Shows(s)
      modifies nodes`buckets
      ensures nodes.Valid() && Shows(if name in s.nodes then Delivered(s, name) else s)
      ensures name in s.nodes ==> found && msgs == s.boxes[name]
    {
      msgs, found := FetchMail(name, now, s);
    }

    method FetchMail(name: string, now: int, ghost s: State) returns (msgs: seq<Message>, found: bool)
      requires nodes.Valid() && Shows(s)
      modifies nodes`buckets
      ensures nodes.Valid() && ShowsJobs(state.jobMap, s.jobs) && ShowsNodes(nodes.nodeMap, s.nodes)
      ensures ShowsMail(nodes.Mail(), if name in s.boxes then s.boxes[name := []] else s.boxes)
      ensures name in s.boxes ==> found && msgs == s.boxes[name]
    {
      msgs, found := TakeMail(name, now, s.boxes);
    }

    method TakeMail(name: string, now: int, ghost boxes: map<string, seq<Message>>)
      returns (msgs: seq<Message>, found: bool)
      requires nodes.Valid() && ShowsMail(nodes.Mail(), boxes)
      modifies nodes`buckets
      ensures nodes.Valid() && ShowsMail(nodes.Mail(), if name in boxes then boxes[name := []] else boxes)
      ensures name in boxes ==> found && msgs == boxes[name]
    {
      ghost var mail := nodes.Mail();
      msgs, found := nodes.PeriodicUpdate(name, now);
      if name in boxes {
        MailChanges(mail, nodes.Mail(), boxes, name, []);
      } else {
        MailIgnored(mail, nodes.Mail(), boxes, name);
      }
    }

    /** Marks the late nodes unknown and sends the tasks they had back to the queue. */
    method CheckNodes(expired: set<string>, ghost s: State) returns (reschedule: bool, late: set<string>)
      requires nodes.Valid() && Shows(s) && AllListed(state.jobList, state.jobMap)
      requires forall k | nodes.Mail().Beats(k) :: k in nodes.nodeMap
      modifies nodes`buckets, nodes.nodeMap.Values, state.jobMap.Values
      ensures nodes.Valid() && Shows(TimedOut(s, late))
      ensures forall n :: n in late <==>
        n in s.nodes && s.nodes[n].state == NodeOnline && old(nodes.Mail()).Beats(n) && n in expired
      ensures reschedule <==> TimedOut(s, late).jobs != s.jobs
    {
      late := MarkLate(expired, s);
      reschedule := SendBack(late, s);
    }

    method MarkLate(expired: set<string>, ghost s: State) returns (late: set<string>)
      requires nodes.Valid() && Shows(s)
      requires forall k | nodes.Mail().Beats(k) :: k in nodes.nodeMap
      modifies nodes`buckets, nodes.nodeMap.Values
      ensures nodes.Valid() && ShowsJobs(state.jobMap, s.jobs)
      ensures ShowsNodes(nodes.nodeMap, LateNodes(s.nodes, late)) && ShowsMail(nodes.Mail(), LateBoxes(s.boxes, late))
      ensures late == LateIn(s.nodes, old(nodes.Mail()), expired)
    {
      late := TimeOut(expired, s.nodes, s.boxes);
    }

    method TimeOut(expired: set<string>, ghost recs: map<string, NodeRec>, ghost boxes: map<string, seq<Message>>)
      returns (late: set<string>)
      requires nodes.Valid() && ShowsNodes(nodes.nodeMap, recs) && ShowsMail(nodes.Mail(), boxes)
      requires forall k | nodes.Mail().Beats(k) :: k in nodes.nodeMap
      modifies nodes`buckets, nodes.nodeMap.Values
      ensures nodes.Valid()
      ensures ShowsNodes(nodes.nodeMap, LateNodes(recs, late)) && ShowsMail(nodes.Mail(), LateBoxes(boxes, late))
      ensures late == LateIn(recs, old(nodes.Mail()), expired)
    {
      ghost var mail := nodes.Mail();
      late := MarkNodes(expired, recs);
      EmptiedMail(mail, nodes.Mail(), boxes, late);
    }

    method MarkNodes(expired: set<string>, ghost recs: map<string, NodeRec>) returns (late: set<string>)
      requires nodes.Valid() && ShowsNodes(nodes.nodeMap, recs)
      requires forall k | nodes.Mail().Beats(k) :: k in nodes.nodeMap
      modifies nodes`buckets, nodes.nodeMap.Values
      ensures nodes.Valid() && ShowsNodes(nodes.nodeMap, LateNodes(recs, late))
      ensures late == LateIn(recs, old(nodes.Mail()), expired) && Emptied(old(nodes.Mail()), nodes.Mail(), late)
    {
      StatesShown(recs);
      ghost var map_ := nodes.nodeMap;
      late := nodes.CheckTimeoutNodes(expired);
      assert ShowsNodes(map_, LateNodes(recs, late)) by {
        forall k | k in map_
          ensures ShowsNode(map_[k], k, LateNodes(recs, late)[k])
        {
          assert old(ShowsNode(map_[k], k, recs[k]));
        }
      }
    }

    lemma StatesShown(recs: map<string, NodeRec>)
      requires ShowsNodes(nodes.nodeMap, recs)
      ensures nodes.States() == StatesIn(recs)
    {
      forall k | k in nodes.nodeMap
        ensures nodes.nodeMap[k].state == recs[k].state
      {
        assert ShowsNode(nodes.nodeMap[k], k, recs[k]);
      }
    }

    method SendBack(late: set<string>, ghost s: State) returns (reschedule: bool)
      requires ShowsJobs(state.jobMap, s.jobs) && ShowsNodes(nodes.nodeMap, LateNodes(s.nodes, late))
      requires ShowsMail(nodes.Mail(), LateBoxes(s.boxes, late)) && AllListed(state.jobList, state.jobMap)
      modifies state.jobMap.Values
      ensures Shows(TimedOut(s, late)) && (reschedule <==> TimedOut(s, late).jobs != s.jobs)
    {
      TimedOutParts(s, late);
      NothingTimesOut(s);
      reschedule := false;
      if late != {} {
        reschedule := RequeueJobs(late, s.jobs, LateNodes(s.nodes, late));
      }
    }

    method RequeueJobs(late: set<string>, ghost jobs: map<string, JobRec>, ghost recs: map<string, NodeRec>)
      returns (moved: bool)
      requires ShowsJobs(state.jobMap, jobs) && ShowsNodes(nodes.nodeMap, recs)
        && AllListed(state.jobList, state.jobMap)
      modifies state.jobMap.Values
      ensures ShowsJobs(state.jobMap, LateJobs(jobs, late)) && ShowsNodes(nodes.nodeMap, recs)
      ensures moved <==> LateJobs(jobs, late) != jobs
    {
      moved := false;
      ghost var jobs' := jobs;
      for i := 0 to |state.jobList|
        invariant ShowsJobs(state.jobMap, jobs') && ShowsNodes(nodes.nodeMap, recs)
        invariant RequeuedTo(jobs, late, state.jobList[..i], jobs') && (moved <==> jobs' != jobs)
      {
        var job := state.jobList[i];
        RequeueNext(jobs, late, state.jobList, i, jobs');
        var more := RequeueListed(job, late, jobs', recs);
        jobs' := jobs'[job.id := RequeuedJob(jobs'[job.id], late)];
        moved := moved || more;
      }
      RequeueEnd(jobs, late, state.jobList, state.jobMap, jobs');
    }

    method RequeueListed(job: Job, late: set<string>, ghost jobs: map<string, JobRec>, ghost recs: map<string, NodeRec>)
      returns (moved: bool)
      requires ShowsJobs(state.jobMap, jobs) && ShowsNodes(nodes.nodeMap, recs)
      requires job.id in state.jobMap && state.jobMap[job.id] == job
      modifies job
      ensures ShowsJobs(state.jobMap, jobs[job.id := RequeuedJob(jobs[job.id], late)])
        && ShowsNodes(nodes.nodeMap, recs)
      ensures moved <==> RequeuedJob(jobs[job.id], late) != jobs[job.id]
    {
      moved := RequeueShown(job, late, jobs);
    }

    method RequeueShown(job: Job, late: set<string>, ghost jobs: map<string, JobRec>) returns (moved: bool)
      requires ShowsJobs(state.jobMap, jobs) && job.id in state.jobMap && state.jobMap[job.id] == job
      modifies job
      ensures ShowsJobs(state.jobMap, jobs[job.id := RequeuedJob(jobs[job.id], late)])
      ensures moved <==> RequeuedJob(jobs[job.id], late) != jobs[job.id]
    {
      assert ShowsJob(job, job.id, jobs[job.id]);
      moved := RequeueJob(job, late);
      assert ShowsJob(job, job.id, RequeuedJob(jobs[job.id], late));
    }

    /** Sends the tasks of one executing job on late nodes back to the queue. */
    method RequeueJob(job: Job, late: set<string>) returns (moved: bool)
      requires job.Valid()
      modifies job`groups
      ensures job.Valid() && job.Rec() == RequeuedJob(old(job.Rec()), late)
      ensures moved <==> job.Rec() != old(job.Rec())
    {
      if job.state != JobExecuting {
        return false;
      }
      moved := false;
      ghost var was := job.groups;
      NotStarted(was, late);
      for g := 0 to |job.groups|
        invariant Midway(job.groups, was, late, g, 0, moved)
      {
        for t := 0 to |job.groups[g].tasks|
          invariant Midway(job.groups, was, late, g, t, moved)
        {
          MidwayNext(job.groups, was, late, g, t, moved);
          var task := job.groups[g].tasks[t];
          if IsFinishState(task.state) || task.state == TaskQueued {
            continue;
          }
          if task.nodeName in late {
            task := task.(state := TaskQueued, nodeName := "", progress := 0);
            job.groups := WithTask(job.groups, TaskRef(g, t), task);
            moved := true;
          }
        }
        HalfwayCarry(was, late, g);
      }
      HalfwayEnd(job.Rec().(groups := was), late);
      SameSizes(was, job.groups);
    }

    // ----- jobs come and go

    /** Submits a job, under a generated ID and in the default queue if it names none. */
    method CreateJob(given: string, generated: string, queue: string, priority: int, maxErrors: int,
                     specs: seq<GroupSpec>,
                     now: int, saved: bool, ghost s: State)
      returns (reply: Reply, reschedule: bool, ghost id: string, ghost rec: JobRec)
      requires state.Valid() && Shows(s)
      modifies state, state.jobQueues.Values
      ensures reschedule <==> reply.Accepted?
      ensures state.Valid() && id == (if given == "" then generated else given)
      ensures reply.Accepted? <==> id !in s.jobs && rec.queue in state.jobQueues && saved
      ensures Shows(if reply.Accepted? then s.(jobs := s.jobs[id := rec]) else s)
      ensures rec.queue == (if queue == "" then DEFAULT_QUEUE else queue)
      ensures rec == JobRec(rec.queue, priority, maxErrors, now, rec.groups, JobQueued, 0)
        && WellNumbered(id, rec.groups)
      ensures |rec.groups| == |specs| && forall g | 0 <= g < |specs| :: Built(id, specs, g, rec.groups[g])
      ensures reply.Accepted? && '.' !in id && NonNegativeSpecs(specs) && Shape(s) && Unclaimed(s, id, rec) ==>
        Enabled(s, Create(id, rec))
    {
      var name := if given == "" then generated else given;
      var job := new Job(name, if queue == "" then DEFAULT_QUEUE else queue, priority, maxErrors, specs);
      id, rec := job.id, job.Rec().(submitTime := now);
      if '.' !in id && NonNegativeSpecs(specs) {
        BuiltIsSubmitted(id, specs, rec);
      }
      reply := AddJob(job, now, saved, s);
      reschedule := reply.Accepted?;
    }

    method AddJob(job: Job, now: int, saved: bool, ghost s: State) returns (reply: Reply)
      requires state.Valid() && Shows(s) && job.Valid() && job !in state.jobMap.Values
      modifies state, state.jobQueues.Values, job
      ensures state.Valid()
      ensures reply.Accepted? <==> job.id !in s.jobs && job.queue in state.jobQueues && saved
      ensures Shows(if reply.Accepted? then s.(jobs := s.jobs[job.id := old(job.Rec()).(submitTime := now)]) else s)
    {
      reply := StoreBesideNodes(job, now, saved, s);
    }

    method StoreBesideNodes(job: Job, now: int, saved: bool, ghost s: State) returns (reply: Reply)
      requires state.Valid() && Shows(s) && job.Valid() && job !in state.jobMap.Values
      modifies state, state.jobQueues.Values, job
      ensures state.Valid() && ShowsNodes(nodes.nodeMap, s.nodes) && ShowsMail(nodes.Mail(), s.boxes)
      ensures reply.Accepted? <==> job.id !in s.jobs && job.queue in state.jobQueues && saved
      ensures ShowsJobs(state.jobMap,
        if reply.Accepted? then s.jobs[job.id := old(job.Rec()).(submitTime := now)] else s.jobs)
    {
      reply := StoreJob(job, now, saved, s.jobs);
    }

    method StoreJob(job: Job, now: int, saved: bool, ghost jobs: map<string, JobRec>) returns (reply: Reply)
      requires state.Valid() && ShowsJobs(state.jobMap, jobs) && job.Valid() && job !in state.jobMap.Values
      modifies state, state.jobQueues.Values, job
      ensures state.Valid()
      ensures reply.Accepted? <==> job.id !in jobs && job.queue in state.jobQueues && saved
      ensures ShowsJobs(state.jobMap,
        if reply.Accepted? then jobs[job.id := old(job.Rec()).(submitTime := now)] else jobs)
    {
      ghost var before := state.jobMap;
      reply := state.AddJob(job, now, saved);
      assert ShowsJobs(before, jobs);
      if reply.Accepted? {
        JobAdded(before, jobs, job);
      }
    }

    method DeleteJob(id: string, ghost s: State) returns (reply: Reply)
      requires state.Valid() && Shows(s)
      modifies state, state.jobQueues.Values
      ensures state.Valid()
      ensures reply.Accepted? <==> id in s.jobs && s.jobs[id].state != JobExecuting && s.jobs[id].state != JobHalted
      ensures Shows(if reply.Accepted? then s.(jobs := s.jobs - {id}) else s)
    {
      reply := DropBesideNodes(id, s);
    }

    method DropBesideNodes(id: string, ghost s: State) returns (reply: Reply)
      requires state.Valid() && Shows(s)
      modifies state, state.jobQueues.Values
      ensures state.Valid() && ShowsNodes(nodes.nodeMap, s.nodes) && ShowsMail(nodes.Mail(), s.boxes)
      ensures reply.Accepted? <==> id in s.jobs && s.jobs[id].state != JobExecuting && s.jobs[id].state != JobHalted
      ensures ShowsJobs(state.jobMap, if reply.Accepted? then s.jobs - {id} else s.jobs)
    {
      reply := DropJob(id, s.jobs);
    }

    method DropJob(id: string, ghost jobs: map<string, JobRec>) returns (reply: Reply)
      requires state.Valid() && ShowsJobs(state.jobMap, jobs)
      modifies state, state.jobQueues.Values
      ensures state.Valid()
      ensures reply.Accepted? <==> id in jobs && jobs[id].state != JobExecuting && jobs[id].state != JobHalted
      ensures ShowsJobs(state.jobMap, if reply.Accepted? then jobs - {id} else jobs)
    {
      ghost var before := state.jobMap;
      JobsShown(before, jobs, id);
      reply := state.DeleteJob(id);
      assert ShowsJobs(before, jobs);
      JobDropped(before, jobs, id);
    }

    // ----- placement

    /** Commits one row of the schedule table: assigns the task, charges the node, tells the node. */
    method CommitRecord(name: string, id: string, ref: TaskRef, ghost s: State)
      requires nodes.Valid() && Shape(s) && Shows(s)
      requires name in s.nodes && id in s.jobs && Within(s.jobs[id].groups, ref)
      modifies state.jobMap[id], nodes`buckets, nodes.nodeMap[name].available
      ensures nodes.Valid() && Shows(Placed(s, name, id, ref))
    {
      PlacedParts(s, name, id, ref);
      PlaceTask(name, id, ref, s);
    }

    method PlaceTask(name: string, id: string, ref: TaskRef, ghost s: State)
      requires nodes.Valid() && Shows(s)
      requires name in s.nodes && name in s.boxes && id in s.jobs && Within(s.jobs[id].groups, ref)
      modifies state.jobMap[id], nodes`buckets, nodes.nodeMap[name].available
      ensures nodes.Valid() && Shows(PlacedTask(s, name, id, ref))
    {
      assert ShowsJob(state.jobMap[id], id, s.jobs[id]);
      var task := TaskAt(state.jobMap[id].groups, ref).(state := TaskScheduled, nodeName := name);
      AssignTask(id, ref, task, s);
      BookTask(name, task, Assigned(s, id, ref, task));
    }

    method BookTask(name: string, task: Task, ghost s: State)
      requires nodes.Valid() && Shows(s) && name in s.nodes && name in s.boxes && task.nodeName == name
      modifies nodes`buckets, nodes.nodeMap[name].available
      ensures nodes.Valid() && Shows(Notified(Booked(s, name, task.resources), name, ScheduleTask(task.id, task)))
    {
      ChargeNode(name, task.resources, s);
      AppendMessage(name, ScheduleTask(task.id, task), Booked(s, name, task.resources));
    }

    method AssignTask(id: string, ref: TaskRef, task: Task, ghost s: State)
      requires nodes.Valid() && Shows(s) && id in s.jobs && Within(s.jobs[id].groups, ref)
      modifies state.jobMap[id]
      ensures nodes.Valid() && Shows(Assigned(s, id, ref, task))
    {
      AssignInMap(id, ref, task, s.jobs);
    }

    method AssignInMap(id: string, ref: TaskRef, task: Task, ghost jobs: map<string, JobRec>)
      requires ShowsJobs(state.jobMap, jobs) && id in jobs && Within(jobs[id].groups, ref)
      modifies state.jobMap[id]
      ensures ShowsJobs(state.jobMap, jobs[id := jobs[id].(groups := WithTask(jobs[id].groups, ref, task))])
    {
      var job := state.jobMap[id];
      assert ShowsJob(job, id, jobs[id]);
      RewriteKeepsCount(job.groups, ref, task);
      job.groups := WithTask(job.groups, ref, task);
    }

    method ChargeNode(name: string, demand: Amounts, ghost s: State)
      requires nodes.Valid() && Shows(s) && name in s.nodes
      modifies nodes.nodeMap[name].available
      ensures nodes.Valid() && Shows(Booked(s, name, demand))
    {
      assert ShowsNode(nodes.nodeMap[name], name, s.nodes[name]);
      nodes.nodeMap[name].available.Consume(demand);
    }
  }
}
