/** The whole server as one state machine: jobs, nodes, mailboxes, and the requests that change them. */
module Cluster {
  import opened Resources
  import opened TaskIds
  import opened Tasks
  import opened Jobs
  import opened Messages
  import opened NodeCaches

  /** Two fields are histories, by node and since its registration: `running` holds the tasks delivered
      whose finish has not been reported, `lost` those whose finish was reported but whose resources did
      not come back to the node. Everything else is what the server stores. */
  datatype State = State(
    nodes: map<string, NodeRec>,
    boxes: map<string, seq<Message>>,
    running: map<string, seq<Task>>,
    lost: map<string, seq<Task>>,
    jobs: map<string, JobRec>)

  datatype Step =
    | Register(name: string, labels: map<string, string>, resources: Amounts)
    | Create(id: string, job: JobRec)
    | Delete(id: string)
    | Place(name: string, id: string, ref: TaskRef)
    | Deliver(name: string)
    | Report(name: string, report: TaskReport)
    | Halt(id: string)
    | Resume(id: string)
    | Terminate(id: string)
    | Timeout(late: set<string>)
    | Online(name: string)
    | Offline(name: string)
    | Adjust(id: string, priority: int, maxErrors: int)

  // ----- what each request does

  function NewNode(labels: map<string, string>, resources: Amounts): NodeRec {
    NodeRec(NodeOnline, labels, map[], resources, STANDARD, Consumed(resources, STANDARD))
  }

  function Registered(s: State, name: string, labels: map<string, string>, resources: Amounts): State {
    s.(nodes := s.nodes[name := NewNode(labels, resources)], boxes := s.boxes[name := []],
       running := s.running[name := []], lost := s.lost[name := []])
  }

  /** One row of the schedule table, committed: the task is assigned, the node charged, the message queued. */
  function Placed(s: State, name: string, id: string, ref: TaskRef): State
    requires Shape(s) && name in s.nodes && id in s.jobs && Within(s.jobs[id].groups, ref)
  {
    var task := TaskAt(s.jobs[id].groups, ref).(state := TaskScheduled, nodeName := name);
    var msg := ScheduleTask(task.id, task);
    s.(jobs := s.jobs[id := s.jobs[id].(groups := WithTask(s.jobs[id].groups, ref, task))],
       nodes := s.nodes[name := Charged(s.nodes[name], task.resources)],
       boxes := s.boxes[name := Kept(s.boxes[name], msg) + [msg]])
  }

  function Charged(node: NodeRec, demand: Amounts): NodeRec {
    node.(available := Consumed(node.available, demand))
  }

  function Delivered(s: State, name: string): State
    requires Shape(s) && name in s.nodes
  {
    s.(boxes := s.boxes[name := []], running := s.running[name := s.running[name] + TasksIn(s.boxes[name])])
  }

  /** The task a report names, if its job exists. */
  function Named(s: State, id: string): Option<(string, TaskRef)> {
    var (j, g, t) := ParseTaskId(id);
    if j in s.jobs && g >= 0 && t >= 0 && Within(s.jobs[j].groups, TaskRef(g, t))
    then Some((j, TaskRef(g, t))) else None
  }

  /** The jobs after a report. */
  ghost function NotedIn(s: State, report: TaskReport): map<string, JobRec> {
    match Named(s, report.id)
    case None => s.jobs
    case Some((id, ref)) => s.jobs[id := Reported(s.jobs[id], ref, report)]
  }

  /** What the server does with a report. */
  ghost function ReportedTo(s: State, report: TaskReport): State
    requires Shape(s)
  {
    match Named(s, report.id)
    case None => s
    case Some((id, ref)) =>
      var task := TaskAt(s.jobs[id].groups, ref);
      var noted := s.(jobs := s.jobs[id := Reported(s.jobs[id], ref, report)]);
      if IsFinishState(report.state) && task.nodeName in s.nodes
      then Returned(noted, task.nodeName, task.resources) else noted
  }

  function Returned(s: State, name: string, demand: Amounts): State
    requires name in s.nodes
  {
    var node := s.nodes[name];
    s.(nodes := s.nodes[name := node.(available := GivenBack(node.available, demand))])
  }

  /** The resources of a finished task go to this node. */
  predicate Credits(s: State, name: string, id: string) {
    var named := Named(s, id);
    named.Some? && TaskAt(s.jobs[named.value.0].groups, named.value.1).nodeName == name
  }

  /** A node reports: the server handles the report, and a finish ends the entry of the task at the node,
      whatever the server did; if it gave nothing back to the node, the entry is lost. */
  ghost function Heard(s: State, name: string, report: TaskReport): State
    requires Shape(s) && name in s.nodes
  {
    var handled := ReportedTo(s, report);
    if !IsFinishState(report.state) then handled
    else handled.(
      running := s.running[name := Remove(s.running[name], report.id)],
      lost := if Credits(s, name, report.id)
        then s.lost else s.lost[name := s.lost[name] + Entry(s.running[name], report.id)])
  }

  function WithState(s: State, id: string, state: JobState): State
    requires id in s.jobs
  {
    s.(jobs := s.jobs[id := s.jobs[id].(state := state)])
  }

  ghost function Resumed(s: State, id: string): State
    requires id in s.jobs
  {
    s.(jobs := s.jobs[id := Refreshed(s.jobs[id].(state := JobQueued))])
  }

  /** The nodes on which a job has tasks scheduled or executing. */
  ghost predicate Hosts(job: JobRec, name: string) {
    exists ref ::
      && Within(job.groups, ref) && IsActiveState(TaskAt(job.groups, ref).state)
      && TaskAt(job.groups, ref).nodeName == name
  }

  ghost function Terminated(s: State, id: string): State
    requires Shape(s) && id in s.jobs
  {
    if s.jobs[id].state in {JobTerminated, JobCompleted, JobFailed} then s
    else
      var msg := TerminateJob(id);
      var job := s.jobs[id];
      WithState(s, id, JobTerminated).(
        nodes := map n | n in s.nodes :: if Hosts(job, n) then Restored(s.nodes[n], s.boxes[n], msg) else s.nodes[n],
        boxes := map n | n in s.boxes :: if Hosts(job, n) then Kept(s.boxes[n], msg) + [msg] else s.boxes[n])
  }

  function Restored(node: NodeRec, box: seq<Message>, msg: Message): NodeRec {
    node.(available := GiveBackAll(node.available, Withdrawn(box, msg)))
  }

  /** A task of a late node goes back to the queue. */
  function Requeued(task: Task, late: set<string>): Task {
    if IsActiveState(task.state) && task.nodeName in late
    then task.(state := TaskQueued, nodeName := "", progress := 0) else task
  }

  function RequeuedGroup(group: TaskGroup, late: set<string>): TaskGroup {
    group.(tasks := seq(|group.tasks|, t requires 0 <= t < |group.tasks| => Requeued(group.tasks[t], late)))
  }

  function RequeuedJob(job: JobRec, late: set<string>): JobRec {
    if job.state != JobExecuting then job
    else job.(groups := seq(|job.groups|, g requires 0 <= g < |job.groups| => RequeuedGroup(job.groups[g], late)))
  }

  function TimedOut(s: State, late: set<string>): State {
    s.(nodes := map n | n in s.nodes :: s.nodes[n].(state := Mark(s.nodes[n].state, n in late)),
       boxes := map n | n in s.boxes :: if n in late then [] else s.boxes[n],
       jobs := map id | id in s.jobs :: RequeuedJob(s.jobs[id], late))
  }

  function Switched(s: State, name: string, state: NodeState): State
    requires name in s.nodes
  {
    s.(nodes := s.nodes[name := s.nodes[name].(state := state)])
  }

  // ----- when each step may happen

  ghost predicate Shape(s: State) {
    s.boxes.Keys == s.nodes.Keys && s.running.Keys == s.nodes.Keys && s.lost.Keys == s.nodes.Keys
  }

  /** Tasks waiting in a mailbox, in order. */
  function TasksIn(box: seq<Message>): seq<Task> {
    if box == [] then []
    else
      var last := box[|box| - 1];
      TasksIn(box[..|box| - 1]) + if last.ScheduleTask? then [last.task] else []
  }

  /** Everything charged to a node: delivered and unfinished, or still waiting. */
  function Outstanding(s: State, name: string): seq<Task>
    requires Shape(s) && name in s.nodes
  {
    s.running[name] + TasksIn(s.boxes[name])
  }

  function Remove(tasks: seq<Task>, id: string): seq<Task> {
    if tasks == [] then []
    else
      var last := tasks[|tasks| - 1];
      if last.id == id then tasks[..|tasks| - 1] else Remove(tasks[..|tasks| - 1], id) + [last]
  }

  /** What `Remove` takes out. */
  function Entry(tasks: seq<Task>, id: string): seq<Task> {
    if tasks == [] then []
    else
      var last := tasks[|tasks| - 1];
      if last.id == id then [last] else Entry(tasks[..|tasks| - 1], id)
  }

  /** A node that is reachable or may become so without registering. */
  predicate Known(s: State, name: string) {
    name in s.nodes && s.nodes[name].state != NodeUnknown
  }

  ghost predicate RunsOn(s: State, name: string, id: string)
    requires Shape(s)
  {
    Known(s, name) && exists t :: t in s.running[name] && t.id == id
  }

  /** A job as submission builds it. */
  ghost predicate Submitted(id: string, job: JobRec) {
    && '.' !in id && WellNumbered(id, job.groups) && job.state == JobQueued
    && forall ref | Within(job.groups, ref) ::
      var t := TaskAt(job.groups, ref);
      t.state == TaskQueued && t.nodeName == "" && NonNegative(t.resources) && AsksMain(t.resources)
  }

  function LookUp(jobs: map<string, JobRec>, id: string): Option<Task> {
    var (j, g, t) := ParseTaskId(id);
    if j in jobs && g >= 0 && t >= 0 && Within(jobs[j].groups, TaskRef(g, t))
    then Some(TaskAt(jobs[j].groups, TaskRef(g, t))) else None
  }

  /** No task outstanding on a known node has an ID that the new job gives to one of its own. */
  ghost predicate Unclaimed(s: State, id: string, job: JobRec)
    requires Shape(s)
  {
    forall n, t | Known(s, n) && t in Outstanding(s, n) && ParseTaskId(t.id).0 == id ::
      LookUp(s.jobs[id := job], t.id).None?
  }

  /** The conditions on the requests: those the code tests, and those it takes for granted. Taken for
      granted are a job ID not reused while tasks of its former owner are outstanding, reports only of
      tasks running on the reporting node, and online or offline requests only for a known node. */
  ghost predicate Enabled(s: State, step: Step)
    requires Shape(s)
  {
    match step
    case Register(name, labels, resources) => name != "" && NonNegative(resources)
    case Create(id, job) => id !in s.jobs && Submitted(id, job) && Unclaimed(s, id, job)
    case Delete(id) => Deletable(s, id)
    case Place(name, id, ref) =>
      && name in s.nodes && s.nodes[name].state == NodeOnline
      && id in s.jobs && IsSchedulable(s.jobs[id].state)
      && Within(s.jobs[id].groups, ref) && TaskAt(s.jobs[id].groups, ref).state == TaskQueued
      && Satisfies(TaskAt(s.jobs[id].groups, ref).resources, s.nodes[name].available)
    case Deliver(name) => name in s.nodes
    case Report(name, report) =>
      (report.state == TaskExecuting || IsFinishState(report.state)) && RunsOn(s, name, report.id)
    case Halt(id) => id in s.jobs
    case Resume(id) => id in s.jobs
    case Terminate(id) => id in s.jobs
    case Timeout(late) => forall n | n in late :: n in s.nodes && s.nodes[n].state == NodeOnline
    case Online(name) => Known(s, name)
    case Offline(name) => Known(s, name)
    case Adjust(id, priority, maxErrors) => id in s.jobs
  }

  /** The server refuses to delete other jobs. */
  predicate Deletable(s: State, id: string) {
    id in s.jobs && s.jobs[id].state != JobExecuting && s.jobs[id].state != JobHalted
  }

  ghost function Next(s: State, step: Step): State
    requires Shape(s) && Enabled(s, step)
  {
    match step
    case Register(name, labels, resources) => Registered(s, name, labels, resources)
    case Create(id, job) => s.(jobs := s.jobs[id := job])
    case Delete(id) => s.(jobs := s.jobs - {id})
    case Place(name, id, ref) => Placed(s, name, id, ref)
    case Deliver(name) => Delivered(s, name)
    case Report(name, report) => Heard(s, name, report)
    case Halt(id) => WithState(s, id, JobHalted)
    case Resume(id) => Resumed(s, id)
    case Terminate(id) => Terminated(s, id)
    case Timeout(late) => TimedOut(s, late)
    case Online(name) => Switched(s, name, NodeOnline)
    case Offline(name) => Switched(s, name, NodeOffline)
    case Adjust(id, priority, maxErrors) =>
      s.(jobs := s.jobs[id := s.jobs[id].(priority := priority, maxErrors := maxErrors)])
  }

  const EMPTY := State(map[], map[], map[], map[], map[])
}
