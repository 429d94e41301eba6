/** What each request changes, field by field, and that it changes nothing else. */
module Effects {
  import opened Resources
  import opened TaskIds
  import opened Tasks
  import opened Jobs
  import opened Messages
  import opened NodeCaches
  import opened Cluster
  import opened Ledger

  // ----- what stays

  /** The other jobs, and everything kept of the other nodes, are as before. */
  ghost predicate Elsewhere(s: State, s': State, jobs: set<string>, nodes: set<string>)
    requires Shape(s) && Shape(s')
  {
    && (forall id | id !in jobs :: id in s'.jobs <==> id in s.jobs)
    && (forall id | id !in jobs && id in s.jobs :: s'.jobs[id] == s.jobs[id])
    && (forall n | n !in nodes :: n in s'.nodes <==> n in s.nodes)
    && (forall n | n !in nodes && n in s.nodes ::
          && s'.nodes[n] == s.nodes[n] && s'.boxes[n] == s.boxes[n]
          && s'.running[n] == s.running[n] && s'.lost[n] == s.lost[n])
  }

  // ----- registration

  function Spare(amount: int, reserved: int): int {
    if amount <= reserved then 0 else amount - reserved
  }

  /** A node as it registers: one core, 2048 MHz and 1024 units of memory are kept for itself, or as much of them
      as it has. */
  ghost predicate IsNew(node: NodeRec, labels: map<string, string>, resources: Amounts) {
    && node.state == NodeOnline && node.labels == labels && node.taints == map[] && node.resources == resources
    && node.available == resources.(cores := node.available.cores, frequency := node.available.frequency,
                                    memory := node.available.memory, cards := node.available.cards)
    && node.available.cores == Spare(resources.cores, 10)
    && node.available.frequency == Spare(resources.frequency, 2048)
    && node.available.memory == Spare(resources.memory, 1024)
    && node.available.cards == Spare(resources.cards, 0)
  }

  lemma NewNodeIsNew(labels: map<string, string>, resources: Amounts)
    ensures IsNew(NewNode(labels, resources), labels, resources)
  {
    var node := NewNode(labels, resources);
    assert node.available.others == resources.others;
  }

  lemma RegisterEffect(s: State, name: string, labels: map<string, string>, resources: Amounts)
    requires Shape(s) && Enabled(s, Register(name, labels, resources))
    ensures var s' := Next(s, Register(name, labels, resources));
      && Shape(s') && Elsewhere(s, s', {}, {name}) && name in s'.nodes && IsNew(s'.nodes[name], labels, resources)
      && s'.boxes[name] == [] && s'.running[name] == [] && s'.lost[name] == []
  {
    NewNodeIsNew(labels, resources);
  }

  // ----- placement

  /** Every quantity the node tracks is less by what the task asks for, and nothing else of the node changes. */
  ghost predicate Debited(node: NodeRec, node': NodeRec, d: Amounts) {
    && node' == node.(available := node'.available) && Alike(node'.available, node.available)
    && forall kind | Tracks(node.available, kind) ::
         Amount(node'.available, kind) == Amount(node.available, kind) - Amount(d, kind)
  }

  lemma PlaceEffect(s: State, name: string, id: string, ref: TaskRef)
    requires Inv(s) && Enabled(s, Place(name, id, ref))
    ensures var s' := Next(s, Place(name, id, ref));
      var task := TaskAt(s.jobs[id].groups, ref).(state := TaskScheduled, nodeName := name);
      && Shape(s') && Elsewhere(s, s', {id}, {name}) && id in s'.jobs && name in s'.nodes
      && s'.jobs[id] == s.jobs[id].(groups := s'.jobs[id].groups)
      && OneTask(s.jobs[id].groups, s'.jobs[id].groups, ref, task)
      && s'.boxes[name] == s.boxes[name] + [ScheduleTask(TaskId(id, ref.group, ref.task), task)]
      && s'.running[name] == s.running[name] && s'.lost[name] == s.lost[name]
      && (s.nodes[name].state != NodeUnknown ==> Debited(s.nodes[name], s'.nodes[name], task.resources))
  {
    var task := TaskAt(s.jobs[id].groups, ref).(state := TaskScheduled, nodeName := name);
    assert JobInv(id, s.jobs[id]) && NodeInv(s, name);
    StartWithdrawsNothing(s.boxes[name], task.id, task);
    assert DemandOk(TaskAt(s.jobs[id].groups, ref).resources);
    ConsumeExact(s.nodes[name].available, task.resources);
  }

  // ----- reports

  /** Every quantity the node tracks is more by what the task asked for, and nothing else of the node changes. */
  ghost predicate Credited(node: NodeRec, node': NodeRec, d: Amounts) {
    && node' == node.(available := node'.available) && Alike(node'.available, node.available)
    && forall kind | Tracks(node.available, kind) ::
         Amount(node'.available, kind) == Amount(node.available, kind) + Amount(d, kind)
  }

  /** A report of a task whose job exists: it is noted in the task, the job is reclassified unless its state
      cannot have changed, and a finish gives the node back what the task was charged. */
  lemma ReportedEffect(s: State, name: string, report: TaskReport, id: string, ref: TaskRef)
    requires Inv(s) && Enabled(s, Report(name, report)) && id in s.jobs && Within(s.jobs[id].groups, ref)
    requires report.id == TaskId(id, ref.group, ref.task)
    ensures var s' := Next(s, Report(name, report));
      && Shape(s') && Elsewhere(s, s', {id}, {name}) && id in s'.jobs && name in s'.nodes
      && s'.boxes[name] == s.boxes[name] && s'.lost[name] == s.lost[name]
      && Heeds(s.jobs[id], s'.jobs[id], ref, report)
      && if IsFinishState(report.state)
         then Credited(s.nodes[name], s'.nodes[name], TaskAt(s.jobs[id].groups, ref).resources)
         else s'.nodes[name] == s.nodes[name]
  {
    var s' := Next(s, Report(name, report));
    ReportIsOf(s, name, report, id, ref);
    ReportEffect(s, s', name, report, id, ref);
    ReportHeeded(s.jobs[id], ref, report);
    var task := TaskAt(s.jobs[id].groups, ref);
    assert NodeInv(s, name) && JobInv(id, s.jobs[id]) && DemandOk(task.resources);
    GiveBackExact(s.nodes[name].available, task.resources);
    assert s'.nodes[name] == if IsFinishState(report.state)
      then s.nodes[name].(available := GivenBack(s.nodes[name].available, task.resources)) else s.nodes[name];
  }

  lemma ReportIsOf(s: State, name: string, report: TaskReport, id: string, ref: TaskRef)
    requires Inv(s) && Enabled(s, Report(name, report)) && id in s.jobs && Within(s.jobs[id].groups, ref)
    requires report.id == TaskId(id, ref.group, ref.task)
    ensures Named(s, report.id) == Some((id, ref)) && TaskAt(s.jobs[id].groups, ref).nodeName == name
  {
    assert JobInv(id, s.jobs[id]);
    ParseUndoesTaskId(id, ref.group, ref.task);
    var entry := ReportNames(s, name, report);
  }

  // ----- termination

  /** A task of the job is scheduled, dispatching or executing on this node. */
  ghost predicate Busy(job: JobRec, name: string) {
    exists ref ::
      && Within(job.groups, ref) && TaskAt(job.groups, ref).nodeName == name
      && TaskAt(job.groups, ref).state in {TaskScheduled, TaskDispatching, TaskExecuting}
  }

  lemma BusyHosts(job: JobRec)
    ensures forall n :: Hosts(job, n) <==> Busy(job, n)
  {
  }

  /** A termination leaves jobs that are over alone. Else the job is terminated, its tasks untouched; and on
      every node busy with it, what waits is withdrawn as far as the message says, credited, and followed by the
      message. */
  lemma TerminateEffect(s: State, id: string)
    requires Inv(s) && Enabled(s, Terminate(id))
    ensures var s' := Next(s, Terminate(id));
      var job, msg := s.jobs[id], Message.TerminateJob(id);
      if job.state in {JobTerminated, JobCompleted, JobFailed} then s' == s
      else
        && Shape(s') && s'.jobs == s.jobs[id := job.(state := JobTerminated)]
        && s'.running == s.running && s'.lost == s.lost && s'.nodes.Keys == s.nodes.Keys
        && forall n | n in s.nodes ::
             if Busy(job, n) then
               && s'.boxes[n] == Kept(s.boxes[n], msg) + [msg]
               && s'.nodes[n] == s.nodes[n].(available := GiveBackAll(s.nodes[n].available, Withdrawn(s.boxes[n], msg)))
             else s'.boxes[n] == s.boxes[n] && s'.nodes[n] == s.nodes[n]
  {
    BusyHosts(s.jobs[id]);
  }

  // ----- resumption

  /** A resumed job is queued and then reclassified by its tasks. */
  lemma ResumeEffect(s: State, id: string)
    requires Shape(s) && Enabled(s, Resume(id))
    ensures var s' := Next(s, Resume(id));
      Shape(s') && Elsewhere(s, s', {id}, {}) && id in s'.jobs
      && Reclassified(s.jobs[id].(state := JobQueued), s'.jobs[id])
  {
    RefreshReclassifies(s.jobs[id].(state := JobQueued));
  }
}
