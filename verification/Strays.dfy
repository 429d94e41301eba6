/** Tasks in progress that no node will ever finish: the exact steps that strand a task, and the exact
    agreement of records and outstanding work while no such step happens. */
module Strays {
  import opened Resources
  import opened TaskIds
  import opened Tasks
  import opened Jobs
  import opened Messages
  import opened NodeCaches
  import opened Cluster
  import opened Ledger
  import opened Runs
  import opened Losses

  /** A known node runs a task of this ID, or will when it fetches its messages. */
  ghost predicate HeldOn(s: State, name: string, id: string)
    requires Shape(s)
  {
    Known(s, name) && exists t :: t in Outstanding(s, name) && t.id == id
  }

  /** Every task of the job in progress is outstanding on the node its record names. */
  ghost predicate JobHeld(s: State, job: JobRec)
    requires Shape(s)
  {
    forall ref | Within(job.groups, ref) && IsActiveState(TaskAt(job.groups, ref).state) ::
      HeldOn(s, TaskAt(job.groups, ref).nodeName, TaskAt(job.groups, ref).id)
  }

  ghost predicate AllHeld(s: State)
    requires Shape(s)
  {
    forall id | id in s.jobs :: JobHeld(s, s.jobs[id])
  }

  /** The steps that strand no task. A registration forgets what its node had; a termination withdraws
      waiting tasks and leaves their records scheduled; a timeout requeues tasks of executing jobs only. */
  ghost predicate StrandsNone(s: State, step: Step)
    requires Shape(s) && Enabled(s, step)
  {
    match step
    case Register(name, labels, resources) => forall id | id in s.jobs :: !Hosts(s.jobs[id], name)
    case Terminate(id) => IsEnded(s.jobs[id].state) || forall n | n in s.nodes :: WithdrawsNoRecord(s, id, n)
    case Timeout(late) =>
      forall id, n | id in s.jobs && s.jobs[id].state != JobExecuting && n in late :: !Hosts(s.jobs[id], n)
    case _ => true
  }

  predicate IsEnded(state: JobState) {
    state in {JobTerminated, JobCompleted, JobFailed}
  }

  ghost predicate WithdrawsNoRecord(s: State, id: string, n: string)
    requires Shape(s) && id in s.jobs && n in s.nodes
  {
    Known(s, n) && Hosts(s.jobs[id], n) ==>
      forall t | t in TasksIn(Withdrawn(s.boxes[n], TerminateJob(id))) :: LookUp(s.jobs, t.id).None?
  }

  // ----- the steps that may strand a task

  lemma RegisterStrands(s: State, name: string, labels: map<string, string>, resources: Amounts, job: JobRec)
    requires Shape(s) && JobHeld(s, job)
    ensures JobHeld(Registered(s, name, labels, resources), job) <==> !Hosts(job, name)
  {
    var s' := Registered(s, name, labels, resources);
    assert Outstanding(s', name) == [];
    forall n, id | n != name
      ensures HeldOn(s', n, id) <==> HeldOn(s, n, id)
    {
      assert Known(s', n) <==> Known(s, n);
    }
  }

  lemma TimeoutStrands(s: State, late: set<string>, job: JobRec)
    requires Shape(s) && Enabled(s, Timeout(late)) && JobHeld(s, job)
    ensures JobHeld(TimedOut(s, late), RequeuedJob(job, late)) <==>
      job.state == JobExecuting || forall n | n in late :: !Hosts(job, n)
  {
    var s' := TimedOut(s, late);
    forall n, id
      ensures HeldOn(s', n, id) <==> HeldOn(s, n, id) && n !in late
    {
      assert Known(s', n) <==> Known(s, n) && n !in late;
    }
    forall ref {
      RequeuedAt(job, late, ref);
    }
  }

  lemma {:induction false} KeptApart(box: seq<Message>, msg: Message, t: Task, u: Task)
    requires DistinctIds(TasksIn(box))
    requires t in TasksIn(Withdrawn(box, msg)) && u in TasksIn(Kept(box, msg))
    ensures t.id != u.id
  {
    var front, last := box[..|box| - 1], box[|box| - 1];
    TasksInLast(box);
    WithdrawalMembers(front, msg);
    if last.ScheduleTask? {
      DistinctParts(TasksIn(front), [last.task]);
      assert last.task in [last.task];
    }
    if Filter(msg, last) {
      assert Kept(box, msg) == Kept(front, msg) + [last] && Withdrawn(box, msg) == Withdrawn(front, msg);
      TasksInAppend(Kept(front, msg), last);
    } else {
      assert Withdrawn(box, msg) == Withdrawn(front, msg) + [last] && Kept(box, msg) == Kept(front, msg);
      TasksInAppend(Withdrawn(front, msg), last);
    }
    if t in TasksIn(Withdrawn(front, msg)) && u in TasksIn(Kept(front, msg)) {
      KeptApart(front, msg, t, u);
    }
  }

  /** A withdrawal leaves a task on its node exactly if the task runs or its message stays. */
  lemma WithdrawalHolds(s: State, s': State, msg: Message, n: string, t: Task)
    requires Shape(s) && Shape(s') && Known(s, n) && Known(s', n) && NodeInv(s, n) && msg.TerminateJob?
    requires s'.running[n] == s.running[n] && s'.boxes[n] == Kept(s.boxes[n], msg) + [msg]
    requires t in Outstanding(s, n)
    ensures HeldOn(s', n, t.id) <==> t !in TasksIn(Withdrawn(s.boxes[n], msg))
  {
    var running, box := s.running[n], s.boxes[n];
    var kept, gone := TasksIn(Kept(box, msg)), TasksIn(Withdrawn(box, msg));
    TasksInAppend(Kept(box, msg), msg);
    assert Outstanding(s', n) == running + kept;
    DistinctParts(running, TasksIn(box));
    WithdrawalMembers(box, msg);
    if t in gone {
      forall u | u in kept
        ensures u.id != t.id
      {
        KeptApart(box, msg, t, u);
      }
    } else {
      WithdrawalCovers(box, msg, t);
      assert t in running + kept;
    }
  }

  lemma WithdrawalCovers(box: seq<Message>, msg: Message, t: Task)
    ensures t in TasksIn(box) ==> t in TasksIn(Kept(box, msg)) || t in TasksIn(Withdrawn(box, msg))
  {
    KeptMembers(box, msg);
    TasksInMembers(box);
    TasksInMembers(Kept(box, msg));
    TasksInMembers(Withdrawn(box, msg));
  }

  /** A record of a job in the server is found under its own ID. */
  lemma RecordFound(s: State, id: string, ref: TaskRef)
    requires Inv(s) && id in s.jobs && Within(s.jobs[id].groups, ref)
    ensures var task := TaskAt(s.jobs[id].groups, ref);
      task.id == TaskId(id, ref.group, ref.task) && LookUp(s.jobs, task.id) == Some(task)
  {
    assert JobInv(id, s.jobs[id]);
    LookUpOf(s.jobs, id, ref);
  }

  /** An outstanding task with a record is in progress, in its job, on its node. */
  lemma OutstandingRecord(s: State, n: string, t: Task) returns (id: string, ref: TaskRef)
    requires Inv(s) && Known(s, n) && t in Outstanding(s, n) && LookUp(s.jobs, t.id).Some?
    ensures id in s.jobs && Within(s.jobs[id].groups, ref)
    ensures var task := TaskAt(s.jobs[id].groups, ref);
      task.id == t.id && task.nodeName == n && IsActiveState(task.state)
  {
    assert NodeInv(s, n) && Located(s.jobs, n, t);
    var (j, g, k) := ParseTaskId(t.id);
    id, ref := j, TaskRef(g, k);
    assert JobInv(id, s.jobs[id]);
  }

  lemma TerminateKeepsHeld(s: State, s': State, id: string, other: string)
    requires Inv(s) && AllHeld(s) && id in s.jobs && !IsEnded(s.jobs[id].state) && other in s.jobs
    requires s' == Terminated(s, id) && Shape(s')
    requires forall n | n in s.nodes :: WithdrawsNoRecord(s, id, n)
    ensures JobHeld(s', s.jobs[other])
  {
    var job := s.jobs[other];
    forall ref | Within(job.groups, ref) && IsActiveState(TaskAt(job.groups, ref).state)
      ensures HeldOn(s', TaskAt(job.groups, ref).nodeName, TaskAt(job.groups, ref).id)
    {
      var n := TaskAt(job.groups, ref).nodeName;
      RecordFound(s, other, ref);
      assert HeldOn(s, n, TaskAt(job.groups, ref).id);
      var t :| t in Outstanding(s, n) && t.id == TaskAt(job.groups, ref).id;
      TerminateOnNode(s, s', id, n, t);
    }
  }

  lemma TerminateOnNode(s: State, s': State, id: string, n: string, t: Task)
    requires Inv(s) && id in s.jobs && !IsEnded(s.jobs[id].state) && s' == Terminated(s, id) && Shape(s')
    requires Known(s, n) && t in Outstanding(s, n)
    ensures HeldOn(s', n, t.id) <==> !Hosts(s.jobs[id], n) || t !in TasksIn(Withdrawn(s.boxes[n], TerminateJob(id)))
  {
    assert NodeInv(s, n) && Known(s', n);
    if Hosts(s.jobs[id], n) {
      WithdrawalHolds(s, s', TerminateJob(id), n, t);
    } else {
      assert Outstanding(s', n) == Outstanding(s, n);
    }
  }

  lemma TerminateStrands(s: State, s': State, id: string)
    requires Inv(s) && AllHeld(s) && id in s.jobs && s' == Terminated(s, id) && Shape(s')
    ensures AllHeld(s') <==> StrandsNone(s, Terminate(id))
  {
    if !IsEnded(s.jobs[id].state) {
      if forall n | n in s.nodes :: WithdrawsNoRecord(s, id, n) {
        TerminateStrandsNone(s, s', id);
      }
      if AllHeld(s') {
        HeldWithdrawsNone(s, s', id);
      }
    }
  }

  lemma HeldWithdrawsNone(s: State, s': State, id: string)
    requires Inv(s) && id in s.jobs && !IsEnded(s.jobs[id].state) && s' == Terminated(s, id) && Shape(s') && AllHeld(s')
    ensures forall n | n in s.nodes :: WithdrawsNoRecord(s, id, n)
  {
    forall n | n in s.nodes && Known(s, n) && Hosts(s.jobs[id], n)
      ensures WithdrawsNoRecord(s, id, n)
    {
      HeldIsNotWithdrawn(s, s', id, n);
    }
  }

  lemma TerminateStrandsNone(s: State, s': State, id: string)
    requires Inv(s) && AllHeld(s) && id in s.jobs && !IsEnded(s.jobs[id].state) && s' == Terminated(s, id) && Shape(s')
    requires forall n | n in s.nodes :: WithdrawsNoRecord(s, id, n)
    ensures AllHeld(s')
  {
    assert forall other | other in s'.jobs :: other in s.jobs && s'.jobs[other].groups == s.jobs[other].groups;
    forall other | other in s'.jobs
      ensures JobHeld(s', s'.jobs[other])
    {
      TerminateKeepsHeld(s, s', id, other);
    }
  }

  lemma TerminatedRecordHeld(s: State, s': State, id: string, n: string, t: Task)
    requires Inv(s) && id in s.jobs && s' == Terminated(s, id) && Shape(s') && AllHeld(s')
    requires Known(s, n) && t in Outstanding(s, n) && LookUp(s.jobs, t.id).Some?
    ensures HeldOn(s', n, t.id)
  {
    var other, ref := OutstandingRecord(s, n, t);
    assert Within(s'.jobs[other].groups, ref);
  }

  lemma HeldIsNotWithdrawn(s: State, s': State, id: string, n: string)
    requires Inv(s) && id in s.jobs && !IsEnded(s.jobs[id].state) && Known(s, n) && Hosts(s.jobs[id], n)
    requires s' == Terminated(s, id) && Shape(s') && AllHeld(s')
    ensures WithdrawsNoRecord(s, id, n)
  {
    var gone := TasksIn(Withdrawn(s.boxes[n], TerminateJob(id)));
    forall t | t in gone
      ensures LookUp(s.jobs, t.id).None?
    {
      WithdrawalMembers(s.boxes[n], TerminateJob(id));
      TerminateOnNode(s, s', id, n, t);
      if LookUp(s.jobs, t.id).Some? {
        TerminatedRecordHeld(s, s', id, n, t);
      }
    }
  }

  // ----- the steps that strand none

  lemma PlaceHolds(s: State, name: string, id: string, ref: TaskRef)
    requires Inv(s) && AllHeld(s) && Enabled(s, Place(name, id, ref))
    ensures Shape(Placed(s, name, id, ref)) && AllHeld(Placed(s, name, id, ref))
  {
    var s' := Placed(s, name, id, ref);
    var before := TaskAt(s.jobs[id].groups, ref);
    var task := before.(state := TaskScheduled, nodeName := name);
    var msg := ScheduleTask(task.id, task);
    NothingWithdrawn(s.boxes[name], msg);
    TasksInAppend(s.boxes[name], msg);
    assert Outstanding(s', name) == Outstanding(s, name) + [task];
    forall n, x | HeldOn(s, n, x)
      ensures HeldOn(s', n, x)
    {
      assert Known(s', n);
    }
    assert task in Outstanding(s', name) && HeldOn(s', name, task.id);
    PlacedRecords(s, s', name, id, ref);
  }

  lemma PlacedRecords(s: State, s': State, name: string, id: string, ref: TaskRef)
    requires Inv(s) && AllHeld(s) && Enabled(s, Place(name, id, ref)) && s' == Placed(s, name, id, ref) && Shape(s')
    requires forall n, x | HeldOn(s, n, x) :: HeldOn(s', n, x)
    requires HeldOn(s', name, TaskAt(s.jobs[id].groups, ref).id)
    ensures AllHeld(s')
  {
    forall other | other in s'.jobs
      ensures JobHeld(s', s'.jobs[other])
    {
      assert JobHeld(s, s.jobs[other]);
    }
  }

  /** A report takes at most its own task off a node. */
  lemma ReportHolds(s: State, s': State, name: string, report: TaskReport, n: string, x: string)
    requires Inv(s) && Enabled(s, Report(name, report)) && s' == Heard(s, name, report) && Shape(s')
    requires HeldOn(s, n, x) && (x != report.id || !IsFinishState(report.state))
    ensures HeldOn(s', n, x)
  {
    ReportNodes(s, name, report);
    ReportRemovesOwn(s, name, report);
    var t :| t in Outstanding(s, n) && t.id == x;
    assert t in Outstanding(s', n);
  }

  lemma ReportRemovesOwn(s: State, name: string, report: TaskReport)
    requires Inv(s) && Enabled(s, Report(name, report))
    ensures forall t | t in s.running[name] && t.id != report.id :: t in Remove(s.running[name], report.id)
  {
    var entry := ReportNames(s, name, report);
    assert NodeInv(s, name);
    DistinctParts(s.running[name], TasksIn(s.boxes[name]));
    RemoveOne(s.running[name], report.id, entry, Cores);
  }

  lemma ReportedRecords(s: State, s': State, name: string, report: TaskReport, other: string)
    requires Inv(s) && AllHeld(s) && Enabled(s, Report(name, report)) && s' == Heard(s, name, report) && Shape(s')
    requires other in s.jobs && other in s'.jobs
    ensures JobHeld(s', s'.jobs[other])
  {
    ReportedJobs(s, s', name, report);
    var groups := s'.jobs[other].groups;
    forall ref | Within(groups, ref) && IsActiveState(TaskAt(groups, ref).state)
      ensures HeldOn(s', TaskAt(groups, ref).nodeName, TaskAt(groups, ref).id)
    {
      ReportedRecord(s, s'.jobs, name, report, other, ref);
      ReportHolds(s, s', name, report, TaskAt(groups, ref).nodeName, TaskAt(groups, ref).id);
    }
  }

  /** What a report does to one record. */
  lemma ReportedAt(jobs: map<string, JobRec>, id: string, at: TaskRef, report: TaskReport, other: string, ref: TaskRef)
    requires id in jobs && Within(jobs[id].groups, at) && other in jobs
    requires Within(jobs[id := Reported(jobs[id], at, report)][other].groups, ref)
    ensures Within(jobs[other].groups, ref)
    ensures TaskAt(jobs[id := Reported(jobs[id], at, report)][other].groups, ref)
      == var before := TaskAt(jobs[other].groups, ref);
         if other == id && ref == at then ReportedTask(before, report) else before
  {
    assert Reported(jobs[id], at, report).groups ==
      WithTask(jobs[id].groups, at, ReportedTask(TaskAt(jobs[id].groups, at), report));
  }

  /** A record in progress after a report was in progress before, and is not the one whose finish is reported. */
  lemma ReportedRecord(s: State, jobs: map<string, JobRec>, name: string, report: TaskReport, other: string,
                       ref: TaskRef)
    requires Inv(s) && AllHeld(s) && Enabled(s, Report(name, report)) && jobs == NotedIn(s, report)
    requires other in s.jobs && other in jobs && Within(jobs[other].groups, ref)
    requires IsActiveState(TaskAt(jobs[other].groups, ref).state)
    ensures var task := TaskAt(jobs[other].groups, ref);
      HeldOn(s, task.nodeName, task.id) && (task.id != report.id || !IsFinishState(report.state))
  {
    RecordWasActive(s, jobs, name, report, other, ref);
    RecordIs(s, report.id, other, ref);
    RecordHeld(s, other, ref);
  }

  lemma RecordWasActive(s: State, jobs: map<string, JobRec>, name: string, report: TaskReport, other: string,
                        ref: TaskRef)
    requires Inv(s) && Enabled(s, Report(name, report)) && other in s.jobs && other in jobs
      && jobs == NotedIn(s, report)
    requires Within(jobs[other].groups, ref) && IsActiveState(TaskAt(jobs[other].groups, ref).state)
    ensures Within(s.jobs[other].groups, ref) && IsActiveState(TaskAt(s.jobs[other].groups, ref).state)
    ensures var before, after := TaskAt(s.jobs[other].groups, ref), TaskAt(jobs[other].groups, ref);
      && after.id == before.id && after.nodeName == before.nodeName
      && (Named(s, report.id) == Some((other, ref)) ==> after.state == report.state)
  {
    if Named(s, report.id).Some? {
      ReportedAt(s.jobs, Named(s, report.id).value.0, Named(s, report.id).value.1, report, other, ref);
      if Named(s, report.id).value == (other, ref) {
        ReportedWasActive(s, name, report);
      }
    }
  }

  lemma ReportedWasActive(s: State, name: string, report: TaskReport)
    requires Inv(s) && Enabled(s, Report(name, report)) && Named(s, report.id).Some?
    ensures var (id, ref) := Named(s, report.id).value; IsActiveState(TaskAt(s.jobs[id].groups, ref).state)
  {
    var entry := ReportNames(s, name, report);
  }

  lemma RecordHeld(s: State, id: string, ref: TaskRef)
    requires Shape(s) && AllHeld(s) && id in s.jobs && Within(s.jobs[id].groups, ref)
    requires IsActiveState(TaskAt(s.jobs[id].groups, ref).state)
    ensures HeldOn(s, TaskAt(s.jobs[id].groups, ref).nodeName, TaskAt(s.jobs[id].groups, ref).id)
  {
    assert JobHeld(s, s.jobs[id]);
  }

  lemma RecordIs(s: State, x: string, other: string, ref: TaskRef)
    requires Inv(s) && other in s.jobs && Within(s.jobs[other].groups, ref)
    ensures x == TaskAt(s.jobs[other].groups, ref).id ==> Named(s, x) == Some((other, ref))
  {
    RecordFound(s, other, ref);
    ParseUndoesTaskId(other, ref.group, ref.task);
  }

  lemma ReportKeepsHeld(s: State, s': State, name: string, report: TaskReport)
    requires Inv(s) && AllHeld(s) && Enabled(s, Report(name, report)) && s' == Heard(s, name, report) && Shape(s')
    ensures AllHeld(s')
  {
    ReportKeepsIds(s, name, report);
    forall id | id in s'.jobs {
      ReportedRecords(s, s', name, report, id);
    }
  }

  lemma ReportKeepsIds(s: State, name: string, report: TaskReport)
    requires Shape(s) && name in s.nodes
    ensures Heard(s, name, report).jobs.Keys == s.jobs.Keys
  {
  }

  lemma RegisterHolds(s: State, name: string, labels: map<string, string>, resources: Amounts)
    requires Shape(s) && AllHeld(s)
    ensures AllHeld(Registered(s, name, labels, resources)) <==> forall id | id in s.jobs :: !Hosts(s.jobs[id], name)
  {
    forall id | id in s.jobs {
      RegisterStrands(s, name, labels, resources, s.jobs[id]);
    }
  }

  lemma TimeoutHolds(s: State, late: set<string>)
    requires Shape(s) && AllHeld(s) && Enabled(s, Timeout(late))
    ensures AllHeld(TimedOut(s, late)) <==> StrandsNone(s, Timeout(late))
  {
    var s' := TimedOut(s, late);
    forall id | id in s.jobs
      ensures JobHeld(s', s'.jobs[id]) <==>
        s.jobs[id].state == JobExecuting || forall n | n in late :: !Hosts(s.jobs[id], n)
    {
      TimeoutStrands(s, late, s.jobs[id]);
    }
  }

  /** Steps that change no task and withdraw nothing. */
  lemma QuietStepHolds(s: State, s': State, step: Step)
    requires Inv(s) && AllHeld(s) && Enabled(s, step) && s' == Next(s, step) && Shape(s')
    requires !step.Register? && !step.Place? && !step.Report? && !step.Terminate? && !step.Timeout?
    ensures AllHeld(s')
  {
    forall n, x | HeldOn(s, n, x)
      ensures HeldOn(s', n, x)
    {
      QuietStepHoldsOn(s, s', step, n, x);
    }
  }

  lemma QuietStepHoldsOn(s: State, s': State, step: Step, n: string, x: string)
    requires Shape(s) && Enabled(s, step) && s' == Next(s, step) && Shape(s') && HeldOn(s, n, x)
    requires !step.Register? && !step.Place? && !step.Report? && !step.Terminate? && !step.Timeout?
    ensures HeldOn(s', n, x)
  {
    assert Known(s', n) && Outstanding(s', n) == Outstanding(s, n);
  }

  lemma OtherStepHolds(s: State, s': State, step: Step)
    requires Inv(s) && AllHeld(s) && Enabled(s, step) && s' == Next(s, step) && Shape(s')
    requires !step.Register? && !step.Terminate? && !step.Timeout?
    ensures AllHeld(s')
  {
    if step.Place? {
      PlaceHolds(s, step.name, step.id, step.ref);
    } else if step.Report? {
      ReportKeepsHeld(s, s', step.name, step.report);
    } else {
      QuietStepHolds(s, s', step);
    }
  }

  /** While every task in progress is outstanding on its node, a step leaves it so exactly if it is one of
      those that strand none. */
  lemma StepHolds(s: State, s': State, step: Step)
    requires Inv(s) && AllHeld(s) && Enabled(s, step) && s' == Next(s, step) && Shape(s')
    ensures AllHeld(s') <==> StrandsNone(s, step)
  {
    if step.Register? {
      RegisterHolds(s, step.name, step.labels, step.resources);
    } else if step.Terminate? {
      TerminateStrands(s, s', step.id);
    } else if step.Timeout? {
      TimeoutHolds(s, step.late);
    } else {
      OtherStepHolds(s, s', step);
    }
  }

  ghost predicate AllStrandNone(s: State, steps: seq<Step>)
    requires Possible(s, steps)
    decreases |steps|
  {
    steps != [] ==> StrandsNone(s, steps[0]) && AllStrandNone(Next(s, steps[0]), steps[1..])
  }

  lemma {:induction false} RunHolds(s: State, steps: seq<Step>)
    requires Inv(s) && AllHeld(s) && Possible(s, steps) && AllStrandNone(s, steps)
    ensures Inv(After(s, steps)) && AllHeld(After(s, steps))
    decreases |steps|
  {
    if steps != [] {
      StepKeeps(s, steps[0]);
      StepHolds(s, Next(s, steps[0]), steps[0]);
      RunHolds(Next(s, steps[0]), steps[1..]);
    }
  }

  /** After a run from an empty server in which no step stranded a task, the records say exactly what the
      nodes have: an ID with a record is outstanding on a known node if and only if its record is in
      progress on that node. */
  lemma RecordsAgree(steps: seq<Step>, n: string, x: string)
    requires Possible(EMPTY, steps) && AllStrandNone(EMPTY, steps)
    ensures var s := After(EMPTY, steps);
      HeldOn(s, n, x) && LookUp(s.jobs, x).Some? <==>
      && Canonical(x) && LookUp(s.jobs, x).Some?
      && LookUp(s.jobs, x).value.nodeName == n && IsActiveState(LookUp(s.jobs, x).value.state)
  {
    RunHolds(EMPTY, steps);
    if LookUp(After(EMPTY, steps).jobs, x).Some? {
      RecordAgrees(After(EMPTY, steps), n, x);
    }
  }

  lemma RecordAgrees(s: State, n: string, x: string)
    requires Inv(s) && AllHeld(s) && LookUp(s.jobs, x).Some?
    ensures HeldOn(s, n, x) <==>
      Canonical(x) && LookUp(s.jobs, x).value.nodeName == n && IsActiveState(LookUp(s.jobs, x).value.state)
  {
    if HeldOn(s, n, x) {
      var t :| t in Outstanding(s, n) && t.id == x;
      assert NodeInv(s, n) && Located(s.jobs, n, t);
    }
    var (j, g, k) := ParseTaskId(x);
    assert JobHeld(s, s.jobs[j]) && JobInv(j, s.jobs[j]) && Within(s.jobs[j].groups, TaskRef(g, k));
  }

  /** The test before a deletion is then exact: a job hosts nothing exactly if it owns nothing outstanding. */
  lemma HostsNothingOwnsNothing(s: State, id: string)
    requires Inv(s) && AllHeld(s) && Creditable(s) && id in s.jobs
    ensures (forall n :: !Hosts(s.jobs[id], n)) <==> NoneOwned(s, id)
  {
    if forall n :: !Hosts(s.jobs[id], n) {
      HostlessOwnsNone(s, id);
    }
    forall ref | Within(s.jobs[id].groups, ref) && IsActiveState(TaskAt(s.jobs[id].groups, ref).state)
      ensures !NoneOwned(s, id)
    {
      RecordFound(s, id, ref);
      ParseUndoesTaskId(id, ref.group, ref.task);
      assert JobHeld(s, s.jobs[id]);
    }
  }

  // ----- a task stranded by a timeout

  /** Placing a task does not change its job's state, and a timeout requeues tasks of executing jobs only:
      a task placed for a queued job whose node times out stays scheduled, with its message gone. */
  lemma QueuedJobStrands(s: State, name: string, id: string, ref: TaskRef)
    requires Inv(s) && Enabled(s, Place(name, id, ref)) && s.jobs[id].state == JobQueued
    ensures Enabled(Placed(s, name, id, ref), Timeout({name}))
    ensures var s' := TimedOut(Placed(s, name, id, ref), {name}); var task := TaskAt(s'.jobs[id].groups, ref);
      && task.state == TaskScheduled && task.nodeName == name && s'.boxes[name] == [] && !JobHeld(s', s'.jobs[id])
  {
    var placed := Placed(s, name, id, ref);
    RequeuedAt(placed.jobs[id], {name}, ref);
    assert !Known(TimedOut(placed, {name}), name);
  }
}
