/** How resources are lost, and exactly when: deletions, reused IDs, unknown nodes switched online, and
    stray reports. */
module Losses {
  import opened Resources
  import opened TaskIds
  import opened Tasks
  import opened Jobs
  import opened Messages
  import opened NodeCaches
  import opened Cluster
  import opened Ledger
  import opened Runs

  // ----- deletions

  /** The server knows the job of every task outstanding on a known node, so it can give back its charge. */
  ghost predicate Creditable(s: State)
    requires Shape(s)
  {
    forall n, t | Known(s, n) && t in Outstanding(s, n) :: LookUp(s.jobs, t.id).Some?
  }

  /** No task outstanding on a known node belongs to the job. */
  ghost predicate NoneOwned(s: State, id: string)
    requires Shape(s)
  {
    forall n, t | Known(s, n) && t in Outstanding(s, n) :: ParseTaskId(t.id).0 != id
  }

  ghost predicate NothingLost(s: State) {
    forall n | n in s.lost :: s.lost[n] == []
  }

  /** Deleting a job keeps every outstanding task creditable exactly if none of them belongs to it. */
  lemma DeletionKeepsCredit(s: State, id: string)
    requires Inv(s) && Creditable(s) && Enabled(s, Delete(id))
    ensures Creditable(Next(s, Delete(id))) <==> NoneOwned(s, id)
  {
    var s' := Next(s, Delete(id));
    assert forall n | n in s.nodes :: Outstanding(s', n) == Outstanding(s, n);
    assert forall n :: Known(s', n) <==> Known(s, n);
    forall n, t | Known(s, n) && t in Outstanding(s, n)
      ensures LookUp(s'.jobs, t.id).Some? <==> ParseTaskId(t.id).0 != id
    {
      assert LookUp(s.jobs, t.id).Some?;
    }
  }

  /** The test a caller can make: a job that hosts nothing owns nothing outstanding. */
  lemma HostlessOwnsNone(s: State, id: string)
    requires Inv(s) && Creditable(s) && id in s.jobs && forall n :: !Hosts(s.jobs[id], n)
    ensures NoneOwned(s, id)
  {
    forall n, t | Known(s, n) && t in Outstanding(s, n)
      ensures ParseTaskId(t.id).0 != id
    {
      OwnerHosts(s, n, t);
    }
  }

  lemma OwnerHosts(s: State, n: string, t: Task)
    requires Inv(s) && Known(s, n) && t in Outstanding(s, n) && LookUp(s.jobs, t.id).Some?
    ensures Hosts(s.jobs[ParseTaskId(t.id).0], n)
  {
    assert Located(s.jobs, n, t);
    var (j, g, k) := ParseTaskId(t.id);
    assert Within(s.jobs[j].groups, TaskRef(g, k));
  }

  /** Every deletion of the run is of a job that owns nothing outstanding. */
  ghost predicate Careful(s: State, steps: seq<Step>)
    requires Possible(s, steps)
    decreases |steps|
  {
    steps != [] ==> (steps[0].Delete? ==> NoneOwned(s, steps[0].id)) && Careful(Next(s, steps[0]), steps[1..])
  }

  /** No step takes a task away from a job. */
  lemma TasksStay(s: State, step: Step, s': State, id: string)
    requires Shape(s) && Enabled(s, step) && s' == Next(s, step) && LookUp(s.jobs, id).Some? && !step.Delete?
    ensures LookUp(s'.jobs, id).Some?
  {
    var (j, g, k) := ParseTaskId(id);
    PlaceStays(s, step, s', j, TaskRef(g, k));
  }

  lemma PlaceStays(s: State, step: Step, s': State, id: string, ref: TaskRef)
    requires Shape(s) && Enabled(s, step) && s' == Next(s, step) && !step.Delete?
    requires id in s.jobs && Within(s.jobs[id].groups, ref)
    ensures id in s'.jobs && Within(s'.jobs[id].groups, ref)
  {
    if step.Timeout? {
      RequeuedAt(s.jobs[id], step.late, ref);
    } else if step.Report? {
      ReportedJobs(s, s', step.name, step.report);
    }
  }

  /** Besides a placement, no step makes a task outstanding. */
  lemma NoneAppears(s: State, step: Step, s': State, n: string, t: Task)
    requires Shape(s) && Enabled(s, step) && !step.Place?
    requires s' == Next(s, step) && Shape(s') && n in s'.nodes && t in Outstanding(s', n)
    ensures n in s.nodes && t in Outstanding(s, n)
  {
    if step.Terminate? {
      TerminateWithdraws(s, step.id, n, t);
    } else if step.Report? {
      ReportTakesOff(s, step.name, step.report, n, t);
    } else {
      OtherStepsAddNone(s, step, s', n, t);
    }
  }

  lemma OtherStepsAddNone(s: State, step: Step, s': State, n: string, t: Task)
    requires Shape(s) && Enabled(s, step) && !step.Place? && !step.Terminate? && !step.Report?
    requires s' == Next(s, step) && n in s'.nodes && t in Outstanding(s', n)
    ensures n in s.nodes && t in Outstanding(s, n)
  {
  }

  lemma ReportTakesOff(s: State, name: string, report: TaskReport, n: string, t: Task)
    requires Shape(s) && name in s.nodes && Shape(Heard(s, name, report))
    requires n in Heard(s, name, report).nodes && t in Outstanding(Heard(s, name, report), n)
    ensures n in s.nodes && t in Outstanding(s, n)
  {
    ReportNodes(s, name, report);
    RemoveMembers(s.running[n], report.id);
  }

  lemma TerminateWithdraws(s: State, id: string, n: string, t: Task)
    requires Shape(s) && id in s.jobs && n in s.nodes && t in Outstanding(Terminated(s, id), n)
    ensures t in Outstanding(s, n)
  {
    var msg := TerminateJob(id);
    TasksInAppend(Kept(s.boxes[n], msg), msg);
    WithdrawalMembers(s.boxes[n], msg);
  }

  lemma {:induction false} RemoveMembers(tasks: seq<Task>, id: string)
    ensures forall t | t in Remove(tasks, id) :: t in tasks
  {
    if tasks != [] {
      RemoveMembers(tasks[..|tasks| - 1], id);
    }
  }

  lemma PlacedMembers(s: State, name: string, id: string, ref: TaskRef, n: string, t: Task)
    requires Inv(s) && Enabled(s, Place(name, id, ref))
    requires n in s.nodes && t in Outstanding(Placed(s, name, id, ref), n)
    ensures t in Outstanding(s, n) || t.id == TaskId(id, ref.group, ref.task)
  {
    var before := TaskAt(s.jobs[id].groups, ref);
    var task := before.(state := TaskScheduled, nodeName := name);
    var msg := ScheduleTask(task.id, task);
    NothingWithdrawn(s.boxes[name], msg);
    TasksInAppend(s.boxes[name], msg);
  }

  /** A step other than a careless deletion keeps every outstanding task creditable and loses nothing. */
  lemma StepKeepsCredit(s: State, step: Step, s': State)
    requires Inv(s) && Creditable(s) && NothingLost(s) && Enabled(s, step)
    requires s' == Next(s, step) && Shape(s')
    requires step.Delete? ==> NoneOwned(s, step.id)
    ensures Creditable(s') && NothingLost(s')
  {
    StepLosesNothing(s, step);
    if step.Delete? {
      DeletionKeepsCredit(s, step.id);
    } else {
      forall n, t | Known(s', n) && t in Outstanding(s', n)
        ensures LookUp(s'.jobs, t.id).Some?
      {
        CreditStays(s, step, s', n, t);
      }
    }
  }

  lemma StepLosesNothing(s: State, step: Step)
    requires Inv(s) && Creditable(s) && NothingLost(s) && Enabled(s, step)
    ensures NothingLost(Next(s, step))
  {
    if step.Report? {
      ReportLosesNothing(s, step.name, step.report);
    }
  }

  lemma ReportLosesNothing(s: State, name: string, report: TaskReport)
    requires Inv(s) && Creditable(s) && NothingLost(s) && Enabled(s, Report(name, report))
    ensures NothingLost(Heard(s, name, report))
  {
    var entry := ReportNames(s, name, report);
    assert LookUp(s.jobs, entry.id).Some?;
  }

  lemma CreditStays(s: State, step: Step, s': State, n: string, t: Task)
    requires Inv(s) && Creditable(s) && Enabled(s, step) && !step.Delete?
    requires s' == Next(s, step) && Shape(s') && Known(s', n) && t in Outstanding(s', n)
    ensures LookUp(s'.jobs, t.id).Some?
  {
    if step.Place? && t !in Outstanding(s, n) {
      PlacedMembers(s, step.name, step.id, step.ref, n, t);
      LookUpOf(s.jobs, step.id, step.ref);
    } else {
      if !step.Place? {
        NoneAppears(s, step, s', n, t);
      }
      StaysKnown(s, step, s', n, t);
    }
    TasksStay(s, step, s', t.id);
  }

  /** A node becomes known by registering only, which leaves nothing outstanding on it. */
  lemma StaysKnown(s: State, step: Step, s': State, n: string, t: Task)
    requires Shape(s) && Enabled(s, step) && s' == Next(s, step) && Shape(s') && Known(s', n) && t in Outstanding(s', n)
    ensures Known(s, n)
  {
    if step.Report? {
      ReportNodes(s, step.name, step.report);
    } else if !step.Register? {
      OthersAddNone(s, step, s', n);
    }
  }

  lemma OthersAddNone(s: State, step: Step, s': State, n: string)
    requires Shape(s) && Enabled(s, step) && !step.Report? && !step.Register? && s' == Next(s, step) && Known(s', n)
    ensures Known(s, n)
  {
    if step.Timeout? || step.Terminate? || step.Place? {
      assert n in s.nodes;
    }
  }

  lemma {:induction false} CarefulRunKeepsCredit(s: State, steps: seq<Step>)
    requires Inv(s) && Creditable(s) && NothingLost(s) && Possible(s, steps) && Careful(s, steps)
    ensures Creditable(After(s, steps)) && NothingLost(After(s, steps))
    decreases |steps|
  {
    if steps != [] {
      StepKeeps(s, steps[0]);
      StepKeepsCredit(s, steps[0], Next(s, steps[0]));
      CarefulRunKeepsCredit(Next(s, steps[0]), steps[1..]);
    }
  }

  /** Before every deletion of the run, the caller has checked that the job hosts nothing. */
  ghost predicate Tested(s: State, steps: seq<Step>)
    requires Possible(s, steps)
    decreases |steps|
  {
    steps != [] ==>
      && (steps[0].Delete? ==> forall n :: !Hosts(s.jobs[steps[0].id], n))
      && Tested(Next(s, steps[0]), steps[1..])
  }

  lemma {:induction false} TestedIsCareful(s: State, steps: seq<Step>)
    requires Inv(s) && Creditable(s) && NothingLost(s) && Possible(s, steps) && Tested(s, steps)
    ensures Careful(s, steps)
    decreases |steps|
  {
    if steps != [] {
      if steps[0].Delete? {
        HostlessOwnsNone(s, steps[0].id);
      }
      StepKeeps(s, steps[0]);
      StepKeepsCredit(s, steps[0], Next(s, steps[0]));
      TestedIsCareful(Next(s, steps[0]), steps[1..]);
    }
  }

  /** After any run from an empty server in which no deleted job owned an outstanding task, on every known
      node what is available plus what waits and runs is what the node offers, in every quantity. */
  lemma CarefulLedgerBalances(steps: seq<Step>, name: string, kind: Kind)
    requires Possible(EMPTY, steps) && Careful(EMPTY, steps) && Known(After(EMPTY, steps), name)
    requires Tracks(Base(After(EMPTY, steps).nodes[name]), kind)
    ensures var s := After(EMPTY, steps);
      Amount(s.nodes[name].available, kind) + Sum(s.running[name], kind) + Sum(TasksIn(s.boxes[name]), kind)
        == Amount(Base(s.nodes[name]), kind)
  {
    LedgerBalances(steps, name, kind);
    CarefulRunKeepsCredit(EMPTY, steps);
  }

  // ----- what a careless deletion loses

  /** A finish report as a node sends it. */
  function Finish(id: string): TaskReport {
    TaskReport(id, TaskCompleted, 100, 0, "")
  }

  lemma StepFirst(s: State, step: Step, rest: seq<Step>)
    requires Shape(s) && Enabled(s, step) && Possible(Next(s, step), rest)
    ensures Possible(s, [step] + rest) && After(s, [step] + rest) == After(Next(s, step), rest)
    ensures Careful(s, [step] + rest) <==> (step.Delete? ==> NoneOwned(s, step.id)) && Careful(Next(s, step), rest)
  {
    assert ([step] + rest)[1..] == rest;
  }

  lemma OneStep(s: State, step: Step)
    requires Shape(s) && Enabled(s, step) && Shape(Next(s, step))
    ensures Possible(s, [step]) && After(s, [step]) == Next(s, step)
  {
    assert [step][1..] == [];
  }

  lemma RemovesOnly(s: State, name: string, task: Task)
    requires Inv(s) && Known(s, name) && task in s.running[name]
    ensures forall t :: t in Remove(s.running[name], task.id) <==> t in s.running[name] && t != task
  {
    assert NodeInv(s, name);
    DistinctParts(s.running[name], TasksIn(s.boxes[name]));
    RemoveOne(s.running[name], task.id, task, Cores);
  }

  /** A running task whose job is unknown: its finish report is possible, changes no node and no job, and
      its charge is lost. */
  lemma UnknownJobLoses(s: State, name: string, task: Task)
    requires Inv(s) && Known(s, name) && task in s.running[name] && LookUp(s.jobs, task.id).None?
    ensures Enabled(s, Report(name, Finish(task.id)))
    ensures var s' := Next(s, Report(name, Finish(task.id)));
      && s'.nodes == s.nodes && s'.jobs == s.jobs && s'.lost == s.lost[name := s.lost[name] + [task]]
      && s'.boxes == s.boxes && s'.running == s.running[name := Remove(s.running[name], task.id)]
    ensures forall t :: t in Remove(s.running[name], task.id) <==> t in s.running[name] && t != task
  {
    assert RunsOn(s, name, task.id);
    RemovesOnly(s, name, task);
    assert NodeInv(s, name) && task in Outstanding(s, name);
    DistinctParts(s.running[name], TasksIn(s.boxes[name]));
    EntryIsRemoved(s.running[name], task);
    assert Named(s, task.id).None?;
  }

  /** A delivery moves every waiting task to the running ones. */
  lemma DeliveryRuns(s: State, name: string, task: Task)
    requires Inv(s) && Known(s, name) && task in Outstanding(s, name)
    ensures Inv(Delivered(s, name)) && Known(Delivered(s, name), name) && task in Delivered(s, name).running[name]
  {
    DeliverKeeps(s, name);
  }

  /** Deleting a job that owns an outstanding task loses it, from every state: once the node has fetched
      and finished the task, its charge does not come back. */
  lemma CarelessDeletionLoses(s: State, id: string, name: string, task: Task)
    requires Inv(s) && Enabled(s, Delete(id)) && Known(s, name)
    requires task in Outstanding(s, name) && ParseTaskId(task.id).0 == id
    ensures var steps := [Delete(id)] + ([Deliver(name)] + [Report(name, Finish(task.id))]);
      && Possible(s, steps) && !Careful(s, steps)
      && After(s, steps).nodes == s.nodes && After(s, steps).lost == s.lost[name := s.lost[name] + [task]]
      && forall t :: t in Outstanding(After(s, steps), name) <==> t in Outstanding(s, name) && t != task
  {
    DeleteKeeps(s, id);
    var deleted := Next(s, Delete(id));
    assert Outstanding(deleted, name) == Outstanding(s, name);
    DeliveryRuns(deleted, name, task);
    var fetched := Delivered(deleted, name);
    UnknownJobLoses(fetched, name, task);
    var finish := Report(name, Finish(task.id));
    OneStep(fetched, finish);
    StepFirst(deleted, Deliver(name), [finish]);
    StepFirst(s, Delete(id), [Deliver(name)] + [finish]);
  }

  /** Terminating any job leaves it deletable, and its running tasks running. */
  lemma TerminatedIsDeletable(s: State, id: string)
    requires Inv(s) && id in s.jobs
    ensures Enabled(s, Terminate(id)) && Inv(Terminated(s, id)) && Enabled(Terminated(s, id), Delete(id))
    ensures Terminated(s, id).running == s.running && Terminated(s, id).lost == s.lost
    ensures forall n :: Known(Terminated(s, id), n) <==> Known(s, n)
  {
    TerminateKeeps(s, id);
  }

  /** A terminated job that is deleted before its running tasks have reported loses them. */
  lemma TerminatedThenDeletedLoses(s: State, id: string, name: string, task: Task)
    requires Inv(s) && id in s.jobs && Known(s, name)
    requires task in s.running[name] && ParseTaskId(task.id).0 == id
    ensures var steps := [Terminate(id)] + ([Delete(id)] + ([Deliver(name)] + [Report(name, Finish(task.id))]));
      Possible(s, steps) && After(s, steps).lost == s.lost[name := s.lost[name] + [task]]
  {
    TerminatedIsDeletable(s, id);
    var terminated := Terminated(s, id);
    assert task in Outstanding(terminated, name);
    CarelessDeletionLoses(terminated, id, name, task);
    StepFirst(s, Terminate(id), [Delete(id)] + ([Deliver(name)] + [Report(name, Finish(task.id))]));
  }

  /** What is lost stays lost until the node registers again. */
  lemma {:induction false} LossLasts(s: State, steps: seq<Step>, name: string)
    requires Possible(s, steps) && name in s.lost
    requires forall i | 0 <= i < |steps| && steps[i].Register? :: steps[i].name != name
    ensures name in After(s, steps).lost && s.lost[name] <= After(s, steps).lost[name]
    decreases |steps|
  {
    if steps != [] {
      assert forall i | 1 <= i < |steps| :: steps[i] == steps[1..][i - 1];
      LossLasts(Next(s, steps[0]), steps[1..], name);
    }
  }

  // ----- a concrete run

  const OFFER := Amounts(20, 4096, 0, 0, 0, 0, 2048, map[])

  const ONLY := TaskRef(0, 0)

  function OneTask(): Task {
    Task(TaskId("j", 0, 0), map[], map[], STANDARD, TaskQueued, "", 0, -1, "")
  }

  function OneJob(): JobRec {
    JobRec("default", 0, 0, 0, [TaskGroup("g", [], 0, [OneTask()])], JobQueued, 0)
  }

  const JOIN := Register("n", map[], OFFER)

  function Submit(): Step {
    Create("j", OneJob())
  }

  const START := Place("n", "j", ONLY)

  lemma Joined()
    ensures Enabled(EMPTY, JOIN) && Inv(Next(EMPTY, JOIN))
    ensures var s := Next(EMPTY, JOIN);
      s.nodes.Keys == {"n"} && s.jobs == map[] && Outstanding(s, "n") == [] && s.lost["n"] == []
    ensures Next(EMPTY, JOIN).nodes["n"] == NewNode(map[], OFFER)
  {
    RegisterKeeps(EMPTY, "n", map[], OFFER);
  }

  lemma OneJobIsSubmitted()
    ensures Submitted("j", OneJob())
  {
    assert forall ref | Within(OneJob().groups, ref) :: ref == ONLY;
  }

  lemma Submitting(s: State)
    requires s == Next(EMPTY, JOIN)
    ensures Enabled(s, Submit()) && Inv(Next(s, Submit()))
    ensures Next(s, Submit()) == s.(jobs := map["j" := OneJob()])
  {
    Joined();
    OneJobIsSubmitted();
    CreateKeeps(s, "j", OneJob());
  }

  /** The node is charged for the task. */
  lemma Starting(s: State) returns (task: Task)
    requires Inv(s) && s.nodes == map["n" := NewNode(map[], OFFER)] && s.jobs == map["j" := OneJob()]
      && Outstanding(s, "n") == []
    ensures Enabled(s, START) && Inv(Next(s, START)) && Next(s, START).lost == s.lost
    ensures Outstanding(Next(s, START), "n") == [task] && task.id == TaskId("j", 0, 0) && task.resources == STANDARD
    ensures var node := Next(s, START).nodes["n"];
      node.state == NodeOnline && node.available.cores == 0 && Base(node).cores == 10
    ensures Enabled(Next(s, START), Delete("j"))
  {
    task := OneTask().(state := TaskScheduled, nodeName := "n");
    PlaceKeeps(s, "n", "j", ONLY);
    NothingWithdrawn(s.boxes["n"], ScheduleTask(task.id, task));
    TasksInAppend(s.boxes["n"], ScheduleTask(task.id, task));
  }

  /** The job is deleted before its task is fetched and finished. */
  function Leak(): seq<Step> {
    [Delete("j")] + ([Deliver("n")] + [Report("n", Finish(TaskId("j", 0, 0)))])
  }

  /** The run deletes a job that owns an outstanding task, and leaves a node with nothing outstanding and
      none of the ten tenths of a core it offers. */
  ghost predicate Leaks(s: State, steps: seq<Step>) {
    Possible(s, steps) && !Careful(s, steps) && Drained(After(s, steps))
  }

  ghost predicate Drained(s: State)
    requires Shape(s)
  {
    && Known(s, "n") && Outstanding(s, "n") == [] && |s.lost["n"]| == 1
    && s.nodes["n"].available.cores == 0 && Base(s.nodes["n"]).cores == 10
  }

  lemma LeaksLater(s: State, step: Step, rest: seq<Step>)
    requires Shape(s) && Enabled(s, step) && Leaks(Next(s, step), rest)
    ensures Leaks(s, [step] + rest)
  {
    StepFirst(s, step, rest);
  }

  lemma HasMember(tasks: seq<Task>)
    requires tasks != []
    ensures exists t :: t in tasks
  {
    assert tasks[0] in tasks;
  }

  lemma LeavesDrained(s: State, s': State, task: Task)
    requires Shape(s) && Shape(s') && Known(s, "n") && Outstanding(s, "n") == [task] && s.lost["n"] == []
    requires s.nodes["n"].available.cores == 0 && Base(s.nodes["n"]).cores == 10
    requires s'.nodes == s.nodes && s'.lost == s.lost["n" := s.lost["n"] + [task]]
    requires forall t :: t in Outstanding(s', "n") ==> t in Outstanding(s, "n") && t != task
    ensures Drained(s')
  {
    var out := Outstanding(s', "n");
    if out != [] {
      HasMember(out);
    }
  }

  lemma StartedLeaks(s: State, task: Task)
    requires Inv(s) && Enabled(s, Delete("j")) && Known(s, "n") && Outstanding(s, "n") == [task] && s.lost["n"] == []
    requires task.id == TaskId("j", 0, 0)
    requires s.nodes["n"].available.cores == 0 && Base(s.nodes["n"]).cores == 10
    ensures Leaks(s, Leak())
  {
    ParseUndoesTaskId("j", 0, 0);
    CarelessDeletionLoses(s, "j", "n", task);
    LeavesDrained(s, After(s, Leak()), task);
  }

  /** A concrete run from an empty server: one node, one job of one task, deleted while the task waits. */
  lemma DeletedJobLeaks()
    ensures Leaks(EMPTY, [JOIN] + ([Submit()] + ([START] + Leak())))
  {
    Joined();
    var joined := Next(EMPTY, JOIN);
    Submitting(joined);
    var queued := Next(joined, Submit());
    var task := Starting(queued);
    StartedLeaks(Next(queued, START), task);
    LeaksLater(queued, START, Leak());
    LeaksLater(joined, Submit(), [START] + Leak());
    LeaksLater(EMPTY, JOIN, [Submit()] + ([START] + Leak()));
  }

  // ----- a job ID used again

  /** A new job keeps the server in order exactly if no task outstanding on a known node bears an ID that
      the new job gives to one of its own. */
  lemma ReuseKeepsOrder(s: State, id: string, job: JobRec)
    requires Inv(s) && id !in s.jobs && Submitted(id, job)
    ensures Inv(s.(jobs := s.jobs[id := job])) <==> Unclaimed(s, id, job)
  {
    var s' := s.(jobs := s.jobs[id := job]);
    if Unclaimed(s, id, job) {
      CreateKeeps(s, id, job);
    }
    if Inv(s') {
      InOrderUnclaimed(s, s', id, job);
    }
  }

  lemma InOrderUnclaimed(s: State, s': State, id: string, job: JobRec)
    requires Shape(s) && Submitted(id, job) && s' == s.(jobs := s.jobs[id := job]) && Inv(s')
    ensures Unclaimed(s, id, job)
  {
    forall n, t | Known(s, n) && t in Outstanding(s, n) && ParseTaskId(t.id).0 == id
      ensures LookUp(s'.jobs, t.id).None?
    {
      assert NodeInv(s', n) && t in Outstanding(s', n);
    }
  }

  /** A running task whose record is assigned to no node: its finish report is possible, gives nothing
      back, loses its charge, and completes the record. */
  lemma UnassignedLoses(s: State, name: string, t: Task)
    requires Shape(s) && "" !in s.nodes && Known(s, name) && t in s.running[name] && DistinctIds(s.running[name])
    requires LookUp(s.jobs, t.id).Some? && LookUp(s.jobs, t.id).value.nodeName == ""
    ensures var finish := Report(name, Finish(t.id));
      && Enabled(s, finish) && Next(s, finish).nodes == s.nodes
      && Next(s, finish).lost == s.lost[name := s.lost[name] + [t]]
      && LookUp(Next(s, finish).jobs, t.id).Some? && LookUp(Next(s, finish).jobs, t.id).value.state == TaskCompleted
  {
    assert RunsOn(s, name, t.id);
    EntryIsRemoved(s.running[name], t);
    var (j, g, k) := ParseTaskId(t.id);
    assert Named(s, t.id) == Some((j, TaskRef(g, k)));
    assert ReportedTo(s, Finish(t.id)).nodes == s.nodes && !Credits(s, name, t.id);
  }

  /** What goes wrong otherwise: the finish of a task of the former owner completes a task of the new job
      that was never placed, gives nothing back to the node, and its charge is lost. */
  lemma ReusedIdMisleads(s: State, id: string, job: JobRec, n: string, t: Task)
    requires Inv(s) && id !in s.jobs && Submitted(id, job)
    requires Known(s, n) && t in s.running[n] && ParseTaskId(t.id).0 == id && LookUp(s.jobs[id := job], t.id).Some?
    ensures var s' := s.(jobs := s.jobs[id := job]); var finish := Report(n, Finish(t.id));
      && LookUp(s'.jobs, t.id).value.state == TaskQueued && Enabled(s', finish)
      && Next(s', finish).nodes == s.nodes && Next(s', finish).lost == s.lost[n := s.lost[n] + [t]]
      && LookUp(Next(s', finish).jobs, t.id).value.state == TaskCompleted
  {
    var s' := s.(jobs := s.jobs[id := job]);
    assert NodeInv(s, n);
    DistinctParts(s.running[n], TasksIn(s.boxes[n]));
    var (j, g, k) := ParseTaskId(t.id);
    assert Within(job.groups, TaskRef(g, k));
    UnassignedLoses(s', n, t);
  }

  // ----- an unknown node switched online

  /** The run does not register this node. */
  predicate Unregistered(steps: seq<Step>, name: string) {
    forall i | 0 <= i < |steps| && steps[i].Register? :: steps[i].name != name
  }

  /** The node has been unknown, and nothing about it has changed, since it had these tasks running and lost. */
  ghost predicate Frozen(s: State, name: string, node: NodeRec, running: seq<Task>, lost: seq<Task>)
    requires Shape(s)
  {
    && name in s.nodes && s.nodes[name] == node && node.state == NodeUnknown
    && s.running[name] == running && s.lost[name] == lost && TasksIn(s.boxes[name]) == []
  }

  /** Nothing reaches an unknown node but messages that end jobs, and it reports nothing. */
  lemma StepFreezes(s: State, step: Step, s': State, name: string)
    requires Inv(s) && Enabled(s, step) && s' == Next(s, step) && Shape(s') && (step.Register? ==> step.name != name)
    requires name in s.nodes && Frozen(s, name, s.nodes[name], s.running[name], s.lost[name])
    ensures Frozen(s', name, s.nodes[name], s.running[name], s.lost[name])
  {
    if step.Report? {
      ReportFreezes(s, step.name, step.report, name);
    } else if step.Terminate? {
      TerminateFreezes(s, step.id, name);
    } else {
      QuietStepFreezes(s, step, s', name);
    }
  }

  lemma QuietStepFreezes(s: State, step: Step, s': State, name: string)
    requires Shape(s) && Enabled(s, step) && s' == Next(s, step) && Shape(s') && (step.Register? ==> step.name != name)
    requires !step.Report? && !step.Terminate?
    requires name in s.nodes && Frozen(s, name, s.nodes[name], s.running[name], s.lost[name])
    ensures Frozen(s', name, s.nodes[name], s.running[name], s.lost[name])
  {
  }

  lemma ReportFreezes(s: State, reporter: string, report: TaskReport, name: string)
    requires Inv(s) && Enabled(s, Report(reporter, report)) && name in s.nodes && name != reporter
    ensures var s' := Heard(s, reporter, report);
      && name in s'.nodes && s'.nodes[name] == s.nodes[name] && name in s'.running
      && s'.running[name] == s.running[name]
      && name in s'.lost && s'.lost[name] == s.lost[name] && s'.boxes == s.boxes
  {
    var entry := ReportNames(s, reporter, report);
    ReportNodes(s, reporter, report);
    if Named(s, report.id).Some? {
      var (id, ref) := Named(s, report.id).value;
      ReportEffect(s, Heard(s, reporter, report), reporter, report, id, ref);
    }
  }

  lemma TerminateFreezes(s: State, id: string, name: string)
    requires Shape(s) && id in s.jobs && name in s.nodes && TasksIn(s.boxes[name]) == []
    ensures var s' := Terminated(s, id);
      && name in s'.nodes && s'.nodes[name] == s.nodes[name] && s'.running == s.running && s'.lost == s.lost
      && name in s'.boxes && TasksIn(s'.boxes[name]) == []
  {
    var box, msg := s.boxes[name], TerminateJob(id);
    forall m | m in box
      ensures Filter(msg, m)
    {
      if m.ScheduleTask? {
        ScheduledIsIn(box, m);
      }
    }
    NothingWithdrawn(box, msg);
    TasksInAppend(box, msg);
  }

  lemma ScheduledIsIn(box: seq<Message>, m: Message)
    requires m in box && m.ScheduleTask?
    ensures m.task in TasksIn(box)
  {
    TasksInMembers(box);
  }

  lemma {:induction false} RunFreezes(s: State, steps: seq<Step>, name: string)
    requires Inv(s) && Possible(s, steps) && Unregistered(steps, name)
    requires name in s.nodes && Frozen(s, name, s.nodes[name], s.running[name], s.lost[name])
    ensures Frozen(After(s, steps), name, s.nodes[name], s.running[name], s.lost[name])
    decreases |steps|
  {
    if steps != [] {
      var s' := Next(s, steps[0]);
      StepKeeps(s, steps[0]);
      StepFreezes(s, steps[0], s', name);
      assert forall i | 1 <= i < |steps| :: steps[i] == steps[1..][i - 1];
      RunFreezes(s', steps[1..], name);
    }
  }

  /** Switching a node online at any time after its timeout, without registering it, keeps the server in
      order exactly if no task waited in its mailbox at the timeout, which empties the mailbox and gives
      nothing back, and each task it then ran has no record now or one that is still in progress there. */
  lemma UnknownNodeSwitchedOnline(s: State, late: set<string>, steps: seq<Step>, name: string)
    requires Inv(s) && Enabled(s, Timeout(late)) && name in late
    requires Possible(TimedOut(s, late), steps) && Unregistered(steps, name)
    ensures var now := After(TimedOut(s, late), steps);
      name in now.nodes && now.running[name] == s.running[name]
      && (Inv(Switched(now, name, NodeOnline)) <==>
          TasksIn(s.boxes[name]) == [] && forall t | t in s.running[name] :: Located(now.jobs, name, t))
  {
    var timed := TimedOut(s, late);
    TimeoutKeeps(s, late);
    RunKeeps(timed, steps);
    RunFreezes(timed, steps, name);
    FrozenSwitched(s, After(timed, steps), name);
  }

  lemma FrozenSwitched(s: State, now: State, name: string)
    requires Inv(s) && Inv(now) && Known(s, name)
    requires Frozen(now, name, s.nodes[name].(state := NodeUnknown), s.running[name], s.lost[name])
    requires s.nodes[name].state == NodeOnline
    ensures Inv(Switched(now, name, NodeOnline)) <==>
      TasksIn(s.boxes[name]) == [] && forall t | t in s.running[name] :: Located(now.jobs, name, t)
  {
    var s' := Switched(now, name, NodeOnline);
    OnlyNodeMatters(now, s', name);
    assert NodeInv(s, name);
    assert s'.nodes[name] == s.nodes[name] && Outstanding(s', name) == s.running[name];
    SwitchedBalance(s, s', name);
    DistinctParts(s.running[name], TasksIn(s.boxes[name]));
    assert NodeInv(s', name) <==>
      && Balanced(s'.nodes[name], Outstanding(s', name), s'.lost[name])
      && forall t | t in s.running[name] :: Located(s'.jobs, name, t);
  }

  lemma OnlyNodeMatters(s: State, s': State, name: string)
    requires Inv(s) && name in s.nodes && s' == Switched(s, name, NodeOnline)
    ensures Inv(s') <==> NodeInv(s', name)
  {
    forall n | n in s'.nodes && n != name
      ensures NodeInv(s', n)
    {
      Untouched(s, s', n);
    }
  }

  lemma SwitchedBalance(s: State, s': State, name: string)
    requires Shape(s) && Shape(s') && Known(s, name) && NodeInv(s, name) && name in s'.nodes
    requires s'.nodes[name] == s.nodes[name] && Outstanding(s', name) == s.running[name]
      && s'.lost[name] == s.lost[name]
    ensures Balanced(s'.nodes[name], Outstanding(s', name), s'.lost[name]) <==> TasksIn(s.boxes[name]) == []
  {
    var node, waiting := s.nodes[name], TasksIn(s.boxes[name]);
    forall kind | Tracks(Base(node), kind)
      ensures Amount(node.available, kind) + Sum(s.running[name], kind) + Sum(waiting, kind) + Sum(s.lost[name], kind)
        == Amount(Base(node), kind)
    {
      SumConcat(s.running[name], waiting, kind);
    }
    if waiting != [] {
      WaitingShows(s, name);
    }
  }

  lemma WaitingShows(s: State, name: string)
    requires Shape(s) && Known(s, name) && NodeInv(s, name) && TasksIn(s.boxes[name]) != []
    ensures exists kind :: Tracks(Base(s.nodes[name]), kind) && Sum(TasksIn(s.boxes[name]), kind) > 0
  {
    var waiting := TasksIn(s.boxes[name]);
    forall t | t in waiting
      ensures DemandOk(t.resources)
    {
      assert t in Outstanding(s, name) && Located(s.jobs, name, t);
    }
    DemandShows(waiting);
    var kind :| kind in MAIN && Sum(waiting, kind) > 0;
    assert Tracks(Base(s.nodes[name]), kind);
  }

  /** The timeout of its node puts this task back into the queue. */
  predicate SentBack(s: State, t: Task) {
    LookUp(s.jobs, t.id).Some? && s.jobs[ParseTaskId(t.id).0].state == JobExecuting
  }

  /** Right after the timeout that is so exactly if no task waited and none was sent back to the queue. */
  lemma SwitchedOnlineAtOnce(s: State, late: set<string>, name: string)
    requires Inv(s) && Enabled(s, Timeout(late)) && name in late
    ensures Inv(Switched(TimedOut(s, late), name, NodeOnline)) <==>
      TasksIn(s.boxes[name]) == [] && forall t | t in s.running[name] :: !SentBack(s, t)
  {
    TimeoutKeeps(s, late);
    UnknownNodeSwitchedOnline(s, late, [], name);
    SwitchedLocated(s, late, name);
  }

  lemma SwitchedLocated(s: State, late: set<string>, name: string)
    requires Inv(s) && Enabled(s, Timeout(late)) && name in late
    ensures forall t | t in s.running[name] :: Located(TimedOut(s, late).jobs, name, t) <==> !SentBack(s, t)
  {
    forall t | t in s.running[name]
      ensures Located(TimedOut(s, late).jobs, name, t) <==> !SentBack(s, t)
    {
      assert t in Outstanding(s, name) && Located(s.jobs, name, t);
      var (j, g, k) := ParseTaskId(t.id);
      if j in s.jobs {
        RequeuedAt(s.jobs[j], late, TaskRef(g, k));
      }
    }
  }

  /** The finish of a task sent back is then credited to no node, and its charge is lost. */
  lemma SentBackTaskLoses(s: State, late: set<string>, name: string, t: Task, s': State)
    requires Inv(s) && Enabled(s, Timeout(late)) && name in late && t in s.running[name] && SentBack(s, t)
    requires s' == Switched(TimedOut(s, late), name, NodeOnline)
    ensures var finish := Report(name, Finish(t.id));
      && Shape(s') && Enabled(s', finish) && Next(s', finish).nodes == s'.nodes
      && Next(s', finish).lost == s.lost[name := s.lost[name] + [t]]
  {
    assert NodeInv(s, name) && t in Outstanding(s, name);
    DistinctParts(s.running[name], TasksIn(s.boxes[name]));
    SentBackIsUnassigned(s, late, name, t);
    UnassignedLoses(s', name, t);
  }

  lemma SentBackIsUnassigned(s: State, late: set<string>, name: string, t: Task)
    requires Shape(s) && name in late && Located(s.jobs, name, t) && SentBack(s, t)
    ensures LookUp(TimedOut(s, late).jobs, t.id).Some? && LookUp(TimedOut(s, late).jobs, t.id).value.nodeName == ""
  {
    var (j, g, k) := ParseTaskId(t.id);
    RequeuedAt(s.jobs[j], late, TaskRef(g, k));
  }

  // ----- reports of tasks that do not run

  /** A finish report of a task recorded on a known node is credited to the node whether it runs there or
      not: the ledger balances afterwards exactly if it does. */
  lemma StrayFinishIsCredited(s: State, name: string, report: TaskReport, s': State)
    requires Inv(s) && IsFinishState(report.state) && Known(s, name) && Credits(s, name, report.id)
    requires s' == Heard(s, name, report) && Shape(s')
    ensures name in s'.nodes
      && (Balanced(s'.nodes[name], Outstanding(s', name), s'.lost[name]) <==> RunsOn(s, name, report.id))
  {
    ReportNodes(s, name, report);
    if RunsOn(s, name, report.id) {
      ReportKeeps(s, name, report);
      assert NodeInv(s', name);
    } else {
      StrayFinishUnbalances(s, name, report, s');
    }
  }

  /** So a second finish report of a task, for one, never leaves the ledger balanced. */
  lemma StrayFinishUnbalances(s: State, name: string, report: TaskReport, s': State)
    requires Inv(s) && IsFinishState(report.state) && Known(s, name) && Credits(s, name, report.id)
    requires !RunsOn(s, name, report.id) && s' == Heard(s, name, report) && Shape(s') && name in s'.nodes
    ensures !Balanced(s'.nodes[name], Outstanding(s', name), s'.lost[name])
  {
    var (id, ref) := Named(s, report.id).value;
    assert NodeInv(s, name) && JobInv(id, s.jobs[id]);
    RemoveAbsent(s.running[name], report.id);
    CreditedNode(s, name, report, s', id, ref);
    CreditUnbalances(s.nodes[name], Outstanding(s, name), s.lost[name], TaskAt(s.jobs[id].groups, ref).resources);
  }

  lemma CreditUnbalances(node: NodeRec, out: seq<Task>, lost: seq<Task>, demand: Amounts)
    requires Balanced(node, out, lost) && NonNegative(node.available) && DemandOk(demand)
    ensures !Balanced(node.(available := GivenBack(node.available, demand)), out, lost)
  {
    var kind := MainDemand(demand);
    GiveBackExact(node.available, demand);
    assert Tracks(Base(node), kind) && Tracks(node.available, kind);
  }

  lemma CreditedNode(s: State, name: string, report: TaskReport, s': State, id: string, ref: TaskRef)
    requires Shape(s) && IsFinishState(report.state) && name in s.nodes && s' == Heard(s, name, report) && Shape(s')
    requires Named(s, report.id) == Some((id, ref)) && TaskAt(s.jobs[id].groups, ref).nodeName == name
    requires Remove(s.running[name], report.id) == s.running[name]
    ensures Outstanding(s', name) == Outstanding(s, name) && s'.lost == s.lost
    ensures s'.nodes[name] ==
      s.nodes[name].(available := GivenBack(s.nodes[name].available, TaskAt(s.jobs[id].groups, ref).resources))
  {
  }

  lemma {:induction false} RemoveAbsent(tasks: seq<Task>, id: string)
    requires forall t | t in tasks :: t.id != id
    ensures Remove(tasks, id) == tasks
  {
    if tasks != [] {
      RemoveAbsent(tasks[..|tasks| - 1], id);
    }
  }
}
