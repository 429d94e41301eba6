/** Whole runs of the server: what holds after any number of requests. */
module Runs {
  import opened Resources
  import opened TaskIds
  import opened Tasks
  import opened Jobs
  import opened Messages
  import opened NodeCaches
  import opened Cluster
  import opened Ledger

  ghost predicate Possible(s: State, steps: seq<Step>)
    decreases |steps|
  {
    Shape(s) && (steps != [] ==> Enabled(s, steps[0]) && Possible(Next(s, steps[0]), steps[1..]))
  }

  ghost function After(s: State, steps: seq<Step>): (r: State)
    requires Possible(s, steps)
    ensures Shape(r)
    decreases |steps|
  {
    if steps == [] then s else After(Next(s, steps[0]), steps[1..])
  }

  lemma {:induction false} RunKeeps(s: State, steps: seq<Step>)
    requires Inv(s) && Possible(s, steps)
    ensures Inv(After(s, steps))
    decreases |steps|
  {
    if steps != [] {
      StepKeeps(s, steps[0]);
      RunKeeps(Next(s, steps[0]), steps[1..]);
    }
  }

  // ----- conservation

  /** After any run from an empty server, on every known node, what is available plus what is charged for
      waiting, running and lost tasks is what the node offers, in every quantity. */
  lemma LedgerBalances(steps: seq<Step>, name: string, kind: Kind)
    requires Possible(EMPTY, steps) && Known(After(EMPTY, steps), name)
    requires Tracks(Base(After(EMPTY, steps).nodes[name]), kind)
    ensures var s := After(EMPTY, steps);
      Amount(s.nodes[name].available, kind) + Sum(s.running[name], kind) + Sum(TasksIn(s.boxes[name]), kind)
        + Sum(s.lost[name], kind) == Amount(Base(s.nodes[name]), kind)
  {
    RunKeeps(EMPTY, steps);
    var s := After(EMPTY, steps);
    assert NodeInv(s, name);
    SumConcat(s.running[name], TasksIn(s.boxes[name]), kind);
  }

  /** No run overcommits a node, and none counts a task twice: outstanding tasks are distinct and
      together demand no more than the node offers. */
  lemma NeverOvercommitted(steps: seq<Step>, name: string, kind: Kind)
    requires Possible(EMPTY, steps) && Known(After(EMPTY, steps), name)
    ensures var s := After(EMPTY, steps); var out := Outstanding(s, name);
      && DistinctIds(out)
      && (Tracks(Base(s.nodes[name]), kind) ==> 0 <= Sum(out, kind) <= Amount(Base(s.nodes[name]), kind))
  {
    RunKeeps(EMPTY, steps);
    var s := After(EMPTY, steps);
    var node, out := s.nodes[name], Outstanding(s, name);
    assert NodeInv(s, name);
    forall t | t in out
      ensures NonNegative(t.resources)
    {
      assert Located(s.jobs, name, t);
    }
    SumNonNegative(out, kind);
    SumNonNegative(s.lost[name], kind);
    assert 0 <= Amount(node.available, kind);
  }

  /** Everything comes back: a known node has its full availability exactly if nothing is outstanding on
      it and no task of it was lost. */
  lemma DrainedNodeIsWhole(steps: seq<Step>, name: string)
    requires Possible(EMPTY, steps) && Known(After(EMPTY, steps), name)
    ensures var s := After(EMPTY, steps);
      s.nodes[name].available == Base(s.nodes[name]) <==> Outstanding(s, name) == [] && s.lost[name] == []
  {
    RunKeeps(EMPTY, steps);
    var s := After(EMPTY, steps);
    assert NodeInv(s, name);
    WholeNode(s.nodes[name], Outstanding(s, name), s.lost[name]) by {
      forall t | t in Outstanding(s, name)
        ensures DemandOk(t.resources)
      {
        assert Located(s.jobs, name, t);
      }
    }
  }

  lemma WholeNode(node: NodeRec, out: seq<Task>, lost: seq<Task>)
    requires Balanced(node, out, lost)
    requires (forall t | t in out :: DemandOk(t.resources)) && (forall t | t in lost :: DemandOk(t.resources))
    ensures node.available == Base(node) <==> out == [] && lost == []
  {
    if out == [] && lost == [] {
      SameAmounts(node.available, Base(node));
    } else {
      DemandShows(out + lost);
      var kind :| kind in MAIN && Sum(out + lost, kind) > 0;
      SumConcat(out, lost, kind);
      assert Tracks(Base(node), kind);
    }
  }

  lemma SameAmounts(a: Amounts, b: Amounts)
    requires Alike(a, b) && forall kind | Tracks(b, kind) :: Amount(a, kind) == Amount(b, kind)
    ensures a == b
  {
    assert Amount(a, Cores) == Amount(b, Cores) && Amount(a, Frequency) == Amount(b, Frequency);
    assert Amount(a, Memory) == Amount(b, Memory) && Amount(a, Cards) == Amount(b, Cards);
    forall k | k in b.others
      ensures a.others[k] == b.others[k]
    {
      assert Tracks(b, Other(k)) && Amount(a, Other(k)) == Amount(b, Other(k));
    }
  }

  // ----- jobs that must not be scheduled

  /** A completed or failed job has no task left to run. */
  ghost predicate Final(job: JobRec) {
    job.state == JobCompleted || job.state == JobFailed ==> Every(job.groups, OVER)
  }

  ghost predicate AllFinal(s: State) {
    forall id | id in s.jobs :: Final(s.jobs[id])
  }

  /** The job, if it exists, is halted, completed, failed or terminated. */
  ghost predicate Closed(s: State, id: string) {
    id in s.jobs ==> !IsSchedulable(s.jobs[id].state)
  }

  lemma DoneIsOver(groups: seq<TaskGroup>)
    requires Every(groups, {Done})
    ensures Every(groups, OVER)
  {
    forall ref | Within(groups, ref)
      ensures ClassOf(TaskAt(groups, ref).state) in OVER
    {
      assert ClassOf(TaskAt(groups, ref).state) in {Done};
    }
  }

  lemma RefreshedIsFinal(job: JobRec)
    ensures Final(Refreshed(job))
  {
    if Every(job.groups, {Done}) {
      DoneIsOver(job.groups);
    }
  }

  ghost predicate FinalAfter(job: JobRec, job': JobRec) {
    Final(job') && (!IsSchedulable(job.state) ==> !IsSchedulable(job'.state))
  }

  /** A report about an unfinished task: it finds no finished job, and does not reopen a withheld one. */
  lemma ReportedIsFinal(job: JobRec, ref: TaskRef, report: TaskReport)
    requires Within(job.groups, ref) && Final(job) && IsActiveState(TaskAt(job.groups, ref).state)
    ensures FinalAfter(job, Reported(job, ref, report))
  {
    assert ClassOf(TaskAt(job.groups, ref).state) !in OVER;
    assert !Every(job.groups, OVER);
    var updated := job.(groups := WithTask(job.groups, ref, ReportedTask(TaskAt(job.groups, ref), report)));
    RefreshedIsFinal(updated);
    assert Reported(job, ref, report) in {updated, Refreshed(updated)};
  }

  lemma ReportOnJobs(s: State, name: string, report: TaskReport)
    requires Inv(s) && AllFinal(s) && Enabled(s, Report(name, report))
    ensures var jobs' := Heard(s, name, report).jobs;
      && (forall id :: id in jobs' <==> id in s.jobs)
      && forall id | id in s.jobs :: FinalAfter(s.jobs[id], jobs'[id])
  {
    if Named(s, report.id).Some? {
      var (id, ref) := Named(s, report.id).value;
      var entry := ReportNames(s, name, report);
      ReportedIsFinal(s.jobs[id], ref, report);
      ReportEffect(s, Heard(s, name, report), name, report, id, ref);
    }
  }

  lemma StepKeepsFinal(s: State, step: Step)
    requires Inv(s) && AllFinal(s) && Enabled(s, step)
    ensures AllFinal(Next(s, step))
  {
    if step.Report? {
      ReportOnJobs(s, step.name, step.report);
    } else if step.Resume? {
      RefreshedIsFinal(s.jobs[step.id].(state := JobQueued));
    } else {
      OtherStepKeepsFinal(s, step, Next(s, step));
    }
  }

  lemma OtherStepKeepsFinal(s: State, step: Step, s': State)
    requires Shape(s) && AllFinal(s) && Enabled(s, step) && !step.Report? && !step.Resume? && s' == Next(s, step)
    ensures AllFinal(s')
  {
    forall id | id in s'.jobs
      ensures Final(s'.jobs[id])
    {
      OtherStepOnJob(s, step, id);
    }
  }

  /** Besides reports and resumptions, a step leaves a job's tasks alone, or leaves it in a state in
      which tasks may be unfinished. */
  lemma OtherStepOnJob(s: State, step: Step, id: string)
    requires Shape(s) && Enabled(s, step) && !step.Report? && !step.Resume?
    requires id in Next(s, step).jobs
    ensures var job' := Next(s, step).jobs[id];
      || (id in s.jobs && job'.state == s.jobs[id].state && job'.groups == s.jobs[id].groups)
      || (id in s.jobs && job'.state == s.jobs[id].state && IsSchedulable(job'.state))
      || (id in s.jobs && Withheld(job'.state))
      || (step.Create? && step.id == id && job'.state == JobQueued)
  {
  }

  lemma StepKeepsClosed(s: State, step: Step, id: string)
    requires Inv(s) && AllFinal(s) && Enabled(s, step) && Closed(s, id)
    requires step.Resume? || step.Create? ==> step.id != id
    ensures Closed(Next(s, step), id)
    ensures step.Place? ==> step.id != id
  {
    if step.Report? {
      ReportOnJobs(s, step.name, step.report);
    } else if !step.Resume? && id in Next(s, step).jobs {
      OtherStepOnJob(s, step, id);
    }
  }

  /** A message that asks a node to run a task of this job. */
  predicate Starts(m: Message, id: string) {
    m.ScheduleTask? && ParseTaskId(m.task.id).0 == id
  }

  ghost predicate NoNewStarts(s: State, s': State, id: string) {
    forall n, m | n in s'.boxes && m in s'.boxes[n] && Starts(m, id) :: n in s.boxes && m in s.boxes[n]
  }

  lemma StepAddsNoStart(s: State, step: Step, s': State, id: string)
    requires Inv(s) && Enabled(s, step) && s' == Next(s, step)
    requires step.Place? ==> step.id != id
    ensures NoNewStarts(s, s', id)
  {
    if step.Place? {
      PlaceAddsNoStart(s, step.name, step.id, step.ref, id);
    } else if step.Report? {
      ReportNodes(s, step.name, step.report);
    } else {
      QuietAddsNoStart(s, step, s', id);
    }
  }

  lemma QuietAddsNoStart(s: State, step: Step, s': State, id: string)
    requires Shape(s) && Enabled(s, step) && s' == Next(s, step) && !step.Place? && !step.Report?
    ensures NoNewStarts(s, s', id)
  {
    if step.Terminate? {
      TerminateAddsNoStart(s, step.id, id);
    }
  }

  lemma TerminateAddsNoStart(s: State, other: string, id: string)
    requires Shape(s) && other in s.jobs
    ensures NoNewStarts(s, Terminated(s, other), id)
  {
    forall n | n in s.boxes {
      KeptMembers(s.boxes[n], TerminateJob(other));
    }
  }

  lemma PlaceAddsNoStart(s: State, name: string, other: string, ref: TaskRef, id: string)
    requires Shape(s) && Enabled(s, Place(name, other, ref)) && JobInv(other, s.jobs[other]) && other != id
    ensures NoNewStarts(s, Placed(s, name, other, ref), id)
  {
    var task := TaskAt(s.jobs[other].groups, ref);
    assert task.id == TaskId(other, ref.group, ref.task);
    ParseUndoesTaskId(other, ref.group, ref.task);
    KeptMembers(s.boxes[name], ScheduleTask(task.id, task.(state := TaskScheduled, nodeName := name)));
  }

  /** Once a job is halted, completed, failed or terminated, no run without a resumption (or a new job
      of the same ID) schedules any of its tasks or queues a message that starts one. */
  lemma {:induction false} ClosedJobStaysClosed(s: State, steps: seq<Step>, id: string)
    requires Inv(s) && AllFinal(s) && Closed(s, id) && Possible(s, steps)
    requires forall i | 0 <= i < |steps| && (steps[i].Resume? || steps[i].Create?) :: steps[i].id != id
    ensures Closed(After(s, steps), id)
    ensures forall i | 0 <= i < |steps| && steps[i].Place? :: steps[i].id != id
    ensures NoNewStarts(s, After(s, steps), id)
    decreases |steps|
  {
    if steps != [] {
      ClosedStep(s, steps[0], id);
      assert forall i | 1 <= i < |steps| :: steps[i] == steps[1..][i - 1];
      ClosedJobStaysClosed(Next(s, steps[0]), steps[1..], id);
      StartsCompose(s, Next(s, steps[0]), After(s, steps), id);
    }
  }

  lemma StartsCompose(s: State, s': State, s'': State, id: string)
    requires NoNewStarts(s, s', id) && NoNewStarts(s', s'', id)
    ensures NoNewStarts(s, s'', id)
  {
  }

  lemma ClosedStep(s: State, step: Step, id: string)
    requires Inv(s) && AllFinal(s) && Enabled(s, step) && Closed(s, id)
    requires step.Resume? || step.Create? ==> step.id != id
    ensures Inv(Next(s, step)) && AllFinal(Next(s, step)) && Closed(Next(s, step), id)
      && NoNewStarts(s, Next(s, step), id)
    ensures step.Place? ==> step.id != id
  {
    StepKeeps(s, step);
    StepKeepsFinal(s, step);
    StepKeepsClosed(s, step, id);
    StepAddsNoStart(s, step, Next(s, step), id);
  }

  lemma {:induction false} RunKeepsFinal(s: State, steps: seq<Step>)
    requires Inv(s) && AllFinal(s) && Possible(s, steps)
    ensures AllFinal(After(s, steps))
    decreases |steps|
  {
    if steps != [] {
      StepKeeps(s, steps[0]);
      StepKeepsFinal(s, steps[0]);
      RunKeepsFinal(Next(s, steps[0]), steps[1..]);
    }
  }

  /** The same, for every state the server can reach. */
  lemma ClosedForGood(past: seq<Step>, steps: seq<Step>, id: string)
    requires Possible(EMPTY, past) && Possible(After(EMPTY, past), steps) && Closed(After(EMPTY, past), id)
    requires forall i | 0 <= i < |steps| && (steps[i].Resume? || steps[i].Create?) :: steps[i].id != id
    ensures Closed(After(After(EMPTY, past), steps), id)
    ensures forall i | 0 <= i < |steps| && steps[i].Place? :: steps[i].id != id
    ensures NoNewStarts(After(EMPTY, past), After(After(EMPTY, past), steps), id)
  {
    RunKeeps(EMPTY, past);
    RunKeepsFinal(EMPTY, past);
    ClosedJobStaysClosed(After(EMPTY, past), steps, id);
  }

  // ----- recovery from a timeout

  /** A timeout leaves no unfinished task of an executing job on a late node; each task it moves is
      queued, unassigned and without progress; late mailboxes are empty; nothing else changes. */
  lemma TimeoutRecovers(s: State, late: set<string>)
    requires Inv(s) && Enabled(s, Timeout(late))
    ensures var s' := TimedOut(s, late);
      && (forall n | n in s.nodes :: s'.boxes[n] == if n in late then [] else s.boxes[n])
      && (forall n | n in s.nodes :: s'.nodes[n] == if n in late then s.nodes[n].(state := NodeUnknown) else s.nodes[n])
      && s'.jobs.Keys == s.jobs.Keys && s'.running == s.running
      && forall id | id in s.jobs :: Recovered(s.jobs[id], s'.jobs[id], late)
  {
    forall id | id in s.jobs
      ensures Recovered(s.jobs[id], RequeuedJob(s.jobs[id], late), late)
    {
      forall ref {
        RequeuedAt(s.jobs[id], late, ref);
      }
    }
  }

  ghost predicate Recovered(job: JobRec, job': JobRec, late: set<string>) {
    && job' == job.(groups := job'.groups)
    && (forall ref :: Within(job'.groups, ref) <==> Within(job.groups, ref))
    && (forall ref | Within(job.groups, ref) ::
          var t, t' := TaskAt(job.groups, ref), TaskAt(job'.groups, ref);
          && (t' != t ==> job.state == JobExecuting && IsActiveState(t.state) && t.nodeName in late)
          && (t' != t ==> t' == t.(state := TaskQueued, nodeName := "", progress := 0))
          && (job.state == JobExecuting && IsActiveState(t'.state) ==> t'.nodeName !in late))
  }

  // ----- tasks in progress are on registered nodes

  /** Every task in progress is assigned to one of these nodes. */
  ghost predicate OnNodes(job: JobRec, names: set<string>) {
    forall ref | Within(job.groups, ref) && IsActiveState(TaskAt(job.groups, ref).state) ::
      TaskAt(job.groups, ref).nodeName in names
  }

  ghost predicate AllOnNodes(s: State) {
    forall id | id in s.jobs :: OnNodes(s.jobs[id], s.nodes.Keys)
  }

  lemma ReportedOnNodes(s: State, name: string, report: TaskReport)
    requires Inv(s) && AllOnNodes(s) && Enabled(s, Report(name, report))
    ensures AllOnNodes(Heard(s, name, report))
  {
    if Named(s, report.id).Some? {
      var (id, ref) := Named(s, report.id).value;
      var entry := ReportNames(s, name, report);
      ReportEffect(s, Heard(s, name, report), name, report, id, ref);
      var job := s.jobs[id];
      assert Reported(job, ref, report).groups ==
        WithTask(job.groups, ref, ReportedTask(TaskAt(job.groups, ref), report));
    }
  }

  lemma StepKeepsOnNodes(s: State, step: Step)
    requires Inv(s) && AllOnNodes(s) && Enabled(s, step)
    ensures AllOnNodes(Next(s, step))
  {
    var s' := Next(s, step);
    if step.Report? {
      ReportedOnNodes(s, step.name, step.report);
    } else {
      forall id | id in s'.jobs
        ensures OnNodes(s'.jobs[id], s'.nodes.Keys)
      {
        StepLeavesOnNodes(s, step, s', id);
      }
    }
  }

  lemma StepLeavesOnNodes(s: State, step: Step, s': State, id: string)
    requires Shape(s) && AllOnNodes(s) && Enabled(s, step) && !step.Report? && s' == Next(s, step) && id in s'.jobs
    ensures OnNodes(s'.jobs[id], s'.nodes.Keys)
  {
    if step.Timeout? {
      forall ref {
        RequeuedAt(s.jobs[id], step.late, ref);
      }
    } else {
      OthersLeaveOnNodes(s, step, s', id);
    }
  }

  lemma OthersLeaveOnNodes(s: State, step: Step, s': State, id: string)
    requires Shape(s) && AllOnNodes(s) && Enabled(s, step) && !step.Report? && !step.Timeout?
    requires s' == Next(s, step) && id in s'.jobs
    ensures OnNodes(s'.jobs[id], s'.nodes.Keys)
  {
    if !step.Create? {
      assert OnNodes(s.jobs[id], s.nodes.Keys);
    }
  }

  /** In every run, a node on which a job has a task in progress is registered, so a message that
      terminates the job always finds a mailbox. */
  lemma {:induction false} RunKeepsOnNodes(s: State, steps: seq<Step>, id: string, name: string)
    requires Inv(s) && AllOnNodes(s) && Possible(s, steps)
    ensures id in After(s, steps).jobs && Hosts(After(s, steps).jobs[id], name) ==> name in After(s, steps).boxes
    decreases |steps|
  {
    if steps != [] {
      StepKeeps(s, steps[0]);
      StepKeepsOnNodes(s, steps[0]);
      RunKeepsOnNodes(Next(s, steps[0]), steps[1..], id, name);
    }
  }
}
