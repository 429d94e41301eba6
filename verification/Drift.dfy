/** When a job's state says what its tasks say, over whole runs. Not every request reclassifies the job it
    touches, so the two drift apart; this module says exactly when. */
module Drift {
  import opened Resources
  import opened TaskIds
  import opened Tasks
  import opened Jobs
  import opened Messages
  import opened NodeCaches
  import opened Cluster
  import opened Ledger
  import opened Runs

  ghost predicate HasTask(groups: seq<TaskGroup>) {
    exists ref :: Within(groups, ref)
  }

  /** The report changes the state of a task of this job. */
  predicate Changes(s: State, report: TaskReport, id: string) {
    var named := Named(s, report.id);
    named.Some? && named.value.0 == id && TaskAt(s.jobs[id].groups, named.value.1).state != report.state
  }

  /** Some task is neither waiting nor sent back to wait by a timeout of these nodes. */
  ghost predicate StaysBusy(groups: seq<TaskGroup>, late: set<string>) {
    exists ref :: Within(groups, ref) && ClassOf(Requeued(TaskAt(groups, ref), late).state) != Waiting
  }

  /** Some task did not succeed, and none is left to run. */
  ghost predicate EndedBadly(groups: seq<TaskGroup>) {
    Every(groups, OVER) && !Every(groups, {Done})
  }

  /** Whether the state of a job is right after a step, given whether it was right before. */
  ghost predicate Verdict(s: State, step: Step, id: string, right: bool)
    requires Shape(s) && Enabled(s, step)
  {
    match step
    case Create(x, job) => if x == id then HasTask(job.groups) else right
    case Delete(x) => x != id && right
    case Place(name, x, ref) => if x == id then s.jobs[x].state == JobExecuting else right
    case Report(name, report) => Changes(s, report, id) || right
    case Halt(x) => if x == id then !Every(s.jobs[x].groups, {Done}) else right
    case Resume(x) => x == id || right
    case Terminate(x) =>
      if x == id && s.jobs[x].state !in {JobTerminated, JobCompleted, JobFailed}
      then !Every(s.jobs[x].groups, {Done}) else right
    case Timeout(late) =>
      if id in s.jobs && s.jobs[id].state == JobExecuting
      then !Every(s.jobs[id].groups, OVER) && StaysBusy(s.jobs[id].groups, late) else right
    case Adjust(x, priority, maxErrors) =>
      if x == id && EndedBadly(s.jobs[x].groups) && !Withheld(s.jobs[x].state)
      then s.jobs[x].state ==
        (if maxErrors > 0 && maxErrors >= Failures(s.jobs[x].groups) then JobCompleted else JobFailed)
      else right
    case _ => right
  }

  /** The verdicts of a run, one after the other. */
  ghost predicate VerdictAfter(s: State, steps: seq<Step>, id: string, right: bool)
    requires Possible(s, steps)
    decreases |steps|
  {
    if steps == [] then right else VerdictAfter(Next(s, steps[0]), steps[1..], id, Verdict(s, steps[0], id, right))
  }

  ghost predicate IsRight(s: State, id: string) {
    id in s.jobs && Sound(s.jobs[id])
  }

  // ----- one step

  /** Rewriting one task without changing its state leaves the list of states. */
  lemma {:induction false} SameStates(groups: seq<TaskGroup>, ref: TaskRef, task: Task)
    requires Within(groups, ref) && task.state == TaskAt(groups, ref).state
    ensures AllStates(WithTask(groups, ref, task)) == AllStates(groups)
  {
    var groups' := WithTask(groups, ref, task);
    var last := |groups| - 1;
    if ref.group == last {
      assert groups'[..last] == groups[..last];
      assert StatesOf(groups'[last].tasks) == StatesOf(groups[last].tasks);
    } else {
      assert groups'[..last] == WithTask(groups[..last], ref, task);
      SameStates(groups[..last], ref, task);
    }
  }

  lemma ReportedRight(job: JobRec, ref: TaskRef, report: TaskReport)
    requires Within(job.groups, ref)
    ensures Sound(Reported(job, ref, report)) <==> TaskAt(job.groups, ref).state != report.state || Sound(job)
  {
    var before := TaskAt(job.groups, ref);
    if before.state != report.state {
      ReportKeepsJobSound(job, ref, report);
    } else {
      var groups' := WithTask(job.groups, ref, ReportedTask(before, report));
      SameStates(job.groups, ref, ReportedTask(before, report));
      SameClasses(job.groups, groups');
    }
  }

  lemma SameClasses(groups: seq<TaskGroup>, groups': seq<TaskGroup>)
    requires AllStates(groups') == AllStates(groups)
    ensures forall maxErrors :: FullState(groups', maxErrors) == FullState(groups, maxErrors)
    ensures Every(groups', {Done}) <==> Every(groups, {Done})
  {
    AllStatesCover(groups, {Done});
    AllStatesCover(groups', {Done});
    AllStatesCover(groups, OVER);
    AllStatesCover(groups', OVER);
    AllStatesCover(groups, {Waiting});
    AllStatesCover(groups', {Waiting});
  }

  lemma CreatedRight(id: string, job: JobRec)
    requires Submitted(id, job)
    ensures Sound(job) <==> HasTask(job.groups)
  {
    if HasTask(job.groups) {
      var ref :| Within(job.groups, ref);
      assert TaskAt(job.groups, ref).state == TaskQueued;
    }
  }

  lemma PlacedRight(job: JobRec, ref: TaskRef, task: Task)
    requires Within(job.groups, ref) && IsActiveState(task.state) && IsSchedulable(job.state)
    ensures Sound(job.(groups := WithTask(job.groups, ref, task))) <==> job.state == JobExecuting
  {
    var groups' := WithTask(job.groups, ref, task);
    assert Within(groups', ref) && TaskAt(groups', ref) == task;
  }

  lemma TimedOutRight(job: JobRec, late: set<string>)
    requires job.state == JobExecuting
    ensures Sound(RequeuedJob(job, late)) <==> !Every(job.groups, OVER) && StaysBusy(job.groups, late)
  {
    var groups' := RequeuedJob(job, late).groups;
    forall ref {
      RequeuedAt(job, late, ref);
    }
    RequeuedClasses(job.groups, groups', late);
  }

  lemma RequeuedClasses(groups: seq<TaskGroup>, groups': seq<TaskGroup>, late: set<string>)
    requires forall ref :: Within(groups', ref) <==> Within(groups, ref)
    requires forall ref | Within(groups, ref) :: TaskAt(groups', ref) == Requeued(TaskAt(groups, ref), late)
    ensures Every(groups', OVER) <==> Every(groups, OVER)
    ensures Every(groups', {Waiting}) <==> !StaysBusy(groups, late)
    ensures Every(groups', {Done}) ==> Every(groups', OVER)
  {
    forall ref | Within(groups, ref)
      ensures ClassOf(TaskAt(groups', ref).state) in OVER <==> ClassOf(TaskAt(groups, ref).state) in OVER
    {
    }
    if Every(groups', {Done}) {
      DoneIsOver(groups');
    }
  }

  lemma AdjustedRight(job: JobRec, maxErrors: int)
    ensures Sound(job.(maxErrors := maxErrors)) <==>
      if EndedBadly(job.groups) && !Withheld(job.state)
      then job.state == (if maxErrors > 0 && maxErrors >= Failures(job.groups) then JobCompleted else JobFailed)
      else Sound(job)
  {
  }

  lemma WithheldRight(job: JobRec, state: JobState)
    requires Withheld(state)
    ensures Sound(job.(state := state)) <==> !Every(job.groups, {Done})
  {
  }

  lemma RefreshedRight(job: JobRec)
    ensures Sound(Refreshed(job.(state := JobQueued)))
  {
  }

  lemma ReportVerdict(s: State, name: string, report: TaskReport, id: string)
    requires Shape(s) && name in s.nodes
    ensures IsRight(Heard(s, name, report), id) <==> id in s.jobs && (Changes(s, report, id) || IsRight(s, id))
  {
    ReportedJobs(s, Heard(s, name, report), name, report);
    if Named(s, report.id).Some? {
      var (x, ref) := Named(s, report.id).value;
      ReportedRight(s.jobs[x], ref, report);
    }
  }

  lemma PlaceVerdict(s: State, name: string, id: string, ref: TaskRef)
    requires Shape(s) && Enabled(s, Place(name, id, ref))
    ensures Sound(Placed(s, name, id, ref).jobs[id]) <==> s.jobs[id].state == JobExecuting
  {
    PlacedRight(s.jobs[id], ref, TaskAt(s.jobs[id].groups, ref).(state := TaskScheduled, nodeName := name));
  }

  /** A job's state is right after a step exactly if the verdict says so. */
  lemma StepVerdict(s: State, step: Step, id: string)
    requires Shape(s) && Enabled(s, step)
    ensures IsRight(Next(s, step), id) <==> Verdict(s, step, id, IsRight(s, id))
  {
    match step
    case Create(x, job) => CreatedRight(x, job);
    case Place(name, x, ref) => PlaceVerdict(s, name, x, ref);
    case Report(name, report) => ReportVerdict(s, name, report, id);
    case Halt(x) => WithheldRight(s.jobs[x], JobHalted);
    case Resume(x) => RefreshedRight(s.jobs[x]);
    case Terminate(x) => WithheldRight(s.jobs[x], JobTerminated);
    case Timeout(late) =>
      if id in s.jobs && s.jobs[id].state == JobExecuting {
        TimedOutRight(s.jobs[id], late);
      }
    case Adjust(x, priority, maxErrors) => AdjustedRight(s.jobs[x], maxErrors);
    case _ =>
  }

  lemma {:induction false} RunVerdict(s: State, steps: seq<Step>, id: string)
    requires Possible(s, steps)
    ensures IsRight(After(s, steps), id) <==> VerdictAfter(s, steps, id, IsRight(s, id))
    decreases |steps|
  {
    if steps != [] {
      StepVerdict(s, steps[0], id);
      RunVerdict(Next(s, steps[0]), steps[1..], id);
    }
  }
}
