/** Jobs: a state derived from the states of the tasks, recomputed incrementally. */
module Jobs {
  import opened Resources
  import opened TaskIds
  import opened Tasks

  datatype JobState = JobQueued | JobExecuting | JobHalted | JobCompleted | JobFailed | JobTerminated

  /** The fields of a job at one moment. */
  datatype JobRec = JobRec(
    queue: string, priority: int, maxErrors: int, submitTime: int,
    groups: seq<TaskGroup>, state: JobState, progress: int)

  predicate IsSchedulable(state: JobState) {
    state == JobQueued || state == JobExecuting
  }

  // ----- the reference classification, by quantifiers over all tasks

  function StatesOf(tasks: seq<Task>): (states: seq<TaskState>)
    ensures |states| == |tasks|
    ensures forall i | 0 <= i < |tasks| :: states[i] == tasks[i].state
  {
    seq(|tasks|, i requires 0 <= i < |tasks| => tasks[i].state)
  }

  /** The states of all tasks of a job, group after group. */
  function AllStates(groups: seq<TaskGroup>): seq<TaskState> {
    if groups == [] then [] else AllStates(groups[..|groups| - 1]) + StatesOf(groups[|groups| - 1].tasks)
  }

  datatype Class = Waiting | Running | Done | Broken | Cancelled

  function ClassOf(state: TaskState): (class_: Class)
    ensures IsFinishState(state) <==> class_ in OVER
    ensures IsActiveState(state) <==> class_ == Running
  {
    match state
    case TaskQueued => Waiting
    case TaskScheduled | TaskDispatching | TaskExecuting => Running
    case TaskCompleted => Done
    case TaskFailed | TaskAborted => Broken
    case TaskTerminated => Cancelled
  }

  const OVER := {Done, Broken, Cancelled}

  /** Every task of the job is in one of these classes. */
  ghost predicate Every(groups: seq<TaskGroup>, classes: set<Class>) {
    forall ref | Within(groups, ref) :: ClassOf(TaskAt(groups, ref).state) in classes
  }

  /** How many tasks failed or were aborted. */
  function Failures(groups: seq<TaskGroup>): nat {
    Count(AllStates(groups), Broken)
  }

  /** What the tasks alone say about a job. */
  ghost function FullState(groups: seq<TaskGroup>, maxErrors: int): JobState {
    if Every(groups, {Done}) then JobCompleted
    else if Every(groups, OVER) then
      if maxErrors > 0 && maxErrors >= Failures(groups) then JobCompleted else JobFailed
    else if Every(groups, {Waiting}) then JobQueued
    else JobExecuting
  }

  ghost predicate Withheld(state: JobState) {
    state == JobHalted || state == JobTerminated
  }

  ghost function Refreshed(job: JobRec): JobRec {
    job.(state := if Withheld(job.state) && !Every(job.groups, {Done}) then job.state
                  else FullState(job.groups, job.maxErrors),
         progress := Progress(job.groups))
  }

  /** A job's state is right: halted or terminated with work left, or what its tasks say. */
  ghost predicate Sound(job: JobRec) {
    || (Withheld(job.state) && !Every(job.groups, {Done}))
    || job.state == FullState(job.groups, job.maxErrors)
  }

  // ----- counting, as the source does it

  function Count(states: seq<TaskState>, class_: Class): nat {
    if states == [] then 0
    else Count(states[..|states| - 1], class_) + if ClassOf(states[|states| - 1]) == class_ then 1 else 0
  }

  function ProgressOf(completed: nat, total: nat): int {
    if total == 0 then 0 else completed * 100 / total
  }

  function Progress(groups: seq<TaskGroup>): int {
    ProgressOf(Count(AllStates(groups), Done), |AllStates(groups)|)
  }

  lemma {:induction false} CountBounds(states: seq<TaskState>, class_: Class)
    ensures Count(states, class_) <= |states|
    ensures Count(states, class_) == |states| <==> forall i | 0 <= i < |states| :: ClassOf(states[i]) == class_
    ensures Count(states, class_) == 0 <==> forall i | 0 <= i < |states| :: ClassOf(states[i]) != class_
  {
    if states != [] {
      CountBounds(states[..|states| - 1], class_);
    }
  }

  /** `AllStates` lists exactly the states of the tasks. */
  lemma {:induction false} AllStatesCover(groups: seq<TaskGroup>, classes: set<Class>)
    ensures Every(groups, classes) <==> forall s | s in AllStates(groups) :: ClassOf(s) in classes
  {
    if groups != [] {
      var front, tail := groups[..|groups| - 1], groups[|groups| - 1].tasks;
      AllStatesCover(front, classes);
      assert forall s :: s in AllStates(groups) <==> s in AllStates(front) || s in StatesOf(tail);
      EveryExtends(groups, classes);
    }
  }

  lemma EveryExtends(groups: seq<TaskGroup>, classes: set<Class>)
    requires groups != []
    ensures Every(groups, classes) <==>
      && Every(groups[..|groups| - 1], classes)
      && forall s | s in StatesOf(groups[|groups| - 1].tasks) :: ClassOf(s) in classes
  {
    var front, last := groups[..|groups| - 1], |groups| - 1;
    var tail := groups[last].tasks;
    assert forall ref | Within(front, ref) :: Within(groups, ref) && TaskAt(groups, ref) == TaskAt(front, ref);
    forall t | 0 <= t < |tail|
      ensures Within(groups, TaskRef(last, t)) && TaskAt(groups, TaskRef(last, t)).state == StatesOf(tail)[t]
    {
    }
    forall ref | Within(groups, ref)
      ensures Within(front, ref) || (ref.group == last && TaskAt(groups, ref).state == StatesOf(tail)[ref.task])
    {
    }
  }

  /** A counter reaches the total, or stays at zero, exactly when all, or none, of the tasks are in its class. */
  lemma CounterDecides(groups: seq<TaskGroup>, class_: Class)
    ensures Count(AllStates(groups), class_) == |AllStates(groups)| <==> Every(groups, {class_})
    ensures Count(AllStates(groups), class_) == 0 <==> forall s | s in AllStates(groups) :: ClassOf(s) != class_
  {
    AllStatesCover(groups, {class_});
    CountBounds(AllStates(groups), class_);
  }

  lemma OverDecides(groups: seq<TaskGroup>)
    ensures var states := AllStates(groups);
      Count(states, Waiting) == 0 && Count(states, Running) == 0 <==> Every(groups, OVER)
  {
    AllStatesCover(groups, OVER);
    CounterDecides(groups, Waiting);
    CounterDecides(groups, Running);
  }

  datatype Tallies = Tallies(waiting: nat, executing: nat, completed: nat, failed: nat, terminated: nat)

  function TallyOf(states: seq<TaskState>): Tallies {
    Tallies(Count(states, Waiting), Count(states, Running), Count(states, Done), Count(states, Broken),
      Count(states, Cancelled))
  }

  function Bump(tally: Tallies, state: TaskState): Tallies {
    match state
    case TaskQueued => tally.(waiting := tally.waiting + 1)
    case TaskScheduled | TaskDispatching | TaskExecuting => tally.(executing := tally.executing + 1)
    case TaskCompleted => tally.(completed := tally.completed + 1)
    case TaskFailed | TaskAborted => tally.(failed := tally.failed + 1)
    case TaskTerminated => tally.(terminated := tally.terminated + 1)
  }

  lemma TallyAppend(states: seq<TaskState>, s: TaskState)
    ensures TallyOf(states + [s]) == Bump(TallyOf(states), s)
  {
    assert (states + [s])[..|states|] == states;
  }

  /** The source's decision on the counters. */
  function Decide(state: JobState, maxErrors: int, total: nat, tally: Tallies): JobState {
    if tally.completed == total then JobCompleted
    else if state == JobHalted || state == JobTerminated then state
    else if tally.waiting == 0 && tally.executing == 0 then
      if maxErrors > 0 && maxErrors >= tally.failed then JobCompleted else JobFailed
    else if tally.waiting == total then JobQueued
    else JobExecuting
  }

  /** Deciding on counters gives the reference classification. */
  lemma DecideIsRefresh(job: JobRec)
    ensures var states := AllStates(job.groups);
      Refreshed(job) == job.(state := Decide(job.state, job.maxErrors, |states|, TallyOf(states)),
                             progress := ProgressOf(TallyOf(states).completed, |states|))
  {
    CounterDecides(job.groups, Done);
    CounterDecides(job.groups, Waiting);
    OverDecides(job.groups);
  }

  // ----- what the classification means, by the tasks themselves

  function Positions(groups: seq<TaskGroup>): set<TaskRef> {
    set g, t | 0 <= g < |groups| && 0 <= t < |groups[g].tasks| :: TaskRef(g, t)
  }

  /** The positions whose tasks are in one of these states. */
  function PositionsIn(groups: seq<TaskGroup>, states: set<TaskState>): set<TaskRef> {
    set ref | ref in Positions(groups) && TaskAt(groups, ref).state in states
  }

  ghost predicate AllIn(groups: seq<TaskGroup>, states: set<TaskState>) {
    forall ref | Within(groups, ref) :: TaskAt(groups, ref).state in states
  }

  const FINISHED := {TaskCompleted, TaskFailed, TaskAborted, TaskTerminated}

  /** `after` is `before`, reclassified: completed if all tasks are; else halted or terminated if it was; else,
      with all tasks finished, completed exactly if it allows errors and not more tasks failed or were aborted;
      else queued if all tasks are; else executing. The progress is the share of completed tasks. */
  ghost predicate Reclassified(before: JobRec, after: JobRec) {
    var groups := before.groups;
    var errors := |PositionsIn(groups, {TaskFailed, TaskAborted})|;
    var completed, total := |PositionsIn(groups, {TaskCompleted})|, |Positions(groups)|;
    && after == before.(state := after.state, progress := after.progress)
    && after.progress == (if total == 0 then 0 else completed * 100 / total)
    && (AllIn(groups, {TaskCompleted}) ==> after.state == JobCompleted)
    && (!AllIn(groups, {TaskCompleted}) ==>
          if before.state == JobHalted || before.state == JobTerminated then after.state == before.state
          else if AllIn(groups, FINISHED) then
            after.state == if before.maxErrors > 0 && errors <= before.maxErrors then JobCompleted else JobFailed
          else after.state == if AllIn(groups, {TaskQueued}) then JobQueued else JobExecuting)
  }

  /** The positions of the last group, and those before it. */
  lemma PositionsSplit(groups: seq<TaskGroup>, states: set<TaskState>)
    requires groups != []
    ensures var n := |groups| - 1; var tasks := groups[n].tasks;
      var last := set t | 0 <= t < |tasks| && tasks[t].state in states :: TaskRef(n, t);
      PositionsIn(groups, states) == PositionsIn(groups[..n], states) + last
      && PositionsIn(groups[..n], states) !! last
  {
    var n := |groups| - 1;
    var tasks := groups[n].tasks;
    var last := set t | 0 <= t < |tasks| && tasks[t].state in states :: TaskRef(n, t);
    forall ref
      ensures ref in PositionsIn(groups, states) <==> ref in PositionsIn(groups[..n], states) || ref in last
    {
      if ref in PositionsIn(groups, states) && ref.group == n {
        assert ref == TaskRef(n, ref.task) && tasks[ref.task].state in states;
      }
    }
  }

  /** Counting positions of one group is counting in its list of states. */
  lemma {:induction false} PositionsOfGroup(n: nat, tasks: seq<Task>, states: set<TaskState>, class_: Class)
    requires forall state :: state in states <==> ClassOf(state) == class_
    ensures |set t | 0 <= t < |tasks| && tasks[t].state in states :: TaskRef(n, t)| == Count(StatesOf(tasks), class_)
  {
    var all := set t | 0 <= t < |tasks| && tasks[t].state in states :: TaskRef(n, t);
    if tasks == [] {
      assert all == {};
    } else {
      var k := |tasks| - 1;
      var front := tasks[..k];
      var fewer := set t | 0 <= t < |front| && front[t].state in states :: TaskRef(n, t);
      PositionsOfGroup(n, front, states, class_);
      OneMorePosition(n, tasks, states, fewer, all);
      assert StatesOf(tasks)[..k] == StatesOf(front);
    }
  }

  lemma OneMorePosition(n: nat, tasks: seq<Task>, states: set<TaskState>, fewer: set<TaskRef>, all: set<TaskRef>)
    requires tasks != []
    requires fewer == set t | 0 <= t < |tasks| - 1 && tasks[t].state in states :: TaskRef(n, t)
    requires all == set t | 0 <= t < |tasks| && tasks[t].state in states :: TaskRef(n, t)
    ensures |all| == |fewer| + if tasks[|tasks| - 1].state in states then 1 else 0
  {
    var k := |tasks| - 1;
    if tasks[k].state in states {
      assert all == fewer + {TaskRef(n, k)};
    } else {
      assert all == fewer;
    }
  }

  lemma {:induction false} CountConcat(a: seq<TaskState>, b: seq<TaskState>, class_: Class)
    ensures Count(a + b, class_) == Count(a, class_) + Count(b, class_)
  {
    if b == [] {
      assert a + b == a;
    } else {
      assert (a + b)[..|a + b| - 1] == a + b[..|b| - 1];
      CountConcat(a, b[..|b| - 1], class_);
    }
  }

  lemma {:induction false} PositionsCount(groups: seq<TaskGroup>, states: set<TaskState>, class_: Class)
    requires forall state :: state in states <==> ClassOf(state) == class_
    ensures |PositionsIn(groups, states)| == Count(AllStates(groups), class_)
  {
    if groups != [] {
      var n := |groups| - 1;
      PositionsCount(groups[..n], states, class_);
      PositionsSplit(groups, states);
      PositionsOfGroup(n, groups[n].tasks, states, class_);
      CountConcat(AllStates(groups[..n]), StatesOf(groups[n].tasks), class_);
    } else {
      assert PositionsIn(groups, states) == {};
    }
  }

  lemma {:induction false} GroupPositions(n: nat, count: nat)
    ensures |set t | 0 <= t < count :: TaskRef(n, t)| == count
  {
    var all := set t | 0 <= t < count :: TaskRef(n, t);
    if count > 0 {
      GroupPositions(n, count - 1);
      assert all == (set t | 0 <= t < count - 1 :: TaskRef(n, t)) + {TaskRef(n, count - 1)};
    } else {
      assert all == {};
    }
  }

  lemma {:induction false} PositionsTotal(groups: seq<TaskGroup>)
    ensures |Positions(groups)| == |AllStates(groups)|
  {
    if groups == [] {
      assert Positions(groups) == {};
    } else {
      var n := |groups| - 1;
      var last := set t | 0 <= t < |groups[n].tasks| :: TaskRef(n, t);
      PositionsTotal(groups[..n]);
      GroupPositions(n, |groups[n].tasks|);
      forall ref
        ensures ref in Positions(groups) <==> ref in Positions(groups[..n]) || ref in last
      {
        assert ref.group == n && ref in Positions(groups) ==> ref == TaskRef(n, ref.task);
      }
      assert Positions(groups) == Positions(groups[..n]) + last && Positions(groups[..n]) !! last;
    }
  }

  lemma AllInEvery(groups: seq<TaskGroup>, states: set<TaskState>, classes: set<Class>)
    requires forall state :: state in states <==> ClassOf(state) in classes
    ensures AllIn(groups, states) <==> Every(groups, classes)
  {
  }

  /** The classification by classes and counts says what the task states say themselves. */
  lemma RefreshReclassifies(job: JobRec)
    ensures Reclassified(job, Refreshed(job))
  {
    var groups := job.groups;
    PositionsCount(groups, {TaskFailed, TaskAborted}, Broken);
    PositionsCount(groups, {TaskCompleted}, Done);
    PositionsTotal(groups);
    AllInEvery(groups, {TaskCompleted}, {Done});
    AllInEvery(groups, FINISHED, OVER);
    AllInEvery(groups, {TaskQueued}, {Waiting});
  }

  // ----- reports

  ghost function ReportedTask(task: Task, report: TaskReport): Task {
    task.(state := report.state, progress := report.progress, exitCode := report.exitCode,
          error := if task.error == "" then report.error else task.error + "\n" + report.error)
  }

  /** A job after a report about one of its tasks: the job is reclassified only if the task's state
      changed, and not when an executing job learns that a task executes. */
  ghost function Reported(job: JobRec, ref: TaskRef, report: TaskReport): JobRec
    requires Within(job.groups, ref)
  {
    var last := TaskAt(job.groups, ref);
    var updated := job.(groups := WithTask(job.groups, ref, ReportedTask(last, report)));
    if last.state != report.state && (report.state != TaskExecuting || job.state != JobExecuting)
    then Refreshed(updated) else updated
  }

  /** Of these groups only one task has changed. */
  ghost predicate OneTask(groups: seq<TaskGroup>, groups': seq<TaskGroup>, ref: TaskRef, task: Task) {
    && Within(groups, ref) && |groups'| == |groups|
    && (forall g | 0 <= g < |groups| :: groups'[g] == groups[g].(tasks := groups'[g].tasks))
    && (forall other :: Within(groups', other) <==> Within(groups, other))
    && (forall other | Within(groups, other) ::
          TaskAt(groups', other) == if other == ref then task else TaskAt(groups, other))
  }

  /** The task after a report of it. */
  ghost predicate Notes(task: Task, task': Task, report: TaskReport) {
    && task' == task.(state := report.state, progress := report.progress, exitCode := report.exitCode,
                      error := task'.error)
    && task'.error == if task.error == "" then report.error else task.error + "\n" + report.error
  }

  /** The job after a report of one of its tasks, which no other task shows: it is reclassified by its tasks as
      they then are, unless the task's state is as before, or an executing job learns that a task executes. */
  ghost predicate Heeds(job: JobRec, job': JobRec, ref: TaskRef, report: TaskReport) {
    && Within(job.groups, ref) && Within(job'.groups, ref)
    && var task, task' := TaskAt(job.groups, ref), TaskAt(job'.groups, ref);
       && Notes(task, task', report) && OneTask(job.groups, job'.groups, ref, task')
       && var noted := job.(groups := job'.groups);
          if task.state == report.state || (report.state == TaskExecuting && job.state == JobExecuting)
          then job' == noted else Reclassified(noted, job')
  }

  lemma ReportHeeded(job: JobRec, ref: TaskRef, report: TaskReport)
    requires Within(job.groups, ref)
    ensures Heeds(job, Reported(job, ref, report), ref, report)
  {
    var updated := job.(groups := WithTask(job.groups, ref, ReportedTask(TaskAt(job.groups, ref), report)));
    RefreshReclassifies(updated);
  }

  /** Skipping the reclassification loses nothing: after any report that changes a task's state the
      job's state is right, whatever it was before. */
  lemma ReportKeepsJobSound(job: JobRec, ref: TaskRef, report: TaskReport)
    requires Within(job.groups, ref) && TaskAt(job.groups, ref).state != report.state
    ensures Sound(Reported(job, ref, report))
  {
    var after := Reported(job, ref, report);
    if report.state == TaskExecuting && job.state == JobExecuting {
      assert Within(after.groups, ref) && TaskAt(after.groups, ref).state == TaskExecuting;
    } else {
      assert after ==
        Refreshed(job.(groups := WithTask(job.groups, ref, ReportedTask(TaskAt(job.groups, ref), report))));
    }
  }

  // ----- which tasks may be scheduled

  /** Index of the first group with this name, as `GetTaskGroup` finds it. */
  function FindGroup(groups: seq<TaskGroup>, name: string): (found: Option<nat>)
    ensures found.None? <==> forall g | 0 <= g < |groups| :: groups[g].name != name
    ensures found.Some? ==> found.value < |groups| && groups[found.value].name == name
    ensures found.Some? ==> forall g | 0 <= g < found.value :: groups[g].name != name
  {
    if groups == [] then None
    else if groups[0].name == name then Some(0)
    else match FindGroup(groups[1..], name)
      case None => None
      case Some(g) => Some(g + 1)
  }

  /** Every group this one depends on, if it exists, is completed. */
  ghost predicate Ready(groups: seq<TaskGroup>, g: nat)
    requires g < |groups|
  {
    forall name | name in groups[g].dependents :: NotBlocked(groups, name)
  }

  predicate NotBlocked(groups: seq<TaskGroup>, name: string) {
    var found := FindGroup(groups, name);
    found.Some? ==> groups[found.value].IsCompleted()
  }

  ghost predicate TaskSchedulable(groups: seq<TaskGroup>, ref: TaskRef) {
    Within(groups, ref) && TaskAt(groups, ref).state == TaskQueued && Ready(groups, ref.group)
  }

  /** A queued task may be scheduled exactly if of every group its own depends on, the first of that name, if
      there is one, counts as many completions as it has tasks. */
  lemma SchedulableMeans(groups: seq<TaskGroup>, ref: TaskRef)
    requires Within(groups, ref)
    ensures TaskSchedulable(groups, ref) <==>
      && TaskAt(groups, ref).state == TaskQueued
      && forall g | 0 <= g < |groups| && groups[g].name in groups[ref.group].dependents
                    && (forall k | 0 <= k < g :: groups[k].name != groups[g].name) ::
           groups[g].completions == |groups[g].tasks|
  {
    if TaskSchedulable(groups, ref) {
      forall g | 0 <= g < |groups| && groups[g].name in groups[ref.group].dependents
                 && (forall k | 0 <= k < g :: groups[k].name != groups[g].name)
        ensures groups[g].completions == |groups[g].tasks|
      {
        assert NotBlocked(groups, groups[g].name) && FindGroup(groups, groups[g].name) == Some(g);
      }
    }
  }

  predicate RefLess(a: TaskRef, b: TaskRef) {
    a.group < b.group || (a.group == b.group && a.task < b.task)
  }

  class Job {
    const id: string
    const queue: string
    var priority: int
    var maxErrors: int
    var groups: seq<TaskGroup>
    var submitTime: int
    var state: JobState
    var progress: int
    var totalTasks: nat

    constructor (id: string, queue: string, priority: int, maxErrors: int, specs: seq<GroupSpec>)
      ensures Valid() && this.id == id && WellNumbered(id, groups)
      ensures |groups| == |specs| && forall g | 0 <= g < |groups| :: Built(id, specs, g, groups[g])
      ensures Rec() == JobRec(queue, priority, maxErrors, 0, groups, JobQueued, 0)
    {
      this.id, this.queue, this.priority, this.maxErrors := id, queue, priority, maxErrors;
      submitTime, state, progress, totalTasks := 0, JobQueued, 0, 0;
      new;
      var built := NewTaskGroups(id, specs);
      groups := built;
    }

    /** The cached task count is not yet computed or right. */
    predicate Valid()
      reads this
    {
      totalTasks == 0 || totalTasks == |AllStates(groups)|
    }

    ghost function Rec(): JobRec
      reads this
    {
      JobRec(queue, priority, maxErrors, submitTime, groups, state, progress)
    }

    method CountTasks() returns (total: nat)
      requires Valid()
      modifies this`totalTasks
      ensures Valid() && total == |AllStates(groups)| == totalTasks
    {
      if totalTasks == 0 {
        for g := 0 to |groups|
          invariant totalTasks == |AllStates(groups[..g])|
        {
          assert groups[..g + 1][..g] == groups[..g];
          totalTasks := totalTasks + |groups[g].tasks|;
        }
        assert groups[..|groups|] == groups;
      }
      return totalTasks;
    }

    /** Counts the tasks of each class. */
    method Tally() returns (tally: Tallies)
      ensures tally == TallyOf(AllStates(groups))
    {
      tally := Tallies(0, 0, 0, 0, 0);
      for g := 0 to |groups|
        invariant tally == TallyOf(AllStates(groups[..g]))
      {
        assert groups[..g + 1][..g] == groups[..g];
        tally := TallyTasks(groups[g].tasks, tally, AllStates(groups[..g]));
      }
      assert groups[..|groups|] == groups;
    }

    /** Counts on through the tasks of one group. */
    method TallyTasks(tasks: seq<Task>, start: Tallies, ghost before: seq<TaskState>) returns (tally: Tallies)
      requires start == TallyOf(before)
      ensures tally == TallyOf(before + StatesOf(tasks))
    {
      tally := start;
      ghost var states := StatesOf(tasks);
      assert before + states[..0] == before;
      for t := 0 to |tasks|
        invariant tally == TallyOf(before + states[..t])
      {
        TallyAppend(before + states[..t], tasks[t].state);
        assert before + states[..t + 1] == before + states[..t] + [tasks[t].state];
        tally := Bump(tally, tasks[t].state);
      }
      assert states[..|tasks|] == states;
    }

    /** Recomputes the state from the tasks; answers whether it changed. */
    method RefreshState() returns (changed: bool)
      requires Valid()
      modifies this
      ensures Valid()
      ensures Rec() == Refreshed(old(Rec()))
      ensures changed <==> state != old(state)
    {
      var last := state;
      var total := CountTasks();
      var tally := Tally();
      DecideIsRefresh(Rec());
      progress := ProgressOf(tally.completed, total);
      if tally.completed == total {
        state := JobCompleted;
      } else if state == JobHalted || state == JobTerminated {
        return false;
      } else if tally.waiting == 0 && tally.executing == 0 {
        state := JobFailed;
        if maxErrors > 0 && maxErrors >= tally.failed {
          state := JobCompleted;
        }
      } else if tally.waiting == total {
        state := JobQueued;
      } else {
        state := JobExecuting;
      }
      return last != state;
    }

    /** The tasks that may be scheduled now: all of them, each once, in order of position. */
    method GetSchedulableTasks() returns (refs: seq<TaskRef>)
      ensures forall ref :: ref in refs <==> TaskSchedulable(groups, ref)
      ensures forall i, j | 0 <= i < j < |refs| :: RefLess(refs[i], refs[j])
    {
      refs := [];
      for g := 0 to |groups|
        invariant forall ref :: ref in refs <==> TaskSchedulable(groups, ref) && ref.group < g
        invariant forall i, j | 0 <= i < j < |refs| :: RefLess(refs[i], refs[j])
      {
        var schedulable := true;
        var dependents := groups[g].dependents;
        var d := 0;
        while d < |dependents| && schedulable
          invariant 0 <= d <= |dependents|
          invariant schedulable ==> forall k | 0 <= k < d :: NotBlocked(groups, dependents[k])
          invariant !schedulable ==> !Ready(groups, g)
        {
          var found := FindGroup(groups, dependents[d]);
          if found.Some? && !groups[found.value].IsCompleted() {
            assert !NotBlocked(groups, dependents[d]) && dependents[d] in dependents;
            schedulable := false;
          }
          d := d + 1;
        }
        if schedulable {
          assert Ready(groups, g);
          refs := AppendQueued(refs, g);
        }
      }
    }

    /** Appends the queued tasks of one group. */
    method AppendQueued(before: seq<TaskRef>, g: nat) returns (refs: seq<TaskRef>)
      requires g < |groups|
      requires forall ref | ref in before :: ref.group < g
      requires forall i, j | 0 <= i < j < |before| :: RefLess(before[i], before[j])
      ensures forall ref :: ref in refs <==>
        ref in before || (ref.group == g && Within(groups, ref) && TaskAt(groups, ref).state == TaskQueued)
      ensures forall i, j | 0 <= i < j < |refs| :: RefLess(refs[i], refs[j])
    {
      refs := before;
      var tasks := groups[g].tasks;
      for t := 0 to |tasks|
        invariant forall ref :: ref in refs <==>
          ref in before || (ref.group == g && ref.task < t && TaskAt(groups, ref).state == TaskQueued)
        invariant forall i, j | 0 <= i < j < |refs| :: RefLess(refs[i], refs[j])
      {
        if tasks[t].state == TaskQueued {
          forall i | 0 <= i < |refs|
            ensures RefLess(refs[i], TaskRef(g, t))
          {
            assert refs[i] in refs;
          }
          refs := refs + [TaskRef(g, t)];
        }
      }
    }
  }
}
