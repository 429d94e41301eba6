/** Tasks, task groups, and how a submitted specification becomes numbered tasks. */
module Tasks {
  import opened Resources
  import opened TaskIds

  datatype TaskState =
    | TaskQueued | TaskScheduled | TaskDispatching | TaskExecuting
    | TaskCompleted | TaskFailed | TaskAborted | TaskTerminated

  predicate IsFinishState(state: TaskState) {
    state == TaskCompleted || state == TaskFailed || state == TaskAborted || state == TaskTerminated
  }

  /** Assigned to a node and not finished. */
  predicate IsActiveState(state: TaskState) {
    state == TaskScheduled || state == TaskDispatching || state == TaskExecuting
  }

  datatype Task = Task(
    id: string, labels: map<string, string>, taints: map<string, string>, resources: Amounts,
    state: TaskState, nodeName: string, progress: int, exitCode: int, error: string)

  datatype TaskGroup = TaskGroup(name: string, dependents: seq<string>, completions: nat, tasks: seq<Task>)
  {
    predicate IsCompleted() {
      completions == |tasks|
    }
  }

  /** Position of a task inside its job. */
  datatype TaskRef = TaskRef(group: nat, task: nat)

  predicate Within(groups: seq<TaskGroup>, ref: TaskRef) {
    ref.group < |groups| && ref.task < |groups[ref.group].tasks|
  }

  function TaskAt(groups: seq<TaskGroup>, ref: TaskRef): Task
    requires Within(groups, ref)
  {
    groups[ref.group].tasks[ref.task]
  }

  /** Writing through the pointer to one task of a job. */
  function WithTask(groups: seq<TaskGroup>, ref: TaskRef, task: Task): (r: seq<TaskGroup>)
    requires Within(groups, ref)
    ensures forall other :: Within(r, other) <==> Within(groups, other)
    ensures forall other | Within(groups, other) ::
      TaskAt(r, other) == if other == ref then task else TaskAt(groups, other)
  {
    var group := groups[ref.group];
    groups[ref.group := group.(tasks := group.tasks[ref.task := task])]
  }

  /** Every task carries the ID of its position. */
  ghost predicate WellNumbered(job: string, groups: seq<TaskGroup>) {
    forall ref | Within(groups, ref) :: TaskAt(groups, ref).id == TaskId(job, ref.group, ref.task)
  }

  /** A status report about one task, sent by a node. */
  datatype TaskReport = TaskReport(id: string, state: TaskState, progress: int, exitCode: int, error: string)

  // ----- building the tasks of a job

  datatype TaskSpec = TaskSpec(labels: map<string, string>, resources: Option<Amounts>)
  datatype GroupSpec = GroupSpec(
    name: string, labels: map<string, string>, dependents: seq<string>, resources: Option<Amounts>,
    tasks: seq<TaskSpec>)

  /** The demand given to a task that specifies none: one core at 2048 MHz and 1024 units of memory. */
  const STANDARD := Amounts(10, 2048, 0, 0, 0, 0, 1024, map[])

  function WithDefaults(a: Amounts): Amounts {
    if AsksMain(a) then a
    else a.(cores := STANDARD.cores, frequency := STANDARD.frequency,
            minFreq := STANDARD.minFreq, memory := STANDARD.memory)
  }

  /** Chooses the resource object of a task: its own, else its group's, else the shared default.
      The chosen object itself is amended when it asks for nothing, so a group's object is amended
      for all its tasks; the shared default asks for something and is never written. */
  method TaskResources(own: ResourceSet?, group: ResourceSet?, standard: ResourceSet) returns (chosen: ResourceSet)
    requires standard.Value() == STANDARD
    modifies own, group
    ensures standard.Value() == STANDARD
    ensures chosen == if own != null then own else if group != null then group else standard
    ensures AsksMain(chosen.Value())
    ensures chosen.Value() == WithDefaults(old(
      if own != null then own.Value() else if group != null then group.Value() else standard.Value()))
    ensures own != null && group != null && group != own ==> unchanged(group)
  {
    if own != null {
      chosen := own;
    } else if group != null {
      chosen := group;
    } else {
      chosen := standard;
    }
    if chosen.cores == 0 && chosen.frequency == 0 && chosen.cards == 0 && chosen.memory == 0 {
      chosen.cores, chosen.frequency, chosen.minFreq := STANDARD.cores, STANDARD.frequency, STANDARD.minFreq;
      chosen.memory := STANDARD.memory;
    }
  }

  /** The demand a task ends up with. */
  function Demand(own: Option<Amounts>, group: Option<Amounts>): (d: Amounts)
    ensures AsksMain(d)
  {
    WithDefaults(if own.Some? then own.value else if group.Some? then group.value else STANDARD)
  }

  /** A task asks for what it specifies, else for what its group does, else for one core at 2048 MHz and 1024
      units of memory; a choice that asks for none of the main quantities asks for that much besides. */
  lemma DemandMeans(own: Option<Amounts>, group: Option<Amounts>)
    ensures own.None? && group.None? ==> Demand(own, group) == Amounts(10, 2048, 0, 0, 0, 0, 1024, map[])
    ensures own.Some? || group.Some? ==>
      var a := if own.Some? then own.value else group.value;
      Demand(own, group) ==
        if a.cores == 0 && a.frequency == 0 && a.cards == 0 && a.memory == 0
        then a.(cores := 10, frequency := 2048, minFreq := 0, memory := 1024) else a
  {
  }

  ghost predicate Built(job: string, specs: seq<GroupSpec>, g: nat, group: TaskGroup)
    requires g < |specs|
  {
    && group.name == specs[g].name && group.dependents == specs[g].dependents && group.completions == 0
    && |group.tasks| == |specs[g].tasks|
    && forall t | 0 <= t < |group.tasks| ::
      group.tasks[t] == Task(TaskId(job, g, t), specs[g].labels + specs[g].tasks[t].labels, map[],
        Demand(specs[g].tasks[t].resources, specs[g].resources), TaskQueued, "", 0, -1, "")
  }

  method NewTaskGroup(job: string, g: nat, specs: seq<GroupSpec>) returns (group: TaskGroup)
    requires g < |specs|
    ensures Built(job, specs, g, group)
  {
    var spec := specs[g];
    var standard := new ResourceSet(STANDARD);
    var shared: ResourceSet? := null;
    if spec.resources.Some? {
      shared := new ResourceSet(spec.resources.value);
    }
    var tasks := [];
    for t := 0 to |spec.tasks|
      invariant |tasks| == t
      invariant fresh(standard) && standard.Value() == STANDARD
      invariant shared == null <==> spec.resources.None?
      invariant shared != null ==> fresh(shared) && shared != standard
      invariant shared != null ==> shared.Value() in {spec.resources.value, WithDefaults(spec.resources.value)}
      invariant forall i | 0 <= i < t ::
        tasks[i] == Task(TaskId(job, g, i), spec.labels + spec.tasks[i].labels, map[],
          Demand(spec.tasks[i].resources, spec.resources), TaskQueued, "", 0, -1, "")
    {
      var own: ResourceSet? := null;
      if spec.tasks[t].resources.Some? {
        own := new ResourceSet(spec.tasks[t].resources.value);
      }
      var chosen := TaskResources(own, shared, standard);
      tasks := tasks + [Task(TaskId(job, g, t), spec.labels + spec.tasks[t].labels, map[],
                             chosen.Value(), TaskQueued, "", 0, -1, "")];
    }
    group := TaskGroup(spec.name, spec.dependents, 0, tasks);
  }

  method NewTaskGroups(job: string, specs: seq<GroupSpec>) returns (groups: seq<TaskGroup>)
    ensures |groups| == |specs|
    ensures forall g | 0 <= g < |groups| :: Built(job, specs, g, groups[g])
    ensures WellNumbered(job, groups)
  {
    groups := [];
    for g := 0 to |specs|
      invariant |groups| == g
      invariant forall i | 0 <= i < g :: Built(job, specs, i, groups[i])
    {
      var group := NewTaskGroup(job, g, specs);
      groups := groups + [group];
    }
  }

  /** Reports find their task: for every task of a job built from a specification, parsing its ID
      gives back the job and a position at which that same task stands, unless the job ID holds a
      dot, in which case no job is found at all. */
  lemma ReportReachesItsTask(job: string, groups: seq<TaskGroup>, ref: TaskRef)
    requires WellNumbered(job, groups) && Within(groups, ref)
    ensures var (j, g, t) := ParseTaskId(TaskAt(groups, ref).id);
            if '.' in job then j == "" && g < 0 && t < 0
            else j == job && g >= 0 && t >= 0 && TaskRef(g, t) == ref
  {
    ParseUndoesTaskId(job, ref.group, ref.task);
  }

  /** Two tasks of jobs built from specifications with the same ID are the same task. */
  lemma NoIdCollision(job: string, groups: seq<TaskGroup>, ref: TaskRef, job': string, groups': seq<TaskGroup>,
                      ref': TaskRef)
    requires WellNumbered(job, groups) && Within(groups, ref)
    requires WellNumbered(job', groups') && Within(groups', ref')
    ensures TaskAt(groups, ref).id == TaskAt(groups', ref').id <==> job == job' && ref == ref'
  {
    if TaskAt(groups, ref).id == TaskAt(groups', ref').id {
      TaskIdInjective(job, ref.group, ref.task, job', ref'.group, ref'.task);
    }
  }
}
