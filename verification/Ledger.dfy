/** Conservation of resources over every run of the server. */
module Ledger {
  import opened Resources
  import opened TaskIds
  import opened Tasks
  import opened Jobs
  import opened Messages
  import opened NodeCaches
  import opened Cluster

  // ----- the balance of one node

  function Sum(tasks: seq<Task>, kind: Kind): int {
    if tasks == [] then 0 else Sum(tasks[..|tasks| - 1], kind) + Amount(tasks[|tasks| - 1].resources, kind)
  }

  /** What a node offers when nothing is charged to it. */
  function Base(node: NodeRec): Amounts {
    Consumed(node.resources, node.reserved)
  }

  /** Availability, outstanding and lost tasks add up to what the node offers, in every quantity it tracks. */
  ghost predicate Balanced(node: NodeRec, out: seq<Task>, lost: seq<Task>) {
    && Alike(node.available, Base(node))
    && forall kind | Tracks(Base(node), kind) ::
      Amount(node.available, kind) + Sum(out, kind) + Sum(lost, kind) == Amount(Base(node), kind)
  }

  ghost predicate DistinctIds(tasks: seq<Task>) {
    forall i, j | 0 <= i < j < |tasks| :: tasks[i].id != tasks[j].id
  }

  predicate Canonical(id: string) {
    var (j, g, t) := ParseTaskId(id);
    g >= 0 && t >= 0 && id == TaskId(j, g, t)
  }

  /** What every task asks for: something, and nothing negative. */
  ghost predicate DemandOk(d: Amounts) {
    NonNegative(d) && AsksMain(d)
  }

  /** The server's own record of an outstanding task, if its job still exists, agrees with the message. */
  ghost predicate Located(jobs: map<string, JobRec>, name: string, task: Task) {
    && Canonical(task.id) && DemandOk(task.resources)
    && var found := LookUp(jobs, task.id);
       found.Some? ==>
         found.value.nodeName == name && found.value.resources == task.resources && IsActiveState(found.value.state)
  }

  ghost predicate NodeInv(s: State, name: string)
    requires Shape(s) && name in s.nodes
  {
    var node, out := s.nodes[name], Outstanding(s, name);
    node.state != NodeUnknown ==>
      && NonNegative(node.resources) && NonNegative(node.reserved) && NonNegative(node.available)
      && Balanced(node, out, s.lost[name]) && DistinctIds(out)
      && (forall t | t in out :: Located(s.jobs, name, t))
      && (forall t | t in s.lost[name] :: DemandOk(t.resources))
  }

  ghost predicate JobInv(id: string, job: JobRec) {
    && '.' !in id && WellNumbered(id, job.groups)
    && forall ref | Within(job.groups, ref) :: DemandOk(TaskAt(job.groups, ref).resources)
  }

  ghost predicate Inv(s: State) {
    && Shape(s) && "" !in s.nodes
    && (forall id | id in s.jobs :: JobInv(id, s.jobs[id]))
    && (forall n | n in s.nodes :: NodeInv(s, n))
  }

  // ----- arithmetic of outstanding tasks

  lemma {:induction false} SumConcat(a: seq<Task>, b: seq<Task>, kind: Kind)
    ensures Sum(a + b, kind) == Sum(a, kind) + Sum(b, kind)
  {
    if b == [] {
      assert a + b == a;
    } else {
      assert (a + b)[..|a + b| - 1] == a + b[..|b| - 1];
      SumConcat(a, b[..|b| - 1], kind);
    }
  }

  lemma {:induction false} SumNonNegative(tasks: seq<Task>, kind: Kind)
    requires forall t | t in tasks :: NonNegative(t.resources)
    ensures 0 <= Sum(tasks, kind)
  {
    if tasks != [] {
      assert tasks[|tasks| - 1] in tasks;
      SumNonNegative(tasks[..|tasks| - 1], kind);
    }
  }

  /** Tasks that each ask for something ask for something together. */
  lemma DemandShows(tasks: seq<Task>)
    requires tasks != [] && forall t | t in tasks :: DemandOk(t.resources)
    ensures exists kind :: kind in MAIN && Sum(tasks, kind) > 0
  {
    var front, last := tasks[..|tasks| - 1], tasks[|tasks| - 1];
    assert last in tasks;
    var kind := MainDemand(last.resources);
    SumNonNegative(front, kind);
    assert Sum(tasks, kind) > 0;
  }

  /** The quantities every node tracks. */
  const MAIN := {Cores, Frequency, Memory, Cards}

  lemma MainDemand(d: Amounts) returns (kind: Kind)
    requires DemandOk(d)
    ensures kind in MAIN && Amount(d, kind) > 0
  {
    kind :=
      if d.cores != 0 then Cores else if d.frequency != 0 then Frequency else if d.cards != 0 then Cards else Memory;
    assert 0 <= Amount(d, kind);
  }

  lemma TasksInAppend(box: seq<Message>, m: Message)
    ensures TasksIn(box + [m]) == if m.ScheduleTask? then TasksIn(box) + [m.task] else TasksIn(box)
  {
    assert (box + [m])[..|box|] == box;
    assert TasksIn(box) + [] == TasksIn(box);
  }

  lemma TasksInLast(box: seq<Message>)
    requires box != []
    ensures var front, last := box[..|box| - 1], box[|box| - 1];
      TasksIn(box) == if last.ScheduleTask? then TasksIn(front) + [last.task] else TasksIn(front)
  {
    assert box == box[..|box| - 1] + [box[|box| - 1]];
    TasksInAppend(box[..|box| - 1], box[|box| - 1]);
  }

  lemma SumLast(tasks: seq<Task>, task: Task, kind: Kind)
    ensures Sum(tasks + [task], kind) == Sum(tasks, kind) + Amount(task.resources, kind)
  {
    assert (tasks + [task])[..|tasks|] == tasks;
  }

  /** A withdrawal splits the waiting tasks into those kept and those withdrawn. */
  lemma {:induction false} WithdrawalSplits(box: seq<Message>, msg: Message, kind: Kind)
    ensures Sum(TasksIn(box), kind) == Sum(TasksIn(Kept(box, msg)), kind) + Sum(TasksIn(Withdrawn(box, msg)), kind)
  {
    if box != [] {
      var front, last := box[..|box| - 1], box[|box| - 1];
      WithdrawalSplits(front, msg, kind);
      SumOfAppend(front, last, kind);
      assert box == front + [last];
      if Filter(msg, last) {
        assert Kept(box, msg) == Kept(front, msg) + [last] && Withdrawn(box, msg) == Withdrawn(front, msg);
        SumOfAppend(Kept(front, msg), last, kind);
      } else {
        assert Withdrawn(box, msg) == Withdrawn(front, msg) + [last] && Kept(box, msg) == Kept(front, msg);
        SumOfAppend(Withdrawn(front, msg), last, kind);
      }
    }
  }

  lemma SumOfAppend(box: seq<Message>, m: Message, kind: Kind)
    ensures Sum(TasksIn(box + [m]), kind) ==
      Sum(TasksIn(box), kind) + if m.ScheduleTask? then Amount(m.task.resources, kind) else 0
  {
    TasksInAppend(box, m);
    if m.ScheduleTask? {
      SumLast(TasksIn(box), m.task, kind);
    }
  }

  lemma {:induction false} TasksInMembers(box: seq<Message>)
    ensures forall t :: t in TasksIn(box) <==> exists m :: m in box && m.ScheduleTask? && m.task == t
  {
    if box != [] {
      var front, last := box[..|box| - 1], box[|box| - 1];
      TasksInMembers(front);
      TasksInLast(box);
      assert forall m :: m in box <==> m in front || m == last;
    }
  }

  lemma WithdrawalMembers(box: seq<Message>, msg: Message)
    ensures forall t | t in TasksIn(Kept(box, msg)) :: t in TasksIn(box)
    ensures forall t | t in TasksIn(Withdrawn(box, msg)) :: t in TasksIn(box)
  {
    KeptMembers(box, msg);
    TasksInMembers(box);
    TasksInMembers(Kept(box, msg));
    TasksInMembers(Withdrawn(box, msg));
  }

  lemma {:induction false} KeptDistinct(box: seq<Message>, msg: Message)
    requires DistinctIds(TasksIn(box))
    ensures DistinctIds(TasksIn(Kept(box, msg)))
  {
    if box != [] {
      var front, last := box[..|box| - 1], box[|box| - 1];
      TasksInLast(box);
      if last.ScheduleTask? {
        DistinctParts(TasksIn(front), [last.task]);
      }
      KeptDistinct(front, msg);
      if Filter(msg, last) {
        TasksInAppend(Kept(front, msg), last);
        if last.ScheduleTask? {
          WithdrawalMembers(front, msg);
          DistinctJoin(TasksIn(Kept(front, msg)), [last.task]);
        }
      } else {
        assert Kept(box, msg) == Kept(front, msg);
      }
    }
  }

  lemma DistinctParts(a: seq<Task>, b: seq<Task>)
    requires DistinctIds(a + b)
    ensures DistinctIds(a) && DistinctIds(b)
    ensures forall t, u | t in a && u in b :: t.id != u.id
  {
    var all := a + b;
    assert forall i | 0 <= i < |a| :: all[i] == a[i];
    forall i, j | 0 <= i < j < |b|
      ensures b[i].id != b[j].id
    {
      assert all[|a| + i] == b[i] && all[|a| + j] == b[j];
    }
    forall t, u | t in a && u in b
      ensures t.id != u.id
    {
      var i :| 0 <= i < |a| && a[i] == t;
      var j :| 0 <= j < |b| && b[j] == u;
      assert all[i] == t && all[|a| + j] == u;
    }
  }

  lemma DistinctJoin(a: seq<Task>, b: seq<Task>)
    requires DistinctIds(a) && DistinctIds(b)
    requires forall t, u | t in a && u in b :: t.id != u.id
    ensures DistinctIds(a + b)
  {
  }

  lemma {:induction false} GiveBackAllExact(a: Amounts, msgs: seq<Message>)
    requires NonNegative(a) && forall t | t in TasksIn(msgs) :: NonNegative(t.resources)
    ensures NonNegative(GiveBackAll(a, msgs))
    ensures Alike(GiveBackAll(a, msgs), a)
    ensures forall kind | Tracks(a, kind) ::
      Amount(GiveBackAll(a, msgs), kind) == Amount(a, kind) + Sum(TasksIn(msgs), kind)
  {
    if msgs != [] {
      var front, last := msgs[..|msgs| - 1], msgs[|msgs| - 1];
      GiveBackAllExact(a, front);
      TasksInLast(msgs);
      if last.ScheduleTask? {
        assert last.task in TasksIn(msgs);
        GiveBackExact(GiveBackAll(a, front), last.task.resources);
        forall kind {
          SumLast(TasksIn(front), last.task, kind);
        }
      }
    }
  }

  lemma {:induction false} RemoveOne(tasks: seq<Task>, id: string, task: Task, kind: Kind)
    requires task in tasks && task.id == id && DistinctIds(tasks)
    ensures Sum(tasks, kind) == Sum(Remove(tasks, id), kind) + Amount(task.resources, kind)
    ensures DistinctIds(Remove(tasks, id))
    ensures forall t :: t in Remove(tasks, id) <==> t in tasks && t.id != id
  {
    var front, last := tasks[..|tasks| - 1], tasks[|tasks| - 1];
    assert tasks == front + [last];
    DistinctParts(front, [last]);
    if last.id == id {
      assert last == task;
    } else {
      RemoveOne(front, id, task, kind);
      SumConcat(Remove(front, id), [last], kind);
      DistinctJoin(Remove(front, id), [last]);
    }
  }

  // ----- the job records behind outstanding tasks

  lemma LookUpOf(jobs: map<string, JobRec>, id: string, ref: TaskRef)
    requires id in jobs && Within(jobs[id].groups, ref) && '.' !in id
    ensures LookUp(jobs, TaskId(id, ref.group, ref.task)) == Some(TaskAt(jobs[id].groups, ref))
    ensures Canonical(TaskId(id, ref.group, ref.task))
  {
    ParseUndoesTaskId(id, ref.group, ref.task);
  }

  /** Writing one task changes what is found under its ID only. */
  lemma LookUpUpdated(jobs: map<string, JobRec>, id: string, ref: TaskRef, job: JobRec, task: Task, x: string)
    requires id in jobs && Within(jobs[id].groups, ref) && '.' !in id
    requires job.groups == WithTask(jobs[id].groups, ref, task)
    requires Canonical(x)
    ensures LookUp(jobs[id := job], x) == if x == TaskId(id, ref.group, ref.task) then Some(task) else LookUp(jobs, x)
  {
    ParseUndoesTaskId(id, ref.group, ref.task);
  }

  lemma JobInvUpdated(id: string, before: JobRec, ref: TaskRef, task: Task, after: JobRec)
    requires JobInv(id, before) && Within(before.groups, ref)
    requires after.groups == WithTask(before.groups, ref, task)
    requires task.id == TaskAt(before.groups, ref).id && task.resources == TaskAt(before.groups, ref).resources
    ensures JobInv(id, after)
  {
    forall r | Within(after.groups, r)
      ensures TaskAt(after.groups, r).id == TaskId(id, r.group, r.task) && DemandOk(TaskAt(after.groups, r).resources)
    {
      assert Within(before.groups, r) && TaskAt(before.groups, r).id == TaskId(id, r.group, r.task);
    }
  }

  /** A node untouched by a step stays in order if the records of its tasks are untouched. */
  lemma Untouched(s: State, s': State, n: string)
    requires Shape(s) && Shape(s') && n in s.nodes && n in s'.nodes && NodeInv(s, n)
    requires s'.nodes[n] == s.nodes[n] && Outstanding(s', n) == Outstanding(s, n) && s'.lost[n] == s.lost[n]
    requires s.nodes[n].state != NodeUnknown ==>
      forall t | t in Outstanding(s, n) && Located(s.jobs, n, t) :: Located(s'.jobs, n, t)
    ensures NodeInv(s', n)
  {
  }

  // ----- every step keeps the invariant

  lemma RegisterKeeps(s: State, name: string, labels: map<string, string>, resources: Amounts)
    requires Inv(s) && name != "" && NonNegative(resources)
    ensures Inv(Registered(s, name, labels, resources))
  {
    var s' := Registered(s, name, labels, resources);
    var base := Consumed(resources, STANDARD);
    forall kind
      ensures 0 <= Amount(base, kind)
    {
      assert 0 <= Amount(resources, kind);
    }
    forall n | n in s'.nodes
      ensures NodeInv(s', n)
    {
      if n != name {
        Untouched(s, s', n);
      }
    }
  }

  lemma CreateKeeps(s: State, id: string, job: JobRec)
    requires Inv(s) && Enabled(s, Create(id, job))
    ensures Inv(Next(s, Create(id, job)))
  {
    var s' := Next(s, Create(id, job));
    forall n | n in s'.nodes
      ensures NodeInv(s', n)
    {
      forall t | Known(s, n) && t in Outstanding(s, n) && Located(s.jobs, n, t)
        ensures Located(s'.jobs, n, t)
      {
        assert ParseTaskId(t.id).0 == id ==> LookUp(s'.jobs, t.id).None?;
      }
      Untouched(s, s', n);
    }
  }

  lemma DeleteKeeps(s: State, id: string)
    requires Inv(s) && Enabled(s, Delete(id))
    ensures Inv(Next(s, Delete(id)))
  {
    var s' := Next(s, Delete(id));
    forall n | n in s'.nodes
      ensures NodeInv(s', n)
    {
      assert forall x :: LookUp(s'.jobs, x).Some? ==> LookUp(s'.jobs, x) == LookUp(s.jobs, x);
      Untouched(s, s', n);
    }
  }

  lemma DeliverKeeps(s: State, name: string)
    requires Inv(s) && name in s.nodes
    ensures Inv(Delivered(s, name))
  {
    var s' := Delivered(s, name);
    forall n | n in s'.nodes
      ensures NodeInv(s', n)
    {
      Untouched(s, s', n);
    }
  }

  /** A step that changes no task and no node. */
  lemma JobOnlyKeeps(s: State, id: string, job: JobRec)
    requires Inv(s) && id in s.jobs && job.groups == s.jobs[id].groups
    ensures Inv(s.(jobs := s.jobs[id := job]))
  {
    var s' := s.(jobs := s.jobs[id := job]);
    forall n | n in s'.nodes
      ensures NodeInv(s', n)
    {
      assert forall x :: LookUp(s'.jobs, x) == LookUp(s.jobs, x);
      Untouched(s, s', n);
    }
  }

  lemma SwitchKeeps(s: State, name: string, state: NodeState)
    requires Inv(s) && name in s.nodes && s.nodes[name].state != NodeUnknown
    ensures Inv(Switched(s, name, state))
  {
    var s' := Switched(s, name, state);
    forall n | n in s'.nodes
      ensures NodeInv(s', n)
    {
      assert Outstanding(s', n) == Outstanding(s, n);
    }
  }

  /** No node in service holds a task whose record is not active there. */
  lemma NotOutstanding(s: State, name: string, id: string)
    requires Inv(s) && name in s.nodes && s.nodes[name].state != NodeUnknown
    requires LookUp(s.jobs, id).Some?
    requires var found := LookUp(s.jobs, id).value; !IsActiveState(found.state) || found.nodeName != name
    ensures forall t | t in Outstanding(s, name) :: t.id != id
  {
    forall t | t in Outstanding(s, name)
      ensures t.id != id
    {
      assert Located(s.jobs, name, t);
    }
  }

  /** Rewriting the record of one task keeps every node on which that task is not outstanding. */
  lemma OthersLocated(s: State, id: string, ref: TaskRef, job: JobRec, task: Task, n: string)
    requires Inv(s) && id in s.jobs && Within(s.jobs[id].groups, ref)
    requires job.groups == WithTask(s.jobs[id].groups, ref, task)
    requires n in s.nodes && s.nodes[n].state != NodeUnknown
    requires forall t | t in Outstanding(s, n) :: t.id != TaskId(id, ref.group, ref.task)
    ensures forall t | t in Outstanding(s, n) :: Located(s.jobs[id := job], n, t)
  {
    forall t | t in Outstanding(s, n)
      ensures Located(s.jobs[id := job], n, t)
    {
      assert Located(s.jobs, n, t);
      LookUpUpdated(s.jobs, id, ref, job, task, t.id);
    }
  }

  lemma PlaceKeeps(s: State, name: string, id: string, ref: TaskRef)
    requires Inv(s) && Enabled(s, Place(name, id, ref))
    ensures Inv(Placed(s, name, id, ref))
  {
    var s' := Placed(s, name, id, ref);
    var before := TaskAt(s.jobs[id].groups, ref);
    var task := before.(state := TaskScheduled, nodeName := name);
    var taskId := TaskId(id, ref.group, ref.task);
    assert before.id == taskId && DemandOk(task.resources);
    LookUpOf(s.jobs, id, ref);
    JobInvUpdated(id, s.jobs[id], ref, task, s'.jobs[id]);
    LookUpUpdated(s.jobs, id, ref, s'.jobs[id], task, taskId);
    forall n | n in s.nodes
      ensures NodeInv(s', n)
    {
      FreshOnNode(s, id, ref, s'.jobs[id], task, n);
      PlaceKeepsNode(s, s', name, task, n);
    }
  }

  /** A waiting task is outstanding nowhere, so its record may be rewritten. */
  lemma FreshOnNode(s: State, id: string, ref: TaskRef, job: JobRec, task: Task, n: string)
    requires Inv(s) && id in s.jobs && Within(s.jobs[id].groups, ref) && n in s.nodes
    requires job.groups == WithTask(s.jobs[id].groups, ref, task) && task.id == TaskId(id, ref.group, ref.task)
    requires LookUp(s.jobs, task.id).Some? && LookUp(s.jobs, task.id).value.state == TaskQueued
    ensures s.nodes[n].state != NodeUnknown ==>
      forall t | t in Outstanding(s, n) :: t.id != task.id && Located(s.jobs[id := job], n, t)
  {
    if s.nodes[n].state != NodeUnknown {
      NotOutstanding(s, n, task.id);
      OthersLocated(s, id, ref, job, task, n);
    }
  }

  lemma PlaceKeepsNode(s: State, s': State, name: string, task: Task, n: string)
    requires Shape(s) && Shape(s') && n in s.nodes && n in s'.nodes && NodeInv(s, n) && DemandOk(task.resources)
    requires n != name ==> s'.nodes[n] == s.nodes[n] && Outstanding(s', n) == Outstanding(s, n)
    requires n == name ==>
      && s.nodes[n].state != NodeUnknown && Satisfies(task.resources, s.nodes[n].available)
      && s'.nodes[n] == Charged(s.nodes[n], task.resources) && Located(s'.jobs, n, task)
      && var msg := ScheduleTask(task.id, task); s'.boxes[n] == Kept(s.boxes[n], msg) + [msg]
    requires s'.running[n] == s.running[n] && s'.lost[n] == s.lost[n]
    requires s.nodes[n].state != NodeUnknown ==>
      forall t | t in Outstanding(s, n) :: t.id != task.id && Located(s'.jobs, n, t)
    ensures NodeInv(s', n)
  {
    if n == name {
      PlacedNode(s, s', n, task);
    }
  }

  lemma PlacedNode(s: State, s': State, name: string, task: Task)
    requires Shape(s) && Shape(s') && name in s.nodes && name in s'.nodes
    requires s.nodes[name].state != NodeUnknown && NodeInv(s, name)
    requires NonNegative(task.resources) && Satisfies(task.resources, s.nodes[name].available)
    requires s'.nodes[name] == Charged(s.nodes[name], task.resources)
    requires s'.running[name] == s.running[name] && s'.lost[name] == s.lost[name]
    requires var msg := ScheduleTask(task.id, task); s'.boxes[name] == Kept(s.boxes[name], msg) + [msg]
    requires forall t | t in Outstanding(s, name) :: t.id != task.id
    ensures Outstanding(s', name) == Outstanding(s, name) + [task]
    ensures NonNegative(s'.nodes[name].available) && Balanced(s'.nodes[name], Outstanding(s', name), s'.lost[name])
    ensures DistinctIds(Outstanding(s', name))
  {
    var msg := ScheduleTask(task.id, task);
    var node, node' := s.nodes[name], s'.nodes[name];
    NothingWithdrawn(s.boxes[name], msg);
    TasksInAppend(s.boxes[name], msg);
    assert Outstanding(s', name) == Outstanding(s, name) + [task];
    ConsumeExact(node.available, task.resources);
    forall kind | Tracks(Base(node'), kind)
      ensures Amount(node'.available, kind) + Sum(Outstanding(s', name), kind) + Sum(s'.lost[name], kind) ==
        Amount(Base(node'), kind)
    {
      SumLast(Outstanding(s, name), task, kind);
      assert Tracks(node.available, kind);
    }
    DistinctJoin(Outstanding(s, name), [task]);
  }

  /** A report of a running task names the record that was charged to the reporting node. */
  lemma ReportNames(s: State, name: string, report: TaskReport) returns (entry: Task)
    requires Inv(s) && Enabled(s, Report(name, report))
    ensures entry in s.running[name] && entry in Outstanding(s, name) && entry.id == report.id
      && Located(s.jobs, name, entry)
    ensures Named(s, report.id).Some? ==>
      var (id, ref) := Named(s, report.id).value;
      var before := TaskAt(s.jobs[id].groups, ref);
      && LookUp(s.jobs, report.id) == Some(before) && report.id == TaskId(id, ref.group, ref.task)
      && before.nodeName == name && before.resources == entry.resources && IsActiveState(before.state)
      && Credits(s, name, report.id)
  {
    entry :| entry in s.running[name] && entry.id == report.id;
    assert entry in Outstanding(s, name);
  }

  lemma ReportKeeps(s: State, name: string, report: TaskReport)
    requires Inv(s) && Enabled(s, Report(name, report))
    ensures Inv(Heard(s, name, report))
  {
    var entry := ReportNames(s, name, report);
    if Named(s, report.id).Some? {
      var (id, ref) := Named(s, report.id).value;
      CreditKeeps(s, name, report, entry, id, ref);
    } else if IsFinishState(report.state) {
      LossKeeps(s, name, report, entry);
    }
  }

  /** The job exists: its task is updated, and a finish comes back to the reporting node. */
  lemma CreditKeeps(s: State, name: string, report: TaskReport, entry: Task, id: string, ref: TaskRef)
    requires Inv(s) && Enabled(s, Report(name, report))
    requires Named(s, report.id) == Some((id, ref)) && report.id == TaskId(id, ref.group, ref.task)
    requires entry in s.running[name] && entry.id == report.id
    requires var before := TaskAt(s.jobs[id].groups, ref);
      before.nodeName == name && before.resources == entry.resources
    ensures Inv(Heard(s, name, report))
  {
    var s' := Heard(s, name, report);
    var before, job := TaskAt(s.jobs[id].groups, ref), Reported(s.jobs[id], ref, report);
    var task := ReportedTask(before, report);
    assert job.groups == WithTask(s.jobs[id].groups, ref, task);
    JobInvUpdated(id, s.jobs[id], ref, task, job);
    ReportEffect(s, s', name, report, id, ref);
    ReportReporter(s, s', name, report, entry, id, ref);
    ReportOthers(s, s', id, ref, job, task, name);
  }

  /** The job is gone: a finish ends the entry of the task at the node, and its charge is lost. */
  lemma LossKeeps(s: State, name: string, report: TaskReport, entry: Task)
    requires Inv(s) && Enabled(s, Report(name, report)) && IsFinishState(report.state) && Named(s, report.id).None?
    requires entry in s.running[name] && entry in Outstanding(s, name) && entry.id == report.id
    ensures Inv(Heard(s, name, report))
    ensures Heard(s, name, report).lost == s.lost[name := s.lost[name] + [entry]]
  {
    assert NodeInv(s, name) && Located(s.jobs, name, entry);
    DistinctParts(s.running[name], TasksIn(s.boxes[name]));
    EntryIsRemoved(s.running[name], entry);
    LostKeeps(s, Heard(s, name, report), name, entry);
  }

  lemma LostKeeps(s: State, s': State, name: string, entry: Task)
    requires Inv(s) && Known(s, name) && entry in s.running[name] && Located(s.jobs, name, entry)
    requires s' == s.(running := s.running[name := Remove(s.running[name], entry.id)],
                      lost := s.lost[name := s.lost[name] + [entry]])
    ensures Inv(s')
  {
    LostNode(s, s', name, entry);
    forall n | n in s'.nodes && n != name
      ensures NodeInv(s', n)
    {
      Untouched(s, s', n);
    }
  }

  lemma LostNode(s: State, s': State, name: string, entry: Task)
    requires Shape(s) && Shape(s') && Known(s, name) && NodeInv(s, name) && entry in s.running[name]
    requires Located(s.jobs, name, entry)
    requires s'.nodes == s.nodes && s'.jobs == s.jobs && s'.boxes == s.boxes
    requires s'.running[name] == Remove(s.running[name], entry.id) && s'.lost[name] == s.lost[name] + [entry]
    ensures NodeInv(s', name)
  {
    var running, waiting, node := s.running[name], TasksIn(s.boxes[name]), s.nodes[name];
    DistinctParts(running, waiting);
    RemoveOne(running, entry.id, entry, Cores);
    DistinctJoin(Remove(running, entry.id), waiting);
    forall kind | Tracks(Base(node), kind)
      ensures Amount(node.available, kind) + Sum(Outstanding(s', name), kind) + Sum(s'.lost[name], kind) ==
        Amount(Base(node), kind)
    {
      RemoveOne(running, entry.id, entry, kind);
      SumConcat(running, waiting, kind);
      SumConcat(Remove(running, entry.id), waiting, kind);
      SumLast(s.lost[name], entry, kind);
    }
  }

  lemma {:induction false} EntryIsRemoved(tasks: seq<Task>, task: Task)
    requires task in tasks && DistinctIds(tasks)
    ensures Entry(tasks, task.id) == [task]
  {
    var front, last := tasks[..|tasks| - 1], tasks[|tasks| - 1];
    assert tasks == front + [last];
    DistinctParts(front, [last]);
    if last.id == task.id {
      assert last == task;
    } else {
      EntryIsRemoved(front, task);
    }
  }

  lemma ReportEffect(s: State, s': State, name: string, report: TaskReport, id: string, ref: TaskRef)
    requires Shape(s) && name in s.nodes && s' == Heard(s, name, report) && Named(s, report.id) == Some((id, ref))
    requires TaskAt(s.jobs[id].groups, ref).nodeName == name
    ensures Shape(s') && s'.nodes.Keys == s.nodes.Keys && s'.lost == s.lost && s'.boxes == s.boxes
    ensures s'.jobs == s.jobs[id := Reported(s.jobs[id], ref, report)]
    ensures forall n | n in s.nodes && n != name :: s'.nodes[n] == s.nodes[n] && s'.running[n] == s.running[n]
  {
  }

  lemma ReportedJobs(s: State, s': State, name: string, report: TaskReport)
    requires Shape(s) && name in s.nodes && s' == Heard(s, name, report)
    ensures s'.jobs == NotedIn(s, report)
  {
  }

  lemma ReportNodes(s: State, name: string, report: TaskReport)
    requires Shape(s) && name in s.nodes
    ensures var s' := Heard(s, name, report);
      && s'.boxes == s.boxes && (forall n :: Known(s', n) <==> Known(s, n))
      && s'.running ==
        if IsFinishState(report.state) then s.running[name := Remove(s.running[name], report.id)] else s.running
  {
  }

  lemma ReportReporter(s: State, s': State, name: string, report: TaskReport, entry: Task, id: string, ref: TaskRef)
    requires Inv(s) && Enabled(s, Report(name, report)) && s' == Heard(s, name, report)
    requires Named(s, report.id) == Some((id, ref)) && report.id == TaskId(id, ref.group, ref.task)
    requires entry in s.running[name] && entry.id == report.id
    requires var before := TaskAt(s.jobs[id].groups, ref);
      before.nodeName == name && before.resources == entry.resources
    ensures NodeInv(s', name)
  {
    var task := ReportedTask(TaskAt(s.jobs[id].groups, ref), report);
    ReporterNode(s, s', name, report, entry, id, ref);
    ReporterLocated(s, id, ref, Reported(s.jobs[id], ref, report), task, report.id, name, Outstanding(s', name));
  }

  /** The reporting node itself, apart from the records of its tasks. */
  lemma ReporterNode(s: State, s': State, name: string, report: TaskReport, entry: Task, id: string, ref: TaskRef)
    requires Shape(s) && name in s.nodes && s' == Heard(s, name, report)
    requires s.nodes[name].state != NodeUnknown && NodeInv(s, name)
    requires Named(s, report.id) == Some((id, ref)) && entry in s.running[name] && entry.id == report.id
    requires var before := TaskAt(s.jobs[id].groups, ref);
      before.nodeName == name && before.resources == entry.resources
    ensures Shape(s') && name in s'.nodes && s'.jobs == s.jobs[id := Reported(s.jobs[id], ref, report)]
    ensures s'.nodes[name] == s.nodes[name].(available := s'.nodes[name].available)
    ensures NonNegative(s'.nodes[name].available) && s'.lost == s.lost
    ensures Balanced(s'.nodes[name], Outstanding(s', name), s'.lost[name]) && DistinctIds(Outstanding(s', name))
    ensures forall t | t in Outstanding(s', name) :: t in Outstanding(s, name)
    ensures IsFinishState(report.state) ==> forall t | t in Outstanding(s', name) :: t.id != entry.id
  {
    if IsFinishState(report.state) {
      ReturnedNode(s, s', name, entry);
    } else {
      assert Outstanding(s', name) == Outstanding(s, name);
    }
  }

  lemma ReportOthers(s: State, s': State, id: string, ref: TaskRef, job: JobRec, task: Task, name: string)
    requires Inv(s) && Shape(s') && id in s.jobs && Within(s.jobs[id].groups, ref)
    requires job.groups == WithTask(s.jobs[id].groups, ref, task) && s'.jobs == s.jobs[id := job]
    requires TaskAt(s.jobs[id].groups, ref).nodeName == name
    requires s'.nodes.Keys == s.nodes.Keys
    requires s'.boxes == s.boxes && s'.lost == s.lost
    requires forall n | n in s.nodes && n != name :: s'.nodes[n] == s.nodes[n] && s'.running[n] == s.running[n]
    ensures forall n | n in s.nodes && n != name :: NodeInv(s', n)
  {
    LookUpOf(s.jobs, id, ref);
    forall n | n in s.nodes && n != name
      ensures NodeInv(s', n)
    {
      if s.nodes[n].state != NodeUnknown {
        NotOutstanding(s, n, TaskId(id, ref.group, ref.task));
        OthersLocated(s, id, ref, job, task, n);
        Untouched(s, s', n);
      }
    }
  }

  lemma ReporterLocated(s: State, id: string, ref: TaskRef, job: JobRec, task: Task, taskId: string, name: string,
                        out: seq<Task>)
    requires Inv(s) && id in s.jobs && Within(s.jobs[id].groups, ref) && taskId == TaskId(id, ref.group, ref.task)
    requires job.groups == WithTask(s.jobs[id].groups, ref, task)
    requires task.nodeName == name && task.resources == TaskAt(s.jobs[id].groups, ref).resources
    requires name in s.nodes && s.nodes[name].state != NodeUnknown
    requires forall t | t in out :: t in Outstanding(s, name)
    requires IsActiveState(task.state) || forall t | t in out :: t.id != taskId
    ensures forall t | t in out :: Located(s.jobs[id := job], name, t)
  {
    LookUpOf(s.jobs, id, ref);
    forall t | t in out
      ensures Located(s.jobs[id := job], name, t)
    {
      assert Located(s.jobs, name, t);
      LookUpUpdated(s.jobs, id, ref, job, task, t.id);
    }
  }

  lemma ReturnedNode(s: State, s': State, name: string, entry: Task)
    requires Shape(s) && Shape(s') && name in s.nodes && name in s'.nodes
    requires s.nodes[name].state != NodeUnknown && NodeInv(s, name) && entry in s.running[name]
    requires s'.nodes[name] == s.nodes[name].(available := GivenBack(s.nodes[name].available, entry.resources))
    requires s'.running[name] == Remove(s.running[name], entry.id)
    requires s'.boxes[name] == s.boxes[name] && s'.lost[name] == s.lost[name]
    ensures forall t | t in Outstanding(s', name) :: t in Outstanding(s, name) && t.id != entry.id
    ensures NonNegative(s'.nodes[name].available) && Balanced(s'.nodes[name], Outstanding(s', name), s'.lost[name])
    ensures DistinctIds(Outstanding(s', name))
  {
    var node, node' := s.nodes[name], s'.nodes[name];
    var running, waiting := s.running[name], TasksIn(s.boxes[name]);
    DistinctParts(running, waiting);
    assert entry in Outstanding(s, name) && Located(s.jobs, name, entry);
    GiveBackExact(node.available, entry.resources);
    RemoveOne(running, entry.id, entry, Cores);
    DistinctJoin(Remove(running, entry.id), waiting);
    forall kind | Tracks(Base(node'), kind)
      ensures Amount(node'.available, kind) + Sum(Outstanding(s', name), kind) + Sum(s'.lost[name], kind) ==
        Amount(Base(node'), kind)
    {
      RemoveOne(running, entry.id, entry, kind);
      SumConcat(running, waiting, kind);
      SumConcat(Remove(running, entry.id), waiting, kind);
      assert Tracks(node.available, kind);
    }
  }

  lemma TerminateKeeps(s: State, id: string)
    requires Inv(s) && id in s.jobs
    ensures Inv(Terminated(s, id))
  {
    var s' := Terminated(s, id);
    if s' != s {
      assert forall x :: LookUp(s'.jobs, x) == LookUp(s.jobs, x);
      forall n | n in s'.nodes
        ensures NodeInv(s', n)
      {
        if Hosts(s.jobs[id], n) && s.nodes[n].state != NodeUnknown {
          RestoredNode(s, s', n, TerminateJob(id));
          assert forall t | t in Outstanding(s', n) :: Located(s.jobs, n, t);
        } else if !Hosts(s.jobs[id], n) {
          Untouched(s, s', n);
        }
      }
    }
  }

  lemma RestoredNode(s: State, s': State, name: string, msg: Message)
    requires Shape(s) && Shape(s') && name in s.nodes && name in s'.nodes && msg.TerminateJob?
    requires s.nodes[name].state != NodeUnknown && NodeInv(s, name)
    requires s'.nodes[name] == Restored(s.nodes[name], s.boxes[name], msg)
    requires s'.boxes[name] == Kept(s.boxes[name], msg) + [msg]
    requires s'.running[name] == s.running[name] && s'.lost[name] == s.lost[name]
    ensures forall t | t in Outstanding(s', name) :: t in Outstanding(s, name)
    ensures NonNegative(s'.nodes[name].available) && Balanced(s'.nodes[name], Outstanding(s', name), s'.lost[name])
    ensures DistinctIds(Outstanding(s', name))
  {
    var node, node', box := s.nodes[name], s'.nodes[name], s.boxes[name];
    var running, waiting := s.running[name], TasksIn(box);
    TasksInAppend(Kept(box, msg), msg);
    WithdrawalMembers(box, msg);
    forall t | t in TasksIn(Withdrawn(box, msg))
      ensures NonNegative(t.resources)
    {
      assert t in Outstanding(s, name) && Located(s.jobs, name, t);
    }
    GiveBackAllExact(node.available, Withdrawn(box, msg));
    DistinctParts(running, waiting);
    KeptDistinct(box, msg);
    DistinctJoin(running, TasksIn(Kept(box, msg)));
    forall kind | Tracks(Base(node'), kind)
      ensures Amount(node'.available, kind) + Sum(Outstanding(s', name), kind) + Sum(s'.lost[name], kind) ==
        Amount(Base(node'), kind)
    {
      WithdrawalSplits(box, msg, kind);
      SumConcat(running, waiting, kind);
      SumConcat(running, TasksIn(Kept(box, msg)), kind);
      assert Tracks(node.available, kind);
    }
  }

  lemma RequeuedAt(job: JobRec, late: set<string>, ref: TaskRef)
    ensures Within(RequeuedJob(job, late).groups, ref) <==> Within(job.groups, ref)
    ensures Within(job.groups, ref) ==>
      var task := TaskAt(job.groups, ref);
      TaskAt(RequeuedJob(job, late).groups, ref) == if job.state == JobExecuting then Requeued(task, late) else task
  {
  }

  lemma TimeoutKeeps(s: State, late: set<string>)
    requires Inv(s) && Enabled(s, Timeout(late))
    ensures Inv(TimedOut(s, late))
  {
    var s' := TimedOut(s, late);
    forall id | id in s'.jobs
      ensures JobInv(id, s'.jobs[id])
    {
      RequeuedInv(id, s.jobs[id], late);
    }
    forall n | n in s'.nodes && n !in late
      ensures NodeInv(s', n)
    {
      NodeInTime(s, late, s', n);
    }
  }

  lemma NodeInTime(s: State, late: set<string>, s': State, n: string)
    requires Inv(s) && Enabled(s, Timeout(late)) && s' == TimedOut(s, late) && Shape(s') && n in s.nodes && n !in late
    ensures NodeInv(s', n)
  {
    forall t | t in Outstanding(s, n) && Located(s.jobs, n, t)
      ensures Located(s'.jobs, n, t)
    {
      StaysLocated(s, late, n, t);
    }
    Untouched(s, s', n);
  }

  lemma RequeuedInv(id: string, job: JobRec, late: set<string>)
    requires JobInv(id, job)
    ensures JobInv(id, RequeuedJob(job, late))
  {
    forall ref {
      RequeuedAt(job, late, ref);
    }
  }

  /** A timeout leaves the records of tasks on other nodes. */
  lemma StaysLocated(s: State, late: set<string>, n: string, t: Task)
    requires n !in late && Located(s.jobs, n, t)
    ensures Located(TimedOut(s, late).jobs, n, t)
  {
    var (j, g, k) := ParseTaskId(t.id);
    if j in s.jobs {
      RequeuedAt(s.jobs[j], late, TaskRef(g, k));
    }
  }

  lemma StepKeeps(s: State, step: Step)
    requires Inv(s) && Enabled(s, step)
    ensures Inv(Next(s, step))
  {
    match step
    case Register(name, labels, resources) => RegisterKeeps(s, name, labels, resources);
    case Create(id, job) => CreateKeeps(s, id, job);
    case Delete(id) => DeleteKeeps(s, id);
    case Place(name, id, ref) => PlaceKeeps(s, name, id, ref);
    case Deliver(name) => DeliverKeeps(s, name);
    case Report(name, report) => ReportKeeps(s, name, report);
    case Halt(id) => JobOnlyKeeps(s, id, s.jobs[id].(state := JobHalted));
    case Resume(id) => JobOnlyKeeps(s, id, Refreshed(s.jobs[id].(state := JobQueued)));
    case Terminate(id) => TerminateKeeps(s, id);
    case Timeout(late) => TimeoutKeeps(s, late);
    case Online(name) => SwitchKeeps(s, name, NodeOnline);
    case Offline(name) => SwitchKeeps(s, name, NodeOffline);
    case Adjust(id, priority, maxErrors) =>
      JobOnlyKeeps(s, id, s.jobs[id].(priority := priority, maxErrors := maxErrors));
  }
}
