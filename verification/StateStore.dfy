/** The jobs of the server, indexed three ways: by ID, in order of submission, and by queue. */
module StateStores {
  import opened Resources
  import opened TaskIds
  import opened Tasks
  import opened Jobs
  import opened Sorting

  class JobQueue {
    const name: string
    const enabled: bool
    const priority: int
    var jobs: seq<Job>

    constructor (name: string, enabled: bool, priority: int)
      ensures this.name == name && this.enabled == enabled && this.priority == priority && jobs == []
    {
      this.name, this.enabled, this.priority, jobs := name, enabled, priority, [];
    }
  }

  ghost predicate DistinctJobs(jobs: seq<Job>) {
    forall i, j | 0 <= i < j < |jobs| :: jobs[i].id != jobs[j].id
  }

  /** A list holds, once each, exactly the jobs of a map that a queue name selects. */
  ghost predicate Lists(jobs: seq<Job>, jobMap: map<string, Job>, queue: Resources.Option<string>) {
    && DistinctJobs(jobs)
    && (forall j | j in jobs :: j.id in jobMap && jobMap[j.id] == j && (queue.Some? ==> j.queue == queue.value))
    && (forall id {:trigger jobMap[id]} | id in jobMap && (queue.Some? ==> jobMap[id].queue == queue.value) ::
      jobMap[id] in jobs)
  }

  ghost predicate Keyed(jobMap: map<string, Job>) {
    forall id {:trigger jobMap[id]} | id in jobMap :: jobMap[id].id == id
  }

  lemma ListsAppend(jobs: seq<Job>, jobMap: map<string, Job>, queue: Resources.Option<string>, job: Job)
    requires Lists(jobs, jobMap, queue) && job.id !in jobMap
    ensures Lists(if queue.Some? && job.queue != queue.value then jobs else jobs + [job], jobMap[job.id := job], queue)
  {
    var m := jobMap[job.id := job];
    assert forall id | id in m && id != job.id :: m[id] == jobMap[id];
    assert forall j | j in jobs :: j.id != job.id;
    assert forall j :: j in jobs + [job] <==> j in jobs || j == job;
  }

  lemma ListsRemove(jobs: seq<Job>, jobMap: map<string, Job>, queue: Resources.Option<string>, id: string, i: nat)
    requires Keyed(jobMap) && Lists(jobs, jobMap, queue) && i < |jobs| && jobs[i].id == id
    ensures Lists(jobs[..i] + jobs[i + 1..], jobMap - {id}, queue)
  {
    var rest, m := jobs[..i] + jobs[i + 1..], jobMap - {id};
    assert forall k | 0 <= k < |rest| :: rest[k] == if k < i then jobs[k] else jobs[k + 1];
    forall j | j in rest
      ensures j in jobs && j.id != id
    {
      var k :| 0 <= k < |rest| && rest[k] == j;
    }
    forall x {:trigger m[x]} | x in m && (queue.Some? ==> m[x].queue == queue.value)
      ensures m[x] in rest
    {
      assert jobMap[x] in jobs;
      var k :| 0 <= k < |jobs| && jobs[k] == jobMap[x];
      assert k != i;
      assert rest[if k < i then k else k - 1] == jobMap[x];
    }
  }

  lemma ListsAbsent(jobs: seq<Job>, jobMap: map<string, Job>, queue: Resources.Option<string>, id: string)
    requires Lists(jobs, jobMap, queue) && forall j | j in jobs :: j.id != id
    ensures Lists(jobs, jobMap - {id}, queue)
  {
  }

  /** One job of this ID is taken out; the others stay, in the same order. */
  ghost predicate CutOut(before: seq<Job>, id: string, after: seq<Job>) {
    exists i :: 0 <= i < |before| && before[i].id == id && after == before[..i] + before[i + 1..]
  }

  datatype Reply = Accepted | Rejected(reason: string)

  class StateStore {
    var jobQueues: map<string, JobQueue>
    var jobMap: map<string, Job>
    var jobList: seq<Job>

    constructor (queues: map<string, JobQueue>)
      requires forall k | k in queues :: queues[k].name == k && queues[k].jobs == []
      ensures Valid() && jobQueues == queues && jobMap == map[]
    {
      jobQueues, jobMap, jobList := queues, map[], [];
    }

    /** The three indexes agree: each job is in the list once and in precisely the one queue it names. */
    ghost predicate Valid()
      reads this, jobQueues.Values
    {
      && (forall k | k in jobQueues :: jobQueues[k].name == k)
      && Keyed(jobMap) && (forall id {:trigger jobMap[id].queue} | id in jobMap :: jobMap[id].queue in jobQueues)
      && Lists(jobList, jobMap, None)
      && (forall k {:trigger Lists(jobQueues[k].jobs, jobMap, Some(k))} | k in jobQueues ::
        Lists(jobQueues[k].jobs, jobMap, Some(k)))
    }

    /** Adds a job; `saved` is whether the database took it. A refusal changes no index. */
    method AddJob(job: Job, now: int, saved: bool) returns (reply: Reply)
      requires Valid()
      requires job.id !in jobMap ==> job.Valid()
      modifies this, jobQueues.Values, job
      ensures Valid() && jobQueues == old(jobQueues)
      ensures reply.Accepted? <==> job.id !in old(jobMap) && job.queue in jobQueues && saved
      ensures jobMap == if reply.Accepted? then old(jobMap)[job.id := job] else old(jobMap)
      ensures jobList == if reply.Accepted? then old(jobList) + [job] else old(jobList)
      ensures forall k | k in jobQueues ::
        jobQueues[k].jobs == old(jobQueues[k].jobs) + if reply.Accepted? && k == job.queue then [job] else []
      ensures reply.Accepted? ==> job.Valid() && job.Rec() == old(job.Rec()).(submitTime := now)
    {
      if job.id in jobMap {
        return Rejected("Job ID conflicted with others");
      }
      if job.queue !in jobQueues {
        return Rejected("Invalid queue name");
      }
      var queue := jobQueues[job.queue];
      job.submitTime := now;
      if !saved {
        return Rejected("Unable to save submitted job");
      }
      IndexJob(queue, job);
      var _ := job.CountTasks();
      return Accepted;
    }

    method IndexJob(queue: JobQueue, job: Job)
      requires Valid() && job.id !in jobMap && job.queue in jobQueues && queue == jobQueues[job.queue]
      modifies this`jobMap, this`jobList, queue
      ensures Valid()
      ensures jobMap == old(jobMap)[job.id := job] && jobList == old(jobList) + [job]
      ensures queue.jobs == old(queue.jobs) + [job]
    {
      forall k | k in jobQueues {
        ListsAppend(jobQueues[k].jobs, jobMap, Some(k), job);
      }
      ListsAppend(jobList, jobMap, None, job);
      queue.jobs := queue.jobs + [job];
      jobMap := jobMap[job.id := job];
      jobList := jobList + [job];
    }

    /** The enabled queues, those of higher priority first. */
    method GetSchedulableQueues() returns (queues: seq<JobQueue>)
      requires Valid()
      ensures forall q | q in queues :: q.enabled && q.name in jobQueues && jobQueues[q.name] == q
      ensures forall k | k in jobQueues && jobQueues[k].enabled :: jobQueues[k] in queues
      ensures forall i, j | 0 <= i < j < |queues| ::
        queues[i].name != queues[j].name && queues[i].priority >= queues[j].priority
    {
      var found: seq<JobQueue> := [];
      var names := jobQueues.Keys;
      while names != {}
        invariant names <= jobQueues.Keys
        invariant forall q | q in found ::
          q.enabled && q.name in jobQueues && jobQueues[q.name] == q && q.name !in names
        invariant forall k | k in jobQueues && k !in names && jobQueues[k].enabled :: jobQueues[k] in found
        invariant NoDuplicates(found)
      {
        var k :| k in names;
        if jobQueues[k].enabled {
          found := found + [jobQueues[k]];
        }
        names := names - {k};
      }
      var ranks := seq(|found|, k requires 0 <= k < |found| => Rank(-found[k].priority, 0, 0));
      ghost var order;
      queues, order := SortItems(found, ranks);
      forall i | 0 <= i < |queues|
        ensures queues[i] in found && order[i].first == -queues[i].priority
      {
        assert Takes(found, ranks, queues[i], order[i]);
      }
      forall i, j | 0 <= i < j < |queues|
        ensures queues[i].name != queues[j].name
      {
        assert queues[i] != queues[j];
      }
    }

    /** The position of a job in a list, or its length. */
    static method Find(jobs: seq<Job>, id: string) returns (i: nat)
      ensures i <= |jobs| && (i < |jobs| ==> jobs[i].id == id)
      ensures i == |jobs| ==> forall j | j in jobs :: j.id != id
    {
      for k := 0 to |jobs|
        invariant forall m | 0 <= m < k :: jobs[m].id != id
      {
        if jobs[k].id == id {
          return k;
        }
      }
      return |jobs|;
    }

    /** Deletes a job from the three indexes, unless it executes or is halted. */
    method DeleteJob(id: string) returns (reply: Reply)
      requires Valid()
      modifies this, jobQueues.Values
      ensures Valid() && jobQueues == old(jobQueues)
      ensures reply.Accepted? <==>
        id in old(jobMap) && old(jobMap)[id].state != JobExecuting && old(jobMap)[id].state != JobHalted
      ensures jobMap == if reply.Accepted? then old(jobMap) - {id} else old(jobMap)
      ensures reply.Rejected? ==>
        jobList == old(jobList) && forall k | k in jobQueues :: jobQueues[k].jobs == old(jobQueues[k].jobs)
      ensures reply.Accepted? ==> CutOut(old(jobList), id, jobList)
      ensures reply.Accepted? ==> forall k | k in jobQueues ::
        if k == old(jobMap)[id].queue
          then CutOut(old(jobQueues[k].jobs), id, jobQueues[k].jobs) else jobQueues[k].jobs == old(jobQueues[k].jobs)
    {
      if id !in jobMap {
        return Rejected("Job not found");
      }
      var job := jobMap[id];
      if job.state == JobExecuting || job.state == JobHalted {
        return Rejected("Cannot delete executing or halted jobs");
      }
      DropJob(job, jobQueues[job.queue]);
      return Accepted;
    }

    method DropJob(job: Job, queue: JobQueue)
      requires Valid() && job.id in jobMap && jobMap[job.id] == job && queue == jobQueues[job.queue]
      modifies this`jobMap, this`jobList, queue
      ensures Valid() && jobMap == old(jobMap) - {job.id}
      ensures CutOut(old(jobList), job.id, jobList) && CutOut(old(queue.jobs), job.id, queue.jobs)
    {
      assert Lists(queue.jobs, jobMap, Some(queue.name)) && job in queue.jobs && job in jobList;
      var i := Find(jobList, job.id);
      var m := Find(queue.jobs, job.id);
      UnindexJob(job.id, i, queue, m);
    }

    method UnindexJob(id: string, i: nat, queue: JobQueue, m: nat)
      requires Valid() && id in jobMap && queue == jobQueues[jobMap[id].queue]
      requires i < |jobList| && jobList[i].id == id && m < |queue.jobs| && queue.jobs[m].id == id
      modifies this`jobMap, this`jobList, queue
      ensures Valid() && jobMap == old(jobMap) - {id}
      ensures jobList == old(jobList[..i] + jobList[i + 1..])
        && queue.jobs == old(queue.jobs[..m] + queue.jobs[m + 1..])
    {
      ListsRemove(jobList, jobMap, None, id, i);
      ListsRemove(queue.jobs, jobMap, Some(queue.name), id, m);
      ListedNowhereElse(id);
      jobMap := jobMap - {id};
      jobList := jobList[..i] + jobList[i + 1..];
      queue.jobs := queue.jobs[..m] + queue.jobs[m + 1..];
    }

    /** Deleting a job leaves the lists of the other queues right. */
    lemma ListedNowhereElse(id: string)
      requires Valid() && id in jobMap
      ensures forall k | k in jobQueues && k != jobMap[id].queue :: Lists(jobQueues[k].jobs, jobMap - {id}, Some(k))
    {
      forall k | k in jobQueues && k != jobMap[id].queue
        ensures Lists(jobQueues[k].jobs, jobMap - {id}, Some(k))
      {
        ListsAbsent(jobQueues[k].jobs, jobMap, Some(k), id);
      }
    }

    /** Sets a job's state outright. */
    method SetJobState(id: string, state: JobState) returns (reply: Reply)
      modifies if id in jobMap then {jobMap[id]} else {}
      ensures reply.Accepted? <==> id in jobMap
      ensures id in jobMap ==> jobMap[id].Rec() == old(jobMap[id].Rec()).(state := state)
      ensures id in jobMap ==> jobMap[id].Valid() == old(jobMap[id].Valid())
    {
      if id !in jobMap {
        return Rejected("Job not found");
      }
      jobMap[id].state := state;
      return Accepted;
    }

    method UpdateJobState(id: string) returns (reply: Reply)
      requires id in jobMap ==> jobMap[id].Valid()
      modifies if id in jobMap then {jobMap[id]} else {}
      ensures reply.Accepted? <==> id in jobMap
      ensures id in jobMap ==> jobMap[id].Valid() && jobMap[id].Rec() == Refreshed(old(jobMap[id].Rec()))
    {
      if id !in jobMap {
        return Rejected("Job not found");
      }
      var _ := jobMap[id].RefreshState();
      return Accepted;
    }

    /** Records a report in its task, and reclassifies the job if the task's state changed, unless an
        executing job learns that a task executes. A report of an existing job must name one of its tasks. */
    method UpdateTaskStatus(report: TaskReport) returns (task: Option<Task>)
      requires var (id, g, t) := ParseTaskId(report.id);
        id in jobMap ==> jobMap[id].Valid() && g >= 0 && t >= 0 && Within(jobMap[id].groups, TaskRef(g, t))
      modifies var id := ParseTaskId(report.id).0; if id in jobMap then {jobMap[id]} else {}
      ensures var (id, g, t) := ParseTaskId(report.id);
        if id in jobMap then
          && task == Some(ReportedTask(TaskAt(old(jobMap[id].groups), TaskRef(g, t)), report))
          && jobMap[id].Rec() == Reported(old(jobMap[id].Rec()), TaskRef(g, t), report) && jobMap[id].Valid()
        else task == None
    {
      var (id, g, t) := ParseTaskId(report.id);
      if id !in jobMap {
        return None;
      }
      var job, ref := jobMap[id], TaskRef(g, t);
      var last := TaskAt(job.groups, ref);
      var changed := last.(state := report.state, progress := report.progress, exitCode := report.exitCode);
      if |changed.error| == 0 {
        changed := changed.(error := report.error);
      } else {
        changed := changed.(error := changed.error + "\n" + report.error);
      }
      RewriteKeepsCount(job.groups, ref, changed);
      job.groups := WithTask(job.groups, ref, changed);
      if last.state != changed.state {
        if changed.state != TaskExecuting || job.state != JobExecuting {
          var _ := UpdateJobState(id);
        }
      }
      return Some(changed);
    }
  }

  /** Rewriting a task does not change how many there are. */
  lemma {:induction false} RewriteKeepsCount(groups: seq<TaskGroup>, ref: TaskRef, task: Task)
    requires Within(groups, ref)
    ensures |AllStates(WithTask(groups, ref, task))| == |AllStates(groups)|
  {
    SameSizes(groups, WithTask(groups, ref, task));
  }

  lemma {:induction false} SameSizes(a: seq<TaskGroup>, b: seq<TaskGroup>)
    requires |a| == |b| && forall g | 0 <= g < |a| :: |a[g].tasks| == |b[g].tasks|
    ensures |AllStates(a)| == |AllStates(b)|
  {
    if a != [] {
      SameSizes(a[..|a| - 1], b[..|b| - 1]);
    }
  }
}
