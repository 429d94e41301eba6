# Light Scheduler: a verified model

Light Scheduler runs jobs made of task groups on a cluster. A server keeps jobs and nodes in memory,
plans which waiting task goes to which node, and leaves messages for the nodes to fetch with their
heartbeats; a service on each node executes tasks and reports on them. A C++ client library carries its
own copy of the cJSON parser and printer.

This project models that behaviour in Dafny and proves what it promises over whole runs.

* **Resources and the ledger** (`Resources`, `Cluster`, `Effects`, `Ledger`, `Runs`). `Cluster` is one state
  machine over jobs, nodes, mailboxes and delivered tasks, with a step for every request; `Effects` says
  field by field what the steps change. In every run from an empty server each node's availability, its
  running tasks, its waiting messages and what was lost add up to what the node offers.
* **Losses and drift** (`Losses`, `Strays`, `Drift`). Resources can be lost, tasks stranded and job
  states left behind their tasks; for each, the steps that do so are characterised exactly, and runs
  without them are proved free of it.
* **Scheduling** (`Scheduling`, `ScheduleOrders`, `ScheduleCycles`, `Commits`, `RunCycles`). A plan is a
  fold over the schedulable tasks. It is maximal, has no priority inversion, and committing it to the
  real nodes is a run of the state machine that ends with the planned availabilities.
* **The server's objects** (`Tasks`, `Jobs`, `StateStores`, `NodeCaches`, `Servers`). Classes with the
  fields and loops of the source; each request is proved to be the corresponding step.
* **Mailboxes** (`Messages`, `NodeCaches`, `ShardRuns`). Sixty-four buckets behave as one flat map for
  every hash, and a node receives exactly the appended messages that were not withdrawn.
* **Locks** (`Locks`). Any number of concurrent requests, with Go's writer-preferring locks, never
  deadlock and never share a lock that one of them holds for writing.
* **The node service** (`NodeAgents`). Merging updates between heartbeats is a fold over their history.
* **JSON** (`JsonStrings`, `JsonScans`, `JsonUnicode`, `JsonNumbers`, `JsonValues`, `JsonTexts`,
  `JsonRoundTrips`, `JsonBounds`, `JsonParsers`, `JsonPrinters`). Every text of JSON is read as what it says,
  and what was printed, in both layouts, as the tree printed: strings and structure always, integers exactly
  where stated. Printing never overruns a buffer. Reading does on some texts: the model says which step leaves
  the buffer or the text, and proves a test on the text under which none does.

## What the steps take for granted

The code needs these conditions of its callers, and `Cluster.Enabled` states them:

* resource quantities are not negative, and cores count in tenths;
* a job ID has no dot; with one, no report reaches the job (`Tasks.ReportReachesItsTask`);
* a new job gives none of its tasks the ID of a task still outstanding from a former job of the same ID;
  `Losses.ReuseKeepsOrder` shows that exactly this is needed, `Losses.ReusedIdMisleads` what happens else;
* a report names a task delivered to a node that is not unknown, and reports it finished once; else the
  credit is given all the same, and the ledger never balances (`Losses.StrayFinishIsCredited`);
* online and offline requests are for nodes that are not unknown; `Losses.UnknownNodeSwitchedOnline` says
  exactly when, at any time after its timeout, an unknown node may return without registering.

The first two make a job that `CreateJob` builds one that the machine accepts, which its contract states.
A cycle needs in addition (`RunCycles.CycleReady`) that schedulable jobs have priorities of at least 0 and
that the sizes of online nodes that scores divide by are positive; the rest of what planning needs holds in
every state of the machine (`RunCycles.ReadyIsPlannable`). Wall-clock times are parameters: a set of names
whose heartbeat has expired, and time stamps of submissions.

Two fields of the machine's state are histories that the server does not keep: the tasks delivered to a
node whose finish has not been reported, and the tasks whose finish was reported but whose resources did
not come back. A finish report ends the first whatever the server does with it.

## Where the code and its comments differ

The model follows the code.

* A comment in `model/node.go` reserves two cores and 4Gi on each node; registration reserves one core,
  2048 MHz and 1024 units of memory.
* A comment in `node/node_main.go` speaks of 5 failed heartbeats; the code gives up at the ninth.
* A heartbeat that cannot be encoded loses the reports it took, although a failed send is said to restore
  them; only a failing post does.
* Only executing and halted jobs are protected from deletion, but placing a task does not change the state
  of its job, and a terminated job may still have running tasks. What such tasks were charged does not
  come back until the node registers again (`Losses.CarelessDeletionLoses`,
  `Losses.TerminatedThenDeletedLoses`; a concrete run is in `Losses.DeletedJobLeaks`).
* A timeout requeues the tasks of executing jobs only, so a task placed for a job that is still queued
  stays scheduled on the lost node (`Strays.QueuedJobStrands`).
* Placing, requeueing, halting and changing the error limit do not reclassify the job; `Drift.Verdict`
  says when its state is wrong afterwards.
* The parser of strings takes for granted that every `u` escape has four hexadecimal digits. It skips four
  characters whatever they are, so with fewer of them in front of the quote the second pass reads on behind
  the quote and can write over the end of the buffer (`JsonScans.ShortEscapeOverruns`).

## Model

| member | source | states |
|---|---|---|
| Resources.Amounts.SatisfiedWith | model/resource.go:58-90 | answers nothing exactly if the offer satisfies the demand, and otherwise names a resource that is really lacking |
| Resources.ResourceSet.Clone | model/resource.go:42-55 | a new object of equal value; later changes to either do not reach the other |
| Resources.ResourceSet.Consume | model/resource.go:93-115 | the receiver takes exactly the value `Consumed` specifies, which the lemmas below characterise; named resources it does not track are ignored |
| Resources.ResourceSet.GiveBack | model/resource.go:118-130 | the receiver takes exactly the value `GivenBack` specifies |
| Resources.ConsumeShrinks | model/resource.go:93-115 | spending a non-negative demand never raises any quantity |
| Resources.RefusalPersists | model/resource.go:58-90 | satisfaction is antitone: what a smaller offer satisfies, the larger one satisfies too, so a refusal stays while offers shrink |
| Resources.SatisfiesMeans | model/resource.go:58-90 | an offer satisfies a demand if and only if it has as much of everything asked for, quantity by quantity; memory and CUDA version of cards count only if cards are asked for, and a named resource must be offered at all |
| Resources.ConsumeExact | model/resource.go:93-115 | no clamp at zero fires for a satisfied demand: every tracked quantity drops by exactly the demand and stays non-negative |
| Resources.GiveBackExact | model/resource.go:118-130 | giving back raises every tracked quantity by exactly the demand |
| Resources.GiveBackUndoesConsume | model/resource.go:93-130 | for all non-negative amounts: giving back undoes spending if and only if the demand fits under the four clamped quantities |
| TaskIds.ParseUndoesTaskId | model/task.go:96-96 | the ID of a task parses back to its job and indices, for every job ID without a dot; with a dot parsing fails |
| TaskIds.TaskIdInjective | model/task.go:96-96 | tasks of different jobs or positions never share an ID, whatever characters the job IDs hold |
| TaskIds.PrefixSelectsJob | message/message.go:27-27 | the textual prefix test accepts a task if and only if the given job ID is a prefix of the ID of the task's job |
| Tasks.TaskResources | model/task.go:115-127 | a task gets its own resources, else its group's, else the default; whatever object is chosen ends up asking for something, the shared default is never written, and a group's object is amended for all its tasks |
| Tasks.DemandMeans | model/task.go:115-127 | what a task ends up asking for, in numbers: its own, else its group's resources, with one core, 2048 MHz and 1024 units of memory where the choice asks for none of the main quantities or there is none |
| Tasks.NewTaskGroup | model/task.go:172-189 | every task of a group is queued, carries the ID of its position, the merged labels, and the demand its specification, its group or the default gives it, although the tasks may share and amend one resource object |
| Tasks.NewTaskGroups | model/job.go:111-113 | the groups of a job, each as specified, with every task numbered by its position |
| Tasks.ReportReachesItsTask | model/task.go:135-143 | looking up the ID in a report reaches the same task of the same job, if the job ID has no dot |
| Tasks.NoIdCollision | model/job.go:111-113 | two tasks of jobs built from specifications have equal IDs if and only if they are the same position of the same job |
| Jobs.Job.constructor | model/job.go:98-115 | a new job is queued, with groups built as specified and numbered |
| Jobs.Job.CountTasks | model/job.go:118-125 | the cached total is the number of tasks of all groups |
| Jobs.Job.Tally | model/job.go:186-202 | one pass over the tasks counts each of the five classes of states |
| Jobs.DecideIsRefresh | model/job.go:204-217 | deciding on counters gives the classification stated by quantifiers over all tasks |
| Jobs.Job.RefreshState | model/job.go:183-226 | the job becomes `Refreshed`, which `RefreshReclassifies` states by its tasks; the answer says whether the state changed |
| Jobs.RefreshReclassifies | model/job.go:183-217 | by the task states themselves: completed if all tasks are; else a halted or terminated job stays so; else, all tasks finished, completed if and only if the job allows errors and the positions failed or aborted are not more, and failed otherwise; else queued if all are, and executing otherwise; the progress is the completed positions times 100 over all positions |
| Jobs.ReportKeepsJobSound | data/state_store.go:335-349 | after any report that changes a task's state, the job's state agrees with the classification of all its tasks (or it is halted or terminated with unfinished work), although one branch skips the recomputation |
| Jobs.ReportHeeded | data/state_store.go:318-349 | a report sets state, progress, exit code and error text of its task as it says, an error text being put behind an earlier one; no other task changes, and the job is reclassified by its tasks or, where it cannot have changed, kept |
| Jobs.SchedulableMeans | model/job.go:150-175 | a queued task may be scheduled if and only if every group its own depends on, the first of its name, if there is one, counts as many completions as it has tasks |
| Jobs.Job.GetSchedulableTasks | model/job.go:150-175 | exactly the queued tasks of the groups none of whose existing dependents is incomplete, each once, in order of position |
| StateStores.StateStore.AddJob | data/state_store.go:239-266 | refuses exactly a known ID, an unknown queue or a failed save, changing no index; else the job is in the map, last in the list and last in the one queue it names, and the three indexes agree |
| StateStores.StateStore.GetSchedulableQueues | data/state_store.go:159-171 | exactly the enabled queues, each once, by falling priority |
| StateStores.StateStore.DeleteJob | data/state_store.go:185-217 | refuses exactly unknown, executing and halted jobs, changing nothing; else the job is cut out of the map, the list and its queue, whose other jobs keep their order, and the three indexes still agree |
| StateStores.StateStore.SetJobState | data/state_store.go:283-297 | sets the state of an existing job and nothing else |
| StateStores.StateStore.UpdateJobState | data/state_store.go:268-281 | an existing job is reclassified |
| StateStores.StateStore.UpdateTaskStatus | data/state_store.go:311-352 | records the report in the task it names, appending its error text, and reclassifies the job only where a state changed and the job cannot already be right |
| StateStores.ListsRemove | data/state_store.go:194-199 | cutting a job out of a list leaves a list that holds, once each, exactly the remaining jobs of the map |
| Messages.TerminationWithdraws | message/message.go:25-30 | a termination withdraws exactly the waiting tasks of the jobs whose ID its job ID prefixes |
| Messages.WithdrawnOneByOne | message/message.go:25-30 | whatever else waits, a message is withdrawn if and only if it starts a task, the new one terminates a job, and the task's ID begins with the ID of that job; the others keep their order |
| Messages.SurvivesExactly | data/node_cache.go:107-165 | a message of a history is delivered or waits if and only if it does not start a task whose ID begins with the ID of a job that a later message terminates before any fetch |
| Messages.TerminationsArrive | data/node_cache.go:107-165 | over any history, the terminations delivered and waiting are all that were appended, in order: no message withdraws one |
| Messages.MailboxDelivers | data/node_cache.go:107-165 | over any history of appends and fetches: what was delivered followed by what waits is the appended sequence in order, minus exactly the messages that a later append withdrew before any fetch |
| Messages.PendingIsCompatible | data/node_cache.go:107-134 | in every reachable mailbox no message would withdraw one that stands before it |
| NodeCaches.ReplaceKeepsIndexed | data/node_cache.go:65-76 | replacing the node of a name keeps map and list in agreement, one node a name |
| NodeCaches.NodeCache.RemoveFromList | data/node_cache.go:69-73 | deleting from the list while ranging over its old header removes exactly the node of the name and never reads a wrong entry |
| NodeCaches.NodeCache.AddNode | data/node_cache.go:65-91 | the node replaces the one of its name in map and list; its mailbox and heartbeat are fresh, all others untouched |
| NodeCaches.NodeCache.Withdraw | data/node_cache.go:117-131 | keeps the compatible messages in order and gives the resources of exactly the withdrawn tasks back to the node |
| NodeCaches.NodeCache.AppendNodeMessage | data/node_cache.go:94-135 | the mailbox of the name loses what the message withdraws, which is nothing if it starts a task, and gains the message at its end; what is withdrawn is credited; no other mailbox, bucket or heartbeat changes |
| NodeCaches.NodeCache.PeriodicUpdate | data/node_cache.go:138-167 | hands over all messages of the name in order and empties its mailbox, remembering the time of the heartbeat if the bucket exists; no other name is affected |
| NodeCaches.NodeCache.CheckTimeoutNodes | data/node_cache.go:170-207 | marks exactly the online nodes with an expired heartbeat unknown and empties exactly their mailboxes, over all 64 buckets |
| ShardRuns.NextAgrees | data/node_cache.go:79-91 | each operation on the sharded maps is the operation on one flat map from names to mailboxes and heartbeats |
| ShardRuns.ShardsAfter | data/node_cache.go:35-40 | for every hash and every sequence of operations on registered names, the shards agree with the flat map on every name |
| ShardRuns.HashDoesNotMatter | data/node_cache.go:78-79 | any two hashes give the same mailboxes and heartbeats |
| ShardRuns.ShardsDeliver | data/node_cache.go:94-167 | what waits in the shards for a node that has not timed out is what its own history since registration leaves, so delivered plus pending is everything appended and not withdrawn |
| ShardRuns.StrayHeartbeat | data/node_cache.go:138-156 | a heartbeat keeps every remembered heartbeat of a registered node if and only if its node is registered or its bucket was never used; otherwise the search for late nodes would look up a missing node |
| Effects.RegisterEffect | server/server_request.go:54-79 | the registered node is online, has exactly the labels and resources given and no taints, and has available what it offers less 10 tenths of a core, 2048 MHz and 1024 units of memory, none below zero; its mailbox is empty and nothing else changes |
| Effects.PlaceEffect | server/schedule_cycle.go:192-201 | a placement sets state and node of its task, appends exactly one message that carries the task to exactly that mailbox, takes what the task asks for off every quantity the node tracks, and changes nothing else |
| Effects.ReportedEffect | server/server_request.go:81-104 | a report changes its task and job as stated for them, a finish adds what the task was charged to every quantity its node tracks, and nothing else changes |
| Effects.TerminateEffect | server/server_request.go:106-139 | a job that is over is left alone; else the job is terminated and its tasks kept, and exactly the nodes with a task of it scheduled, dispatching or executing get the message, lose what it withdraws and are credited |
| Effects.ResumeEffect | server/server_request.go:194-208 | a resumed job is queued and then classified by its tasks; nothing else changes |
| Ledger.RegisterKeeps | server/server_request.go:54-79 | registration keeps the ledger of every node balanced |
| Ledger.PlaceKeeps | server/schedule_cycle.go:192-201 | committing a placement keeps the ledger: the charge equals the message queued |
| Ledger.DeliverKeeps | data/node_cache.go:162-165 | a delivery moves charges from waiting to running and keeps the ledger |
| Ledger.ReportKeeps | server/server_request.go:89-99 | a report of a running task keeps the ledger: a finish ends the task's entry, and its charge either comes back to the node or, if its job is gone, counts as lost |
| Ledger.TerminateKeeps | server/server_request.go:106-139 | terminating a job keeps the ledger: what leaves the mailboxes comes back |
| Ledger.TimeoutKeeps | server/server_request.go:397-439 | a timeout keeps the ledger of every node that is not unknown afterwards |
| Ledger.StepKeeps | server/server_request.go:18-439 | every step of the server keeps the whole invariant: availability, outstanding and lost tasks balance, outstanding tasks are distinct, and their records, where the job still exists, agree with what was charged |
| Runs.LedgerBalances | server/schedule_cycle.go:192-201 | after any run from an empty server, deletions included, on every node that is not unknown: available + running + waiting + lost = what the node offers beyond its reservation, in every quantity |
| Runs.NeverOvercommitted | server/schedule_cycle.go:192-201 | after any run the outstanding tasks of a node are distinct and together never exceed what it offers |
| Runs.DrainedNodeIsWhole | server/server_request.go:91-97 | after any run a known node has its full availability if and only if nothing is outstanding on it and no task of it was lost |
| Runs.ClosedForGood | model/job.go:178-180 | in every reachable state: from the moment a job is halted, completed, failed or terminated, no run without a resumption places any of its tasks or queues a message that starts one |
| Runs.TimeoutRecovers | server/server_request.go:397-439 | after a timeout no unfinished task of an executing job is on a late node; each task moved is queued, unassigned and without progress; late mailboxes are empty and nothing else changed |
| Runs.RunKeepsOnNodes | server/server_request.go:121-136 | in every run, a node on which a job has a task in progress has a mailbox, so a termination always finds where to send |
| Losses.DeletionKeepsCredit | data/state_store.go:185-217 | in every state in order: deleting a job keeps every outstanding task creditable if and only if no outstanding task belongs to it |
| Losses.HostlessOwnsNone | server/server_request.go:121-129 | the test a caller can make before a deletion: while every outstanding task has a record, a job with no task scheduled, dispatching or executing on any node owns nothing outstanding |
| Losses.TestedIsCareful | data/state_store.go:185-217 | a run in which every deleted job passed that test deletes no owner of an outstanding task |
| Losses.CarefulLedgerBalances | data/state_store.go:185-217 | after any run from an empty server in which no deleted job owned an outstanding task: available + running + waiting = what the node offers, nothing being lost |
| Losses.CarelessDeletionLoses | server/server_request.go:167-181 | from every state in order: deleting a job that owns an outstanding task, then fetching and finishing the task, is a possible run that gives nothing back to the node and loses exactly that task |
| Losses.TerminatedThenDeletedLoses | server/server_request.go:106-181 | a job with a running task, terminated and then deleted before the task has reported, loses it |
| Losses.LossLasts | server/server_request.go:89-99 | what a node has lost stays lost through every run in which the node does not register again |
| Losses.DeletedJobLeaks | data/state_store.go:185-217 | a concrete run from an empty server of six requests: at its end one node has nothing outstanding and none of the one core it offers |
| Losses.ReuseKeepsOrder | data/state_store.go:239-266 | a new job keeps the server in order if and only if no task outstanding on a known node bears an ID the new job gives to one of its own |
| Losses.ReusedIdMisleads | server/server_request.go:89-99 | otherwise the finish of the former owner's task completes a task of the new job that was never placed, and its charge is lost |
| Losses.UnknownNodeSwitchedOnline | server/server_request.go:285-297 | switching a node online at any time after its timeout, whatever happened in between except its registration, keeps the server in order if and only if no task waited in its mailbox at the timeout and each task it then ran has now no record or one still in progress there |
| Losses.SwitchedOnlineAtOnce | server/server_request.go:285-297 | right after the timeout that holds if and only if no task waited and none of the running ones was sent back to the queue |
| Losses.SentBackTaskLoses | server/server_request.go:413-433 | the finish of a task sent back, once its node is switched online again, is credited to no node and its charge is lost |
| Losses.StrayFinishIsCredited | server/server_request.go:91-97 | a finish report of a task recorded on a known node is credited whether the task runs there or not: the ledger balances afterwards if and only if it does |
| Losses.StrayFinishUnbalances | server/server_request.go:91-97 | so a finish report of a recorded task that does not run on its node, a second report for one, never leaves the ledger balanced |
| Strays.StepHolds | server/server_request.go:54-439 | while every task in progress is outstanding on the node its record names, a step leaves it so if and only if it is not a registration of a node that hosts tasks, a termination that withdraws tasks with a record, or a timeout of a node that hosts tasks of a job not executing |
| Strays.RecordsAgree | server/schedule_cycle.go:183-201 | after any run from an empty server without such a step: an ID with a record is outstanding on a known node if and only if its record is in progress on that node |
| Strays.HostsNothingOwnsNothing | server/server_request.go:121-129 | while records and outstanding tasks agree both ways, the test before a deletion is exact: a job hosts nothing if and only if it owns nothing outstanding |
| Strays.QueuedJobStrands | server/server_request.go:404-433 | a task placed for a queued job whose node times out stays scheduled there, with its message gone |
| Drift.StepVerdict | server/server_request.go:18-439 | from every state: a job's state is what its tasks say after a step if and only if the verdict for that step says so, request by request |
| Drift.RunVerdict | server/server_request.go:18-439 | over every run: a job's state is what its tasks say if and only if the verdicts of the run, one after the other, end that way |
| Scheduling.AcceptedScoresPositive | server/schedule_cycle.go:70-85 | a node that accepts a task always scores above zero, so the search from zero finds it |
| Scheduling.ScoreWeighs | server/schedule_cycle.go:74-85 | the score by its parts, each without division: three times the free share of cores, or of frequency if no cores are asked for, by minimum frequency over 2400; the free share of memory; and for cards five times their free share by their memory over 8 |
| Scheduling.ScoreGrows | server/schedule_cycle.go:74-85 | between nodes of the same sizes, a richer one never scores less, and more with more memory free, with more cores free or a higher minimum frequency if cores are asked for (more frequency free if not), and with more cards free or more memory on them if cards are asked for |
| Scheduling.BestIsHeaviest | server/schedule_cycle.go:86-90 | no accepting node weighs more by those parts than the best, and none before it as much; each has just one weight |
| Scheduling.Best | server/schedule_cycle.go:36-90 | nothing exactly if every node refuses; otherwise the first node of greatest score among those that accept |
| Scheduling.BestUnique | server/schedule_cycle.go:86-90 | there is only one such node |
| Scheduling.PlanShrinks | server/schedule_cycle.go:149-158 | over a plan, availabilities only shrink |
| Scheduling.LeftOutIsRefused | server/schedule_cycle.go:149-158 | maximality without priority inversion: a task left out is refused by every node when it is considered, at every later moment of the plan, and at its end |
| Scheduling.RowsFollowCandidates | server/schedule_cycle.go:150-157 | the rows of a plan are the tasks not left out, in the order considered |
| Scheduling.ReplayReproducesPlan | server/schedule_cycle.go:192-195 | charging the rows one by one, whoever chose them, ends with the planned availabilities, and every row fits when it is charged |
| Scheduling.PlanConserves | server/schedule_cycle.go:156-156 | on every node, what it offered is what remains plus what is placed there, in every quantity: no clamp fires during a plan |
| Commits.CommitIsARun | server/schedule_cycle.go:192-201 | committing a fitting table is a run of the state machine in which every placement meets its conditions |
| Commits.PlanCommits | server/schedule_cycle.go:183-201 | plan and commit agree: every plan made on copies can be committed row by row to the nodes copied, ending with exactly the planned availabilities |
| Commits.NewNodeTakes | server/schedule_cycle.go:41-68 | as far as labels and taints go, a node that has just registered takes a task if and only if the task's labels are among those it registered with |
| ScheduleOrders.DrainEnds | server/schedule_cycle.go:133-162 | the loop over priorities ends if and only if no schedulable job has a negative priority |
| Sorting.SortItems | model/queue.go:84-86 | a rearrangement by rank: same elements, each as often, ranks never falling |
| ScheduleCycles.LabelsMatch | server/schedule_cycle.go:41-54 | whether the node has every label the task asks for, with its value |
| ScheduleCycles.TaintsClear | server/schedule_cycle.go:55-68 | whether the node has none of the task's taints with its value |
| ScheduleCycles.ScoreNode | server/schedule_cycle.go:69-95 | a score exactly if the node accepts the task, and then the score defined for it |
| ScheduleCycles.ScheduleOneTask | server/schedule_cycle.go:35-101 | returns the first of the accepting nodes with the greatest score, also by the parts of scores (`Heaviest`), or none if all refuse, and changes no availability |
| ScheduleCycles.ConsiderTask | server/schedule_cycle.go:150-158 | extends the table and the private copies exactly as the plan does; other copies are not touched |
| ScheduleCycles.GetSchedulableJobs | model/queue.go:72-88 | the schedulable jobs of a queue, each in the class of its priority, classes ordered by submission and number of tasks |
| ScheduleCycles.MaxPriority | server/schedule_cycle.go:135-140 | the greatest priority of the classes left, the search starting from 0 |
| ScheduleCycles.ScheduleQueue | server/schedule_cycle.go:132-162 | considers every schedulable task of the queue once, in order, planning each |
| ScheduleCycles.OnlineNodes | server/schedule_cycle.go:113-119 | fresh copies of exactly the online nodes, in order, sharing nothing with them |
| ScheduleCycles.ScheduleCycle | server/schedule_cycle.go:104-165 | plans on fresh copies and changes nothing that existed; the table is that of the plan for all schedulable tasks of all enabled queues, in order, from the nodes' availabilities |
| ScheduleCycles.CycleIsMaximal | server/schedule_cycle.go:126-164 | every task considered has a row in the table or is refused by what remains on every node |
| ScheduleCycles.TableInOrder | server/schedule_cycle.go:126-164 | no task has two rows, and rows follow queue priority, job priority, submission time, number of tasks and, inside a job, GPU cards |
| ScheduleCycles.ConsideredExactly | server/schedule_cycle.go:126-164 | a cycle considers, each with its own labels, taints and demand, exactly the queued tasks of queued and executing jobs in enabled queues whose groups wait for no incomplete group |
| Servers.Server.CreateJob | server/server_request.go:18-52 | a job with the defaults filled in is stored as the state machine's creation does and a cycle asked for, or refused for the store's reasons with no effect; stored, it meets the conditions of that step if its ID has no dot and is not claimed by an outstanding task and its specification asks for nothing negative |
| Servers.BuiltIsSubmitted | model/task.go:115-189 | every job built from a specification without negative amounts asks for something in every task, is queued and unassigned, and so may enter the machine |
| Servers.Server.DeleteJob | server/server_request.go:167-181 | deletes exactly a job that neither executes nor is halted, and leaves the rest of the state as it was |
| Servers.Server.HaltJob | server/server_request.go:183-192 | the objects afterwards show the halted job and are otherwise as before |
| Servers.Server.ResumeJob | server/server_request.go:194-208 | the objects afterwards show the job queued and reclassified |
| Servers.Server.ModifyJob | server/server_request.go:210-234 | changes exactly the given priority and error limit of an existing job |
| Servers.Server.RegisterNode | server/server_request.go:54-79 | a named node replaces its predecessor; the object stored is online, with the labels and resources given, no taints and the reservation taken off its availability (`IsNew`); its mailbox is empty, everything else is unchanged and a cycle is asked for; a node without a name is refused |
| Servers.Server.SwitchNode | server/server_request.go:285-315 | changes the state of an existing node only, and asks for a cycle if and only if the node exists |
| Servers.Server.Heartbeat | data/node_cache.go:138-167 | hands a registered node exactly the messages waiting for it, once |
| Servers.Server.UpdateTasks | server/server_request.go:81-104 | applying a batch of reports is the fold of single reports over the state, and a new cycle is asked for if and only if one of them says that a task of an existing job is completed, failed, aborted or terminated |
| Servers.Server.HostNames | server/server_request.go:121-129 | exactly the nodes on which the job has a task scheduled, dispatching or executing |
| Servers.Server.TerminateJob | server/server_request.go:106-139 | the objects afterwards show the job terminated, and every node that hosts it told and credited, in any order of the nodes; a job that is over is left alone |
| Servers.Server.RequeueJob | server/server_request.go:413-433 | exactly the unfinished tasks of an executing job that are on late nodes go back to the queue, and the answer says whether any did |
| Servers.Server.CheckNodes | server/server_request.go:397-439 | the late nodes are exactly the online ones with a remembered heartbeat that has expired, the objects afterwards show the timeout of exactly those, and a new cycle is asked for if and only if a task went back to the queue |
| Servers.Server.CommitRecord | server/schedule_cycle.go:192-201 | assigning the task, charging the node and queueing the message is one placement of the machine |
| RunCycles.CommitTable | server/schedule_cycle.go:190-201 | committing a planned table runs exactly its placements on the real objects |
| RunCycles.ReadyIsPlannable | server/schedule_cycle.go:104-165 | in every state of the machine, all that planning needs follows from priorities of at least 0 and node sizes that scores can divide by |
| RunCycles.RunScheduleCycle | server/schedule_cycle.go:167-208 | a cycle on the real objects plans on copies of all online nodes and is a run of placements of the planned tasks on the planned nodes that ends with every real availability as planned |
| RunCycles.CycleSettles | server/schedule_cycle.go:126-201 | after a cycle every task it considered has been placed, or every online node, as it now really is, refuses it |
| RunCycles.PlacementsSuit | server/schedule_cycle.go:40-68 | the node of every placement of a cycle is online, has every label of the task itself and none of its taints |
| Locks.RequestsAreDisciplined | server/server_request.go:82-85 | every request takes the state lock before the nodes lock before one bucket lock at a time, and releases all |
| Locks.NoDeadlock | server/server_request.go:398-401 | for any number of threads, in any state: if some request is unfinished, some request can go on, with readers that wait behind announced writers |
| Locks.StepsEnd | server/schedule_cycle.go:175-179 | every step leaves less lock work, so with the absence of deadlock every run of the present requests ends |
| Locks.StepKeepsExclusive | data/node_cache.go:79-80 | no step lets a writer share its lock, or two writers wait announced for one lock |
| Locks.ServerNeverDeadlocks | server/server_request.go:81-136 | over all arrivals and interleavings of requests: never a deadlock, and never two holders of one lock unless both read |
| Locks.WriterIsNext | server/server_request.go:82-85 | while a writer waits for a lock no other request takes that lock |
| Locks.ReadersShare | server/server_request.go:82-85 | a reader goes on if and only if no other request writes under the lock or waits to |
| Locks.BucketsAreGuarded | server/server_request.go:397-401 | terminations, checks of nodes and cycles touch a bucket only while they write under both the state and the nodes lock |
| Locks.ChangesAreSerial | server/server_request.go:81-136 | over all arrivals and interleavings: requests that change jobs come one after the other, and no jobs are read while one is under way |
| NodeAgents.NodeServer.HandleUpdate | node/node_main.go:182-213 | merging one update into payload and executing set is the step that the fold theorems speak about, branch by branch |
| NodeAgents.NodeServer.TakePayload | node/heartbeat.go:23-29 | takes every waiting report once and leaves none |
| NodeAgents.NodeServer.RestorePayload | node/heartbeat.go:46-48 | files the reports under their tasks again |
| NodeAgents.NodeServer.SendHeartbeat | node/heartbeat.go:19-69 | a send that fails leaves the payload map as it was; a reply takes it, and so does a heartbeat that cannot be encoded; a reply kills as its messages say |
| NodeAgents.NodeServer.RunServerMessages | node/heartbeat.go:71-93 | starts exactly the tasks sent, in order, and marks exactly the executing tasks of ended jobs whose process could be killed |
| NodeAgents.NodeServer.OnTimer | node/node_main.go:214-255 | the state, the error counter, the payload and the executing set after each outcome of a registration or heartbeat; the counter never exceeds 8 |
| NodeAgents.PayloadIsFold | node/node_main.go:184-209 | over any history: a task's waiting report holds the last state recorded since the payload was emptied (a failure after a kill counting as termination), the last progress, the exit code that came with that state, and all error texts in order joined by semicolons |
| NodeAgents.ExecutingExactly | node/node_main.go:205-213 | over any history: a task is among those executing if and only if its last update since the node last gave up said so |
| NodeAgents.KilledExactly | node/heartbeat.go:80-91 | over any history: an executing task is marked killed if and only if a reply ended its job during this execution and its process could be killed |
| NodeAgents.FailureAfterEnd | node/node_main.go:205-210 | what a node reports of an update is the state it says, but terminated if and only if the task failed after a reply had ended its job during this execution |
| NodeAgents.EndsItsJob | node/heartbeat.go:80-91 | a reply ends exactly the tasks of the jobs whose ID begins with the one in a message |
| NodeAgents.StartedOneByOne | node/heartbeat.go:71-79 | whatever else a reply holds, each task in it is started, in its place, and nothing else |
| NodeAgents.TickEffect | node/node_main.go:214-255 | each tick over any history: only an unknown node registers; a reply ends the failures in a row, one that says not found makes the node unknown with the counter at 0, and so does a failure after 8 others |
| NodeAgents.NinthFailureGivesUp | node/node_main.go:229-248 | a node stays online through 8 failed heartbeats in a row and gives up at the ninth, whatever the failures |
| JsonStrings.EscapedLength | client/liblightsched/json/cJSON.c:332-340 | the length computed in the first pass is the length of the escaped text |
| JsonStrings.PrintString | client/liblightsched/json/cJSON.c:323-388 | the second pass fills a buffer of exactly the size computed by the first, quotes and final zero included, with the escaped text |
| JsonScans.SurrogatesJoinRight | client/liblightsched/json/cJSON.c:279-279 | joining a surrogate pair by setting bit 16 gives the code point of UTF-16 if and only if that bit is clear |
| JsonScans.DecodedFits | client/liblightsched/json/cJSON.c:230-314 | what one character decodes to is paid for by what the first pass counts for it, whatever is behind it, as long as the first pass has not stopped inside the character and four bytes for one escape come with no backslash inside it |
| JsonScans.BehindFits | client/liblightsched/json/cJSON.c:230-314 | a reading in which the second pass never passes the place where the first one stopped stays in the buffer and in the text, by induction over the text |
| JsonScans.TameReads | client/liblightsched/json/cJSON.c:230-314 | a test on the text: with four characters behind every backslash and `u`, none of them a quote or a backslash, and no backslash at the end, every string is read inside its buffer and inside the text, whatever lies in memory |
| JsonScans.ContinuationsAreSafe | client/liblightsched/json/cJSON.c:230-314 | for every text that the second pass has read without meeting its quote: every plain continuation of the string fits the buffer counted for it if and only if the first pass has not stopped in that text |
| JsonScans.ShortEscapeOverruns | client/liblightsched/json/cJSON.c:251-255 | a text where the two passes fall out of step: an escape of one digit in front of the quote makes the second pass write seven bytes and a zero where the first counted two |
| JsonBounds.TameParses | client/liblightsched/json/cJSON.c:413-478 | parsing a text that meets that test never leaves the text or a buffer, at any depth: it gives a value and a rest that meets the test, or a fault in the text |
| JsonScans.WriteUtf8 | client/liblightsched/json/cJSON.c:282-305 | writing a value backwards leaves its bytes, UTF-8 for a code point, and keeps what stands before them |
| JsonScans.CountString | client/liblightsched/json/cJSON.c:230-236 | the loop of the first pass counts one byte for each character or pair behind a backslash up to the quote, or finds that it leaves the text |
| JsonScans.UnescapeInto | client/liblightsched/json/cJSON.c:238-314 | the loop of the second pass leaves in the buffer exactly the bytes specified and a zero, or stops where its next write or step would leave the buffer or the text, which it names |
| JsonScans.ParseString | client/liblightsched/json/cJSON.c:217-319 | both passes together give the value and the place the specification does for every text, malformed escapes read as the code reads them, or name the step that leaves the buffer or the text |
| JsonScans.QuotedParses | client/liblightsched/json/cJSON.c:217-388 | reading an escaped string gives back the string and leaves exactly what follows it, whatever lies in memory |
| JsonUnicode.CodeBytesDecode | client/liblightsched/json/cJSON.c:282-305 | the bytes written for a code point decode to it by the ranges of UTF-8, in the shortest form |
| JsonUnicode.OneForm | client/liblightsched/json/cJSON.c:282-305 | those bytes are the only ones that do, and below 0x80 they are the one character |
| JsonUnicode.StringReads | client/liblightsched/json/cJSON.c:217-319 | every well-formed string, its characters plain, behind a backslash, or as codes of four hexadecimal digits in either case, is read whole and is the UTF-8 of its code points, except that a code of zero or the second half of a pair on its own is read as nothing, and a pair with bit 6 set in its first half as a code point 0x10000 too low |
| JsonNumbers.PrintInt | client/liblightsched/json/cJSON.c:182-212 | the decimal text of the number shown, in a buffer of 22 bytes that is never overrun |
| JsonNumbers.ParseNumber | client/liblightsched/json/cJSON.c:117-164 | reads sign, digits, fraction and exponent from a position as specified; an integer gets a 64-bit value where every platform counts it exactly |
| JsonNumbers.NumeralReads | client/liblightsched/json/cJSON.c:117-164 | every numeral, with or without fraction and exponent, is read whole: digits by place times the power of ten that the exponent and the length of the fraction give, or an integer if there is neither |
| JsonNumbers.IntegerSurvives | client/liblightsched/json/cJSON.c:117-212 | an integer below a bound, from 2 to the 53rd on, below which a long double is exact comes back if and only if it is not negative or marked as signed; where the bound is 2 to the 63rd an integer of any size does if and only if the number shown is below it; a negative integer not marked as signed is shown too large for the field |
| JsonRoundTrips.ValueParses | client/liblightsched/json/cJSON.c:439-784 | reading any printed tree inside a larger text, at any depth and in both layouts, consumes exactly the printed text |
| JsonRoundTrips.RoundTrip | client/liblightsched/json/cJSON.c:413-436 | for every printable tree and both layouts, whatever lies in memory: reading what was printed consumes it all; if its integers are below a bound below which a long double is exact (2 to the 53rd on every platform), the same tree comes back up to sign flags if and only if its negative integers are marked as signed; where the bound is 2 to the 63rd it comes back if and only if, besides, all integers are below it |
| JsonRoundTrips.PrintIsText | client/liblightsched/json/cJSON.c:481-514 | no printed text holds a zero byte, so lengths and copies of it are right |
| JsonParsers.ParseValue | client/liblightsched/json/cJSON.c:439-478 | the parser that moves through the text returns what the grammar defines, and the position behind it, or names where it would leave the text or a buffer |
| JsonParsers.ParseArray | client/liblightsched/json/cJSON.c:517-555 | arrays, with the loop over items, as the grammar defines |
| JsonParsers.ParseObject | client/liblightsched/json/cJSON.c:628-686 | objects, with the loop over members, as the grammar defines |
| JsonParsers.Parse | client/liblightsched/json/cJSON.c:413-426 | the value at the start of the text after white space, or why there is none; what follows is ignored |
| JsonTexts.TextReads | client/liblightsched/json/cJSON.c:439-686 | every text of JSON, with white space wherever it may stand and strings and numbers however spelled, is read whole, at any depth, and the tree says what the text says |
| JsonPrinters.ItemsFit | client/liblightsched/json/cJSON.c:562-585 | the size reserved for the items of an array is enough for them and their separators |
| JsonPrinters.MembersFit | client/liblightsched/json/cJSON.c:693-726 | the size reserved for the members of an object is enough for names, values, separators and layout |
| JsonPrinters.ComposeItems | client/liblightsched/json/cJSON.c:605-624 | copying the items into a buffer of the computed size stays inside it and composes the array's text |
| JsonPrinters.ComposeMembers | client/liblightsched/json/cJSON.c:750-783 | copying the members into a buffer of the computed size stays inside it and composes the object's text, at any depth |
| JsonPrinters.PrintValue | client/liblightsched/json/cJSON.c:481-514 | the buffers end up holding exactly the text that reading is proved to undo |

## Left out

What the repository does that the model does not:

* Tasks and task groups are values inside their job, addressed by position, where the source keeps
  pointers; a message carries the task as a value, so JSON encoding of messages is not modelled. Resource
  sets, jobs, queues, nodes and the caches are objects.
* The buckets of a cache are a sequence of values that its methods replace, not objects with locks;
  `Locks` models the locks on their own.
* Names, commands, environments, working directories and addresses of jobs, tasks and nodes, and changes to
  the name, labels or taints of a job.
* Rounding of `float32` scores and core counts: scores are reals and cores are integer tenths.
* Starting, finishing and registration times, logging, HTTP, the configuration, the job directories and the
  database. Only a failed save of a submission changes what the server does, and is a parameter.
* Loading from the database: it does not refill the queues, so runs start from an empty store.
* Sorting is specified by its result; the comparison of tasks is `>=` and so not a strict order, and sort
  stability is not claimed.
* Listing jobs for display (`QueryJobs` and its sort orders) and the other requests that only read.
* Starting processes and probing the machine; the updates they send are inputs of the node service.
* Progress of dependent groups: nothing in the code completes a group, so no liveness is claimed.
* Parsing of resource specifications with units.
* Printing of fractions, the editing functions of cJSON, and failing allocations. A tree is a value; the
  links between its cells are not modelled.

Contracts stated weaker than the source, or under its conditions:

- Resources.Amounts.SatisfiedWith: the order in which several lacking named resources are found is that of a map and stays open.
- Jobs.Job.RefreshState: the progress percentage is computed without the rounding of single precision, and no execution or finish time is recorded.
- NodeCaches.NodeCache.AppendNodeMessage: needs the bucket of the name to exist, as writing to a map never made fails in the source; registration makes it.
- NodeCaches.NodeCache.CheckTimeoutNodes: needs every remembered heartbeat to be of a registered node, as the source looks the node up unchecked; ShardRuns.StrayHeartbeat says when that holds.
- NodeCaches.NodeCache.PeriodicUpdate: the load figures of a heartbeat are not stored; the answer `found` says only that the bucket exists, as in the source.
- Servers.Server.TerminateJob: needs the nodes of tasks in progress to be registered, which Runs.RunKeepsOnNodes proves for every run.
- Servers.Server.ResumeJob: needs the job to exist, as the source uses it unchecked; Servers.Server.TerminateJob likewise.
- Servers.Server.UpdateTasks: a report of an existing job must name one of its tasks, as the source indexes unchecked.
- StateStores.StateStore.UpdateTaskStatus: the same condition, and no start or finish time is recorded.
- Servers.Server.ModifyJob: changes of name, labels and taints are not modelled, as nothing else modelled reads them.
- ScheduleCycles.ScheduleCycle: needs tasks that ask for something and availabilities that are not negative, which the source does not test; RunCycles.ReadyIsPlannable proves both for every state of the machine, and RunCycles.RunScheduleCycle does not ask for them.
- JsonScans.ParseString: names the step that would leave the buffer or the text, and nothing after it, for what the source then does is not defined. Where no hexadecimal number stands in an escape, or a sign or white space does, the value is arbitrary (`Memory`), as the variable read into may hold anything. A failing allocation is not modelled.
- JsonScans.BehindFits: the condition is sufficient and not necessary, for the second pass may pass the place where the first one stopped and still find room; JsonScans.ContinuationsAreSafe says exactly when that room is certain.
- JsonUnicode.StringReads: the first half of a surrogate pair without a second is not among the spellings; what such a text is read as is stated by JsonScans.ParseString only.
- JsonNumbers.ParseNumber: an integer of 2 to the 53rd or more is given as its digits, for the source counts in a long double whose precision depends on the platform; a fraction is given as digits and a power of ten, without rounding and without overflow of the exponent.
- JsonNumbers.IntegerSurvives: where a long double is exact only below a smaller bound than 2 to the 63rd, nothing is said of integers from that bound on, of which some survive rounding and some do not.
- JsonRoundTrips.RoundTrip: the same integers; and the items of an array have no names after reading, as names are printed for members of objects only.
- Locks.NoDeadlock: a panic while a lock is held is not modelled.
