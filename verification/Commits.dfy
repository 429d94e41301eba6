/** Committing a plan to the real nodes: it is a run of placements of the server's state machine. */
module Commits {
  import opened Resources
  import opened TaskIds
  import opened Tasks
  import opened Jobs
  import opened Messages
  import opened NodeCaches
  import opened Cluster
  import opened Ledger
  import opened Effects
  import opened Runs
  import opened Scheduling

  lemma {:induction false} RunAppend(s: State, steps: seq<Step>, step: Step)
    requires Possible(s, steps) && Enabled(After(s, steps), step) && Shape(Next(After(s, steps), step))
    ensures Possible(s, steps + [step])
    ensures After(s, steps + [step]) == Next(After(s, steps), step)
    decreases |steps|
  {
    var all := steps + [step];
    if steps == [] {
      assert all[1..] == [];
    } else {
      assert all[1..] == steps[1..] + [step];
      RunAppend(Next(s, steps[0]), steps[1..], step);
    }
  }

  /** The planner's offers are copies of distinct online nodes. */
  ghost predicate Copies(offers: seq<Offer>, s: State) {
    && (forall i | 0 <= i < |offers| :: CopyOf(offers[i], s))
    && (forall i, j | 0 <= i < j < |offers| :: offers[i].name != offers[j].name)
  }

  ghost predicate CopyOf(o: Offer, s: State) {
    && o.name in s.nodes && s.nodes[o.name].state == NodeOnline
    && var node := s.nodes[o.name];
       node.labels == o.labels && node.taints == o.taints && node.resources == o.total && node.available == o.available
  }

  /** A node that has just registered takes a task as far as labels go exactly if they are among those it
      registered with. */
  lemma NewNodeTakes(s: State, name: string, labels: map<string, string>, resources: Amounts, o: Offer, c: Candidate)
    requires Shape(s) && Enabled(s, Register(name, labels, resources))
    requires CopyOf(o, Next(s, Register(name, labels, resources))) && o.name == name
    ensures LabelsPass(c, o) <==> forall k | k in c.labels :: k in labels && labels[k] == c.labels[k]
    ensures TaintsPass(c, o)
  {
    RegisterEffect(s, name, labels, resources);
  }

  /** The task waits in a schedulable job and is as the candidate says. */
  ghost predicate Waits(c: Candidate, s: State) {
    && c.job in s.jobs && IsSchedulable(s.jobs[c.job].state) && Within(s.jobs[c.job].groups, c.ref)
    && var task := TaskAt(s.jobs[c.job].groups, c.ref);
       task.state == TaskQueued && task.labels == c.labels && task.taints == c.taints && task.resources == c.demand
  }

  predicate SameTask(a: Candidate, b: Candidate) {
    a.job == b.job && a.ref == b.ref
  }

  /** No task has two rows, and from row `n` on all tasks still wait. */
  ghost predicate Pending(rows: seq<Row>, n: nat, s: State) {
    && (forall i, j | 0 <= i < j < |rows| :: !SameTask(rows[i].candidate, rows[j].candidate))
    && (forall m | n <= m < |rows| :: Waits(rows[m].candidate, s))
  }

  ghost predicate Targets(rows: seq<Row>, offers: seq<Offer>) {
    forall m | 0 <= m < |rows| :: rows[m].node < |offers|
  }

  function StepOf(row: Row, offers: seq<Offer>): Step
    requires row.node < |offers|
  {
    Place(offers[row.node].name, row.candidate.job, row.candidate.ref)
  }

  function StepsOf(rows: seq<Row>, offers: seq<Offer>, n: nat): seq<Step>
    requires Targets(rows, offers) && n <= |rows|
  {
    if n == 0 then [] else StepsOf(rows, offers, n - 1) + [StepOf(rows[n - 1], offers)]
  }

  /** One placement leaves the other candidates waiting and the other copies right. */
  lemma PlaceRow(s: State, row: Row, offers: seq<Offer>)
    requires Inv(s) && row.node < |offers| && Copies(offers, s) && Waits(row.candidate, s)
    requires Accepts(offers[row.node], row.candidate)
    ensures Enabled(s, StepOf(row, offers))
    ensures var s' := Next(s, StepOf(row, offers));
      && Inv(s')
      && Copies(offers[row.node := Spend(offers[row.node], row.candidate.demand)], s')
      && forall other | Waits(other, s) && !SameTask(other, row.candidate) :: Waits(other, s')
  {
    assert CopyOf(offers[row.node], s);
    var step := StepOf(row, offers);
    PlaceKeeps(s, step.name, step.id, step.ref);
    PlacedCopies(s, Next(s, step), row, offers);
  }

  lemma PlacedCopies(s: State, s': State, row: Row, offers: seq<Offer>)
    requires Shape(s) && row.node < |offers| && Copies(offers, s) && Waits(row.candidate, s)
    requires Shape(s') && s' == Placed(s, offers[row.node].name, row.candidate.job, row.candidate.ref)
    ensures Copies(offers[row.node := Spend(offers[row.node], row.candidate.demand)], s')
    ensures forall other | Waits(other, s) && !SameTask(other, row.candidate) :: Waits(other, s')
  {
    var after := offers[row.node := Spend(offers[row.node], row.candidate.demand)];
    forall i | 0 <= i < |after|
      ensures CopyOf(after[i], s')
    {
      assert CopyOf(offers[i], s) && CopyOf(offers[row.node], s);
    }
  }

  lemma ReplayNext(rows: seq<Row>, offers: seq<Offer>, n: nat)
    requires Targets(rows, offers) && n < |rows|
    ensures var copies, row := Replay(rows[..n], offers), rows[n];
      Replay(rows[..n + 1], offers) == copies[row.node := Spend(copies[row.node], row.candidate.demand)]
  {
    assert rows[..n + 1][..n] == rows[..n];
  }

  /** What a run has committed so far. */
  ghost predicate Committed(s: State, rows: seq<Row>, offers: seq<Offer>, n: nat)
    requires Targets(rows, offers) && n <= |rows|
  {
    Inv(s) && Copies(Replay(rows[..n], offers), s) && Pending(rows, n, s)
  }

  /** These steps are possible and have committed the rows before `n`. */
  ghost predicate CommittedBy(s: State, steps: seq<Step>, rows: seq<Row>, offers: seq<Offer>, n: nat)
    requires Targets(rows, offers) && n <= |rows|
  {
    Possible(s, steps) && Committed(After(s, steps), rows, offers, n)
  }

  /** Commits row `n` after the rows before it. */
  lemma CommitRow(s: State, rows: seq<Row>, offers: seq<Offer>, n: nat, step: Step)
    requires Targets(rows, offers) && Fits(rows, offers) && n < |rows| && Committed(s, rows, offers, n)
    requires step == StepOf(rows[n], offers)
    ensures Enabled(s, step) && Committed(Next(s, step), rows, offers, n + 1)
  {
    var copies, row := Replay(rows[..n], offers), rows[n];
    ReplayNames(rows[..n], offers, row.node);
    assert step == StepOf(row, copies);
    assert Accepts(copies[row.node], row.candidate);
    PlaceRow(s, row, copies);
    ReplayNext(rows, offers, n);
    var s' := Next(s, step);
    forall m | n + 1 <= m < |rows|
      ensures Waits(rows[m].candidate, s')
    {
      assert !SameTask(row.candidate, rows[m].candidate);
    }
  }

  lemma CommitNext(s: State, steps: seq<Step>, longer: seq<Step>, rows: seq<Row>, offers: seq<Offer>, n: nat)
    requires Targets(rows, offers) && Fits(rows, offers) && n < |rows|
    requires CommittedBy(s, steps, rows, offers, n) && longer == steps + [StepOf(rows[n], offers)]
    ensures CommittedBy(s, longer, rows, offers, n + 1)
  {
    var step := StepOf(rows[n], offers);
    CommitRow(After(s, steps), rows, offers, n, step);
    RunAppend(s, steps, step);
  }

  lemma CommitStart(s: State, steps: seq<Step>, rows: seq<Row>, offers: seq<Offer>)
    requires Inv(s) && Copies(offers, s) && Targets(rows, offers) && Pending(rows, 0, s) && steps == []
    ensures CommittedBy(s, steps, rows, offers, 0)
  {
    assert rows[..0] == [];
  }

  /** Committing the rows of a table that fits is a run of the server, in which every placement meets
      its conditions; at the end every real availability is the planner's final copy. */
  lemma {:induction false} CommitIsARun(s: State, rows: seq<Row>, offers: seq<Offer>, n: nat, steps: seq<Step>)
    requires Inv(s) && Copies(offers, s) && Targets(rows, offers) && Fits(rows, offers) && Pending(rows, 0, s)
    requires n <= |rows| && steps == StepsOf(rows, offers, n)
    ensures CommittedBy(s, steps, rows, offers, n)
  {
    if n == 0 {
      CommitStart(s, steps, rows, offers);
    } else {
      var fewer := StepsOf(rows, offers, n - 1);
      CommitIsARun(s, rows, offers, n - 1, fewer);
      CommitNext(s, fewer, steps, rows, offers, n - 1);
    }
  }

  lemma {:induction false} ReplayNames(rows: seq<Row>, offers: seq<Offer>, i: nat)
    requires Targets(rows, offers) && i < |offers|
    ensures Replay(rows, offers)[i].name == offers[i].name
  {
    if rows != [] {
      ReplayNames(rows[..|rows| - 1], offers, i);
    }
  }

  /** Every candidate waits, each for another task. */
  ghost predicate AllWait(cs: seq<Candidate>, s: State) {
    && (forall k | 0 <= k < |cs| :: Waits(cs[k], s))
    && (forall k, l | 0 <= k < l < |cs| :: !SameTask(cs[k], cs[l]))
  }

  /** The rows of a plan are for waiting tasks, each for another. */
  lemma PlannedRowsWait(s: State, cs: seq<Candidate>, offers: seq<Offer>)
    requires AllAsk(cs) && AllScorable(offers) && AllWait(cs, s)
    ensures Pending(Plan(cs, offers, |cs|).rows, 0, s)
  {
    var at := RowPositions(cs, offers, |cs|);
    PositionsWait(s, cs, Plan(cs, offers, |cs|).rows, at);
  }

  lemma PositionsWait(s: State, cs: seq<Candidate>, rows: seq<Row>, at: seq<nat>)
    requires AllWait(cs, s) && At(at, rows, cs, |cs|)
    ensures Pending(rows, 0, s)
  {
  }

  /** Plan and commit agree: the rows planned on copies can all be committed, one after the other, to
      the nodes they were copied from, and end with exactly the availabilities planned. */
  lemma PlanCommits(s: State, cs: seq<Candidate>, offers: seq<Offer>)
    requires Inv(s) && Copies(offers, s) && AllAsk(cs) && AllScorable(offers) && AllWait(cs, s)
    ensures var p := Plan(cs, offers, |cs|); var steps := StepsOf(p.rows, offers, |p.rows|);
      Possible(s, steps) && Copies(p.offers, After(s, steps))
  {
    var p := Plan(cs, offers, |cs|);
    ReplayReproducesPlan(cs, offers, |cs|);
    PlannedRowsWait(s, cs, offers);
    CommitIsARun(s, p.rows, offers, |p.rows|, StepsOf(p.rows, offers, |p.rows|));
    assert p.rows[..|p.rows|] == p.rows;
  }
}
