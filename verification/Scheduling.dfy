/** What a schedule cycle decides: the best node for one task, and the plan for a sequence of tasks. */
module Scheduling {
  import opened Resources
  import opened TaskIds
  import opened Tasks
  import opened Jobs

  /** A task considered for scheduling. */
  datatype Candidate = Candidate(
    job: string, ref: TaskRef, labels: map<string, string>, taints: map<string, string>, demand: Amounts)

  /** A node as the planner sees it: its totals, and a private copy of its availability. */
  datatype Offer = Offer(
    name: string, labels: map<string, string>, taints: map<string, string>, total: Amounts, available: Amounts)

  predicate LabelsPass(c: Candidate, o: Offer) {
    forall k | k in c.labels :: k in o.labels && o.labels[k] == c.labels[k]
  }

  predicate TaintsPass(c: Candidate, o: Offer) {
    forall k | k in c.taints :: k in o.taints ==> o.taints[k] != c.taints[k]
  }

  ghost predicate Accepts(o: Offer, c: Candidate) {
    LabelsPass(c, o) && TaintsPass(c, o) && Satisfies(c.demand, o.available)
  }

  /** No division of the score is by zero. */
  predicate Sized(total: Amounts) {
    && total.cores > 0 && total.frequency > 0 && total.minFreq > 0 && total.memory > 0
    && (total.cards > 0 ==> total.gpuMemory > 0)
  }

  /** A node whose totals make the score meaningful. */
  ghost predicate Scorable(o: Offer) {
    && Sized(o.total)
    && NonNegative(o.available) && (o.available.cards > 0 ==> o.total.cards > 0)
  }

  ghost predicate Asks(c: Candidate) {
    NonNegative(c.demand) && AsksMain(c.demand)
  }

  function CpuScore(d: Amounts, total: Amounts, available: Amounts): real
    requires total.cores > 0 && total.frequency > 0
  {
    var share := if d.cores > 0 then available.cores as real / total.cores as real
                 else available.frequency as real / total.frequency as real;
    share * 3.0 * total.minFreq as real / 2400.0
  }

  function GpuScore(total: Amounts, available: Amounts): real
    requires total.cards > 0
  {
    available.cards as real / total.cards as real * 5.0 * total.gpuMemory as real / 8.0
  }

  function Score(d: Amounts, total: Amounts, available: Amounts): real
    requires total.cores > 0 && total.frequency > 0 && total.memory > 0
    requires d.cards > 0 ==> total.cards > 0
  {
    CpuScore(d, total, available) + available.memory as real / total.memory as real
    + if d.cards > 0 then GpuScore(total, available) else 0.0
  }

  lemma RatioSigns(a: int, b: int, k: int)
    requires 0 <= a && 0 < b && 0 <= k
    ensures a as real / b as real >= 0.0
    ensures a > 0 ==> a as real / b as real > 0.0
    ensures a as real / b as real * 3.0 * k as real / 2400.0 >= 0.0
    ensures a > 0 && k > 0 ==> a as real / b as real * 3.0 * k as real / 2400.0 > 0.0
    ensures a as real / b as real * 5.0 * k as real / 8.0 >= 0.0
    ensures a > 0 && k > 0 ==> a as real / b as real * 5.0 * k as real / 8.0 > 0.0
  {
    var r := a as real / b as real;
    assert r * b as real == a as real;
    assert r >= 0.0 && (a > 0 ==> r > 0.0);
    assert r * k as real >= 0.0 && (a > 0 && k > 0 ==> r * k as real > 0.0);
  }

  /** A task that demands anything scores above zero on every node that accepts it, so the scan, which
      starts from zero, never passes over an accepting node. */
  lemma AcceptedScoresPositive(c: Candidate, o: Offer)
    requires Asks(c) && Scorable(o) && Accepts(o, c)
    ensures c.demand.cards > 0 ==> o.total.cards > 0
    ensures Score(c.demand, o.total, o.available) > 0.0
  {
    var d, total, a := c.demand, o.total, o.available;
    assert !Lacks(d, a, LackCores) && !Lacks(d, a, LackFrequency) && !Lacks(d, a, LackMemory)
      && !Lacks(d, a, LackCards);
    assert 0 <= Amount(a, Cores) && 0 <= Amount(a, Frequency) && 0 <= Amount(a, Memory) && 0 <= Amount(a, Cards);
    assert 0 <= Amount(d, Cores) && 0 <= Amount(d, Frequency) && 0 <= Amount(d, Memory) && 0 <= Amount(d, Cards);
    RatioSigns(a.cores, total.cores, total.minFreq);
    RatioSigns(a.frequency, total.frequency, total.minFreq);
    RatioSigns(a.memory, total.memory, 0);
    if d.cards > 0 {
      RatioSigns(a.cards, total.cards, total.gpuMemory);
    }
  }

  ghost function ScoreOn(c: Candidate, o: Offer): real
    requires Asks(c) && Scorable(o) && Accepts(o, c)
  {
    AcceptedScoresPositive(c, o);
    Score(c.demand, o.total, o.available)
  }

  /** The score of a node for a task by parts: three times the share of cores that is free, or of frequency if
      the task asks for no cores, times the node's minimum frequency in units of 2400; the share of memory; and
      for a task that asks for cards five times the share of them times their memory in units of 8. */
  ghost predicate Weighs(c: Candidate, o: Offer, score: real, cpu: real, memory: real, gpu: real) {
    var d, total, free := c.demand, o.total, o.available;
    && score == cpu + memory + gpu
    && (if d.cores > 0 then cpu * total.cores as real * 2400.0 == 3.0 * free.cores as real * total.minFreq as real
        else cpu * total.frequency as real * 2400.0 == 3.0 * free.frequency as real * total.minFreq as real)
    && memory * total.memory as real == free.memory as real
    && (if d.cards > 0 then gpu * total.cards as real * 8.0 == 5.0 * free.cards as real * total.gpuMemory as real
        else gpu == 0.0)
  }

  lemma ShareOf(a: real, b: real, k: real, unit: real, weight: real)
    requires b != 0.0 && unit != 0.0
    ensures a / b * weight * k / unit * b * unit == weight * a * k
  {
    var q := a / b;
    assert q * b == a;
    var r := q * weight * k / unit;
    assert r * unit == q * weight * k;
    assert r * b * unit == q * weight * k * b == q * b * (weight * k);
  }

  lemma ScoreWeighs(c: Candidate, o: Offer) returns (cpu: real, memory: real, gpu: real)
    requires Asks(c) && Scorable(o) && Accepts(o, c)
    ensures Weighs(c, o, ScoreOn(c, o), cpu, memory, gpu)
  {
    AcceptedScoresPositive(c, o);
    var d, total, free := c.demand, o.total, o.available;
    cpu, memory := CpuScore(d, total, free), free.memory as real / total.memory as real;
    gpu := if d.cards > 0 then GpuScore(total, free) else 0.0;
    ShareOf(free.cores as real, total.cores as real, total.minFreq as real, 2400.0, 3.0);
    ShareOf(free.frequency as real, total.frequency as real, total.minFreq as real, 2400.0, 3.0);
    if d.cards > 0 {
      ShareOf(free.cards as real, total.cards as real, total.gpuMemory as real, 8.0, 5.0);
    }
  }

  lemma ShareGrows(a: real, a': real, b: real, k: real, k': real, unit: real, weight: real)
    requires 0.0 <= a <= a' && 0.0 < b && 0.0 <= k <= k' && 0.0 < unit && 0.0 < weight
    ensures a / b * weight * k / unit <= a' / b * weight * k' / unit
    ensures (a < a' && k' > 0.0) || (k < k' && a' > 0.0) ==> a / b * weight * k / unit < a' / b * weight * k' / unit
  {
  }

  /** The same sizes, with nothing less of what scores count. */
  ghost predicate Richer(o': Offer, o: Offer) {
    && o'.total.cores == o.total.cores && o'.total.frequency == o.total.frequency
    && o'.total.memory == o.total.memory && o'.total.cards == o.total.cards
    && o.total.minFreq <= o'.total.minFreq && o.total.gpuMemory <= o'.total.gpuMemory
    && o.available.cores <= o'.available.cores && o.available.frequency <= o'.available.frequency
    && o.available.memory <= o'.available.memory && o.available.cards <= o'.available.cards
  }

  /** A richer node never scores less. It scores more with more memory free; with more cores free or a higher
      minimum frequency, if the task asks for cores, and with more frequency free if it does not; and, if the
      task asks for cards, with more cards free or more memory on them. */
  lemma ScoreGrows(c: Candidate, o: Offer, o': Offer)
    requires Asks(c) && Scorable(o) && Scorable(o') && Accepts(o, c) && Accepts(o', c) && Richer(o', o)
    ensures ScoreOn(c, o) <= ScoreOn(c, o')
    ensures
      || o.available.memory < o'.available.memory
      || (c.demand.cores > 0 && (o.available.cores < o'.available.cores || o.total.minFreq < o'.total.minFreq))
      || (c.demand.cores == 0 && (o.available.frequency < o'.available.frequency
          || (o.total.minFreq < o'.total.minFreq && o'.available.frequency > 0)))
      || (c.demand.cards > 0 && (o.available.cards < o'.available.cards || o.total.gpuMemory < o'.total.gpuMemory))
      ==> ScoreOn(c, o) < ScoreOn(c, o')
  {
    AcceptedScoresPositive(c, o);
    AcceptedScoresPositive(c, o');
    CpuGrows(c, o, o');
    MemoryGrows(o, o');
    if c.demand.cards > 0 {
      GpuGrows(c, o, o');
    }
  }

  lemma CpuGrows(c: Candidate, o: Offer, o': Offer)
    requires Asks(c) && Scorable(o) && Scorable(o') && Accepts(o, c) && Accepts(o', c) && Richer(o', o)
    ensures var x, x' := CpuScore(c.demand, o.total, o.available), CpuScore(c.demand, o'.total, o'.available);
      && x <= x'
      && ((c.demand.cores > 0 && (o.available.cores < o'.available.cores || o.total.minFreq < o'.total.minFreq))
          || (c.demand.cores == 0 && (o.available.frequency < o'.available.frequency
              || (o.total.minFreq < o'.total.minFreq && o'.available.frequency > 0)))
          ==> x < x')
  {
    var d, t, t', a, a' := c.demand, o.total, o'.total, o.available, o'.available;
    SatisfiesMeans(d, a);
    SatisfiesMeans(d, a');
    assert 0 <= Amount(a, Cores) && 0 <= Amount(a, Frequency) && 0 <= Amount(d, Cores);
    ShareGrows(a.cores as real, a'.cores as real, t.cores as real, t.minFreq as real, t'.minFreq as real, 2400.0, 3.0);
    ShareGrows(a.frequency as real, a'.frequency as real, t.frequency as real, t.minFreq as real, t'.minFreq as real,
               2400.0, 3.0);
  }

  lemma MemoryGrows(o: Offer, o': Offer)
    requires Scorable(o) && Scorable(o') && Richer(o', o)
    ensures var x, x' := o.available.memory as real / o.total.memory as real,
                         o'.available.memory as real / o'.total.memory as real;
      x <= x' && (o.available.memory < o'.available.memory ==> x < x')
  {
    assert 0 <= Amount(o.available, Memory);
    ShareGrows(o.available.memory as real, o'.available.memory as real, o.total.memory as real, 1.0, 1.0, 1.0, 1.0);
  }

  lemma GpuGrows(c: Candidate, o: Offer, o': Offer)
    requires Scorable(o) && Scorable(o') && Accepts(o, c) && Accepts(o', c) && Richer(o', o) && c.demand.cards > 0
    ensures o.total.cards > 0 && o'.total.cards > 0
    ensures var x, x' := GpuScore(o.total, o.available), GpuScore(o'.total, o'.available);
      && x <= x'
      && (o.available.cards < o'.available.cards || o.total.gpuMemory < o'.total.gpuMemory ==> x < x')
  {
    SatisfiesMeans(c.demand, o.available);
    SatisfiesMeans(c.demand, o'.available);
    ShareGrows(o.available.cards as real, o'.available.cards as real, o.total.cards as real,
               o.total.gpuMemory as real, o'.total.gpuMemory as real, 8.0, 5.0);
  }

  ghost predicate AllScorable(offers: seq<Offer>) {
    forall i | 0 <= i < |offers| :: Scorable(offers[i])
  }

  /** The first of the accepting nodes with the greatest score. */
  ghost predicate IsBest(c: Candidate, offers: seq<Offer>, best: nat)
    requires Asks(c) && AllScorable(offers)
  {
    && best < |offers| && Accepts(offers[best], c)
    && forall i | 0 <= i < |offers| && Accepts(offers[i], c) ::
      && ScoreOn(c, offers[i]) <= ScoreOn(c, offers[best])
      && (i < best ==> ScoreOn(c, offers[i]) < ScoreOn(c, offers[best]))
  }

  ghost function Best(c: Candidate, offers: seq<Offer>): (best: Option<nat>)
    requires Asks(c) && AllScorable(offers)
    ensures best.None? ==> forall i | 0 <= i < |offers| :: !Accepts(offers[i], c)
    ensures best.Some? ==> IsBest(c, offers, best.value)
  {
    if offers == [] then None
    else
      var n := |offers| - 1;
      var before := Best(c, offers[..n]);
      if !Accepts(offers[n], c) then before
      else if before.None? || ScoreOn(c, offers[before.value]) < ScoreOn(c, offers[n]) then Some(n)
      else before
  }

  lemma BestNext(c: Candidate, offers: seq<Offer>, i: nat)
    requires Asks(c) && AllScorable(offers) && i < |offers|
    ensures var before := Best(c, offers[..i]);
      Best(c, offers[..i + 1]) ==
        if Accepts(offers[i], c) && (before.None? || ScoreOn(c, offers[before.value]) < ScoreOn(c, offers[i]))
        then Some(i) else before
  {
    assert offers[..i + 1][..i] == offers[..i];
  }

  /** There is at most one best node. */
  lemma BestUnique(c: Candidate, offers: seq<Offer>, i: nat, j: nat)
    requires Asks(c) && AllScorable(offers) && IsBest(c, offers, i) && IsBest(c, offers, j)
    ensures i == j
  {
  }

  /** Parts determine the score. */
  lemma WeightUnique(c: Candidate, o: Offer, x: real, y: real, a: real, b: real, g: real, a': real, b': real, g': real)
    requires Scorable(o) && (c.demand.cards > 0 ==> o.total.cards > 0)
    requires Weighs(c, o, x, a, b, g) && Weighs(c, o, y, a', b', g')
    ensures x == y
  {
    SameFactor(a, a', o.total.cores as real);
    SameFactor(a, a', o.total.frequency as real);
    SameFactor(b, b', o.total.memory as real);
    if c.demand.cards > 0 {
      SameFactor(g, g', o.total.cards as real);
    }
  }

  lemma SameFactor(x: real, y: real, k: real)
    requires k > 0.0
    ensures x * k == y * k ==> x == y
  {
  }

  /** This is the score, by its parts. */
  ghost predicate Scores(c: Candidate, o: Offer, score: real) {
    exists cpu, memory, gpu :: Weighs(c, o, score, cpu, memory, gpu)
  }

  /** In terms of the parts of scores: no accepting node weighs more than this one, and none before it as much. */
  ghost predicate Heaviest(c: Candidate, offers: seq<Offer>, best: nat) {
    && best < |offers| && Accepts(offers[best], c)
    && forall i, x, y | 0 <= i < |offers| && Accepts(offers[i], c)
                        && Scores(c, offers[best], x) && Scores(c, offers[i], y) ::
         y <= x && (i < best ==> y < x)
  }

  /** The best node is the heaviest, and every accepting node has just one weight. */
  lemma BestIsHeaviest(c: Candidate, offers: seq<Offer>, best: nat)
    requires Asks(c) && AllScorable(offers) && Best(c, offers) == Some(best)
    ensures Heaviest(c, offers, best)
    ensures forall i, x | 0 <= i < |offers| && Accepts(offers[i], c) ::
      Scores(c, offers[i], x) <==> x == ScoreOn(c, offers[i])
  {
    forall i, x | 0 <= i < |offers| && Accepts(offers[i], c)
      ensures Scores(c, offers[i], x) <==> x == ScoreOn(c, offers[i])
    {
      ScoreIs(c, offers[i], x);
    }
  }

  lemma ScoreIs(c: Candidate, o: Offer, x: real)
    requires Asks(c) && Scorable(o) && Accepts(o, c)
    ensures Scores(c, o, x) <==> x == ScoreOn(c, o)
  {
    AcceptedScoresPositive(c, o);
    var cpu, memory, gpu := ScoreWeighs(c, o);
    if Scores(c, o, x) {
      var a, b, g :| Weighs(c, o, x, a, b, g);
      WeightUnique(c, o, x, ScoreOn(c, o), a, b, g, cpu, memory, gpu);
    }
  }

  // ----- the plan for a sequence of candidates

  datatype Row = Row(candidate: Candidate, node: nat)
  datatype Planned = Planned(rows: seq<Row>, offers: seq<Offer>)

  function Spend(o: Offer, d: Amounts): Offer {
    o.(available := Consumed(o.available, d))
  }

  ghost predicate AllAsk(cs: seq<Candidate>) {
    forall i | 0 <= i < |cs| :: Asks(cs[i])
  }

  lemma SpendScorable(o: Offer, c: Candidate)
    requires Scorable(o) && Asks(c) && Accepts(o, c)
    ensures Scorable(Spend(o, c.demand))
  {
    ConsumeExact(o.available, c.demand);
    assert 0 <= Amount(c.demand, Cards);
  }

  /** The plan after the first `n` candidates. */
  ghost function Plan(cs: seq<Candidate>, offers: seq<Offer>, n: nat): (p: Planned)
    requires AllAsk(cs) && AllScorable(offers) && n <= |cs|
    ensures |p.offers| == |offers| && AllScorable(p.offers)
    ensures forall m | 0 <= m < |p.rows| :: p.rows[m].node < |offers|
  {
    if n == 0 then Planned([], offers) else PlanStep(Plan(cs, offers, n - 1), cs[n - 1])
  }

  /** Later candidates do not change what is planned for earlier ones. */
  lemma {:induction false} PlanPrefix(cs: seq<Candidate>, more: seq<Candidate>, offers: seq<Offer>, n: nat)
    requires AllAsk(cs) && AllAsk(more) && AllScorable(offers) && n <= |cs| && cs <= more
    ensures Plan(more, offers, n) == Plan(cs, offers, n)
  {
    if n > 0 {
      PlanPrefix(cs, more, offers, n - 1);
    }
  }

  /** Plans one more candidate. */
  ghost function PlanStep(p: Planned, c: Candidate): (p': Planned)
    requires Asks(c) && AllScorable(p.offers)
    requires forall m | 0 <= m < |p.rows| :: p.rows[m].node < |p.offers|
    ensures |p'.offers| == |p.offers| && AllScorable(p'.offers)
    ensures forall m | 0 <= m < |p'.rows| :: p'.rows[m].node < |p.offers|
  {
    match Best(c, p.offers)
    case None => p
    case Some(i) =>
      SpendScorable(p.offers[i], c);
      Planned(p.rows + [Row(c, i)], p.offers[i := Spend(p.offers[i], c.demand)])
  }

  /** Every offer of `later` is the one of `earlier` with no quantity raised. */
  ghost predicate OnlyShrunk(later: seq<Offer>, earlier: seq<Offer>) {
    |later| == |earlier| && forall i | 0 <= i < |earlier| :: Shrunk(later[i], earlier[i])
  }

  ghost predicate Shrunk(later: Offer, earlier: Offer) {
    later == earlier.(available := later.available) && Below(later.available, earlier.available)
  }

  lemma StepShrinks(p: Planned, c: Candidate)
    requires Asks(c) && AllScorable(p.offers)
    requires forall m | 0 <= m < |p.rows| :: p.rows[m].node < |p.offers|
    ensures OnlyShrunk(PlanStep(p, c).offers, p.offers)
  {
    var best := Best(c, p.offers);
    if best.Some? {
      ConsumeShrinks(p.offers[best.value].available, c.demand);
    }
  }

  lemma ShrunkTransitive(c: seq<Offer>, b: seq<Offer>, a: seq<Offer>)
    requires OnlyShrunk(c, b) && OnlyShrunk(b, a)
    ensures OnlyShrunk(c, a)
  {
    forall i | 0 <= i < |a|
      ensures Shrunk(c[i], a[i])
    {
      assert Shrunk(c[i], b[i]) && Shrunk(b[i], a[i]);
      BelowTransitive(c[i].available, b[i].available, a[i].available);
    }
  }

  lemma {:induction false} PlanShrinks(cs: seq<Candidate>, offers: seq<Offer>, i: nat, j: nat)
    requires AllAsk(cs) && AllScorable(offers) && i <= j <= |cs|
    ensures OnlyShrunk(Plan(cs, offers, j).offers, Plan(cs, offers, i).offers)
  {
    var a, c := Plan(cs, offers, i).offers, Plan(cs, offers, j).offers;
    if i < j {
      var b := Plan(cs, offers, j - 1);
      PlanShrinks(cs, offers, i, j - 1);
      StepShrinks(b, cs[j - 1]);
      ShrunkTransitive(c, b.offers, a);
    } else {
      assert forall m | 0 <= m < |a| :: Shrunk(a[m], a[m]);
    }
  }

  /** The candidate considered at position `k` is not placed. */
  ghost predicate LeftOut(cs: seq<Candidate>, offers: seq<Offer>, k: nat)
    requires AllAsk(cs) && AllScorable(offers) && k < |cs|
  {
    Best(cs[k], Plan(cs, offers, k).offers).None?
  }

  /** Maximality without priority inversion: a candidate left out is refused by every node when it is
      considered, at every later moment of the plan (whatever is placed then), and at the end. */
  lemma LeftOutIsRefused(cs: seq<Candidate>, offers: seq<Offer>, k: nat, j: nat, i: nat)
    requires AllAsk(cs) && AllScorable(offers) && k < |cs| && LeftOut(cs, offers, k)
    requires k <= j <= |cs| && i < |offers|
    ensures !Accepts(Plan(cs, offers, j).offers[i], cs[k])
  {
    PlanShrinks(cs, offers, k, j);
    var earlier, later := Plan(cs, offers, k).offers[i], Plan(cs, offers, j).offers[i];
    assert !Accepts(earlier, cs[k]) && Shrunk(later, earlier);
    if Satisfies(cs[k].demand, later.available) {
      RefusalPersists(cs[k].demand, later.available, earlier.available);
    }
  }

  /** The candidates that were not left out, in order. */
  ghost function PlacedAmong(cs: seq<Candidate>, offers: seq<Offer>, n: nat): seq<Candidate>
    requires AllAsk(cs) && AllScorable(offers) && n <= |cs|
  {
    if n == 0 then []
    else PlacedAmong(cs, offers, n - 1) + if LeftOut(cs, offers, n - 1) then [] else [cs[n - 1]]
  }

  function CandidatesOf(rows: seq<Row>): seq<Candidate> {
    seq(|rows|, m requires 0 <= m < |rows| => rows[m].candidate)
  }

  /** The rows of a plan are the candidates that were not left out, in order. */
  lemma {:induction false} RowsFollowCandidates(cs: seq<Candidate>, offers: seq<Offer>, n: nat)
    requires AllAsk(cs) && AllScorable(offers) && n <= |cs|
    ensures CandidatesOf(Plan(cs, offers, n).rows) == PlacedAmong(cs, offers, n)
  {
    if n > 0 {
      RowsFollowCandidates(cs, offers, n - 1);
      var p, c := Plan(cs, offers, n - 1), cs[n - 1];
      var best := Best(c, p.offers);
      if best.Some? {
        CandidatesAppend(p.rows, Row(c, best.value));
      }
    }
  }

  lemma CandidatesAppend(rows: seq<Row>, row: Row)
    ensures CandidatesOf(rows + [row]) == CandidatesOf(rows) + [row.candidate]
  {
  }

  // ----- replaying a plan

  /** The offers after the first rows of a table are charged, whatever chose them. */
  function Replay(rows: seq<Row>, offers: seq<Offer>): (r: seq<Offer>)
    requires forall m | 0 <= m < |rows| :: rows[m].node < |offers|
    ensures |r| == |offers|
  {
    if rows == [] then offers
    else
      var last := rows[|rows| - 1];
      var before := Replay(rows[..|rows| - 1], offers);
      before[last.node := Spend(before[last.node], last.candidate.demand)]
  }

  /** Each row's node accepts its candidate at the moment the row is charged. */
  ghost predicate Fits(rows: seq<Row>, offers: seq<Offer>)
    requires forall m | 0 <= m < |rows| :: rows[m].node < |offers|
  {
    forall m | 0 <= m < |rows| :: Accepts(Replay(rows[..m], offers)[rows[m].node], rows[m].candidate)
  }

  lemma ReplayAppend(rows: seq<Row>, row: Row, offers: seq<Offer>)
    requires row.node < |offers| && forall m | 0 <= m < |rows| :: rows[m].node < |offers|
    ensures var before := Replay(rows, offers);
      && Replay(rows + [row], offers) == before[row.node := Spend(before[row.node], row.candidate.demand)]
      && (Fits(rows, offers) && Accepts(before[row.node], row.candidate) ==> Fits(rows + [row], offers))
  {
    var all := rows + [row];
    assert all[..|rows|] == rows;
    if Fits(rows, offers) && Accepts(Replay(rows, offers)[row.node], row.candidate) {
      forall m | 0 <= m < |all|
        ensures Accepts(Replay(all[..m], offers)[all[m].node], all[m].candidate)
      {
        assert m < |rows| ==> all[..m] == rows[..m];
      }
    }
  }

  lemma StepReplays(p: Planned, c: Candidate, offers: seq<Offer>)
    requires Asks(c) && AllScorable(p.offers) && |p.offers| == |offers|
    requires forall m | 0 <= m < |p.rows| :: p.rows[m].node < |p.offers|
    requires Replay(p.rows, offers) == p.offers && Fits(p.rows, offers)
    ensures var p' := PlanStep(p, c); Replay(p'.rows, offers) == p'.offers && Fits(p'.rows, offers)
  {
    var best := Best(c, p.offers);
    if best.Some? {
      ReplayAppend(p.rows, Row(c, best.value), offers);
    }
  }

  /** Charging the rows of a plan one by one reproduces the planner's private availabilities, and every
      row fits when it is charged. */
  lemma {:induction false} ReplayReproducesPlan(cs: seq<Candidate>, offers: seq<Offer>, n: nat)
    requires AllAsk(cs) && AllScorable(offers) && n <= |cs|
    ensures var p := Plan(cs, offers, n); Replay(p.rows, offers) == p.offers && Fits(p.rows, offers)
  {
    if n > 0 {
      var p := Plan(cs, offers, n - 1);
      ReplayReproducesPlan(cs, offers, n - 1);
      StepReplays(p, cs[n - 1], offers);
    }
  }

  /** What the rows charge to one node. */
  function ChargedTo(rows: seq<Row>, i: nat, kind: Kind): int {
    if rows == [] then 0
    else
      var last := rows[|rows| - 1];
      ChargedTo(rows[..|rows| - 1], i, kind) + if last.node == i then Amount(last.candidate.demand, kind) else 0
  }

  lemma StepConserves(p: Planned, c: Candidate, i: nat, kind: Kind)
    requires Asks(c) && AllScorable(p.offers) && i < |p.offers| && Tracks(p.offers[i].available, kind)
    requires forall m | 0 <= m < |p.rows| :: p.rows[m].node < |p.offers|
    ensures var p' := PlanStep(p, c);
      && Tracks(p'.offers[i].available, kind) && 0 <= Amount(p'.offers[i].available, kind)
      && Amount(p'.offers[i].available, kind) + ChargedTo(p'.rows, i, kind)
        == Amount(p.offers[i].available, kind) + ChargedTo(p.rows, i, kind)
  {
    assert Scorable(p.offers[i]);
    var p', best := PlanStep(p, c), Best(c, p.offers);
    if best.Some? {
      assert p'.rows[..|p.rows|] == p.rows;
      ConsumeExact(p.offers[best.value].available, c.demand);
    }
  }

  /** No clamp at zero ever fires: on every node, what it offered is what remains plus what is placed there. */
  lemma {:induction false} PlanConserves(cs: seq<Candidate>, offers: seq<Offer>, n: nat, i: nat, kind: Kind)
    requires AllAsk(cs) && AllScorable(offers) && n <= |cs| && i < |offers| && Tracks(offers[i].available, kind)
    ensures var p := Plan(cs, offers, n);
      && Tracks(p.offers[i].available, kind) && 0 <= Amount(p.offers[i].available, kind)
      && Amount(offers[i].available, kind) == Amount(p.offers[i].available, kind) + ChargedTo(p.rows, i, kind)
  {
    if n > 0 {
      PlanConserves(cs, offers, n - 1, i, kind);
      StepConserves(Plan(cs, offers, n - 1), cs[n - 1], i, kind);
    } else {
      assert Scorable(offers[i]);
    }
  }

  /** Each row is for the candidate at its position, and the positions increase up to `n`. */
  ghost predicate At(at: seq<nat>, rows: seq<Row>, cs: seq<Candidate>, n: nat)
    requires n <= |cs|
  {
    && |at| == |rows|
    && (forall m | 0 <= m < |rows| :: at[m] < n && rows[m].candidate == cs[at[m]])
    && (forall m, l | 0 <= m < l < |rows| :: at[m] < at[l])
  }

  /** Rows come from entries at increasing positions. */
  lemma {:induction false} RowPositions(cs: seq<Candidate>, offers: seq<Offer>, n: nat) returns (at: seq<nat>)
    requires AllAsk(cs) && AllScorable(offers) && n <= |cs|
    ensures At(at, Plan(cs, offers, n).rows, cs, n)
  {
    if n == 0 {
      at := [];
    } else {
      at := RowPositions(cs, offers, n - 1);
      at := PositionNext(cs, Plan(cs, offers, n - 1), n - 1, at);
    }
  }

  lemma PositionNext(cs: seq<Candidate>, p: Planned, n: nat, at: seq<nat>) returns (at': seq<nat>)
    requires AllAsk(cs) && AllScorable(p.offers) && n < |cs| && At(at, p.rows, cs, n)
    requires forall m | 0 <= m < |p.rows| :: p.rows[m].node < |p.offers|
    ensures At(at', PlanStep(p, cs[n]).rows, cs, n + 1)
  {
    at' := if Best(cs[n], p.offers).None? then at else at + [n];
  }
}
