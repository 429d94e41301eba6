/** Resource amounts of a node or a task, and the object that carries them.

    Cores are integer tenths of a core: the source rounds to tenths before every addition or
    subtraction, and compares nothing finer. */
module Resources {

  datatype Amounts = Amounts(
    cores: int, frequency: int, minFreq: int,
    cards: int, gpuMemory: int, cuda: int,
    memory: int, others: map<string, int>)
  {
    /** Answers `None` exactly when the offer covers this demand, and otherwise a true reason. */
    method SatisfiedWith(offer: ResourceSet) returns (lack: Option<Lack>)
      ensures lack.None? <==> Satisfies(this, offer.Value())
      ensures lack.Some? ==> Lacks(this, offer.Value(), lack.value)
    {
      ghost var o := offer.Value();
      if cards > 0 {
        if cards > offer.cards { assert Lacks(this, o, LackCards); return Some(LackCards); }
        if cuda > offer.cuda { assert Lacks(this, o, LackCuda); return Some(LackCuda); }
        if gpuMemory > offer.gpuMemory { assert Lacks(this, o, LackGpuMemory); return Some(LackGpuMemory); }
      }
      if minFreq > 0 && minFreq > offer.minFreq { assert Lacks(this, o, LackMinFreq); return Some(LackMinFreq); }
      if cores > 0 && cores > offer.cores { assert Lacks(this, o, LackCores); return Some(LackCores); }
      if frequency > 0 && frequency > offer.frequency {
        assert Lacks(this, o, LackFrequency);
        return Some(LackFrequency);
      }
      if memory > 0 && memory > offer.memory { assert Lacks(this, o, LackMemory); return Some(LackMemory); }
      var keys := others.Keys;
      while keys != {}
        invariant keys <= others.Keys
        invariant forall k | k in others.Keys - keys :: !Lacks(this, o, LackOther(k))
      {
        var k :| k in keys;
        if k !in offer.others || others[k] > offer.others[k] {
          assert Lacks(this, o, LackOther(k));
          return Some(LackOther(k));
        }
        keys := keys - {k};
      }
      return None;
    }
  }

  /** The quantities that `Consume` and `GiveBack` move. Minimum frequency, GPU memory and CUDA
      version are capabilities: they are compared and never spent. */
  datatype Kind = Cores | Frequency | Memory | Cards | Other(name: string)

  function Amount(a: Amounts, kind: Kind): int {
    match kind
    case Cores => a.cores
    case Frequency => a.frequency
    case Memory => a.memory
    case Cards => a.cards
    case Other(name) => if name in a.others then a.others[name] else 0
  }

  /** A node accounts for a named resource only if it offers that name. */
  predicate Tracks(a: Amounts, kind: Kind) {
    kind.Other? ==> kind.name in a.others
  }

  ghost predicate NonNegative(a: Amounts) {
    && 0 <= a.minFreq && 0 <= a.gpuMemory && 0 <= a.cuda
    && forall kind :: 0 <= Amount(a, kind)
  }

  /** The reasons for which `SatisfiedWith` refuses. */
  datatype Lack =
    | LackCards | LackCuda | LackGpuMemory | LackMinFreq
    | LackCores | LackFrequency | LackMemory | LackOther(name: string)

  predicate Lacks(demand: Amounts, offer: Amounts, lack: Lack) {
    match lack
    case LackCards => demand.cards > 0 && demand.cards > offer.cards
    case LackCuda => demand.cards > 0 && demand.cuda > offer.cuda
    case LackGpuMemory => demand.cards > 0 && demand.gpuMemory > offer.gpuMemory
    case LackMinFreq => demand.minFreq > 0 && demand.minFreq > offer.minFreq
    case LackCores => demand.cores > 0 && demand.cores > offer.cores
    case LackFrequency => demand.frequency > 0 && demand.frequency > offer.frequency
    case LackMemory => demand.memory > 0 && demand.memory > offer.memory
    case LackOther(name) =>
      && name in demand.others
      && (name !in offer.others || demand.others[name] > offer.others[name])
  }

  /** No reason to refuse: the offer covers the demand. */
  ghost predicate Satisfies(demand: Amounts, offer: Amounts) {
    forall lack :: !Lacks(demand, offer, lack)
  }

  /** An offer satisfies a demand exactly if it has as much of everything that is asked for; the memory and CUDA
      version of cards matter only if cards are asked for, and a named resource must be offered at all. */
  lemma SatisfiesMeans(d: Amounts, o: Amounts)
    ensures Satisfies(d, o) <==>
      && (d.cards > 0 ==> d.cards <= o.cards && d.cuda <= o.cuda && d.gpuMemory <= o.gpuMemory)
      && (d.minFreq > 0 ==> d.minFreq <= o.minFreq)
      && (d.cores > 0 ==> d.cores <= o.cores)
      && (d.frequency > 0 ==> d.frequency <= o.frequency)
      && (d.memory > 0 ==> d.memory <= o.memory)
      && forall k | k in d.others :: k in o.others && d.others[k] <= o.others[k]
  {
    if Satisfies(d, o) {
      assert !Lacks(d, o, LackCards) && !Lacks(d, o, LackCuda) && !Lacks(d, o, LackGpuMemory)
        && !Lacks(d, o, LackMinFreq) && !Lacks(d, o, LackCores) && !Lacks(d, o, LackFrequency)
        && !Lacks(d, o, LackMemory);
      assert forall k | k in d.others :: !Lacks(d, o, LackOther(k));
    }
  }

  function Clamp(x: int): int {
    if x <= 0 then 0 else x
  }

  function Consumed(a: Amounts, d: Amounts): Amounts {
    a.(cores := Clamp(a.cores - d.cores),
       frequency := Clamp(a.frequency - d.frequency),
       memory := Clamp(a.memory - d.memory),
       cards := Clamp(a.cards - d.cards),
       others := map k | k in a.others :: if k in d.others then a.others[k] - d.others[k] else a.others[k])
  }

  function GivenBack(a: Amounts, d: Amounts): Amounts {
    a.(cores := a.cores + d.cores,
       frequency := a.frequency + d.frequency,
       memory := a.memory + d.memory,
       cards := if d.cards > 0 then a.cards + d.cards else a.cards,
       others := map k | k in a.others :: if k in d.others then a.others[k] + d.others[k] else a.others[k])
  }

  /** The same capabilities and the same named resources. */
  predicate Alike(b: Amounts, a: Amounts) {
    b.minFreq == a.minFreq && b.gpuMemory == a.gpuMemory && b.cuda == a.cuda && b.others.Keys == a.others.Keys
  }

  /** The same offer with smaller quantities. */
  ghost predicate Below(b: Amounts, a: Amounts) {
    && Alike(b, a)
    && forall kind :: Amount(b, kind) <= Amount(a, kind)
  }

  /** The demand asks for something besides named resources and capabilities. */
  predicate AsksMain(d: Amounts) {
    d.cores != 0 || d.frequency != 0 || d.cards != 0 || d.memory != 0
  }

  lemma BelowTransitive(c: Amounts, b: Amounts, a: Amounts)
    requires Below(c, b) && Below(b, a)
    ensures Below(c, a)
  {
    forall kind
      ensures Amount(c, kind) <= Amount(a, kind)
    {
      assert Amount(c, kind) <= Amount(b, kind) <= Amount(a, kind);
    }
  }

  /** Spending a non-negative demand never raises a quantity. */
  lemma ConsumeShrinks(a: Amounts, d: Amounts)
    requires NonNegative(a) && NonNegative(d)
    ensures Below(Consumed(a, d), a)
  {
    var b := Consumed(a, d);
    forall kind
      ensures Amount(b, kind) <= Amount(a, kind)
    {
      assert 0 <= Amount(a, kind) && 0 <= Amount(d, kind);
    }
  }

  /** Refusal is permanent while an offer only shrinks. */
  lemma RefusalPersists(demand: Amounts, b: Amounts, a: Amounts)
    requires Below(b, a) && Satisfies(demand, b)
    ensures Satisfies(demand, a)
  {
    forall lack
      ensures !Lacks(demand, a, lack)
    {
      assert !Lacks(demand, b, lack);
      assert Amount(b, Cores) <= Amount(a, Cores) && Amount(b, Frequency) <= Amount(a, Frequency);
      assert Amount(b, Memory) <= Amount(a, Memory) && Amount(b, Cards) <= Amount(a, Cards);
      if lack.LackOther? {
        assert Amount(b, Other(lack.name)) <= Amount(a, Other(lack.name));
      }
    }
  }

  /** A satisfied demand leaves without any clamp at zero: every tracked quantity drops by exactly
      the demand and stays non-negative. */
  lemma ConsumeExact(a: Amounts, d: Amounts)
    requires NonNegative(a) && NonNegative(d) && Satisfies(d, a)
    ensures NonNegative(Consumed(a, d))
    ensures Alike(Consumed(a, d), a)
    ensures forall kind | Tracks(a, kind) :: Amount(Consumed(a, d), kind) == Amount(a, kind) - Amount(d, kind)
  {
    var b := Consumed(a, d);
    assert !Lacks(d, a, LackCores) && !Lacks(d, a, LackFrequency) && !Lacks(d, a, LackMemory)
      && !Lacks(d, a, LackCards);
    assert 0 <= Amount(a, Cores) && 0 <= Amount(a, Frequency) && 0 <= Amount(a, Memory) && 0 <= Amount(a, Cards);
    forall kind
      ensures 0 <= Amount(b, kind)
      ensures Tracks(a, kind) ==> Amount(b, kind) == Amount(a, kind) - Amount(d, kind)
    {
      assert 0 <= Amount(a, kind) && 0 <= Amount(d, kind);
      if kind.Other? {
        assert !Lacks(d, a, LackOther(kind.name));
      }
    }
  }

  /** Giving back raises every tracked quantity by exactly the demand. */
  lemma GiveBackExact(a: Amounts, d: Amounts)
    requires NonNegative(a) && NonNegative(d)
    ensures NonNegative(GivenBack(a, d))
    ensures Alike(GivenBack(a, d), a)
    ensures forall kind | Tracks(a, kind) :: Amount(GivenBack(a, d), kind) == Amount(a, kind) + Amount(d, kind)
  {
    var b := GivenBack(a, d);
    forall kind
      ensures 0 <= Amount(b, kind)
      ensures Tracks(a, kind) ==> Amount(b, kind) == Amount(a, kind) + Amount(d, kind)
    {
      assert 0 <= Amount(a, kind) && 0 <= Amount(d, kind);
      assert 0 <= Amount(d, Cards);
    }
  }

  /** `GiveBack` undoes `Consume` exactly when the demand fits under the four clamped quantities. */
  lemma GiveBackUndoesConsume(a: Amounts, d: Amounts)
    requires NonNegative(a) && NonNegative(d)
    ensures GivenBack(Consumed(a, d), d) == a
       <==> d.cores <= a.cores && d.frequency <= a.frequency && d.memory <= a.memory && d.cards <= a.cards
  {
    assert 0 <= Amount(a, Cores) && 0 <= Amount(a, Frequency) && 0 <= Amount(a, Memory) && 0 <= Amount(a, Cards);
    assert 0 <= Amount(d, Cores) && 0 <= Amount(d, Frequency) && 0 <= Amount(d, Memory) && 0 <= Amount(d, Cards);
    assert GivenBack(Consumed(a, d), d).others == a.others;
  }

  /** The object behind a node's totals, its availability, and a task's or a group's demand. */
  class ResourceSet {
    var cores: int
    var frequency: int
    var minFreq: int
    var cards: int
    var gpuMemory: int
    var cuda: int
    var memory: int
    var others: map<string, int>

    constructor (a: Amounts)
      ensures Value() == a
    {
      cores, frequency, minFreq := a.cores, a.frequency, a.minFreq;
      cards, gpuMemory, cuda := a.cards, a.gpuMemory, a.cuda;
      memory, others := a.memory, a.others;
    }

    function Value(): Amounts
      reads this
    {
      Amounts(cores, frequency, minFreq, cards, gpuMemory, cuda, memory, others)
    }

    /** A deep copy: a new object, so later updates of either one do not reach the other. */
    method Clone() returns (copy: ResourceSet)
      ensures fresh(copy) && copy.Value() == Value()
    {
      var entries: map<string, int> := map[];
      var keys := others.Keys;
      while keys != {}
        invariant keys <= others.Keys
        invariant entries.Keys == others.Keys - keys
        invariant forall k | k in entries :: entries[k] == others[k]
      {
        var k :| k in keys;
        entries := entries[k := others[k]];
        keys := keys - {k};
      }
      assert entries == others;
      copy := new ResourceSet(Value());
    }

    method Consume(demand: Amounts)
      modifies this
      ensures Value() == Consumed(old(Value()), demand)
    {
      cores := Clamp(cores - demand.cores);
      frequency := Clamp(frequency - demand.frequency);
      memory := Clamp(memory - demand.memory);
      cards := Clamp(cards - demand.cards);
      var entries, keys := others, others.Keys;
      while keys != {}
        invariant keys <= entries.Keys == others.Keys
        invariant forall k | k in others ::
          entries[k] == if k !in keys && k in demand.others then others[k] - demand.others[k] else others[k]
      {
        var k :| k in keys;
        if k in demand.others {
          entries := entries[k := entries[k] - demand.others[k]];
        }
        keys := keys - {k};
      }
      others := entries;
    }

    method GiveBack(demand: Amounts)
      modifies this
      ensures Value() == GivenBack(old(Value()), demand)
    {
      cores := cores + demand.cores;
      frequency := frequency + demand.frequency;
      memory := memory + demand.memory;
      if demand.cards > 0 {
        cards := cards + demand.cards;
      }
      var entries, keys := others, others.Keys;
      while keys != {}
        invariant keys <= entries.Keys == others.Keys
        invariant forall k | k in others ::
          entries[k] == if k !in keys && k in demand.others then others[k] + demand.others[k] else others[k]
      {
        var k :| k in keys;
        if k in demand.others {
          entries := entries[k := entries[k] + demand.others[k]];
        }
        keys := keys - {k};
      }
      others := entries;
    }
  }

  datatype Option<+T> = None | Some(value: T)
}
