/** Task identifiers: `<job>.<group>.<task>`, how they are built and how they are taken apart. */
module TaskIds {

  function Digit(d: nat): char
    requires d < 10
  {
    "0123456789"[d]
  }

  predicate IsDigit(c: char) {
    '0' <= c <= '9'
  }

  /** Decimal rendering of a non-negative number (`%d`). */
  function Itoa(n: nat): string {
    if n < 10 then [Digit(n)] else Itoa(n / 10) + [Digit(n % 10)]
  }

  /** Value of a run of digits. */
  function DigitsValue(s: string): nat
    requires forall c | c in s :: IsDigit(c)
  {
    if s == "" then 0
    else
      assert IsDigit(s[|s| - 1]);
      DigitsValue(s[..|s| - 1]) * 10 + (s[|s| - 1] as int - '0' as int)
  }

  /** `strconv.Atoi` with the error dropped: anything but an optionally signed run of digits gives 0. */
  function Atoi(s: string): int {
    var digits := if s != "" && s[0] in "+-" then s[1..] else s;
    if digits != "" && forall c | c in digits :: IsDigit(c) then
      var value: int := DigitsValue(digits);
      if s[0] == '-' then -value else value
    else
      0
  }

  /** `strings.Split(s, ".")`. */
  function Split(s: string): (parts: seq<string>)
    ensures |parts| > 0
  {
    if s == "" then [""]
    else if s[0] == '.' then [""] + Split(s[1..])
    else var rest := Split(s[1..]); [[s[0]] + rest[0]] + rest[1..]
  }

  function Join(parts: seq<string>): string
    requires |parts| > 0
  {
    if |parts| == 1 then parts[0] else parts[0] + "." + Join(parts[1..])
  }

  function GroupId(job: string, group: nat): string {
    job + "." + Itoa(group)
  }

  function TaskId(job: string, group: nat, task: nat): string {
    GroupId(job, group) + "." + Itoa(task)
  }

  function ParseTaskId(id: string): (string, int, int) {
    var ids := Split(id);
    if |ids| != 3 then ("", -1, -1) else (ids[0], Atoi(ids[1]), Atoi(ids[2]))
  }

  lemma {:induction false} ItoaIsDigits(n: nat)
    ensures Itoa(n) != ""
    ensures forall c | c in Itoa(n) :: IsDigit(c)
    ensures DigitsValue(Itoa(n)) == n
  {
    if n >= 10 {
      ItoaIsDigits(n / 10);
      var s := Itoa(n);
      assert s[..|s| - 1] == Itoa(n / 10) && s[|s| - 1] == Digit(n % 10);
    } else {
      assert Itoa(n)[..0] == "";
    }
  }

  lemma AtoiUndoesItoa(n: nat)
    ensures Atoi(Itoa(n)) == n
    ensures '.' !in Itoa(n)
  {
    ItoaIsDigits(n);
    assert IsDigit(Itoa(n)[0]);
  }

  lemma {:induction false} SplitAtDot(a: string, b: string)
    ensures Split(a + "." + b) == Split(a) + Split(b)
  {
    if a == "" {
      assert a + "." + b == "." + b;
      assert ("." + b)[1..] == b;
    } else {
      assert (a + "." + b)[1..] == a[1..] + "." + b;
      SplitAtDot(a[1..], b);
    }
  }

  lemma {:induction false} SplitSingle(a: string)
    ensures |Split(a)| == 1 <==> '.' !in a
    ensures |Split(a)| == 1 ==> Split(a) == [a]
  {
    if a != "" {
      SplitSingle(a[1..]);
      assert a == [a[0]] + a[1..];
    }
  }

  lemma {:induction false} JoinUndoesSplit(s: string)
    ensures Join(Split(s)) == s
  {
    if s != "" {
      JoinUndoesSplit(s[1..]);
      var rest := Split(s[1..]);
      if s[0] == '.' {
        assert Split(s)[1..] == rest;
      } else {
        assert Split(s)[1..] == rest[1..];
        assert |rest| > 1 ==> [s[0]] + rest[0] + "." + Join(rest[1..]) == [s[0]] + Join(rest);
      }
      assert s == [s[0]] + s[1..];
    }
  }

  lemma SplitTaskId(job: string, group: nat, task: nat)
    ensures Split(TaskId(job, group, task)) == Split(job) + [Itoa(group)] + [Itoa(task)]
  {
    AtoiUndoesItoa(group);
    AtoiUndoesItoa(task);
    SplitAtDot(GroupId(job, group), Itoa(task));
    SplitAtDot(job, Itoa(group));
    SplitSingle(Itoa(group));
    SplitSingle(Itoa(task));
  }

  /** Parsing returns the job, group and task a task was built with exactly when the job's ID has
      no dot; with a dot the ID names no job at all. */
  lemma ParseUndoesTaskId(job: string, group: nat, task: nat)
    ensures ParseTaskId(TaskId(job, group, task)) ==
      if '.' in job then ("", -1, -1) else (job, group as int, task as int)
  {
    SplitTaskId(job, group, task);
    SplitSingle(job);
    AtoiUndoesItoa(group);
    AtoiUndoesItoa(task);
  }

  /** Distinct tasks never share an ID, whatever the job IDs contain. */
  lemma TaskIdInjective(job: string, group: nat, task: nat, job': string, group': nat, task': nat)
    requires TaskId(job, group, task) == TaskId(job', group', task')
    ensures job == job' && group == group' && task == task'
  {
    SplitTaskId(job, group, task);
    SplitTaskId(job', group', task');
    var parts, parts' := Split(TaskId(job, group, task)), Split(TaskId(job', group', task'));
    assert parts[..|parts| - 2] == Split(job) && parts'[..|parts'| - 2] == Split(job');
    assert parts[|parts| - 2] == Itoa(group) && parts'[|parts'| - 2] == Itoa(group');
    assert parts[|parts| - 1] == Itoa(task) && parts'[|parts'| - 1] == Itoa(task');
    JoinUndoesSplit(job);
    JoinUndoesSplit(job');
    ItoaIsDigits(group);
    ItoaIsDigits(group');
    ItoaIsDigits(task);
    ItoaIsDigits(task');
  }

  /** The textual prefix test by which a job's tasks are recognised: it accepts the tasks of every
      job whose ID extends the given one, so it selects one job's tasks only if no ID is a proper
      prefix of another. */
  lemma PrefixSelectsJob(job: string, owner: string, group: nat, task: nat)
    requires '.' !in job && '.' !in owner
    ensures job <= TaskId(owner, group, task) <==> job <= owner
  {
    var id := TaskId(owner, group, task);
    assert id == owner + ("." + Itoa(group) + "." + Itoa(task));
    assert id[|owner|] == '.';
  }
}
