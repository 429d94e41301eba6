/** The sharded mailboxes, over any sequence of operations, are one flat map, whatever the hash. */
module ShardRuns {
  import opened Resources
  import opened Messages
  import opened NodeCaches

  datatype MailOp =
    | Register(name: string)
    | Post(name: string, msg: Message)
    | Heartbeat(name: string, now: int)
    | Expire(name: string)

  /** What the shards are meant to be: mailboxes by name, and the names heard of. */
  datatype Flat = Flat(boxes: map<string, seq<Message>>, beats: set<string>)

  function FlatNext(f: Flat, op: MailOp): Flat
    requires op.Register? || op.name in f.boxes
  {
    match op
    case Register(name) => Flat(f.boxes[name := []], f.beats - {name})
    case Post(name, msg) => f.(boxes := f.boxes[name := Kept(f.boxes[name], msg) + [msg]])
    case Heartbeat(name, now) => Flat(f.boxes[name := []], f.beats + {name})
    case Expire(name) => f.(boxes := f.boxes[name := []])
  }

  function ShardNext(mail: Shards, op: MailOp): (mail': Shards)
    requires mail.Ok() && (op.Register? || mail.HasBucket(op.name))
    ensures mail'.Ok() && mail'.hash == mail.hash
  {
    match op
    case Register(name) => mail.Cleared(name)
    case Post(name, msg) => mail.WithBox(name, Kept(mail.Box(name), msg) + [msg])
    case Heartbeat(name, now) => mail.WithBeat(name, now).WithBox(name, [])
    case Expire(name) => mail.WithBox(name, [])
  }

  /** Every operation but a registration is about a name registered before. */
  ghost predicate Orderly(ops: seq<MailOp>) {
    forall i | 0 <= i < |ops| && !ops[i].Register? :: exists j :: 0 <= j < i && ops[j] == Register(ops[i].name)
  }

  lemma OrderlyPrefix(ops: seq<MailOp>, n: nat)
    requires Orderly(ops) && n <= |ops|
    ensures Orderly(ops[..n])
  {
    forall i | 0 <= i < n && !ops[..n][i].Register?
      ensures exists j :: 0 <= j < i && ops[..n][j] == Register(ops[..n][i].name)
    {
      assert ops[i] == ops[..n][i];
      var j :| 0 <= j < i && ops[j] == Register(ops[i].name);
      assert ops[..n][j] == ops[j];
    }
  }

  ghost function FlatAfter(ops: seq<MailOp>): (f: Flat)
    requires Orderly(ops)
    ensures forall i | 0 <= i < |ops| :: ops[i].name in f.boxes
  {
    if ops == [] then Flat(map[], {})
    else
      var front, last := ops[..|ops| - 1], ops[|ops| - 1];
      OrderlyPrefix(ops, |ops| - 1);
      assert forall i | 0 <= i < |front| :: front[i] == ops[i];
      FlatNext(FlatAfter(front), last)
  }

  lemma FlatStep(ops: seq<MailOp>)
    requires Orderly(ops) && ops != []
    ensures var front, last := ops[..|ops| - 1], ops[|ops| - 1];
      Orderly(front) && (last.Register? || last.name in FlatAfter(front).boxes)
        && FlatAfter(ops) == FlatNext(FlatAfter(front), last)
  {
    OrderlyPrefix(ops, |ops| - 1);
    var front := ops[..|ops| - 1];
    assert forall i | 0 <= i < |front| :: front[i] == ops[i];
  }

  /** The two views agree: on every name, whether registered or not. */
  ghost predicate SameMail(mail: Shards, f: Flat) {
    && mail.Ok()
    && (forall k | k in f.boxes :: mail.HasBucket(k))
    && (forall k :: mail.Box(k) == if k in f.boxes then f.boxes[k] else [])
    && (forall k :: mail.Beats(k) <==> k in f.beats)
  }

  lemma NextAgrees(mail: Shards, f: Flat, op: MailOp)
    requires SameMail(mail, f) && (op.Register? || op.name in f.boxes)
    ensures SameMail(ShardNext(mail, op), FlatNext(f, op))
  {
  }

  function NewShards(hash: string -> nat): (mail: Shards)
    ensures SameMail(mail, Flat(map[], {})) && mail.hash == hash
  {
    var mail := Shards(hash, seq(BUCKET_COUNT, _ => Bucket(None, None)));
    assert forall i | 0 <= i < BUCKET_COUNT :: mail.BucketOk(i);
    mail
  }

  ghost function ShardsAfter(hash: string -> nat, ops: seq<MailOp>): (mail: Shards)
    requires Orderly(ops)
    ensures SameMail(mail, FlatAfter(ops)) && mail.hash == hash
  {
    if ops == [] then NewShards(hash)
    else
      var last := |ops| - 1;
      FlatStep(ops);
      var before := ShardsAfter(hash, ops[..last]);
      NextAgrees(before, FlatAfter(ops[..last]), ops[last]);
      ShardNext(before, ops[last])
  }

  /** Any two hashes give the same mailboxes and the same heartbeats. */
  lemma HashDoesNotMatter(hash: string -> nat, other: string -> nat, ops: seq<MailOp>, name: string)
    requires Orderly(ops)
    ensures ShardsAfter(hash, ops).Box(name) == ShardsAfter(other, ops).Box(name)
    ensures ShardsAfter(hash, ops).Beats(name) == ShardsAfter(other, ops).Beats(name)
  {
    assert SameMail(ShardsAfter(hash, ops), FlatAfter(ops)) && SameMail(ShardsAfter(other, ops), FlatAfter(ops));
  }

  /** The history of one mailbox since its node last registered. */
  function History(ops: seq<MailOp>, name: string): seq<Event> {
    if ops == [] then []
    else
      var before, last := History(ops[..|ops| - 1], name), ops[|ops| - 1];
      if last.name != name then before
      else match last
        case Register(_) => []
        case Post(_, msg) => before + [Append(msg)]
        case Heartbeat(_, _) => before + [Fetch]
        case Expire(_) => before
  }

  /** The node has timed out since it last registered. */
  predicate Lost(ops: seq<MailOp>, name: string) {
    ops != [] &&
    var last := ops[|ops| - 1];
    if last.name == name && last.Register? then false
    else (last.name == name && last.Expire?) || Lost(ops[..|ops| - 1], name)
  }

  /** What waits in the shards for a node that has not timed out is what its own history since
      registration leaves pending; with the deliveries it is all that was appended and not withdrawn. */
  lemma ShardsDeliver(hash: string -> nat, ops: seq<MailOp>, name: string)
    requires Orderly(ops) && name in FlatAfter(ops).boxes && !Lost(ops, name)
    ensures var events := History(ops, name);
      && ShardsAfter(hash, ops).Box(name) == MailAfter(events).pending && Compatible(ShardsAfter(hash, ops).Box(name))
      && MailAfter(events).delivered + ShardsAfter(hash, ops).Box(name) == Survivors(events, 0, |events|)
  {
    var events := History(ops, name);
    PendingOfHistory(ops, name);
    MailboxDelivers(events);
    PendingIsCompatible(events);
  }

  lemma {:induction false} PendingOfHistory(ops: seq<MailOp>, name: string)
    requires Orderly(ops) && name in FlatAfter(ops).boxes && !Lost(ops, name)
    ensures FlatAfter(ops).boxes[name] == MailAfter(History(ops, name)).pending
  {
    var n := |ops| - 1;
    var last := ops[n];
    OrderlyPrefix(ops, n);
    if last.name != name {
      PendingOfHistory(ops[..n], name);
    } else if !last.Register? {
      PendingOfHistory(ops[..n], name);
      var before, events := History(ops[..n], name), History(ops, name);
      assert events[..|events| - 1] == before;
    }
  }

  ghost predicate HeartbeatsKnown(mail: Shards, names: set<string>)
    requires mail.Ok()
  {
    forall k | mail.Beats(k) :: k in names
  }

  /** What a heartbeat does under any name: without a bucket nothing. */
  function Beaten(mail: Shards, name: string, now: int): (mail': Shards)
    requires mail.Ok()
    ensures mail'.Ok()
  {
    if mail.HasBucket(name) then mail.WithBeat(name, now).WithBox(name, []) else mail
  }

  /** The search for late nodes needs every remembered heartbeat to be of a registered node. A
      heartbeat keeps this exactly if its node is registered or falls into a bucket never used: a stray
      heartbeat that shares a bucket with a registered node is remembered. */
  lemma StrayHeartbeat(mail: Shards, names: set<string>, name: string, now: int)
    requires mail.Ok() && HeartbeatsKnown(mail, names)
    ensures HeartbeatsKnown(Beaten(mail, name, now), names) <==> name in names || !mail.HasBucket(name)
  {
    if mail.HasBucket(name) {
      assert Beaten(mail, name, now).Beats(name);
    }
  }
}
