/** The nodes of the cluster and the messages waiting for them, kept in 64 buckets by a hash of the
    node's name. */
module NodeCaches {
  import opened Resources
  import opened Tasks
  import opened Messages

  datatype NodeState = NodeOnline | NodeOffline | NodeUnknown

  /** The fields of a node at one moment. */
  datatype NodeRec = NodeRec(
    state: NodeState, labels: map<string, string>, taints: map<string, string>,
    resources: Amounts, reserved: Amounts, available: Amounts)

  class WorkNode {
    const name: string
    const labels: map<string, string>
    const taints: map<string, string>
    const resources: Amounts
    const reserved: Amounts
    const available: ResourceSet
    var state: NodeState

    constructor (name: string, labels: map<string, string>, resources: Amounts, reserved: Amounts)
      ensures this.name == name && fresh(available)
      ensures Rec() == NodeRec(NodeOnline, labels, map[], resources, reserved, Consumed(resources, reserved))
    {
      var spare := new ResourceSet(resources);
      this.name, this.labels, this.taints := name, labels, map[];
      this.resources, this.reserved, this.available := resources, reserved, spare;
      state := NodeOnline;
      new;
      available.Consume(reserved);
    }

    function Rec(): NodeRec
      reads this, available
    {
      NodeRec(state, labels, taints, resources, reserved, available.Value())
    }
  }

  /** One shard; its maps are created when the first node falls into it. */
  datatype Bucket = Bucket(messages: Option<map<string, seq<Message>>>, periodics: Option<map<string, int>>)

  const BUCKET_COUNT := 64

  /** The 64 buckets and the hash that selects among them. */
  datatype Shards = Shards(hash: string -> nat, buckets: seq<Bucket>)
  {
    function Index(name: string): (i: nat)
      ensures i < BUCKET_COUNT
    {
      hash(name) % BUCKET_COUNT
    }

    /** Every name is kept in the bucket its hash selects, and a bucket's two maps are created together. */
    ghost predicate Ok() {
      && |buckets| == BUCKET_COUNT
      && forall i | 0 <= i < BUCKET_COUNT :: BucketOk(i)
    }

    ghost predicate BucketOk(i: nat)
      requires i < |buckets|
    {
      && buckets[i].messages.Some? == buckets[i].periodics.Some?
      && (buckets[i].messages.Some? ==> forall k | k in buckets[i].messages.value :: Index(k) == i)
      && (buckets[i].periodics.Some? ==> forall k | k in buckets[i].periodics.value :: Index(k) == i)
    }

    predicate HasBucket(name: string)
      requires |buckets| == BUCKET_COUNT
    {
      buckets[Index(name)].messages.Some?
    }

    /** The flat view of the mailboxes: the messages waiting under a name. */
    function Box(name: string): seq<Message>
      requires |buckets| == BUCKET_COUNT
    {
      var messages := buckets[Index(name)].messages;
      if messages.Some? && name in messages.value then messages.value[name] else []
    }

    /** The flat view of the heartbeats: one is remembered under this name. */
    predicate Beats(name: string)
      requires |buckets| == BUCKET_COUNT
    {
      var periodics := buckets[Index(name)].periodics;
      periodics.Some? && name in periodics.value
    }

    /** The time remembered under this name. */
    function Beat(name: string): Option<int>
      requires |buckets| == BUCKET_COUNT
    {
      if Beats(name) then Some(buckets[Index(name)].periodics.value[name]) else None
    }

    /** Creates the bucket of a name, or drops what it holds under that name. */
    function Cleared(name: string): (s: Shards)
      requires Ok()
      ensures s.Ok() && s.hash == hash && s.HasBucket(name)
      ensures s.Box(name) == [] && !s.Beats(name)
      ensures forall k | k != name :: s.Box(k) == Box(k) && s.Beats(k) == Beats(k)
      ensures forall k | HasBucket(k) :: s.HasBucket(k)
    {
      var b := buckets[Index(name)];
      assert BucketOk(Index(name));
      var messages := if b.messages.None? then map[] else b.messages.value - {name};
      var periodics := if b.periodics.None? then map[] else b.periodics.value - {name};
      Replaced(Index(name), Bucket(Some(messages), Some(periodics)))
    }

    function WithBox(name: string, msgs: seq<Message>): (s: Shards)
      requires Ok() && HasBucket(name)
      ensures s.Ok() && s.hash == hash && s.Box(name) == msgs
      ensures forall k | k != name :: s.Box(k) == Box(k)
      ensures forall k :: s.Beats(k) == Beats(k) && s.HasBucket(k) == HasBucket(k)
      ensures s.Beat(name) == Beat(name)
    {
      var b := buckets[Index(name)];
      assert BucketOk(Index(name));
      Replaced(Index(name), b.(messages := Some(b.messages.value[name := msgs])))
    }

    function WithBeat(name: string, now: int): (s: Shards)
      requires Ok() && HasBucket(name)
      ensures s.Ok() && s.hash == hash && s.Beat(name) == Some(now)
      ensures forall k | k != name :: s.Beats(k) == Beats(k)
      ensures forall k :: s.Box(k) == Box(k) && s.HasBucket(k) == HasBucket(k)
    {
      var b := buckets[Index(name)];
      assert BucketOk(Index(name));
      Replaced(Index(name), b.(periodics := Some(b.periodics.value[name := now])))
    }

    function Replaced(i: nat, b: Bucket): (s: Shards)
      requires Ok() && i < BUCKET_COUNT
      requires b.messages.Some? && b.periodics.Some?
      requires forall k | k in b.messages.value || k in b.periodics.value :: Index(k) == i
      ensures s.Ok() && s.hash == hash && s.buckets == buckets[i := b]
    {
      var s := Shards(hash, buckets[i := b]);
      assert forall k :: s.Index(k) == Index(k);
      assert forall j | 0 <= j < BUCKET_COUNT && j != i :: BucketOk(j) ==> s.BucketOk(j);
      assert s.BucketOk(i);
      s
    }
  }

  /** The mailboxes of these names are empty and nothing else changed. */
  ghost predicate Emptied(before: Shards, after: Shards, names: set<string>) {
    && before.Ok() && after.Ok() && after.hash == before.hash
    && forall k :: SameOrEmpty(before, after, k, k in names)
  }

  ghost predicate SameOrEmpty(before: Shards, after: Shards, k: string, emptied: bool)
    requires before.Ok() && after.Ok()
  {
    && after.Box(k) == (if emptied then [] else before.Box(k))
    && after.Beats(k) == before.Beats(k)
    && after.HasBucket(k) == before.HasBucket(k)
  }

  lemma EmptiedTransitive(a: Shards, b: Shards, c: Shards, names: set<string>, more: set<string>)
    requires Emptied(a, b, names) && Emptied(b, c, more)
    ensures Emptied(a, c, names + more)
  {
    forall k
      ensures SameOrEmpty(a, c, k, k in names + more)
    {
      assert SameOrEmpty(a, b, k, k in names) && SameOrEmpty(b, c, k, k in more);
    }
  }

  /** The online nodes with a remembered but expired heartbeat. */
  ghost function Late(states: map<string, NodeState>, mail: Shards, expired: set<string>): set<string>
    requires mail.Ok()
  {
    set k | k in states && mail.Beats(k) && k in expired && states[k] == NodeOnline
  }

  function Mark(state: NodeState, late: bool): NodeState {
    if late then NodeUnknown else state
  }

  /** The names with a heartbeat in one bucket. */
  lemma EmptiedBucket(before: Shards, after: Shards, names: set<string>, i: nat)
    requires Emptied(before, after, names) && i < BUCKET_COUNT
    ensures after.buckets[i].periodics.None? ==> forall k | before.Index(k) == i :: !before.Beats(k)
    ensures after.buckets[i].periodics.Some? ==>
      forall k :: k in after.buckets[i].periodics.value.Keys <==> before.Beats(k) && before.Index(k) == i
  {
    assert after.BucketOk(i);
    forall k
      ensures after.Index(k) == before.Index(k) && after.Beats(k) == before.Beats(k)
    {
      assert SameOrEmpty(before, after, k, k in names);
    }
  }

  /** Scheduled tasks wait only in the mailbox of the registered node they are assigned to. */
  ghost predicate Addressed(box: seq<Message>, name: string, registered: bool) {
    forall m | m in box && m.ScheduleTask? :: m.task.nodeName == name && registered
  }

  lemma AddressedAppend(box: seq<Message>, msg: Message, name: string, registered: bool)
    requires Addressed(box, name, registered)
    requires msg.ScheduleTask? ==> msg.task.nodeName == name && registered
    ensures Addressed(Kept(box, msg) + [msg], name, registered)
    ensures (exists m :: m in box && !Filter(msg, m)) ==> registered
  {
    KeptMembers(box, msg);
  }

  /** Availability after the tasks of withdrawn messages are given back, one after the other. */
  function GiveBackAll(a: Amounts, msgs: seq<Message>): Amounts {
    if msgs == [] then a
    else
      var last := msgs[|msgs| - 1];
      var before := GiveBackAll(a, msgs[..|msgs| - 1]);
      if last.ScheduleTask? then GivenBack(before, last.task.resources) else before
  }

  /** The list without the nodes of this name. */
  function Without(nodes: seq<WorkNode>, name: string): seq<WorkNode> {
    if nodes == [] then []
    else
      var last := nodes[|nodes| - 1];
      Without(nodes[..|nodes| - 1], name) + if last.name == name then [] else [last]
  }

  ghost predicate DistinctNames(nodes: seq<WorkNode>) {
    forall i, j | 0 <= i < j < |nodes| :: nodes[i].name != nodes[j].name
  }

  lemma {:induction false} WithoutAbsent(nodes: seq<WorkNode>, name: string)
    requires forall n | n in nodes :: n.name != name
    ensures Without(nodes, name) == nodes
  {
    if nodes != [] {
      WithoutAbsent(nodes[..|nodes| - 1], name);
    }
  }

  lemma {:induction false} WithoutOne(nodes: seq<WorkNode>, name: string, i: nat)
    requires i < |nodes| && nodes[i].name == name && DistinctNames(nodes)
    ensures Without(nodes, name) == nodes[..i] + nodes[i + 1..]
  {
    var last := |nodes| - 1;
    if i == last {
      WithoutAbsent(nodes[..last], name);
    } else {
      WithoutOne(nodes[..last], name, i);
      assert nodes[..last][..i] + nodes[..last][i + 1..] + [nodes[last]] == nodes[..i] + nodes[i + 1..];
    }
  }

  /** A map and a list hold the same nodes, one per name. */
  ghost predicate Indexed(nodeMap: map<string, WorkNode>, nodeList: seq<WorkNode>) {
    && (forall k {:trigger nodeMap[k]} | k in nodeMap :: nodeMap[k].name == k && nodeMap[k] in nodeList)
    && (forall n | n in nodeList :: n.name in nodeMap && nodeMap[n.name] == n)
    && DistinctNames(nodeList)
  }

  lemma {:induction false} WithoutMembers(nodes: seq<WorkNode>, name: string)
    ensures forall n | n in Without(nodes, name) :: n in nodes && n.name != name
    ensures forall n | n in nodes && n.name != name :: n in Without(nodes, name)
  {
    if nodes != [] {
      WithoutMembers(nodes[..|nodes| - 1], name);
    }
  }

  lemma {:induction false} WithoutDistinct(nodes: seq<WorkNode>, name: string)
    requires DistinctNames(nodes)
    ensures DistinctNames(Without(nodes, name))
  {
    if nodes != [] {
      var front := nodes[..|nodes| - 1];
      WithoutDistinct(front, name);
      WithoutMembers(front, name);
      assert forall n | n in front :: n.name != nodes[|nodes| - 1].name;
    }
  }

  /** Replacing the node of one name keeps map and list in agreement. */
  lemma ReplaceKeepsIndexed(nodeMap: map<string, WorkNode>, nodeList: seq<WorkNode>, node: WorkNode)
    requires Indexed(nodeMap, nodeList)
    ensures Indexed(nodeMap[node.name := node], Without(nodeList, node.name) + [node])
  {
    var rest := Without(nodeList, node.name);
    WithoutMembers(nodeList, node.name);
    WithoutDistinct(nodeList, node.name);
    var all := rest + [node];
    assert forall n :: n in all <==> n in rest || n == node;
  }

  /** Only the mailbox of this name may have changed. */
  ghost predicate OthersKept(mail: Shards, mail': Shards, name: string) {
    && mail.Ok() && mail'.Ok() && (forall k | mail.HasBucket(k) :: mail'.HasBucket(k))
    && (forall k | k != name :: mail'.Box(k) == mail.Box(k))
  }

  /** The mailbox of this name is now that, and no other has changed. */
  ghost predicate MailChanged(mail: Shards, mail': Shards, name: string, box: seq<Message>) {
    OthersKept(mail, mail', name) && mail'.HasBucket(name) && mail'.Box(name) == box
  }

  /** No two nodes share an availability object. */
  ghost predicate OwnAvailability(nodeMap: map<string, WorkNode>) {
    forall k, k' {:trigger nodeMap[k].available, nodeMap[k'].available} | k in nodeMap && k' in nodeMap && k != k' ::
      nodeMap[k].available != nodeMap[k'].available
  }

  class NodeCache {
    const hash: string -> nat
    var buckets: seq<Bucket>
    var nodeMap: map<string, WorkNode>
    var nodeList: seq<WorkNode>

    constructor (hash: string -> nat)
      ensures Valid() && nodeMap == map[]
    {
      this.hash := hash;
      buckets := seq(BUCKET_COUNT, _ => Bucket(None, None));
      nodeMap, nodeList := map[], [];
    }

    function Mail(): Shards
      reads this`buckets
    {
      Shards(hash, buckets)
    }

    ghost predicate Valid()
      reads this
    {
      && Indexed(nodeMap, nodeList)
      && OwnAvailability(nodeMap)
      && Mail().Ok()
      && (forall k {:trigger Mail().HasBucket(k)} | k in nodeMap :: Mail().HasBucket(k))
      && (forall k {:trigger Mail().Box(k)} :: Addressed(Mail().Box(k), k, k in nodeMap))
    }

    /** Deletes from the list while ranging over it: the range keeps the old length and sees the
        entries that deletion moved down. */
    method RemoveFromList(name: string)
      requires DistinctNames(nodeList)
      modifies this`nodeList
      ensures nodeList == Without(old(nodeList), name)
    {
      ghost var was := nodeList;
      var storage := nodeList;
      ghost var at: int := -1;
      for i := 0 to |storage|
        invariant |storage| == |was|
        invariant -1 <= at < i
        invariant at == -1 ==> nodeList == storage == was && forall k | 0 <= k < i :: was[k].name != name
        invariant at >= 0 ==> was[at].name == name
        invariant at >= 0 ==> nodeList == was[..at] + was[at + 1..]
        invariant at >= 0 ==> storage == nodeList + [was[|was| - 1]]
      {
        assert at >= 0 ==> storage[i] == if i < |was| - 1 then was[i + 1] else was[i];
        if storage[i].name == name {
          storage := storage[..i] + nodeList[i + 1..] + storage[|nodeList| - 1..];
          nodeList := storage[..|nodeList| - 1];
          at := i;
        }
      }
      if at >= 0 {
        WithoutOne(was, name, at);
      } else {
        WithoutAbsent(was, name);
      }
    }

    /** The map and the list forget the old node of this name and take the new one. */
    method IndexNode(node: WorkNode)
      requires Indexed(nodeMap, nodeList)
      modifies this`nodeMap, this`nodeList
      ensures Indexed(nodeMap, nodeList)
      ensures nodeMap == old(nodeMap)[node.name := node]
      ensures nodeList == Without(old(nodeList), node.name) + [node]
    {
      ReplaceKeepsIndexed(nodeMap, nodeList, node);
      if node.name in nodeMap {
        nodeMap := nodeMap - {node.name};
        RemoveFromList(node.name);
      } else {
        WithoutAbsent(nodeList, node.name);
      }
      nodeMap := nodeMap[node.name := node];
      nodeList := nodeList + [node];
      assert nodeMap == old(nodeMap)[node.name := node];
    }

    /** Registers a node, replacing the one of the same name with its mailbox and heartbeat. */
    method AddNode(node: WorkNode)
      requires Valid()
      requires forall k | k in nodeMap && k != node.name :: nodeMap[k].available != node.available
      modifies this
      ensures Valid()
      ensures nodeMap == old(nodeMap)[node.name := node]
      ensures nodeList == Without(old(nodeList), node.name) + [node]
      ensures MailChanged(old(Mail()), Mail(), node.name, []) && !Mail().Beats(node.name)
      ensures forall k | k != node.name :: Mail().Beats(k) == old(Mail()).Beats(k)
    {
      IndexNode(node);
      buckets := Mail().Cleared(node.name).buckets;
    }

    /** Whether a new message withdraws any of the waiting ones. */
    static method RulesOut(msgs: seq<Message>, msg: Message) returns (filterMsg: bool)
      ensures filterMsg <==> exists m :: m in msgs && !Filter(msg, m)
    {
      for i := 0 to |msgs|
        invariant forall k | 0 <= k < i :: Filter(msg, msgs[k])
      {
        if !Filter(msg, msgs[i]) {
          return true;
        }
      }
      return false;
    }

    /** Separates the waiting messages a new one withdraws and gives their resources back to the node. */
    method Withdraw(node: WorkNode, msgs: seq<Message>, msg: Message) returns (news: seq<Message>)
      modifies node.available
      ensures news == Kept(msgs, msg)
      ensures node.available.Value() == GiveBackAll(old(node.available.Value()), Withdrawn(msgs, msg))
    {
      news := [];
      for i := 0 to |msgs|
        invariant news == Kept(msgs[..i], msg)
        invariant node.available.Value() == GiveBackAll(old(node.available.Value()), Withdrawn(msgs[..i], msg))
      {
        assert msgs[..i + 1] == msgs[..i] + [msgs[i]];
        KeptAppend(msgs[..i], msgs[i], msg);
        ghost var gone := Withdrawn(msgs[..i], msg);
        assert gone + [] == gone;
        if Filter(msg, msgs[i]) {
          news := news + [msgs[i]];
        } else if msgs[i].ScheduleTask? {
          assert (gone + [msgs[i]])[..|gone|] == gone;
          node.available.GiveBack(msgs[i].task.resources);
        }
      }
      assert msgs[..|msgs|] == msgs;
    }

    /** Adds a message to a node's mailbox after withdrawing the waiting messages it rules out. */
    method AppendNodeMessage(name: string, msg: Message)
      requires Valid() && Mail().HasBucket(name)
      requires msg.ScheduleTask? ==> msg.task.nodeName == name && name in nodeMap
      modifies this`buckets, if name in nodeMap then {nodeMap[name].available} else {}
      ensures Valid()
      ensures MailChanged(old(Mail()), Mail(), name, Kept(old(Mail()).Box(name), msg) + [msg])
      ensures msg.ScheduleTask? ==> Mail().Box(name) == old(Mail()).Box(name) + [msg]
      ensures forall k :: Mail().Beats(k) == old(Mail()).Beats(k)
      ensures forall k :: Mail().HasBucket(k) == old(Mail()).HasBucket(k)
      ensures name in nodeMap ==>
        var withdrawn := Withdrawn(old(Mail()).Box(name), msg);
        nodeMap[name].available.Value() == GiveBackAll(old(nodeMap[name].available.Value()), withdrawn)
    {
      var msgs := Mail().Box(name);
      if msg.ScheduleTask? {
        StartWithdrawsNothing(msgs, msg.object_, msg.task);
      }
      AddressedAppend(msgs, msg, name, name in nodeMap);
      var filterMsg := RulesOut(msgs, msg);
      if filterMsg {
        msgs := Withdraw(nodeMap[name], msgs, msg);
      } else {
        NothingWithdrawn(msgs, msg);
      }
      buckets := Mail().WithBox(name, msgs + [msg]).buckets;
    }

    /** A heartbeat: remembers its time, then takes all messages waiting for the node. Without a
        bucket nothing happens and the node is told it is not found. */
    method PeriodicUpdate(name: string, now: int) returns (msgs: seq<Message>, found: bool)
      requires Valid()
      modifies this`buckets
      ensures Valid()
      ensures found <==> Mail().HasBucket(name)
      ensures msgs == old(Mail()).Box(name) && Mail().Box(name) == [] && Mail().Beats(name) == found
      ensures forall k | k != name :: Mail().Box(k) == old(Mail()).Box(k) && Mail().Beats(k) == old(Mail()).Beats(k)
      ensures forall k :: Mail().HasBucket(k) == old(Mail()).HasBucket(k)
      ensures found ==> Mail().Beat(name) == Some(now)
    {
      assert Mail().BucketOk(Mail().Index(name));
      if buckets[Mail().Index(name)].periodics.None? {
        return [], false;
      }
      buckets := Mail().WithBeat(name, now).buckets;
      msgs := Mail().Box(name);
      if name in buckets[Mail().Index(name)].messages.value {
        buckets := Mail().WithBox(name, []).buckets;
      }
      return msgs, true;
    }

    ghost function States(): map<string, NodeState>
      reads this`nodeMap, nodeMap.Values
    {
      map k | k in nodeMap :: nodeMap[k].state
    }

    /** Marks the late nodes unknown and empties their mailboxes. Every remembered heartbeat must be
        of a registered node, or the look-up of the node fails. */
    method CheckTimeoutNodes(expired: set<string>) returns (late: set<string>)
      requires Valid()
      requires forall k | Mail().Beats(k) :: k in nodeMap
      modifies this`buckets, nodeMap.Values
      ensures Valid()
      ensures late == Late(old(States()), old(Mail()), expired)
      ensures forall k | k in nodeMap :: nodeMap[k].state == Mark(old(nodeMap[k].state), k in late)
      ensures Emptied(old(Mail()), Mail(), late)
    {
      late := {};
      ghost var states, mail := States(), Mail();
      for i := 0 to BUCKET_COUNT
        invariant Valid()
        invariant late == set k | k in Late(states, mail, expired) && mail.Index(k) < i
        invariant forall k {:trigger nodeMap[k]} | k in nodeMap ::
          k in states && nodeMap[k].state == Mark(states[k], k in late)
        invariant Emptied(mail, Mail(), late)
      {
        var more := CheckBucket(i, expired, states, mail, late);
        late := late + more;
      }
    }

    method CheckBucket(i: nat, expired: set<string>, ghost states: map<string, NodeState>, ghost mail: Shards,
                       ghost done: set<string>)
      returns (late: set<string>)
      requires Valid() && i < BUCKET_COUNT
      requires mail.Ok() && forall k | mail.Beats(k) :: k in nodeMap
      requires forall k {:trigger nodeMap[k]} | k in nodeMap ::
        k in states && nodeMap[k].state == Mark(states[k], k in done)
      requires Emptied(mail, Mail(), done) && forall k | k in done :: mail.Index(k) < i
      modifies this`buckets, nodeMap.Values
      ensures Valid()
      ensures late == set k | k in Late(states, mail, expired) && mail.Index(k) == i
      ensures forall k {:trigger nodeMap[k]} | k in nodeMap :: nodeMap[k].state == Mark(states[k], k in done + late)
      ensures Emptied(mail, Mail(), done + late)
    {
      late := {};
      assert done + late == done;
      assert Mail().BucketOk(i);
      EmptiedBucket(mail, Mail(), done, i);
      if buckets[i].periodics.None? {
        return;
      }
      ghost var mid := Mail();
      late := CheckNames(buckets[i].periodics.value.Keys, expired);
      EmptiedTransitive(mail, mid, Mail(), done, late);
    }

    method CheckNames(all: set<string>, expired: set<string>) returns (late: set<string>)
      requires Valid() && all <= nodeMap.Keys
      modifies this`buckets, nodeMap.Values
      ensures Valid()
      ensures late == set k | k in all && old(nodeMap[k].state) == NodeOnline && k in expired
      ensures forall k {:trigger nodeMap[k]} | k in nodeMap ::
        nodeMap[k].state == Mark(old(nodeMap[k].state), k in late)
      ensures Emptied(old(Mail()), Mail(), late)
    {
      late := {};
      ghost var mail := Mail();
      var names := all;
      while names != {}
        invariant Valid() && names <= all
        invariant late !! names && late <= all
        invariant forall k {:trigger k in late} | k in all && k !in names ::
          k in late <==> old(nodeMap[k].state) == NodeOnline && k in expired
        invariant forall k {:trigger nodeMap[k]} | k in nodeMap ::
          nodeMap[k].state == Mark(old(nodeMap[k].state), k in late)
        invariant Emptied(mail, Mail(), late)
      {
        var k :| k in names;
        names := names - {k};
        var isLate := CheckNode(k, expired, mail, late);
        if isLate {
          late := late + {k};
        }
      }
    }

    method CheckNode(name: string, expired: set<string>, ghost mail: Shards, ghost done: set<string>)
      returns (isLate: bool)
      requires Valid() && name in nodeMap
      requires mail.Ok() && Emptied(mail, Mail(), done)
      modifies this`buckets, nodeMap.Values
      ensures Valid()
      ensures isLate <==> old(nodeMap[name].state) == NodeOnline && name in expired
      ensures forall k {:trigger nodeMap[k]} | k in nodeMap ::
        nodeMap[k].state == Mark(old(nodeMap[k].state), isLate && k == name)
      ensures Emptied(mail, Mail(), if isLate then done + {name} else done)
    {
      var node := nodeMap[name];
      if node.state != NodeOnline || name !in expired {
        return false;
      }
      node.state := NodeUnknown;
      ghost var mid := Mail();
      buckets := Mail().WithBox(name, []).buckets;
      assert Emptied(mid, Mail(), {name});
      EmptiedTransitive(mail, mid, Mail(), done, {name});
      return true;
    }
  }
}
