/** Replies over whole runs: stored values and ports stay in bounds, so only a replica's host decides. */
module ReplyRuns {
  import opened Basics
  import opened Text
  import opened StatePatches
  import opened Resp
  import opened RespCommands
  import opened RespReplies
  import opened Replication

  // ---------- bounds ----------

  predicate StoreBounded(kv: Store) {
    forall k :: k in kv ==> |kv[k]| <= MAX_BULK
  }

  predicate PortsBounded(n: Node) {
    n.port <= 65535 && (n.target.Some? ==> n.target.value.1 <= 65535)
  }

  predicate Bounds(c: Cluster) {
    && StoresExist(c)
    && (forall r :: r in c.stores ==> StoreBounded(c.stores[r]))
    && forall id :: id in c.nodes ==> PortsBounded(c.nodes[id])
  }

  /** Commands are ones the reader lets through, and ports ones the program accepts. */
  predicate OpBounded(op: Op) {
    match op
    case Create(_, _, target) => target.Some? ==> target.value.1 <= 65535
    case Command(_, args) => Bounded(args)
    case ReplicaOf(_, _, port, _) => port <= 65535
    case _ => true
  }

  predicate Possible(c: Cluster, op: Op) {
    op.Create? || op.id in c.nodes
  }

  lemma IncrementBounded(kv: Store, key: string)
    ensures |Incremented(kv, key)| <= MAX_BULK
  {
    IntTextShort(WrapInt64(AtoiLoose(Lookup(kv, key)) + 1));
  }

  lemma ApplyBounded(kv: Store, args: seq<string>)
    requires StoreBounded(kv) && Bounded(args)
    ensures StoreBounded(Apply(kv, args))
  {
    if |args| == 2 {
      IncrementBounded(kv, args[1]);
    }
  }

  lemma WriteBounded(kv: Store, args: seq<string>)
    requires StoreBounded(kv) && Bounded(args) && WriteOf(kv, args).Some?
    ensures StoreBounded(WriteOf(kv, args).value.kv) && Bounded(WriteOf(kv, args).value.propagate)
  {
    if |args| == 2 {
      IncrementBounded(kv, args[1]);
    }
  }

  lemma RefreshKeepsBounds(c: Cluster, view: View, id: string)
    requires Bounds(c)
    ensures Bounds(Refresh(c, view, id))
  {
  }

  lemma {:induction false} RefreshAllKeepsBounds(c: Cluster, view: View, order: seq<string>)
    requires Bounds(c)
    ensures Bounds(RefreshAll(c, view, order))
  {
    if order != [] {
      RefreshAllKeepsBounds(c, view, order[..|order| - 1]);
      RefreshKeepsBounds(RefreshAll(c, view, order[..|order| - 1]), view, order[|order| - 1]);
    }
  }

  lemma SyncedKeepsBounds(c: Cluster, id: string, view: View, order: seq<string>)
    requires Bounds(c) && id in c.nodes
    ensures Bounds(Synced(c, id, view, order))
  {
    RefreshKeepsBounds(c, view, id);
    RefreshAllKeepsBounds(Refresh(c, view, id), view, order);
  }

  lemma PropagatedKeepsBounds(c: Cluster, m: string, args: seq<string>)
    requires Bounds(c) && Bounded(args)
    ensures Bounds(Propagated(c, m, args))
  {
    forall r | r in c.stores ensures StoreBounded(Apply(c.stores[r], args)) {
      ApplyBounded(c.stores[r], args);
    }
  }

  lemma WrittenKeepsBounds(c: Cluster, id: string, args: seq<string>)
    requires Bounds(c) && id in c.nodes && Bounded(args)
    ensures Bounds(Written(c, id, args))
  {
    var n := c.nodes[id];
    var w := WriteOf(c.stores[n.store], args);
    if w.Some? {
      WriteBounded(c.stores[n.store], args);
      var changed := c.(stores := c.stores[n.store := w.value.kv]);
      PropagatedKeepsBounds(changed, id, w.value.propagate);
    }
  }

  lemma NodeKeepsBounds(c: Cluster, id: string, n: Node)
    requires Bounds(c) && id in c.nodes && n.store == c.nodes[id].store && PortsBounded(n)
    ensures Bounds(c.(nodes := c.nodes[id := n]))
  {
  }

  lemma StoppedKeepsBounds(c: Cluster, id: string)
    requires Bounds(c) && id in c.nodes
    ensures Bounds(RuntimeStopped(c, id)) && RuntimeStopped(c, id).nodes.Keys == c.nodes.Keys
  {
  }

  lemma StepKeepsBounds(c: Cluster, op: Op)
    requires Bounds(c) && Possible(c, op) && OpBounded(op)
    ensures Bounds(Step(c, op))
  {
    match op
    case Create(_, _, _) =>
    case Sync(id, running, view, order) =>
      NodeKeepsBounds(c, id, c.nodes[id].(running := running, runtime := true));
      SyncedKeepsBounds(c.(nodes := c.nodes[id := c.nodes[id].(running := running, runtime := true)]), id, view, order);
    case StartFails(id) => NodeKeepsBounds(c, id, c.nodes[id].(running := false, runtime := true));
    case Exit(id) => NodeKeepsBounds(c, id, c.nodes[id].(running := false));
    case StopRuntime(id) => StoppedKeepsBounds(c, id);
    case Reconnect(id, view, order) =>
      StoppedKeepsBounds(c, id);
      SyncedKeepsBounds(RuntimeStopped(c, id), id, view, order);
    case Remove(id) => StoppedKeepsBounds(c, id);
    case Command(id, args) => WrittenKeepsBounds(c, id, args);
    case ReplicaOf(id, host, port, view) =>
      NodeKeepsBounds(c, id, Redirected(c.nodes[id], host, port));
      RefreshKeepsBounds(c.(nodes := c.nodes[id := Redirected(c.nodes[id], host, port)]), view, id);
    case ReplicaOfNoOne(id) =>
      NodeKeepsBounds(c, id, c.nodes[id].(role := Master, host := "", port := 0, master := None, link := Up));
  }

  /** A run from no containers, in any topology and under any resolver. */
  predicate IsRun(ops: seq<Op>, states: seq<Cluster>) {
    && |states| == |ops| + 1
    && states[0] == EMPTY_CLUSTER
    && forall i :: 0 <= i < |ops| ==>
         StoresExist(states[i]) && Possible(states[i], ops[i]) && OpBounded(ops[i]) && states[i + 1] == Step(states[i], ops[i])
  }

  lemma {:induction false} RunBounds(ops: seq<Op>, states: seq<Cluster>, i: nat)
    requires IsRun(ops, states) && i < |states|
    ensures Bounds(states[i])
  {
    if i > 0 {
      RunBounds(ops, states, i - 1);
      StepKeepsBounds(states[i - 1], ops[i - 1]);
    }
  }

  // ---------- replies in a run ----------

  /** The replicas linked to this container. */
  function Followers(c: Cluster, id: string): set<string> {
    set r | r in c.nodes && r != id && c.nodes[r].redis && c.nodes[r].role.Slave? && c.nodes[r].master == Some(id) && c.nodes[r].link.Up?
  }

  /** What container `id` answers from. */
  function ServerOf(c: Cluster, id: string, seed: int, health: Health): Server
    requires StoresExist(c) && id in c.nodes
  {
    var n := c.nodes[id];
    Server(n.role.Slave?, c.stores[n.store], n.host, n.port, n.link.Up?, seed, health, |Followers(c, id)|)
  }

  lemma FollowersFew(c: Cluster, id: string)
    ensures |Followers(c, id)| <= |c.nodes|
  {
    var all, some := c.nodes.Keys, Followers(c, id);
    assert some <= all;
    var rest := all - some;
    assert all == some + rest && |all| == |some| + |rest|;
  }

  lemma ServerBounded(c: Cluster, id: string, seed: int, health: Health)
    requires Bounds(c) && id in c.nodes && |c.nodes| <= INT64_MAX && INT64_MIN <= seed <= INT64_MAX && KnownHealth(health)
    ensures BoundedServer(ServerOf(c, id, seed, health))
  {
    FollowersFew(c, id);
    assert StoreBounded(c.stores[c.nodes[id].store]) && PortsBounded(c.nodes[id]);
  }

  /**
   In every run, in any topology, a reply to a recognised command is exactly one frame if and only if it is not a
   replica's INFO or ROLE with a host too long for it.
   */
  lemma RepliesAreFrames(ops: seq<Op>, states: seq<Cluster>, i: nat, id: string, seed: int, health: Health, args: seq<string>)
    requires IsRun(ops, states) && i < |states| && id in states[i].nodes && StoresExist(states[i])
    requires |states[i].nodes| <= INT64_MAX && INT64_MIN <= seed <= INT64_MAX && KnownHealth(health)
    requires args != [] && Bounded(args) && BuiltIn(ServerOf(states[i], id, seed, health), args).Some?
    ensures var s := ServerOf(states[i], id, seed, health);
            OneFrame(Bytes(BuiltIn(s, args).value)) <==> HostFits(NameOf(args[0]), s)
  {
    RunBounds(ops, states, i);
    ServerBounded(states[i], id, seed, health);
    ReplyIsOneFrame(ServerOf(states[i], id, seed, health), args);
  }

  // ---------- the failing input ----------

  lemma InfoIsAName()
    ensures NameOf("INFO") == Info
  {
    assert ToUpper("INFO") == "INFO";
  }

  lemma RedirectedHost(c: Cluster, id: string, host: string, port: nat, view: View)
    requires StoresExist(c) && id in c.nodes && c.nodes[id].redis && c.nodes[id].target.None?
    ensures var d := Step(c, Op.ReplicaOf(id, host, port, view));
            StoresExist(d) && d.nodes.Keys == c.nodes.Keys && d.nodes[id].role.Slave? && d.nodes[id].host == host
  {
  }

  /** REPLICAOF with a host near 16 MiB is a bounded command and is answered OK. */
  lemma LongHostAccepted(s: Server, host: string, port: nat)
    requires 2 < |host| <= MAX_BULK && 0 < port <= 65535
    ensures var args := ["REPLICAOF", host, IntText(port)];
            Bounded(args) && BuiltIn(s, args) == Some(Status(OK))
  {
    var args := ["REPLICAOF", host, IntText(port)];
    IntTextShort(port);
    IntTextParses(port);
    assert ToUpper("REPLICAOF") == "REPLICAOF";
    assert |ToLower(host)| == |host| && |ToLower("NO")| == 2;
    assert NameOf(args[0]) == NameOf("REPLICAOF") == Name.ReplicaOf;
  }

  /** The INFO that follows is not accepted as a frame, for every host in the last 50 bytes before the bound. */
  lemma LongHostBreaksInfo(c: Cluster, id: string, host: string, port: nat, view: View, seed: int, health: Health)
    requires StoresExist(c) && id in c.nodes && c.nodes[id].redis && c.nodes[id].target.None?
    requires MAX_BULK - 50 <= |host| <= MAX_BULK
    ensures var d := Step(c, Op.ReplicaOf(id, host, port, view));
            && StoresExist(d) && id in d.nodes
            && var s := ServerOf(d, id, seed, health);
               BuiltIn(s, ["INFO"]).Some? && !OneFrame(Bytes(BuiltIn(s, ["INFO"]).value))
  {
    RedirectedHost(c, id, host, port, view);
    InfoBreaks(ServerOf(Step(c, Op.ReplicaOf(id, host, port, view)), id, seed, health));
  }

  lemma InfoBreaks(s: Server)
    requires s.slave && |s.masterHost| >= MAX_BULK - 50
    ensures BuiltIn(s, ["INFO"]) == Some(Text(InfoText(s))) && !OneFrame(Bytes(Text(InfoText(s))))
  {
    InfoIsAName();
    InfoLength(s);
    BulkExact(InfoText(s));
  }
}
