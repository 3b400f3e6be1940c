/**
 Redis master/replica state across containers.  Key-value maps are objects held by
 reference, so `stores` is an explicit heap and a node holds the name of its map.
 */
module Replication {
  import opened Basics
  import opened Text

  datatype Role = Master | Slave

  datatype Link = Up | Down

  type Store = map<string, string>

  /** `target` is the --replicaof argument of the command line; `runtime` says a listener runtime is mapped. */
  datatype Node = Node(
    redis: bool, running: bool, runtime: bool, target: Option<(string, nat)>,
    role: Role, host: string, port: nat, master: Option<string>, link: Link, store: nat)

  datatype Cluster = Cluster(nodes: map<string, Node>, stores: map<nat, Store>, next: nat)

  const EMPTY_CLUSTER := Cluster(map[], map[], 0)

  /**
   What name resolution answers at some moment: whether a host is an IP literal, who owns an IP, and the
   containers a host name resolves to from a requester, in DNS order.
   */
  datatype View = View(isIp: string -> bool, owner: string -> Option<string>, dns: (string, string) -> seq<string>)

  // ---------- mutations ----------

  function WithoutKeys(kv: Store, keys: seq<string>): Store {
    kv - set k | k in keys
  }

  /** What a propagated command does to a replica's map. */
  function Apply(kv: Store, args: seq<string>): Store {
    if args == [] then kv
    else
      var name := ToUpper(args[0]);
      if name == "SET" && |args| >= 3 then kv[args[1] := args[2]]
      else if name == "DEL" then WithoutKeys(kv, args[1..])
      else if name == "INCR" && |args| == 2 then kv[args[1] := Incremented(kv, args[1])]
      else kv
  }

  function Lookup(kv: Store, key: string): string {
    if key in kv then kv[key] else ""
  }

  /** 64-bit increment of whatever number the text holds, zero if it holds none. */
  function Incremented(kv: Store, key: string): string {
    IntText(WrapInt64(AtoiLoose(Lookup(kv, key)) + 1))
  }

  /** A write command's effect on the master and the form in which it is propagated. */
  datatype Write = Write(kv: Store, propagate: seq<string>)

  /** None for commands that write nothing. */
  function WriteOf(kv: Store, args: seq<string>): Option<Write> {
    if args == [] then None
    else
      var name := ToUpper(args[0]);
      if name == "SET" && |args| >= 3 then Some(Write(kv[args[1] := args[2]], args))
      else if name == "DEL" then Some(Write(WithoutKeys(kv, args[1..]), args))
      else if name == "INCR" && |args| == 2 then
        var v := Incremented(kv, args[1]);
        Some(Write(kv[args[1] := v], ["SET", args[1], v]))
      else None
  }

  // ---------- refresh ----------

  predicate IsCandidate(nodes: map<string, Node>, self: string, x: string) {
    x in nodes && nodes[x].redis && x != self
  }

  /** The first Redis container of the list other than the requester, or none when there is no such container. */
  function FirstRedis(nodes: map<string, Node>, self: string, found: seq<string>): (m: Option<string>)
    ensures m.Some? ==> IsCandidate(nodes, self, m.value)
    ensures m.Some? ==> exists i :: 0 <= i < |found| && found[i] == m.value && forall j :: 0 <= j < i ==> !IsCandidate(nodes, self, found[j])
    ensures m.None? ==> forall x :: x in found ==> !IsCandidate(nodes, self, x)
  {
    if found == [] then None
    else if IsCandidate(nodes, self, found[0]) then Some(found[0])
    else
      var m := FirstRedis(nodes, self, found[1..]);
      assert forall j :: 1 <= j < |found| ==> found[j] == found[1..][j - 1];
      m
  }

  function Resolve(nodes: map<string, Node>, view: View, self: string, host: string): Option<string> {
    if view.isIp(host) then
      var o := view.owner(host);
      if o.Some? && o.value in nodes then o else None
    else FirstRedis(nodes, self, view.dns(self, host))
  }

  /** The command line wins over what REPLICAOF has set. */
  function Retargeted(n: Node): Node {
    if n.target.None? then n else n.(role := Slave, host := n.target.value.0, port := n.target.value.1)
  }

  /** The container a refresh would copy from. */
  function Upstream(c: Cluster, view: View, id: string): Option<string>
    requires id in c.nodes
  {
    var n := Retargeted(c.nodes[id]);
    var m := Resolve(c.nodes, view, id, n.host);
    if m.Some? && m.value in c.nodes && c.nodes[m.value].running then m else None
  }

  predicate Follows(n: Node) {
    n.role.Slave? && n.host != "" && n.port != 0
  }

  predicate StoresExist(c: Cluster) {
    forall id :: id in c.nodes ==> c.nodes[id].store in c.stores
  }

  function Refresh(c: Cluster, view: View, id: string): Cluster
    requires StoresExist(c)
  {
    if id !in c.nodes || !c.nodes[id].redis then c
    else
      var n := Retargeted(c.nodes[id]);
      if !Follows(n) then c.(nodes := c.nodes[id := n])
      else
        var m := Upstream(c, view, id);
        if m.None? then c.(nodes := c.nodes[id := n.(master := None, link := Down)])
        else
          Cluster(c.nodes[id := n.(master := m, link := Up, store := c.next)],
                  c.stores[c.next := c.stores[c.nodes[m.value].store]],
                  c.next + 1)
  }

  /** Refreshes in the order the containers were met. */
  function RefreshAll(c: Cluster, view: View, order: seq<string>): (r: Cluster)
    requires StoresExist(c)
    ensures StoresExist(r)
  {
    if order == [] then c else Refresh(RefreshAll(c, view, order[..|order| - 1]), view, order[|order| - 1])
  }

  // ---------- propagation ----------

  /** A running replica linked to m. */
  predicate Linked(n: Node, m: string) {
    n.redis && n.role.Slave? && n.master == Some(m) && n.link.Up? && n.running
  }

  function Replicas(c: Cluster, m: string): set<string> {
    set id | id in c.nodes && id != m && Linked(c.nodes[id], m)
  }

  function ReplicaStores(c: Cluster, m: string): set<nat> {
    set id | id in Replicas(c, m) :: c.nodes[id].store
  }

  /** Only a Redis master passes writes on. */
  predicate Originates(c: Cluster, m: string) {
    m in c.nodes && c.nodes[m].redis && c.nodes[m].role.Master?
  }

  function Propagated(c: Cluster, m: string, args: seq<string>): Cluster
    requires StoresExist(c)
  {
    c.(stores := map r | r in c.stores :: if r in ReplicaStores(c, m) then Apply(c.stores[r], args) else c.stores[r])
  }

  function MarkDown(c: Cluster, m: string): Cluster {
    if m !in c.nodes || !c.nodes[m].redis then c
    else
      c.(nodes := map id | id in c.nodes ::
           if id != m && c.nodes[id].redis && c.nodes[id].master == Some(m) then c.nodes[id].(link := Down) else c.nodes[id])
  }

  // ---------- operations ----------

  datatype Op =
    | Create(id: string, redis: bool, target: Option<(string, nat)>)
    | Sync(id: string, running: bool, view: View, order: seq<string>)
    | StartFails(id: string)
    | Exit(id: string)
    | StopRuntime(id: string)
    | Reconnect(id: string, view: View, order: seq<string>)
    | Remove(id: string)
    | Command(id: string, args: seq<string>)
    | ReplicaOf(id: string, host: string, port: nat, view: View)
    | ReplicaOfNoOne(id: string)

  function Running(c: Cluster, id: string, running: bool): Cluster
    requires id in c.nodes
  {
    c.(nodes := c.nodes[id := c.nodes[id].(running := running)])
  }

  /** Stopping a mapped runtime tells the dependents; without one nothing happens. */
  function RuntimeStopped(c: Cluster, id: string): Cluster
    requires id in c.nodes
  {
    if c.nodes[id].runtime then MarkDown(c, id) else c
  }

  function Written(c: Cluster, id: string, args: seq<string>): Cluster
    requires id in c.nodes && StoresExist(c)
  {
    var n := c.nodes[id];
    var w := WriteOf(c.stores[n.store], args);
    if n.role.Slave? || w.None? then c
    else
      var changed := c.(stores := c.stores[n.store := w.value.kv]);
      if Originates(changed, id) then Propagated(changed, id, w.value.propagate) else changed
  }

  /** REPLICAOF forgets the old master until the refresh that follows. */
  function Redirected(n: Node, host: string, port: nat): Node {
    n.(role := Slave, host := host, port := port, master := None, link := Down)
  }

  /** The container is refreshed first, then every other one. */
  function Synced(c: Cluster, id: string, view: View, order: seq<string>): (r: Cluster)
    requires id in c.nodes && StoresExist(c)
  {
    if c.nodes[id].redis then RefreshAll(Refresh(c, view, id), view, order) else c
  }

  function Step(c: Cluster, op: Op): Cluster
    requires StoresExist(c) && (op.Create? || op.id in c.nodes)
  {
    match op
    case Create(id, redis, target) =>
      if id in c.nodes then c
      else
        Cluster(c.nodes[id := Node(redis, false, false, target, Master, "", 0, None, Up, c.next)],
                c.stores[c.next := map[]], c.next + 1)
    case Sync(id, running, view, order) =>
      var n := c.nodes[id].(running := running, runtime := true);
      Synced(c.(nodes := c.nodes[id := n]), id, view, order)
    case StartFails(id) => c.(nodes := c.nodes[id := c.nodes[id].(running := false, runtime := true)])
    case Exit(id) => Running(c, id, false)
    case StopRuntime(id) => RuntimeStopped(c, id)
    case Reconnect(id, view, order) => Synced(RuntimeStopped(c, id), id, view, order)
    case Remove(id) => RuntimeStopped(c, id).(nodes := RuntimeStopped(c, id).nodes - {id})
    case Command(id, args) => Written(c, id, args)
    case ReplicaOf(id, host, port, view) =>
      Refresh(c.(nodes := c.nodes[id := Redirected(c.nodes[id], host, port)]), view, id)
    case ReplicaOfNoOne(id) =>
      var n := c.nodes[id].(role := Master, host := "", port := 0, master := None, link := Up);
      c.(nodes := c.nodes[id := n])
  }
}
