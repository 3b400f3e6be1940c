/**
 Networks, containers and names of the engine on values: what each engine
 operation, taken as one step, makes of them.  Wherever the program iterates over
 a map, the element it happens to meet first is a parameter of the step.
 */
module Topology {
  import opened Basics
  import opened Text
  import opened Addresses

  datatype Endpoint = Endpoint(name: string, addr: Addr, aliases: seq<string>)

  datatype Network = Network(name: string, id: string, index: nat, nextHost: nat, endpoints: map<string, Endpoint>)

  /** `service` is the compose service label, empty when absent; `running` is what the container answers when asked. */
  datatype Container = Container(name: string, service: string, networkMode: string, primary: Option<Addr>, running: bool)

  datatype Topo = Topo(networks: map<string, Network>, containers: map<string, Container>, names: map<string, string>)

  datatype Error =
    | NameRequired | NameTaken | NoSubnetLeft | NetworkNotFound | PredefinedNetwork | ActiveEndpoints
    | AlreadyConnected | NoAddressLeft | StillRunning

  /** An operation answers with an error or nil, and leaves a state. */
  datatype Reply = Reply(error: Option<Error>, topo: Topo)

  const INITIAL := Topo(map["bridge" := Network("bridge", "bridge-id", 0, 2, map[])], map[], map[])

  function Max(a: nat, b: nat): nat {
    if a < b then b else a
  }

  function Refuse(t: Topo, e: Error): Reply {
    Reply(Some(e), t)
  }

  function Done(t: Topo): Reply {
    Reply(None, t)
  }

  // ---------- networks ----------

  predicate NetworkNameTaken(t: Topo, name: string) {
    exists k :: k in t.networks && t.networks[k].name == name
  }

  function Indexes(t: Topo): set<nat> {
    set k | k in t.networks :: t.networks[k].index
  }

  function CreateNetwork(t: Topo, name: string, id: string): Reply {
    if name == "" then Refuse(t, NameRequired)
    else if NetworkNameTaken(t, name) then Refuse(t, NameTaken)
    else
      var index := LeastFree(Indexes(t), 1, 220);
      if index.None? then Refuse(t, NoSubnetLeft)
      else Done(t.(networks := t.networks[id := Network(name, id, index.value, 2, map[])]))
  }

  /** A reference hits a network by map key, by name, or by a prefix of the key. */
  predicate Hits(t: Topo, ref: string, k: string) {
    k in t.networks && (k == ref || t.networks[k].name == ref || ref <= k)
  }

  function RemoveNetwork(t: Topo, k: string): Reply
    requires k in t.networks
  {
    var n := t.networks[k];
    if n.name == "bridge" then Refuse(t, PredefinedNetwork)
    else if n.endpoints != map[] then Refuse(t, ActiveEndpoints)
    else Done(t.(networks := t.networks - {n.id}))
  }

  // ---------- containers ----------

  function CreateContainer(t: Topo, name: string, id: string, service: string): Reply {
    if name in t.names then Refuse(t, NameTaken)
    else Done(t.(containers := t.containers[id := Container(name, service, "default", None, false)],
                 names := t.names[name := id]))
  }

  function Detach(n: Network, id: string): Network {
    n.(endpoints := n.endpoints - {id})
  }

  function DetachAll(ns: map<string, Network>, id: string): map<string, Network> {
    map k | k in ns :: Detach(ns[k], id)
  }

  /** A running container is removed only by force. */
  function RemoveContainer(t: Topo, id: string, force: bool): Reply
    requires id in t.containers
  {
    if t.containers[id].running && !force then Refuse(t, StillRunning) else Done(EntriesDeleted(t, id, t.containers[id].name))
  }

  /** What a lifecycle step changes here. */
  function RunningSet(t: Topo, id: string, running: bool): Topo
    requires id in t.containers
  {
    t.(containers := t.containers[id := t.containers[id].(running := running)])
  }

  /** The delete region of a removal, for a container looked up earlier as `id` with this name. */
  function EntriesDeleted(t: Topo, id: string, name: string): Topo {
    Topo(DetachAll(t.networks, id), t.containers - {id}, t.names - {name})
  }

  // ---------- endpoints ----------

  /** Hosts in use on a network, by container. */
  function Hosts(n: Network, except: string): map<string, nat> {
    map id | id in n.endpoints && id != except :: n.endpoints[id].addr.host
  }

  /** An address on a network together with the high-water mark it implies. */
  datatype Slot = Slot(addr: Addr, nextHost: nat)

  /** An attached container keeps its address; otherwise the least free host is taken. */
  function PlanAddress(n: Network, id: string): Option<Slot> {
    if id in n.endpoints then Some(Slot(n.endpoints[id].addr, n.nextHost))
    else
      var h := LeastFree(Hosts(n, id).Values, 2, 254);
      if h.None? then None else Some(Slot(Addr(n.index, h.value), Max(n.nextHost, h.value + 1)))
  }

  function Attach(n: Network, id: string, e: Endpoint, nextHost: nat): Network {
    n.(endpoints := n.endpoints[id := e], nextHost := Max(n.nextHost, nextHost))
  }

  function Fresh(values: seq<string>, seen: set<string>): seq<string> {
    if values == [] then []
    else
      var v := TrimSpace(values[0]);
      if v == "" || ToLower(v) in seen then Fresh(values[1..], seen)
      else [v] + Fresh(values[1..], seen + {ToLower(v)})
  }

  function UniqueStrings(values: seq<string>): seq<string> {
    Sort(StrLe, Fresh(values, {}))
  }

  function EndpointAliases(c: Container, extra: seq<string>): seq<string> {
    var names := UniqueStrings(extra + [c.name]);
    var service := TrimSpace(c.service);
    if service == "" then names else UniqueStrings(names + [service])
  }

  // ---------- reconfiguration ----------

  predicate IsDefaultMode(mode: string) {
    var m := TrimSpace(mode);
    m == "" || m == "default" || m == "bridge"
  }

  /** The network references a container asks for, with the aliases on each. */
  function Wanted(mode: string, aliases: map<string, seq<string>>): map<string, seq<string>> {
    var m := TrimSpace(mode);
    var w := if IsDefaultMode(m) || m in aliases then aliases else aliases[m := []];
    if w == map[] then map["bridge" := []] else w
  }

  datatype Plan = Plan(key: string, endpoint: Endpoint, nextHost: nat)

  /** Addresses for refs[..], in order, against the unchanged state; None when one network is full. */
  function PlanAll(t: Topo, id: string, refs: seq<string>, wanted: map<string, seq<string>>, choice: map<string, string>): Option<seq<Plan>>
    requires id in t.containers
    requires forall r :: r in refs ==> r in wanted && r in choice && choice[r] in t.networks
  {
    if refs == [] then Some([])
    else
      var ref := refs[|refs| - 1];
      var earlier := PlanAll(t, id, refs[..|refs| - 1], wanted, choice);
      var slot := PlanAddress(t.networks[choice[ref]], id);
      if earlier.None? || slot.None? then None
      else
        var c := t.containers[id];
        var e := Endpoint(c.name, slot.value.addr, EndpointAliases(c, wanted[ref]));
        Some(earlier.value + [Plan(choice[ref], e, slot.value.nextHost)])
  }

  function Commit(ns: map<string, Network>, id: string, plans: seq<Plan>): (r: map<string, Network>)
    requires forall i :: 0 <= i < |plans| ==> plans[i].key in ns
    ensures r.Keys == ns.Keys
  {
    if plans == [] then ns
    else
      var last := plans[|plans| - 1];
      var r := Commit(ns, id, plans[..|plans| - 1]);
      r[last.key := Attach(r[last.key], id, last.endpoint, last.nextHost)]
  }

  /** The network mode recorded on success: the given one, or the first attached name. */
  function ModeAfter(t: Topo, mode: string, plans: seq<Plan>): string
    requires forall i :: 0 <= i < |plans| ==> plans[i].key in t.networks
  {
    var names := seq(|plans|, i requires 0 <= i < |plans| => t.networks[plans[i].key].name);
    var sorted := Sort(StrLe, names);
    if !IsDefaultMode(mode) then TrimSpace(mode)
    else if sorted == [] then "default"
    else sorted[0]
  }

  function WithoutNetwork(t: Topo, id: string, mode: string): Topo
    requires id in t.containers
  {
    Topo(DetachAll(t.networks, id),
         t.containers[id := t.containers[id].(networkMode := mode, primary := None)],
         t.names)
  }

  /** The planned endpoints replace every old one; the first plan gives the primary address. */
  function Committed(t: Topo, id: string, mode: string, plans: seq<Plan>): Topo
    requires id in t.containers
    requires forall i :: 0 <= i < |plans| ==> plans[i].key in t.networks
  {
    var primary := if plans == [] then None else Some(plans[0].endpoint.addr);
    Topo(Commit(DetachAll(t.networks, id), id, plans),
         t.containers[id := t.containers[id].(networkMode := mode, primary := primary)],
         t.names)
  }

  predicate NothingHit(t: Topo, ref: string) {
    forall k :: k in t.networks ==> !Hits(t, ref, k)
  }

  predicate Unresolved(t: Topo, wanted: map<string, seq<string>>) {
    exists r :: r in wanted && NothingHit(t, r)
  }

  /**
   `choice` says which network each reference met, for all references unless one meets nothing and the search
   stops there; `refs` is the sorted references.
   */
  predicate ChoiceLegal(t: Topo, wanted: map<string, seq<string>>, choice: map<string, string>, refs: seq<string>) {
    && (forall r :: r in choice ==> r in wanted && Hits(t, r, choice[r]))
    && (choice.Keys == wanted.Keys || Unresolved(t, wanted))
    && (set r | r in refs) == wanted.Keys
    && Sorted(StrLe, refs)
  }

  predicate Isolates(mode: string) {
    TrimSpace(mode) == "host" || TrimSpace(mode) == "none"
  }

  function Configure(t: Topo, id: string, mode: string, aliases: map<string, seq<string>>,
                     choice: map<string, string>, refs: seq<string>): Reply
    requires id in t.containers && ChoiceLegal(t, Wanted(mode, aliases), choice, refs)
  {
    var wanted := Wanted(mode, aliases);
    if Isolates(mode) then Done(WithoutNetwork(t, id, TrimSpace(mode)))
    else if wanted.Keys != choice.Keys then Refuse(t, NetworkNotFound)
    else
      var plans := PlanAll(t, id, refs, wanted, choice);
      if plans.None? then Refuse(t, NoAddressLeft)
      else
        PlansNameNetworks(t, id, refs, wanted, choice);
        Done(Committed(t, id, ModeAfter(t, mode, plans.value), plans.value))
  }

  /** A plan for each reference, each the slot its network offers. */
  lemma {:induction false} PlansNameNetworks(t: Topo, id: string, refs: seq<string>, wanted: map<string, seq<string>>, choice: map<string, string>)
    requires id in t.containers
    requires forall r :: r in refs ==> r in wanted && r in choice && choice[r] in t.networks
    ensures var plans := PlanAll(t, id, refs, wanted, choice);
            plans.Some? ==>
              && |plans.value| == |refs|
              && forall i :: 0 <= i < |refs| ==> plans.value[i].key == choice[refs[i]] && choice[refs[i]] in t.networks
  {
    if refs != [] {
      PlansNameNetworks(t, id, refs[..|refs| - 1], wanted, choice);
    }
  }

  // ---------- connect and disconnect ----------

  /** The address found first among the container's endpoints; `k` is where it was met. */
  predicate PrimaryChoice(ns: map<string, Network>, id: string, k: Option<string>) {
    match k
    case Some(key) => key in ns && id in ns[key].endpoints
    case None => forall key :: key in ns ==> id !in ns[key].endpoints
  }

  function PrimaryAt(ns: map<string, Network>, id: string, k: Option<string>): Option<Addr>
    requires PrimaryChoice(ns, id, k)
  {
    if k.None? then None else Some(ns[k.value].endpoints[id].addr)
  }

  function Connected(t: Topo, id: string, k: string, aliases: seq<string>): map<string, Network>
    requires id in t.containers && k in t.networks && PlanAddress(t.networks[k], "").Some?
  {
    var c, slot := t.containers[id], PlanAddress(t.networks[k], "").value;
    t.networks[k := Attach(t.networks[k], id,
                           Endpoint(c.name, slot.addr, UniqueStrings(aliases + [c.name, c.service])), slot.nextHost)]
  }

  /** `p` is where the search for the primary address would stop, if it is made at all. */
  predicate ConnectLegal(t: Topo, id: string, k: string, aliases: seq<string>, p: Option<string>) {
    && id in t.containers && k in t.networks
    && (PlanAddress(t.networks[k], "").Some? && id !in t.networks[k].endpoints ==>
          PrimaryChoice(Connected(t, id, k, aliases), id, p))
  }

  function Connect(t: Topo, id: string, k: string, aliases: seq<string>, p: Option<string>): Reply
    requires ConnectLegal(t, id, k, aliases, p)
  {
    if id in t.networks[k].endpoints then Refuse(t, AlreadyConnected)
    else if PlanAddress(t.networks[k], "").None? then Refuse(t, NoAddressLeft)
    else
      var ns := Connected(t, id, k, aliases);
      Done(Topo(ns, t.containers[id := t.containers[id].(primary := PrimaryAt(ns, id, p))], t.names))
  }

  function Disconnected(t: Topo, id: string, k: string): map<string, Network>
    requires k in t.networks
  {
    t.networks[k := Detach(t.networks[k], id)]
  }

  predicate DisconnectLegal(t: Topo, id: string, k: string, p: Option<string>) {
    id in t.containers && k in t.networks && PrimaryChoice(Disconnected(t, id, k), id, p)
  }

  function Disconnect(t: Topo, id: string, k: string, p: Option<string>): Reply
    requires DisconnectLegal(t, id, k, p)
  {
    var ns := Disconnected(t, id, k);
    Done(Topo(ns, t.containers[id := t.containers[id].(primary := PrimaryAt(ns, id, p))], t.names))
  }

  // ---------- steps ----------

  datatype Op =
    | OpCreateNetwork(name: string, id: string)
    | OpRemoveNetwork(key: string)
    | OpCreateContainer(name: string, id: string, service: string)
    | OpRemoveContainer(id: string, force: bool)
    | OpSetRunning(id: string, running: bool)
    | OpConfigure(id: string, mode: string, aliases: map<string, seq<string>>, choice: map<string, string>, refs: seq<string>)
    | OpConnect(id: string, key: string, extra: seq<string>, primary: Option<string>)
    | OpDisconnect(id: string, key: string, primary: Option<string>)

  /** New identifiers are fresh, references are live, and choices are ones the program could make. */
  predicate Legal(t: Topo, op: Op) {
    match op
    case OpCreateNetwork(name, id) => id !in t.networks
    case OpRemoveNetwork(k) => k in t.networks
    case OpCreateContainer(name, id, _) => id !in t.containers && id != ""
    case OpRemoveContainer(id, _) => id in t.containers
    case OpSetRunning(id, _) => id in t.containers
    case OpConfigure(id, mode, aliases, choice, refs) =>
      id in t.containers && ChoiceLegal(t, Wanted(mode, aliases), choice, refs)
    case OpConnect(id, k, extra, p) => ConnectLegal(t, id, k, extra, p)
    case OpDisconnect(id, k, p) => DisconnectLegal(t, id, k, p)
  }

  function Step(t: Topo, op: Op): Reply
    requires Legal(t, op)
  {
    match op
    case OpCreateNetwork(name, id) => CreateNetwork(t, name, id)
    case OpRemoveNetwork(k) => RemoveNetwork(t, k)
    case OpCreateContainer(name, id, service) => CreateContainer(t, name, id, service)
    case OpRemoveContainer(id, force) => RemoveContainer(t, id, force)
    case OpSetRunning(id, running) => Done(RunningSet(t, id, running))
    case OpConfigure(id, mode, aliases, choice, refs) => Configure(t, id, mode, aliases, choice, refs)
    case OpConnect(id, k, extra, p) => Connect(t, id, k, extra, p)
    case OpDisconnect(id, k, p) => Disconnect(t, id, k, p)
  }

  /** States of a run from a new engine; a failed operation is a step too. */
  predicate IsRun(ops: seq<Op>, states: seq<Topo>) {
    && |states| == |ops| + 1
    && states[0] == INITIAL
    && forall i :: 0 <= i < |ops| ==> Legal(states[i], ops[i]) && states[i + 1] == Step(states[i], ops[i]).topo
  }
}
