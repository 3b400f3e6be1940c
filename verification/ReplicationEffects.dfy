/** What each replication operation does to every container and every map, and what clients see of it. */
module ReplicationEffects {
  import opened Basics
  import opened Text
  import opened StatePatches
  import opened Replication
  import opened ReplicationRuns
  import RespReplies
  import ReplyRuns

  /** The other containers and all maps are as they were. */
  predicate OnlyNode(c: Cluster, d: Cluster, id: string) {
    && id in c.nodes && d.nodes == c.nodes[id := if id in d.nodes then d.nodes[id] else c.nodes[id]]
    && d.stores == c.stores && d.next == c.next
  }

  /** What no operation on a container's links changes. */
  predicate SameContainer(n: Node, n': Node) {
    n'.redis == n.redis && n'.target == n.target && n'.runtime == n.runtime && n'.running == n.running
  }

  // ---------- REPLICAOF NO ONE ----------

  /** The container is a master with its link up and no master of its own; its map and everything else stay. */
  lemma NoOneEffect(c: Cluster, id: string)
    requires StoresExist(c) && id in c.nodes
    ensures var d := Step(c, ReplicaOfNoOne(id));
            && OnlyNode(c, d, id) && id in d.nodes && SameContainer(c.nodes[id], d.nodes[id])
            && var n := d.nodes[id];
               n.role == Master && n.host == "" && n.port == 0 && n.master == None && n.link == Up && n.store == c.nodes[id].store
  {
  }

  /** A SET on the promoted container is answered OK and is in its map. */
  lemma PromotedAcceptsWrites(c: Cluster, id: string, key: string, value: string, seed: int, health: Health)
    requires StoresExist(c) && id in c.nodes
    ensures var d := Step(c, ReplicaOfNoOne(id));
            && StoresExist(d) && id in d.nodes
            && RespReplies.BuiltIn(ReplyRuns.ServerOf(d, id, seed, health), ["SET", key, value]) == Some(RespReplies.Status("OK"))
            && var e := Step(d, Command(id, ["SET", key, value]));
               && id in e.nodes && e.nodes[id].store in e.stores
               && (NoSharing(c) ==> key in e.stores[e.nodes[id].store] && e.stores[e.nodes[id].store][key] == value)
  {
    var d := Step(c, ReplicaOfNoOne(id));
    NoOneEffect(c, id);
    assert ToUpper("SET") == "SET";
    RespReplies.SetIsRead(ReplyRuns.ServerOf(d, id, seed, health), ["SET", key, value], key);
    if NoSharing(c) {
      SetIsStored(d, id, key, value);
    }
  }

  lemma SetIsStored(c: Cluster, id: string, key: string, value: string)
    requires NoSharing(c) && id in c.nodes && c.nodes[id].role == Master
    ensures var e := Step(c, Command(id, ["SET", key, value]));
            && id in e.nodes && e.nodes[id].store in e.stores
            && key in e.stores[e.nodes[id].store] && e.stores[e.nodes[id].store][key] == value
  {
    assert ToUpper("SET") == "SET";
    var args := ["SET", key, value];
    assert WriteOf(c.stores[c.nodes[id].store], args).Some?;
    var changed := c.(stores := c.stores[c.nodes[id].store := c.stores[c.nodes[id].store][key := value]]);
    assert c.nodes[id].store !in ReplicaStores(changed, id);
  }

  /** No write on another container reaches a container that is not its linked replica. */
  lemma UnlinkedIsUntouched(c: Cluster, id: string, m: string, args: seq<string>)
    requires NoSharing(c) && id in c.nodes && m in c.nodes && id != m
    requires c.nodes[id].role == Master || c.nodes[id].master != Some(m) || c.nodes[id].link == Down
    ensures var e := Step(c, Command(m, args));
            id in e.nodes && e.nodes[id] == c.nodes[id] && e.nodes[id].store in e.stores
            && e.stores[e.nodes[id].store] == c.stores[c.nodes[id].store]
  {
    var n := c.nodes[m];
    var w := WriteOf(c.stores[n.store], args);
    if w.Some? {
      var changed := c.(stores := c.stores[n.store := w.value.kv]);
      assert c.nodes[id].store !in ReplicaStores(changed, m);
    }
  }

  /** In particular the old master's writes no longer change a promoted container's map. */
  lemma PromotedIsUntouched(c: Cluster, id: string, m: string, args: seq<string>)
    requires NoSharing(c) && id in c.nodes && m in c.nodes && id != m
    ensures var d := Step(c, ReplicaOfNoOne(id));
            && StoresExist(d) && m in d.nodes
            && var e := Step(d, Command(m, args));
               id in e.nodes && e.nodes[id].store in e.stores && e.stores[e.nodes[id].store] == c.stores[c.nodes[id].store]
  {
    var d := Step(c, ReplicaOfNoOne(id));
    NoOneEffect(c, id);
    UnlinkedIsUntouched(d, id, m, args);
  }

  // ---------- links ----------

  /** The host leads the requester to m: by address, or as the first Redis container other than itself that the name gives. */
  predicate LeadsTo(c: Cluster, view: View, id: string, host: string, m: string) {
    && m in c.nodes
    && if view.isIp(host) then view.owner(host) == Some(m)
       else
         var found := view.dns(id, host);
         exists i :: 0 <= i < |found| && found[i] == m && FirstOther(c, id, found, i)
  }

  predicate FirstOther(c: Cluster, id: string, found: seq<string>, i: nat)
    requires i < |found|
  {
    && found[i] in c.nodes && c.nodes[found[i]].redis && found[i] != id
    && forall j :: 0 <= j < i ==> found[j] !in c.nodes || !c.nodes[found[j]].redis || found[j] == id
  }

  /** A replica's link is up to the running container its host leads to, and down when it leads to none. */
  predicate LinkRight(c: Cluster, view: View, id: string)
    requires id in c.nodes
  {
    var n := c.nodes[id];
    n.redis && n.role == Slave && n.host != "" && n.port != 0 ==>
      if n.link == Up then n.master.Some? && LeadsToRunning(c, view, id, n.host, n.master.value)
      else n.master == None && forall m :: m in c.nodes ==> !LeadsToRunning(c, view, id, n.host, m)
  }

  predicate LeadsToRunning(c: Cluster, view: View, id: string, host: string, m: string) {
    LeadsTo(c, view, id, host, m) && c.nodes[m].running
  }

  lemma LeadsIsResolved(c: Cluster, view: View, id: string, host: string, m: string)
    ensures LeadsTo(c, view, id, host, m) <==> Resolve(c.nodes, view, id, host) == Some(m)
  {
    if !view.isIp(host) {
      FirstIsFirst(c, id, view.dns(id, host), m);
    }
  }

  lemma FirstIsFirst(c: Cluster, id: string, found: seq<string>, m: string)
    ensures (exists i :: 0 <= i < |found| && found[i] == m && FirstOther(c, id, found, i)) <==> FirstRedis(c.nodes, id, found) == Some(m)
  {
    var r := FirstRedis(c.nodes, id, found);
    if r.Some? {
      var i :| 0 <= i < |found| && found[i] == r.value && forall j :: 0 <= j < i ==> !IsCandidate(c.nodes, id, found[j]);
      assert FirstOther(c, id, found, i);
      forall k | 0 <= k < |found| && FirstOther(c, id, found, k) ensures k == i {
        assert IsCandidate(c.nodes, id, found[k]) && IsCandidate(c.nodes, id, found[i]);
      }
    } else {
      forall k | 0 <= k < |found| ensures !FirstOther(c, id, found, k) {
        assert found[k] in found && !IsCandidate(c.nodes, id, found[k]);
      }
    }
  }

  /** Nobody but id has changed, and every map there was has its contents. */
  predicate OthersKept(c: Cluster, d: Cluster, id: string) {
    && d.nodes.Keys == c.nodes.Keys && (forall x :: x in c.nodes && x != id ==> d.nodes[x] == c.nodes[x])
    && forall r :: r in c.stores && r < c.next ==> r in d.stores && d.stores[r] == c.stores[r]
  }

  /** The link fields a refresh leaves, in fields of the old cluster. */
  predicate Refreshed(c: Cluster, d: Cluster, view: View, id: string) {
    id in c.nodes && OthersKept(c, d, id) && Directed(c.nodes[id], d.nodes[id]) && LinkRight(d, view, id)
  }

  /** The command line's target, if there is one, is what the container replicates. */
  predicate Directed(n: Node, n': Node) {
    && SameContainer(n, n')
    && if n.target.Some? && n.redis then n'.role == Slave && n'.host == n.target.value.0 && n'.port == n.target.value.1
       else n'.role == n.role && n'.host == n.host && n'.port == n.port
  }

  lemma RefreshEffect(c: Cluster, view: View, id: string)
    requires StoresExist(c) && id in c.nodes
    ensures Refreshed(c, Refresh(c, view, id), view, id)
  {
    RefreshRight(c, view, id);
    RefreshFrame(c, view, id);
    RefreshDirects(c, view, id);
  }

  lemma RefreshFrame(c: Cluster, view: View, id: string)
    requires StoresExist(c) && id in c.nodes
    ensures OthersKept(c, Refresh(c, view, id), id)
  {
  }

  lemma RefreshDirects(c: Cluster, view: View, id: string)
    requires StoresExist(c) && id in c.nodes
    ensures id in Refresh(c, view, id).nodes && Directed(c.nodes[id], Refresh(c, view, id).nodes[id])
  {
  }

  lemma RefreshRight(c: Cluster, view: View, id: string)
    requires StoresExist(c) && id in c.nodes
    ensures id in Refresh(c, view, id).nodes && LinkRight(Refresh(c, view, id), view, id)
  {
    var d := Refresh(c, view, id);
    RefreshKeepsMasters(c, view, id);
    RefreshSettles(c, view, id, id);
    SettledIsRight(d, view, id);
  }

  lemma SettledIsRight(c: Cluster, view: View, x: string)
    requires x in c.nodes && LinkSettled(c, view, x) && (c.nodes[x].redis ==> Retargeted(c.nodes[x]) == c.nodes[x])
    ensures LinkRight(c, view, x)
  {
    forall m | m in c.nodes ensures LeadsTo(c, view, x, c.nodes[x].host, m) <==> Resolve(c.nodes, view, x, c.nodes[x].host) == Some(m) {
      LeadsIsResolved(c, view, x, c.nodes[x].host, m);
    }
  }

  /** A linked replica has a new map of its own with its master's contents; otherwise no map is made or changed. */
  lemma RefreshCopies(c: Cluster, view: View, id: string)
    requires NoSharing(c) && id in c.nodes && c.nodes[id].redis
    ensures var d := Refresh(c, view, id);
            && id in d.nodes
            && var n' := d.nodes[id];
               if n'.role == Slave && n'.host != "" && n'.port != 0 && n'.link == Up then
                 && n'.master.Some? && n'.master.value in c.nodes && c.nodes[n'.master.value].running
                 && n'.store !in c.stores && d.stores == c.stores[n'.store := c.stores[c.nodes[n'.master.value].store]]
               else n'.store == c.nodes[id].store && d.stores == c.stores && d.next == c.next
  {
  }

  // ---------- REPLICAOF, starts and reconnects ----------

  /** REPLICAOF makes the container a replica of the host and port, linked where they lead; nobody else changes. */
  lemma ReplicaOfEffect(c: Cluster, id: string, host: string, port: nat, view: View)
    requires StoresExist(c) && id in c.nodes && c.nodes[id].redis && c.nodes[id].target.None?
    ensures var d := Step(c, ReplicaOf(id, host, port, view));
            && id in d.nodes && SameContainer(c.nodes[id], d.nodes[id])
            && d.nodes[id].role == Slave && d.nodes[id].host == host && d.nodes[id].port == port
            && (host != "" && port != 0 ==> LinkRight(d, view, id))
            && (forall x :: x in c.nodes && x != id ==> x in d.nodes && d.nodes[x] == c.nodes[x])
            && (forall x :: x in d.nodes ==> x in c.nodes)
  {
    RefreshEffect(c.(nodes := c.nodes[id := Redirected(c.nodes[id], host, port)]), view, id);
  }

  /** Refreshing one container unsettles no other's link. */
  lemma RefreshKeepsRight(c: Cluster, view: View, id: string, x: string)
    requires StoresExist(c) && x in c.nodes && id in c.nodes && (x == id || LinkRight(c, view, x))
    ensures x in Refresh(c, view, id).nodes && LinkRight(Refresh(c, view, id), view, x)
  {
    if x == id {
      RefreshRight(c, view, id);
    } else {
      RefreshKeepsMasters(c, view, id);
      RefreshKeepsOthers(c, view, id, x);
      LinkStaysRight(c, Refresh(c, view, id), view, x);
    }
  }

  lemma LinkStaysRight(c: Cluster, d: Cluster, view: View, x: string)
    requires SameMasters(c, d) && x in c.nodes && d.nodes[x] == c.nodes[x] && LinkRight(c, view, x)
    ensures LinkRight(d, view, x)
  {
    var host := c.nodes[x].host;
    SameCandidate(c, d, x, view.dns(x, host));
    forall m | m in c.nodes ensures LeadsToRunning(d, view, x, host, m) <==> LeadsToRunning(c, view, x, host, m) {
      LeadsIsResolved(c, view, x, host, m);
      LeadsIsResolved(d, view, x, host, m);
    }
  }

  lemma {:induction false} RefreshAllRight(c: Cluster, view: View, order: seq<string>, x: string)
    requires StoresExist(c) && x in c.nodes && (forall y :: y in order ==> y in c.nodes) && (x in order || LinkRight(c, view, x))
    ensures x in RefreshAll(c, view, order).nodes && LinkRight(RefreshAll(c, view, order), view, x)
  {
    if order != [] {
      var prior, last := order[..|order| - 1], order[|order| - 1];
      assert order == prior + [last];
      RefreshAllKeepsFlags(c, view, prior, x);
      if x != last {
        RefreshAllRight(c, view, prior, x);
      }
      RefreshKeepsRight(RefreshAll(c, view, prior), view, last, x);
    }
  }

  /** A start with its refreshes, in any order, leaves every refreshed container's link right. */
  lemma StartEffect(c: Cluster, id: string, running: bool, view: View, order: seq<string>, x: string)
    requires StoresExist(c) && id in c.nodes && c.nodes[id].redis && x in c.nodes && (forall y :: y in order ==> y in c.nodes)
    requires x == id || x in order
    ensures var d := Step(c, Sync(id, running, view, order));
            && d.nodes.Keys == c.nodes.Keys && LinkRight(d, view, x)
            && d.nodes[id].running == running && d.nodes[id].runtime
  {
    var e := c.(nodes := c.nodes[id := c.nodes[id].(running := running, runtime := true)]);
    SyncedRight(e, id, view, order, x);
  }

  lemma SyncedRight(c: Cluster, id: string, view: View, order: seq<string>, x: string)
    requires StoresExist(c) && id in c.nodes && c.nodes[id].redis && x in c.nodes && (forall y :: y in order ==> y in c.nodes)
    requires x == id || x in order
    ensures var d := Synced(c, id, view, order);
            && d.nodes.Keys == c.nodes.Keys && LinkRight(d, view, x)
            && d.nodes[id].running == c.nodes[id].running && d.nodes[id].runtime == c.nodes[id].runtime
  {
    var one := Refresh(c, view, id);
    RefreshKeepsFlags(c, view, id, id);
    if x == id {
      RefreshKeepsRight(c, view, id, id);
    }
    RefreshAllRight(one, view, order, x);
    RefreshAllKeepsFlags(one, view, order, id);
  }

  lemma RefreshKeepsFlags(c: Cluster, view: View, id: string, x: string)
    requires StoresExist(c) && x in c.nodes
    ensures var d := Refresh(c, view, id);
            && StoresExist(d) && d.nodes.Keys == c.nodes.Keys
            && d.nodes[x].running == c.nodes[x].running && d.nodes[x].runtime == c.nodes[x].runtime
  {
    RefreshKeepsMasters(c, view, id);
    if x == id {
      RefreshDirects(c, view, id);
    } else {
      RefreshKeepsOthers(c, view, id, x);
    }
    assert Refresh(c, view, id) == RefreshAll(c, view, [id]);
  }

  lemma {:induction false} RefreshAllKeepsFlags(c: Cluster, view: View, order: seq<string>, x: string)
    requires StoresExist(c) && x in c.nodes
    ensures var d := RefreshAll(c, view, order);
            && d.nodes.Keys == c.nodes.Keys
            && d.nodes[x].running == c.nodes[x].running && d.nodes[x].runtime == c.nodes[x].runtime
  {
    if order != [] {
      RefreshAllKeepsFlags(c, view, order[..|order| - 1], x);
      RefreshKeepsFlags(RefreshAll(c, view, order[..|order| - 1]), view, order[|order| - 1], x);
    }
  }

  /** A reconnect leaves every refreshed link right again. */
  lemma ReconnectEffect(c: Cluster, id: string, view: View, order: seq<string>, x: string)
    requires StoresExist(c) && id in c.nodes && c.nodes[id].redis && x in c.nodes && (forall y :: y in order ==> y in c.nodes)
    requires x == id || x in order
    ensures var d := Step(c, Reconnect(id, view, order)); d.nodes.Keys == c.nodes.Keys && LinkRight(d, view, x)
  {
    StopEffect(c, id);
    SyncedRight(RuntimeStopped(c, id), id, view, order, x);
  }

  // ---------- stops, exits, removals ----------

  /** Stopping a mapped runtime of a Redis container takes down exactly the links of those that follow it. */
  lemma StopEffect(c: Cluster, id: string)
    requires StoresExist(c) && id in c.nodes
    ensures var d := Step(c, StopRuntime(id));
            && d.stores == c.stores && d.next == c.next && d.nodes.Keys == c.nodes.Keys
            && forall x :: x in c.nodes ==>
                 d.nodes[x] == if x != id && c.nodes[id].runtime && c.nodes[id].redis && c.nodes[x].redis && c.nodes[x].master == Some(id)
                               then c.nodes[x].(link := Down) else c.nodes[x]
  {
  }

  /** An exit and a failed start only take the running mark away. */
  lemma ExitEffect(c: Cluster, id: string)
    requires StoresExist(c) && id in c.nodes
    ensures Step(c, Exit(id)) == c.(nodes := c.nodes[id := c.nodes[id].(running := false)])
    ensures Step(c, StartFails(id)) == c.(nodes := c.nodes[id := c.nodes[id].(running := false, runtime := true)])
  {
  }

  /** A removal takes exactly the container away, after its stop. */
  lemma RemoveEffect(c: Cluster, id: string)
    requires StoresExist(c) && id in c.nodes
    ensures var d := Step(c, Remove(id));
            && id !in d.nodes && d.stores == c.stores
            && forall x :: x in c.nodes && x != id ==> x in d.nodes && d.nodes[x] == Step(c, StopRuntime(id)).nodes[x]
  {
  }

  /** A new container is a master without contents, with a map of its own, not running. */
  lemma CreateEffect(c: Cluster, id: string, redis: bool, target: Option<(string, nat)>)
    requires NoSharing(c) && id !in c.nodes
    ensures var d := Step(c, Create(id, redis, target));
            && id in d.nodes && d.nodes[id].store in d.stores && d.stores[d.nodes[id].store] == map[] && d.nodes[id].store !in c.stores
            && d.nodes[id].role == Master && !d.nodes[id].running && d.nodes[id].redis == redis && d.nodes[id].target == target
            && forall x :: x in c.nodes ==> x in d.nodes && d.nodes[x] == c.nodes[x] && d.stores[d.nodes[x].store] == c.stores[c.nodes[x].store]
  {
  }

  /** A replica's client changes nothing anywhere. */
  lemma ReplicaWritesNothing(c: Cluster, id: string, args: seq<string>)
    requires StoresExist(c) && id in c.nodes && c.nodes[id].role == Slave
    ensures Step(c, Command(id, args)) == c
  {
  }
}
