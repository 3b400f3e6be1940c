/** Replica agreement over every run of a star topology, and exactly what chaining replicas costs. */
module ReplicationRuns {
  import opened Basics
  import opened Text
  import opened Replication

  // ---------- invariants ----------

  /** A container nobody has made a replica, by command line or otherwise. */
  predicate PureMaster(n: Node) {
    n.redis && n.role.Master? && n.target.None?
  }

  /** No two containers hold the same map object. */
  predicate NoSharing(c: Cluster) {
    && StoresExist(c)
    && (forall r :: r in c.stores ==> r < c.next)
    && (forall a, b :: a in c.nodes && b in c.nodes && c.nodes[a].store == c.nodes[b].store ==> a == b)
  }

  predicate Attached(n: Node) {
    n.redis && n.role.Slave? && n.link.Up?
  }

  /** Every attached replica follows a pure master that has a runtime. */
  predicate StarLinks(c: Cluster) {
    forall r :: r in c.nodes && Attached(c.nodes[r]) ==>
      && c.nodes[r].master.Some?
      && var m := c.nodes[r].master.value;
         m in c.nodes && m != r && PureMaster(c.nodes[m]) && c.nodes[m].runtime
  }

  /** The property itself: a running replica whose link is up has its master's contents. */
  predicate Agrees(c: Cluster, r: string)
    requires r in c.nodes
  {
    var n := c.nodes[r];
    Attached(n) && n.running ==>
      && n.master.Some? && n.master.value in c.nodes
      && n.store in c.stores && c.nodes[n.master.value].store in c.stores
      && c.stores[n.store] == c.stores[c.nodes[n.master.value].store]
  }

  predicate Agreement(c: Cluster) {
    forall r :: r in c.nodes ==> Agrees(c, r)
  }

  predicate NodeSound(n: Node) {
    && (n.running ==> n.runtime)
    && (n.target.Some? ==> n.target.value.0 != "" && n.target.value.1 > 0)
    && (Attached(n) ==> Follows(n))
  }

  /** Everything but agreement. */
  predicate Framed(c: Cluster) {
    NoSharing(c) && StarLinks(c) && forall id :: id in c.nodes ==> NodeSound(c.nodes[id])
  }

  predicate ClusterSound(c: Cluster) {
    Framed(c) && Agreement(c)
  }

  predicate AgreementBut(c: Cluster, id: string) {
    forall r :: r in c.nodes && r != id ==> Agrees(c, r)
  }

  /** The host a container follows, by its command line or by REPLICAOF. */
  function FollowedHost(n: Node): Option<string> {
    if n.redis && Follows(Retargeted(n)) then Some(Retargeted(n).host) else None
  }

  /** Every replica's own master host resolves to a pure master other than itself, or to nothing; other names are free. */
  predicate StarView(c: Cluster, view: View) {
    forall id :: id in c.nodes && FollowedHost(c.nodes[id]).Some? ==> FollowsPureMaster(c, view, id)
  }

  predicate FollowsPureMaster(c: Cluster, view: View, id: string)
    requires id in c.nodes && FollowedHost(c.nodes[id]).Some?
  {
    var m := Resolve(c.nodes, view, id, FollowedHost(c.nodes[id]).value);
    m.Some? ==> m.value in c.nodes && m.value != id && PureMaster(c.nodes[m.value])
  }

  // ---------- refresh ----------

  /** Same containers, kinds, pure masters and followed hosts: resolution cannot tell the clusters apart. */
  predicate SameShape(c: Cluster, d: Cluster) {
    && c.nodes.Keys == d.nodes.Keys
    && forall id :: id in c.nodes ==>
         && c.nodes[id].redis == d.nodes[id].redis && PureMaster(c.nodes[id]) == PureMaster(d.nodes[id])
         && FollowedHost(c.nodes[id]) == FollowedHost(d.nodes[id])
  }

  lemma {:induction false} SameFirstRedis(c: Cluster, d: Cluster, self: string, found: seq<string>)
    requires SameShape(c, d)
    ensures FirstRedis(c.nodes, self, found) == FirstRedis(d.nodes, self, found)
  {
    if found != [] {
      SameFirstRedis(c, d, self, found[1..]);
    }
  }

  lemma StarViewKept(c: Cluster, d: Cluster, view: View)
    requires SameShape(c, d) && StarView(c, view)
    ensures StarView(d, view)
  {
    forall id | id in d.nodes && FollowedHost(d.nodes[id]).Some? ensures FollowsPureMaster(d, view, id) {
      assert FollowsPureMaster(c, view, id);
      SameFirstRedis(c, d, id, view.dns(id, FollowedHost(c.nodes[id]).value));
    }
  }

  /** d is c with the replica `id` changed: attached to a running pure master with a fresh copy, or not attached. */
  predicate Replaced(c: Cluster, d: Cluster, id: string) {
    && id in c.nodes && d.nodes.Keys == c.nodes.Keys
    && (forall r :: r in c.nodes && r != id ==> d.nodes[r] == c.nodes[r])
    && d.nodes[id].role.Slave? && d.nodes[id].redis && c.nodes[id].redis && !PureMaster(c.nodes[id])
    && FollowedHost(d.nodes[id]) == FollowedHost(c.nodes[id])
    && NodeSound(d.nodes[id]) && StoresExist(c)
    && if Attached(d.nodes[id]) then
         && d.nodes[id].master.Some?
         && var m := d.nodes[id].master.value;
            && m in c.nodes && m != id && PureMaster(c.nodes[m]) && c.nodes[m].running
            && d.nodes[id].store == c.next
            && d.stores == c.stores[c.next := c.stores[c.nodes[m].store]] && d.next == c.next + 1
       else
         d.nodes[id].store == c.nodes[id].store && d.stores == c.stores && d.next == c.next
  }

  lemma RefreshReplaces(c: Cluster, view: View, id: string)
    requires StoresExist(c) && StarView(c, view) && (id in c.nodes ==> NodeSound(c.nodes[id]))
    ensures Refresh(c, view, id) == c || Replaced(c, Refresh(c, view, id), id)
    ensures Refresh(c, view, id) == c && id in c.nodes ==> !Attached(c.nodes[id])
  {
    if id in c.nodes && c.nodes[id].redis {
      assert c.nodes[id := c.nodes[id]] == c.nodes;
      assert FollowedHost(c.nodes[id]).Some? ==> FollowsPureMaster(c, view, id);
    }
  }

  lemma ReplacedKeepsStores(c: Cluster, d: Cluster, id: string)
    requires NoSharing(c) && Replaced(c, d, id)
    ensures NoSharing(d)
  {
  }

  lemma ReplacedKeepsStar(c: Cluster, d: Cluster, id: string)
    requires StarLinks(c) && Replaced(c, d, id) && forall x :: x in c.nodes ==> NodeSound(c.nodes[x])
    ensures StarLinks(d)
  {
  }

  /** Nobody follows a replica in a star, so changing one disturbs no other agreement. */
  lemma ReplacedKeepsAgreement(c: Cluster, d: Cluster, id: string)
    requires NoSharing(c) && StarLinks(c) && AgreementBut(c, id) && Replaced(c, d, id)
    ensures Agreement(d)
  {
    forall r | r in d.nodes ensures Agrees(d, r) {
      if r != id {
        assert Agrees(c, r);
        assert Attached(c.nodes[r]) ==> c.nodes[r].master != Some(id);
      }
    }
  }

  /** A refresh repairs the refreshed container, whatever state it was in, and keeps the others. */
  lemma RefreshRepairs(c: Cluster, view: View, id: string)
    requires Framed(c) && AgreementBut(c, id) && StarView(c, view)
    ensures ClusterSound(Refresh(c, view, id)) && SameShape(c, Refresh(c, view, id))
  {
    RefreshReplaces(c, view, id);
    if Refresh(c, view, id) != c {
      ReplacedKeepsStores(c, Refresh(c, view, id), id);
      ReplacedKeepsStar(c, Refresh(c, view, id), id);
      ReplacedKeepsAgreement(c, Refresh(c, view, id), id);
    }
  }

  lemma {:induction false} RefreshAllKeepsSound(c: Cluster, view: View, order: seq<string>)
    requires ClusterSound(c) && StarView(c, view)
    ensures ClusterSound(RefreshAll(c, view, order)) && SameShape(c, RefreshAll(c, view, order))
  {
    if order != [] {
      var d := RefreshAll(c, view, order[..|order| - 1]);
      RefreshAllKeepsSound(c, view, order[..|order| - 1]);
      StarViewKept(c, d, view);
      RefreshRepairs(d, view, order[|order| - 1]);
    }
  }

  // ---------- what a refresh achieves ----------

  /** Same containers, kinds, running marks and followed hosts: every name leads to the same upstream. */
  predicate SameMasters(c: Cluster, d: Cluster) {
    && c.nodes.Keys == d.nodes.Keys
    && forall x :: x in c.nodes ==>
         && c.nodes[x].redis == d.nodes[x].redis && c.nodes[x].running == d.nodes[x].running
         && FollowedHost(c.nodes[x]) == FollowedHost(d.nodes[x])
  }

  lemma {:induction false} SameCandidate(c: Cluster, d: Cluster, self: string, found: seq<string>)
    requires SameMasters(c, d)
    ensures FirstRedis(c.nodes, self, found) == FirstRedis(d.nodes, self, found)
  {
    if found != [] {
      SameCandidate(c, d, self, found[1..]);
    }
  }

  lemma SameUpstream(c: Cluster, d: Cluster, view: View, r: string)
    requires SameMasters(c, d) && r in c.nodes && Retargeted(c.nodes[r]).host == Retargeted(d.nodes[r]).host
    ensures Upstream(c, view, r) == Upstream(d, view, r)
  {
    SameCandidate(c, d, r, view.dns(r, Retargeted(c.nodes[r]).host));
  }

  /** A replica is linked up to the running container its host leads to, and down if there is none. */
  predicate LinkSettled(c: Cluster, view: View, r: string)
    requires r in c.nodes
  {
    var n := c.nodes[r];
    FollowedHost(n).Some? ==>
      match Upstream(c, view, r)
      case Some(m) => Attached(n) && n.master == Some(m)
      case None => n.link.Down? && n.master.None?
  }

  lemma RefreshKeepsMasters(c: Cluster, view: View, id: string)
    requires StoresExist(c)
    ensures SameMasters(c, Refresh(c, view, id))
  {
  }

  lemma RefreshKeepsOthers(c: Cluster, view: View, id: string, x: string)
    requires StoresExist(c) && x in c.nodes && x != id
    ensures x in Refresh(c, view, id).nodes && Refresh(c, view, id).nodes[x] == c.nodes[x]
  {
  }

  /** A refresh settles its own container and unsettles nobody: a reachable running master is always linked. */
  lemma RefreshSettles(c: Cluster, view: View, id: string, r: string)
    requires StoresExist(c) && r in c.nodes && (r == id || LinkSettled(c, view, r))
    ensures LinkSettled(Refresh(c, view, id), view, r)
  {
    var d := Refresh(c, view, id);
    RefreshKeepsMasters(c, view, id);
    SameUpstream(c, d, view, r);
    if r != id {
      RefreshKeepsOthers(c, view, id, r);
    }
  }

  /** After a runtime start has refreshed its container and, in any order, the others, every refreshed link is settled. */
  lemma {:induction false} StartSettles(c: Cluster, view: View, order: seq<string>, r: string)
    requires StoresExist(c) && r in c.nodes && (r in order || LinkSettled(c, view, r))
    ensures r in RefreshAll(c, view, order).nodes && LinkSettled(RefreshAll(c, view, order), view, r)
  {
    if order != [] {
      var prior, last := order[..|order| - 1], order[|order| - 1];
      assert order == prior + [last];
      if r in prior || LinkSettled(c, view, r) {
        StartSettles(c, view, prior, r);
      } else {
        RefreshAllKeepsMasters(c, view, prior);
      }
      RefreshSettles(RefreshAll(c, view, prior), view, last, r);
    }
  }

  lemma {:induction false} RefreshAllKeepsMasters(c: Cluster, view: View, order: seq<string>)
    requires StoresExist(c)
    ensures SameMasters(c, RefreshAll(c, view, order))
  {
    if order != [] {
      RefreshAllKeepsMasters(c, view, order[..|order| - 1]);
      RefreshKeepsMasters(RefreshAll(c, view, order[..|order| - 1]), view, order[|order| - 1]);
    }
  }

  predicate AttachedTo(c: Cluster, id: string, m: string) {
    id in c.nodes && Attached(c.nodes[id]) && c.nodes[id].master == Some(m)
  }

  /** A refreshed replica ends up attached to the running master its host resolves to, whatever else is refreshed after it. */
  lemma StartLinks(c: Cluster, view: View, order: seq<string>, id: string, m: string)
    requires StoresExist(c) && id in c.nodes && FollowedHost(c.nodes[id]).Some?
    requires m in c.nodes && c.nodes[m].running
    requires Resolve(c.nodes, view, id, FollowedHost(c.nodes[id]).value) == Some(m)
    ensures AttachedTo(Synced(c, id, view, order), id, m)
    ensures Synced(c, id, view, order).nodes[id].running == c.nodes[id].running
  {
    var one := Refresh(c, view, id);
    var d := RefreshAll(one, view, order);
    RefreshSettles(c, view, id, id);
    RefreshKeepsMasters(c, view, id);
    StartSettles(one, view, order, id);
    RefreshAllKeepsMasters(one, view, order);
    SameUpstream(c, d, view, id);
  }

  /** A start attaches the replica to the running master its host resolves to. */
  lemma SyncLinks(c: Cluster, view: View, order: seq<string>, id: string, m: string)
    requires StoresExist(c) && id in c.nodes && FollowedHost(c.nodes[id]).Some?
    requires m in c.nodes && c.nodes[m].running
    requires Resolve(c.nodes, view, id, FollowedHost(c.nodes[id]).value) == Some(m)
    ensures var d := Step(c, Sync(id, true, view, order)); AttachedTo(d, id, m) && d.nodes[id].running
  {
    var d := c.(nodes := c.nodes[id := c.nodes[id].(running := true, runtime := true)]);
    MarksKeepShape(c, id, true, true);
    SameFirstRedis(c, d, id, view.dns(id, FollowedHost(c.nodes[id]).value));
    StartLinks(d, view, order, id, m);
  }

  // ---------- writes ----------

  /** Propagation brings an equal map to the master's new contents. */
  lemma PropagationMatches(kv: Store, args: seq<string>)
    requires WriteOf(kv, args).Some?
    ensures Apply(kv, WriteOf(kv, args).value.propagate) == WriteOf(kv, args).value.kv
  {
    var name := ToUpper(args[0]);
    if name == "INCR" {
      assert ToUpper("SET") == "SET" by { assert |ToUpper("SET")| == 3; }
    }
  }

  /** Where each container's contents come from after a write to m. */
  lemma WrittenContents(c: Cluster, m: string, args: seq<string>, id: string)
    requires NoSharing(c) && m in c.nodes && id in c.nodes && Originates(c, m)
    requires WriteOf(c.stores[c.nodes[m].store], args).Some?
    ensures var d, w := Written(c, m, args), WriteOf(c.stores[c.nodes[m].store], args).value;
            && d.nodes == c.nodes && d.next == c.next && d.stores.Keys == c.stores.Keys
            && d.stores[c.nodes[id].store] ==
               (if id == m then w.kv
                else if id in Replicas(c, m) then Apply(c.stores[c.nodes[id].store], w.propagate)
                else c.stores[c.nodes[id].store])
  {
    var n, w := c.nodes[m], WriteOf(c.stores[c.nodes[m].store], args).value;
    var mid := c.(stores := c.stores[n.store := w.kv]);
    assert Replicas(mid, m) == Replicas(c, m);
    assert c.nodes[id].store in ReplicaStores(mid, m) <==> id in Replicas(c, m);
  }

  /** r is a running replica of a replica of m. */
  predicate HangsOff(c: Cluster, m: string, r: string)
    requires r in c.nodes
  {
    && Attached(c.nodes[r]) && c.nodes[r].running
    && c.nodes[r].master.Some? && c.nodes[r].master.value in Replicas(c, m)
  }

  predicate Chained(c: Cluster, m: string) {
    exists r :: r in c.nodes && HangsOff(c, m, r)
  }

  predicate ChangesContents(c: Cluster, m: string, args: seq<string>)
    requires m in c.nodes && c.nodes[m].store in c.stores
  {
    var w := WriteOf(c.stores[c.nodes[m].store], args);
    w.Some? && w.value.kv != c.stores[c.nodes[m].store]
  }

  /**
   In any topology, a write to a running master keeps agreement if and only if it changes nothing or no replica of
   the master has a running replica of its own: propagation goes one hop.
   */
  lemma WriteAgreementExact(c: Cluster, m: string, args: seq<string>)
    requires NoSharing(c) && Agreement(c) && m in c.nodes && c.nodes[m].redis && c.nodes[m].role.Master?
    ensures Agreement(Written(c, m, args)) <==> !(Chained(c, m) && ChangesContents(c, m, args))
  {
    var kv := c.stores[c.nodes[m].store];
    if WriteOf(kv, args).Some? {
      var d, w := Written(c, m, args), WriteOf(kv, args).value;
      PropagationMatches(kv, args);
      forall r | r in c.nodes ensures Agrees(d, r) <==> !(w.kv != kv && HangsOff(c, m, r)) {
        WrittenAgrees(c, m, args, r);
      }
      if Chained(c, m) && w.kv != kv {
        var r :| r in c.nodes && HangsOff(c, m, r);
        assert !Agrees(d, r);
      }
    }
  }

  lemma WrittenAgrees(c: Cluster, m: string, args: seq<string>, r: string)
    requires NoSharing(c) && Agreement(c) && Originates(c, m) && r in c.nodes
    requires WriteOf(c.stores[c.nodes[m].store], args).Some?
    ensures Agrees(Written(c, m, args), r) <==>
            !(WriteOf(c.stores[c.nodes[m].store], args).value.kv != c.stores[c.nodes[m].store] && HangsOff(c, m, r))
  {
    PropagationMatches(c.stores[c.nodes[m].store], args);
    assert Agrees(c, r);
    WrittenContents(c, m, args, r);
    var n := c.nodes[r];
    if Attached(n) && n.running {
      var b := n.master.value;
      assert Agrees(c, b);
      WrittenContents(c, m, args, b);
      assert r in Replicas(c, m) <==> b == m;
    }
  }

  lemma WriteKeepsSound(c: Cluster, m: string, args: seq<string>)
    requires ClusterSound(c) && m in c.nodes && c.nodes[m].redis
    ensures ClusterSound(Written(c, m, args))
  {
    var n := c.nodes[m];
    var w := WriteOf(c.stores[n.store], args);
    if n.role.Master? && w.Some? {
      WrittenContents(c, m, args, m);
      WriteAgreementExact(c, m, args);
      assert !Chained(c, m);
    }
  }

  /** Three running containers under any names: a master, its replica, and a replica of that replica. */
  function Chain(top: string, middle: string, bottom: string): Cluster {
    Cluster(
      map[top := Node(true, true, true, None, Master, "", 0, None, Up, 0),
          middle := Node(true, true, true, None, Slave, top, 6379, Some(top), Up, 1),
          bottom := Node(true, true, true, None, Slave, middle, 6379, Some(middle), Up, 2)],
      map[0 := map[], 1 := map[], 2 := map[]], 3)
  }

  predicate AreThree(top: string, middle: string, bottom: string) {
    top != middle && middle != bottom && top != bottom
  }

  /** The failing input: a replica of a replica misses a write to the top master. */
  lemma ChainLosesAgreement(top: string, middle: string, bottom: string, key: string, value: string)
    requires AreThree(top, middle, bottom)
    ensures var c := Chain(top, middle, bottom);
            NoSharing(c) && Agreement(c) && !Agreement(Written(c, top, ["SET", key, value]))
  {
    ChainHangs(top, middle, bottom);
    ChainAgrees(top, middle, bottom);
    SetChanges(top, middle, bottom, key, value);
    WriteAgreementExact(Chain(top, middle, bottom), top, ["SET", key, value]);
  }

  lemma ChainHangs(top: string, middle: string, bottom: string)
    requires AreThree(top, middle, bottom)
    ensures Chained(Chain(top, middle, bottom), top)
  {
    assert middle in Replicas(Chain(top, middle, bottom), top);
    assert HangsOff(Chain(top, middle, bottom), top, bottom);
  }

  lemma ChainAgrees(top: string, middle: string, bottom: string)
    requires AreThree(top, middle, bottom)
    ensures NoSharing(Chain(top, middle, bottom)) && Agreement(Chain(top, middle, bottom))
  {
  }

  lemma SetChanges(top: string, middle: string, bottom: string, key: string, value: string)
    requires AreThree(top, middle, bottom)
    ensures ChangesContents(Chain(top, middle, bottom), top, ["SET", key, value])
  {
    var args, kv: Store := ["SET", key, value], map[];
    assert ToUpper("SET") == "SET";
    assert WriteOf(kv, args) == Some(Write(kv[key := value], args));
    assert key in kv[key := value];
  }

  // ---------- the other operations ----------

  /** d is c with some links down. */
  predicate LinksDropped(c: Cluster, d: Cluster) {
    && d.nodes.Keys == c.nodes.Keys && d.stores == c.stores && d.next == c.next
    && forall r :: r in c.nodes ==> d.nodes[r] == c.nodes[r] || d.nodes[r] == c.nodes[r].(link := Down)
  }

  lemma MarkDownDropsLinks(c: Cluster, m: string)
    ensures LinksDropped(c, MarkDown(c, m))
    ensures m in c.nodes && c.nodes[m].redis && StarLinks(c) ==> NobodyFollows(MarkDown(c, m), m)
  {
  }

  lemma DroppedKeepsFrame(c: Cluster, d: Cluster)
    requires Framed(c) && LinksDropped(c, d)
    ensures Framed(d) && SameShape(c, d)
  {
    DroppedKeepsLinks(c, d);
    DroppedKeepsShape(c, d);
  }

  lemma DroppedKeepsLinks(c: Cluster, d: Cluster)
    requires StarLinks(c) && LinksDropped(c, d)
    ensures StarLinks(d)
  {
  }

  lemma DroppedKeepsShape(c: Cluster, d: Cluster)
    requires LinksDropped(c, d)
    ensures SameShape(c, d)
  {
  }

  predicate NobodyFollows(c: Cluster, m: string) {
    forall r :: r in c.nodes && Attached(c.nodes[r]) ==> c.nodes[r].master != Some(m)
  }

  /** Dropping links, stopping containers: fewer replicas are owed agreement. */
  lemma FewerOwed(c: Cluster, d: Cluster, but: string)
    requires AgreementBut(c, but) && d.nodes.Keys == c.nodes.Keys && d.stores == c.stores
    requires forall r :: r in c.nodes ==>
               && d.nodes[r].store == c.nodes[r].store && d.nodes[r].master == c.nodes[r].master
               && (r != but && Attached(d.nodes[r]) && d.nodes[r].running ==> Attached(c.nodes[r]) && c.nodes[r].running)
    ensures AgreementBut(d, but)
  {
    forall r | r in d.nodes && r != but ensures Agrees(d, r) {
      assert Agrees(c, r);
    }
  }

  lemma WholeAgreement(c: Cluster, but: string)
    requires AgreementBut(c, but) && (but in c.nodes ==> Agrees(c, but))
    ensures Agreement(c)
  {
  }

  lemma RuntimeStoppedKeepsSound(c: Cluster, id: string)
    requires ClusterSound(c) && id in c.nodes
    ensures var d := RuntimeStopped(c, id);
            ClusterSound(d) && SameShape(c, d) && NobodyFollows(d, id)
  {
    var d := MarkDown(c, id);
    MarkDownDropsLinks(c, id);
    DroppedKeepsFrame(c, d);
    FewerOwed(c, d, "");
    assert "" in c.nodes ==> Agrees(c, "");
    WholeAgreement(d, "");
  }

  /** A change to one node's lifecycle marks only. */
  lemma MarksKeepFrame(c: Cluster, id: string, running: bool, runtime: bool)
    requires Framed(c) && id in c.nodes && (running ==> runtime) && (c.nodes[id].runtime ==> runtime)
    ensures var d := c.(nodes := c.nodes[id := c.nodes[id].(running := running, runtime := runtime)]);
            Framed(d)
  {
  }

  lemma MarksKeepShape(c: Cluster, id: string, running: bool, runtime: bool)
    requires id in c.nodes
    ensures SameShape(c, c.(nodes := c.nodes[id := c.nodes[id].(running := running, runtime := runtime)]))
  {
  }

  lemma MarksKeepSound(c: Cluster, id: string, running: bool, runtime: bool)
    requires ClusterSound(c) && id in c.nodes && (running ==> runtime) && (c.nodes[id].runtime ==> runtime)
    ensures var d := c.(nodes := c.nodes[id := c.nodes[id].(running := running, runtime := runtime)]);
            Framed(d) && SameShape(c, d) && AgreementBut(d, id) && (!running ==> Agreement(d))
  {
    var d := c.(nodes := c.nodes[id := c.nodes[id].(running := running, runtime := runtime)]);
    MarksKeepFrame(c, id, running, runtime);
    MarksKeepShape(c, id, running, runtime);
    FewerOwed(c, d, id);
    if !running {
      WholeAgreement(d, id);
    }
  }

  lemma SyncKeepsSound(c: Cluster, id: string, view: View, order: seq<string>)
    requires Framed(c) && AgreementBut(c, id) && StarView(c, view) && id in c.nodes
    ensures ClusterSound(Synced(c, id, view, order))
  {
    if c.nodes[id].redis {
      RefreshRepairs(c, view, id);
      StarViewKept(c, Refresh(c, view, id), view);
      RefreshAllKeepsSound(Refresh(c, view, id), view, order);
    } else {
      WholeAgreement(c, id);
    }
  }

  lemma CreateKeepsSound(c: Cluster, id: string, n: Node)
    requires ClusterSound(c) && id !in c.nodes && NodeSound(n) && n.store == c.next && n.role.Master?
    ensures ClusterSound(Cluster(c.nodes[id := n], c.stores[c.next := map[]], c.next + 1))
  {
    var d := Cluster(c.nodes[id := n], c.stores[c.next := map[]], c.next + 1);
    forall r | r in d.nodes ensures Agrees(d, r) {
      if r != id {
        assert Agrees(c, r);
      }
    }
  }

  lemma RemoveKeepsSound(c: Cluster, id: string)
    requires ClusterSound(c) && id in c.nodes && NobodyFollows(c, id)
    ensures ClusterSound(c.(nodes := c.nodes - {id}))
  {
    var d := c.(nodes := c.nodes - {id});
    forall r | r in d.nodes ensures Agrees(d, r) {
      assert Agrees(c, r);
    }
  }

  lemma RoleChangeKeepsLinks(c: Cluster, id: string, n: Node)
    requires StarLinks(c) && id in c.nodes && !Attached(n)
    requires n.redis == c.nodes[id].redis && n.runtime == c.nodes[id].runtime && n.target == c.nodes[id].target
    requires NobodyFollows(c, id) || n.role.Master?
    ensures StarLinks(c.(nodes := c.nodes[id := n]))
  {
  }

  /** A container's role fields may change freely while nobody follows it and it is left unattached. */
  lemma RoleChangeKeepsSound(c: Cluster, id: string, n: Node)
    requires ClusterSound(c) && id in c.nodes && NodeSound(n) && !Attached(n)
    requires n.store == c.nodes[id].store && n.redis == c.nodes[id].redis && n.runtime == c.nodes[id].runtime
    requires n.target == c.nodes[id].target
    requires NobodyFollows(c, id) || n.role.Master?
    ensures ClusterSound(c.(nodes := c.nodes[id := n]))
  {
    var d := c.(nodes := c.nodes[id := n]);
    RoleChangeKeepsLinks(c, id, n);
    forall r | r in d.nodes ensures Agrees(d, r) {
      if r != id {
        assert Agrees(c, r);
      }
    }
  }

  /** The runtime may be started for a container whose scenario leaves it not running. */
  lemma StartKeepsSound(c: Cluster, id: string, running: bool, view: View, order: seq<string>)
    requires ClusterSound(c) && id in c.nodes && StarView(c, view)
    ensures ClusterSound(Step(c, Sync(id, running, view, order)))
  {
    var d := c.(nodes := c.nodes[id := c.nodes[id].(running := running, runtime := true)]);
    MarksKeepSound(c, id, running, true);
    MarksKeepShape(c, id, running, true);
    StarViewKept(c, d, view);
    SyncKeepsSound(d, id, view, order);
  }

  lemma ReconnectKeepsSound(c: Cluster, id: string, view: View, order: seq<string>)
    requires ClusterSound(c) && id in c.nodes && StarView(c, view)
    ensures ClusterSound(Step(c, Reconnect(id, view, order)))
  {
    RuntimeStoppedKeepsSound(c, id);
    StarViewKept(c, RuntimeStopped(c, id), view);
    SyncKeepsSound(RuntimeStopped(c, id), id, view, order);
  }

  lemma ReplicaOfKeepsSound(c: Cluster, id: string, host: string, port: nat, view: View)
    requires ClusterSound(c) && id in c.nodes && c.nodes[id].redis && NobodyFollows(c, id)
    requires StarView(c.(nodes := c.nodes[id := Redirected(c.nodes[id], host, port)]), view)
    ensures ClusterSound(Step(c, ReplicaOf(id, host, port, view)))
  {
    RoleChangeKeepsSound(c, id, Redirected(c.nodes[id], host, port));
    RefreshRepairs(c.(nodes := c.nodes[id := Redirected(c.nodes[id], host, port)]), view, id);
  }

  /** What each operation asks of the cluster, names apart: a master is not redirected while it is followed. */
  predicate Allowed(c: Cluster, op: Op) {
    && (op.Create? || op.id in c.nodes)
    && match op
       case Create(_, _, target) => target.Some? ==> target.value.0 != "" && target.value.1 > 0
       case Reconnect(id, _, _) => c.nodes[id].running
       case Command(id, _) => c.nodes[id].running && c.nodes[id].redis
       case ReplicaOf(id, _, _, _) => c.nodes[id].redis && NobodyFollows(c, id)
       case _ => true
  }

  predicate UsesNames(op: Op) {
    op.Sync? || op.Reconnect? || op.ReplicaOf?
  }

  /** The cluster in which the operation resolves its names. */
  function NamingCluster(c: Cluster, op: Op): Cluster
    requires UsesNames(op) && op.id in c.nodes
  {
    if op.ReplicaOf? then c.(nodes := c.nodes[op.id := Redirected(c.nodes[op.id], op.host, op.port)]) else c
  }

  /** A star topology: wherever names are resolved, replicas' hosts mean pure masters. */
  predicate Legal(c: Cluster, op: Op) {
    Allowed(c, op) && (UsesNames(op) ==> StarView(NamingCluster(c, op), op.view))
  }

  lemma StepKeepsSound(c: Cluster, op: Op)
    requires ClusterSound(c) && Legal(c, op)
    ensures ClusterSound(Step(c, op))
  {
    match op
    case Create(id, redis, target) =>
      if id !in c.nodes {
        CreateKeepsSound(c, id, Node(redis, false, false, target, Master, "", 0, None, Up, c.next));
      }
    case Sync(id, running, view, order) => StartKeepsSound(c, id, running, view, order);
    case StartFails(id) => MarksKeepSound(c, id, false, true);
    case Exit(id) => MarksKeepSound(c, id, false, c.nodes[id].runtime);
    case StopRuntime(id) => RuntimeStoppedKeepsSound(c, id);
    case Reconnect(id, view, order) => ReconnectKeepsSound(c, id, view, order);
    case Remove(id) =>
      RuntimeStoppedKeepsSound(c, id);
      RemoveKeepsSound(RuntimeStopped(c, id), id);
    case Command(id, args) => WriteKeepsSound(c, id, args);
    case ReplicaOf(id, host, port, view) => ReplicaOfKeepsSound(c, id, host, port, view);
    case ReplicaOfNoOne(id) =>
      RoleChangeKeepsSound(c, id, c.nodes[id].(role := Master, host := "", port := 0, master := None, link := Up));
  }

  predicate IsRun(ops: seq<Op>, states: seq<Cluster>) {
    && |states| == |ops| + 1
    && states[0] == EMPTY_CLUSTER
    && forall i :: 0 <= i < |ops| ==>
         StoresExist(states[i]) && Legal(states[i], ops[i]) && states[i + 1] == Step(states[i], ops[i])
  }

  /**
   In every run of a star topology, after every operation: each running replica whose link is up holds exactly its
   master's contents, and no two containers share a map object.
   */
  lemma {:induction false} ReplicaAgreement(ops: seq<Op>, states: seq<Cluster>, i: nat)
    requires IsRun(ops, states) && i < |states|
    ensures Agreement(states[i]) && NoSharing(states[i]) && ClusterSound(states[i])
  {
    if i > 0 {
      ReplicaAgreement(ops, states, i - 1);
      StepKeepsSound(states[i - 1], ops[i - 1]);
    }
  }
}
