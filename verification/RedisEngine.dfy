/** The replication half of the engine object: links and key-value maps change in place. */
module RedisEngines {
  import opened Basics
  import opened Text
  import opened Replication
  import opened ReplicationRuns

  class RedisEngine {
    var nodes: map<string, Node>
    var stores: map<nat, Store>
    var next: nat

    function Now(): Cluster
      reads this
    {
      Cluster(nodes, stores, next)
    }

    constructor ()
      ensures Now() == EMPTY_CLUSTER && ClusterSound(Now())
    {
      nodes, stores, next := map[], map[], 0;
    }

    // ---------- refresh ----------

    method FindMaster(view: View, self: string, host: string) returns (m: Option<string>)
      ensures m == Resolve(nodes, view, self, host)
    {
      if view.isIp(host) {
        m := view.owner(host);
        if m.Some? && m.value !in nodes {
          m := None;
        }
        return;
      }
      var found := view.dns(self, host);
      for i := 0 to |found|
        invariant FirstRedis(nodes, self, found) == FirstRedis(nodes, self, found[i..])
      {
        if found[i] in nodes && nodes[found[i]].redis && found[i] != self {
          return Some(found[i]);
        }
        assert found[i..][1..] == found[i + 1..];
      }
      m := None;
    }

    method RefreshReplication(id: string, view: View)
      requires StoresExist(Now())
      modifies this
      ensures Now() == Refresh(old(Now()), view, id)
      ensures StoresExist(Now())
    {
      if id !in nodes || !nodes[id].redis {
        return;
      }
      ghost var before := Now();
      Retarget(id);
      var n := nodes[id];
      if !n.role.Slave? || n.host == "" || n.port == 0 {
        return;
      }
      SameResolution(before.nodes, id, view, n.host);
      var m := FindMaster(view, id, n.host);
      if m.None? || !nodes[m.value].running {
        nodes := nodes[id := n.(master := None, link := Down)];
        assert nodes == before.nodes[id := n.(master := None, link := Down)];
        return;
      }
      LinkTo(id, m.value);
      assert nodes == before.nodes[id := n.(master := m, link := Up, store := before.next)];
    }

    /** The command line wins over what REPLICAOF has set. */
    method Retarget(id: string)
      requires id in nodes
      modifies this`nodes
      ensures nodes == old(nodes)[id := Retargeted(old(nodes)[id])]
    {
      var n := nodes[id];
      if n.target.Some? {
        nodes := nodes[id := n.(role := Slave, host := n.target.value.0, port := n.target.value.1)];
      }
      assert old(nodes)[id := n].Keys == nodes.Keys;
    }

    /** The link goes up with a fresh copy of the master's map. */
    method LinkTo(id: string, m: string)
      requires id in nodes && m in nodes && nodes[m].store in stores
      modifies this
      ensures nodes == old(nodes)[id := old(nodes)[id].(master := Some(m), link := Up, store := old(next))]
      ensures stores == old(stores)[old(next) := old(stores)[old(nodes)[m].store]] && next == old(next) + 1
    {
      var copy := stores[nodes[m].store];
      stores := stores[next := copy];
      nodes := nodes[id := nodes[id].(master := Some(m), link := Up, store := next)];
      next := next + 1;
    }

    /** Every other Redis container is refreshed, in the order met. */
    method RefreshDependents(id: string, view: View) returns (ghost order: seq<string>)
      requires StoresExist(Now())
      modifies this
      ensures Now() == RefreshAll(old(Now()), view, order) && StoresExist(Now())
      ensures id in old(nodes) && old(nodes)[id].redis ==>
                (set x | x in order) == set x | x in old(nodes) && old(nodes)[x].redis && x != id
    {
      order := [];
      if id !in nodes || !nodes[id].redis {
        return;
      }
      ghost var before := Now();
      ghost var others := set x | x in nodes && nodes[x].redis && x != id;
      var pending := set x | x in nodes && nodes[x].redis && x != id;
      while pending != {}
        invariant pending <= others && (set x | x in order) == others - pending
        invariant StoresExist(before) && StoresExist(Now())
        invariant Now() == RefreshAll(before, view, order)
        decreases pending
      {
        var x :| x in pending;
        RefreshReplication(x, view);
        ghost var grown := order + [x];
        assert grown[..|grown| - 1] == order;
        assert (set y | y in grown) == (set y | y in order) + {x};
        order := grown;
        pending := pending - {x};
      }
    }

    // ---------- links ----------

    method MarkMasterDown(m: string)
      modifies this`nodes
      ensures Now() == MarkDown(old(Now()), m)
    {
      if m !in nodes || !nodes[m].redis {
        return;
      }
      ghost var before := nodes;
      var pending := nodes.Keys - {m};
      while pending != {}
        invariant pending <= before.Keys - {m} && nodes.Keys == before.Keys
        invariant forall x :: x in before ==>
          nodes[x] == if x !in pending && x != m && before[x].redis && before[x].master == Some(m)
                      then before[x].(link := Down) else before[x]
        decreases pending
      {
        var x :| x in pending;
        if nodes[x].redis && nodes[x].master == Some(m) {
          nodes := nodes[x := nodes[x].(link := Down)];
        }
        pending := pending - {x};
      }
      assert nodes == MarkDown(Cluster(before, stores, next), m).nodes;
    }

    // ---------- writes ----------

    /** The replicas are listed first, then each one's map is changed. */
    method ReplicateMutation(m: string, args: seq<string>)
      requires NoSharing(Now())
      modifies this`stores
      ensures Now() == if Originates(old(Now()), m) then Propagated(old(Now()), m, args) else old(Now())
    {
      if m !in nodes || !nodes[m].redis || !nodes[m].role.Master? {
        return;
      }
      ghost var before := Now();
      var replicas := set x | x in nodes && x != m && Linked(nodes[x], m);
      assert replicas == Replicas(before, m);
      ApplyToEach(replicas, args);
      assert stores == Propagated(before, m, args).stores;
    }

    method ApplyToEach(replicas: set<string>, args: seq<string>)
      requires NoSharing(Now()) && replicas <= nodes.Keys
      modifies this`stores
      ensures stores == map r | r in old(stores) :: if r in StoresOf(nodes, replicas) then Apply(old(stores)[r], args) else old(stores)[r]
    {
      ghost var before := stores;
      var pending := replicas;
      while pending != {}
        invariant pending <= replicas && stores.Keys == before.Keys
        invariant forall r :: r in stores ==>
          stores[r] == if r in StoresOf(nodes, replicas - pending) then Apply(before[r], args) else before[r]
        decreases pending
      {
        var x :| x in pending;
        OneMoreStore(nodes, replicas, pending, x);
        stores := stores[nodes[x].store := Apply(stores[nodes[x].store], args)];
        pending := pending - {x};
      }
      assert replicas - pending == replicas;
    }

    /** One write command on a running container; a replica refuses it. */
    method HandleWrite(id: string, args: seq<string>) returns (refused: bool)
      requires ClusterSound(Now()) && id in nodes && nodes[id].redis && args != []
      modifies this
      ensures Now() == Written(old(Now()), id, args) && ClusterSound(Now())
      ensures refused <==> ToUpper(args[0]) in {"SET", "DEL", "INCR"} && nodes[id].role.Slave?
    {
      ghost var before := Now();
      WriteKeepsSound(before, id, args);
      var name, n := ToUpper(args[0]), nodes[id];
      if name in {"SET", "DEL", "INCR"} && n.role.Slave? {
        return true;
      }
      refused := false;
      var w := WriteOf(stores[n.store], args);
      if w.Some? {
        stores := stores[n.store := w.value.kv];
        ReplicateMutation(id, w.value.propagate);
      }
    }

    // ---------- runtime hooks ----------

    /** A started runtime refreshes its container, then everyone else. */
    method StartRuntime(id: string, running: bool, view: View) returns (ghost order: seq<string>)
      requires ClusterSound(Now()) && id in nodes && StarView(Now(), view)
      modifies this
      ensures Now() == Step(old(Now()), Sync(id, running, view, order)) && ClusterSound(Now())
    {
      ghost var before := Now();
      nodes := nodes[id := nodes[id].(running := running, runtime := true)];
      order := [];
      if nodes[id].redis {
        RefreshReplication(id, view);
        order := RefreshDependents(id, view);
      }
      ReplicationRuns.StepKeepsSound(before, Sync(id, running, view, order));
    }

    method StopRuntime(id: string)
      requires ClusterSound(Now()) && id in nodes
      modifies this
      ensures Now() == Step(old(Now()), Op.StopRuntime(id)) && ClusterSound(Now())
    {
      ReplicationRuns.StepKeepsSound(Now(), Op.StopRuntime(id));
      if nodes[id].runtime && nodes[id].redis {
        MarkMasterDown(id);
      }
    }
  }

  function StoresOf(nodes: map<string, Node>, ids: set<string>): set<nat>
    requires ids <= nodes.Keys
  {
    set x | x in ids :: nodes[x].store
  }

  /** The next replica's map is one no earlier replica had. */
  lemma OneMoreStore(nodes: map<string, Node>, replicas: set<string>, pending: set<string>, x: string)
    requires pending <= replicas <= nodes.Keys && x in pending
    requires forall a, b :: a in nodes && b in nodes && nodes[a].store == nodes[b].store ==> a == b
    ensures nodes[x].store !in StoresOf(nodes, replicas - pending)
    ensures StoresOf(nodes, replicas - (pending - {x})) == StoresOf(nodes, replicas - pending) + {nodes[x].store}
  {
  }

  lemma SameResolution(nodes: map<string, Node>, id: string, view: View, host: string)
    requires id in nodes
    ensures var n := Retargeted(nodes[id]);
            Resolve(nodes[id := n], view, id, host) == Resolve(nodes, view, id, host)
  {
    SameFirst(nodes, nodes[id := Retargeted(nodes[id])], id, view.dns(id, host));
  }

  lemma {:induction false} SameFirst(a: map<string, Node>, b: map<string, Node>, self: string, found: seq<string>)
    requires a.Keys == b.Keys && forall x :: x in a ==> a[x].redis == b[x].redis
    ensures FirstRedis(a, self, found) == FirstRedis(b, self, found)
  {
    if found != [] {
      SameFirst(a, b, self, found[1..]);
    }
  }
}
