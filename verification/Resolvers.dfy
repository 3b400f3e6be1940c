/** What the engine's own resolver tells replication: the star hypothesis read off networks, names and addresses. */
module Resolvers {
  import opened Basics
  import opened Text
  import opened Addresses
  import opened Topology
  import opened TopologyRuns
  import opened Dns
  import Replication
  import ReplicationRuns

  // ---------- the resolver ----------

  /** Four numbers between dots; any integer numeral counts as a number. */
  predicate IsIpLiteral(host: string) {
    var parts := Pieces(TrimSpace(host), '.');
    |parts| == 4 && forall p :: p in parts ==> ParseInt(p).Some?
  }

  ghost predicate Owned(t: Topo, x: string, ip: string) {
    exists k :: HasAddress(t, k, x, ip)
  }

  ghost function OwnerOf(t: Topo, ip: string): (o: Option<string>)
    ensures o.Some? ==> Owned(t, o.value, ip)
    ensures o.None? ==> forall x :: !Owned(t, x, ip)
  {
    if exists x :: Owned(t, x, ip) then
      var x :| Owned(t, x, ip);
      Some(x)
    else None
  }

  /** Every finite set of records has a resolution; `Dns.ResolutionUnique` says it has only one. */
  ghost function Resolution(t: Topo, requester: string, name: string): (r: seq<DnsResult>)
    ensures IsResolution(t, requester, name, r)
  {
    ResolutionExists(t, requester, name);
    var r :| IsResolution(t, requester, name, r);
    r
  }

  lemma ResolutionExists(t: Topo, requester: string, name: string)
    ensures exists r :: IsResolution(t, requester, name, r)
  {
    var list := Listed(Answers(t, requester, name));
    SortedList(list);
    assert IsResolution(t, requester, name, Sort(DnsLe, list));
  }

  lemma {:induction false} Listed<T>(s: set<T>) returns (list: seq<T>)
    ensures NoDuplicates(list) && Elements(list) == s
  {
    if s == {} {
      list := [];
    } else {
      var x :| x in s;
      var rest := Listed(s - {x});
      list := [x] + rest;
      assert x !in Elements(rest) && Elements(list) == {x} + Elements(rest);
    }
  }

  /** The containers behind the records; a record carries the container's unique name. */
  function Owners(t: Topo, r: seq<DnsResult>): seq<string> {
    seq(|r|, i requires 0 <= i < |r| => if r[i].container in t.names then t.names[r[i].container] else "")
  }

  ghost function NamesFound(t: Topo, requester: string, host: string): seq<string> {
    if QueryName(host) == "" then [] else Owners(t, Resolution(t, requester, QueryName(host)))
  }

  /** Everything the engine would resolve in topology t: every name and every address, for every requester. */
  ghost function EngineView(t: Topo): Replication.View {
    Replication.View(
      host => IsIpLiteral(host),
      host => OwnerOf(t, TrimSpace(host)),
      (requester, host) => NamesFound(t, requester, host))
  }

  lemma NamesFoundAreAnswers(t: Topo, requester: string, host: string, x: string)
    requires NamesSound(t) && x in NamesFound(t, requester, host)
    ensures exists k :: IsAnswer(t, requester, QueryName(host), k, x)
  {
    var r := Resolution(t, requester, QueryName(host));
    var i :| 0 <= i < |r| && Owners(t, r)[i] == x;
    assert r[i] in Elements(r);
    var k, y :| k in t.networks && y in t.networks[k].endpoints && IsAnswer(t, requester, QueryName(host), k, y)
                && r[i] == Record(t, QueryName(host), k, y);
  }

  lemma AnswersAreFound(t: Topo, requester: string, host: string, k: string, x: string)
    requires NamesSound(t) && QueryName(host) != "" && IsAnswer(t, requester, QueryName(host), k, x)
    ensures x in NamesFound(t, requester, host)
  {
    var r := Resolution(t, requester, QueryName(host));
    var record := Record(t, QueryName(host), k, x);
    assert record in AnswersOn(t, requester, QueryName(host), k);
    assert record in Elements(r);
    var i :| 0 <= i < |r| && r[i] == record;
    assert Owners(t, r)[i] == x;
  }

  // ---------- stars of networks ----------

  /** Container m may be what `host` means to replica id. */
  ghost predicate Means(t: Topo, c: Replication.Cluster, id: string, host: string, m: string)
  {
    && m in c.nodes
    && if IsIpLiteral(host) then Owned(t, m, TrimSpace(host))
       else m != id && c.nodes[m].redis && exists k :: IsAnswer(t, id, QueryName(host), k, m)
  }

  /** Each replica's master host means pure masters only, on the networks the replica has joined or as an address. */
  ghost predicate StarNetwork(t: Topo, c: Replication.Cluster) {
    forall id, m :: id in c.nodes && ReplicationRuns.FollowedHost(c.nodes[id]).Some?
                    && Means(t, c, id, ReplicationRuns.FollowedHost(c.nodes[id]).value, m) ==>
      m != id && ReplicationRuns.PureMaster(c.nodes[m])
  }

  lemma {:induction false} FirstRedisIsFound(nodes: map<string, Replication.Node>, self: string, found: seq<string>)
    ensures var m := Replication.FirstRedis(nodes, self, found);
            && (m.Some? ==> m.value in found)
            && (m.None? ==> forall x :: x in found && x in nodes && nodes[x].redis ==> x == self)
  {
    if found != [] {
      FirstRedisIsFound(nodes, self, found[1..]);
    }
  }

  lemma ViewResolves(view: Replication.View, nodes: map<string, Replication.Node>, id: string, host: string,
                     isIp: bool, owner: Option<string>, found: seq<string>)
    requires view.isIp(host) == isIp && view.owner(host) == owner && view.dns(id, host) == found
    ensures Replication.Resolve(nodes, view, id, host) ==
            if isIp then (if owner.Some? && owner.value in nodes then owner else None) else Replication.FirstRedis(nodes, id, found)
  {
  }

  lemma EngineResolves(t: Topo, nodes: map<string, Replication.Node>, id: string, host: string)
    ensures Replication.Resolve(nodes, EngineView(t), id, host) ==
            if IsIpLiteral(host) then LiveOwner(t, nodes, host) else Replication.FirstRedis(nodes, id, NamesFound(t, id, host))
  {
    ViewResolves(EngineView(t), nodes, id, host, IsIpLiteral(host), OwnerOf(t, TrimSpace(host)), NamesFound(t, id, host));
  }

  ghost function LiveOwner(t: Topo, nodes: map<string, Replication.Node>, host: string): (o: Option<string>)
    ensures o.Some? ==> o.value in nodes && Owned(t, o.value, TrimSpace(host))
  {
    var o := OwnerOf(t, TrimSpace(host));
    if o.Some? && o.value in nodes then o else None
  }

  lemma NameIsMeant(t: Topo, c: Replication.Cluster, id: string, host: string, m: string)
    requires NamesSound(t) && !IsIpLiteral(host) && Replication.FirstRedis(c.nodes, id, NamesFound(t, id, host)) == Some(m)
    ensures Means(t, c, id, host, m)
  {
    FirstRedisIsFound(c.nodes, id, NamesFound(t, id, host));
    NamesFoundAreAnswers(t, id, host, m);
  }

  lemma ResolvedIsMeant(t: Topo, c: Replication.Cluster, id: string, host: string, m: string)
    requires NamesSound(t) && Replication.Resolve(c.nodes, EngineView(t), id, host) == Some(m)
    ensures Means(t, c, id, host, m)
  {
    EngineResolves(t, c.nodes, id, host);
    if !IsIpLiteral(host) {
      NameIsMeant(t, c, id, host, m);
    }
  }

  /** With the engine's whole resolver, the star hypothesis is a condition on the followed hosts alone. */
  lemma StarOfNetworks(t: Topo, c: Replication.Cluster)
    requires NamesSound(t) && StarNetwork(t, c)
    ensures ReplicationRuns.StarView(c, EngineView(t))
  {
    forall id | id in c.nodes && ReplicationRuns.FollowedHost(c.nodes[id]).Some?
      ensures ReplicationRuns.FollowsPureMaster(c, EngineView(t), id)
    {
      var host := ReplicationRuns.FollowedHost(c.nodes[id]).value;
      var m := Replication.Resolve(c.nodes, EngineView(t), id, host);
      if m.Some? {
        ResolvedIsMeant(t, c, id, host, m.value);
      }
    }
  }

  // ---------- runs under the engine's own resolver ----------

  /** Legality where every view is the engine's, and the star is a condition on its networks. */
  ghost predicate LegalOnNetworks(t: Topo, c: Replication.Cluster, op: Replication.Op) {
    && ReplicationRuns.Allowed(c, op)
    && (ReplicationRuns.UsesNames(op) ==> op.view == EngineView(t) && StarNetwork(t, ReplicationRuns.NamingCluster(c, op)))
  }

  lemma NetworkLegal(t: Topo, c: Replication.Cluster, op: Replication.Op)
    requires NamesSound(t) && LegalOnNetworks(t, c, op)
    ensures ReplicationRuns.Legal(c, op)
  {
    if ReplicationRuns.UsesNames(op) {
      StarOfNetworks(t, ReplicationRuns.NamingCluster(c, op));
    }
  }

  /** Replication steps over networks that may change between any two of them. */
  ghost predicate IsNetworkRun(ops: seq<Replication.Op>, states: seq<Replication.Cluster>, topos: seq<Topo>) {
    && |states| == |ops| + 1 && |topos| == |ops|
    && states[0] == Replication.EMPTY_CLUSTER
    && forall i :: 0 <= i < |ops| ==>
         && NamesSound(topos[i]) && Replication.StoresExist(states[i]) && LegalOnNetworks(topos[i], states[i], ops[i])
         && states[i + 1] == Replication.Step(states[i], ops[i])
  }

  /** Replica agreement in every run in which names and addresses are resolved on the engine's own networks. */
  lemma NetworkedAgreement(ops: seq<Replication.Op>, states: seq<Replication.Cluster>, topos: seq<Topo>, i: nat)
    requires IsNetworkRun(ops, states, topos) && i < |states|
    ensures ReplicationRuns.Agreement(states[i]) && ReplicationRuns.NoSharing(states[i])
  {
    forall j | 0 <= j < |ops| ensures ReplicationRuns.Legal(states[j], ops[j]) {
      NetworkLegal(topos[j], states[j], ops[j]);
    }
    ReplicationRuns.ReplicaAgreement(ops, states, i);
  }

  /** On these networks the host names exactly this one Redis container. */
  ghost predicate NamesOnly(t: Topo, c: Replication.Cluster, id: string, host: string, k: string, m: string) {
    && !IsIpLiteral(host) && QueryName(host) != "" && IsAnswer(t, id, QueryName(host), k, m)
    && m in c.nodes && m != id && c.nodes[m].redis
    && forall x :: Means(t, c, id, host, x) ==> x == m
  }

  lemma NamedMasterResolves(t: Topo, c: Replication.Cluster, id: string, host: string, k: string, m: string)
    requires NamesSound(t) && NamesOnly(t, c, id, host, k, m)
    ensures Replication.Resolve(c.nodes, EngineView(t), id, host) == Some(m)
  {
    AnswersAreFound(t, id, host, k, m);
    FirstRedisIsFound(c.nodes, id, NamesFound(t, id, host));
    NameIsMeant(t, c, id, host, Replication.FirstRedis(c.nodes, id, NamesFound(t, id, host)).value);
    EngineResolves(t, c.nodes, id, host);
  }

  /** Starting `id` with the engine's whole view in force attaches it to m. */
  ghost predicate StartAttaches(t: Topo, c: Replication.Cluster, order: seq<string>, id: string, m: string)
    requires Replication.StoresExist(c) && id in c.nodes
  {
    var d := Replication.Step(c, Replication.Sync(id, true, EngineView(t), order));
    ReplicationRuns.AttachedTo(d, id, m) && d.nodes[id].running
  }

  /**
   A replica whose master host names one running Redis container on a network they share is attached to it by its
   start, with the engine's whole view in force: its own address and the names of replicas included.
   */
  lemma NamedMasterLinks(t: Topo, c: Replication.Cluster, order: seq<string>, id: string, k: string, m: string)
    requires NamesSound(t) && Replication.StoresExist(c) && id in c.nodes && ReplicationRuns.FollowedHost(c.nodes[id]).Some?
    requires NamesOnly(t, c, id, ReplicationRuns.FollowedHost(c.nodes[id]).value, k, m) && c.nodes[m].running
    ensures StartAttaches(t, c, order, id, m)
  {
    NamedMasterResolves(t, c, id, ReplicationRuns.FollowedHost(c.nodes[id]).value, k, m);
    ReplicationRuns.SyncLinks(c, EngineView(t), order, id, m);
  }

  // ---------- a networked pair ----------

  predicate IsHostName(h: string) {
    h != "" && TrimSpace(h) == h && TrimSuffix(h, ".") == h && !IsIpLiteral(h)
  }

  lemma HostNameQuery(h: string)
    requires IsHostName(h)
    ensures QueryName(h) == ToLower(h) != "" && EqualFold(TrimSpace(h), QueryName(h))
  {
    assert |ToLower(h)| == |h|;
    assert ToLower(ToLower(h)) == ToLower(h);
  }

  /** A master and a replica on the bridge, under any IDs and names. */
  function PairTopo(m: string, r: string, main: string, copy: string): Topo {
    var endpoints := map[m := Endpoint(main, Addr(0, 2), []), r := Endpoint(copy, Addr(0, 3), [])];
    Topo(map["bridge" := Network("bridge", "", 0, 4, endpoints)],
         map[m := Container(main, "", "bridge", Some(Addr(0, 2)), true), r := Container(copy, "", "bridge", Some(Addr(0, 3)), false)],
         map[main := m, copy := r])
  }

  /** The master runs; the replica's command line names the master and it has not been started. */
  function Pair(m: string, r: string, main: string): Replication.Cluster {
    Replication.Cluster(
      map[m := Replication.Node(true, true, true, None, Replication.Master, "", 0, None, Replication.Up, 0),
          r := Replication.Node(true, false, false, Some((main, 6379)), Replication.Master, "", 0, None, Replication.Up, 1)],
      map[0 := map[], 1 := map[]], 2)
  }

  predicate AreDistinct(m: string, r: string, main: string, copy: string) {
    m != r && main != copy && m != "" && r != "" && IsHostName(main)
  }

  lemma PairNetworkSound(m: string, r: string, main: string, copy: string)
    requires AreDistinct(m, r, main, copy)
    ensures NetworksSound(PairTopo(m, r, main, copy).networks)
  {
    assert NetworkSound(PairTopo(m, r, main, copy).networks["bridge"]);
  }

  lemma PairNamesSound(m: string, r: string, main: string, copy: string)
    requires AreDistinct(m, r, main, copy)
    ensures var t := PairTopo(m, r, main, copy); NamesSound(t) && EndpointsOwned(t)
  {
  }

  lemma PairTopoSound(m: string, r: string, main: string, copy: string)
    requires AreDistinct(m, r, main, copy)
    ensures TopoSound(PairTopo(m, r, main, copy))
  {
    var t := PairTopo(m, r, main, copy);
    PairNetworkSound(m, r, main, copy);
    PairNamesSound(m, r, main, copy);
    forall id | id in t.containers ensures PrimaryMatches(t, id) {
      assert id in t.networks["bridge"].endpoints;
    }
  }

  lemma PairClusterSound(m: string, r: string, main: string)
    requires m != r && main != ""
    ensures ReplicationRuns.ClusterSound(Pair(m, r, main))
  {
  }

  lemma PairNames(m: string, r: string, main: string, copy: string)
    requires AreDistinct(m, r, main, copy)
    ensures NamesOnly(PairTopo(m, r, main, copy), Pair(m, r, main), r, main, "bridge", m)
  {
    HostNameQuery(main);
    var t := PairTopo(m, r, main, copy);
    assert Candidates(t.containers[m], m, t.networks["bridge"].endpoints[m])[0] == main;
  }

  lemma StarFrom(t: Topo, c: Replication.Cluster, id: string, host: string, m: string)
    requires forall x :: x in c.nodes && ReplicationRuns.FollowedHost(c.nodes[x]).Some? ==>
               x == id && ReplicationRuns.FollowedHost(c.nodes[x]) == Some(host)
    requires forall x :: Means(t, c, id, host, x) ==> x == m
    requires m != id && m in c.nodes && ReplicationRuns.PureMaster(c.nodes[m])
    ensures StarNetwork(t, c)
  {
  }

  lemma PairStar(m: string, r: string, main: string, copy: string)
    requires AreDistinct(m, r, main, copy)
    ensures StarNetwork(PairTopo(m, r, main, copy), Pair(m, r, main))
    ensures ReplicationRuns.FollowedHost(Pair(m, r, main).nodes[r]) == Some(main)
  {
    PairNames(m, r, main, copy);
    StarFrom(PairTopo(m, r, main, copy), Pair(m, r, main), r, main, m);
  }

  /** Both have addresses the resolver knows, so its full view reaches every container by IP. */
  lemma PairOwnAddresses(m: string, r: string, main: string, copy: string)
    requires AreDistinct(m, r, main, copy)
    ensures var t := PairTopo(m, r, main, copy); Owned(t, m, AddrText(Addr(0, 2))) && Owned(t, r, AddrText(Addr(0, 3)))
  {
    var t := PairTopo(m, r, main, copy);
    assert HasAddress(t, "bridge", m, AddrText(Addr(0, 2))) && HasAddress(t, "bridge", r, AddrText(Addr(0, 3)));
  }

  /** A networked pair meets every hypothesis, and starting its replica attaches it to its master. */
  lemma PairStarts(m: string, r: string, main: string, copy: string, order: seq<string>)
    requires AreDistinct(m, r, main, copy)
    ensures var t, c := PairTopo(m, r, main, copy), Pair(m, r, main);
            && TopoSound(t) && ReplicationRuns.ClusterSound(c) && StarNetwork(t, c) && StartAttaches(t, c, order, r, m)
            && Owned(t, m, AddrText(Addr(0, 2))) && Owned(t, r, AddrText(Addr(0, 3)))
  {
    PairOwnAddresses(m, r, main, copy);
    PairTopoSound(m, r, main, copy);
    PairClusterSound(m, r, main);
    PairStar(m, r, main, copy);
    PairNames(m, r, main, copy);
    NamedMasterLinks(PairTopo(m, r, main, copy), Pair(m, r, main), order, r, "bridge", m);
  }
}
