/** What each engine operation changes and what it leaves alone, entry by entry. */
module TopologyEffects {
  import opened Basics
  import opened Text
  import opened Addresses
  import opened Topology
  import opened TopologyRuns
  import opened Dns
  import opened Naming

  // ---------- addresses ----------

  lemma PiecesOfJoin(a: string, rest: string, c: char)
    requires c !in a
    ensures Pieces(a + [c] + rest, c) == [a] + Pieces(rest, c)
  {
    var s := a + [c] + rest;
    assert s[|a|] == c && forall j :: 0 <= j < |a| ==> s[j] == a[j];
    assert IndexOf(s, c) == |a|;
    assert s[..|a|] == a && s[|a| + 1..] == rest;
  }

  lemma PiecesOfPlain(a: string, c: char)
    requires c !in a
    ensures Pieces(a, c) == [a]
  {
    forall i | 0 <= i < |a| ensures a[i] != c {
      assert a[i] in a;
    }
  }

  lemma DigitsHaveNoDot(n: nat)
    ensures '.' !in Itoa(n)
  {
    var s := Itoa(n);
    assert forall x :: x in s ==> IsDigit(x);
  }

  /** Four dotted numbers: 127.19.0.host on the bridge, 127.20.index.host on a user network. */
  lemma AddressPieces(a: Addr)
    ensures Pieces(AddrText(a), '.') ==
            if a.index == 0 then ["127", "19", "0", Itoa(a.host)] else ["127", "20", Itoa(a.index), Itoa(a.host)]
  {
    DigitsHaveNoDot(a.index);
    DigitsHaveNoDot(a.host);
    if a.index == 0 {
      FourPieces("127", "19", "0", Itoa(a.host));
      BridgeText(Itoa(a.host));
    } else {
      FourPieces("127", "20", Itoa(a.index), Itoa(a.host));
      UserText(Itoa(a.index), Itoa(a.host));
    }
  }

  lemma BridgeText(h: string)
    ensures "127.19.0." + h == Dotted("127", Dotted("19", Dotted("0", h)))
  {
    assert "127.19.0." == "127" + "." + "19" + "." + "0" + ".";
  }

  lemma UserText(i: string, h: string)
    ensures "127.20." + i + "." + h == Dotted("127", Dotted("20", Dotted(i, h)))
  {
    assert "127.20." == "127" + "." + "20" + ".";
  }

  function Dotted(a: string, rest: string): string {
    a + ['.'] + rest
  }

  lemma PiecesOfDotted(a: string, rest: string)
    requires '.' !in a
    ensures Pieces(Dotted(a, rest), '.') == [a] + Pieces(rest, '.')
  {
    PiecesOfJoin(a, rest, '.');
  }

  lemma AddPiece(a: string, rest: string, pieces: seq<string>)
    requires '.' !in a && Pieces(rest, '.') == pieces
    ensures Pieces(Dotted(a, rest), '.') == [a] + pieces
  {
    PiecesOfDotted(a, rest);
  }

  lemma ThreePieces(b: string, c: string, d: string) returns (rest: string)
    requires '.' !in b && '.' !in c && '.' !in d
    ensures rest == Dotted(b, Dotted(c, d)) && Pieces(rest, '.') == [b, c, d]
  {
    var end := Dotted(c, d);
    PiecesOfPlain(d, '.');
    AddPiece(c, d, [d]);
    AddPiece(b, end, [c, d]);
    rest := Dotted(b, end);
  }

  lemma FourPieces(a: string, b: string, c: string, d: string)
    requires '.' !in a && '.' !in b && '.' !in c && '.' !in d
    ensures Pieces(Dotted(a, Dotted(b, Dotted(c, d))), '.') == [a, b, c, d]
  {
    var rest := ThreePieces(b, c, d);
    AddPiece(a, rest, [b, c, d]);
  }

  // ---------- references ----------

  /** A network answers to its full key, its name and every prefix of its key, and to nothing else. */
  lemma NetworkReferences(t: Topo, k: string, ref: string)
    requires k in t.networks
    ensures Hits(t, k, k) && Hits(t, t.networks[k].name, k)
    ensures |ref| <= |k| && k[..|ref|] == ref ==> Hits(t, ref, k)
    ensures Hits(t, ref, k) ==> ref == t.networks[k].name || (|ref| <= |k| && k[..|ref|] == ref)
  {
  }

  /** A container reference may carry blanks around it and one leading slash. */
  lemma ReferenceForms(n: string, blanks: string)
    requires n != "" && !IsSpace(n[0]) && !IsSpace(n[|n| - 1]) && n[0] != '/'
    ensures CleanRef(n) == n && CleanRef("/" + n) == n
  {
    assert ("/" + n)[|n|] == n[|n| - 1];
    assert ("/" + n)[1..] == n;
    assert !("/" <= n);
  }

  // ---------- networks ----------

  ghost predicate OthersKept<V>(was: map<string, V>, now: map<string, V>, k: string) {
    forall x :: x != k ==> (x in now <==> x in was) && (x in was ==> now[x] == was[x])
  }

  predicate NameInUse(t: Topo, name: string) {
    exists k :: k in t.networks && t.networks[k].name == name
  }

  /** A created network has the name, no endpoint and an index of its own; nothing else changes. */
  lemma CreateNetworkEffect(t: Topo, name: string, id: string)
    requires NetworksSound(t.networks) && id !in t.networks
    ensures var r := CreateNetwork(t, name, id);
            && (r.error.Some? <==> name == "" || NameInUse(t, name) || |t.networks| == 221)
            && (r.error.Some? ==> r.topo == t)
            && (r.error.None? ==>
                  && OthersKept(t.networks, r.topo.networks, id) && r.topo.containers == t.containers && r.topo.names == t.names
                  && id in r.topo.networks && NewNetwork(t.networks, name, id, r.topo.networks[id]))
  {
    if name != "" && !NetworkNameTaken(t, name) {
      SubnetAllocationComplete(t, name, id);
      if CreateNetwork(t, name, id).error.None? {
        IndexIsNew(t, CreateNetwork(t, name, id).topo.networks[id].index);
      }
    }
  }

  predicate NewNetwork(ns: map<string, Network>, name: string, id: string, n: Network) {
    && n.name == name && n.id == id && n.endpoints == map[] && 1 <= n.index <= 220
    && forall k :: k in ns ==> ns[k].index != n.index
  }

  lemma IndexIsNew(t: Topo, index: nat)
    requires index !in Indexes(t)
    ensures forall k :: k in t.networks ==> t.networks[k].index != index
  {
    forall k | k in t.networks ensures t.networks[k].index in Indexes(t) {
    }
  }

  /** Removing a user network without endpoints takes exactly it away and frees its index; any other removal is refused. */
  lemma RemoveNetworkEffect(t: Topo, k: string)
    requires NetworksSound(t.networks) && k in t.networks
    ensures var r := RemoveNetwork(t, k);
            && (r.error.None? <==> k != "bridge" && t.networks[k].endpoints == map[])
            && (r.error.Some? ==> r.topo == t)
            && (r.error.None? ==>
                  && k !in r.topo.networks && OthersKept(t.networks, r.topo.networks, k)
                  && r.topo.containers == t.containers && r.topo.names == t.names
                  && forall j :: j in r.topo.networks ==> r.topo.networks[j].index != t.networks[k].index)
  {
  }

  // ---------- connect and disconnect ----------

  /** The networks apart from k, the names and the other containers are as they were. */
  ghost predicate OnlyTouches(t: Topo, t': Topo, id: string, k: string) {
    && OthersKept(t.networks, t'.networks, k) && k in t.networks && k in t'.networks
    && OthersKept(t.networks[k].endpoints, t'.networks[k].endpoints, id)
    && t'.networks[k].name == t.networks[k].name && t'.networks[k].id == t.networks[k].id && t'.networks[k].index == t.networks[k].index
    && OnlyContainerChanged(t, t', id)
    && t'.containers[id].service == t.containers[id].service && t'.containers[id].running == t.containers[id].running
    && t'.containers[id].networkMode == t.containers[id].networkMode
  }

  /** The primary address is that of some endpoint of the container, and absent exactly when it has none. */
  predicate PrimaryRight(t: Topo, id: string)
    requires id in t.containers
  {
    match t.containers[id].primary
    case Some(a) => exists k :: k in t.networks && id in t.networks[k].endpoints && t.networks[k].endpoints[id].addr == a
    case None => forall k :: k in t.networks ==> id !in t.networks[k].endpoints
  }

  /** After a disconnect the container has no endpoint on k, and nothing else has changed. */
  lemma DisconnectEffect(t: Topo, id: string, k: string, p: Option<string>)
    requires DisconnectLegal(t, id, k, p)
    ensures var r := Disconnect(t, id, k, p);
            && r.error.None? && OnlyTouches(t, r.topo, id, k) && PrimaryRight(r.topo, id)
            && id !in r.topo.networks[k].endpoints && r.topo.networks[k].nextHost == t.networks[k].nextHost
  {
  }

  /** The host a disconnect releases, or a lower one, is what the next newcomer gets. */
  lemma DisconnectReleases(t: Topo, id: string, k: string, p: Option<string>, newcomer: string, aliases: seq<string>, q: Option<string>)
    requires TopoSound(t) && DisconnectLegal(t, id, k, p) && id in t.networks[k].endpoints
    requires newcomer != id && newcomer in t.containers && newcomer !in t.networks[k].endpoints
    requires ConnectLegal(Disconnect(t, id, k, p).topo, newcomer, k, aliases, q)
    ensures var r := Connect(Disconnect(t, id, k, p).topo, newcomer, k, aliases, q);
            && r.error.None? && newcomer in r.topo.networks[k].endpoints
            && r.topo.networks[k].endpoints[newcomer].addr.host <= t.networks[k].endpoints[id].addr.host
  {
    var u := Disconnect(t, id, k, p).topo;
    DisconnectEffect(t, id, k, p);
    DisconnectSound(t, id, k, p);
    DisconnectDetachesOne(t, id, k, p);
    ReleasedHostReusable(t.networks[k], id, "");
    ConnectEffect(u, newcomer, k, aliases, q);
  }

  lemma DisconnectDetachesOne(t: Topo, id: string, k: string, p: Option<string>)
    requires DisconnectLegal(t, id, k, p)
    ensures Disconnect(t, id, k, p).topo.networks[k] == Detach(t.networks[k], id)
  {
  }

  /** The host is the least from 2 that no endpoint of the network has. */
  predicate LeastFreeHost(n: Network, host: nat) {
    && 2 <= host <= 254
    && (forall x :: x in n.endpoints ==> n.endpoints[x].addr.host != host)
    && forall h :: 2 <= h < host ==> HasHost(n, h)
  }

  predicate HasHost(n: Network, h: nat) {
    exists x :: x in n.endpoints && n.endpoints[x].addr.host == h
  }

  /** The new endpoint: the container's name, the least free host, and exactly the given aliases, name and service. */
  predicate EndpointRight(n: Network, e: Endpoint, c: Container, aliases: seq<string>) {
    && e.name == c.name && e.addr.index == n.index && LeastFreeHost(n, e.addr.host)
    && Sorted(StrLe, e.aliases) && NoDuplicates(e.aliases) && ListsSpellings(aliases + [c.name, c.service], e.aliases)
  }

  /** A connect adds exactly one endpoint, at the least free host of k, under the container's name, service and aliases. */
  lemma ConnectEffect(t: Topo, id: string, k: string, aliases: seq<string>, p: Option<string>)
    requires TopoSound(t) && ConnectLegal(t, id, k, aliases, p)
    ensures var r := Connect(t, id, k, aliases, p);
            && (r.error.Some? <==> id in t.networks[k].endpoints || |t.networks[k].endpoints| == 253)
            && (r.error.Some? ==> r.topo == t)
            && (r.error.None? ==>
                  && OnlyTouches(t, r.topo, id, k) && PrimaryRight(r.topo, id)
                  && id in r.topo.networks[k].endpoints
                  && EndpointRight(t.networks[k], r.topo.networks[k].endpoints[id], t.containers[id], aliases))
  {
    assert "" !in t.networks[k].endpoints by {
      assert "" !in t.containers;
    }
    ConnectRefused(t, id, k, aliases, p);
    if Connect(t, id, k, aliases, p).error.None? {
      ConnectTouches(t, id, k, aliases, p);
      NewSlot(t.networks[k]);
      UniqueStringsExact(aliases + [t.containers[id].name, t.containers[id].service]);
    }
  }

  lemma ConnectRefused(t: Topo, id: string, k: string, aliases: seq<string>, p: Option<string>)
    requires ConnectLegal(t, id, k, aliases, p) && NetworkSound(t.networks[k]) && "" !in t.networks[k].endpoints
    ensures var r := Connect(t, id, k, aliases, p);
            && (r.error.Some? <==> id in t.networks[k].endpoints || |t.networks[k].endpoints| == 253)
            && (r.error.Some? ==> r.topo == t)
  {
    HostAllocationComplete(t.networks[k], "");
  }

  lemma ConnectTouches(t: Topo, id: string, k: string, aliases: seq<string>, p: Option<string>)
    requires ConnectLegal(t, id, k, aliases, p) && Connect(t, id, k, aliases, p).error.None?
    ensures var t' := Connect(t, id, k, aliases, p).topo;
            && OnlyTouches(t, t', id, k) && PrimaryRight(t', id) && id in t'.networks[k].endpoints
            && PlanAddress(t.networks[k], "").Some?
            && t'.networks[k].endpoints[id] ==
                 Endpoint(t.containers[id].name, PlanAddress(t.networks[k], "").value.addr,
                          UniqueStrings(aliases + [t.containers[id].name, t.containers[id].service]))
  {
  }

  lemma NewSlot(n: Network)
    requires NetworkSound(n) && "" !in n.endpoints && PlanAddress(n, "").Some?
    ensures var a := PlanAddress(n, "").value.addr; a.index == n.index && LeastFreeHost(n, a.host)
  {
    HostAllocationComplete(n, "");
    var a := PlanAddress(n, "").value.addr;
    forall h | 2 <= h < a.host ensures HasHost(n, h) {
      assert HostTaken(n, h);
    }
    forall x | x in n.endpoints ensures n.endpoints[x].addr.host != a.host {
      assert n.endpoints[x].addr != a;
    }
  }

  // ---------- containers ----------

  /** A created container stands alone under its name, attached to nothing. */
  lemma CreateContainerEffect(t: Topo, name: string, id: string, service: string)
    requires TopoSound(t) && id !in t.containers && id != ""
    ensures var r := CreateContainer(t, name, id, service);
            && (r.error.Some? <==> name in t.names) && (r.error.Some? ==> r.topo == t)
            && (r.error.None? ==>
                  && r.topo.networks == t.networks
                  && OthersKept(t.containers, r.topo.containers, id) && OthersKept(t.names, r.topo.names, name)
                  && id in r.topo.containers && r.topo.containers[id] == Container(name, service, "default", None, false)
                  && name in r.topo.names && r.topo.names[name] == id)
  {
  }

  /** A removed container has no entry, name or endpoint left, and nothing of any other container is gone. */
  lemma RemoveContainerEffect(t: Topo, id: string, force: bool)
    requires TopoSound(t) && id in t.containers
    ensures var r := RemoveContainer(t, id, force);
            && (r.error.Some? <==> t.containers[id].running && !force) && (r.error.Some? ==> r.topo == t)
            && (r.error.None? ==> EntriesGone(t, r.topo, id, t.containers[id].name) && EndpointsGone(t.networks, r.topo.networks, id))
  {
    DeletedEntries(t, id);
    DeletedEndpoints(t.networks, id);
  }

  ghost predicate EntriesGone(t: Topo, t': Topo, id: string, name: string) {
    && id !in t'.containers && OthersKept(t.containers, t'.containers, id)
    && name !in t'.names && OthersKept(t.names, t'.names, name)
  }

  ghost predicate EndpointsGone(ns: map<string, Network>, ns': map<string, Network>, id: string) {
    && ns'.Keys == ns.Keys
    && forall k :: k in ns ==> id !in ns'[k].endpoints && OthersKept(ns[k].endpoints, ns'[k].endpoints, id) && ns'[k].index == ns[k].index
  }

  lemma DeletedEntries(t: Topo, id: string)
    requires id in t.containers
    ensures EntriesGone(t, EntriesDeleted(t, id, t.containers[id].name), id, t.containers[id].name)
  {
  }

  lemma DeletedEndpoints(ns: map<string, Network>, id: string)
    ensures EndpointsGone(ns, DetachAll(ns, id), id)
  {
    forall k | k in ns ensures OthersKept(ns[k].endpoints, DetachAll(ns, id)[k].endpoints, id) {
      assert DetachAll(ns, id)[k].endpoints == ns[k].endpoints - {id};
    }
  }

  // ---------- the aliases a reconfiguration gives ----------

  /** No more than what the values spell. */
  predicate OnlyFrom(values: seq<string>, r: seq<string>) {
    forall x :: x in r ==> x != "" && ComesFrom(values, x)
  }

  predicate AllFrom(values: seq<string>, r: seq<string>) {
    forall v :: v in values && TrimSpace(v) != "" ==> Spelled(r, TrimSpace(v))
  }

  /** Adding one value to a finished list and finishing again is finishing with it. */
  lemma OneMoreAlias(values: seq<string>, names: seq<string>, v: string)
    requires OnlyFrom(values, names) && AllFrom(values, names)
    ensures var r := UniqueStrings(names + [TrimSpace(v)]); OnlyFrom(values + [v], r) && AllFrom(values + [v], r)
  {
    UniqueStringsExact(names + [TrimSpace(v)]);
    var r := UniqueStrings(names + [TrimSpace(v)]);
    forall x | x in r ensures x != "" && ComesFrom(values + [v], x) {
      OneMoreComes(values, names, v, x);
    }
    forall w | w in values + [v] && TrimSpace(w) != "" ensures Spelled(r, TrimSpace(w)) {
      OneMoreStays(values, names, v, w, r);
    }
  }

  lemma OneMoreComes(values: seq<string>, names: seq<string>, v: string, x: string)
    requires OnlyFrom(values, names) && ComesFrom(names + [TrimSpace(v)], x)
    ensures ComesFrom(values + [v], x)
  {
    var y :| y in names + [TrimSpace(v)] && TrimSpace(y) == x;
    if y in names {
      NameIsTrimmed(values, names, y);
      ComesLater(values, v, y);
    } else {
      assert y == TrimSpace(v) == x;
      assert v in values + [v];
    }
  }

  lemma ComesLater(values: seq<string>, v: string, x: string)
    requires ComesFrom(values, x)
    ensures ComesFrom(values + [v], x)
  {
    var w :| w in values && TrimSpace(w) == x;
    assert w in values + [v];
  }

  lemma OneMoreStays(values: seq<string>, names: seq<string>, v: string, w: string, r: seq<string>)
    requires OnlyFrom(values, names) && AllFrom(values, names) && ListsSpellings(names + [TrimSpace(v)], r)
    requires w in values + [v] && TrimSpace(w) != ""
    ensures Spelled(r, TrimSpace(w))
  {
    if w in values {
      OldStays(values, names, v, w, r);
    } else {
      assert TrimSpace(v) in names + [TrimSpace(v)] && TrimSpace(TrimSpace(v)) == TrimSpace(v);
    }
  }

  lemma OldStays(values: seq<string>, names: seq<string>, v: string, w: string, r: seq<string>)
    requires OnlyFrom(values, names) && Spelled(names, TrimSpace(w)) && ListsSpellings(names + [TrimSpace(v)], r)
    ensures Spelled(r, TrimSpace(w))
  {
    var y :| y in names && ToLower(y) == ToLower(TrimSpace(w));
    NameIsTrimmed(values, names, y);
    assert y in names + [TrimSpace(v)];
    var z :| z in r && ToLower(z) == ToLower(TrimSpace(y));
  }

  lemma NameIsTrimmed(values: seq<string>, names: seq<string>, y: string)
    requires OnlyFrom(values, names) && y in names
    ensures y != "" && TrimSpace(y) == y
  {
    var u :| u in values && TrimSpace(u) == y;
  }

  /** An endpoint's aliases are the given ones, the container's name and its service: none lost, none made up. */
  lemma EndpointAliasesExact(c: Container, extra: seq<string>)
    ensures var r := EndpointAliases(c, extra);
            && Sorted(StrLe, r) && NoDuplicates(r)
            && OnlyFrom(extra + [c.name] + [c.service], r) && AllFrom(extra + [c.name] + [c.service], r)
  {
    var names := UniqueStrings(extra + [c.name]);
    UniqueStringsExact(extra + [c.name]);
    if TrimSpace(c.service) == "" {
      BlankAdds(extra + [c.name], names, c.service);
    } else {
      OneMoreAlias(extra + [c.name], names, c.service);
      UniqueStringsExact(names + [TrimSpace(c.service)]);
    }
  }

  lemma BlankAdds(values: seq<string>, names: seq<string>, v: string)
    requires OnlyFrom(values, names) && AllFrom(values, names) && TrimSpace(v) == ""
    ensures OnlyFrom(values + [v], names) && AllFrom(values + [v], names)
  {
    forall x | x in names ensures ComesFrom(values + [v], x) {
      ComesLater(values, v, x);
    }
  }

  // ---------- the endpoints a reconfiguration gives ----------

  /** The endpoint was planned for some reference to network k. */
  predicate PlannedFor(plans: seq<Plan>, k: string, e: Endpoint) {
    exists i :: 0 <= i < |plans| && plans[i].key == k && plans[i].endpoint == e
  }

  lemma {:induction false} CommitTakesPlan(ns: map<string, Network>, id: string, plans: seq<Plan>, k: string)
    requires forall i :: 0 <= i < |plans| ==> plans[i].key in ns
    requires Planned(plans, k)
    ensures k in ns && id in Commit(ns, id, plans)[k].endpoints && PlannedFor(plans, k, Commit(ns, id, plans)[k].endpoints[id])
  {
    var prior, last := plans[..|plans| - 1], plans[|plans| - 1];
    if last.key == k {
      assert PlannedFor(plans, k, last.endpoint);
    } else {
      var i :| 0 <= i < |plans| && plans[i].key == k;
      assert prior[i].key == k;
      CommitTakesPlan(ns, id, prior, k);
      var j :| 0 <= j < |prior| && prior[j].key == k && prior[j].endpoint == Commit(ns, id, prior)[k].endpoints[id];
      assert plans[j] == prior[j];
    }
  }

  lemma {:induction false} PlanGives(t: Topo, id: string, refs: seq<string>, wanted: map<string, seq<string>>, choice: map<string, string>, i: nat)
    requires id in t.containers && (forall r :: r in refs ==> r in wanted && r in choice && choice[r] in t.networks)
    requires PlanAll(t, id, refs, wanted, choice).Some? && i < |refs|
    ensures var plans := PlanAll(t, id, refs, wanted, choice).value;
            && |plans| == |refs| && plans[i].key == choice[refs[i]]
            && plans[i].endpoint.name == t.containers[id].name
            && plans[i].endpoint.aliases == EndpointAliases(t.containers[id], wanted[refs[i]])
  {
    PlansNameNetworks(t, id, refs, wanted, choice);
    if i < |refs| - 1 {
      PlanGives(t, id, refs[..|refs| - 1], wanted, choice, i);
    }
  }

  /** The aliases asked for under some reference to k, with the container's name and service, and no others. */
  predicate AskedFor(c: Container, wanted: map<string, seq<string>>, choice: map<string, string>, k: string, e: Endpoint) {
    e.name == c.name && exists r :: r in choice && r in wanted && choice[r] == k && AliasesFor(c, wanted[r], e.aliases)
  }

  predicate Detached(ns: map<string, Network>, id: string) {
    forall k :: k in ns ==> id !in ns[k].endpoints
  }

  ghost predicate OtherEndpointsKept(ns: map<string, Network>, ns': map<string, Network>, id: string) {
    ns'.Keys == ns.Keys && forall k :: k in ns ==> OthersKept(ns[k].endpoints, ns'[k].endpoints, id)
  }

  lemma AttachedKeepsOthers(ns: map<string, Network>, ns': map<string, Network>, id: string, keys: set<string>)
    requires AttachedExactly(ns, ns', id, keys)
    ensures OtherEndpointsKept(ns, ns', id) && (keys == {} ==> Detached(ns', id))
  {
    forall k | k in ns ensures OthersKept(ns[k].endpoints, ns'[k].endpoints, id) && (k !in keys ==> id !in ns'[k].endpoints) {
      assert CommittedAs(ns[k], id, ns'[k], k in keys);
    }
  }

  /** The modes host and none detach the container everywhere, no other mode does; nobody else's endpoints change. */
  lemma IsolationEffect(t: Topo, id: string, mode: string, aliases: map<string, seq<string>>,
                        choice: map<string, string>, refs: seq<string>)
    requires NetworksSound(t.networks) && id in t.containers && ChoiceLegal(t, Wanted(mode, aliases), choice, refs)
    requires Configure(t, id, mode, aliases, choice, refs).error.None?
    ensures var t' := Configure(t, id, mode, aliases, choice, refs).topo;
            && id in t'.containers && OtherEndpointsKept(t.networks, t'.networks, id)
            && (TrimSpace(mode) == "host" || TrimSpace(mode) == "none" <==> Detached(t'.networks, id))
            && (TrimSpace(mode) == "host" || TrimSpace(mode) == "none" <==> t'.containers[id].primary == None)
  {
    ReconfigurationSucceeds(t, id, mode, aliases, choice, refs);
    AttachedKeepsOthers(t.networks, Configure(t, id, mode, aliases, choice, refs).topo.networks, id,
                        if Isolates(mode) then {} else Resolved(choice));
  }

  predicate AliasesFor(c: Container, extra: seq<string>, aliases: seq<string>) {
    && Sorted(StrLe, aliases) && NoDuplicates(aliases)
    && OnlyFrom(extra + [c.name] + [c.service], aliases) && AllFrom(extra + [c.name] + [c.service], aliases)
  }

  /** After a successful reconfiguration each new endpoint carries what was asked for under a reference to its network. */
  lemma ConfigureGives(t: Topo, id: string, mode: string, aliases: map<string, seq<string>>,
                       choice: map<string, string>, refs: seq<string>, k: string)
    requires id in t.containers && ChoiceLegal(t, Wanted(mode, aliases), choice, refs) && NetworksSound(t.networks)
    requires Configure(t, id, mode, aliases, choice, refs).error.None? && !Isolates(mode) && k in Resolved(choice)
    ensures var t' := Configure(t, id, mode, aliases, choice, refs).topo;
            && k in t'.networks && id in t'.networks[k].endpoints
            && AskedFor(t.containers[id], Wanted(mode, aliases), choice, k, t'.networks[k].endpoints[id])
  {
    var plans := PlanAll(t, id, refs, Wanted(mode, aliases), choice).value;
    ConfigureCommits(t, id, mode, aliases, choice, refs, plans);
    CommittedGives(t, id, Wanted(mode, aliases), choice, refs, plans, k);
  }

  lemma CommittedGives(t: Topo, id: string, wanted: map<string, seq<string>>, choice: map<string, string>,
                       refs: seq<string>, plans: seq<Plan>, k: string)
    requires id in t.containers && ChoiceLegal(t, wanted, choice, refs) && wanted.Keys == choice.Keys && k in Resolved(choice)
    requires PlanAll(t, id, refs, wanted, choice) == Some(plans)
    requires forall i :: 0 <= i < |plans| ==> plans[i].key in t.networks
    ensures var ns := Commit(DetachAll(t.networks, id), id, plans);
            k in ns && id in ns[k].endpoints && AskedFor(t.containers[id], wanted, choice, k, ns[k].endpoints[id])
  {
    PlansNameNetworks(t, id, refs, wanted, choice);
    PlannedAreResolved(refs, choice, plans, k);
    CommitTakesPlan(DetachAll(t.networks, id), id, plans, k);
    PlannedIsAsked(t, id, wanted, choice, refs, plans, k, Commit(DetachAll(t.networks, id), id, plans)[k].endpoints[id]);
  }

  lemma PlannedIsAsked(t: Topo, id: string, wanted: map<string, seq<string>>, choice: map<string, string>,
                       refs: seq<string>, plans: seq<Plan>, k: string, e: Endpoint)
    requires id in t.containers && (forall r :: r in refs ==> r in wanted && r in choice && choice[r] in t.networks)
    requires PlanAll(t, id, refs, wanted, choice) == Some(plans) && PlannedFor(plans, k, e)
    ensures AskedFor(t.containers[id], wanted, choice, k, e)
  {
    var i :| 0 <= i < |plans| && plans[i].key == k && plans[i].endpoint == e;
    PlansNameNetworks(t, id, refs, wanted, choice);
    PlanGives(t, id, refs, wanted, choice, i);
    EndpointAliasesExact(t.containers[id], wanted[refs[i]]);
    assert refs[i] in choice && AliasesFor(t.containers[id], wanted[refs[i]], e.aliases);
  }
}
