/** Global invariants of the topology, over every run of engine operations. */
module TopologyRuns {
  import opened Basics
  import opened Text
  import opened Addresses
  import opened Topology

  // ---------- invariants ----------

  /** Endpoints live in the network's subnet, at distinct hosts below the high-water mark. */
  predicate NetworkSound(n: Network) {
    && 2 <= n.nextHost <= 255
    && (forall id :: id in n.endpoints ==>
          n.endpoints[id].addr.index == n.index && 2 <= n.endpoints[id].addr.host <= 254 &&
          n.endpoints[id].addr.host < n.nextHost)
    && (forall a, b :: a in n.endpoints && b in n.endpoints && n.endpoints[a].addr.host == n.endpoints[b].addr.host ==> a == b)
  }

  /** Only the bridge has index 0; user networks are keyed by their ID, with indexes 1..220. */
  predicate NetworksSound(ns: map<string, Network>) {
    && "bridge" in ns && ns["bridge"].name == "bridge" && ns["bridge"].index == 0
    && (forall k :: k in ns && k != "bridge" ==> ns[k].id == k && 1 <= ns[k].index <= 220)
    && (forall j, k :: j in ns && k in ns && j != k ==> ns[j].index != ns[k].index && ns[j].name != ns[k].name)
    && (forall k :: k in ns ==> NetworkSound(ns[k]))
  }

  /** The two container indexes are inverse to each other. */
  predicate NamesSound(t: Topo) {
    && "" !in t.containers
    && (forall n :: n in t.names ==> t.names[n] in t.containers && t.containers[t.names[n]].name == n)
    && (forall id :: id in t.containers ==> t.containers[id].name in t.names && t.names[t.containers[id].name] == id)
  }

  predicate EndpointsOwned(t: Topo) {
    forall k, id :: k in t.networks && id in t.networks[k].endpoints ==> id in t.containers
  }

  /** The recorded address is one of the container's own, and is absent only without endpoints. */
  predicate PrimaryMatches(t: Topo, id: string)
    requires id in t.containers
  {
    match t.containers[id].primary
    case Some(a) => exists k :: k in t.networks && id in t.networks[k].endpoints && t.networks[k].endpoints[id].addr == a
    case None => forall k :: k in t.networks ==> id !in t.networks[k].endpoints
  }

  predicate PrimarySound(t: Topo) {
    forall id :: id in t.containers ==> PrimaryMatches(t, id)
  }

  predicate TopoSound(t: Topo) {
    NetworksSound(t.networks) && NamesSound(t) && EndpointsOwned(t) && PrimarySound(t)
  }

  // ---------- one network ----------

  lemma PlanIsSound(n: Network, id: string, e: Endpoint)
    requires NetworkSound(n) && PlanAddress(n, id).Some? && e.addr == PlanAddress(n, id).value.addr
    ensures NetworkSound(Attach(Detach(n, id), id, e, PlanAddress(n, id).value.nextHost))
    ensures id in n.endpoints ==> e.addr == n.endpoints[id].addr
  {
    PlanIsFree(n, id);
    AttachIsSound(Detach(n, id), id, e, PlanAddress(n, id).value.nextHost);
  }

  /** A planned host is held by nobody else and lies below the mark planned with it. */
  lemma PlanIsFree(n: Network, id: string)
    requires NetworkSound(n) && PlanAddress(n, id).Some?
    ensures var slot := PlanAddress(n, id).value;
            && slot.addr.index == n.index && 2 <= slot.addr.host <= 254
            && slot.addr.host < slot.nextHost <= 255 && n.nextHost <= slot.nextHost
            && forall x :: x in n.endpoints && x != id ==> n.endpoints[x].addr.host != slot.addr.host
  {
    var hosts := Hosts(n, id);
    forall x | x in n.endpoints && x != id ensures n.endpoints[x].addr.host in hosts.Values {
      assert x in hosts && hosts[x] == n.endpoints[x].addr.host;
    }
  }

  lemma AttachIsSound(n: Network, id: string, e: Endpoint, nextHost: nat)
    requires NetworkSound(n) && e.addr.index == n.index && 2 <= e.addr.host <= 254
    requires e.addr.host < nextHost <= 255
    requires forall x :: x in n.endpoints && x != id ==> n.endpoints[x].addr.host != e.addr.host
    ensures NetworkSound(Attach(n, id, e, nextHost))
  {
  }

  lemma DetachIsSound(n: Network, id: string)
    requires NetworkSound(n)
    ensures NetworkSound(Detach(n, id))
  {
  }

  /** The bridge is keyed by its name, so it answers to exactly the prefixes of that name and never to its ID. */
  lemma BridgeReferences(t: Topo, ref: string)
    requires NetworksSound(t.networks)
    ensures Hits(t, ref, "bridge") <==> ref <= "bridge"
    ensures |ref| > 6 ==> !Hits(t, ref, "bridge")
  {
    assert ref == "bridge" ==> ref <= "bridge";
  }

  predicate HostTaken(n: Network, h: nat) {
    exists x :: x in n.endpoints && n.endpoints[x].addr.host == h
  }

  /** The least host no other endpoint holds is chosen, and none is left exactly when 253 others are attached. */
  lemma HostAllocationComplete(n: Network, id: string)
    requires NetworkSound(n)
    ensures PlanAddress(n, id).None? <==> id !in n.endpoints && |n.endpoints| == 253
    ensures PlanAddress(n, id).Some? && id !in n.endpoints ==>
              var a := PlanAddress(n, id).value.addr;
              && a.index == n.index && 2 <= a.host <= 254
              && (forall x :: x in n.endpoints ==> n.endpoints[x].addr != a)
              && (forall h :: 2 <= h < a.host ==> HostTaken(n, h))
  {
    if id !in n.endpoints {
      var hosts := Hosts(n, id);
      assert hosts.Keys == n.endpoints.Keys;
      FullExactly(hosts, 2, 254);
      forall x | x in n.endpoints ensures n.endpoints[x].addr.host in hosts.Values {
        assert hosts[x] == n.endpoints[x].addr.host;
      }
      forall h | h in hosts.Values ensures HostTaken(n, h) {
        var x :| x in hosts && hosts[x] == h;
        assert x in n.endpoints;
      }
    }
  }

  /** A new network fails for lack of space exactly when 220 user networks exist; otherwise it takes the least free index. */
  lemma SubnetAllocationComplete(t: Topo, name: string, id: string)
    requires NetworksSound(t.networks) && name != "" && !NetworkNameTaken(t, name) && id !in t.networks
    ensures CreateNetwork(t, name, id).error == Some(NoSubnetLeft) <==> |t.networks| == 221
    ensures |t.networks| != 221 ==>
              var r := CreateNetwork(t, name, id);
              && r.error.None? && id in r.topo.networks
              && 1 <= r.topo.networks[id].index <= 220 && r.topo.networks[id].index !in Indexes(t)
              && forall i :: 1 <= i < r.topo.networks[id].index ==> i in Indexes(t)
  {
    var user := map k | k in t.networks && k != "bridge" :: t.networks[k].index;
    assert user.Keys == t.networks.Keys - {"bridge"};
    FullExactly(user, 1, 220);
    forall i | 1 <= i <= 220 ensures i in user.Values <==> i in Indexes(t) {
      if i in Indexes(t) {
        var k :| k in t.networks && t.networks[k].index == i;
        assert k in user;
      }
    }
    SameSearch(user.Values, Indexes(t), 1, 220);
    assert |t.networks| == |t.networks.Keys| == |user.Keys| + 1;
  }

  lemma {:induction false} SameSearch(a: set<nat>, b: set<nat>, from: nat, last: nat)
    requires from <= last + 1
    requires forall i :: from <= i <= last ==> (i in a <==> i in b)
    ensures LeastFree(a, from, last) == LeastFree(b, from, last)
    decreases last + 1 - from
  {
    if from <= last {
      SameSearch(a, b, from + 1, last);
    }
  }

  // ---------- reconfiguration ----------

  /** Every plan is the slot its network offers in the unchanged state. */
  predicate PlansFit(t: Topo, id: string, plans: seq<Plan>) {
    forall i :: 0 <= i < |plans| ==>
      && plans[i].key in t.networks
      && PlanAddress(t.networks[plans[i].key], id) == Some(Slot(plans[i].endpoint.addr, plans[i].nextHost))
  }

  lemma {:induction false} PlansFitSlots(t: Topo, id: string, refs: seq<string>, wanted: map<string, seq<string>>, choice: map<string, string>)
    requires id in t.containers
    requires forall r :: r in refs ==> r in wanted && r in choice && choice[r] in t.networks
    ensures var plans := PlanAll(t, id, refs, wanted, choice);
            plans.Some? ==> PlansFit(t, id, plans.value)
  {
    if refs != [] {
      PlansFitSlots(t, id, refs[..|refs| - 1], wanted, choice);
    }
  }

  predicate Refused(t: Topo, id: string, key: string)
    requires key in t.networks
  {
    PlanAddress(t.networks[key], id).None?
  }

  /** Planning as a whole fails exactly when one network has no slot. */
  lemma {:induction false} PlanningFails(t: Topo, id: string, refs: seq<string>, wanted: map<string, seq<string>>, choice: map<string, string>)
    requires id in t.containers
    requires forall r :: r in refs ==> r in wanted && r in choice && choice[r] in t.networks
    ensures PlanAll(t, id, refs, wanted, choice).None? <==> exists r :: r in refs && Refused(t, id, choice[r])
  {
    if refs != [] {
      var prior, last := refs[..|refs| - 1], refs[|refs| - 1];
      PlanningFails(t, id, prior, wanted, choice);
      assert forall r :: r in refs <==> r in prior || r == last;
    }
  }

  predicate Planned(plans: seq<Plan>, k: string) {
    exists i :: 0 <= i < |plans| && plans[i].key == k
  }

  /** What the committed network k looks like: detached, or detached and given its planned slot. */
  predicate CommittedAs(was: Network, id: string, n: Network, planned: bool) {
    if !planned then n == Detach(was, id)
    else
      && PlanAddress(was, id).Some?
      && id in n.endpoints
      && n == Attach(Detach(was, id), id, n.endpoints[id], PlanAddress(was, id).value.nextHost)
      && n.endpoints[id].addr == PlanAddress(was, id).value.addr
  }

  /** Two references may name one network; the commit then writes its slot twice and nothing else. */
  lemma {:induction false} CommitEffect(t: Topo, id: string, plans: seq<Plan>, k: string)
    requires PlansFit(t, id, plans) && k in t.networks
    ensures CommittedAs(t.networks[k], id, Commit(DetachAll(t.networks, id), id, plans)[k], Planned(plans, k))
  {
    if plans != [] {
      var prior, last := plans[..|plans| - 1], plans[|plans| - 1];
      CommitEffect(t, id, prior, k);
      assert Planned(plans, k) <==> Planned(prior, k) || last.key == k;
      if last.key == k {
        AttachAgain(t.networks[k], id, Commit(DetachAll(t.networks, id), id, prior)[k], Planned(prior, k), last);
      }
    }
  }

  lemma AttachAgain(was: Network, id: string, n: Network, planned: bool, p: Plan)
    requires CommittedAs(was, id, n, planned)
    requires PlanAddress(was, id) == Some(Slot(p.endpoint.addr, p.nextHost))
    ensures CommittedAs(was, id, Attach(n, id, p.endpoint, p.nextHost), true)
  {
    var base := Detach(was, id).endpoints;
    assert Attach(n, id, p.endpoint, p.nextHost).endpoints == base[id := p.endpoint];
  }

  /** The networks the resolved references name. */
  function Resolved(choice: map<string, string>): set<string> {
    choice.Values
  }

  /** Some resolved network has 253 endpoints, none of them this container's. */
  predicate SomeFull(t: Topo, id: string, choice: map<string, string>)
    requires forall r :: r in choice ==> choice[r] in t.networks
  {
    exists k :: k in Resolved(choice) && id !in t.networks[k].endpoints && |t.networks[k].endpoints| == 253
  }

  /** What a successful reconfiguration promises about the networks. */
  predicate AttachedExactly(ns: map<string, Network>, ns': map<string, Network>, id: string, keys: set<string>) {
    && ns'.Keys == ns.Keys
    && forall k :: k in ns ==> CommittedAs(ns[k], id, ns'[k], k in keys)
  }

  /** Planning fails exactly when some network is full; committing the plans attaches exactly. */
  lemma PlansCommit(t: Topo, id: string, refs: seq<string>, wanted: map<string, seq<string>>, choice: map<string, string>)
    requires id in t.containers && ChoiceLegal(t, wanted, choice, refs) && wanted.Keys == choice.Keys
    requires NetworksSound(t.networks)
    ensures var plans := PlanAll(t, id, refs, wanted, choice);
            && (plans.None? <==> SomeFull(t, id, choice))
            && (plans.Some? ==>
                  && |plans.value| == |refs| && PlansFit(t, id, plans.value)
                  && (forall i :: 0 <= i < |refs| ==> plans.value[i].key in Resolved(choice))
                  && forall k :: k in t.networks ==>
                       CommittedAs(t.networks[k], id, Commit(DetachAll(t.networks, id), id, plans.value)[k], k in Resolved(choice)))
  {
    PlansFitSlots(t, id, refs, wanted, choice);
    PlanningFails(t, id, refs, wanted, choice);
    PlansNameNetworks(t, id, refs, wanted, choice);
    FailureCause(t, id, refs, choice);
    var plans := PlanAll(t, id, refs, wanted, choice);
    if plans.Some? {
      forall k | k in t.networks
        ensures CommittedAs(t.networks[k], id, Commit(DetachAll(t.networks, id), id, plans.value)[k], k in Resolved(choice))
      {
        CommitEffect(t, id, plans.value, k);
        PlannedAreResolved(refs, choice, plans.value, k);
      }
    }
  }

  /** A failed reconfiguration changes nothing, and fails for one of exactly two reasons. */
  lemma ReconfigurationFails(t: Topo, id: string, mode: string, aliases: map<string, seq<string>>,
                             choice: map<string, string>, refs: seq<string>)
    requires id in t.containers && ChoiceLegal(t, Wanted(mode, aliases), choice, refs)
    requires NetworksSound(t.networks)
    ensures var r := Configure(t, id, mode, aliases, choice, refs);
            && (r.error.Some? ==> r.topo == t && r.error.value in {NetworkNotFound, NoAddressLeft})
            && (r.error == Some(NetworkNotFound) <==> !Isolates(mode) && Unresolved(t, Wanted(mode, aliases)))
            && (r.error == Some(NoAddressLeft) <==>
                  !Isolates(mode) && !Unresolved(t, Wanted(mode, aliases)) && SomeFull(t, id, choice))
  {
    var wanted := Wanted(mode, aliases);
    assert wanted.Keys == choice.Keys <==> !Unresolved(t, wanted);
    if wanted.Keys == choice.Keys {
      PlansCommit(t, id, refs, wanted, choice);
    }
  }

  /**
   A successful one attaches the container to exactly the resolved networks, at its old address on each network it
   was already on; host and none attach it to nothing.
   */
  lemma ReconfigurationSucceeds(t: Topo, id: string, mode: string, aliases: map<string, seq<string>>,
                                choice: map<string, string>, refs: seq<string>)
    requires id in t.containers && ChoiceLegal(t, Wanted(mode, aliases), choice, refs)
    requires NetworksSound(t.networks)
    requires Configure(t, id, mode, aliases, choice, refs).error.None?
    ensures var t' := Configure(t, id, mode, aliases, choice, refs).topo;
            && AttachedExactly(t.networks, t'.networks, id, if Isolates(mode) then {} else Resolved(choice))
            && OnlyContainerChanged(t, t', id)
            && if Isolates(mode) then t'.containers[id].primary.None? else PrimaryIsOwn(t', id, Resolved(choice))
  {
    if Isolates(mode) {
      IsolatedIsRight(t, id, TrimSpace(mode));
    } else {
      var plans := PlanAll(t, id, refs, Wanted(mode, aliases), choice).value;
      ConfigureCommits(t, id, mode, aliases, choice, refs, plans);
      CommittedIsRight(t, id, ModeAfter(t, mode, plans), plans, Resolved(choice), Configure(t, id, mode, aliases, choice, refs).topo);
    }
  }

  lemma IsolatedIsRight(t: Topo, id: string, mode: string)
    requires id in t.containers
    ensures var t' := WithoutNetwork(t, id, mode);
            AttachedExactly(t.networks, t'.networks, id, {}) && OnlyContainerChanged(t, t', id) && t'.containers[id].primary.None?
  {
  }

  lemma ConfigureCommits(t: Topo, id: string, mode: string, aliases: map<string, seq<string>>,
                         choice: map<string, string>, refs: seq<string>, plans: seq<Plan>)
    requires id in t.containers && ChoiceLegal(t, Wanted(mode, aliases), choice, refs)
    requires NetworksSound(t.networks) && !Isolates(mode) && Wanted(mode, aliases).Keys == choice.Keys
    requires PlanAll(t, id, refs, Wanted(mode, aliases), choice) == Some(plans)
    ensures plans != [] && PlansFit(t, id, plans) && plans[0].key in Resolved(choice)
    ensures Configure(t, id, mode, aliases, choice, refs).topo == Committed(t, id, ModeAfter(t, mode, plans), plans)
    ensures forall k :: k in t.networks ==>
              CommittedAs(t.networks[k], id, Commit(DetachAll(t.networks, id), id, plans)[k], k in Resolved(choice))
  {
    PlansCommit(t, id, refs, Wanted(mode, aliases), choice);
    WantedNonempty(mode, aliases);
  }

  predicate OnlyContainerChanged(t: Topo, t': Topo, id: string) {
    && t'.names == t.names
    && id in t.containers && id in t'.containers
    && t'.containers == t.containers[id := t'.containers[id]]
    && t'.containers[id].name == t.containers[id].name
  }

  lemma WantedNonempty(mode: string, aliases: map<string, seq<string>>)
    ensures Wanted(mode, aliases).Keys != {}
  {
    var bridgeOnly: map<string, seq<string>> := map["bridge" := []];
    assert "bridge" in bridgeOnly.Keys;
    var w := if IsDefaultMode(TrimSpace(mode)) || TrimSpace(mode) in aliases then aliases else aliases[TrimSpace(mode) := []];
    assert w.Keys == {} ==> w == map[];
  }

  lemma CommittedIsRight(t: Topo, id: string, mode: string, plans: seq<Plan>, keys: set<string>, t': Topo)
    requires id in t.containers && plans != [] && PlansFit(t, id, plans)
    requires plans[0].key in keys
    requires forall k :: k in t.networks ==> CommittedAs(t.networks[k], id, Commit(DetachAll(t.networks, id), id, plans)[k], k in keys)
    requires t' == Committed(t, id, mode, plans)
    ensures AttachedExactly(t.networks, t'.networks, id, keys) && OnlyContainerChanged(t, t', id) && PrimaryIsOwn(t', id, keys)
  {
    var k := plans[0].key;
    assert CommittedAs(t.networks[k], id, Committed(t, id, mode, plans).networks[k], true);
  }

  predicate PrimaryIsOwn(t: Topo, id: string, keys: set<string>) {
    && id in t.containers && t.containers[id].primary.Some?
    && exists k :: k in keys && k in t.networks && id in t.networks[k].endpoints &&
         t.networks[k].endpoints[id].addr == t.containers[id].primary.value
  }

  lemma PlannedAreResolved(refs: seq<string>, choice: map<string, string>, plans: seq<Plan>, k: string)
    requires (set r | r in refs) == choice.Keys && |plans| == |refs|
    requires forall i :: 0 <= i < |refs| ==> refs[i] in choice && plans[i].key == choice[refs[i]]
    ensures Planned(plans, k) <==> k in Resolved(choice)
  {
    if k in Resolved(choice) {
      var r :| r in choice && choice[r] == k;
      assert r in (set x | x in refs);
      var i :| 0 <= i < |refs| && refs[i] == r;
      assert plans[i].key == k;
    }
  }

  lemma FailureCause(t: Topo, id: string, refs: seq<string>, choice: map<string, string>)
    requires NetworksSound(t.networks)
    requires (set r | r in refs) == choice.Keys
    requires forall r :: r in choice ==> choice[r] in t.networks
    ensures (exists r :: r in refs && Refused(t, id, choice[r])) <==> SomeFull(t, id, choice)
  {
    forall k | k in t.networks
      ensures Refused(t, id, k) <==> id !in t.networks[k].endpoints && |t.networks[k].endpoints| == 253
    {
      HostAllocationComplete(t.networks[k], id);
    }
    if k :| k in Resolved(choice) && id !in t.networks[k].endpoints && |t.networks[k].endpoints| == 253 {
      var r :| r in choice && choice[r] == k;
      assert r in (set x | x in refs);
      assert Refused(t, id, choice[r]);
    }
  }

  // ---------- every operation keeps the invariants ----------

  lemma AddedNetworkSound(ns: map<string, Network>, n: Network)
    requires NetworksSound(ns) && n.id !in ns && NetworkSound(n) && 1 <= n.index <= 220
    requires forall k :: k in ns ==> ns[k].index != n.index && ns[k].name != n.name
    ensures NetworksSound(ns[n.id := n])
  {
  }

  lemma AddedNetworkFrame(t: Topo, n: Network)
    requires NamesSound(t) && EndpointsOwned(t) && PrimarySound(t) && n.id !in t.networks && n.endpoints == map[]
    ensures var t' := t.(networks := t.networks[n.id := n]);
            NamesSound(t') && EndpointsOwned(t') && PrimarySound(t')
  {
    PrimaryFrame(t, t.(networks := t.networks[n.id := n]));
  }

  lemma CreateNetworkSound(t: Topo, name: string, id: string)
    requires TopoSound(t) && id !in t.networks
    ensures TopoSound(CreateNetwork(t, name, id).topo)
  {
    var r := CreateNetwork(t, name, id);
    if r.error.None? {
      var n := r.topo.networks[id];
      forall k | k in t.networks ensures t.networks[k].index != n.index {
        assert t.networks[k].index in Indexes(t);
      }
      AddedNetworkSound(t.networks, n);
      AddedNetworkFrame(t, n);
    }
  }

  /** Primary addresses survive when every endpoint and every recorded address does. */
  lemma PrimaryFrame(t: Topo, t': Topo)
    requires PrimarySound(t) && t'.containers.Keys <= t.containers.Keys
    requires forall id :: id in t'.containers ==> t'.containers[id].primary == t.containers[id].primary
    requires forall k, id :: k in t.networks && id in t.networks[k].endpoints && id in t'.containers ==>
               k in t'.networks && id in t'.networks[k].endpoints && t'.networks[k].endpoints[id] == t.networks[k].endpoints[id]
    requires forall k, id :: k in t'.networks && id in t'.networks[k].endpoints ==> k in t.networks && id in t.networks[k].endpoints
    ensures PrimarySound(t')
  {
    forall id | id in t'.containers ensures PrimaryMatches(t', id) {
      assert PrimaryMatches(t, id);
    }
  }

  lemma LeftNetworksSound(ns: map<string, Network>, k: string)
    requires NetworksSound(ns) && k in ns && ns[k].name != "bridge"
    ensures NetworksSound(ns - {ns[k].id})
  {
  }

  lemma LeftNetworkFrame(t: Topo, k: string)
    requires NamesSound(t) && EndpointsOwned(t) && PrimarySound(t) && k in t.networks && t.networks[k].endpoints == map[]
    ensures var t' := t.(networks := t.networks - {k});
            NamesSound(t') && EndpointsOwned(t') && PrimarySound(t')
  {
    PrimaryFrame(t, t.(networks := t.networks - {k}));
  }

  lemma RemoveNetworkSound(t: Topo, k: string)
    requires TopoSound(t) && k in t.networks
    ensures TopoSound(RemoveNetwork(t, k).topo)
  {
    var r := RemoveNetwork(t, k);
    if r.error.None? {
      LeftNetworksSound(t.networks, k);
      LeftNetworkFrame(t, k);
    }
  }

  lemma CreateContainerSound(t: Topo, name: string, id: string, service: string)
    requires TopoSound(t) && id !in t.containers && id != ""
    ensures TopoSound(CreateContainer(t, name, id, service).topo)
  {
    var r := CreateContainer(t, name, id, service);
    if r.error.None? {
      assert forall k :: k in t.networks ==> id !in t.networks[k].endpoints;
      forall x | x in r.topo.containers ensures PrimaryMatches(r.topo, x) {
        assert x != id ==> PrimaryMatches(t, x);
      }
    }
  }

  lemma RemoveContainerSound(t: Topo, id: string, force: bool)
    requires TopoSound(t) && id in t.containers
    ensures TopoSound(RemoveContainer(t, id, force).topo)
  {
    AllDetachedSound(t.networks, id);
    PrimaryFrame(t, EntriesDeleted(t, id, t.containers[id].name));
  }

  lemma SetRunningKeepsNames(t: Topo, id: string, running: bool)
    requires NamesSound(t) && EndpointsOwned(t) && id in t.containers
    ensures NamesSound(RunningSet(t, id, running)) && EndpointsOwned(RunningSet(t, id, running))
  {
  }

  lemma SetRunningKeepsPrimary(t: Topo, id: string, running: bool)
    requires PrimarySound(t) && id in t.containers
    ensures PrimarySound(RunningSet(t, id, running))
  {
    var t' := RunningSet(t, id, running);
    forall x | x in t'.containers ensures PrimaryMatches(t', x) {
      assert PrimaryMatches(t, x);
    }
  }

  lemma SetRunningSound(t: Topo, id: string, running: bool)
    requires TopoSound(t) && id in t.containers
    ensures TopoSound(RunningSet(t, id, running))
  {
    SetRunningKeepsNames(t, id, running);
    SetRunningKeepsPrimary(t, id, running);
  }

  lemma AllDetachedSound(ns: map<string, Network>, id: string)
    requires NetworksSound(ns)
    ensures NetworksSound(DetachAll(ns, id))
  {
    forall k | k in ns ensures NetworkSound(DetachAll(ns, id)[k]) {
      DetachIsSound(ns[k], id);
    }
  }

  /** An attachment of one container, with everything else untouched, is sound if its primary address is. */
  lemma AttachmentSound(t: Topo, t': Topo, id: string, keys: set<string>)
    requires TopoSound(t) && AttachedExactly(t.networks, t'.networks, id, keys) && OnlyContainerChanged(t, t', id)
    requires if t'.containers[id].primary.None? then (forall k :: k in t.networks ==> k !in keys) else PrimaryIsOwn(t', id, keys)
    ensures TopoSound(t')
  {
    AttachedNetworksSound(t.networks, t'.networks, id, keys);
    OthersKeepEndpoints(t, t', id, keys);
  }

  lemma AttachedNetworksSound(ns: map<string, Network>, ns': map<string, Network>, id: string, keys: set<string>)
    requires NetworksSound(ns) && AttachedExactly(ns, ns', id, keys)
    ensures NetworksSound(ns')
  {
    forall k | k in ns
      ensures NetworkSound(ns'[k]) && ns'[k].name == ns[k].name && ns'[k].id == ns[k].id && ns'[k].index == ns[k].index
    {
      assert CommittedAs(ns[k], id, ns'[k], k in keys);
      if k in keys {
        PlanIsSound(ns[k], id, ns'[k].endpoints[id]);
      } else {
        DetachIsSound(ns[k], id);
      }
    }
  }

  lemma OthersKeepEndpoints(t: Topo, t': Topo, id: string, keys: set<string>)
    requires EndpointsOwned(t) && PrimarySound(t) && AttachedExactly(t.networks, t'.networks, id, keys) && OnlyContainerChanged(t, t', id)
    requires if t'.containers[id].primary.None? then (forall k :: k in t.networks ==> k !in keys) else PrimaryIsOwn(t', id, keys)
    ensures EndpointsOwned(t') && PrimarySound(t')
  {
    forall k, x | k in t.networks && x != id
      ensures x in t'.networks[k].endpoints <==> x in t.networks[k].endpoints
      ensures x in t.networks[k].endpoints ==> t'.networks[k].endpoints[x] == t.networks[k].endpoints[x]
    {
      assert CommittedAs(t.networks[k], id, t'.networks[k], k in keys);
    }
    forall k | k in t.networks && k !in keys ensures id !in t'.networks[k].endpoints {
      assert CommittedAs(t.networks[k], id, t'.networks[k], false);
    }
    forall x | x in t'.containers ensures PrimaryMatches(t', x) {
      if x != id {
        assert x in t.containers && t'.containers[x] == t.containers[x] && PrimaryMatches(t, x);
      }
    }
  }

  lemma ConfigureSound(t: Topo, id: string, mode: string, aliases: map<string, seq<string>>,
                       choice: map<string, string>, refs: seq<string>)
    requires TopoSound(t) && id in t.containers && ChoiceLegal(t, Wanted(mode, aliases), choice, refs)
    ensures TopoSound(Configure(t, id, mode, aliases, choice, refs).topo)
  {
    var r := Configure(t, id, mode, aliases, choice, refs);
    ReconfigurationFails(t, id, mode, aliases, choice, refs);
    if r.error.None? {
      ReconfigurationSucceeds(t, id, mode, aliases, choice, refs);
      AttachmentSound(t, r.topo, id, if Isolates(mode) then {} else Resolved(choice));
    }
  }

  function Joined(ns: map<string, Network>, id: string): set<string> {
    set k | k in ns && id in ns[k].endpoints
  }

  /** The empty ID that connect passes to the allocator is nobody's. */
  lemma SameSlot(n: Network, id: string)
    requires "" !in n.endpoints && id !in n.endpoints
    ensures PlanAddress(n, "") == PlanAddress(n, id)
  {
    assert Hosts(n, "") == Hosts(n, id);
  }

  /** A network left alone is committed as it was, whether or not the container is on it. */
  lemma LeftAlone(n: Network, id: string)
    ensures CommittedAs(n, id, n, id in n.endpoints)
  {
    if id in n.endpoints {
      assert n.endpoints == (n.endpoints - {id})[id := n.endpoints[id]];
    } else {
      assert n.endpoints - {id} == n.endpoints;
    }
  }

  /** Connecting is an attachment to the networks already joined and the new one. */
  lemma ConnectAttaches(ns: map<string, Network>, id: string, k: string, e: Endpoint)
    requires k in ns && id !in ns[k].endpoints && "" !in ns[k].endpoints
    requires PlanAddress(ns[k], "").Some? && e.addr == PlanAddress(ns[k], "").value.addr
    ensures AttachedExactly(ns, ns[k := Attach(ns[k], id, e, PlanAddress(ns[k], "").value.nextHost)], id, Joined(ns, id) + {k})
  {
    SameSlot(ns[k], id);
    assert Detach(ns[k], id) == ns[k] by { assert ns[k].endpoints - {id} == ns[k].endpoints; }
    forall j | j in ns && j != k ensures CommittedAs(ns[j], id, ns[j], j in Joined(ns, id) + {k}) {
      LeftAlone(ns[j], id);
    }
  }

  lemma DisconnectDetaches(ns: map<string, Network>, id: string, k: string)
    requires k in ns
    ensures AttachedExactly(ns, ns[k := Detach(ns[k], id)], id, Joined(ns, id) - {k})
  {
    forall j | j in ns && j != k ensures CommittedAs(ns[j], id, ns[j], j in Joined(ns, id) - {k}) {
      LeftAlone(ns[j], id);
    }
  }

  lemma ConnectSound(t: Topo, id: string, k: string, aliases: seq<string>, p: Option<string>)
    requires TopoSound(t) && ConnectLegal(t, id, k, aliases, p)
    ensures TopoSound(Connect(t, id, k, aliases, p).topo)
  {
    var r := Connect(t, id, k, aliases, p);
    if r.error.None? {
      assert "" !in t.networks[k].endpoints;
      ConnectAttaches(t.networks, id, k, r.topo.networks[k].endpoints[id]);
      AttachmentSound(t, r.topo, id, Joined(t.networks, id) + {k});
    }
  }

  lemma DisconnectSound(t: Topo, id: string, k: string, p: Option<string>)
    requires TopoSound(t) && DisconnectLegal(t, id, k, p)
    ensures TopoSound(Disconnect(t, id, k, p).topo)
  {
    DisconnectDetaches(t.networks, id, k);
    AttachmentSound(t, Disconnect(t, id, k, p).topo, id, Joined(t.networks, id) - {k});
  }

  lemma StepKeepsSound(t: Topo, op: Op)
    requires TopoSound(t) && Legal(t, op)
    ensures TopoSound(Step(t, op).topo)
  {
    match op
    case OpCreateNetwork(name, id) => CreateNetworkSound(t, name, id);
    case OpRemoveNetwork(k) => RemoveNetworkSound(t, k);
    case OpCreateContainer(name, id, service) => CreateContainerSound(t, name, id, service);
    case OpRemoveContainer(id, force) => RemoveContainerSound(t, id, force);
    case OpSetRunning(id, running) => SetRunningSound(t, id, running);
    case OpConfigure(id, mode, aliases, choice, refs) => ConfigureSound(t, id, mode, aliases, choice, refs);
    case OpConnect(id, k, extra, p) => ConnectSound(t, id, k, extra, p);
    case OpDisconnect(id, k, p) => DisconnectSound(t, id, k, p);
  }

  lemma {:induction false} RunSound(ops: seq<Op>, states: seq<Topo>, i: nat)
    requires IsRun(ops, states) && i < |states|
    ensures TopoSound(states[i])
  {
    if i > 0 {
      RunSound(ops, states, i - 1);
      StepKeepsSound(states[i - 1], ops[i - 1]);
    }
  }

  /** Two different endpoints never share an address, not even as text. */
  lemma AddressesDistinct(t: Topo, j: string, a: string, k: string, b: string)
    requires NetworksSound(t.networks)
    requires j in t.networks && a in t.networks[j].endpoints && k in t.networks && b in t.networks[k].endpoints
    requires AddrText(t.networks[j].endpoints[a].addr) == AddrText(t.networks[k].endpoints[b].addr)
    ensures j == k && a == b
  {
    AddrTextInjective(t.networks[j].endpoints[a].addr, t.networks[k].endpoints[b].addr);
  }

  /** Container x has this address on network k. */
  predicate HasAddress(t: Topo, k: string, x: string, ip: string) {
    k in t.networks && x in t.networks[k].endpoints && AddrText(t.networks[k].endpoints[x].addr) == ip
  }

  predicate AddressesUnique(ns: map<string, Network>) {
    forall j, a, k, b | j in ns && a in ns[j].endpoints && k in ns && b in ns[k].endpoints ::
      AddrText(ns[j].endpoints[a].addr) == AddrText(ns[k].endpoints[b].addr) ==> j == k && a == b
  }

  /** Address safety over whole runs: in every reachable state an address belongs to at most one endpoint. */
  lemma AddressSafety(ops: seq<Op>, states: seq<Topo>, i: nat)
    requires IsRun(ops, states) && i < |states|
    ensures TopoSound(states[i])
    ensures AddressesUnique(states[i].networks)
  {
    RunSound(ops, states, i);
    var t := states[i];
    forall j, a, k, b |
      j in t.networks && a in t.networks[j].endpoints && k in t.networks && b in t.networks[k].endpoints &&
      AddrText(t.networks[j].endpoints[a].addr) == AddrText(t.networks[k].endpoints[b].addr)
      ensures j == k && a == b
    {
      AddressesDistinct(t, j, a, k, b);
    }
  }

  /** A failed operation of any kind leaves the engine as it was. */
  lemma FailureChangesNothing(t: Topo, op: Op)
    requires Legal(t, op) && Step(t, op).error.Some?
    ensures Step(t, op).topo == t
  {
  }

  /** Detaching a container gives back its host: whoever comes next is offered that host or a lower one. */
  lemma ReleasedHostReusable(n: Network, id: string, newcomer: string)
    requires NetworkSound(n) && id in n.endpoints && newcomer !in n.endpoints
    ensures var slot := PlanAddress(Detach(n, id), newcomer);
            slot.Some? && slot.value.addr.host <= n.endpoints[id].addr.host
  {
    var host, hosts := n.endpoints[id].addr.host, Hosts(Detach(n, id), newcomer);
    assert forall x :: x in hosts ==> x in n.endpoints && x != id && hosts[x] == n.endpoints[x].addr.host;
    assert host !in hosts.Values;
  }
}
