/**
 The engine object.  Maps are walked in whatever order `:|` picks; the contracts
 tie each method to the step the picks amount to.
 */
module Engines {
  import opened Basics
  import opened Text
  import opened Addresses
  import opened Topology
  import opened TopologyRuns
  import opened Dns
  import opened Naming

  class Engine {
    var networks: map<string, Network>
    var containers: map<string, Container>
    var names: map<string, string>

    function Now(): Topo
      reads this
    {
      Topo(networks, containers, names)
    }

    ghost predicate Valid()
      reads this
    {
      TopoSound(Now())
    }

    constructor ()
      ensures Valid() && Now() == INITIAL
    {
      networks := map["bridge" := Network("bridge", "bridge-id", 0, 2, map[])];
      containers, names := map[], map[];
    }

    // ---------- networks ----------

    method FindNetwork(ref: string) returns (k: Option<string>)
      ensures k.Some? ==> Hits(Now(), ref, k.value)
      ensures k.None? ==> NothingHit(Now(), ref)
    {
      var pending := networks.Keys;
      while pending != {}
        invariant pending <= networks.Keys
        invariant forall j :: j in networks && j !in pending ==> !Hits(Now(), ref, j)
        decreases pending
      {
        var j :| j in pending;
        if j == ref || networks[j].name == ref || ref <= j {
          return Some(j);
        }
        pending := pending - {j};
      }
      k := None;
    }

    method NameTakenByNetwork(name: string) returns (taken: bool)
      ensures taken == NetworkNameTaken(Now(), name)
    {
      var pending := networks.Keys;
      while pending != {}
        invariant pending <= networks.Keys
        invariant forall j :: j in networks && j !in pending ==> networks[j].name != name
        decreases pending
      {
        var j :| j in pending;
        if networks[j].name == name {
          return true;
        }
        pending := pending - {j};
      }
      taken := false;
    }

    method FreeIndex() returns (index: nat)
      ensures index == LeastFree(Indexes(Now()), 1, 220).GetOr(0)
    {
      var used := {};
      var pending := networks.Keys;
      while pending != {}
        invariant pending <= networks.Keys
        invariant used == set j | j in networks && j !in pending :: networks[j].index
        decreases pending
      {
        var j :| j in pending;
        used := used + {networks[j].index};
        pending := pending - {j};
      }
      assert used == Indexes(Now());
      index := 0;
      for candidate := 1 to 221
        invariant index == 0
        invariant LeastFree(used, 1, 220) == LeastFree(used, candidate, 220)
      {
        if candidate !in used {
          return candidate;
        }
      }
    }

    /** `id` stands for the hash of the name and a counter, new by assumption. */
    method CreateNetwork(name: string, id: string) returns (error: Option<Error>)
      requires Valid() && id !in networks
      modifies this
      ensures Valid() && Reply(error, Now()) == Topology.CreateNetwork(old(Now()), name, id)
    {
      CreateNetworkSound(Now(), name, id);
      if name == "" {
        return Some(NameRequired);
      }
      var taken := NameTakenByNetwork(name);
      if taken {
        return Some(NameTaken);
      }
      var index := FreeIndex();
      if index == 0 {
        return Some(NoSubnetLeft);
      }
      networks := networks[id := Network(name, id, index, 2, map[])];
      error := None;
    }

    method RemoveNetwork(ref: string) returns (error: Option<Error>, ghost k: Option<string>)
      requires Valid()
      modifies this
      ensures Valid()
      ensures k.None? ==> NothingHit(old(Now()), ref) && error == Some(NetworkNotFound) && Now() == old(Now())
      ensures k.Some? ==>
                && Hits(old(Now()), ref, k.value)
                && Reply(error, Now()) == Topology.RemoveNetwork(old(Now()), k.value)
    {
      var found := FindNetwork(ref);
      k := found;
      if found.None? {
        return Some(NetworkNotFound), k;
      }
      RemoveNetworkSound(Now(), found.value);
      var n := networks[found.value];
      if n.name == "bridge" {
        return Some(PredefinedNetwork), k;
      }
      if n.endpoints != map[] {
        return Some(ActiveEndpoints), k;
      }
      networks := networks - {n.id};
      error := None;
    }

    // ---------- containers ----------

    method CreateContainer(name: string, id: string, service: string) returns (error: Option<Error>)
      requires Valid() && id !in containers && id != ""
      modifies this
      ensures Valid() && Reply(error, Now()) == Topology.CreateContainer(old(Now()), name, id, service)
      ensures error.None? ==> forall r :: IsLookup(Now(), name, r) ==> r == Found(id)
    {
      CreateContainerSound(Now(), name, id, service);
      if name in names {
        return Some(NameTaken);
      }
      containers := containers[id := Container(name, service, "default", None, false)];
      names := names[name := id];
      error := None;
      forall r | IsLookup(Now(), name, r) ensures r == Found(id) {
        LookupFindsLive(Now(), id, r);
      }
    }

    method FindContainer(text: string) returns (r: Lookup)
      ensures IsLookup(Now(), CleanRef(text), r)
    {
      var ref := CleanRef(text);
      if ref in names {
        return Found(names[ref]);
      }
      if ref in containers {
        return Found(ref);
      }
      r := Missing;
      var pending := containers.Keys;
      while pending != {}
        invariant pending <= containers.Keys
        invariant r.Missing? || r.Found?
        invariant (WithPrefix(Now(), ref) - pending) == if r.Found? then {r.id} else {}
        decreases pending
      {
        var id :| id in pending;
        ghost var seen := WithPrefix(Now(), ref) - pending;
        pending := pending - {id};
        if ref <= id {
          assert WithPrefix(Now(), ref) - pending == seen + {id};
          if r.Found? {
            TwoMembers(WithPrefix(Now(), ref), r.id, id);
            return Ambiguous;
          }
          r := Found(id);
        } else {
          assert WithPrefix(Now(), ref) - pending == seen;
        }
      }
      assert WithPrefix(Now(), ref) - pending == WithPrefix(Now(), ref);
    }

    /** Every network forgets the container. */
    method DetachEverywhere(id: string)
      modifies this`networks
      ensures networks == DetachAll(old(networks), id)
    {
      ghost var before := networks;
      var pending := networks.Keys;
      while pending != {}
        invariant pending <= before.Keys && networks.Keys == before.Keys
        invariant forall k :: k in before ==> networks[k] == if k in pending then before[k] else Detach(before[k], id)
        decreases pending
      {
        var k :| k in pending;
        networks := networks[k := Detach(networks[k], id)];
        pending := pending - {k};
      }
    }

    /** Lookup, the question whether the container runs, and the delete, with nothing in between. */
    method RemoveContainer(text: string, force: bool) returns (r: Lookup, error: Option<Error>)
      requires Valid()
      modifies this
      ensures Valid() && IsLookup(old(Now()), CleanRef(text), r)
      ensures r.Found? ==> r.id in old(containers) && Reply(error, Now()) == Topology.RemoveContainer(old(Now()), r.id, force)
      ensures !r.Found? ==> Now() == old(Now())
    {
      r := FindContainer(text);
      error := None;
      if !r.Found? {
        return;
      }
      FoundIsLive(Now(), CleanRef(text), r);
      RemoveContainerSound(Now(), r.id, force);
      if containers[r.id].running && !force {
        return r, Some(StillRunning);
      }
      DeleteContainer(r.id, containers[r.id].name);
    }

    /** A lifecycle step, seen from the engine. */
    method SetRunning(id: string, running: bool)
      requires Valid() && id in containers
      modifies this
      ensures Valid() && Now() == RunningSet(old(Now()), id, running)
    {
      SetRunningSound(Now(), id, running);
      containers := containers[id := containers[id].(running := running)];
    }

    /** The delete region alone; other operations may have run since the lookup. */
    method DeleteContainer(id: string, name: string)
      modifies this
      ensures Now() == EntriesDeleted(old(Now()), id, name)
    {
      containers := containers - {id};
      names := names - {name};
      DetachEverywhere(id);
    }

    // ---------- endpoints ----------

    /** The address of the first endpoint met; at most the ghost result depends on the order. */
    method PickPrimary(id: string) returns (primary: Option<Addr>, ghost k: Option<string>)
      ensures PrimaryChoice(networks, id, k) && primary == PrimaryAt(networks, id, k)
    {
      var pending := networks.Keys;
      while pending != {}
        invariant pending <= networks.Keys
        invariant forall j :: j in networks && j !in pending ==> id !in networks[j].endpoints
        decreases pending
      {
        var j :| j in pending;
        if id in networks[j].endpoints {
          return Some(networks[j].endpoints[id].addr), Some(j);
        }
        pending := pending - {j};
      }
      primary, k := None, None;
    }

    method PlanHost(n: Network, id: string) returns (slot: Option<Slot>)
      ensures slot == PlanAddress(n, id)
    {
      if id in n.endpoints {
        return Some(Slot(n.endpoints[id].addr, n.nextHost));
      }
      var used := {};
      var pending := n.endpoints.Keys;
      while pending != {}
        invariant pending <= n.endpoints.Keys
        invariant used == set x | x in n.endpoints && x !in pending :: n.endpoints[x].addr.host
        decreases pending
      {
        var x :| x in pending;
        used := used + {n.endpoints[x].addr.host};
        pending := pending - {x};
      }
      UsedHosts(n, id, used);
      for host := 2 to 255
        invariant LeastFree(used, 2, 254) == LeastFree(used, host, 254)
      {
        if host !in used {
          var nextHost := n.nextHost;
          if host >= nextHost {
            nextHost := host + 1;
          }
          return Some(Slot(Addr(n.index, host), nextHost));
        }
      }
      slot := None;
    }

    method ConnectNetwork(id: string, ref: string, aliases: seq<string>)
      returns (error: Option<Error>, ghost k: Option<string>, ghost p: Option<string>)
      requires Valid() && id in containers
      modifies this
      ensures Valid()
      ensures k.None? ==> NothingHit(old(Now()), ref) && error == Some(NetworkNotFound) && Now() == old(Now())
      ensures k.Some? ==>
                && Hits(old(Now()), ref, k.value)
                && ConnectLegal(old(Now()), id, k.value, aliases, p)
                && Reply(error, Now()) == Topology.Connect(old(Now()), id, k.value, aliases, p)
    {
      var found := FindNetwork(ref);
      k, p := found, None;
      if found.None? {
        return Some(NetworkNotFound), k, p;
      }
      ghost var before := Now();
      error, p := ConnectAt(id, found.value, aliases);
      ConnectSound(before, id, found.value, aliases, p);
    }

    method ConnectAt(id: string, k: string, aliases: seq<string>) returns (error: Option<Error>, ghost p: Option<string>)
      requires id in containers && k in networks
      modifies this
      ensures ConnectLegal(old(Now()), id, k, aliases, p)
      ensures Reply(error, Now()) == Topology.Connect(old(Now()), id, k, aliases, p)
    {
      p := None;
      var n := networks[k];
      if id in n.endpoints {
        return Some(AlreadyConnected), p;
      }
      var slot := PlanHost(n, "");
      if slot.None? {
        return Some(NoAddressLeft), p;
      }
      var c := containers[id];
      var names := UniqueList(aliases + [c.name, c.service]);
      var endpoint := Endpoint(c.name, slot.value.addr, names);
      networks := networks[k := Attach(n, id, endpoint, slot.value.nextHost)];
      assert networks == Connected(old(Now()), id, k, aliases);
      var primary;
      primary, p := PickPrimary(id);
      containers := containers[id := c.(primary := primary)];
      error := None;
    }

    method DisconnectNetwork(id: string, ref: string)
      returns (error: Option<Error>, ghost k: Option<string>, ghost p: Option<string>)
      requires Valid() && id in containers
      modifies this
      ensures Valid()
      ensures k.None? ==> NothingHit(old(Now()), ref) && error == Some(NetworkNotFound) && Now() == old(Now())
      ensures k.Some? ==>
                && Hits(old(Now()), ref, k.value)
                && DisconnectLegal(old(Now()), id, k.value, p)
                && Reply(error, Now()) == Topology.Disconnect(old(Now()), id, k.value, p)
    {
      var found := FindNetwork(ref);
      k, p := found, None;
      if found.None? {
        return Some(NetworkNotFound), k, p;
      }
      ghost var before := Now();
      p := DisconnectAt(id, found.value);
      DisconnectSound(before, id, found.value, p);
      error := None;
    }

    method DisconnectAt(id: string, k: string) returns (ghost p: Option<string>)
      requires id in containers && k in networks
      modifies this
      ensures DisconnectLegal(old(Now()), id, k, p)
      ensures Reply(None, Now()) == Topology.Disconnect(old(Now()), id, k, p)
    {
      networks := networks[k := Detach(networks[k], id)];
      assert networks == Disconnected(old(Now()), id, k);
      var primary;
      primary, p := PickPrimary(id);
      containers := containers[id := containers[id].(primary := primary)];
    }

    // ---------- reconfiguration ----------

    /** Each wanted reference meets some network, or one of them meets none. */
    method ResolveAll(wanted: map<string, seq<string>>) returns (choice: map<string, string>, all: bool)
      ensures forall r :: r in choice ==> r in wanted && Hits(Now(), r, choice[r])
      ensures all ==> choice.Keys == wanted.Keys
      ensures !all ==> Unresolved(Now(), wanted)
    {
      choice := map[];
      var pending := wanted.Keys;
      while pending != {}
        invariant pending <= wanted.Keys && choice.Keys == wanted.Keys - pending
        invariant forall r :: r in choice ==> Hits(Now(), r, choice[r])
        decreases pending
      {
        var ref :| ref in pending;
        var found := FindNetwork(ref);
        if found.None? {
          return choice, false;
        }
        choice := choice[ref := found.value];
        pending := pending - {ref};
      }
      all := true;
    }

    method SortedRefs(keys: set<string>) returns (refs: seq<string>)
      ensures Sorted(StrLe, refs) && Elements(refs) == keys
    {
      var list := [];
      var pending := keys;
      while pending != {}
        invariant pending <= keys && Elements(list) == keys - pending
        decreases pending
      {
        var k :| k in pending;
        assert Elements(list + [k]) == Elements(list) + {k};
        list := list + [k];
        pending := pending - {k};
      }
      refs := Sort(StrLe, list);
      StrLeOrder();
      SortSorts(StrLe, list);
      SameElements(refs, list);
    }

    method AliasesFor(c: Container, extra: seq<string>) returns (names: seq<string>)
      ensures names == EndpointAliases(c, extra)
    {
      names := UniqueList(extra + [c.name]);
      var service := TrimSpace(c.service);
      if service != "" {
        names := UniqueList(names + [service]);
      }
    }

    /** Planning reads the engine and changes nothing. */
    method PlanRefs(id: string, refs: seq<string>, wanted: map<string, seq<string>>, choice: map<string, string>)
      returns (plans: Option<seq<Plan>>)
      requires id in containers
      requires forall r :: r in refs ==> r in wanted && r in choice && choice[r] in networks
      ensures plans == PlanAll(Now(), id, refs, wanted, choice)
    {
      var c, out := containers[id], [];
      for i := 0 to |refs|
        invariant PlanAll(Now(), id, refs[..i], wanted, choice) == Some(out)
      {
        assert refs[..i + 1][..i] == refs[..i];
        var k := choice[refs[i]];
        var slot := PlanHost(networks[k], id);
        if slot.None? {
          PlanningStops(Now(), id, refs, i + 1, wanted, choice);
          return None;
        }
        var names := AliasesFor(c, wanted[refs[i]]);
        out := out + [Plan(k, Endpoint(c.name, slot.value.addr, names), slot.value.nextHost)];
      }
      assert refs[..|refs|] == refs;
      plans := Some(out);
    }

    method CommitAll(id: string, plans: seq<Plan>)
      requires forall i :: 0 <= i < |plans| ==> plans[i].key in networks
      modifies this`networks
      ensures networks == Commit(DetachAll(old(networks), id), id, plans)
    {
      DetachEverywhere(id);
      ghost var detached := networks;
      for i := 0 to |plans|
        invariant networks.Keys == detached.Keys
        invariant networks == Commit(detached, id, plans[..i])
      {
        assert plans[..i + 1][..i] == plans[..i];
        var n := networks[plans[i].key];
        networks := networks[plans[i].key := Attach(n, id, plans[i].endpoint, plans[i].nextHost)];
      }
      assert plans[..|plans|] == plans;
    }

    method ConfigureNetworks(id: string, mode: string, aliases: map<string, seq<string>>)
      returns (error: Option<Error>, ghost choice: map<string, string>, ghost refs: seq<string>)
      requires Valid() && id in containers
      modifies this
      ensures Valid() && ChoiceLegal(old(Now()), Wanted(mode, aliases), choice, refs)
      ensures Reply(error, Now()) == Configure(old(Now()), id, mode, aliases, choice, refs)
      ensures error.Some? ==> Now() == old(Now())
    {
      ghost var before := Now();
      var wanted := Wanted(mode, aliases);
      var found, all := ResolveAll(wanted);
      var sorted := SortedRefs(wanted.Keys);
      choice, refs := found, sorted;
      ConfigureSound(before, id, mode, aliases, choice, refs);
      error := Reconfigure(id, mode, aliases, found, sorted, all);
      if error.Some? {
        FailureChangesNothing(before, OpConfigure(id, mode, aliases, choice, refs));
      }
    }

    method Reconfigure(id: string, mode: string, aliases: map<string, seq<string>>,
                       choice: map<string, string>, refs: seq<string>, all: bool)
      returns (error: Option<Error>)
      requires id in containers && ChoiceLegal(Now(), Wanted(mode, aliases), choice, refs)
      requires all <==> choice.Keys == Wanted(mode, aliases).Keys
      modifies this
      ensures Reply(error, Now()) == Configure(old(Now()), id, mode, aliases, choice, refs)
    {
      var c, m := containers[id], TrimSpace(mode);
      if m == "host" || m == "none" {
        DetachEverywhere(id);
        containers := containers[id := c.(networkMode := m, primary := None)];
        return None;
      }
      if !all {
        return Some(NetworkNotFound);
      }
      var plans := PlanRefs(id, refs, Wanted(mode, aliases), choice);
      if plans.None? {
        return Some(NoAddressLeft);
      }
      PlansNameNetworks(Now(), id, refs, Wanted(mode, aliases), choice);
      var newMode := ModeAfter(Now(), mode, plans.value);
      CommitAll(id, plans.value);
      var primary := None;
      if plans.value != [] {
        primary := Some(plans.value[0].endpoint.addr);
      }
      containers := containers[id := c.(networkMode := newMode, primary := primary)];
      error := None;
    }

    // ---------- name resolution ----------

    method AnswersOnNetwork(requester: string, name: string, k: string) returns (out: seq<DnsResult>)
      requires Valid() && k in networks && requester in networks[k].endpoints
      ensures NoDuplicates(out) && Elements(out) == AnswersOn(Now(), requester, name, k)
    {
      out := [];
      var t := Now();
      var n := networks[k];
      var pending := n.endpoints.Keys;
      while pending != {}
        invariant pending <= n.endpoints.Keys
        invariant NoDuplicates(out)
        invariant Elements(out) == AnswersOutside(t, requester, name, k, pending)
        decreases pending
      {
        var id :| id in pending;
        NextAnswer(t, requester, name, k, pending, id);
        pending := pending - {id};
        if id in containers && AnswersTo(containers[id], id, n.endpoints[id], name) {
          var x := Record(t, name, k, id);
          AppendNew(out, x);
          out := out + [x];
        }
      }
      assert AnswersOutside(t, requester, name, k, {}) == AnswersOn(t, requester, name, k);
    }

    method ResolveDns(requester: string, text: string) returns (results: seq<DnsResult>)
      requires Valid()
      ensures QueryName(text) != "" ==> IsResolution(Now(), requester, QueryName(text), results)
      ensures QueryName(text) == "" ==> results == []
    {
      var name := QueryName(text);
      results := [];
      if name == "" {
        return;
      }
      ghost var t := Now();
      var pending := networks.Keys;
      while pending != {}
        invariant pending <= networks.Keys
        invariant NoDuplicates(results)
        invariant Elements(results) == set k, x | k in networks && k !in pending && x in AnswersOn(t, requester, name, k) :: x
        decreases pending
      {
        var k :| k in pending;
        ghost var seen := pending;
        pending := pending - {k};
        if requester in networks[k].endpoints {
          var out := AnswersOnNetwork(requester, name, k);
          MoreAnswers(t, requester, name, k, seen, results, out);
          results := results + out;
        } else {
          assert AnswersOn(t, requester, name, k) == {};
        }
      }
      assert Elements(results) == Answers(t, requester, name);
      SortedList(results);
      results := Sort(DnsLe, results);
    }

    /** The only container with an endpoint at this address, if there is one. */
    method FindContainerByEndpointIP(ip: string) returns (id: Option<string>)
      requires Valid()
      ensures id.Some? ==> exists k :: HasAddress(Now(), k, id.value, ip)
      ensures forall k, x :: HasAddress(Now(), k, x, ip) ==> id == Some(x) && x in containers
    {
      var t := Now();
      var nets := networks.Keys;
      while nets != {}
        invariant nets <= networks.Keys
        invariant forall k, x :: k !in nets ==> !HasAddress(t, k, x, ip)
        decreases nets
      {
        var k :| k in nets;
        var ids := networks[k].endpoints.Keys;
        while ids != {}
          invariant ids <= networks[k].endpoints.Keys
          invariant forall x :: x !in ids ==> !HasAddress(t, k, x, ip)
          decreases ids
        {
          var x :| x in ids;
          if AddrText(networks[k].endpoints[x].addr) == ip {
            OnlyAnswer(t, k, x, ip);
            assert HasAddress(Now(), k, x, ip);
            return Some(x);
          }
          ids := ids - {x};
        }
        nets := nets - {k};
      }
      id := None;
    }
  }

  // ---------- facts the loops need ----------

  lemma TwoMembers<T>(s: set<T>, a: T, b: T)
    requires a in s && b in s && a != b
    ensures |s| > 1
  {
    SubsetSize({a, b}, s);
  }

  lemma FoundIsLive(t: Topo, ref: string, r: Lookup)
    requires NamesSound(t) && IsLookup(t, ref, r) && r.Found?
    ensures r.id in t.containers
  {
    if ref !in t.names && ref !in t.containers {
      assert r.id in WithPrefix(t, ref);
    }
  }

  lemma UsedHosts(n: Network, id: string, used: set<nat>)
    requires id !in n.endpoints && used == set x | x in n.endpoints :: n.endpoints[x].addr.host
    ensures used == Hosts(n, id).Values
  {
    var hosts := Hosts(n, id);
    forall x | x in n.endpoints ensures n.endpoints[x].addr.host in hosts.Values {
      assert hosts[x] == n.endpoints[x].addr.host;
    }
    forall h | h in hosts.Values ensures h in used {
      var x :| x in hosts && hosts[x] == h;
      assert x in n.endpoints;
    }
  }

  /** A reference that cannot be planned makes every longer plan fail. */
  lemma {:induction false} PlanningStops(t: Topo, id: string, refs: seq<string>, n: nat, wanted: map<string, seq<string>>, choice: map<string, string>)
    requires id in t.containers && n <= |refs|
    requires forall r :: r in refs ==> r in wanted && r in choice && choice[r] in t.networks
    requires PlanAll(t, id, refs[..n], wanted, choice).None?
    ensures PlanAll(t, id, refs, wanted, choice).None?
  {
    if n == |refs| {
      assert refs[..n] == refs;
    } else {
      PlanningStops(t, id, refs[..|refs| - 1], n, wanted, choice) by {
        assert refs[..|refs| - 1][..n] == refs[..n];
      }
    }
  }

  /** The answers of the endpoints no longer pending. */
  function AnswersOutside(t: Topo, requester: string, name: string, k: string, pending: set<string>): set<DnsResult>
    requires k in t.networks
  {
    set x | x in t.networks[k].endpoints && x !in pending && IsAnswer(t, requester, name, k, x) :: Record(t, name, k, x)
  }

  /** One endpoint more adds its own record, which none before it had, or nothing. */
  lemma NextAnswer(t: Topo, requester: string, name: string, k: string, pending: set<string>, id: string)
    requires NetworksSound(t.networks) && k in t.networks && id in t.networks[k].endpoints && id in pending
    ensures AnswersOutside(t, requester, name, k, pending - {id}) ==
            AnswersOutside(t, requester, name, k, pending) + if IsAnswer(t, requester, name, k, id) then {Record(t, name, k, id)} else {}
    ensures IsAnswer(t, requester, name, k, id) ==> Record(t, name, k, id) !in AnswersOutside(t, requester, name, k, pending)
  {
    if IsAnswer(t, requester, name, k, id) && Record(t, name, k, id) in AnswersOutside(t, requester, name, k, pending) {
      var x :| x in t.networks[k].endpoints && x !in pending && IsAnswer(t, requester, name, k, x) && Record(t, name, k, x) == Record(t, name, k, id);
      RecordsDistinct(t, name, k, x, k, id);
    }
  }

  lemma AppendNew<T>(out: seq<T>, x: T)
    requires NoDuplicates(out) && x !in Elements(out)
    ensures NoDuplicates(out + [x]) && Elements(out + [x]) == Elements(out) + {x}
  {
  }

  lemma MoreAnswers(t: Topo, requester: string, name: string, k: string, pending: set<string>, results: seq<DnsResult>, out: seq<DnsResult>)
    requires NetworksSound(t.networks) && k in t.networks && k in pending
    requires NoDuplicates(results) && NoDuplicates(out)
    requires Elements(out) == AnswersOn(t, requester, name, k)
    requires Elements(results) == set j, x | j in t.networks && j !in pending && x in AnswersOn(t, requester, name, j) :: x
    ensures NoDuplicates(results + out)
    ensures Elements(results + out) ==
            set j, x | j in t.networks && j !in pending - {k} && x in AnswersOn(t, requester, name, j) :: x
  {
    forall x | x in results ensures x !in out {
      assert x in Elements(results) && (x in out ==> x in Elements(out));
    }
    JoinLists(results, out);
  }

  lemma JoinLists<T>(a: seq<T>, b: seq<T>)
    requires NoDuplicates(a) && NoDuplicates(b) && forall x :: x in a ==> x !in b
    ensures NoDuplicates(a + b) && Elements(a + b) == Elements(a) + Elements(b)
  {
    var s := a + b;
    forall i, j | 0 <= i < j < |s| ensures s[i] != s[j] {
      if i < |a| {
        assert s[i] in a;
      }
      if j >= |a| {
        assert s[j] in b;
      }
    }
  }

  lemma OnlyAnswer(t: Topo, k: string, x: string, ip: string)
    requires TopoSound(t) && HasAddress(t, k, x, ip)
    ensures x in t.containers
    ensures forall j, y :: HasAddress(t, j, y, ip) ==> y == x
  {
    forall j, y | HasAddress(t, j, y, ip) ensures y == x {
      AddressesDistinct(t, j, y, k, x);
    }
  }
}
