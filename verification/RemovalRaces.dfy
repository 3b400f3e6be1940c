/**
 A removal looks its container up in one lock region and deletes it in a later one.  Whatever runs in between, the
 delete does no harm exactly when the name is still the container's own, or nobody's.
 */
module RemovalRaces {
  import opened Basics
  import opened Topology
  import opened TopologyRuns
  import opened Dns

  /** The delete takes nothing from another container. */
  predicate NameIsOurs(t: Topo, id: string, name: string) {
    name in t.names ==> t.names[name] == id
  }

  lemma DeleteKeepsNames(t: Topo, id: string, name: string)
    requires NamesSound(t) && (id in t.containers ==> t.containers[id].name == name)
    ensures NamesSound(EntriesDeleted(t, id, name)) <==> NameIsOurs(t, id, name)
  {
    var d := EntriesDeleted(t, id, name);
    if !NameIsOurs(t, id, name) {
      assert t.names[name] in d.containers && d.containers[t.names[name]].name == name;
    }
  }

  lemma DeleteKeepsRest(t: Topo, id: string, name: string)
    requires TopoSound(t)
    ensures var d := EntriesDeleted(t, id, name); NetworksSound(d.networks) && EndpointsOwned(d) && PrimarySound(d)
  {
    AllDetachedSound(t.networks, id);
    PrimaryFrame(t, EntriesDeleted(t, id, name));
  }

  /** In any sound state the delete region keeps the engine sound if and only if the name is ours or free. */
  lemma DeleteExact(t: Topo, id: string, name: string)
    requires TopoSound(t) && (id in t.containers ==> t.containers[id].name == name)
    ensures TopoSound(EntriesDeleted(t, id, name)) <==> NameIsOurs(t, id, name)
  {
    DeleteKeepsNames(t, id, name);
    DeleteKeepsRest(t, id, name);
  }

  // ---------- between lookup and delete ----------

  lemma NameStays(t: Topo, op: Op, id: string)
    requires Legal(t, op) && id in Step(t, op).topo.containers && (op.OpCreateContainer? ==> op.id != id)
    ensures id in t.containers && Step(t, op).topo.containers[id].name == t.containers[id].name
  {
  }

  lemma NameStaysAt(ops: seq<Op>, states: seq<Topo>, j: nat, id: string)
    requires IsRun(ops, states) && j < |ops| && id in states[j + 1].containers && (ops[j].OpCreateContainer? ==> ops[j].id != id)
    ensures id in states[j].containers && states[j + 1].containers[id].name == states[j].containers[id].name
  {
    NameStays(states[j], ops[j], id);
  }

  /** While its ID is not given out again, a container that is still there has its old name. */
  lemma {:induction false} NameFixed(ops: seq<Op>, states: seq<Topo>, i: nat, j: nat, id: string)
    requires IsRun(ops, states) && i <= j < |states| && id in states[j].containers
    requires forall k :: i <= k < j && ops[k].OpCreateContainer? ==> ops[k].id != id
    ensures id in states[i].containers && states[j].containers[id].name == states[i].containers[id].name
  {
    if i < j {
      NameStaysAt(ops, states, j - 1, id);
      NameFixed(ops, states, i, j - 1, id);
    }
  }

  /**
   For every run between them: a removal that looked `id` up in state i and deletes in state j leaves a sound engine if
   and only if, at j, the name is not another container's.
   */
  lemma RemovalExact(ops: seq<Op>, states: seq<Topo>, i: nat, j: nat, id: string)
    requires IsRun(ops, states) && i <= j < |states| && id in states[i].containers
    requires forall k :: i <= k < j && ops[k].OpCreateContainer? ==> ops[k].id != id
    ensures var name := states[i].containers[id].name;
            TopoSound(EntriesDeleted(states[j], id, name)) <==> NameIsOurs(states[j], id, name)
  {
    RunSound(ops, states, j);
    if id in states[j].containers {
      NameFixed(ops, states, i, j, id);
    }
    DeleteExact(states[j], id, states[i].containers[id].name);
  }

  /** With nothing removed in between, the name is ours. */
  lemma UnremovedIsOurs(ops: seq<Op>, states: seq<Topo>, i: nat, j: nat, id: string)
    requires IsRun(ops, states) && i <= j < |states| && id in states[i].containers && id in states[j].containers
    requires forall k :: i <= k < j && ops[k].OpCreateContainer? ==> ops[k].id != id
    ensures NameIsOurs(states[j], id, states[i].containers[id].name)
  {
    RunSound(ops, states, j);
    NameFixed(ops, states, i, j, id);
  }

  // ---------- attaching a container that is gone ----------

  /** The engine as it is, when a handler still holds a container that has been removed and would see it as u. */
  function Forgotten(u: Topo, id: string): Topo {
    u.(containers := u.containers - {id})
  }

  /** Networks attached for a container that is not there are sound exactly when it was attached to none. */
  lemma OwnerlessExact(t: Topo, ns: map<string, Network>, id: string, keys: set<string>)
    requires TopoSound(t) && id !in t.containers && keys <= t.networks.Keys && AttachedExactly(t.networks, ns, id, keys)
    ensures TopoSound(t.(networks := ns)) <==> keys == {}
  {
    if keys == {} {
      NothingAttached(t, ns, id);
    } else {
      var k :| k in keys;
      assert CommittedAs(t.networks[k], id, ns[k], true);
    }
  }

  lemma NothingAttached(t: Topo, ns: map<string, Network>, id: string)
    requires EndpointsOwned(t) && id !in t.containers && AttachedExactly(t.networks, ns, id, {})
    ensures ns == t.networks
  {
    forall k | k in t.networks ensures ns[k] == t.networks[k] {
      assert CommittedAs(t.networks[k], id, ns[k], false);
      assert t.networks[k].endpoints - {id} == t.networks[k].endpoints;
    }
  }

  /** Reconfiguring a removed container leaves the engine sound if and only if it is refused or attaches nothing. */
  lemma StaleConfigureExact(u: Topo, id: string, mode: string, aliases: map<string, seq<string>>,
                            choice: map<string, string>, refs: seq<string>)
    requires id in u.containers && TopoSound(Forgotten(u, id)) && ChoiceLegal(u, Wanted(mode, aliases), choice, refs)
    ensures var r := Configure(u, id, mode, aliases, choice, refs);
            TopoSound(Forgotten(u, id).(networks := r.topo.networks)) <==> r.error.Some? || Isolates(mode)
  {
    var r := Configure(u, id, mode, aliases, choice, refs);
    if r.error.Some? {
      ReconfigurationFails(u, id, mode, aliases, choice, refs);
      assert Forgotten(u, id).(networks := u.networks) == Forgotten(u, id);
    } else {
      var keys := StaleAttachment(u, id, mode, aliases, choice, refs);
      OwnerlessExact(Forgotten(u, id), r.topo.networks, id, keys);
    }
  }

  lemma StaleAttachment(u: Topo, id: string, mode: string, aliases: map<string, seq<string>>,
                        choice: map<string, string>, refs: seq<string>) returns (keys: set<string>)
    requires NetworksSound(u.networks) && id in u.containers && ChoiceLegal(u, Wanted(mode, aliases), choice, refs)
    requires Configure(u, id, mode, aliases, choice, refs).error.None?
    ensures keys <= u.networks.Keys && (keys == {} <==> Isolates(mode))
    ensures AttachedExactly(u.networks, Configure(u, id, mode, aliases, choice, refs).topo.networks, id, keys)
  {
    ReconfigurationSucceeds(u, id, mode, aliases, choice, refs);
    if Isolates(mode) {
      keys := {};
    } else {
      keys := Resolved(choice);
      SomethingResolved(u, mode, aliases, choice);
    }
  }

  lemma SomethingResolved(t: Topo, mode: string, aliases: map<string, seq<string>>, choice: map<string, string>)
    requires choice.Keys == Wanted(mode, aliases).Keys
    ensures Resolved(choice) != {}
  {
    WantedNonempty(mode, aliases);
    var r :| r in choice;
    assert choice[r] in choice.Values;
  }

  /** Connecting a removed container leaves the engine sound if and only if it is refused, for want of an address. */
  lemma StaleConnectExact(u: Topo, id: string, k: string, aliases: seq<string>, p: Option<string>)
    requires id in u.containers && TopoSound(Forgotten(u, id)) && ConnectLegal(u, id, k, aliases, p)
    ensures var r := Connect(u, id, k, aliases, p);
            && (TopoSound(Forgotten(u, id).(networks := r.topo.networks)) <==> r.error.Some?)
            && (r.error.Some? <==> |u.networks[k].endpoints| == 253)
  {
    var r := Connect(u, id, k, aliases, p);
    HostAllocationComplete(u.networks[k], "");
    if r.error.None? {
      assert id in r.topo.networks[k].endpoints;
    } else {
      assert Forgotten(u, id).(networks := u.networks) == Forgotten(u, id);
    }
  }

  // ---------- the failing run ----------

  /** After the lookup of `first`, another removal and a creation under the same name go in between. */
  function Interleaved(name: string, first: string, second: string): seq<Op> {
    [OpCreateContainer(name, first, ""), OpRemoveContainer(first, false), OpCreateContainer(name, second, "")]
  }

  /** The delete erases the new container's name: it still exists, and its name no longer finds it. */
  lemma RemovalErasesName(name: string, first: string, second: string) returns (states: seq<Topo>)
    requires first != "" && second != "" && first != second
    ensures IsRun(Interleaved(name, first, second), states) && first in states[1].containers
    ensures states[1].containers[first].name == name && !NameIsOurs(states[3], first, name)
    ensures var d := EntriesDeleted(states[3], first, name);
            && second in d.containers && d.containers[second].name == name && name !in d.names && !TopoSound(d)
  {
    var ops := Interleaved(name, first, second);
    var s1 := Step(INITIAL, ops[0]).topo;
    var s2 := Step(s1, ops[1]).topo;
    var s3 := Step(s2, ops[2]).topo;
    states := [INITIAL, s1, s2, s3];
    assert name !in EntriesDeleted(s3, first, name).names;
  }
}
