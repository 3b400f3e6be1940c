/** A container's runtime opens its listeners as one transaction. */
module Listeners {
  import opened Basics
  import opened Text

  datatype Binding = Binding(hostIp: string, requested: nat, hostPort: nat, protocol: string)

  type Bindings = map<string, seq<Binding>>

  datatype Address = Address(host: string, port: nat)

  /** One address to listen on; `index` is -1 for a container endpoint, which is `direct`. */
  datatype Spec = Spec(address: Address, key: string, index: int, direct: bool)

  datatype Kind = Nginx | Redis | OtherKind(text: string)

  datatype EndpointMode = Auto | On | Off

  datatype Failure = PortAllocated | CannotBind | UnsupportedKind

  predicate IsTcp(b: Binding) {
    b.protocol == "" || b.protocol == "tcp"
  }

  function ListenHost(hostIp: string): string {
    var h := TrimSpace(hostIp);
    if h == "" || h == "0.0.0.0" || h == "::" || h == "[::]" then "127.0.0.1" else h
  }

  /** The port asked for: the one held from an earlier start, else the requested one; zero asks for any. */
  function ListenAddress(b: Binding): Address {
    Address(ListenHost(b.hostIp), if b.hostPort == 0 then b.requested else b.hostPort)
  }

  function SpecOf(bs: Bindings, key: string, i: nat): Spec
    requires key in bs && i < |bs[key]|
  {
    Spec(ListenAddress(bs[key][i]), key, i, false)
  }

  /** A fixed port is always shown as assigned. */
  predicate FixedPortsHeld(bs: Bindings) {
    forall key, i :: key in bs && 0 <= i < |bs[key]| && bs[key][i].requested != 0 ==> bs[key][i].hostPort == bs[key][i].requested
  }

  predicate TcpAssigned(bs: Bindings) {
    forall key, i :: key in bs && 0 <= i < |bs[key]| && IsTcp(bs[key][i]) ==> bs[key][i].hostPort != 0
  }

  predicate AsRequested(bs: Bindings) {
    forall key, i :: key in bs && 0 <= i < |bs[key]| ==> bs[key][i].hostPort == bs[key][i].requested
  }

  /** Equal in everything but assigned ports, and no assigned port was taken back. */
  predicate OnlyAssigned(was: Bindings, bs: Bindings) {
    && bs.Keys == was.Keys
    && (forall key :: key in was ==> |bs[key]| == |was[key]|)
    && forall key, i :: key in was && 0 <= i < |was[key]| ==>
         bs[key][i] == was[key][i] || (bs[key][i].hostPort != 0 && bs[key][i] == was[key][i].(hostPort := bs[key][i].hostPort))
  }

  function ResetItems(items: seq<Binding>): (r: seq<Binding>)
    ensures |r| == |items|
    ensures forall i :: 0 <= i < |items| ==> r[i] == if items[i].requested == 0 then items[i].(hostPort := 0) else items[i]
  {
    seq(|items|, i requires 0 <= i < |items| => if items[i].requested == 0 then items[i].(hostPort := 0) else items[i])
  }

  function Reset(bs: Bindings): Bindings {
    map key | key in bs :: ResetItems(bs[key])
  }

  lemma ResetIsRequest(bs: Bindings)
    requires FixedPortsHeld(bs)
    ensures AsRequested(Reset(bs))
  {
  }

  function Members(ls: seq<nat>): set<nat> {
    set l | l in ls
  }

  /** The spec of some tcp binding. */
  predicate IsBindingSpec(bs: Bindings, s: Spec) {
    && s.key in bs && 0 <= s.index < |bs[s.key]| && IsTcp(bs[s.key][s.index])
    && s.address == ListenAddress(bs[s.key][s.index])
  }

  /** The container endpoints in order, unless they are off, and after them no other. */
  predicate DirectRight(mode: EndpointMode, endpoints: seq<Address>, specs: seq<Spec>) {
    var n := if mode == Off then 0 else |endpoints|;
    && n <= |specs|
    && (forall i :: 0 <= i < n ==> specs[i] == Spec(endpoints[i], "", -1, true))
    && forall i :: n <= i < |specs| ==> !specs[i].direct
  }

  /** Bindings come in key order and, under one key, in their own; none comes twice. */
  predicate Precedes(a: Spec, b: Spec) {
    a.direct || (!b.direct && if a.key == b.key then a.index < b.index else StrLe(a.key, b.key))
  }

  predicate InOrder(specs: seq<Spec>) {
    forall i, j :: 0 <= i < j < |specs| ==> Precedes(specs[i], specs[j])
  }

  /** The addresses a start must listen on, in order: container endpoints unless off, then every tcp binding. */
  predicate SpecsRight(bs: Bindings, mode: EndpointMode, endpoints: seq<Address>, specs: seq<Spec>) {
    && DirectRight(mode, endpoints, specs) && InOrder(specs)
    && (forall i :: 0 <= i < |specs| && !specs[i].direct ==> IsBindingSpec(bs, specs[i]))
    && (forall key :: key in bs ==> ListsTcp(bs, key, specs))
  }

  /** Every tcp binding under the key is listed. */
  predicate ListsTcp(bs: Bindings, key: string, specs: seq<Spec>)
    requires key in bs
  {
    forall i :: 0 <= i < |bs[key]| && IsTcp(bs[key][i]) ==> SpecOf(bs, key, i) in specs
  }

  /** Every binding listed so far has one of these keys. */
  predicate KeysAmong(specs: seq<Spec>, keys: seq<string>) {
    forall i :: 0 <= i < |specs| && !specs[i].direct ==> specs[i].key in keys
  }

  predicate StrictlySorted(keys: seq<string>) {
    forall i, j :: 0 <= i < j < |keys| ==> keys[i] != keys[j] && StrLe(keys[i], keys[j])
  }

  /** The bindings of the next key go behind those of the earlier ones. */
  lemma NextKeyInOrder(specs: seq<Spec>, more: seq<Spec>, keys: seq<string>, k: nat)
    requires k < |keys| && StrictlySorted(keys) && InOrder(specs) && InOrder(more) && KeysAmong(specs, keys[..k])
    requires forall i :: 0 <= i < |more| ==> !more[i].direct && more[i].key == keys[k]
    ensures InOrder(specs + more) && KeysAmong(specs + more, keys[..k + 1])
  {
    forall i, j | 0 <= i < |specs| && 0 <= j < |more| ensures Precedes(specs[i], more[j]) {
      if !specs[i].direct {
        var h :| 0 <= h < k && keys[..k][h] == specs[i].key;
        assert keys[h] != keys[k];
      }
    }
    assert keys[k] in keys[..k + 1] && forall x :: x in keys[..k] ==> x in keys[..k + 1];
  }

  lemma SortedIsStrict(found: seq<string>)
    requires NoDuplicates(found)
    ensures StrictlySorted(Sort(StrLe, found)) && Elements(Sort(StrLe, found)) == Elements(found)
  {
    var list := Sort(StrLe, found);
    StrLeOrder();
    SortSorts(StrLe, found);
    SameElements(list, found);
    NoDuplicatesMultiset(found);
    NoDuplicatesMultiset(list);
    forall i, j | 0 <= i < j < |list| ensures StrLe(list[i], list[j]) {
      SortedPairs(StrLe, list, i, j);
    }
  }

  predicate SameOwner(a: Spec, b: Spec) {
    a.direct == b.direct && a.key == b.key
  }

  /** Two owners ask for one fixed address. */
  predicate Clash(specs: seq<Spec>) {
    exists i, j :: 0 <= i < j < |specs| && Clashing(specs[i], specs[j])
  }

  predicate Clashing(a: Spec, b: Spec) {
    a.address == b.address && a.address.port != 0 && !SameOwner(a, b)
  }

  /** `seen` records an owner of each address met; so far no fixed address had two. */
  predicate SeenAre(specs: seq<Spec>, seen: map<Address, Spec>) {
    && (forall s :: s in specs ==> s.address in seen && (s.address.port != 0 ==> SameOwner(seen[s.address], s)))
    && (forall a :: a in seen ==> seen[a] in specs && seen[a].address == a)
  }

  /** One more spec either clashes with a recorded one or joins the record. */
  lemma SeenGrows(specs: seq<Spec>, i: nat, seen: map<Address, Spec>)
    requires i < |specs| && SeenAre(specs[..i], seen)
    ensures var s := specs[i];
            if s.address in seen && s.address.port != 0
            then (if SameOwner(seen[s.address], s) then SeenAre(specs[..i + 1], seen) else Clash(specs))
            else SeenAre(specs[..i + 1], seen[s.address := s])
  {
    var s := specs[i];
    assert specs[..i + 1] == specs[..i] + [s];
    if s.address in seen && !SameOwner(seen[s.address], s) {
      var k :| 0 <= k < i && specs[k] == seen[s.address];
      assert s.address.port != 0 ==> Clashing(specs[k], specs[i]);
    }
  }

  lemma NoClash(specs: seq<Spec>, seen: map<Address, Spec>)
    requires SeenAre(specs, seen)
    ensures !Clash(specs)
  {
  }

  /** A spec drawn from these bindings, or a container endpoint. */
  predicate SpecFits(bs: Bindings, s: Spec) {
    if s.direct then s.index == -1 else IsBindingSpec(bs, s)
  }

  predicate SpecsFit(bs: Bindings, specs: seq<Spec>) {
    forall s :: s in specs ==> SpecFits(bs, s)
  }

  /** A port held from an earlier start, or fixed, is the port still held. */
  predicate PortsKept(was: Bindings, bs: Bindings) {
    forall key, i :: key in was && 0 <= i < |was[key]| && was[key][i].hostPort != 0 ==>
      key in bs && i < |bs[key]| && bs[key][i] == was[key][i]
  }

  /** Only ports were assigned, fixed and held ones kept, and each binding listed has one. */
  predicate Settled(was: Bindings, bs: Bindings, specs: seq<Spec>) {
    && FixedPortsHeld(bs) && OnlyAssigned(was, bs) && PortsKept(was, bs)
    && forall s :: s in specs && !s.direct ==> s.key in bs && 0 <= s.index < |bs[s.key]| && bs[s.key][s.index].hostPort != 0
  }

  /** A binding that asks for a fixed address already shows its port. */
  lemma HeldIsSettled(was: Bindings, bs: Bindings, specs: seq<Spec>, s: Spec)
    requires FixedPortsHeld(was) && SpecFits(was, s) && s.address.port != 0 && Settled(was, bs, specs)
    ensures Settled(was, bs, specs + [s])
  {
  }

  function Assigned(bs: Bindings, key: string, i: nat, port: nat): Bindings
    requires key in bs && i < |bs[key]|
  {
    bs[key := bs[key][i := bs[key][i].(hostPort := port)]]
  }

  /** Assigning the port a listener got settles its binding and disturbs no other. */
  lemma AssignSettles(was: Bindings, bs: Bindings, specs: seq<Spec>, s: Spec, port: nat)
    requires FixedPortsHeld(was) && IsBindingSpec(was, s) && Settled(was, bs, specs)
    requires port != 0 && (s.address.port != 0 ==> port == s.address.port)
    ensures s.key in bs && 0 <= s.index < |bs[s.key]|
    ensures Settled(was, Assigned(bs, s.key, s.index, port), specs + [s])
  {
    assert was[s.key][s.index].requested != 0 ==> s.address.port == was[s.key][s.index].requested;
  }

  // ---------- where listeners stand ----------

  /** The listener is what was asked for: that host, and that port unless any would do. */
  predicate Answers(a: Address, asked: Address) {
    a.host == asked.host && (asked.port != 0 ==> a.port == asked.port)
  }

  /** The listener serves the binding: at the address asked for, and at the port the binding shows. */
  predicate Serves(bs: Bindings, a: Address, s: Spec) {
    && Answers(a, s.address)
    && (!s.direct ==> s.key in bs && 0 <= s.index < |bs[s.key]| && a.port == bs[s.key][s.index].hostPort)
  }

  predicate Served(bs: Bindings, open: map<nat, Address>, bound: seq<nat>, s: Spec) {
    exists l :: l in bound && l in open && Serves(bs, open[l], s)
  }

  predicate Asked(a: Address, specs: seq<Spec>) {
    exists s :: s in specs && Answers(a, s.address)
  }

  /** Each listener was asked for, and each address asked for is served, endpoints in auto mode excepted. */
  predicate Standing(bs: Bindings, open: map<nat, Address>, bound: seq<nat>, specs: seq<Spec>, mode: EndpointMode) {
    AllAsked(open, bound, specs) && AllStand(bs, open, bound, specs, mode)
  }

  predicate AllAsked(open: map<nat, Address>, bound: seq<nat>, specs: seq<Spec>) {
    forall l :: l in bound ==> l in open && Asked(open[l], specs)
  }

  predicate AllStand(bs: Bindings, open: map<nat, Address>, bound: seq<nat>, specs: seq<Spec>, mode: EndpointMode) {
    forall s :: s in specs && !(s.direct && mode == Auto) ==> Served(bs, open, bound, s)
  }

  /** How the shown bindings change when a listener at a is opened for s. */
  predicate Shown(bs: Bindings, bs': Bindings, s: Spec, a: Address) {
    if s.direct then bs' == bs
    else s.key in bs && 0 <= s.index < |bs[s.key]| && bs' == Assigned(bs, s.key, s.index, a.port)
  }

  /** A new listener for s leaves the others serving; the same binding listed before now shows the new port. */
  lemma StandingGrows(was: Bindings, bs: Bindings, open: map<nat, Address>, bound: seq<nat>, specs: seq<Spec>, mode: EndpointMode,
                      s: Spec, l: nat, a: Address, bs': Bindings)
    requires Standing(bs, open, bound, specs, mode) && SpecsFit(was, specs) && SpecFits(was, s) && l !in open
    requires Serves(bs', a, s) && Shown(bs, bs', s, a)
    ensures Standing(bs', open[l := a], bound + [l], specs + [s], mode)
  {
    AskedGrows(a, specs, s);
    AllAskedGrows(open, bound, specs, s);
    ListenerAsked(open, bound, specs + [s], l, a);
    ServiceGrows(was, bs, open, bound, specs, mode, s, l, a, bs');
  }

  lemma ListenerAsked(open: map<nat, Address>, bound: seq<nat>, specs: seq<Spec>, l: nat, a: Address)
    requires AllAsked(open, bound, specs) && Asked(a, specs) && l !in open
    ensures AllAsked(open[l := a], bound + [l], specs)
  {
  }

  lemma AskedGrows(a: Address, specs: seq<Spec>, s: Spec)
    requires Asked(a, specs) || Answers(a, s.address)
    ensures Asked(a, specs + [s])
  {
    var t :| t in specs + [s] && Answers(a, t.address);
  }

  lemma AllAskedGrows(open: map<nat, Address>, bound: seq<nat>, specs: seq<Spec>, s: Spec)
    requires AllAsked(open, bound, specs)
    ensures AllAsked(open, bound, specs + [s])
  {
    forall l | l in bound ensures l in open && Asked(open[l], specs + [s]) {
      AskedGrows(open[l], specs, s);
    }
  }

  lemma ServiceGrows(was: Bindings, bs: Bindings, open: map<nat, Address>, bound: seq<nat>, specs: seq<Spec>, mode: EndpointMode,
                     s: Spec, l: nat, a: Address, bs': Bindings)
    requires AllStand(bs, open, bound, specs, mode) && SpecsFit(was, specs) && SpecFits(was, s) && l !in open
    requires Serves(bs', a, s) && Shown(bs, bs', s, a)
    ensures AllStand(bs', open[l := a], bound + [l], specs + [s], mode)
  {
    var open', bound' := open[l := a], bound + [l];
    assert l in bound' && Serves(bs', open'[l], s);
    forall t | t in specs && !(t.direct && mode == Auto) ensures Served(bs', open', bound', t) {
      var k :| k in bound && k in open && Serves(bs, open[k], t);
      assert k in bound' && open'[k] == open[k];
      StillServes(was, bs, bs', open[k], a, s, t);
    }
  }

  lemma StillServes(was: Bindings, bs: Bindings, bs': Bindings, b: Address, a: Address, s: Spec, t: Spec)
    requires SpecFits(was, s) && SpecFits(was, t) && Serves(bs, b, t) && Serves(bs', a, s) && Shown(bs, bs', s, a)
    ensures Serves(bs', b, t) || Serves(bs', a, t)
  {
  }

  /** A second request for one fixed address by the same owner is served already. */
  lemma StandingRepeats(was: Bindings, bs: Bindings, open: map<nat, Address>, bound: seq<nat>, specs: seq<Spec>, mode: EndpointMode,
                        t: Spec, s: Spec)
    requires Standing(bs, open, bound, specs, mode) && SpecFits(was, t) && SpecFits(was, s)
    requires FixedPortsHeld(was) && PortsKept(was, bs)
    requires t in specs && t.address == s.address && s.address.port != 0 && SameOwner(t, s)
    ensures Standing(bs, open, bound, specs + [s], mode)
  {
    AllAskedGrows(open, bound, specs, s);
    if !(t.direct && mode == Auto) {
      var k :| k in bound && k in open && Serves(bs, open[k], t);
      SameService(was, bs, open[k], t, s);
    }
  }

  lemma HeldPort(was: Bindings, bs: Bindings, s: Spec)
    requires FixedPortsHeld(was) && PortsKept(was, bs) && IsBindingSpec(was, s) && s.address.port != 0
    ensures s.key in bs && 0 <= s.index < |bs[s.key]| && bs[s.key][s.index].hostPort == s.address.port
  {
  }

  lemma SameService(was: Bindings, bs: Bindings, a: Address, t: Spec, s: Spec)
    requires FixedPortsHeld(was) && PortsKept(was, bs) && SpecFits(was, t) && SpecFits(was, s)
    requires t.address == s.address && s.address.port != 0 && SameOwner(t, s) && Serves(bs, a, t)
    ensures Serves(bs, a, s)
  {
    if !s.direct {
      HeldPort(was, bs, t);
      HeldPort(was, bs, s);
    }
  }

  /** The host a binding is published on: the loopback address for none and for every address, else the one named. */
  predicate StandsOn(b: Binding, a: Address) {
    && a.port == b.hostPort
    && var named := TrimSpace(b.hostIp);
       if named in {"", "0.0.0.0", "::", "[::]"} then a.host == "127.0.0.1" else a.host == named
  }

  /** Every tcp binding has a listener of the runtime's own at its host and port, and so has every endpoint that must. */
  predicate AllServed(bs: Bindings, mode: EndpointMode, endpoints: seq<Address>, open: map<nat, Address>, bound: seq<nat>) {
    && (forall key, i :: key in bs && 0 <= i < |bs[key]| && IsTcp(bs[key][i]) ==> BindingServed(bs[key][i], open, bound))
    && (mode == On ==> forall e :: e in endpoints ==> EndpointServed(e, open, bound))
    && (forall l :: l in bound ==> l in open && HasReason(bs, mode, endpoints, open[l]))
  }

  predicate BindingServed(b: Binding, open: map<nat, Address>, bound: seq<nat>) {
    exists l :: l in bound && l in open && StandsOn(b, open[l])
  }

  predicate EndpointServed(e: Address, open: map<nat, Address>, bound: seq<nat>) {
    exists l :: l in bound && l in open && open[l].host == e.host && (e.port != 0 ==> open[l].port == e.port)
  }

  /** An endpoint or a tcp binding on that host. */
  predicate HasReason(bs: Bindings, mode: EndpointMode, endpoints: seq<Address>, a: Address) {
    || (mode != Off && exists e :: e in endpoints && e.host == a.host && (e.port != 0 ==> a.port == e.port))
    || exists key, i :: key in bs && 0 <= i < |bs[key]| && SameHost(bs[key][i], a)
  }

  predicate SameHost(b: Binding, a: Address) {
    IsTcp(b) && StandsOn(b, Address(a.host, b.hostPort))
  }

  lemma StandingServes(was: Bindings, bs: Bindings, mode: EndpointMode, endpoints: seq<Address>, open: map<nat, Address>,
                       bound: seq<nat>, specs: seq<Spec>)
    requires SpecsRight(was, mode, endpoints, specs) && Settled(was, bs, specs) && Standing(bs, open, bound, specs, mode)
    ensures AllServed(bs, mode, endpoints, open, bound)
  {
    forall key, i | key in bs && 0 <= i < |bs[key]| && IsTcp(bs[key][i]) ensures BindingServed(bs[key][i], open, bound) {
      BindingStands(was, bs, mode, endpoints, open, bound, specs, key, i);
    }
    if mode == On {
      forall e | e in endpoints ensures EndpointServed(e, open, bound) {
        EndpointStands(was, bs, endpoints, open, bound, specs, e);
      }
    }
    forall l | l in bound ensures l in open && HasReason(bs, mode, endpoints, open[l]) {
      ListenerHasReason(was, bs, mode, endpoints, open[l], specs);
    }
  }

  lemma BindingStands(was: Bindings, bs: Bindings, mode: EndpointMode, endpoints: seq<Address>, open: map<nat, Address>,
                      bound: seq<nat>, specs: seq<Spec>, key: string, i: nat)
    requires SpecsRight(was, mode, endpoints, specs) && OnlyAssigned(was, bs) && AllStand(bs, open, bound, specs, mode)
    requires key in bs && i < |bs[key]| && IsTcp(bs[key][i])
    ensures BindingServed(bs[key][i], open, bound)
  {
    assert ListsTcp(was, key, specs);
    var s := SpecOf(was, key, i);
    var l :| l in bound && l in open && Serves(bs, open[l], s);
    assert StandsOn(bs[key][i], open[l]);
  }

  lemma EndpointStands(was: Bindings, bs: Bindings, endpoints: seq<Address>, open: map<nat, Address>,
                       bound: seq<nat>, specs: seq<Spec>, e: Address)
    requires SpecsRight(was, On, endpoints, specs) && AllStand(bs, open, bound, specs, On) && e in endpoints
    ensures EndpointServed(e, open, bound)
  {
    var i :| 0 <= i < |endpoints| && endpoints[i] == e;
    assert specs[i] in specs;
    var l :| l in bound && l in open && Serves(bs, open[l], specs[i]);
  }

  lemma ListenerHasReason(was: Bindings, bs: Bindings, mode: EndpointMode, endpoints: seq<Address>, a: Address, specs: seq<Spec>)
    requires SpecsRight(was, mode, endpoints, specs) && Settled(was, bs, specs) && Asked(a, specs)
    ensures HasReason(bs, mode, endpoints, a)
  {
    var s :| s in specs && Answers(a, s.address);
    var i :| 0 <= i < |specs| && specs[i] == s;
    if s.direct {
      assert mode != Off && s.address == endpoints[i];
    } else {
      BindingHasHost(was, bs, s, a);
    }
  }

  lemma BindingHasHost(was: Bindings, bs: Bindings, s: Spec, a: Address)
    requires OnlyAssigned(was, bs) && IsBindingSpec(was, s) && Answers(a, s.address)
    ensures s.key in bs && 0 <= s.index < |bs[s.key]| && SameHost(bs[s.key][s.index], a)
  {
  }

  /** The host's TCP stack: an oracle that may refuse anything and refuses an occupied address. */
  class Host {
    var open: map<nat, Address>
    var next: nat
    ghost var refusals: nat

    ghost predicate Valid()
      reads this
    {
      forall l :: l in open ==> l < next
    }

    constructor ()
      ensures Valid() && open == map[]
    {
      open, next := map[], 0;
      refusals := 0;
    }

    method Listen(a: Address) returns (l: Option<nat>)
      requires Valid()
      modifies this
      ensures Valid()
      ensures refusals == old(refusals) + if l.None? then 1 else 0
      ensures l.None? ==> open == old(open)
      ensures l.Some? ==>
                && l.value !in old(open) && l.value in open
                && open == old(open)[l.value := open[l.value]]
                && Answers(open[l.value], a) && open[l.value].port != 0
                && (a.port != 0 ==> open[l.value] == a && a !in old(open).Values)
    {
      var refuse: bool := *;
      if refuse || (a.port != 0 && a in open.Values) {
        refusals := refusals + 1;
        return None;
      }
      var port := a.port;
      if port == 0 {
        port :| 0 < port < 65536;
      }
      l := Some(next);
      open := open[next := Address(a.host, port)];
      next := next + 1;
    }

    method Close(l: nat)
      requires Valid()
      modifies this`open
      ensures Valid() && open == old(open) - {l}
    {
      open := open - {l};
    }

    method CloseAll(ls: seq<nat>)
      requires Valid()
      modifies this`open
      ensures Valid() && open == old(open) - Members(ls)
    {
      for i := 0 to |ls|
        invariant Valid()
        invariant open == old(open) - Members(ls[..i])
      {
        assert ls[..i + 1] == ls[..i] + [ls[i]];
        assert Members(ls[..i + 1]) == Members(ls[..i]) + {ls[i]};
        Close(ls[i]);
      }
      assert ls[..|ls|] == ls;
    }
  }

  class ContainerRuntime {
    const host: Host
    const kind: Kind
    const mode: EndpointMode

    var bindings: Bindings
    var active: bool
    var listeners: seq<nat>

    /** Fixed ports are shown; an active runtime has a port on every tcp binding; its listeners are open and its own. */
    ghost predicate Valid()
      reads this, host
    {
      && host.Valid() && FixedPortsHeld(bindings)
      && (active ==> TcpAssigned(bindings))
      && (!active ==> listeners == [])
      && (forall l :: l in listeners ==> l in host.open)
    }

    constructor (host: Host, kind: Kind, mode: EndpointMode, bindings: Bindings)
      requires host.Valid() && AsRequested(bindings)
      ensures Valid() && !active && this.bindings == bindings && this.host == host && this.kind == kind && this.mode == mode
    {
      this.host, this.kind, this.mode, this.bindings := host, kind, mode, bindings;
      active, listeners := false, [];
    }

    method UpdateAssignedPort(key: string, index: int, port: nat)
      modifies this`bindings
      ensures key in old(bindings) && 0 <= index < |old(bindings)[key]| ==>
                bindings == old(bindings)[key := old(bindings)[key][index := old(bindings)[key][index].(hostPort := port)]]
      ensures !(key in old(bindings) && 0 <= index < |old(bindings)[key]|) ==> bindings == old(bindings)
    {
      if key !in bindings || index < 0 || index >= |bindings[key]| {
        return;
      }
      bindings := bindings[key := bindings[key][index := bindings[key][index].(hostPort := port)]];
    }

    method ResetEphemeralPorts()
      modifies this`bindings
      ensures bindings == Reset(old(bindings))
    {
      ghost var before := bindings;
      var pending := bindings.Keys;
      while pending != {}
        invariant pending <= before.Keys && bindings.Keys == before.Keys
        invariant forall k :: k in before ==> bindings[k] == if k in pending then before[k] else ResetItems(before[k])
        decreases pending
      {
        var key :| key in pending;
        var items := bindings[key];
        for i := 0 to |items|
          invariant |items| == |before[key]|
          invariant forall j :: 0 <= j < |items| ==> items[j] == if j < i then ResetItems(before[key])[j] else before[key][j]
        {
          if items[i].requested == 0 {
            items := items[i := items[i].(hostPort := 0)];
          }
        }
        assert items == ResetItems(before[key]);
        bindings := bindings[key := items];
        pending := pending - {key};
      }
    }

    /** Endpoint addresses first, unless they are off, then every tcp binding in key order. */
    method ListenSpecs(endpoints: seq<Address>) returns (specs: seq<Spec>)
      ensures SpecsRight(bindings, mode, endpoints, specs)
    {
      specs := DirectSpecs(endpoints);
      var keys := SortedKeys(bindings.Keys);
      for k := 0 to |keys|
        invariant DirectRight(mode, endpoints, specs) && InOrder(specs) && KeysAmong(specs, keys[..k])
        invariant forall i :: 0 <= i < |specs| && !specs[i].direct ==> IsBindingSpec(bindings, specs[i])
        invariant forall j :: 0 <= j < k ==> ListsTcp(bindings, keys[j], specs)
      {
        var more := SpecsFor(keys[k]);
        NextKeyInOrder(specs, more, keys, k);
        specs := specs + more;
      }
      assert forall key :: key in bindings ==> key in keys;
    }

    method DirectSpecs(endpoints: seq<Address>) returns (specs: seq<Spec>)
      ensures DirectRight(mode, endpoints, specs) && forall s :: s in specs ==> s.direct
    {
      specs := [];
      if mode != Off {
        for i := 0 to |endpoints|
          invariant |specs| == i && forall j :: 0 <= j < i ==> specs[j] == Spec(endpoints[j], "", -1, true)
        {
          specs := specs + [Spec(endpoints[i], "", -1, true)];
        }
      }
    }

    method SortedKeys(keys: set<string>) returns (list: seq<string>)
      ensures StrictlySorted(list) && forall k :: k in list <==> k in keys
    {
      var found := [];
      var pending := keys;
      while pending != {}
        invariant pending <= keys && NoDuplicates(found) && Elements(found) == keys - pending
        decreases pending
      {
        var k :| k in pending;
        assert k !in Elements(found) && Elements(found + [k]) == Elements(found) + {k};
        found := found + [k];
        pending := pending - {k};
      }
      list := Sort(StrLe, found);
      SortedIsStrict(found);
      assert forall k :: k in list <==> k in Elements(list);
    }

    method SpecsFor(key: string) returns (specs: seq<Spec>)
      requires key in bindings
      ensures InOrder(specs)
      ensures forall j :: 0 <= j < |specs| ==> !specs[j].direct && specs[j].key == key && IsBindingSpec(bindings, specs[j])
      ensures ListsTcp(bindings, key, specs)
    {
      specs := [];
      for i := 0 to |bindings[key]|
        invariant InOrder(specs) && forall j :: 0 <= j < |specs| ==> specs[j].index < i
        invariant forall j :: 0 <= j < |specs| ==> !specs[j].direct && specs[j].key == key && IsBindingSpec(bindings, specs[j])
        invariant forall j :: 0 <= j < i && IsTcp(bindings[key][j]) ==> SpecOf(bindings, key, j) in specs
      {
        if IsTcp(bindings[key][i]) {
          specs := specs + [SpecOf(bindings, key, i)];
        }
      }
    }

    /** Undo everything a failed start has done. */
    method RollBack(bound: seq<nat>, ghost was: map<nat, Address>)
      requires host.Valid() && FixedPortsHeld(bindings) && Added(was, host.open, bound)
      modifies host`open, this`bindings
      ensures host.Valid() && host.open == was && AsRequested(bindings)
    {
      UndoAdded(was, host.open, bound);
      ResetIsRequest(bindings);
      host.CloseAll(bound);
      ResetEphemeralPorts();
    }

    /** Binds one address; a container endpoint that cannot be bound is skipped in auto mode. */
    method OpenOne(spec: Spec, ghost was: Bindings, ghost done: seq<Spec>) returns (failed: bool, bound: Option<nat>)
      requires host.Valid() && FixedPortsHeld(was) && SpecFits(was, spec) && Settled(was, bindings, done)
      modifies host, this`bindings
      ensures host.Valid() && FixedPortsHeld(bindings)
      ensures bound.None? ==> host.open == old(host.open)
      ensures bound.None? ==> failed == !(spec.direct && mode == Auto)
      ensures host.refusals == old(host.refusals) + if bound.None? then 1 else 0
      ensures bound.Some? ==>
                && !failed && bound.value !in old(host.open) && bound.value in host.open
                && host.open == old(host.open)[bound.value := host.open[bound.value]]
      ensures !failed ==> Settled(was, bindings, done + [spec])
      ensures bound.None? ==> bindings == old(bindings)
      ensures bound.Some? ==>
                && Serves(bindings, host.open[bound.value], spec)
                && Shown(old(bindings), bindings, spec, host.open[bound.value])
    {
      bound := host.Listen(spec.address);
      failed := bound.None? && !(spec.direct && mode == Auto);
      if bound.Some? && spec.index >= 0 {
        AssignSettles(was, bindings, done, spec, host.open[bound.value].port);
        UpdateAssignedPort(spec.key, spec.index, host.open[bound.value].port);
      }
    }

    /** Opens the next address, or gives up and undoes everything. */
    method OpenNext(spec: Spec, held: seq<nat>, ghost was: Bindings, ghost done: seq<Spec>, ghost before: map<nat, Address>)
      returns (failure: Option<Failure>, bound: seq<nat>)
      requires host.Valid() && FixedPortsHeld(was) && SpecFits(was, spec) && Settled(was, bindings, done)
      requires Added(before, host.open, held) && SpecsFit(was, done) && Standing(bindings, host.open, held, done, mode)
      modifies host, this`bindings
      ensures host.Valid()
      ensures failure.Some? ==> host.open == before && AsRequested(bindings) && host.refusals > old(host.refusals)
      ensures failure.None? ==> Settled(was, bindings, done + [spec]) && Added(before, host.open, bound)
      ensures failure.None? ==> Standing(bindings, host.open, bound, done + [spec], mode)
      ensures failure.None? ==> host.refusals >= old(host.refusals) && (mode != Auto ==> host.refusals == old(host.refusals))
    {
      ghost var now, shown := host.open, bindings;
      failure, bound := None, held;
      var failed, l := OpenOne(spec, was, done);
      if failed {
        RollBack(bound, before);
        return Some(if spec.direct then CannotBind else PortAllocated), [];
      }
      if l.Some? {
        AddedOne(before, now, host.open, bound, l.value);
        StandingGrows(was, shown, now, bound, done, mode, spec, l.value, host.open[l.value], bindings);
        bound := bound + [l.value];
      }
    }

    /** Takes the next spec of the list: one owner may repeat a fixed address, two may not share one. */
    method OpenListed(specs: seq<Spec>, i: nat, seen: map<Address, Spec>, held: seq<nat>, ghost was: Bindings, ghost before: map<nat, Address>)
      returns (failure: Option<Failure>, bound: seq<nat>, met: map<Address, Spec>)
      requires i < |specs| && host.Valid() && FixedPortsHeld(was) && SpecsFit(was, specs)
      requires Underway(was, bindings, before, host.open, held, specs[..i], seen, mode)
      modifies host, this`bindings
      ensures host.Valid()
      ensures failure.Some? ==> host.open == before && AsRequested(bindings) && (Clash(specs) || host.refusals > old(host.refusals))
      ensures failure.None? ==> Underway(was, bindings, before, host.open, bound, specs[..i + 1], met, mode)
      ensures host.refusals >= old(host.refusals) && (failure.None? && mode != Auto ==> host.refusals == old(host.refusals))
    {
      failure, bound, met := None, held, seen;
      var spec := specs[i];
      SeenGrows(specs, i, seen);
      assert specs[..i + 1] == specs[..i] + [spec];
      if spec.address in seen && spec.address.port != 0 {
        if seen[spec.address].direct == spec.direct && seen[spec.address].key == spec.key {
          HeldIsSettled(was, bindings, specs[..i], spec);
          StandingRepeats(was, bindings, host.open, bound, specs[..i], mode, seen[spec.address], spec);
          return;
        }
        RollBack(bound, before);
        return Some(PortAllocated), [], seen;
      }
      met := seen[spec.address := spec];
      failure, bound := OpenNext(spec, bound, was, specs[..i], before);
    }

    method OpenAll(specs: seq<Spec>) returns (failure: Option<Failure>, bound: seq<nat>)
      requires host.Valid() && FixedPortsHeld(bindings) && SpecsFit(bindings, specs)
      modifies host, this`bindings
      ensures host.Valid()
      ensures failure.Some? ==> Clash(specs) || host.refusals > old(host.refusals)
      ensures failure.None? ==> !Clash(specs) && (mode != Auto ==> host.refusals == old(host.refusals))
      ensures failure.Some? ==> host.open == old(host.open) && AsRequested(bindings)
      ensures failure.None? ==> Settled(old(bindings), bindings, specs) && Added(old(host.open), host.open, bound)
      ensures failure.None? ==> Standing(bindings, host.open, bound, specs, mode)
    {
      failure, bound := None, [];
      ghost var was, before := bindings, host.open;
      var seen: map<Address, Spec> := map[];
      for i := 0 to |specs|
        invariant failure.None? && host.Valid()
        invariant Underway(was, bindings, before, host.open, bound, specs[..i], seen, mode)
        invariant host.refusals >= old(host.refusals) && (mode != Auto ==> host.refusals == old(host.refusals))
      {
        failure, bound, seen := OpenListed(specs, i, seen, bound, was, before);
        if failure.Some? {
          return;
        }
      }
      assert specs[..|specs|] == specs;
      NoClash(specs, seen);
    }

    /**
     All or nothing, and never for no reason.  A failed start leaves no listener open, the runtime inactive and every
     binding as requested, and two owners asked for one fixed address, the kind has no runtime, or the host refused
     an address.  A successful one holds the old listeners of the host plus exactly its own and gives every tcp
     binding a port, the requested one where it was fixed and the one held before where it held one, with a listener
     there; outside auto mode nothing was refused on the way.
     */
    method Start(endpoints: seq<Address>) returns (failure: Option<Failure>, ghost specs: seq<Spec>)
      requires Valid()
      modifies this, host
      ensures Valid() && active == (old(active) || failure.None?)
      ensures old(active) ==> failure.None? && bindings == old(bindings) && host.open == old(host.open) && listeners == old(listeners)
      ensures failure.Some? ==> host.open == old(host.open) && listeners == [] && AsRequested(bindings)
      ensures !old(active) ==> SpecsRight(old(bindings), mode, endpoints, specs)
      ensures failure.Some? ==> Clash(specs) || kind.OtherKind? || host.refusals > old(host.refusals)
      ensures failure.None? && !old(active) ==>
                !Clash(specs) && !kind.OtherKind? && (mode != Auto ==> host.refusals == old(host.refusals))
      ensures failure.None? ==> TcpAssigned(bindings) && FixedPortsHeld(bindings)
      ensures failure.None? && !old(active) ==>
                && OnlyAssigned(old(bindings), bindings) && PortsKept(old(bindings), bindings)
                && Added(old(host.open), host.open, listeners)
                && AllServed(bindings, mode, endpoints, host.open, listeners)
    {
      specs := [];
      if active {
        return None, specs;
      }
      var list := ListenSpecs(endpoints);
      specs := list;
      var bound;
      failure, bound := OpenAll(list);
      if failure.Some? {
        return;
      }
      if kind != Nginx && kind != Redis {
        RollBack(bound, old(host.open));
        return Some(UnsupportedKind), specs;
      }
      StandingServes(old(bindings), bindings, mode, endpoints, host.open, bound, list);
      listeners := bound;
      active := true;
    }

    /** Gives back exactly the runtime's own listeners and keeps the assigned ports for the next start. */
    method Stop()
      requires Valid()
      modifies this, host
      ensures Valid() && !active && listeners == [] && bindings == old(bindings)
      ensures host.open == old(host.open) - Members(old(listeners))
    {
      host.CloseAll(listeners);
      listeners := [];
      active := false;
    }

    /** A start that succeeds and the stop that follows leave the host as it was. */
    method Cycle(endpoints: seq<Address>) returns (failure: Option<Failure>)
      requires Valid() && !active
      modifies this, host
      ensures Valid() && !active && host.open == old(host.open)
      ensures failure.None? ==> TcpAssigned(bindings) && OnlyAssigned(old(bindings), bindings)
    {
      ghost var specs;
      failure, specs := Start(endpoints);
      if failure.None? {
        UndoAdded(old(host.open), host.open, listeners);
        Stop();
      }
    }

    /** A start after a stop is on the ports of the first start, or fails. */
    method Reopen(endpoints: seq<Address>, later: seq<Address>) returns (failure: Option<Failure>, ghost first: Bindings)
      requires Valid() && !active
      modifies this, host
      ensures Valid()
      ensures failure.None? ==> active && TcpAssigned(first) && OnlyAssigned(old(bindings), first)
      ensures failure.None? ==> bindings.Keys == first.Keys
      ensures failure.None? ==>
                forall key, i :: key in first && 0 <= i < |first[key]| && IsTcp(first[key][i]) ==>
                  i < |bindings[key]| && bindings[key][i] == first[key][i] && BindingServed(first[key][i], host.open, listeners)
    {
      ghost var specs;
      failure, specs := Start(endpoints);
      first := bindings;
      if failure.None? {
        Stop();
        failure, specs := Start(later);
      }
    }
  }

  /** The open listeners are those of before and exactly the given new ones. */
  predicate Added(was: map<nat, Address>, now: map<nat, Address>, bound: seq<nat>) {
    && now.Keys == was.Keys + Members(bound)
    && (forall l :: l in bound ==> l !in was)
    && forall l :: l in was ==> now[l] == was[l]
  }

  /** Where a start stands after these specs: ports settled, exactly its own listeners added, each where it must be. */
  predicate Underway(was: Bindings, bs: Bindings, before: map<nat, Address>, open: map<nat, Address>, bound: seq<nat>, done: seq<Spec>,
                     seen: map<Address, Spec>, mode: EndpointMode) {
    Settled(was, bs, done) && Added(before, open, bound) && Standing(bs, open, bound, done, mode) && SeenAre(done, seen)
  }

  lemma AddedOne(was: map<nat, Address>, now: map<nat, Address>, after: map<nat, Address>, bound: seq<nat>, l: nat)
    requires Added(was, now, bound) && l !in now && l in after && after == now[l := after[l]]
    ensures Added(was, after, bound + [l])
  {
    assert Members(bound + [l]) == Members(bound) + {l};
  }

  lemma UndoAdded(was: map<nat, Address>, now: map<nat, Address>, bound: seq<nat>)
    requires Added(was, now, bound)
    ensures now - Members(bound) == was
  {
  }
}
