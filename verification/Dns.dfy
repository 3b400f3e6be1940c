/** Network-scoped name resolution and reference lookups, free of map order. */
module Dns {
  import opened Basics
  import opened Text
  import opened Addresses
  import opened Topology
  import opened TopologyRuns

  datatype DnsResult = DnsResult(name: string, network: string, container: string, ip: string)

  function QueryName(name: string): string {
    ToLower(TrimSpace(TrimSuffix(name, ".")))
  }

  function ShortId(id: string): string {
    if |id| > 12 then id[..12] else id
  }

  /** Every text a container answers to on one endpoint. */
  function Candidates(c: Container, id: string, e: Endpoint): seq<string> {
    [c.name, TrimPrefix(c.name, "/"), id, ShortId(id), c.service] + e.aliases
  }

  predicate AnswersTo(c: Container, id: string, e: Endpoint, name: string) {
    exists x :: x in Candidates(c, id, e) && EqualFold(TrimSpace(x), name)
  }

  function Record(t: Topo, name: string, k: string, id: string): DnsResult
    requires k in t.networks && id in t.networks[k].endpoints && id in t.containers
  {
    DnsResult(name, t.networks[k].name, t.containers[id].name, AddrText(t.networks[k].endpoints[id].addr))
  }

  /** Endpoint `id` of network `k` is an answer for the requester. */
  predicate IsAnswer(t: Topo, requester: string, name: string, k: string, id: string) {
    && k in t.networks && requester in t.networks[k].endpoints
    && id in t.networks[k].endpoints && id in t.containers
    && AnswersTo(t.containers[id], id, t.networks[k].endpoints[id], name)
  }

  function AnswersOn(t: Topo, requester: string, name: string, k: string): set<DnsResult>
    requires k in t.networks
  {
    set id | id in t.networks[k].endpoints && IsAnswer(t, requester, name, k, id) :: Record(t, name, k, id)
  }

  /** The matching endpoints on all the networks the requester has joined. */
  function Answers(t: Topo, requester: string, name: string): set<DnsResult> {
    set k, x | k in t.networks && x in AnswersOn(t, requester, name, k) :: x
  }

  /** Order by network, then container, then address, all as text. */
  predicate DnsLe(a: DnsResult, b: DnsResult) {
    if a.network != b.network then StrLe(a.network, b.network)
    else if a.container != b.container then StrLe(a.container, b.container)
    else if a.ip != b.ip then StrLe(a.ip, b.ip)
    else StrLe(a.name, b.name)
  }

  lemma DnsLeOrder()
    ensures TotalOrder(DnsLe)
  {
    StrLeOrder();
  }

  /** The answer list: every matching endpoint once, in order. */
  predicate IsResolution(t: Topo, requester: string, name: string, r: seq<DnsResult>) {
    Sorted(DnsLe, r) && NoDuplicates(r) && Elements(r) == Answers(t, requester, name)
  }

  /** Two resolutions of one query are the same list: map iteration order cannot show. */
  lemma ResolutionUnique(t: Topo, requester: string, name: string, r1: seq<DnsResult>, r2: seq<DnsResult>)
    requires IsResolution(t, requester, name, r1) && IsResolution(t, requester, name, r2)
    ensures r1 == r2
  {
    NoDuplicatesMultiset(r1);
    NoDuplicatesMultiset(r2);
    DnsLeOrder();
    SortedUnique(DnsLe, r1, r2);
  }

  /** Different endpoints give different records, so no answer is listed twice or lost. */
  lemma RecordsDistinct(t: Topo, name: string, j: string, a: string, k: string, b: string)
    requires NetworksSound(t.networks)
    requires j in t.networks && a in t.networks[j].endpoints && a in t.containers
    requires k in t.networks && b in t.networks[k].endpoints && b in t.containers
    requires Record(t, name, j, a) == Record(t, name, k, b)
    ensures j == k && a == b
  {
    AddressesDistinct(t, j, a, k, b);
  }

  lemma SortedList(out: seq<DnsResult>)
    requires NoDuplicates(out)
    ensures var r := Sort(DnsLe, out);
            Sorted(DnsLe, r) && NoDuplicates(r) && Elements(r) == Elements(out)
  {
    var r := Sort(DnsLe, out);
    DnsLeOrder();
    SortSorts(DnsLe, out);
    SameElements(r, out);
    NoDuplicatesMultiset(out);
    NoDuplicatesMultiset(r);
  }

  // ---------- container references ----------

  datatype Lookup = Found(id: string) | Ambiguous | Missing

  function CleanRef(ref: string): string {
    TrimPrefix(TrimSpace(ref), "/")
  }

  function WithPrefix(t: Topo, ref: string): set<string> {
    set id | id in t.containers && ref <= id
  }

  /** By name, else by exact ID, else by an ID prefix that only one container has. */
  predicate IsLookup(t: Topo, ref: string, r: Lookup) {
    if ref in t.names then r == Found(t.names[ref])
    else if ref in t.containers then r == Found(ref)
    else match r
      case Found(id) => WithPrefix(t, ref) == {id}
      case Ambiguous => |WithPrefix(t, ref)| > 1
      case Missing => WithPrefix(t, ref) == {}
  }

  /** The verdict is a function of the reference, whatever order the containers are met in. */
  lemma LookupUnique(t: Topo, ref: string, r1: Lookup, r2: Lookup)
    requires IsLookup(t, ref, r1) && IsLookup(t, ref, r2)
    ensures r1 == r2
  {
    if ref !in t.names && ref !in t.containers {
      if r1.Found? && r2.Found? {
        assert r2.id in {r1.id};
      }
    }
  }

  /** A container is found under its own name and under its own full ID. */
  lemma LookupFindsLive(t: Topo, id: string, r: Lookup)
    requires NamesSound(t) && id in t.containers
    ensures IsLookup(t, t.containers[id].name, r) ==> r == Found(id)
    ensures IsLookup(t, id, r) && id !in t.names ==> r == Found(id)
  {
  }
}
