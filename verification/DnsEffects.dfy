/** Which names answer for an endpoint, written out, from connecting or configuring down to the reply. */
module DnsEffects {
  import opened Basics
  import opened Text
  import opened Addresses
  import opened Topology
  import opened TopologyRuns
  import opened Dns
  import opened Naming
  import opened TopologyEffects

  /** A text that stands for container `id` at this endpoint: its name, ID, short ID, service or an alias. */
  predicate StandsFor(c: Container, id: string, e: Endpoint, x: string) {
    || x == c.name || "/" + x == c.name
    || x == id || (|id| > 12 && x == id[..12])
    || x == c.service
    || x in e.aliases
  }

  /** The endpoint of `id` on k answers the query for the requester, with this record. */
  ghost predicate AnswersWith(t: Topo, requester: string, query: string, k: string, id: string, r: DnsResult) {
    && k in t.networks && requester in t.networks[k].endpoints && id in t.networks[k].endpoints && id in t.containers
    && (exists x :: StandsFor(t.containers[id], id, t.networks[k].endpoints[id], x) && ToLower(TrimSpace(x)) == ToLower(query))
    && r == DnsResult(query, t.networks[k].name, t.containers[id].name, AddrText(t.networks[k].endpoints[id].addr))
  }

  lemma StandsForIsCandidate(c: Container, id: string, e: Endpoint, x: string)
    ensures x in Candidates(c, id, e) ==> StandsFor(c, id, e, x)
    ensures StandsFor(c, id, e, x) ==> x in Candidates(c, id, e)
  {
    var list := Candidates(c, id, e);
    assert list[0] == c.name && list[2] == id && list[4] == c.service;
    assert list[1] == TrimPrefix(c.name, "/") && list[3] == ShortId(id);
    SlashTrimmed(c.name, x);
    assert list == [c.name, TrimPrefix(c.name, "/"), id, ShortId(id), c.service] + e.aliases;
  }

  lemma SlashTrimmed(name: string, x: string)
    ensures "/" + x == name ==> TrimPrefix(name, "/") == x
    ensures TrimPrefix(name, "/") == x ==> name == x || "/" + x == name
  {
    if "/" + x == name {
      assert name[1..] == x;
    }
    if TrimPrefix(name, "/") == x && name != x {
      assert name == "/" + name[1..];
    }
  }

  lemma AnswersAreStanding(c: Container, id: string, e: Endpoint, query: string)
    ensures AnswersTo(c, id, e, query) <==> exists x :: StandsFor(c, id, e, x) && ToLower(TrimSpace(x)) == ToLower(query)
  {
    if AnswersTo(c, id, e, query) {
      var x :| x in Candidates(c, id, e) && EqualFold(TrimSpace(x), query);
      StandsForIsCandidate(c, id, e, x);
    }
    if exists x :: StandsFor(c, id, e, x) && ToLower(TrimSpace(x)) == ToLower(query) {
      var x :| StandsFor(c, id, e, x) && ToLower(TrimSpace(x)) == ToLower(query);
      StandsForIsCandidate(c, id, e, x);
      assert EqualFold(TrimSpace(x), query);
    }
  }

  /** A reply holds a record exactly when some endpoint on a network the requester has joined answers with it. */
  lemma ReplyExact(t: Topo, requester: string, query: string, reply: seq<DnsResult>, r: DnsResult)
    requires IsResolution(t, requester, query, reply)
    ensures r in reply <==> exists k, id :: AnswersWith(t, requester, query, k, id, r)
  {
    assert r in reply <==> r in Elements(reply);
    if r in reply {
      AnswerHasEndpoint(t, requester, query, r);
    }
    if exists k, id :: AnswersWith(t, requester, query, k, id, r) {
      var k, id :| AnswersWith(t, requester, query, k, id, r);
      EndpointIsAnswer(t, requester, query, k, id, r);
    }
  }

  lemma AnswerHasEndpoint(t: Topo, requester: string, query: string, r: DnsResult)
    requires r in Answers(t, requester, query)
    ensures exists k, id :: AnswersWith(t, requester, query, k, id, r)
  {
    var k :| k in t.networks && r in AnswersOn(t, requester, query, k);
    var id :| id in t.networks[k].endpoints && IsAnswer(t, requester, query, k, id) && r == Record(t, query, k, id);
    AnswersAreStanding(t.containers[id], id, t.networks[k].endpoints[id], query);
    assert AnswersWith(t, requester, query, k, id, r);
  }

  lemma EndpointIsAnswer(t: Topo, requester: string, query: string, k: string, id: string, r: DnsResult)
    requires AnswersWith(t, requester, query, k, id, r)
    ensures r in Answers(t, requester, query)
  {
    AnswersAreStanding(t.containers[id], id, t.networks[k].endpoints[id], query);
    assert r == Record(t, query, k, id);
    assert r in AnswersOn(t, requester, query, k);
  }

  /** A proper ID prefix that is nobody's name finds the container if and only if no other ID begins with it; else it is ambiguous. */
  lemma PrefixFinds(t: Topo, id: string, n: nat)
    requires id in t.containers && n <= |id| && id[..n] !in t.names && id[..n] !in t.containers
    ensures var shared := exists x :: x in t.containers && x != id && n <= |x| && x[..n] == id[..n];
            IsLookup(t, id[..n], if shared then Ambiguous else Found(id))
  {
    var all := WithPrefix(t, id[..n]);
    assert id in all;
    if x :| x in t.containers && x != id && n <= |x| && x[..n] == id[..n] {
      assert {id, x} <= all;
      assert |all - {id, x}| + |{id, x}| == |all|;
    } else {
      assert all == {id};
    }
  }

  /** A reference that begins no ID and is no name finds nothing. */
  lemma NothingFound(t: Topo, ref: string)
    requires ref !in t.names && forall x :: x in t.containers ==> !(|ref| <= |x| && x[..|ref|] == ref)
    ensures IsLookup(t, ref, Missing)
  {
    assert ref[..|ref|] == ref;
  }

  /** Case, blanks around the name and one dot behind it make no difference to a query. */
  lemma QueryForms(h: string)
    requires h != "" && TrimSpace(h) == h && h[|h| - 1] != '.'
    ensures QueryName(h) == ToLower(h) && QueryName(h + ".") == ToLower(h)
    ensures QueryName(ToUpper(h)) == ToLower(h)
  {
    assert TrimSuffix(h, ".") == h by { assert h[|h| - 1..] == [h[|h| - 1]]; }
    assert (h + ".")[|h|..] == "." && (h + ".")[..|h|] == h;
    UpperStays(h);
  }

  lemma UpperStays(h: string)
    requires h != "" && !IsSpace(h[0]) && !IsSpace(h[|h| - 1]) && h[|h| - 1] != '.'
    ensures QueryName(ToUpper(h)) == ToLower(h)
  {
    var u := ToUpper(h);
    assert |u| == |h| && u[0] == UpperChar(h[0]) && u[|u| - 1] == UpperChar(h[|h| - 1]);
    assert u[|u| - 1..] == [u[|u| - 1]];
    assert TrimSuffix(u, ".") == u && TrimSpace(u) == u;
    assert ToLower(u) == ToLower(h);
  }

  /** The aliases are as the endpoints of the engine have them: trimmed. */
  predicate AliasesTrimmed(e: Endpoint) {
    forall y :: y in e.aliases ==> TrimSpace(y) == y
  }

  lemma SpelledIsAnswered(t: Topo, requester: string, k: string, id: string, x: string, reply: seq<DnsResult>)
    requires k in t.networks && requester in t.networks[k].endpoints && id in t.networks[k].endpoints && id in t.containers
    requires AliasesTrimmed(t.networks[k].endpoints[id]) && Spelled(t.networks[k].endpoints[id].aliases, TrimSpace(x))
    requires IsResolution(t, requester, ToLower(TrimSpace(x)), reply)
    ensures DnsResult(ToLower(TrimSpace(x)), t.networks[k].name, t.containers[id].name, AddrText(t.networks[k].endpoints[id].addr)) in reply
  {
    var query, e := ToLower(TrimSpace(x)), t.networks[k].endpoints[id];
    var y :| y in e.aliases && ToLower(y) == ToLower(TrimSpace(x));
    var r := DnsResult(query, t.networks[k].name, t.containers[id].name, AddrText(e.addr));
    LowerTwice(TrimSpace(x));
    assert StandsFor(t.containers[id], id, e, y) && ToLower(TrimSpace(y)) == ToLower(query);
    assert AnswersWith(t, requester, query, k, id, r);
    ReplyExact(t, requester, query, reply, r);
  }

  lemma LowerTwice(s: string)
    ensures ToLower(ToLower(s)) == ToLower(s)
  {
  }

  lemma ListedIsTrimmed(values: seq<string>, r: seq<string>, y: string)
    requires (forall x :: x in r ==> x != "" && ComesFrom(values, x)) && y in r
    ensures TrimSpace(y) == y
  {
    var u :| u in values && TrimSpace(u) == y;
  }

  /** After a connect, everyone on the network gets the new endpoint's address for its name, service and each alias. */
  lemma ConnectedIsAnswered(t: Topo, id: string, k: string, aliases: seq<string>, p: Option<string>,
                            requester: string, x: string, reply: seq<DnsResult>)
    requires TopoSound(t) && ConnectLegal(t, id, k, aliases, p) && Connect(t, id, k, aliases, p).error.None?
    requires var t' := Connect(t, id, k, aliases, p).topo;
             requester in t'.networks[k].endpoints && IsResolution(t', requester, ToLower(TrimSpace(x)), reply)
    requires x in aliases + [t.containers[id].name, t.containers[id].service] && TrimSpace(x) != ""
    ensures var t' := Connect(t, id, k, aliases, p).topo;
            && id in t'.networks[k].endpoints && id in t'.containers
            && DnsResult(ToLower(TrimSpace(x)), t.networks[k].name, t.containers[id].name, AddrText(t'.networks[k].endpoints[id].addr)) in reply
  {
    var t' := Connect(t, id, k, aliases, p).topo;
    ConnectEffect(t, id, k, aliases, p);
    var e, values := t'.networks[k].endpoints[id], aliases + [t.containers[id].name, t.containers[id].service];
    forall y | y in e.aliases ensures TrimSpace(y) == y {
      ListedIsTrimmed(values, e.aliases, y);
    }
    SpelledIsAnswered(t', requester, k, id, x, reply);
  }

  /** The same for a network a reconfiguration attaches, under the aliases of some reference to it. */
  lemma ConfiguredIsAnswered(t: Topo, id: string, mode: string, aliases: map<string, seq<string>>,
                             choice: map<string, string>, refs: seq<string>, k: string, requester: string)
    requires TopoSound(t) && id in t.containers && ChoiceLegal(t, Wanted(mode, aliases), choice, refs)
    requires Configure(t, id, mode, aliases, choice, refs).error.None? && !Isolates(mode) && k in Resolved(choice)
    requires var t' := Configure(t, id, mode, aliases, choice, refs).topo;
             k in t'.networks && requester in t'.networks[k].endpoints
    ensures exists r :: r in choice && r in Wanted(mode, aliases) && choice[r] == k
                     && AnsweredUnder(t, Configure(t, id, mode, aliases, choice, refs).topo, id, k, requester, Wanted(mode, aliases)[r])
  {
    var t' := Configure(t, id, mode, aliases, choice, refs).topo;
    ConfigureGives(t, id, mode, aliases, choice, refs, k);
    ReconfigurationSucceeds(t, id, mode, aliases, choice, refs);
    var e := t'.networks[k].endpoints[id];
    var r :| r in choice && r in Wanted(mode, aliases) && choice[r] == k && AliasesFor(t.containers[id], Wanted(mode, aliases)[r], e.aliases);
    GivenIsAnswered(t', id, k, requester, t.containers[id], Wanted(mode, aliases)[r]);
  }

  /** Every one of these aliases, the name and the service is answered with the endpoint's address. */
  ghost predicate AnsweredUnder(t: Topo, t': Topo, id: string, k: string, requester: string, extra: seq<string>)
    requires id in t.containers
  {
    && k in t'.networks && id in t'.networks[k].endpoints && id in t'.containers
    && AnsweredAs(t', id, k, requester, t.containers[id], extra)
  }

  ghost predicate AnsweredAs(t: Topo, id: string, k: string, requester: string, c: Container, extra: seq<string>)
    requires k in t.networks && id in t.networks[k].endpoints && id in t.containers
  {
    forall x, reply ::
      x in extra + [c.name] + [c.service] && TrimSpace(x) != "" && IsResolution(t, requester, ToLower(TrimSpace(x)), reply) ==>
        DnsResult(ToLower(TrimSpace(x)), t.networks[k].name, t.containers[id].name, AddrText(t.networks[k].endpoints[id].addr)) in reply
  }

  lemma GivenIsAnswered(t: Topo, id: string, k: string, requester: string, c: Container, extra: seq<string>)
    requires k in t.networks && requester in t.networks[k].endpoints && id in t.networks[k].endpoints && id in t.containers
    requires AliasesFor(c, extra, t.networks[k].endpoints[id].aliases)
    ensures AnsweredAs(t, id, k, requester, c, extra)
  {
    var e, values := t.networks[k].endpoints[id], extra + [c.name] + [c.service];
    forall y | y in e.aliases ensures TrimSpace(y) == y {
      ListedIsTrimmed(values, e.aliases, y);
    }
    forall x, reply | x in values && TrimSpace(x) != "" && IsResolution(t, requester, ToLower(TrimSpace(x)), reply)
      ensures DnsResult(ToLower(TrimSpace(x)), t.networks[k].name, t.containers[id].name, AddrText(e.addr)) in reply
    {
      SpelledIsAnswered(t, requester, k, id, x, reply);
    }
  }
}
