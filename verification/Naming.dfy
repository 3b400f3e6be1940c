/** Aliases of an endpoint, the networks a container asks for, and the network mode it records. */
module Naming {
  import opened Basics
  import opened Text
  import opened Topology
  import opened TopologyRuns
  import opened Dns

  /** Some value trims to x. */
  predicate ComesFrom(values: seq<string>, x: string) {
    exists v :: v in values && TrimSpace(v) == x
  }

  /** Some member spells x, in any case. */
  predicate Spelled(list: seq<string>, x: string) {
    exists y :: y in list && ToLower(y) == ToLower(x)
  }

  lemma {:induction false} FreshComes(values: seq<string>, seen: set<string>)
    ensures forall x :: x in Fresh(values, seen) ==> x != "" && ToLower(x) !in seen && ComesFrom(values, x)
  {
    if values != [] {
      var v, rest := TrimSpace(values[0]), values[1..];
      FreshComes(rest, seen);
      FreshComes(rest, seen + {ToLower(v)});
      assert forall x :: ComesFrom(rest, x) ==> ComesFrom(values, x);
      assert ComesFrom(values, v);
    }
  }

  lemma {:induction false} FreshComplete(values: seq<string>, seen: set<string>, v: string)
    requires v in values && TrimSpace(v) != "" && ToLower(TrimSpace(v)) !in seen
    ensures Spelled(Fresh(values, seen), TrimSpace(v))
  {
    var head, rest, r := TrimSpace(values[0]), values[1..], Fresh(values, seen);
    if head == "" || ToLower(head) in seen {
      FreshComplete(rest, seen, v);
    } else if ToLower(head) == ToLower(TrimSpace(v)) {
      assert head in r;
    } else {
      FreshComplete(rest, seen + {ToLower(head)}, v);
      var y :| y in Fresh(rest, seen + {ToLower(head)}) && ToLower(y) == ToLower(TrimSpace(v));
      assert y in r;
    }
  }

  predicate FoldDistinct(r: seq<string>) {
    forall i, j :: 0 <= i < j < |r| ==> ToLower(r[i]) != ToLower(r[j])
  }

  lemma {:induction false} FreshDistinct(values: seq<string>, seen: set<string>)
    ensures FoldDistinct(Fresh(values, seen))
  {
    if values != [] {
      var v, rest := TrimSpace(values[0]), values[1..];
      if v == "" || ToLower(v) in seen {
        FreshDistinct(rest, seen);
      } else {
        var later := Fresh(rest, seen + {ToLower(v)});
        FreshDistinct(rest, seen + {ToLower(v)});
        FreshComes(rest, seen + {ToLower(v)});
        assert forall j :: 0 <= j < |later| ==> later[j] in later && ToLower(later[j]) != ToLower(v);
      }
    }
  }

  /** Trimmed, each spelling once in any case, and nothing lost or made up. */
  predicate ListsSpellings(values: seq<string>, r: seq<string>) {
    && (forall x :: x in r ==> x != "" && ComesFrom(values, x))
    && (forall v :: v in values && TrimSpace(v) != "" ==> Spelled(r, TrimSpace(v)))
    && (forall x, y :: x in r && y in r && ToLower(x) == ToLower(y) ==> x == y)
  }

  lemma FreshLists(values: seq<string>)
    ensures ListsSpellings(values, Fresh(values, {})) && NoDuplicates(Fresh(values, {}))
  {
    var r := Fresh(values, {});
    FreshComes(values, {});
    FreshDistinct(values, {});
    forall v | v in values && TrimSpace(v) != "" ensures Spelled(r, TrimSpace(v)) {
      FreshComplete(values, {}, v);
    }
    forall x, y | x in r && y in r && ToLower(x) == ToLower(y) ensures x == y {
      var i :| 0 <= i < |r| && r[i] == x;
      var j :| 0 <= j < |r| && r[j] == y;
    }
  }

  lemma SameSpellings(values: seq<string>, a: seq<string>, b: seq<string>)
    requires ListsSpellings(values, a) && Elements(a) == Elements(b)
    ensures ListsSpellings(values, b)
  {
    assert forall x :: x in b <==> x in Elements(a);
    forall v | v in values && TrimSpace(v) != "" ensures Spelled(b, TrimSpace(v)) {
      var y :| y in a && ToLower(y) == ToLower(TrimSpace(v));
      assert y in Elements(b);
    }
  }

  /** Aliases come out sorted, trimmed and without repetition in any case, and none is lost or made up. */
  lemma UniqueStringsExact(values: seq<string>)
    ensures var r := UniqueStrings(values);
            Sorted(StrLe, r) && NoDuplicates(r) && ListsSpellings(values, r)
  {
    var list := Fresh(values, {});
    FreshLists(values);
    StrLeOrder();
    SortSorts(StrLe, list);
    var r := Sort(StrLe, list);
    SameElements(r, list);
    SameSpellings(values, list, r);
    NoDuplicatesMultiset(list);
    NoDuplicatesMultiset(r);
  }

  /** One pass with a set of folded spellings, then a sort. */
  method UniqueList(values: seq<string>) returns (out: seq<string>)
    ensures out == UniqueStrings(values)
  {
    var seen: set<string> := {};
    out := [];
    for i := 0 to |values|
      invariant Fresh(values, {}) == out + Fresh(values[i..], seen)
    {
      assert values[i..][0] == values[i] && values[i..][1..] == values[i + 1..];
      var value := TrimSpace(values[i]);
      if value != "" {
        var key := ToLower(value);
        if key !in seen {
          seen := seen + {key};
          out := out + [value];
        }
      }
    }
    assert values[|values|..] == [] && out + [] == out;
    out := Sort(StrLe, out);
  }

  /** Every requested network keeps its aliases; the mode adds itself unless it is a default; the bridge is the fallback. */
  lemma WantedExact(mode: string, aliases: map<string, seq<string>>, ref: string)
    ensures ref in Wanted(mode, aliases) <==>
            || ref in aliases
            || (TrimSpace(mode) !in {"", "default", "bridge"} && ref == TrimSpace(mode))
            || (TrimSpace(mode) in {"", "default", "bridge"} && aliases == map[] && ref == "bridge")
    ensures ref in Wanted(mode, aliases) ==> Wanted(mode, aliases)[ref] == if ref in aliases then aliases[ref] else []
  {
    TrimTwice(mode);
    var m := TrimSpace(mode);
    assert m in aliases[m := []];
  }

  lemma TrimTwice(mode: string)
    ensures IsDefaultMode(TrimSpace(mode)) == IsDefaultMode(mode)
  {
    var m := TrimSpace(mode);
    assert TrimSpace(m) == m;
  }

  /** Some network of `keys` has this name, and no other has a smaller one. */
  predicate LeastName(ns: map<string, Network>, keys: set<string>, name: string) {
    && (exists k :: k in keys && k in ns && ns[k].name == name)
    && forall k :: k in keys && k in ns ==> StrLe(name, ns[k].name)
  }

  lemma FirstSortedIsLeast(names: seq<string>)
    requires names != []
    ensures var s := Sort(StrLe, names); s != [] && s[0] in names && forall x :: x in names ==> StrLe(s[0], x)
  {
    StrLeOrder();
    SortSorts(StrLe, names);
    var s := Sort(StrLe, names);
    assert |multiset(s)| == |multiset(names)|;
    SameElements(s, names);
    assert s[0] in Elements(names);
    forall x | x in names ensures StrLe(s[0], x) {
      assert x in Elements(s);
      HeadLeast(StrLe, s, x);
    }
  }

  lemma ModeIsLeastName(t: Topo, mode: string, plans: seq<Plan>)
    requires plans != [] && IsDefaultMode(mode)
    requires forall i :: 0 <= i < |plans| ==> plans[i].key in t.networks
    ensures LeastName(t.networks, set i | 0 <= i < |plans| :: plans[i].key, ModeAfter(t, mode, plans))
  {
    var names := seq(|plans|, i requires 0 <= i < |plans| => t.networks[plans[i].key].name);
    FirstSortedIsLeast(names);
    var i :| 0 <= i < |names| && names[i] == Sort(StrLe, names)[0];
    assert plans[i].key in t.networks && t.networks[plans[i].key].name == Sort(StrLe, names)[0];
    forall i | 0 <= i < |plans| ensures StrLe(Sort(StrLe, names)[0], t.networks[plans[i].key].name) {
      assert names[i] in names;
    }
  }

  /** A successful reconfiguration records the mode it was given, or for a default mode the least attached network name. */
  lemma ReconfigurationMode(t: Topo, id: string, mode: string, aliases: map<string, seq<string>>,
                            choice: map<string, string>, refs: seq<string>)
    requires id in t.containers && ChoiceLegal(t, Wanted(mode, aliases), choice, refs)
    requires NetworksSound(t.networks)
    requires Configure(t, id, mode, aliases, choice, refs).error.None?
    ensures var r := Configure(t, id, mode, aliases, choice, refs).topo.containers[id].networkMode;
            if TrimSpace(mode) in {"", "default", "bridge"} then LeastName(t.networks, Resolved(choice), r) else r == TrimSpace(mode)
  {
    if !Isolates(mode) {
      var wanted := Wanted(mode, aliases);
      var plans := PlanAll(t, id, refs, wanted, choice).value;
      ConfigureCommits(t, id, mode, aliases, choice, refs, plans);
      PlannedMode(t, id, mode, choice, refs, wanted, plans);
    }
  }

  lemma PlannedMode(t: Topo, id: string, mode: string, choice: map<string, string>, refs: seq<string>,
                    wanted: map<string, seq<string>>, plans: seq<Plan>)
    requires id in t.containers && ChoiceLegal(t, wanted, choice, refs) && wanted.Keys == choice.Keys
    requires PlanAll(t, id, refs, wanted, choice) == Some(plans) && plans != []
    requires forall i :: 0 <= i < |plans| ==> plans[i].key in t.networks
    ensures var r := ModeAfter(t, mode, plans);
            if IsDefaultMode(mode) then LeastName(t.networks, Resolved(choice), r) else r == TrimSpace(mode)
  {
    PlansNameNetworks(t, id, refs, wanted, choice);
    RecordedMode(t, mode, choice, refs, plans);
  }

  lemma RecordedMode(t: Topo, mode: string, choice: map<string, string>, refs: seq<string>, plans: seq<Plan>)
    requires (set r | r in refs) == choice.Keys && |plans| == |refs| && plans != []
    requires forall i :: 0 <= i < |refs| ==> refs[i] in choice && plans[i].key == choice[refs[i]]
    requires forall i :: 0 <= i < |plans| ==> plans[i].key in t.networks
    ensures var r := ModeAfter(t, mode, plans);
            if IsDefaultMode(mode) then LeastName(t.networks, Resolved(choice), r) else r == TrimSpace(mode)
  {
    if IsDefaultMode(mode) {
      ModeIsLeastName(t, mode, plans);
      PlanKeys(refs, choice, plans);
    }
  }

  lemma PlanKeys(refs: seq<string>, choice: map<string, string>, plans: seq<Plan>)
    requires (set r | r in refs) == choice.Keys && |plans| == |refs|
    requires forall i :: 0 <= i < |refs| ==> refs[i] in choice && plans[i].key == choice[refs[i]]
    ensures (set i | 0 <= i < |plans| :: plans[i].key) == Resolved(choice)
  {
    var keys := set i | 0 <= i < |plans| :: plans[i].key;
    forall k ensures k in keys <==> k in Resolved(choice) {
      PlannedAreResolved(refs, choice, plans, k);
      assert Planned(plans, k) <==> k in keys;
    }
  }
}
