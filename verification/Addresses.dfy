/** Loopback addresses handed out by the engine and the searches that choose them. */
module Addresses {
  import opened Basics
  import opened Text

  /** Host `host` of subnet 127.19.0.0/24 (index 0) or 127.20.index.0/24. */
  datatype Addr = Addr(index: nat, host: nat)

  function AddrText(a: Addr): string {
    if a.index == 0 then "127.19.0." + Itoa(a.host)
    else "127.20." + Itoa(a.index) + "." + Itoa(a.host)
  }

  lemma ItoaInjective(m: nat, n: nat)
    requires Itoa(m) == Itoa(n)
    ensures m == n
  {
    ValueOfItoa(m);
    ValueOfItoa(n);
  }

  lemma SamePrefix(p: string, a: string, b: string)
    requires p + a == p + b
    ensures a == b
  {
    assert a == (p + a)[|p|..] && b == (p + b)[|p|..];
  }

  lemma AddrTextInjective(a: Addr, b: Addr)
    requires AddrText(a) == AddrText(b)
    ensures a == b
  {
    var s, t := AddrText(a), AddrText(b);
    assert (s[4] == '1' <==> a.index == 0) && (t[4] == '1' <==> b.index == 0);
    if a.index == 0 {
      SamePrefix("127.19.0.", Itoa(a.host), Itoa(b.host));
      ItoaInjective(a.host, b.host);
    } else {
      assert s == "127.20." + (Itoa(a.index) + "." + Itoa(a.host)) && t == "127.20." + (Itoa(b.index) + "." + Itoa(b.host));
      SamePrefix("127.20.", Itoa(a.index) + "." + Itoa(a.host), Itoa(b.index) + "." + Itoa(b.host));
      SplitUnique(Itoa(a.index), Itoa(a.host), Itoa(b.index), Itoa(b.host), '.');
      ItoaInjective(a.index, b.index);
      ItoaInjective(a.host, b.host);
    }
  }

  /** The least number of from..last that is not taken. */
  function LeastFree(used: set<nat>, from: nat, last: nat): (r: Option<nat>)
    requires from <= last + 1
    ensures r.Some? ==> from <= r.value <= last && r.value !in used && forall h :: from <= h < r.value ==> h in used
    ensures r.None? ==> forall h :: from <= h <= last ==> h in used
    decreases last + 1 - from
  {
    if from == last + 1 then None
    else if from !in used then Some(from)
    else LeastFree(used, from + 1, last)
  }

  function Interval(from: nat, last: nat): (r: set<nat>)
    ensures forall h :: h in r <==> from <= h <= last
    decreases last + 1 - from
  {
    if from > last then {} else {from} + Interval(from + 1, last)
  }

  lemma {:induction false} IntervalSize(from: nat, last: nat)
    requires from <= last + 1
    ensures |Interval(from, last)| == last + 1 - from
    decreases last + 1 - from
  {
    if from <= last {
      IntervalSize(from + 1, last);
    }
  }

  lemma {:induction false} SubsetSize<T>(a: set<T>, b: set<T>)
    requires a <= b
    ensures |a| <= |b|
    ensures |a| == |b| ==> a == b
  {
    if a != {} {
      var x :| x in a;
      SubsetSize(a - {x}, b - {x});
      assert a == (a - {x}) + {x} && b == (b - {x}) + {x};
    }
  }

  lemma {:induction false} InjectiveSize<K, V>(m: map<K, V>)
    requires forall a, b :: a in m && b in m && m[a] == m[b] ==> a == b
    ensures |m.Values| == |m.Keys|
    decreases |m|
  {
    if m.Keys != {} {
      var k :| k in m;
      var rest := m - {k};
      assert forall x :: x in rest ==> m[x] == rest[x];
      InjectiveSize(rest);
      assert m.Keys == rest.Keys + {k};
      assert m[k] !in rest.Values;
      assert m.Values == rest.Values + {m[k]} by {
        forall v | v in m.Values ensures v in rest.Values + {m[k]} {
          var x :| x in m && m[x] == v;
          if x != k { assert x in rest; }
        }
      }
    } else {
      assert m.Values == {};
    }
  }

  /**
   Pigeonhole: with distinct values inside an interval, the search fails exactly when there are
   as many values as numbers, that is, when there is really no room.
   */
  lemma FullExactly<K>(m: map<K, nat>, from: nat, last: nat)
    requires from <= last + 1
    requires forall a, b :: a in m && b in m && m[a] == m[b] ==> a == b
    requires forall a :: a in m ==> from <= m[a] <= last
    ensures LeastFree(m.Values, from, last).None? <==> |m| == last + 1 - from
  {
    InjectiveSize(m);
    IntervalSize(from, last);
    assert m.Values <= Interval(from, last);
    SubsetSize(m.Values, Interval(from, last));
    if LeastFree(m.Values, from, last).None? {
      assert m.Values == Interval(from, last);
    }
  }
}
