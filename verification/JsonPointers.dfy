/** JSON Pointer text (sections 3 and 4 of RFC 6901) and the table of node locations keyed by it. */
module JsonPointers {
  import opened Basics
  import opened Text
  import opened Addresses

  /** Leftmost, non-overlapping replacement. */
  function ReplaceAll(s: string, from: string, to: string): string
    requires from != ""
  {
    if |s| < |from| then s
    else if from <= s then to + ReplaceAll(s[|from|..], from, to)
    else [s[0]] + ReplaceAll(s[1..], from, to)
  }

  function EscapePointer(v: string): string {
    ReplaceAll(ReplaceAll(v, "~", "~0"), "/", "~1")
  }

  function UnescapePointer(v: string): string {
    ReplaceAll(ReplaceAll(v, "~1", "/"), "~0", "~")
  }

  function LastSegment(path: string): string {
    if path == "" then "" else UnescapePointer(LastPart(TrimPrefix(path, "/")))
  }

  // ---------- escaping, character by character ----------

  function EscapeChar(c: char): (r: string)
    ensures '/' !in r
  {
    if c == '~' then "~0" else if c == '/' then "~1" else [c]
  }

  function Escaped(v: string): (r: string)
    ensures '/' !in r
  {
    if v == "" then "" else EscapeChar(v[0]) + Escaped(v[1..])
  }

  /** After the first replacement of either direction: only tildes are escaped. */
  function TildesEscaped(v: string): string {
    if v == "" then "" else (if v[0] == '~' then "~0" else [v[0]]) + TildesEscaped(v[1..])
  }

  lemma {:induction false} FirstPass(v: string)
    ensures ReplaceAll(v, "~", "~0") == TildesEscaped(v)
  {
    if v != "" {
      FirstPass(v[1..]);
    }
  }

  lemma {:induction false} SecondPass(v: string)
    ensures ReplaceAll(TildesEscaped(v), "/", "~1") == Escaped(v)
  {
    if v != "" {
      SecondPass(v[1..]);
      var rest := TildesEscaped(v[1..]);
      if v[0] == '~' {
        SkipTwo('~', '0', rest, "/", "~1");
      } else if v[0] == '/' {
        SplitHead("/", rest, "/", "~1");
      } else {
        SkipOne(v[0], rest, "/", "~1");
      }
    }
  }

  lemma Regrouped(a: string, b: string, c: string)
    ensures a + b + c == a + (b + c)
  {
  }

  lemma {:induction false} EscapedJoin(a: string, b: string)
    ensures Escaped(a + b) == Escaped(a) + Escaped(b)
  {
    if a == "" {
      assert a + b == b;
    } else {
      EscapedJoin(a[1..], b);
      assert (a + b)[1..] == a[1..] + b;
      Regrouped(EscapeChar(a[0]), Escaped(a[1..]), Escaped(b));
    }
  }

  /** As sections 3 and 4 of RFC 6901 have it: each tilde becomes ~0, each slash ~1, and nothing else changes. */
  lemma EscapeWritten(a: string, b: string, c: char)
    ensures EscapePointer(a + b) == EscapePointer(a) + EscapePointer(b)
    ensures EscapePointer("~") == "~0" && EscapePointer("/") == "~1"
    ensures c != '~' && c != '/' ==> EscapePointer([c]) == [c]
  {
    EscapeIsCharwise(a);
    EscapeIsCharwise(b);
    EscapeIsCharwise(a + b);
    EscapedJoin(a, b);
    EscapeIsCharwise("~");
    EscapeIsCharwise("/");
    EscapeIsCharwise([c]);
  }

  lemma EscapeIsCharwise(v: string)
    ensures EscapePointer(v) == Escaped(v)
  {
    FirstPass(v);
    SecondPass(v);
  }

  lemma SkipOne(c: char, rest: string, from: string, to: string)
    requires from != "" && c != from[0]
    ensures ReplaceAll([c] + rest, from, to) == [c] + ReplaceAll(rest, from, to)
  {
    var s := [c] + rest;
    assert s[0] == c && s[1..] == rest;
    if |s| < |from| {
      assert |rest| < |from|;
    }
  }

  lemma SkipTwo(c: char, d: char, rest: string, from: string, to: string)
    requires from != "" && d != from[0] && (c != from[0] || (|from| > 1 && d != from[1]))
    ensures ReplaceAll([c, d] + rest, from, to) == [c, d] + ReplaceAll(rest, from, to)
  {
    var s := [c, d] + rest;
    assert s[0] == c && s[1] == d && s[1..] == [d] + rest;
    SkipOne(d, rest, from, to);
    if |s| < |from| {
      assert ReplaceAll(rest, from, to) == rest;
    } else {
      assert !(from <= s);
      assert ReplaceAll(s, from, to) == [c] + ReplaceAll([d] + rest, from, to);
    }
    assert [c, d] + ReplaceAll(rest, from, to) == [c] + ([d] + ReplaceAll(rest, from, to));
  }

  lemma SplitHead(head: string, rest: string, from: string, to: string)
    requires from != "" && head == from
    ensures ReplaceAll(head + rest, from, to) == to + ReplaceAll(rest, from, to)
  {
    assert (head + rest)[|from|..] == rest;
  }

  lemma {:induction false} ThirdPass(v: string)
    ensures ReplaceAll(Escaped(v), "~1", "/") == TildesEscaped(v)
  {
    if v != "" {
      ThirdPass(v[1..]);
      var rest := Escaped(v[1..]);
      if v[0] == '~' {
        SkipTwo('~', '0', rest, "~1", "/");
      } else if v[0] == '/' {
        SplitHead("~1", rest, "~1", "/");
      } else {
        SkipOne(v[0], rest, "~1", "/");
      }
    }
  }

  lemma {:induction false} FourthPass(v: string)
    ensures ReplaceAll(TildesEscaped(v), "~0", "~") == v
  {
    if v != "" {
      FourthPass(v[1..]);
      var rest := TildesEscaped(v[1..]);
      assert v == [v[0]] + v[1..];
      if v[0] == '~' {
        assert TildesEscaped(v) == "~0" + rest;
        SplitHead("~0", rest, "~0", "~");
      } else {
        assert TildesEscaped(v) == [v[0]] + rest;
        SkipOne(v[0], rest, "~0", "~");
      }
    }
  }

  lemma UnescapeInverts(v: string)
    ensures UnescapePointer(EscapePointer(v)) == v
  {
    EscapeIsCharwise(v);
    ThirdPass(v);
    FourthPass(v);
  }

  /** Decoding the last segment of any path extended with an escaped key gives the key back. */
  lemma LastSegmentRoundTrip(path: string, key: string)
    ensures LastSegment(path + "/" + EscapePointer(key)) == key
  {
    var e := EscapePointer(key);
    var s := path + "/" + e;
    EscapeIsCharwise(key);
    UnescapeInverts(key);
    if path == "" {
      assert TrimPrefix(s, "/") == e;
    } else if path[0] == '/' {
      assert TrimPrefix(s, "/") == path[1..] + "/" + e;
      LastPartOfJoin(path[1..], e);
    } else {
      assert s[0] == path[0];
      assert TrimPrefix(s, "/") == s;
      LastPartOfJoin(path, e);
    }
  }

  // ---------- pointers ----------

  function Pointer(segments: seq<string>): string {
    if segments == [] then "" else Pointer(segments[..|segments| - 1]) + "/" + EscapePointer(segments[|segments| - 1])
  }

  lemma PointerStep(a: string, x: string, b: string, y: string)
    requires a + "/" + EscapePointer(x) == b + "/" + EscapePointer(y)
    ensures a == b && x == y
  {
    LastSegmentRoundTrip(a, x);
    LastSegmentRoundTrip(b, y);
    var t := "/" + EscapePointer(x);
    assert a + "/" + EscapePointer(x) == a + t && b + "/" + EscapePointer(x) == b + t;
    SameTail(a, b, t);
  }

  /** Different segment lists have different pointers. */
  lemma {:induction false} PointerInjective(a: seq<string>, b: seq<string>)
    requires Pointer(a) == Pointer(b)
    ensures a == b
  {
    if a != [] && b != [] {
      PointerStep(Pointer(a[..|a| - 1]), a[|a| - 1], Pointer(b[..|b| - 1]), b[|b| - 1]);
      PointerInjective(a[..|a| - 1], b[..|b| - 1]);
    }
  }

  lemma SameTail(a: string, b: string, t: string)
    requires a + t == b + t
    ensures a == b
  {
    assert a == (a + t)[..|a|] && b == (b + t)[..|b|];
  }

  // ---------- the location table ----------

  /** A document as the scanner meets it; array items are members without a key. */
  datatype Json = Leaf | Node(isObject: bool, members: seq<Member>)
  datatype Member = Member(key: string, offset: int, value: Json)

  function Segment(j: Json, i: nat): string
    requires j.Node? && i < |j.members|
  {
    if j.isObject then j.members[i].key else Itoa(i)
  }

  function ChildPath(j: Json, i: nat, path: string): string
    requires j.Node? && i < |j.members|
  {
    path + "/" + if j.isObject then EscapePointer(j.members[i].key) else Itoa(i)
  }

  /** None when an object repeats a key. */
  function Scan(j: Json, path: string, locations: map<string, int>): Option<map<string, int>>
    decreases j, 1, 0
  {
    if j.Leaf? then Some(locations) else ScanFrom(j, 0, path, {}, locations)
  }

  function ScanFrom(j: Json, i: nat, path: string, seen: set<string>, locations: map<string, int>): Option<map<string, int>>
    requires j.Node? && i <= |j.members|
    decreases j, 0, |j.members| - i
  {
    if i == |j.members| then Some(locations)
    else if j.isObject && j.members[i].key in seen then None
    else
      var child := ChildPath(j, i, path);
      var inner := Scan(j.members[i].value, child, locations[child := j.members[i].offset]);
      if inner.None? then None else ScanFrom(j, i + 1, path, seen + {j.members[i].key}, inner.value)
  }

  /** A key of j met from member i on was seen, or is met twice. */
  predicate RepeatsFrom(j: Json, i: nat, seen: set<string>)
    requires j.Node?
  {
    exists k :: i <= k < |j.members| && SeenBefore(j, i, k, seen)
  }

  predicate SeenBefore(j: Json, i: nat, k: nat, seen: set<string>)
    requires j.Node? && k < |j.members|
  {
    j.members[k].key in seen || exists h :: i <= h < k && j.members[h].key == j.members[k].key
  }

  /** Some object of the document has a key twice. */
  predicate Repeats(j: Json) {
    j.Node? && ((j.isObject && RepeatsFrom(j, 0, {})) || RepeatsBelow(j, 0))
  }

  predicate RepeatsBelow(j: Json, i: nat)
    requires j.Node?
    decreases j, 0
  {
    exists k :: i <= k < |j.members| && Repeats(j.members[k].value)
  }

  /** A document is refused if and only if some object of it repeats a key. */
  lemma {:induction false} RefusedExactly(j: Json, path: string, locations: map<string, int>)
    ensures Scan(j, path, locations).None? <==> Repeats(j)
    decreases j, 1, 0
  {
    if j.Node? {
      RefusedFrom(j, 0, path, {}, locations);
    }
  }

  lemma {:induction false} RefusedFrom(j: Json, i: nat, path: string, seen: set<string>, locations: map<string, int>)
    requires j.Node? && i <= |j.members|
    ensures ScanFrom(j, i, path, seen, locations).None? <==> (j.isObject && RepeatsFrom(j, i, seen)) || RepeatsBelow(j, i)
    decreases j, 0, |j.members| - i
  {
    if i < |j.members| {
      var m, child := j.members[i], ChildPath(j, i, path);
      var inner := Scan(m.value, child, locations[child := m.offset]);
      RefusedExactly(m.value, child, locations[child := m.offset]);
      assert RepeatsBelow(j, i) <==> Repeats(m.value) || RepeatsBelow(j, i + 1);
      RepeatsLater(j, i, seen);
      if inner.Some? {
        RefusedFrom(j, i + 1, path, seen + {m.key}, inner.value);
      }
    }
  }

  lemma RepeatsLater(j: Json, i: nat, seen: set<string>)
    requires j.Node? && i < |j.members|
    ensures RepeatsFrom(j, i, seen) <==> j.members[i].key in seen || RepeatsFrom(j, i + 1, seen + {j.members[i].key})
  {
    var later, more := i + 1, seen + {j.members[i].key};
    forall k | later <= k < |j.members| ensures SeenBefore(j, i, k, seen) <==> SeenBefore(j, later, k, more) {
    }
    assert SeenBefore(j, i, i, seen) <==> j.members[i].key in seen;
    if RepeatsFrom(j, i, seen) {
      var k :| i <= k < |j.members| && SeenBefore(j, i, k, seen);
      assert k == i || SeenBefore(j, later, k, more);
    }
    if RepeatsFrom(j, later, more) {
      var k :| later <= k < |j.members| && SeenBefore(j, later, k, more);
      assert SeenBefore(j, i, k, seen);
    }
  }

  /** Following the segments p from member k of j reaches a node that starts at offset o. */
  ghost predicate NodeAt(j: Json, k: nat, p: seq<string>, o: int)
    requires j.Node? && k < |j.members|
    decreases j
  {
    var m := j.members[k];
    && p != [] && Segment(j, k) == p[0]
    && if |p| == 1 then o == m.offset
       else m.value.Node? && exists i :: 0 <= i < |m.value.members| && NodeAt(m.value, i, p[1..], o)
  }

  ghost predicate Reached(j: Json, i: nat, p: seq<string>, o: int) {
    j.Node? && exists k :: i <= k < |j.members| && NodeAt(j, k, p, o)
  }

  /** r is the old table with one entry, the right one, for every node of j from member i on. */
  ghost predicate Recorded(j: Json, i: nat, base: seq<string>, was: map<string, int>, r: map<string, int>) {
    && (forall key :: key in was ==> key in r)
    && (forall p, o :: Reached(j, i, p, o) ==> Pointer(base + p) in r && r[Pointer(base + p)] == o)
    && NothingElse(j, i, base, was, r)
  }

  /** Any other entry of r is an old one. */
  ghost predicate NothingElse(j: Json, i: nat, base: seq<string>, was: map<string, int>, r: map<string, int>) {
    forall key :: key in r ==> (key in was && was[key] == r[key]) || OwnedBy(j, i, base, key)
  }

  ghost predicate OwnedBy(j: Json, i: nat, base: seq<string>, key: string) {
    exists p, o :: Reached(j, i, p, o) && key == Pointer(base + p)
  }

  lemma {:induction false} DigitsUnescaped(s: string)
    requires AllDigits(s)
    ensures Escaped(s) == s
  {
    if s != "" {
      DigitsUnescaped(s[1..]);
      assert IsDigit(s[0]) && s == [s[0]] + s[1..];
    }
  }

  lemma ChildPointer(j: Json, i: nat, base: seq<string>)
    requires j.Node? && i < |j.members|
    ensures ChildPath(j, i, Pointer(base)) == Pointer(base + [Segment(j, i)])
  {
    var full := base + [Segment(j, i)];
    assert full[..|full| - 1] == base;
    if !j.isObject {
      DigitsUnescaped(Itoa(i));
      EscapeIsCharwise(Itoa(i));
    }
  }

  lemma {:induction false} LaterKeysFresh(j: Json, i: nat, path: string, seen: set<string>, locations: map<string, int>, k: nat)
    requires j.Node? && j.isObject && i <= k < |j.members| && ScanFrom(j, i, path, seen, locations).Some?
    ensures j.members[k].key !in seen
    decreases k - i
  {
    if i < k {
      var child := ChildPath(j, i, path);
      var inner := Scan(j.members[i].value, child, locations[child := j.members[i].offset]);
      LaterKeysFresh(j, i + 1, path, seen + {j.members[i].key}, inner.value, k);
    }
  }

  /** In an accepted scan no later sibling has the same segment. */
  lemma SiblingsDiffer(j: Json, i: nat, path: string, seen: set<string>, locations: map<string, int>, k: nat)
    requires j.Node? && i < |j.members| && i + 1 <= k < |j.members|
    requires ScanFrom(j, i + 1, path, seen + {j.members[i].key}, locations).Some?
    ensures Segment(j, k) != Segment(j, i)
  {
    if j.isObject {
      LaterKeysFresh(j, i + 1, path, seen + {j.members[i].key}, locations, k);
    } else if Itoa(k) == Itoa(i) {
      ItoaInjective(k, i);
    }
  }

  /** No later sibling of member i has its segment. */
  predicate SegmentIsNew(j: Json, i: nat) {
    && j.Node? && i < |j.members|
    && (forall k :: i + 1 <= k < |j.members| ==> Segment(j, k) != Segment(j, i))
  }

  /** The child's scan made `inner` of the old table and the member's own entry, and the later siblings' made r of that. */
  ghost predicate TablesFollow(j: Json, i: nat, base: seq<string>, was: map<string, int>, inner: map<string, int>, r: map<string, int>)
    requires j.Node? && i < |j.members|
  {
    var here := base + [Segment(j, i)];
    && Recorded(j.members[i].value, 0, here, was[Pointer(here) := j.members[i].offset], inner)
    && Recorded(j, i + 1, base, inner, r)
  }

  lemma EntryPresent(j: Json, i: nat, base: seq<string>, was: map<string, int>, inner: map<string, int>, r: map<string, int>, p: seq<string>, o: int)
    requires SegmentIsNew(j, i) && TablesFollow(j, i, base, was, inner, r) && Reached(j, i, p, o)
    ensures Pointer(base + p) in r && r[Pointer(base + p)] == o
  {
    var k :| i <= k < |j.members| && NodeAt(j, k, p, o);
    if k == i {
      OwnEntry(j, i, base, was, inner, p, o);
      KeptByLater(j, i, base, inner, r, p);
    } else {
      assert Reached(j, i + 1, p, o);
    }
  }

  lemma EntryOwned(j: Json, i: nat, base: seq<string>, was: map<string, int>, inner: map<string, int>, r: map<string, int>, key: string)
    requires j.Node? && i < |j.members| && key in r && !(key in was && was[key] == r[key])
    requires var here := base + [Segment(j, i)];
             && NothingElse(j.members[i].value, 0, here, was[Pointer(here) := j.members[i].offset], inner)
             && NothingElse(j, i + 1, base, inner, r)
    ensures OwnedBy(j, i, base, key)
  {
    var here, later := base + [Segment(j, i)], i + 1;
    if OwnedBy(j, later, base, key) {
      LaterOwned(j, i, base, key);
    } else if OwnedBy(j.members[i].value, 0, here, key) {
      ChildOwned(j, i, base, key);
    } else {
      SelfOwned(j, i, base);
    }
  }

  lemma LaterOwned(j: Json, i: nat, base: seq<string>, key: string)
    requires OwnedBy(j, i + 1, base, key)
    ensures OwnedBy(j, i, base, key)
  {
    var later := i + 1;
    var p, o :| Reached(j, later, p, o) && key == Pointer(base + p);
    assert Reached(j, i, p, o);
  }

  lemma ChildOwned(j: Json, i: nat, base: seq<string>, key: string)
    requires j.Node? && i < |j.members| && OwnedBy(j.members[i].value, 0, base + [Segment(j, i)], key)
    ensures OwnedBy(j, i, base, key)
  {
    var here := base + [Segment(j, i)];
    var q, o :| Reached(j.members[i].value, 0, q, o) && key == Pointer(here + q);
    ChildReached(j, i, q, o);
    assert here + q == base + ([Segment(j, i)] + q);
  }

  lemma SelfOwned(j: Json, i: nat, base: seq<string>)
    requires j.Node? && i < |j.members|
    ensures OwnedBy(j, i, base, Pointer(base + [Segment(j, i)]))
  {
    assert NodeAt(j, i, [Segment(j, i)], j.members[i].offset);
    assert Reached(j, i, [Segment(j, i)], j.members[i].offset);
  }

  lemma ChildReached(j: Json, i: nat, q: seq<string>, o: int)
    requires j.Node? && i < |j.members| && Reached(j.members[i].value, 0, q, o)
    ensures Reached(j, i, [Segment(j, i)] + q, o)
  {
    var p := [Segment(j, i)] + q;
    assert p[1..] == q;
    assert NodeAt(j, i, p, o);
  }

  /** Putting one child's table and the later siblings' table together. */
  lemma JoinTables(j: Json, i: nat, base: seq<string>, was: map<string, int>, inner: map<string, int>, r: map<string, int>)
    requires SegmentIsNew(j, i) && TablesFollow(j, i, base, was, inner, r)
    ensures Recorded(j, i, base, was, r)
  {
    forall p, o | Reached(j, i, p, o) ensures Pointer(base + p) in r && r[Pointer(base + p)] == o {
      EntryPresent(j, i, base, was, inner, r, p, o);
    }
    forall key | key in r && !(key in was && was[key] == r[key]) ensures OwnedBy(j, i, base, key) {
      EntryOwned(j, i, base, was, inner, r, key);
    }
  }

  /** No node below a place has the place's own pointer. */
  lemma NotBelowItself(j: Json, here: seq<string>)
    ensures !OwnedBy(j, 0, here, Pointer(here))
  {
    if OwnedBy(j, 0, here, Pointer(here)) {
      var q, x :| Reached(j, 0, q, x) && Pointer(here) == Pointer(here + q);
      PointerInjective(here, here + q);
    }
  }

  /** A node below member i is in the table its own scan returned. */
  lemma OwnEntry(j: Json, i: nat, base: seq<string>, was: map<string, int>, inner: map<string, int>, p: seq<string>, o: int)
    requires j.Node? && i < |j.members| && NodeAt(j, i, p, o)
    requires var seg := Segment(j, i);
             Recorded(j.members[i].value, 0, base + [seg], was[Pointer(base + [seg]) := j.members[i].offset], inner)
    ensures Pointer(base + p) in inner && inner[Pointer(base + p)] == o
  {
    var here := base + [Segment(j, i)];
    if |p| == 1 {
      assert base + p == here;
      NotBelowItself(j.members[i].value, here);
    } else {
      assert Reached(j.members[i].value, 0, p[1..], o);
      assert here + p[1..] == base + p;
    }
  }

  lemma SameHead(base: seq<string>, p: seq<string>, q: seq<string>)
    requires base + p == base + q && p != [] && q != []
    ensures p[0] == q[0]
  {
    assert (base + p)[|base|] == p[0] && (base + q)[|base|] == q[0];
  }

  /** A later sibling writes only below its own segment. */
  lemma KeptByLater(j: Json, i: nat, base: seq<string>, inner: map<string, int>, r: map<string, int>, p: seq<string>)
    requires j.Node? && i < |j.members| && p != [] && p[0] == Segment(j, i)
    requires forall k :: i + 1 <= k < |j.members| ==> Segment(j, k) != Segment(j, i)
    requires Recorded(j, i + 1, base, inner, r) && Pointer(base + p) in inner
    ensures Pointer(base + p) in r && r[Pointer(base + p)] == inner[Pointer(base + p)]
  {
    var key, later := Pointer(base + p), i + 1;
    if OwnedBy(j, later, base, key) {
      var q, x :| Reached(j, later, q, x) && key == Pointer(base + q);
      PointerInjective(base + p, base + q);
      SameHead(base, p, q);
      assert false;
    }
  }

  lemma {:induction false} ScanRecords(j: Json, base: seq<string>, was: map<string, int>)
    requires Scan(j, Pointer(base), was).Some?
    ensures Recorded(j, 0, base, was, Scan(j, Pointer(base), was).value)
    decreases j, 1, 0
  {
    if j.Node? {
      ScanFromRecords(j, 0, base, {}, was);
    }
  }

  lemma {:induction false} ScanFromRecords(j: Json, i: nat, base: seq<string>, seen: set<string>, was: map<string, int>)
    requires j.Node? && i <= |j.members| && ScanFrom(j, i, Pointer(base), seen, was).Some?
    ensures Recorded(j, i, base, was, ScanFrom(j, i, Pointer(base), seen, was).value)
    decreases j, 0, |j.members| - i
  {
    if i < |j.members| {
      var m, here := j.members[i], base + [Segment(j, i)];
      ChildPointer(j, i, base);
      var was1 := was[Pointer(here) := m.offset];
      var inner := Scan(m.value, Pointer(here), was1).value;
      ScanRecords(m.value, here, was1);
      ScanFromRecords(j, i + 1, base, seen + {m.key}, inner);
      forall k | i + 1 <= k < |j.members| ensures Segment(j, k) != Segment(j, i) {
        SiblingsDiffer(j, i, Pointer(base), seen, inner, k);
      }
      JoinTables(j, i, base, was, inner, ScanFrom(j, i, Pointer(base), seen, was).value);
    }
  }

  /**
   For every document without repeated keys the table has exactly one entry per node, under the node's own pointer
   and with the node's own offset: no node ever overwrites another's location.
   */
  lemma LocationsExact(j: Json)
    requires Scan(j, "", map[]).Some?
    ensures var r := Scan(j, "", map[]).value;
            && (forall p, o :: Reached(j, 0, p, o) ==> Pointer(p) in r && r[Pointer(p)] == o)
            && (forall key :: key in r ==> exists p :: key == Pointer(p) && Reached(j, 0, p, r[key]))
  {
    var r := Scan(j, "", map[]).value;
    assert Pointer([]) == "";
    ScanRecords(j, [], map[]);
    forall p: seq<string> ensures [] + p == p {
    }
    forall key | key in r ensures exists p :: key == Pointer(p) && Reached(j, 0, p, r[key]) {
      assert OwnedBy(j, 0, [], key);
      var p, o :| Reached(j, 0, p, o) && key == Pointer([] + p);
      assert [] + p == p && r[Pointer([] + p)] == o;
    }
  }
}
