/**
 A master's write and its propagation are separate lock regions, so propagations of different connections may reach a
 replica in another order than the writes were made.  What that costs, exactly.
 */
module WriteRaces {
  import opened Basics
  import opened Text
  import opened Replication
  import ReplicationRuns

  // ---------- what a mutation does to one key ----------

  datatype Touch = Leaves | Drops | Puts(value: string)

  function TouchOf(args: seq<string>, key: string): Touch {
    if args == [] then Leaves
    else
      var name := ToUpper(args[0]);
      if name == "SET" && |args| >= 3 && key == args[1] then Puts(args[2])
      else if name == "DEL" && key in args[1..] then Drops
      else Leaves
  }

  /** The last mutation of the list that touches the key. */
  function LastTouch(list: seq<seq<string>>, key: string): Touch {
    if list == [] then Leaves
    else
      var t := TouchOf(list[|list| - 1], key);
      if t.Leaves? then LastTouch(list[..|list| - 1], key) else t
  }

  function Held(kv: Store, key: string): Option<string> {
    if key in kv then Some(kv[key]) else None
  }

  function After(t: Touch, was: Option<string>): Option<string> {
    match t
    case Leaves => was
    case Drops => None
    case Puts(v) => Some(v)
  }

  /** Propagated mutations are absolute: an increment travels as the value it produced. */
  predicate IsAbsolute(args: seq<string>) {
    args == [] || ToUpper(args[0]) != "INCR"
  }

  predicate AllAbsolute(list: seq<seq<string>>) {
    forall i :: 0 <= i < |list| ==> IsAbsolute(list[i])
  }

  lemma PropagatesAbsolute(kv: Store, args: seq<string>)
    requires WriteOf(kv, args).Some?
    ensures IsAbsolute(WriteOf(kv, args).value.propagate)
  {
    assert ToUpper("SET") == "SET";
  }

  lemma AppliedTouch(kv: Store, args: seq<string>, key: string)
    requires IsAbsolute(args)
    ensures Held(Apply(kv, args), key) == After(TouchOf(args, key), Held(kv, key))
  {
  }

  /** The mutations applied one after the other. */
  function ApplyAll(kv: Store, list: seq<seq<string>>): Store {
    if list == [] then kv else Apply(ApplyAll(kv, list[..|list| - 1]), list[|list| - 1])
  }

  lemma {:induction false} AppliedLast(kv: Store, list: seq<seq<string>>, key: string)
    requires AllAbsolute(list)
    ensures Held(ApplyAll(kv, list), key) == After(LastTouch(list, key), Held(kv, key))
  {
    if list != [] {
      AppliedLast(kv, list[..|list| - 1], key);
      AppliedTouch(ApplyAll(kv, list[..|list| - 1]), list[|list| - 1], key);
    }
  }

  lemma SameStore(a: Store, b: Store)
    ensures a == b <==> forall key :: Held(a, key) == Held(b, key)
  {
    if forall key :: Held(a, key) == Held(b, key) {
      assert forall key :: key in a <==> Held(a, key).Some?;
      assert forall key :: key in b <==> Held(b, key).Some?;
      forall key | key in a ensures key in b && a[key] == b[key] {
        assert Held(a, key) == Held(b, key);
      }
      forall key | key in b ensures key in a {
        assert Held(a, key) == Held(b, key);
      }
    }
  }

  // ---------- the protocol ----------

  /** The master's contents as a refresh copied them, and how many writes had been made by then. */
  datatype Copied = Copied(kv: Store, writes: nat)

  /**
   `waiting` holds the propagations of writes that no replica lock region has taken yet; `base` is the number of writes
   in the contents the replica was last linked with, `delivered` what it has applied since, and `lost` the propagations
   that came while the link was down or before it was renewed.
   */
  datatype State = State(
    master: Store, replica: Store, up: bool, copied: Option<Copied>, waiting: seq<seq<string>>,
    written: seq<seq<string>>, base: nat, delivered: seq<seq<string>>, lost: seq<seq<string>>)

  /** One lock region each: a write, a propagation, a refresh's copy, its link, and a master marked down. */
  datatype Action = MakeWrite(args: seq<string>) | Deliver(i: nat) | Copy | Link | Cut

  function Start(kv: Store): State {
    State(kv, kv, true, None, [], [], 0, [], [])
  }

  predicate Enabled(s: State, a: Action) {
    && (a.Deliver? ==> a.i < |s.waiting|)
    && (a.Link? ==> s.copied.Some?)
  }

  function Written(s: State, args: seq<string>): State {
    var w := WriteOf(s.master, args);
    if w.None? then s
    else
      s.(master := w.value.kv, waiting := s.waiting + [w.value.propagate], written := s.written + [w.value.propagate])
  }

  /** A replica whose link is down is not among those a propagation lists. */
  function Delivered(s: State, i: nat): State
    requires i < |s.waiting|
  {
    var p, rest := s.waiting[i], s.waiting[..i] + s.waiting[i + 1..];
    if s.up then s.(replica := Apply(s.replica, p), waiting := rest, delivered := s.delivered + [p])
    else s.(waiting := rest, lost := s.lost + [p])
  }

  function Linked(s: State): State
    requires s.copied.Some?
  {
    var c := s.copied.value;
    s.(replica := c.kv, up := true, copied := None, base := c.writes, delivered := [], lost := s.lost + s.delivered)
  }

  function Step(s: State, a: Action): State
    requires Enabled(s, a)
  {
    match a
    case MakeWrite(args) => Written(s, args)
    case Deliver(i) => Delivered(s, i)
    case Copy => s.(copied := Some(Copied(s.master, |s.written|)))
    case Link => Linked(s)
    case Cut => s.(up := false)
  }

  /** A run of a master and one replica that is linked and has the same contents at first. */
  predicate IsRun(kv: Store, actions: seq<Action>, states: seq<State>) {
    && |states| == |actions| + 1
    && states[0] == Start(kv)
    && forall i :: 0 <= i < |actions| ==> Enabled(states[i], actions[i]) && states[i + 1] == Step(states[i], actions[i])
  }

  /** The mutations the replica's contents amount to: those it was copied with, and those delivered since. */
  function Seen(s: State): seq<seq<string>>
    requires s.base <= |s.written|
  {
    s.written[..s.base] + s.delivered
  }

  predicate CopySound(kv: Store, s: State) {
    s.copied.Some? ==>
      s.copied.value.writes <= |s.written| && s.copied.value.kv == ApplyAll(kv, s.written[..s.copied.value.writes])
  }

  predicate Sound(kv: Store, s: State) {
    && s.base <= |s.written| && CopySound(kv, s)
    && s.master == ApplyAll(kv, s.written) && s.replica == ApplyAll(kv, Seen(s))
    && AllAbsolute(s.written) && AllAbsolute(s.delivered) && AllAbsolute(s.waiting)
    && multiset(s.written) == multiset(s.delivered) + multiset(s.waiting) + multiset(s.lost)
  }

  lemma WriteKeepsSound(kv: Store, s: State, args: seq<string>)
    requires Sound(kv, s)
    ensures Sound(kv, Written(s, args))
  {
    var w := WriteOf(s.master, args);
    if w.Some? {
      var t := Written(s, args);
      PropagatesAbsolute(s.master, args);
      ReplicationRuns.PropagationMatches(s.master, args);
      assert t.written[..|s.written|] == s.written;
      assert t.written[..s.base] == s.written[..s.base];
      if s.copied.Some? {
        assert t.written[..s.copied.value.writes] == s.written[..s.copied.value.writes];
      }
    }
  }

  lemma DeliverKeepsSound(kv: Store, s: State, i: nat)
    requires Sound(kv, s) && i < |s.waiting|
    ensures Sound(kv, Delivered(s, i))
  {
    var p := s.waiting[i];
    assert s.waiting == s.waiting[..i] + [p] + s.waiting[i + 1..];
    if s.up {
      AppendsSeen(kv, s, p);
    }
  }

  lemma AppendsSeen(kv: Store, s: State, p: seq<string>)
    requires s.base <= |s.written| && s.replica == ApplyAll(kv, Seen(s))
    ensures Apply(s.replica, p) == ApplyAll(kv, s.written[..s.base] + (s.delivered + [p]))
  {
    ApplyOneMore(kv, Seen(s), p);
    assert Seen(s) + [p] == s.written[..s.base] + (s.delivered + [p]);
  }

  lemma ApplyOneMore(kv: Store, list: seq<seq<string>>, p: seq<string>)
    ensures ApplyAll(kv, list + [p]) == Apply(ApplyAll(kv, list), p)
  {
    assert (list + [p])[..|list|] == list;
  }

  lemma LinkKeepsSound(kv: Store, s: State)
    requires Sound(kv, s) && s.copied.Some?
    ensures Sound(kv, Linked(s))
  {
    assert s.written[..s.copied.value.writes] + [] == s.written[..s.copied.value.writes];
  }

  lemma StepKeepsSound(kv: Store, s: State, a: Action)
    requires Sound(kv, s) && Enabled(s, a)
    ensures Sound(kv, Step(s, a))
  {
    match a
    case MakeWrite(args) => WriteKeepsSound(kv, s, args);
    case Deliver(i) => DeliverKeepsSound(kv, s, i);
    case Copy => assert s.written[..|s.written|] == s.written;
    case Link => LinkKeepsSound(kv, s);
    case Cut =>
  }

  lemma {:induction false} RunSound(kv: Store, actions: seq<Action>, states: seq<State>, n: nat)
    requires IsRun(kv, actions, states) && n < |states|
    ensures Sound(kv, states[n])
  {
    if n > 0 {
      RunSound(kv, actions, states, n - 1);
      StepKeepsSound(kv, states[n - 1], actions[n - 1]);
    } else {
      assert Seen(states[0]) == [];
    }
  }

  /** For this key, the last mutation the replica has seen leaves what the last written one left. */
  predicate KeyInOrder(kv: Store, s: State, key: string)
    requires s.base <= |s.written|
  {
    After(LastTouch(Seen(s), key), Held(kv, key)) == After(LastTouch(s.written, key), Held(kv, key))
  }

  ghost predicate KeysInOrder(kv: Store, s: State)
    requires s.base <= |s.written|
  {
    forall key :: KeyInOrder(kv, s, key)
  }

  /**
   In every interleaving of writes, propagations and refreshes the replica holds its master's contents exactly when, key
   by key, the last mutation it has seen that touches the key leaves what the last write left there; once nothing waits,
   every write was delivered or lost.
   */
  lemma RaceExact(kv: Store, actions: seq<Action>, states: seq<State>, n: nat)
    requires IsRun(kv, actions, states) && n < |states|
    ensures states[n].base <= |states[n].written|
    ensures states[n].replica == states[n].master <==> KeysInOrder(kv, states[n])
    ensures states[n].waiting == [] ==> multiset(states[n].written) == multiset(states[n].delivered) + multiset(states[n].lost)
    ensures Seen(states[n]) == states[n].written ==> states[n].replica == states[n].master
  {
    var s := states[n];
    RunSound(kv, actions, states, n);
    SameStore(s.replica, s.master);
    forall key ensures KeyInOrder(kv, s, key) <==> Held(s.replica, key) == Held(s.master, key) {
      AppliedLast(kv, Seen(s), key);
      AppliedLast(kv, s.written, key);
    }
  }

  /** A propagation reaches the replica while its link is up, and never after the master was marked down. */
  lemma CutStopsDelivery(s: State, i: nat)
    requires i < |s.waiting|
    ensures s.up ==> Step(s, Deliver(i)).replica == Apply(s.replica, s.waiting[i])
    ensures var down := Step(s, Cut);
            && down.master == s.master && down.replica == s.replica && down.waiting == s.waiting
            && Step(down, Deliver(i)).replica == s.replica && Step(down, Deliver(i)).master == s.master
  {
  }

  /**
   A refresh that links at n holds its master's contents exactly when the writes made since its copy, of which no
   propagation reaches the new map, leave every key as the copy has it; with no write in between it always does.
   */
  lemma RefreshRaceExact(kv: Store, actions: seq<Action>, states: seq<State>, n: nat)
    requires IsRun(kv, actions, states) && n < |actions| && actions[n] == Link
    ensures var c := states[n].copied.value;
            && c.writes <= |states[n].written|
            && states[n + 1].replica == c.kv && states[n + 1].master == states[n].master
            && (states[n + 1].replica == states[n + 1].master <==> LeavesAll(c.kv, states[n].written[c.writes..]))
            && (c.writes == |states[n].written| ==> states[n + 1].replica == states[n + 1].master)
  {
    var s := states[n];
    var c := s.copied.value;
    RunSound(kv, actions, states, n);
    var later := s.written[c.writes..];
    assert s.written == s.written[..c.writes] + later;
    ApplyAllJoin(kv, s.written[..c.writes], later);
    SameStore(c.kv, s.master);
    forall key ensures LeavesKey(c.kv, later, key) <==> Held(c.kv, key) == Held(s.master, key) {
      AppliedLast(c.kv, later, key);
    }
  }

  predicate LeavesKey(kv: Store, list: seq<seq<string>>, key: string) {
    After(LastTouch(list, key), Held(kv, key)) == Held(kv, key)
  }

  ghost predicate LeavesAll(kv: Store, list: seq<seq<string>>) {
    forall key :: LeavesKey(kv, list, key)
  }

  lemma {:induction false} ApplyAllJoin(kv: Store, a: seq<seq<string>>, b: seq<seq<string>>)
    ensures ApplyAll(kv, a + b) == ApplyAll(ApplyAll(kv, a), b)
  {
    if b == [] {
      assert a + b == a;
    } else {
      ApplyAllJoin(kv, a, b[..|b| - 1]);
      assert (a + b)[..|a + b| - 1] == a + b[..|b| - 1];
    }
  }

  // ---------- the failing runs ----------

  function Race(key: string, a: string, b: string): seq<Action> {
    [MakeWrite(["SET", key, a]), MakeWrite(["SET", key, b]), Deliver(1), Deliver(0)]
  }

  /** Two connections set one key; the second propagation overtakes the first, and the replica keeps the older value. */
  lemma RaceLosesAgreement(kv: Store, key: string, a: string, b: string) returns (states: seq<State>)
    requires a != b
    ensures IsRun(kv, Race(key, a, b), states) && states[4].waiting == []
    ensures states[4].master != states[4].replica
    ensures Held(states[4].master, key) == Some(b) && Held(states[4].replica, key) == Some(a)
  {
    assert ToUpper("SET") == "SET";
    var race := Race(key, a, b);
    var s1 := Step(Start(kv), race[0]);
    var s2 := Step(s1, race[1]);
    var s3 := Step(s2, race[2]);
    var s4 := Step(s3, race[3]);
    states := [Start(kv), s1, s2, s3, s4];
    assert Held(s4.master, key) == Some(b) && Held(s4.replica, key) == Some(a);
  }

  function RefreshRace(key: string, a: string): seq<Action> {
    [Copy, MakeWrite(["SET", key, a]), Deliver(0), Link]
  }

  /** A write made and propagated between a refresh's copy and its link is missing from the replica for good. */
  lemma RefreshLosesWrite(kv: Store, key: string, a: string) returns (states: seq<State>)
    requires Held(kv, key) != Some(a)
    ensures IsRun(kv, RefreshRace(key, a), states) && states[4].waiting == [] && states[4].up
    ensures Held(states[4].master, key) == Some(a) && Held(states[4].replica, key) == Held(kv, key)
  {
    assert ToUpper("SET") == "SET";
    var race := RefreshRace(key, a);
    var s1 := Step(Start(kv), race[0]);
    var s2 := Step(s1, race[1]);
    var s3 := Step(s2, race[2]);
    var s4 := Step(s3, race[3]);
    states := [Start(kv), s1, s2, s3, s4];
    assert Held(s4.master, key) == Some(a);
  }
}
