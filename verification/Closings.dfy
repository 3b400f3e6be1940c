/** What closing all runtimes leaves running, exactly: whatever a removal unmapped before the closer listed the runtimes. */
module Closings {
  import opened Basics
  import opened Shutdown

  /** While a closer holds the gate, every other thread stands still. */
  lemma OnlyCloserMoves(s: State, a: Action, t: nat)
    requires GateSound(s) && Enabled(s, a) && s.writer == Some(t) && !IsOutside(a)
    ensures a.t == t && WriterAt(At(s, t)) && (a.ListRuntimes? || a.LockNext? || a.FinishClose? || a.Snapshot? || a.CloseSnapshot?)
  {
    assert a.t in s.readers <==> ReaderAt(At(s, a.t));
    assert s.writer == Some(a.t) <==> WriterAt(At(s, a.t));
  }

  lemma OutsideKeeps(s: State, a: Action, r: nat)
    requires Enabled(s, a) && IsOutside(a)
    ensures Step(s, a).threads == s.threads && Step(s, a).writer == s.writer && (ActiveIn(Step(s, a), r) <==> ActiveIn(s, r))
  {
  }

  /** Closer t has yet to list the runtimes, and r is active or not as it was. */
  predicate Arriving(s: State, t: nat, r: nat, was: bool) {
    s.writer == Some(t) && At(s, t).CloseStart? && ActiveIn(s, r) == was
  }

  /** Closer t works through its list: r stays as it was unless it is listed and has been reached. */
  predicate Passing(s: State, t: nat, r: nat, was: bool, listed: bool) {
    && s.writer == Some(t) && WriterAt(At(s, t)) && !At(s, t).CloseStart?
    && (ToStop(At(s, t), r) ==> listed)
    && (At(s, t).CloseHold? && At(s, t).runtime == r ==> r !in At(s, t).pending)
    && ActiveIn(s, r) == (was && (!listed || ToStop(At(s, t), r)))
  }

  lemma ArrivingStep(s: State, a: Action, t: nat, r: nat, was: bool)
    requires GateSound(s) && Enabled(s, a) && Arriving(s, t, r, was)
    ensures if a == ListRuntimes(t) then Passing(Step(s, a), t, r, was, r in s.mapped.Values) else Arriving(Step(s, a), t, r, was)
  {
    if IsOutside(a) {
      OutsideKeeps(s, a, r);
    } else {
      OnlyCloserMoves(s, a, t);
    }
  }

  lemma PassingStep(s: State, a: Action, t: nat, r: nat, was: bool, listed: bool)
    requires GateSound(s) && Enabled(s, a) && Passing(s, t, r, was, listed) && a != FinishClose(t)
    ensures Passing(Step(s, a), t, r, was, listed)
  {
    if IsOutside(a) {
      OutsideKeeps(s, a, r);
    } else {
      OnlyCloserMoves(s, a, t);
    }
  }

  lemma FinishLeaves(s: State, t: nat, r: nat, was: bool, listed: bool)
    requires Enabled(s, FinishClose(t)) && Passing(s, t, r, was, listed)
    ensures ActiveIn(Step(s, FinishClose(t)), r) == (was && !listed)
  {
  }

  /** One call of closeRuntimes by thread t: it enters at j, lists the runtimes at k and finishes at f. */
  predicate IsClosing(actions: seq<Action>, j: nat, k: nat, f: nat, t: nat) {
    && j < k < f < |actions|
    && actions[j] == EnterClose(t) && actions[k] == ListRuntimes(t) && actions[f] == FinishClose(t)
    && forall i :: j < i < f && i != k ==> actions[i] != ListRuntimes(t) && actions[i] != FinishClose(t)
  }

  lemma EntryArrives(s: State, t: nat, r: nat)
    requires Enabled(s, EnterClose(t))
    ensures Arriving(Step(s, EnterClose(t)), t, r, ActiveIn(s, r))
  {
  }

  lemma {:induction false} UntilListed(actions: seq<Action>, states: seq<State>, j: nat, k: nat, f: nat, t: nat, r: nat, i: nat)
    requires IsRun(actions, states) && IsClosing(actions, j, k, f, t) && j < i <= k
    ensures Arriving(states[i], t, r, ActiveIn(states[j], r))
  {
    if i == j + 1 {
      EntryArrives(states[j], t, r);
    } else {
      UntilListed(actions, states, j, k, f, t, r, i - 1);
      RunSound(actions, states, i - 1);
      ArrivingStep(states[i - 1], actions[i - 1], t, r, ActiveIn(states[j], r));
    }
  }

  lemma {:induction false} UntilFinished(actions: seq<Action>, states: seq<State>, j: nat, k: nat, f: nat, t: nat, r: nat, i: nat)
    requires IsRun(actions, states) && IsClosing(actions, j, k, f, t) && k < i <= f
    ensures Passing(states[i], t, r, ActiveIn(states[j], r), r in states[k].mapped.Values)
  {
    RunSound(actions, states, i - 1);
    if i == k + 1 {
      UntilListed(actions, states, j, k, f, t, r, k);
      ArrivingStep(states[k], actions[k], t, r, ActiveIn(states[j], r));
    } else {
      UntilFinished(actions, states, j, k, f, t, r, i - 1);
      PassingStep(states[i - 1], actions[i - 1], t, r, ActiveIn(states[j], r), r in states[k].mapped.Values);
    }
  }

  /** Over every interleaving, what a call leaves active is what was active when it entered and unmapped when it listed. */
  lemma ClosingLeavesExactly(actions: seq<Action>, states: seq<State>, j: nat, k: nat, f: nat, t: nat, r: nat)
    requires IsRun(actions, states) && IsClosing(actions, j, k, f, t)
    ensures ActiveIn(states[f + 1], r) <==> ActiveIn(states[j], r) && r !in states[k].mapped.Values
  {
    UntilFinished(actions, states, j, k, f, t, r, f);
    FinishLeaves(states[f], t, r, ActiveIn(states[j], r), r in states[k].mapped.Values);
  }

  ghost predicate NoneActive(s: State) {
    forall r: nat :: !ActiveIn(s, r)
  }

  /** Every runtime active in s is mapped in `listing`. */
  ghost predicate AllMapped(s: State, listing: State) {
    forall r: nat :: ActiveIn(s, r) ==> r in listing.mapped.Values
  }

  /** After a call no runtime at all is active if and only if every one active at its entry was still mapped when it listed. */
  lemma ClosingIsTotalExactly(actions: seq<Action>, states: seq<State>, j: nat, k: nat, f: nat, t: nat)
    requires IsRun(actions, states) && IsClosing(actions, j, k, f, t)
    ensures NoneActive(states[f + 1]) <==> AllMapped(states[j], states[k])
  {
    var after := states[f + 1];
    if AllMapped(states[j], states[k]) {
      forall r: nat ensures !ActiveIn(after, r) {
        ClosingLeavesExactly(actions, states, j, k, f, t, r);
        assert ActiveIn(states[j], r) ==> r in states[k].mapped.Values;
      }
    }
    if NoneActive(states[f + 1]) {
      forall r: nat | ActiveIn(states[j], r) ensures r in states[k].mapped.Values {
        ClosingLeavesExactly(actions, states, j, k, f, t, r);
        assert !ActiveIn(after, r);
      }
    }
  }

  // ---------- unmapping a running runtime ----------

  /** One removal of container c by thread t: it begins with its stop at i and unmaps at k. */
  predicate IsRemoval(actions: seq<Action>, i: nat, k: nat, t: nat, c: nat) {
    && i < k < |actions| && actions[i] == EnterStop(t, c, true) && actions[k] == Unmap(t)
    && forall j :: i < j < k ==> actions[j] != Unmap(t)
  }

  /** The removal's own stop has yet to reach r. */
  predicate StopAhead(s: State, t: nat, c: nat, r: nat) {
    var p := At(s, t);
    (p.StopLookup? && p.container == c) || ((p.StopWait? || p.StopHold?) && p.runtime == r)
  }

  /** r exists and is not c's, so it never will be. */
  predicate NeverMapped(s: State, c: nat, r: nat) {
    r in s.runtimes && (c in s.mapped ==> s.mapped[c] != r)
  }

  /** A start makes r active. */
  predicate Activates(s: State, a: Action, r: nat) {
    a.FinishStart? && a.ok && At(s, a.t).StartHold? && At(s, a.t).runtime == r
  }

  lemma NeverMappedStays(s: State, a: Action, c: nat, r: nat)
    requires Enabled(s, a) && NeverMapped(s, c, r)
    ensures NeverMapped(Step(s, a), c, r)
  {
  }

  lemma ActiveOnlyByStart(s: State, a: Action, r: nat)
    requires Enabled(s, a) && ActiveIn(Step(s, a), r) && !ActiveIn(s, r)
    ensures Activates(s, a, r)
  {
  }

  /** While r stays active, the removal's stop comes nearer to it or turns out to be for another runtime. */
  lemma StopApproaches(s: State, a: Action, t: nat, c: nat, r: nat)
    requires Enabled(s, a) && StopAhead(s, t, c, r) && ActiveIn(s, r) && ActiveIn(Step(s, a), r)
    ensures StopAhead(Step(s, a), t, c, r) || NeverMapped(Step(s, a), c, r)
  {
    if !ActsAs(a, t) {
      OtherStays(s, a, t);
    }
  }

  /** Until someone starts r after the removal began, r is inactive, still ahead of the stop, or never to be c's. */
  predicate Harmless(s: State, t: nat, c: nat, r: nat) {
    !ActiveIn(s, r) || StopAhead(s, t, c, r) || NeverMapped(s, c, r)
  }

  lemma HarmlessStep(s: State, a: Action, t: nat, c: nat, r: nat)
    requires Enabled(s, a) && Harmless(s, t, c, r) && !Activates(s, a, r)
    ensures Harmless(Step(s, a), t, c, r)
  {
    if ActiveIn(Step(s, a), r) {
      if !ActiveIn(s, r) {
        ActiveOnlyByStart(s, a, r);
      } else if StopAhead(s, t, c, r) {
        StopApproaches(s, a, t, c, r);
      } else {
        NeverMappedStays(s, a, c, r);
      }
    }
  }

  predicate ActivatedBetween(actions: seq<Action>, states: seq<State>, i: nat, n: nat, r: nat)
    requires n <= |actions| <= |states|
  {
    exists j :: i < j < n && Activates(states[j], actions[j], r)
  }

  lemma RemovalBegins(s: State, t: nat, c: nat, r: nat)
    requires Enabled(s, EnterStop(t, c, true))
    ensures StopAhead(Step(s, EnterStop(t, c, true)), t, c, r) && t in Step(s, EnterStop(t, c, true)).removals
    ensures Step(s, EnterStop(t, c, true)).removals[t] == c
  {
  }

  lemma RemovalGoesOn(s: State, a: Action, t: nat)
    requires Enabled(s, a) && t in s.removals && a != Unmap(t)
    ensures t in Step(s, a).removals && Step(s, a).removals[t] == s.removals[t]
  {
  }

  lemma {:induction false} UntilActivated(actions: seq<Action>, states: seq<State>, i: nat, k: nat, t: nat, c: nat, n: nat, r: nat)
    requires IsRun(actions, states) && IsRemoval(actions, i, k, t, c) && i < n <= k
    ensures t in states[n].removals && states[n].removals[t] == c
    ensures ActivatedBetween(actions, states, i, n, r) || Harmless(states[n], t, c, r)
  {
    if n == i + 1 {
      RemovalBegins(states[i], t, c, r);
    } else {
      UntilActivated(actions, states, i, k, t, c, n - 1, r);
      RemovalGoesOn(states[n - 1], actions[n - 1], t);
      if ActivatedBetween(actions, states, i, n - 1, r) {
        var j :| i < j < n - 1 && Activates(states[j], actions[j], r);
      } else if !Activates(states[n - 1], actions[n - 1], r) {
        HarmlessStep(states[n - 1], actions[n - 1], t, c, r);
      }
    }
  }

  /** A removal unmaps an active runtime only if a start finished after the removal's own stop had begun. */
  lemma UnmapsOnlyRestarted(actions: seq<Action>, states: seq<State>, i: nat, k: nat, t: nat, c: nat)
    requires IsRun(actions, states) && IsRemoval(actions, i, k, t, c)
    requires c in states[k].mapped && ActiveIn(states[k], states[k].mapped[c])
    ensures ActivatedBetween(actions, states, i, k, states[k].mapped[c])
  {
    UntilActivated(actions, states, i, k, t, c, k, states[k].mapped[c]);
  }

  // ---------- the failing run ----------

  /** The states met by performing the actions one after the other. */
  predicate IsPath(actions: seq<Action>, states: seq<State>) {
    && |states| == |actions| + 1
    && forall i :: 0 <= i < |actions| ==> Enabled(states[i], actions[i]) && states[i + 1] == Step(states[i], actions[i])
  }

  lemma JoinPaths(a: seq<Action>, s: seq<State>, b: seq<Action>, t: seq<State>)
    requires IsPath(a, s) && IsPath(b, t) && s[|a|] == t[0]
    ensures IsPath(a + b, s + t[1..]) && (s + t[1..])[0] == s[0] && (s + t[1..])[|a| + |b|] == t[|b|]
  {
    var actions, states := a + b, s + t[1..];
    forall i | 0 <= i < |actions| ensures Enabled(states[i], actions[i]) && states[i + 1] == Step(states[i], actions[i]) {
      if i >= |a| {
        assert states[i] == t[i - |a|] && states[i + 1] == t[i - |a| + 1] && actions[i] == b[i - |a|];
      }
    }
  }

  /** Thread 3 begins to remove container 1 and finds nothing to stop. */
  const STOPS := [EnterStop(3, 1, true), LookupStop(3), Leave(3)]

  const STOPPED := INITIAL.(threads := map[3 := Idle], removals := map[3 := 1])

  lemma LeakStops() returns (states: seq<State>)
    ensures IsPath(STOPS, states) && states[0] == INITIAL && states[3] == STOPPED
  {
    var s1 := Step(INITIAL, STOPS[0]);
    var s2 := Step(s1, STOPS[1]);
    states := [INITIAL, s1, s2, STOPPED];
  }

  /** Thread 1 starts the container. */
  const OPENS := [EnterStart(1, 1), LookupStart(1, 7)]
  const STARTS := [LockStart(1), FinishStart(1, true)]
  const LEAVES := [Leave(1), Unmap(3)]

  const MAPPED := STOPPED.(
    readers := {1}, mapped := map[1 := 7], runtimes := map[7 := Runtime(false, {}, None)],
    threads := map[3 := Idle, 1 := StartWait(7)])

  const ACTIVE := MAPPED.(runtimes := map[7 := Runtime(true, {}, None)], threads := map[3 := Idle, 1 := Leaving])

  lemma LeakOpens() returns (states: seq<State>)
    ensures IsPath(OPENS, states) && states[0] == STOPPED && states[2] == MAPPED
  {
    states := [STOPPED, Step(STOPPED, OPENS[0]), MAPPED];
  }

  lemma LeakStarts() returns (states: seq<State>)
    ensures IsPath(STARTS, states) && states[0] == MAPPED && states[2] == ACTIVE
  {
    states := [MAPPED, Step(MAPPED, STARTS[0]), ACTIVE];
  }

  /** Thread 3 unmaps the container's runtime. */
  const UNMAPPED := State(
    {}, None, false, false, map[], map[7 := Runtime(true, {}, None)], map[3 := Idle, 1 := Idle], {}, {}, map[])

  lemma LeakUnmaps() returns (states: seq<State>)
    ensures IsPath(LEAVES, states) && states[0] == ACTIVE && states[2] == UNMAPPED
  {
    states := [ACTIVE, Step(ACTIVE, LEAVES[0]), UNMAPPED];
  }

  /** Thread 2 closes the runtimes. */
  const ENTERS := [EnterClose(2), ListRuntimes(2)]
  const FINISHES := [FinishClose(2)]

  const LISTED := UNMAPPED.(writer := Some(2), closing := true, threads := map[3 := Idle, 1 := Idle, 2 := Closing({})])

  lemma LeakEnters() returns (states: seq<State>)
    ensures IsPath(ENTERS, states) && states[0] == UNMAPPED && states[2] == LISTED
  {
    assert UNMAPPED.mapped.Values == {};
    states := [UNMAPPED, Step(UNMAPPED, ENTERS[0]), LISTED];
  }

  lemma LeakFinishes() returns (states: seq<State>)
    ensures IsPath(FINISHES, states) && states[0] == LISTED && states[1].finished && ActiveIn(states[1], 7)
  {
    states := [LISTED, Step(LISTED, FINISHES[0])];
  }

  const LEAK := ((((STOPS + OPENS) + STARTS) + LEAVES) + ENTERS) + FINISHES

  lemma LeakIsRemoval()
    ensures |LEAK| == 12 && IsRemoval(LEAK, 0, 8, 3, 1) && IsClosing(LEAK, 9, 10, 11, 2)
  {
  }

  /** A removal that races with a start leaves a runtime active after closeRuntimes has returned. */
  lemma RemovalLeaks() returns (states: seq<State>)
    ensures IsRun(LEAK, states) && IsRemoval(LEAK, 0, 8, 3, 1) && IsClosing(LEAK, 9, 10, 11, 2)
    ensures states[12].finished && ActiveIn(states[12], 7) && !NoneActive(states[12])
  {
    states := LeakStops();
    var next := LeakOpens();
    JoinPaths(STOPS, states, OPENS, next);
    states := states + next[1..];
    next := LeakStarts();
    JoinPaths(STOPS + OPENS, states, STARTS, next);
    states := states + next[1..];
    next := LeakUnmaps();
    JoinPaths((STOPS + OPENS) + STARTS, states, LEAVES, next);
    states := states + next[1..];
    next := LeakEnters();
    JoinPaths(((STOPS + OPENS) + STARTS) + LEAVES, states, ENTERS, next);
    states := states + next[1..];
    next := LeakFinishes();
    JoinPaths((((STOPS + OPENS) + STARTS) + LEAVES) + ENTERS, states, FINISHES, next);
    states := states + next[1..];
    LeakIsRemoval();
  }
}
