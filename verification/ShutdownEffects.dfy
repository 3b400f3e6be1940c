/** What each lock region does, and that no interleaving of starts, stops and closers gets stuck. */
module ShutdownEffects {
  import opened Basics
  import opened Shutdown

  // ---------- effects ----------

  /** Nothing but the runtime r, and of it only what the caller says, has changed. */
  predicate OnlyRuntime(s: State, s': State, r: nat) {
    && s'.runtimes.Keys == s.runtimes.Keys && (forall x :: x in s.runtimes && x != r ==> s'.runtimes[x] == s.runtimes[x])
    && s'.mapped == s.mapped && s'.removals == s.removals
  }

  /** A connection is taken in by an active runtime and turned away, closed, by any other. */
  lemma RegisterEffect(s: State, c: nat, r: nat)
    requires Enabled(s, Register(c, r))
    ensures var s' := Step(s, Register(c, r));
            && OnlyRuntime(s, s', r) && s'.threads == s.threads
            && if s.runtimes[r].active
               then s'.runtimes[r].connections == s.runtimes[r].connections + {c} && s'.closed == s.closed && c in s'.registered
               else s'.runtimes == s.runtimes && s'.closed == s.closed + {c} && s'.registered == s.registered
  {
  }

  /** A connection that ends leaves its runtime and is closed. */
  lemma FinishConnectionEffect(s: State, c: nat, r: nat)
    requires Enabled(s, FinishConnection(c, r))
    ensures var s' := Step(s, FinishConnection(c, r));
            && OnlyRuntime(s, s', r) && s'.threads == s.threads
            && s'.runtimes[r] == s.runtimes[r].(connections := s.runtimes[r].connections - {c}) && s'.closed == s.closed + {c}
  {
  }

  /** A start finds the container's runtime or gives it a new one, with no connections and not active. */
  lemma LookupStartEffect(s: State, t: nat, c: nat, r: nat)
    requires At(s, t) == StartLookup(c) && Enabled(s, LookupStart(t, r))
    ensures var s' := Step(s, LookupStart(t, r));
            && c in s'.mapped && At(s', t) == StartWait(s'.mapped[c])
            && (forall x :: x in s.mapped ==> x in s'.mapped && s'.mapped[x] == s.mapped[x])
            && (forall x :: x in s.runtimes ==> x in s'.runtimes && s'.runtimes[x] == s.runtimes[x])
            && (c !in s.mapped ==> s'.mapped[c] == r && r in s'.runtimes && s'.runtimes[r] == Runtime(false, {}, None))
  {
  }

  /** Only a runtime nobody holds is taken; a start lets an active one be. */
  lemma LockEffect(s: State, t: nat, r: nat)
    requires r in s.runtimes
    ensures At(s, t) == StartWait(r) ==> (Enabled(s, LockStart(t)) <==> s.runtimes[r].holder == None)
    ensures At(s, t) == StopWait(r) ==> (Enabled(s, LockStop(t)) <==> s.runtimes[r].holder == None)
    ensures At(s, t) == StartWait(r) && s.runtimes[r].holder == None ==>
              var s' := Step(s, LockStart(t));
              if s.runtimes[r].active then s'.runtimes == s.runtimes && At(s', t) == Leaving
              else At(s', t) == StartHold(r) && s'.runtimes == s.runtimes[r := s.runtimes[r].(holder := Some(t))]
    ensures At(s, t) == StopWait(r) && s.runtimes[r].holder == None ==>
              var s' := Step(s, LockStop(t));
              At(s', t) == StopHold(r) && s'.runtimes == s.runtimes[r := s.runtimes[r].(holder := Some(t))]
  {
  }

  /** A start that succeeds leaves the runtime active, one that fails does not; the lock is given back either way. */
  lemma FinishStartEffect(s: State, t: nat, r: nat, ok: bool)
    requires At(s, t) == StartHold(r) && r in s.runtimes
    ensures Enabled(s, FinishStart(t, ok))
    ensures var s' := Step(s, FinishStart(t, ok));
            && OnlyRuntime(s, s', r) && At(s', t) == Leaving
            && s'.runtimes[r].active == ok && s'.runtimes[r].holder == None && s'.runtimes[r].connections == s.runtimes[r].connections
  {
  }

  /** A stop takes the runtime down with its connections in hand, then closes exactly those and gives the lock back. */
  lemma StopEffect(s: State, t: nat, r: nat)
    requires At(s, t) == StopHold(r) && r in s.runtimes
    ensures Enabled(s, Snapshot(t))
    ensures var s' := Step(s, Snapshot(t));
            && OnlyRuntime(s, s', r) && At(s', t) == StopClose(r, s.runtimes[r].connections) && s'.closed == s.closed
            && s'.runtimes[r] == s.runtimes[r].(active := false)
            && Enabled(s', CloseSnapshot(t))
            && var s'' := Step(s', CloseSnapshot(t));
               && OnlyRuntime(s', s'', r) && At(s'', t) == Leaving && s''.closed == s.closed + s.runtimes[r].connections
               && s''.runtimes[r] == s.runtimes[r].(active := false, holder := None)
  {
  }

  /** The closer gets in exactly when no thread is inside a start, a stop or a close. */
  lemma CloserWaits(s: State, t: nat)
    requires GateSound(s) && At(s, t) == Idle && t !in s.removals
    ensures Enabled(s, EnterClose(t)) <==> forall x: nat :: !ReaderAt(At(s, x)) && !WriterAt(At(s, x))
  {
    assert s.writer.Some? ==> WriterAt(At(s, s.writer.value));
    assert forall x :: x in s.readers ==> ReaderAt(At(s, x));
    if Enabled(s, EnterClose(t)) {
      forall x: nat ensures !ReaderAt(At(s, x)) && !WriterAt(At(s, x)) {
        assert x !in s.readers && s.writer != Some(x);
      }
    }
  }

  /** Once in, it sets the mark and keeps every start and stop out; then it has exactly the mapped runtimes to stop. */
  lemma CloserEffect(s: State, t: nat)
    requires Enabled(s, EnterClose(t))
    ensures var s' := Step(s, EnterClose(t));
            && s'.closing && s'.runtimes == s.runtimes && s'.mapped == s.mapped && At(s', t) == CloseStart
            && (forall x: nat, c: nat :: !Enabled(s', EnterStart(x, c)))
            && forall x: nat, c: nat, b: bool :: !Enabled(s', EnterStop(x, c, b))
    ensures var s' := Step(s, EnterClose(t));
            Enabled(s', ListRuntimes(t)) && At(Step(s', ListRuntimes(t)), t) == Closing(s.mapped.Values)
  {
    var s' := Step(s, EnterClose(t));
    assert s'.writer == Some(t) && s'.mapped == s.mapped;
    MovesTo(s', ListRuntimes(t));
  }

  lemma MovesTo(s: State, a: Action)
    requires Enabled(s, a) && !IsOutside(a)
    ensures At(Step(s, a), a.t) == Moved(s, a)
  {
  }

  // ---------- no deadlock ----------

  /** Whatever a thread waits for or has listed exists. */
  ghost predicate Known(s: State) {
    forall t: nat :: PositionKnown(s, At(s, t))
  }

  predicate PositionKnown(s: State, p: Position) {
    && (p.StartWait? || p.StopWait? ==> p.runtime in s.runtimes)
    && (p.Closing? || p.CloseHold? || p.CloseClose? ==> p.pending <= s.runtimes.Keys)
  }

  lemma RuntimesStay(s: State, a: Action)
    requires Enabled(s, a)
    ensures s.runtimes.Keys <= Step(s, a).runtimes.Keys
  {
  }

  lemma MovedKnown(s: State, a: Action)
    requires LocksSound(s) && Known(s) && Enabled(s, a) && !IsOutside(a)
    ensures PositionKnown(Step(s, a), At(Step(s, a), a.t))
  {
    assert PositionKnown(s, At(s, a.t));
    RuntimesStay(s, a);
  }

  lemma KnownKept(s: State, a: Action)
    requires LocksSound(s) && Known(s) && Enabled(s, a)
    ensures Known(Step(s, a))
  {
    RuntimesStay(s, a);
    forall t: nat ensures PositionKnown(Step(s, a), At(Step(s, a), t)) {
      if ActsAs(a, t) {
        MovedKnown(s, a);
      } else {
        OtherStays(s, a, t);
        assert PositionKnown(s, At(s, t));
      }
    }
  }

  lemma {:induction false} RunKnown(actions: seq<Action>, states: seq<State>, i: nat)
    requires IsRun(actions, states) && i < |states|
    ensures Known(states[i])
  {
    if i > 0 {
      RunKnown(actions, states, i - 1);
      RunSound(actions, states, i - 1);
      KnownKept(states[i - 1], actions[i - 1]);
    }
  }

  lemma {:induction false} Above(s: set<nat>) returns (n: nat)
    ensures forall x :: x in s ==> x < n
    decreases |s|
  {
    if s == {} {
      n := 0;
    } else {
      var x :| x in s;
      n := Above(s - {x});
      n := if x < n then n else x + 1;
      assert forall y :: y in s ==> y == x || y in s - {x};
    }
  }

  /** Thread t waits for the lock of a runtime that thread u holds. */
  predicate WaitsFor(s: State, t: nat, u: nat) {
    exists r :: r in s.runtimes && Wants(At(s, t), r) && s.runtimes[r].holder == Some(u)
  }

  predicate Wants(p: Position, r: nat) {
    ((p.StartWait? || p.StopWait?) && p.runtime == r) || (p.Closing? && r in p.pending)
  }

  /** Whoever holds a lifecycle lock can go on. */
  lemma HolderMoves(s: State, r: nat) returns (a: Action)
    requires LocksSound(s) && r in s.runtimes && s.runtimes[r].holder.Some?
    ensures !IsOutside(a) && a.t == s.runtimes[r].holder.value && Enabled(s, a)
  {
    var u := s.runtimes[r].holder.value;
    var p := At(s, u);
    assert Holds(p, r);
    a := if p.StartHold? then FinishStart(u, true) else if p.StopHold? || p.CloseHold? then Snapshot(u) else CloseSnapshot(u);
  }

  /** A thread that wants a lock can take it, or its holder can go on. */
  lemma TakesOrWaits(s: State, t: nat, r: nat, lock: Action) returns (a: Action)
    requires LocksSound(s) && r in s.runtimes && Wants(At(s, t), r)
    requires !IsOutside(lock) && lock.t == t && (Free(s, r) ==> Enabled(s, lock))
    ensures !IsOutside(a) && Enabled(s, a) && (a.t == t || WaitsFor(s, t, a.t))
  {
    if Free(s, r) {
      a := lock;
    } else {
      a := HolderMoves(s, r);
    }
  }

  lemma NextMove(s: State, t: nat) returns (a: Action)
    requires LocksSound(s) && Known(s) && !At(s, t).Idle?
    ensures !IsOutside(a) && Enabled(s, a) && (a.t == t || WaitsFor(s, t, a.t))
  {
    var p := At(s, t);
    assert PositionKnown(s, p);
    match p
    case StartLookup(_) =>
      var r := Above(s.runtimes.Keys);
      a := LookupStart(t, r);
    case StartWait(r) => a := TakesOrWaits(s, t, r, LockStart(t));
    case StartHold(r) =>
      assert Holds(p, r);
      a := FinishStart(t, true);
    case StopLookup(_) => a := LookupStop(t);
    case StopWait(r) => a := TakesOrWaits(s, t, r, LockStop(t));
    case StopHold(r) =>
      assert Holds(p, r);
      a := Snapshot(t);
    case StopClose(r, _) =>
      assert Holds(p, r);
      a := CloseSnapshot(t);
    case Leaving => a := Leave(t);
    case CloseStart => a := ListRuntimes(t);
    case Closing(pending) =>
      if pending == {} {
        a := FinishClose(t);
      } else {
        var r :| r in pending;
        a := TakesOrWaits(s, t, r, LockNext(t, r));
      }
    case CloseHold(_, r) =>
      assert Holds(p, r);
      a := Snapshot(t);
    case CloseClose(_, r, _) =>
      assert Holds(p, r);
      a := CloseSnapshot(t);
  }

  /** Over every interleaving: a thread inside an operation can go on, or it waits for a lock whose holder can. */
  lemma NeverStuck(actions: seq<Action>, states: seq<State>, i: nat, t: nat)
    requires IsRun(actions, states) && i < |states| && !At(states[i], t).Idle?
    ensures exists a: Action :: !IsOutside(a) && Enabled(states[i], a) && (a.t == t || WaitsFor(states[i], t, a.t))
  {
    RunSound(actions, states, i);
    RunKnown(actions, states, i);
    var a := NextMove(states[i], t);
  }

  /** How many steps of its own a thread has left at most. */
  function StepsLeft(s: State, p: Position): nat {
    match p
    case Idle => 0
    case StartLookup(_) => 4
    case StartWait(_) => 3
    case StartHold(_) => 2
    case StopLookup(_) => 5
    case StopWait(_) => 4
    case StopHold(_) => 3
    case StopClose(_, _) => 2
    case Leaving => 1
    case CloseStart => 3 * |s.mapped.Values| + 2
    case Closing(pending) => 3 * |pending| + 1
    case CloseHold(pending, _) => 3 * |pending| + 3
    case CloseClose(pending, _, _) => 3 * |pending| + 2
  }

  predicate IsEntry(a: Action) {
    a.EnterStart? || a.EnterStop? || a.EnterClose?
  }

  /** Every step inside an operation brings its thread nearer the end, so no operation goes on for ever. */
  lemma StepsRunOut(s: State, a: Action)
    requires Enabled(s, a) && !IsOutside(a) && !IsEntry(a)
    ensures StepsLeft(Step(s, a), At(Step(s, a), a.t)) < StepsLeft(s, At(s, a.t))
  {
    MovesTo(s, a);
    if a.LockNext? {
      OneLess(At(s, a.t).pending, a.runtime);
    } else {
      MovedRunsOut(s, a);
    }
  }

  lemma MovedRunsOut(s: State, a: Action)
    requires Enabled(s, a) && !IsOutside(a) && !IsEntry(a) && !a.LockNext?
    ensures StepsLeft(Step(s, a), Moved(s, a)) < StepsLeft(s, At(s, a.t))
  {
  }

  lemma OneLess(pending: set<nat>, r: nat)
    requires r in pending
    ensures |pending - {r}| == |pending| - 1
  {
    assert pending == pending - {r} + {r};
  }
}
