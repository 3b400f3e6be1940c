/**
 Starting, stopping and closing runtimes as interleaved threads.  Each step is one
 lock region; the reader/writer gate, the per-runtime lifecycle lock and the
 snapshots a stop works from are part of the state.  A removal is a stop after
 which the same thread takes the container's runtime out of the map.
 */
module Shutdown {
  import opened Basics

  datatype Runtime = Runtime(active: bool, connections: set<nat>, holder: Option<nat>)

  /** Where a thread is.  Every start and stop position except the last holds the gate for reading. */
  datatype Position =
    | Idle
    | StartLookup(container: nat)
    | StartWait(runtime: nat)
    | StartHold(runtime: nat)
    | StopLookup(container: nat)
    | StopWait(runtime: nat)
    | StopHold(runtime: nat)
    | StopClose(runtime: nat, snapshot: set<nat>)
    | Leaving
    | CloseStart
    | Closing(pending: set<nat>)
    | CloseHold(pending: set<nat>, runtime: nat)
    | CloseClose(pending: set<nat>, runtime: nat, snapshot: set<nat>)

  datatype State = State(
    readers: set<nat>, writer: Option<nat>, closing: bool, finished: bool,
    mapped: map<nat, nat>, runtimes: map<nat, Runtime>, threads: map<nat, Position>,
    registered: set<nat>, closed: set<nat>, removals: map<nat, nat>)

  const INITIAL := State({}, None, false, false, map[], map[], map[], {}, {}, map[])

  datatype Action =
    | EnterStart(t: nat, container: nat)
    | LookupStart(t: nat, newRuntime: nat)
    | LockStart(t: nat)
    | FinishStart(t: nat, ok: bool)
    | EnterStop(t: nat, container: nat, removing: bool)
    | LookupStop(t: nat)
    | LockStop(t: nat)
    | Snapshot(t: nat)
    | CloseSnapshot(t: nat)
    | Leave(t: nat)
    | EnterClose(t: nat)
    | ListRuntimes(t: nat)
    | LockNext(t: nat, runtime: nat)
    | FinishClose(t: nat)
    | Register(connection: nat, runtime: nat)
    | FinishConnection(connection: nat, runtime: nat)
    | Unmap(t: nat)

  function At(s: State, t: nat): Position {
    if t in s.threads then s.threads[t] else Idle
  }

  /** The thread is in no operation; a removal is over when its container is unmapped. */
  predicate IsFree(s: State, t: nat) {
    At(s, t).Idle? && t !in s.removals
  }

  predicate Free(s: State, r: nat) {
    r in s.runtimes && s.runtimes[r].holder.None?
  }

  predicate Enabled(s: State, a: Action) {
    match a
    case EnterStart(t, _) => IsFree(s, t) && s.writer.None?
    case LookupStart(t, r) => At(s, t).StartLookup? && (At(s, t).container !in s.mapped ==> r !in s.runtimes)
    case LockStart(t) => At(s, t).StartWait? && Free(s, At(s, t).runtime)
    case FinishStart(t, _) => At(s, t).StartHold? && At(s, t).runtime in s.runtimes
    case EnterStop(t, _, _) => IsFree(s, t) && s.writer.None?
    case LookupStop(t) => At(s, t).StopLookup?
    case LockStop(t) => At(s, t).StopWait? && Free(s, At(s, t).runtime)
    case Snapshot(t) => (At(s, t).StopHold? || At(s, t).CloseHold?) && At(s, t).runtime in s.runtimes
    case CloseSnapshot(t) => (At(s, t).StopClose? || At(s, t).CloseClose?) && At(s, t).runtime in s.runtimes
    case Leave(t) => At(s, t).Leaving?
    case EnterClose(t) => IsFree(s, t) && s.writer.None? && s.readers == {}
    case ListRuntimes(t) => At(s, t).CloseStart?
    case LockNext(t, r) => At(s, t).Closing? && r in At(s, t).pending && Free(s, r)
    case FinishClose(t) => At(s, t).Closing? && At(s, t).pending == {}
    case Register(c, r) => r in s.runtimes && c !in s.registered && c !in s.closed
    case FinishConnection(c, r) => r in s.runtimes && c in s.runtimes[r].connections
    case Unmap(t) => At(s, t).Idle? && t in s.removals
  }

  /** Steps that belong to no thread's operation on the gate or a lock. */
  predicate IsOutside(a: Action) {
    a.Register? || a.FinishConnection? || a.Unmap?
  }

  /** Each part of the state is changed by the actions its function names, and by no other. */
  function Step(s: State, a: Action): State
    requires Enabled(s, a)
  {
    State(
      ReadersAfter(s, a), WriterAfter(s, a), s.closing || a.EnterClose?, s.finished || a.FinishClose?,
      MappedAfter(s, a), RuntimesAfter(s, a),
      if IsOutside(a) then s.threads else s.threads[a.t := Moved(s, a)],
      RegisteredAfter(s, a), ClosedAfter(s, a), RemovalsAfter(s, a))
  }

  function ReadersAfter(s: State, a: Action): set<nat> {
    match a
    case EnterStart(t, _) => if s.closing then s.readers else s.readers + {t}
    case EnterStop(t, _, _) => s.readers + {t}
    case Leave(t) => s.readers - {t}
    case _ => s.readers
  }

  function WriterAfter(s: State, a: Action): Option<nat> {
    match a
    case EnterClose(t) => Some(t)
    case FinishClose(_) => None
    case _ => s.writer
  }

  /** A container without a runtime gets a new one; a removal ends by forgetting the container's. */
  function MappedAfter(s: State, a: Action): map<nat, nat>
    requires Enabled(s, a)
  {
    match a
    case LookupStart(t, r) => if At(s, t).container in s.mapped then s.mapped else s.mapped[At(s, t).container := r]
    case Unmap(t) => s.mapped - {s.removals[t]}
    case _ => s.mapped
  }

  function RemovalsAfter(s: State, a: Action): map<nat, nat> {
    match a
    case EnterStop(t, c, removing) => if removing then s.removals[t := c] else s.removals
    case Unmap(t) => s.removals - {t}
    case _ => s.removals
  }

  /** Where the acting thread goes. */
  function Moved(s: State, a: Action): Position
    requires Enabled(s, a) && !IsOutside(a)
  {
    var p := At(s, a.t);
    match a
    case EnterStart(_, c) => if s.closing then Idle else StartLookup(c)
    case LookupStart(_, r) => StartWait(if p.container in s.mapped then s.mapped[p.container] else r)
    case LockStart(_) => if s.runtimes[p.runtime].active then Leaving else StartHold(p.runtime)
    case FinishStart(_, _) => Leaving
    case EnterStop(_, c, _) => StopLookup(c)
    case LookupStop(_) => if p.container in s.mapped then StopWait(s.mapped[p.container]) else Leaving
    case LockStop(_) => StopHold(p.runtime)
    case Snapshot(_) =>
      var connections := s.runtimes[p.runtime].connections;
      if p.StopHold? then StopClose(p.runtime, connections) else CloseClose(p.pending, p.runtime, connections)
    case CloseSnapshot(_) => if p.StopClose? then Leaving else Closing(p.pending)
    case Leave(_) => Idle
    case EnterClose(_) => CloseStart
    case ListRuntimes(_) => Closing(s.mapped.Values)
    case LockNext(_, r) => CloseHold(p.pending - {r}, r)
    case FinishClose(_) => Idle
  }

  /** Lifecycle locks are taken and given back, runtimes start and stop, connections come and go. */
  function RuntimesAfter(s: State, a: Action): map<nat, Runtime>
    requires Enabled(s, a)
  {
    match a
    case LookupStart(t, r) =>
      if At(s, t).container in s.mapped then s.runtimes else s.runtimes[r := Runtime(false, {}, None)]
    case LockStart(t) =>
      var r := At(s, t).runtime;
      if s.runtimes[r].active then s.runtimes else Locked(s, r, t)
    case FinishStart(t, ok) =>
      var r := At(s, t).runtime;
      s.runtimes[r := s.runtimes[r].(active := ok, holder := None)]
    case LockStop(t) => Locked(s, At(s, t).runtime, t)
    case LockNext(t, r) => Locked(s, r, t)
    case Snapshot(t) =>
      var r := At(s, t).runtime;
      s.runtimes[r := s.runtimes[r].(active := false)]
    case CloseSnapshot(t) =>
      var r := At(s, t).runtime;
      s.runtimes[r := s.runtimes[r].(holder := None)]
    case Register(c, r) =>
      var x := s.runtimes[r];
      if x.active then s.runtimes[r := x.(connections := x.connections + {c})] else s.runtimes
    case FinishConnection(c, r) =>
      var x := s.runtimes[r];
      s.runtimes[r := x.(connections := x.connections - {c})]
    case _ => s.runtimes
  }

  function Locked(s: State, r: nat, t: nat): map<nat, Runtime>
    requires r in s.runtimes
  {
    s.runtimes[r := s.runtimes[r].(holder := Some(t))]
  }

  function RegisteredAfter(s: State, a: Action): set<nat>
    requires Enabled(s, a)
  {
    if a.Register? && s.runtimes[a.runtime].active then s.registered + {a.connection} else s.registered
  }

  /** A connection offered to an inactive runtime is refused and closed. */
  function ClosedAfter(s: State, a: Action): set<nat>
    requires Enabled(s, a)
  {
    match a
    case CloseSnapshot(t) => s.closed + At(s, t).snapshot
    case Register(c, r) => if s.runtimes[r].active then s.closed else s.closed + {c}
    case FinishConnection(c, _) => s.closed + {c}
    case _ => s.closed
  }

  // ---------- invariants ----------

  predicate InStart(p: Position) {
    p.StartLookup? || p.StartWait? || p.StartHold?
  }

  predicate ReaderAt(p: Position) {
    InStart(p) || p.StopLookup? || p.StopWait? || p.StopHold? || p.StopClose? || p.Leaving?
  }

  predicate WriterAt(p: Position) {
    p.CloseStart? || p.Closing? || p.CloseHold? || p.CloseClose?
  }

  /** The position holds the lifecycle lock of runtime r. */
  predicate Holds(p: Position, r: nat) {
    (p.StartHold? || p.StopHold? || p.StopClose? || p.CloseHold? || p.CloseClose?) && p.runtime == r
  }

  /** The gate admits many readers or one writer, and its record matches where the threads are. */
  ghost predicate GateSound(s: State) {
    && (forall t: nat :: t in s.readers <==> ReaderAt(At(s, t)))
    && (forall t: nat :: s.writer == Some(t) <==> WriterAt(At(s, t)))
    && (s.writer.Some? ==> s.readers == {} && s.closing)
    && (s.closing ==> forall t: nat :: !InStart(At(s, t)))
  }

  ghost predicate LocksSound(s: State) {
    && (forall c :: c in s.mapped ==> s.mapped[c] in s.runtimes)
    && (forall t: nat, r: nat :: Holds(At(s, t), r) ==> r in s.runtimes && s.runtimes[r].holder == Some(t))
    && (forall r :: r in s.runtimes && s.runtimes[r].holder.Some? ==> Holds(At(s, s.runtimes[r].holder.value), r))
    && (forall t: nat :: At(s, t).StartHold? && At(s, t).runtime in s.runtimes ==> !s.runtimes[At(s, t).runtime].active)
  }

  /** The runtimes a closing thread has still to stop. */
  predicate ToStop(p: Position, r: nat) {
    || (p.Closing? && r in p.pending)
    || (p.CloseHold? && (r in p.pending || r == p.runtime))
    || (p.CloseClose? && r in p.pending)
  }

  /** While the closer works, what it has passed is inactive; once one closer is done, everything mapped is. */
  predicate CloseSound(s: State) {
    && (s.finished ==> s.closing)
    && forall c :: c in s.mapped && ActiveIn(s, s.mapped[c]) ==> MayBeActive(s, s.mapped[c])
  }

  predicate ActiveIn(s: State, r: nat) {
    r in s.runtimes && s.runtimes[r].active
  }

  predicate MayBeActive(s: State, r: nat) {
    && !s.finished
    && (s.writer.Some? ==> At(s, s.writer.value).CloseStart? || ToStop(At(s, s.writer.value), r))
  }

  /** The connections that whoever holds r's lock is about to close. */
  function AboutToClose(s: State, r: nat): set<nat>
    requires r in s.runtimes
  {
    if s.runtimes[r].holder.None? then {}
    else
      var p := At(s, s.runtimes[r].holder.value);
      if p.StopClose? || p.CloseClose? then p.snapshot else {}
  }

  /** A connection of an inactive runtime has been closed or is in the snapshot being closed. */
  predicate ConnectionsSound(s: State) {
    && (forall r :: r in s.runtimes && !s.runtimes[r].active ==>
          s.runtimes[r].connections <= s.closed + AboutToClose(s, r))
    && (forall c :: c in s.registered ==> c in s.closed || exists r :: r in s.runtimes && c in s.runtimes[r].connections)
  }

  ghost predicate Sound(s: State) {
    GateSound(s) && LocksSound(s) && CloseSound(s) && ConnectionsSound(s)
  }

  /** The action is a step of thread t. */
  predicate ActsAs(a: Action, t: nat) {
    !IsOutside(a) && a.t == t
  }

  lemma OtherStays(s: State, a: Action, t: nat)
    requires Enabled(s, a) && !ActsAs(a, t)
    ensures At(Step(s, a), t) == At(s, t)
  {
  }

  /** The gate's record of one thread changes only when it moves, and then follows its position. */
  lemma ReadersKept(s: State, a: Action, t: nat)
    requires GateSound(s) && Enabled(s, a)
    ensures t in Step(s, a).readers <==> ReaderAt(At(Step(s, a), t))
  {
    if ActsAs(a, t) {
      MoverReads(s, a, t);
    } else {
      OtherStays(s, a, t);
      OtherReads(s, a, t);
    }
  }

  lemma MoverReads(s: State, a: Action, t: nat)
    requires GateSound(s) && Enabled(s, a) && ActsAs(a, t)
    ensures t in Step(s, a).readers <==> ReaderAt(At(Step(s, a), t))
  {
    assert t in s.readers <==> ReaderAt(At(s, t));
  }

  lemma OtherReads(s: State, a: Action, t: nat)
    requires Enabled(s, a) && !ActsAs(a, t)
    ensures t in Step(s, a).readers <==> t in s.readers
  {
  }

  lemma WriterKept(s: State, a: Action, t: nat)
    requires GateSound(s) && Enabled(s, a)
    ensures Step(s, a).writer == Some(t) <==> WriterAt(At(Step(s, a), t))
  {
    if ActsAs(a, t) {
      MoverWrites(s, a, t);
    } else {
      OtherStays(s, a, t);
      OtherWrites(s, a, t);
    }
  }

  lemma MoverWrites(s: State, a: Action, t: nat)
    requires GateSound(s) && Enabled(s, a) && ActsAs(a, t)
    ensures Step(s, a).writer == Some(t) <==> WriterAt(At(Step(s, a), t))
  {
    assert s.writer == Some(t) <==> WriterAt(At(s, t));
  }

  lemma OtherWrites(s: State, a: Action, t: nat)
    requires GateSound(s) && Enabled(s, a) && !ActsAs(a, t)
    ensures Step(s, a).writer == Some(t) <==> s.writer == Some(t)
  {
    if a.FinishClose? {
      assert s.writer == Some(a.t) <==> WriterAt(At(s, a.t));
    }
  }

  lemma StartsKept(s: State, a: Action, t: nat)
    requires GateSound(s) && Enabled(s, a) && Step(s, a).closing
    ensures !InStart(At(Step(s, a), t))
  {
    if a.EnterClose? {
      assert t !in s.readers && !ReaderAt(At(s, t));
    } else {
      assert s.closing && !InStart(At(s, t));
    }
  }

  lemma GateKept(s: State, a: Action)
    requires GateSound(s) && Enabled(s, a)
    ensures GateSound(Step(s, a))
  {
    forall t: nat
      ensures var s' := Step(s, a);
              && (t in s'.readers <==> ReaderAt(At(s', t)))
              && (s'.writer == Some(t) <==> WriterAt(At(s', t)))
              && (s'.closing ==> !InStart(At(s', t)))
    {
      ReadersKept(s, a, t);
      WriterKept(s, a, t);
      if Step(s, a).closing {
        StartsKept(s, a, t);
      }
    }
  }

  lemma HoldKept(s: State, a: Action, t: nat, r: nat)
    requires LocksSound(s) && Enabled(s, a) && Holds(At(Step(s, a), t), r)
    ensures r in Step(s, a).runtimes && Step(s, a).runtimes[r].holder == Some(t)
  {
    if ActsAs(a, t) {
      MoverHolds(s, a, t, r);
    } else {
      OtherHolds(s, a, t, r);
    }
  }

  lemma MoverHolds(s: State, a: Action, t: nat, r: nat)
    requires LocksSound(s) && Enabled(s, a) && ActsAs(a, t) && Holds(At(Step(s, a), t), r)
    ensures r in Step(s, a).runtimes && Step(s, a).runtimes[r].holder == Some(t)
  {
    assert Holds(At(s, t), r) ==> r in s.runtimes && s.runtimes[r].holder == Some(t);
  }

  lemma OtherHolds(s: State, a: Action, t: nat, r: nat)
    requires LocksSound(s) && Enabled(s, a) && !ActsAs(a, t) && Holds(At(Step(s, a), t), r)
    ensures r in Step(s, a).runtimes && Step(s, a).runtimes[r].holder == Some(t)
  {
    OtherStays(s, a, t);
    assert r in s.runtimes && s.runtimes[r].holder == Some(t);
    HeldStays(s, a, t, r);
  }

  /** A lock changes hands only when its holder moves. */
  lemma HeldStays(s: State, a: Action, t: nat, r: nat)
    requires LocksSound(s) && Enabled(s, a) && !ActsAs(a, t) && r in s.runtimes && s.runtimes[r].holder == Some(t)
    ensures r in Step(s, a).runtimes && Step(s, a).runtimes[r].holder == Some(t)
  {
    if a.FinishStart? || a.Snapshot? || a.CloseSnapshot? {
      assert Holds(At(s, a.t), At(s, a.t).runtime);
      OthersRuntime(s, a, r);
    } else {
      UnheldActions(s, a, t, r);
    }
  }

  /** These three touch only the runtime the acting thread holds. */
  lemma OthersRuntime(s: State, a: Action, r: nat)
    requires Enabled(s, a) && (a.FinishStart? || a.Snapshot? || a.CloseSnapshot?) && r in s.runtimes && r != At(s, a.t).runtime
    ensures r in Step(s, a).runtimes && Step(s, a).runtimes[r] == s.runtimes[r]
  {
  }

  lemma UnheldActions(s: State, a: Action, t: nat, r: nat)
    requires Enabled(s, a) && !a.FinishStart? && !a.Snapshot? && !a.CloseSnapshot?
    requires LocksSound(s) && r in s.runtimes && s.runtimes[r].holder == Some(t)
    ensures r in Step(s, a).runtimes && Step(s, a).runtimes[r].holder == Some(t)
  {
  }

  lemma HolderKept(s: State, a: Action, r: nat)
    requires LocksSound(s) && Enabled(s, a) && r in Step(s, a).runtimes && Step(s, a).runtimes[r].holder.Some?
    ensures Holds(At(Step(s, a), Step(s, a).runtimes[r].holder.value), r)
  {
    var t := Step(s, a).runtimes[r].holder.value;
    if ActsAs(a, t) {
      MoverIsHolder(s, a, t, r);
    } else {
      HolderWas(s, a, t, r);
      OtherStays(s, a, t);
    }
  }

  lemma MoverIsHolder(s: State, a: Action, t: nat, r: nat)
    requires LocksSound(s) && Enabled(s, a) && ActsAs(a, t) && r in Step(s, a).runtimes && Step(s, a).runtimes[r].holder == Some(t)
    ensures Holds(At(Step(s, a), t), r)
  {
    if r in s.runtimes && s.runtimes[r].holder == Some(t) {
      assert Holds(At(s, t), r);
    }
  }

  lemma HolderWas(s: State, a: Action, t: nat, r: nat)
    requires Enabled(s, a) && !ActsAs(a, t) && r in Step(s, a).runtimes && Step(s, a).runtimes[r].holder == Some(t)
    ensures r in s.runtimes && s.runtimes[r].holder == Some(t)
  {
  }

  lemma StarterInactive(s: State, a: Action, t: nat)
    requires LocksSound(s) && Enabled(s, a) && At(Step(s, a), t).StartHold?
    ensures At(Step(s, a), t).runtime in Step(s, a).runtimes && !Step(s, a).runtimes[At(Step(s, a), t).runtime].active
  {
    HoldKept(s, a, t, At(Step(s, a), t).runtime);
    assert At(s, t).StartHold? ==> Holds(At(s, t), At(s, t).runtime);
    if a.FinishStart? {
      assert Holds(At(s, a.t), At(s, a.t).runtime);
    }
  }

  lemma LocksKept(s: State, a: Action)
    requires LocksSound(s) && Enabled(s, a)
    ensures LocksSound(Step(s, a))
  {
    var s' := Step(s, a);
    forall t: nat, r: nat | Holds(At(s', t), r) ensures r in s'.runtimes && s'.runtimes[r].holder == Some(t) {
      HoldKept(s, a, t, r);
    }
    forall r | r in s'.runtimes && s'.runtimes[r].holder.Some? ensures Holds(At(s', s'.runtimes[r].holder.value), r) {
      HolderKept(s, a, r);
    }
    forall t: nat | At(s', t).StartHold? ensures !s'.runtimes[At(s', t).runtime].active {
      StarterInactive(s, a, t);
    }
  }

  lemma CloseKept(s: State, a: Action)
    requires GateSound(s) && LocksSound(s) && CloseSound(s) && Enabled(s, a)
    ensures CloseSound(Step(s, a))
  {
    var s' := Step(s, a);
    forall c | c in s'.mapped && ActiveIn(s', s'.mapped[c]) ensures MayBeActive(s', s'.mapped[c]) {
      CloseOf(s, a, c);
    }
  }

  lemma CloseOf(s: State, a: Action, c: nat)
    requires GateSound(s) && LocksSound(s) && CloseSound(s) && Enabled(s, a)
    requires c in Step(s, a).mapped && ActiveIn(Step(s, a), Step(s, a).mapped[c])
    ensures MayBeActive(Step(s, a), Step(s, a).mapped[c])
  {
    if c in s.mapped && ActiveIn(s, s.mapped[c]) {
      StillAllowed(s, a, c);
    } else {
      NewlyActive(s, a, c);
    }
  }

  lemma StillAllowed(s: State, a: Action, c: nat)
    requires GateSound(s) && LocksSound(s) && CloseSound(s) && Enabled(s, a)
    requires c in s.mapped && ActiveIn(s, s.mapped[c])
    requires c in Step(s, a).mapped && ActiveIn(Step(s, a), Step(s, a).mapped[c])
    ensures MayBeActive(Step(s, a), Step(s, a).mapped[c])
  {
    assert MayBeActive(s, s.mapped[c]);
    if s.writer.Some? && ActsAs(a, s.writer.value) {
      CloserAdvances(s, a, c);
    } else {
      CloserStays(s, a, c);
    }
  }

  lemma CloserAdvances(s: State, a: Action, c: nat)
    requires GateSound(s) && Enabled(s, a) && s.writer.Some? && ActsAs(a, s.writer.value)
    requires c in s.mapped && MayBeActive(s, s.mapped[c]) && ActiveIn(Step(s, a), s.mapped[c])
    ensures MayBeActive(Step(s, a), s.mapped[c]) && Step(s, a).mapped == s.mapped
  {
    assert WriterAt(At(s, s.writer.value));
  }

  lemma CloserStays(s: State, a: Action, c: nat)
    requires GateSound(s) && Enabled(s, a) && !(s.writer.Some? && ActsAs(a, s.writer.value))
    requires c in s.mapped && MayBeActive(s, s.mapped[c]) && c in Step(s, a).mapped
    ensures MayBeActive(Step(s, a), s.mapped[c]) && Step(s, a).mapped[c] == s.mapped[c]
  {
    if s.writer.Some? {
      OtherStays(s, a, s.writer.value);
    }
    assert a.FinishClose? ==> (s.writer == Some(a.t) <==> WriterAt(At(s, a.t)));
  }

  /** A runtime becomes active only inside a start, which no closer overlaps. */
  lemma NewlyActive(s: State, a: Action, c: nat)
    requires GateSound(s) && CloseSound(s) && Enabled(s, a) && !(c in s.mapped && ActiveIn(s, s.mapped[c]))
    requires c in Step(s, a).mapped && ActiveIn(Step(s, a), Step(s, a).mapped[c])
    ensures MayBeActive(Step(s, a), Step(s, a).mapped[c])
  {
    assert a.FinishStart? && InStart(At(s, a.t)) && !s.closing;
  }

  lemma ConnectionsKept(s: State, a: Action)
    requires LocksSound(s) && ConnectionsSound(s) && Enabled(s, a)
    ensures ConnectionsSound(Step(s, a))
  {
    var s' := Step(s, a);
    forall r | r in s'.runtimes && !s'.runtimes[r].active
      ensures s'.runtimes[r].connections <= s'.closed + AboutToClose(s', r)
    {
      if r in s.runtimes {
        SnapshotKept(s, a, r);
      }
    }
    forall c | c in s'.registered
      ensures c in s'.closed || exists r :: r in s'.runtimes && c in s'.runtimes[r].connections
    {
      RegisteredKept(s, a, c);
    }
  }

  /** Who holds r, and what it is about to close, changes only when its holder moves or the lock is taken. */
  lemma SnapshotStays(s: State, a: Action, r: nat)
    requires LocksSound(s) && Enabled(s, a) && r in s.runtimes
    requires !a.Snapshot? && !a.CloseSnapshot? && !a.FinishStart?
    ensures AboutToClose(s, r) <= AboutToClose(Step(s, a), r)
  {
    if s.runtimes[r].holder.Some? {
      assert Holds(At(s, s.runtimes[r].holder.value), r);
    }
  }

  lemma SnapshotKept(s: State, a: Action, r: nat)
    requires LocksSound(s) && ConnectionsSound(s) && Enabled(s, a) && r in s.runtimes && !Step(s, a).runtimes[r].active
    ensures var s' := Step(s, a); s'.runtimes[r].connections <= s'.closed + AboutToClose(s', r)
  {
    if a.FinishStart? || a.Snapshot? || a.CloseSnapshot? {
      SnapshotMoves(s, a, r);
    } else {
      SnapshotStays(s, a, r);
    }
  }

  lemma SnapshotMoves(s: State, a: Action, r: nat)
    requires LocksSound(s) && ConnectionsSound(s) && Enabled(s, a) && r in s.runtimes && !Step(s, a).runtimes[r].active
    requires a.FinishStart? || a.Snapshot? || a.CloseSnapshot?
    ensures var s' := Step(s, a); s'.runtimes[r].connections <= s'.closed + AboutToClose(s', r)
  {
    assert Holds(At(s, a.t), At(s, a.t).runtime);
    if s.runtimes[r].holder.Some? {
      assert Holds(At(s, s.runtimes[r].holder.value), r);
    }
  }

  lemma RegisteredKept(s: State, a: Action, c: nat)
    requires ConnectionsSound(s) && Enabled(s, a) && c in Step(s, a).registered
    ensures var s' := Step(s, a); c in s'.closed || exists r :: r in s'.runtimes && c in s'.runtimes[r].connections
  {
    if c in s.registered && c !in s.closed {
      var r :| r in s.runtimes && c in s.runtimes[r].connections;
      ConnectionStays(s, a, r, c);
    } else {
      NewlyRegistered(s, a, c);
    }
  }

  /** A connection leaves its runtime only by being closed. */
  lemma ConnectionStays(s: State, a: Action, r: nat, c: nat)
    requires Enabled(s, a) && r in s.runtimes && c in s.runtimes[r].connections
    ensures var s' := Step(s, a); r in s'.runtimes && (c in s'.closed || c in s'.runtimes[r].connections)
  {
  }

  lemma NewlyRegistered(s: State, a: Action, c: nat)
    requires Enabled(s, a) && c in Step(s, a).registered && (c in s.registered ==> c in s.closed)
    ensures var s' := Step(s, a); c in s'.closed || exists r :: r in s'.runtimes && c in s'.runtimes[r].connections
  {
    if a.Register? {
      assert a.connection in Step(s, a).closed || a.connection in Step(s, a).runtimes[a.runtime].connections;
    }
  }

  // ---------- runs ----------

  predicate IsRun(actions: seq<Action>, states: seq<State>) {
    && |states| == |actions| + 1
    && states[0] == INITIAL
    && forall i :: 0 <= i < |actions| ==> Enabled(states[i], actions[i]) && states[i + 1] == Step(states[i], actions[i])
  }

  lemma {:induction false} RunSound(actions: seq<Action>, states: seq<State>, i: nat)
    requires IsRun(actions, states) && i < |states|
    ensures Sound(states[i])
  {
    if i > 0 {
      var s, a := states[i - 1], actions[i - 1];
      RunSound(actions, states, i - 1);
      GateKept(s, a);
      LocksKept(s, a);
      CloseKept(s, a);
      ConnectionsKept(s, a);
    }
  }

  /** One step after the closing mark activates nothing and never withdraws the mark. */
  lemma NoActivation(s: State, a: Action, r: nat)
    requires GateSound(s) && Enabled(s, a) && s.closing
    ensures Step(s, a).closing && (ActiveIn(Step(s, a), r) ==> ActiveIn(s, r))
  {
    assert a.FinishStart? ==> !InStart(At(s, a.t));
  }

  /** Over every interleaving: from the moment closing is set, no runtime becomes active. */
  lemma {:induction false} ClosingIsFinal(actions: seq<Action>, states: seq<State>, i: nat, j: nat, r: nat)
    requires IsRun(actions, states) && i <= j < |states| && states[i].closing
    ensures states[j].closing && (ActiveIn(states[j], r) ==> ActiveIn(states[i], r))
  {
    if i < j {
      ClosingIsFinal(actions, states, i, j - 1, r);
      RunSound(actions, states, j - 1);
      NoActivation(states[j - 1], actions[j - 1], r);
    }
  }

  /** After closeRuntimes has returned once, every mapped runtime is inactive, for good. */
  lemma ClosedMeansInactive(actions: seq<Action>, states: seq<State>, i: nat, c: nat)
    requires IsRun(actions, states) && i < |states| && states[i].finished && c in states[i].mapped
    ensures !ActiveIn(states[i], states[i].mapped[c])
  {
    RunSound(actions, states, i);
  }

  /**
   A connection is refused and closed at registration, or it is registered; and whenever a runtime is inactive and
   nobody is at work on it, every connection it ever registered has been closed or has finished.
   */
  lemma NoConnectionEscapes(actions: seq<Action>, states: seq<State>, i: nat, r: nat)
    requires IsRun(actions, states) && i < |states| && r in states[i].runtimes
    ensures !states[i].runtimes[r].active && states[i].runtimes[r].holder.None? ==>
              states[i].runtimes[r].connections <= states[i].closed
    ensures forall c :: c in states[i].registered && c !in states[i].closed ==>
              exists x :: x in states[i].runtimes && c in states[i].runtimes[x].connections
    ensures i < |actions| && actions[i].Register? && actions[i].runtime == r && !states[i].runtimes[r].active ==>
              actions[i].connection in states[i + 1].closed
  {
    RunSound(actions, states, i);
  }

  /** The snapshot a stop takes is every unfinished connection of its runtime. */
  lemma SnapshotIsComplete(actions: seq<Action>, states: seq<State>, i: nat)
    requires IsRun(actions, states) && i < |actions| && actions[i].Snapshot?
    ensures var r := At(states[i], actions[i].t).runtime;
            && r in states[i].runtimes && r in states[i + 1].runtimes && !states[i + 1].runtimes[r].active
            && AboutToClose(states[i + 1], r) == states[i].runtimes[r].connections
  {
    RunSound(actions, states, i);
    RunSound(actions, states, i + 1);
    var s, t := states[i], actions[i].t;
    assert Holds(At(s, t), At(s, t).runtime);
  }
}
