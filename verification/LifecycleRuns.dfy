/** What holds in every run of one container. */
module LifecycleRuns {
  import opened Basics
  import opened StatePatches
  import opened Lifecycle

  // ---------- the lifecycle invariant ----------

  /** Every flag is the function of the status that Docker documents. */
  predicate FlagsMatchStatus(l: Life) {
    && KnownStatus(l.status)
    && l.running == RunningIn(l.status)
    && l.paused == l.status.Paused?
    && l.restarting == l.status.Restarting?
    && l.dead == l.status.Dead?
  }

  predicate HasProcess(s: Status) {
    s.Running? || s.Paused?
  }

  predicate Sound(l: Life) {
    && FlagsMatchStatus(l)
    && (l.pid != 0 <==> HasProcess(l.status))
    && l.restartCount >= 0
    && |l.health.log| <= 5
    && KnownHealth(l.health.status)
  }

  predicate ScenarioAccepted(cfg: Config) {
    && ValidatePatch(cfg.initial, false).Ok?
    && forall k :: 0 <= k < |cfg.transitions| ==> ValidatePatch(cfg.transitions[k].patch, false).Ok?
  }

  /** Response patches come from an accepted cookbook. */
  predicate OpAccepted(op: Op) {
    op.ApplyPatch? ==> Accepted(op.patch)
  }

  predicate OpsAccepted(h: History) {
    forall i :: 0 <= i < |h| ==> OpAccepted(h[i].op)
  }

  /** The table and the operations may be anything at all: flags never drift from the status. */
  lemma StepKeepsFlags(cfg: Config, s: State, op: Op, newPid: nat)
    requires FlagsMatchStatus(s.life) && Step(cfg, s, op, newPid).Some?
    ensures FlagsMatchStatus(Step(cfg, s, op, newPid).value.life)
  {
  }

  predicate SafePatch(p: Patch) {
    && (p.status.Some? ==> AllowedStatus(p.status.value))
    && (p.health.Some? ==> KnownHealth(p.health.value))
    && (p.restartCount.Some? ==> p.restartCount.value >= 0)
    && p.restartCountDelta >= 0
  }

  lemma SafePatchKeepsSound(l: Life, p: Patch, newPid: nat)
    requires Sound(l) && SafePatch(p) && newPid > 0
    ensures Sound(PatchedLife(l, p, newPid))
  {
  }

  lemma StepKeepsSound(cfg: Config, s: State, op: Op, newPid: nat)
    requires Sound(s.life) && ScenarioAccepted(cfg) && OpAccepted(op) && newPid > 0
    ensures Step(cfg, s, op, newPid).Some? && Sound(Step(cfg, s, op, newPid).value.life)
  {
    match op
    case Start => SafePatchKeepsSound(s.life, StartPatch(cfg, s.budget.startCount), newPid);
    case Stop(exitCode) => SafePatchKeepsSound(s.life, StopPatch(exitCode), newPid);
    case Kill => SafePatchKeepsSound(s.life, KILL_PATCH, newPid);
    case Restart => SafePatchKeepsSound(s.life, RESTART_PATCH, newPid);
    case ApplyPatch(p) => SafePatchKeepsSound(s.life, p, newPid);
    case BindFailed(message) => SafePatchKeepsSound(s.life, BindFailurePatch(message), newPid);
    case Advance(e) =>
      var k := Fired(cfg, s, e);
      if k.Some? {
        SafePatchKeepsSound(s.life, cfg.transitions[k.value].patch, newPid);
      }
    case _ =>
  }

  lemma {:induction false} PrefixIsRun(cfg: Config, h: History, n: nat)
    requires IsRun(cfg, h) && n <= |h|
    ensures IsRun(cfg, h[..n])
  {
    if n == |h| {
      assert h[..n] == h;
    } else {
      PrefixIsRun(cfg, h[..|h| - 1], n);
      assert h[..|h| - 1][..n] == h[..n];
    }
  }

  /** What a run says about its entry i. */
  lemma EntryOfRun(cfg: Config, h: History, i: nat)
    requires IsRun(cfg, h) && i < |h|
    ensures IsRun(cfg, h[..i])
    ensures h[i].before == Final(h[..i]) && h[i].newPid > 0
    ensures Step(cfg, h[i].before, h[i].op, h[i].newPid) == Some(h[i].after)
  {
    PrefixIsRun(cfg, h, i + 1);
    assert h[..i + 1][..i] == h[..i];
  }

  /** Whatever is done to a container with an accepted scenario, the next operation cannot panic. */
  lemma {:induction false} LifecycleInvariant(cfg: Config, h: History, next: Op, newPid: nat)
    requires IsRun(cfg, h) && ScenarioAccepted(cfg) && OpsAccepted(h)
    requires OpAccepted(next) && newPid > 0
    ensures Sound(Final(h).life)
    ensures Step(cfg, Final(h), next, newPid).Some?
  {
    if h != [] {
      var prior, e := h[..|h| - 1], h[|h| - 1];
      assert OpsAccepted(prior) && OpAccepted(e.op);
      LifecycleInvariant(cfg, prior, e.op, e.newPid);
      StepKeepsSound(cfg, e.before, e.op, e.newPid);
    }
    StepKeepsSound(cfg, Final(h), next, newPid);
  }

  // ---------- the validator and canonicalisation ----------

  predicate FlagsKept(l: Life, p: Patch) {
    var r := PatchedLife(l, p, 1);
    && (p.running.Some? ==> r.running == p.running.value)
    && (p.restarting.Some? ==> r.restarting == p.restarting.value)
    && (p.dead.Some? ==> r.dead == p.dead.value)
  }

  function LifeIn(s: Status): Life {
    Life(s, RunningIn(s), s.Paused?, s.Restarting?, s.Dead?, 0, 0, "", 0, HealthState(NoHealth, 0, []))
  }

  /**
   The flag rules of the validator are exactly right: a patch with legal values is accepted
   if and only if canonicalisation overrides no flag it sets, in any state it may meet.
   */
  lemma AcceptedIffFlagsKept(p: Patch)
    requires ValuesInRange(p)
    ensures Accepted(p) <==> forall l | FlagsMatchStatus(l) :: FlagsKept(l, p)
  {
    if !Accepted(p) {
      assert FlagsMatchStatus(LifeIn(Created)) && FlagsMatchStatus(LifeIn(Running));
      assert FlagsMatchStatus(LifeIn(Restarting)) && FlagsMatchStatus(LifeIn(Dead));
      assert !FlagsKept(LifeIn(Created), p) || !FlagsKept(LifeIn(Running), p) ||
             !FlagsKept(LifeIn(Restarting), p) || !FlagsKept(LifeIn(Dead), p);
    }
  }

  /** Without the validator the process-number invariant is lost: `paused` is not a cookbook status. */
  lemma PausedPatchBreaksPid()
    ensures var p := EMPTY_PATCH.(status := Some(Paused));
            !Accepted(p) && Sound(NEW_STATE.life) && !Sound(PatchedLife(NEW_STATE.life, p, 1001))
  {
  }

  predicate PidFits(l: Life) {
    l.pid != 0 <==> HasProcess(l.status)
  }

  /** The status `paused` is all there is to ban: any other patch keeps process number and status together, in every state. */
  lemma PausedPatchExact(p: Patch, newPid: nat)
    requires KnownStatus(p.status.GetOr(Created)) && newPid > 0
    ensures p.status != Some(Paused) <==> forall l | Sound(l) :: PidFits(PatchedLife(l, p, newPid))
  {
    if p.status == Some(Paused) {
      assert Sound(NEW_STATE.life) && !PidFits(PatchedLife(NEW_STATE.life, p, newPid));
    }
  }

  // ---------- what each operation leaves behind ----------

  predicate KeepsRecord(l: Life, l': Life) {
    l'.error == l.error && l'.restartCount == l.restartCount && l'.health == l.health
  }

  /** The status, exit code and record that a stop, an effective kill, a restart and a failed bind report. */
  lemma OperationOutcome(cfg: Config, s: State, op: Op, newPid: nat)
    requires Step(cfg, s, op, newPid).Some?
    ensures var l, l' := s.life, Step(cfg, s, op, newPid).value.life;
            && (op.Stop? ==> l'.status.Exited? && l'.exitCode == op.exitCode && KeepsRecord(l, l'))
            && (op.Kill? && CanKill(s) ==> l'.status.Exited? && l'.exitCode == 137 && KeepsRecord(l, l'))
            && (op.Kill? && !CanKill(s) ==> l' == l)
            && (op.Restart? ==>
                  && l'.status.Restarting? && l'.exitCode == 0 && l'.error == l.error
                  && l'.restartCount == l.restartCount + 1 && l'.health.status.Starting?)
            && (op.BindFailed? ==>
                  l'.status.Exited? && l'.exitCode == 128 && l'.error == op.message && l'.health.status.Unhealthy?)
  {
  }

  /** The first start applies the whole initial state; later ones restore the service but keep the restart count. */
  lemma StartOutcome(cfg: Config, s: State, newPid: nat)
    requires Step(cfg, s, Start, newPid).Some?
    ensures var p, l, t := cfg.initial, s.life, Step(cfg, s, Start, newPid).value;
            && t.budget.startCount == s.budget.startCount + 1
            && t.life.status == p.status.GetOr(Running) && t.life.health.status == p.health.GetOr(l.health.status)
            && if s.budget.startCount == 0 then
                 && t.life.exitCode == p.exitCode.GetOr(0) && t.life.error == p.error.GetOr(l.error)
                 && t.life.restartCount == p.restartCount.GetOr(l.restartCount) + p.restartCountDelta
               else
                 t.life.exitCode == 0 && t.life.error == "" && t.life.restartCount == l.restartCount
  {
  }

  // ---------- the restart budget ----------

  predicate ExplicitStart(op: Op) {
    op.Start? || op.Restart?
  }

  /** A not-Running to Running edge made by an event. */
  predicate AutomaticEdge(e: Entry) {
    e.op.Advance? && !e.before.life.running && e.after.life.running
  }

  /** Automatic edges since the last explicit start or restart, read off the history alone. */
  function AutomaticEdges(h: History): nat {
    if h == [] then 0
    else
      var prior, e := h[..|h| - 1], h[|h| - 1];
      if ExplicitStart(e.op) then 0
      else AutomaticEdges(prior) + if AutomaticEdge(e) then 1 else 0
  }

  /** A stop, or a kill that took effect, with no explicit start or restart after it. */
  predicate StoppedByHand(h: History) {
    h != [] &&
    var prior, e := h[..|h| - 1], h[|h| - 1];
    !ExplicitStart(e.op) && (e.op.Stop? || (e.op.Kill? && CanKill(e.before)) || StoppedByHand(prior))
  }

  /** How one step moves the budget, the manual-stop mark and the removed mark. */
  lemma StepBudget(cfg: Config, e: Entry)
    requires FlagsMatchStatus(e.before.life)
    requires Step(cfg, e.before, e.op, e.newPid) == Some(e.after)
    ensures ExplicitStart(e.op) ==> e.after.budget.automaticRestarts == 0 && !e.after.budget.manuallyStopped
    ensures !ExplicitStart(e.op) ==>
              e.after.budget.automaticRestarts == e.before.budget.automaticRestarts + if AutomaticEdge(e) then 1 else 0
    ensures !ExplicitStart(e.op) ==>
              e.after.budget.manuallyStopped == (e.before.budget.manuallyStopped || e.op.Stop? || (e.op.Kill? && CanKill(e.before)))
    ensures AutomaticEdge(e) ==> AutomaticRestartAllowed(cfg, e.before.life, e.before.budget)
  {
    if e.op.Advance? && Fired(cfg, e.before, e.op.event).Some? {
      var k := Fired(cfg, e.before, e.op.event).value;
      assert Eligible(cfg, Counted(e.before, e.op.event), e.op.event, k);
    }
  }

  lemma {:induction false} RunFlags(cfg: Config, h: History)
    requires IsRun(cfg, h)
    ensures FlagsMatchStatus(Final(h).life)
  {
    if h != [] {
      var e := h[|h| - 1];
      RunFlags(cfg, h[..|h| - 1]);
      StepKeepsFlags(cfg, e.before, e.op, e.newPid);
    }
  }

  /** The counter is the number of automatic edges, and the policy bounds it. */
  lemma {:induction false} RestartBudget(cfg: Config, h: History)
    requires IsRun(cfg, h)
    ensures Final(h).budget.automaticRestarts == AutomaticEdges(h)
    ensures Final(h).budget.manuallyStopped == StoppedByHand(h)
    ensures cfg.policy.OnFailure? && cfg.maximumRetryCount > 0 ==> AutomaticEdges(h) <= cfg.maximumRetryCount
    ensures !(cfg.policy.Always? || cfg.policy.UnlessStopped? || cfg.policy.OnFailure?) ==> AutomaticEdges(h) == 0
  {
    if h != [] {
      var prior, e := h[..|h| - 1], h[|h| - 1];
      RestartBudget(cfg, prior);
      RunFlags(cfg, prior);
      StepBudget(cfg, e);
    }
  }

  /** Every automatic restart happens to an exited, once-started, unremoved container that nobody stopped by hand. */
  lemma AutomaticEdgeCause(cfg: Config, h: History, i: nat)
    requires IsRun(cfg, h) && i < |h| && AutomaticEdge(h[i])
    ensures !StoppedByHand(h[..i])
    ensures h[i].before.life.status.Exited? && h[i].before.budget.startCount > 0 && !h[i].before.budget.removed
    ensures cfg.policy.Always? || cfg.policy.UnlessStopped? || (cfg.policy.OnFailure? && h[i].before.life.exitCode != 0)
  {
    EntryOfRun(cfg, h, i);
    RestartBudget(cfg, h[..i]);
    RunFlags(cfg, h[..i]);
    StepBudget(cfg, h[i]);
  }

  /** No automatic restart between a manual stop or kill and the next explicit start. */
  lemma {:induction false} ManualStopHolds(cfg: Config, h: History, i: nat, j: nat)
    requires IsRun(cfg, h) && i < j < |h|
    requires h[i].op.Stop? || (h[i].op.Kill? && CanKill(h[i].before))
    requires forall k :: i < k < j ==> !ExplicitStart(h[k].op)
    ensures !AutomaticEdge(h[j])
  {
    StillStopped(h, i, j);
    if AutomaticEdge(h[j]) {
      AutomaticEdgeCause(cfg, h, j);
    }
  }

  lemma {:induction false} StillStopped(h: History, i: nat, j: nat)
    requires i < j <= |h|
    requires h[i].op.Stop? || (h[i].op.Kill? && CanKill(h[i].before))
    requires forall k :: i < k < j ==> !ExplicitStart(h[k].op)
    ensures StoppedByHand(h[..j])
    decreases j
  {
    assert h[..j][..j - 1] == h[..j - 1];
    if i < j - 1 {
      StillStopped(h, i, j - 1);
    }
  }

  // ---------- transitions and counters ----------

  function EventsIn(h: History, e: Event): nat {
    if h == [] then 0
    else EventsIn(h[..|h| - 1], e) + if h[|h| - 1].op == Advance(e) then 1 else 0
  }

  /** Only events move the counters and only a fired once-row joins the applied set. */
  lemma StepCounters(cfg: Config, e: Entry)
    requires Step(cfg, e.before, e.op, e.newPid) == Some(e.after)
    ensures e.op.Advance? ==> e.after.progress.counters == Counted(e.before, e.op.event).progress.counters
    ensures !e.op.Advance? ==> e.after.progress.counters == e.before.progress.counters
    ensures e.op.Advance? && Fired(cfg, e.before, e.op.event).Some? ==>
              var k := Fired(cfg, e.before, e.op.event).value;
              e.after.progress.applied == e.before.progress.applied + if cfg.transitions[k].once then {k} else {}
    ensures !(e.op.Advance? && Fired(cfg, e.before, e.op.event).Some?) ==> e.after.progress.applied == e.before.progress.applied
  {
  }

  /** Each counter is the number of its events; the shared one also counts inspects and lists. */
  lemma {:induction false} CountersCountEvents(cfg: Config, h: History, e: Event)
    requires IsRun(cfg, h)
    ensures CountOf(Final(h).progress.counters, e) ==
            EventsIn(h, e) + if e.DockerObserve? then EventsIn(h, DockerInspect) + EventsIn(h, DockerList) else 0
  {
    if h != [] {
      CountersCountEvents(cfg, h[..|h| - 1], e);
      StepCounters(cfg, h[|h| - 1]);
    }
  }

  /** Entry i fired row k of the table. */
  predicate FiredAt(cfg: Config, h: History, i: nat, k: nat)
    requires i < |h|
  {
    h[i].op.Advance? && Fired(cfg, h[i].before, h[i].op.event) == Some(k)
  }

  lemma StepMonotone(cfg: Config, e: Entry, event: Event)
    requires Step(cfg, e.before, e.op, e.newPid) == Some(e.after)
    ensures CountOf(e.before.progress.counters, event) <= CountOf(e.after.progress.counters, event)
    ensures e.before.progress.applied <= e.after.progress.applied
  {
    StepCounters(cfg, e);
  }

  lemma {:induction false} RunMonotone(cfg: Config, h: History, i: nat, j: nat, event: Event)
    requires IsRun(cfg, h) && i < j < |h|
    ensures CountOf(h[i].after.progress.counters, event) <= CountOf(h[j].before.progress.counters, event)
    ensures h[i].after.progress.applied <= h[j].before.progress.applied
    decreases j
  {
    EntryOfRun(cfg, h, j);
    if i < j - 1 {
      RunMonotone(cfg, h, i, j - 1, event);
      EntryOfRun(cfg, h, j - 1);
      StepMonotone(cfg, h[j - 1], event);
    }
  }

  /** In a whole run a once-row, and a row with a positive Count, fires at most once. */
  lemma RowFiresAtMostOnce(cfg: Config, h: History, i: nat, j: nat, k: nat)
    requires IsRun(cfg, h) && i < j < |h| && k < |cfg.transitions|
    requires FiredAt(cfg, h, i, k) && FiredAt(cfg, h, j, k)
    ensures !cfg.transitions[k].once && cfg.transitions[k].count <= 0
  {
    var t := cfg.transitions[k];
    var key := if t.event.DockerObserve? then DockerObserve else t.event;
    RunMonotone(cfg, h, i, j, key);
    EntryOfRun(cfg, h, i);
    StepCounters(cfg, h[i]);
    assert Eligible(cfg, Counted(h[i].before, h[i].op.event), h[i].op.event, k);
    assert Eligible(cfg, Counted(h[j].before, h[j].op.event), h[j].op.event, k);
  }

  /** An event that fires a row leaves exactly that row's patch behind, and no earlier row could have fired. */
  lemma OneEdgePerEvent(cfg: Config, s: State, e: Event, newPid: nat)
    requires Advanced(cfg, s, e, newPid).Some? && Fired(cfg, s, e).Some?
    ensures var k := Fired(cfg, s, e).value;
            && Eligible(cfg, Counted(s, e), e, k)
            && (forall j :: 0 <= j < k ==> !Eligible(cfg, Counted(s, e), e, j))
            && Advanced(cfg, s, e, newPid).value.life == PatchedLife(s.life, cfg.transitions[k].patch, newPid)
  {
  }
}
