/** The container object: its fields change in place, as `Lifecycle.Step` says. */
module Containers {
  import opened Basics
  import opened StatePatches
  import opened Lifecycle
  import opened LifecycleRuns
  import opened WaitRuns

  /** The process-wide counter behind synthetic process numbers. */
  class PidCounter {
    var last: nat

    constructor ()
      ensures last == 0
    {
      last := 0;
    }

    method Add() returns (n: nat)
      modifies this
      ensures n == last == old(last) + 1
    {
      last := last + 1;
      n := last;
    }
  }

  lemma StepKeepsValid(cfg: Config, s: State, op: Op, newPid: nat)
    requires Sound(s.life) && WaitsSound(s) && ScenarioAccepted(cfg) && OpAccepted(op) && newPid > 0
    ensures var t := Step(cfg, s, op, newPid);
            t.Some? && Sound(t.value.life) && WaitsSound(t.value)
  {
    StepKeepsSound(cfg, s, op, newPid);
    StepKeepsWaits(cfg, Entry(op, newPid, s, Step(cfg, s, op, newPid).value));
  }

  lemma RowStatusKnown(cfg: Config, from: Status)
    requires ScenarioAccepted(cfg) && KnownStatus(from)
    ensures forall k :: 0 <= k < |cfg.transitions| ==> KnownStatus(cfg.transitions[k].patch.status.GetOr(from))
  {
  }

  predicate CopiedLife(l: Life, p: Patch, l': Life) {
    && l'.status == p.status.GetOr(l.status) && FlagsMatchStatus(l')
    && l'.exitCode == p.exitCode.GetOr(l.exitCode) && l'.error == p.error.GetOr(l.error)
    && l'.restartCount == p.restartCount.GetOr(l.restartCount) + p.restartCountDelta
  }

  /** Copying, settling the process number and logging health add up to the patched state. */
  lemma PatchedAs(s: State, p: Patch, newPid: nat, t: State)
    requires KnownStatus(p.status.GetOr(s.life.status))
    requires CopiedLife(s.life, p, t.life)
    requires t.life.pid == PidAfter(s.life, t.life.status, newPid)
    requires t.life.health == HealthAfter(s.life.health, p.health.GetOr(s.life.health.status))
    requires t.budget == s.budget && t.progress == s.progress
    requires t.waits == WaitsAfter(s, t.life)
    ensures Some(t) == Patched(s, p, newPid)
  {
  }

  lemma AdvancedAs(cfg: Config, s: State, event: Event, newPid: nat, fired: Option<nat>)
    requires fired == Fired(cfg, s, event)
    ensures Advanced(cfg, s, event, newPid) ==
            if fired.None? then Some(Counted(s, event)) else FireRow(cfg, Counted(s, event), fired.value, newPid)
    ensures Draws(cfg, s, Advance(event)) <==>
            fired.Some? && DrawsPid(s.life, cfg.transitions[fired.value].patch.status.GetOr(s.life.status))
  {
  }

  lemma StartedAs(cfg: Config, s: State, newPid: nat, t: State)
    requires Patched(Reopened(s), StartPatch(cfg, s.budget.startCount), newPid) == Some(t)
    ensures Started(cfg, s, newPid) == Some(t.(budget := t.budget.(startCount := s.budget.startCount + 1)))
    ensures t.budget.startCount == s.budget.startCount
  {
  }

  lemma StartStatusKnown(cfg: Config, s: State)
    requires Step(cfg, s, Start, 1).Some?
    ensures KnownStatus(StartPatch(cfg, s.budget.startCount).status.GetOr(s.life.status))
  {
  }

  lemma UnpauseStep(cfg: Config, s: State)
    requires Sound(s.life)
    ensures Step(cfg, s, Unpause, 0) == Some(s.(life := UnpausedLife(s.life))) && Sound(UnpausedLife(s.life))
  {
  }

  class Container {
    const cfg: Config
    const pids: PidCounter

    var status: Status
    var running: bool
    var paused: bool
    var restarting: bool
    var dead: bool
    var pid: nat
    var exitCode: int
    var error: string
    var restartCount: int
    var health: HealthState
    var manuallyStopped: bool
    var automaticRestarts: nat
    var startCount: nat
    var removed: bool
    var counters: map<Event, nat>
    var applied: set<nat>
    var waiters: map<nat, Condition>
    var inbox: map<nat, WaitResult>
    var nextWaiter: nat

    function LifeNow(): Life
      reads this
    {
      Life(status, running, paused, restarting, dead, pid, exitCode, error, restartCount, health)
    }

    function Now(): State
      reads this
    {
      State(
        LifeNow(),
        Budget(manuallyStopped, automaticRestarts, startCount, removed),
        Progress(counters, applied),
        Waits(waiters, inbox, nextWaiter))
    }

    ghost predicate Valid()
      reads this
    {
      Sound(LifeNow()) && WaitsSound(Now()) && ScenarioAccepted(cfg)
    }

    /** The process number the next draw would give. */
    function NextPid(): nat
      reads pids
    {
      1001 + pids.last
    }

    constructor (cfg: Config, pids: PidCounter)
      ensures this.cfg == cfg && this.pids == pids
      ensures Now() == NEW_STATE
      ensures ScenarioAccepted(cfg) ==> Valid()
    {
      this.cfg, this.pids := cfg, pids;
      status, running, paused, restarting, dead := Created, false, false, false, false;
      pid, exitCode, error, restartCount := 0, 0, "", 0;
      health := HealthState(NoHealth, 0, []);
      manuallyStopped, automaticRestarts, startCount, removed := false, 0, 0, false;
      counters, applied := map[], {};
      waiters, inbox, nextWaiter := map[], map[], 0;
    }

    // ---------- waiting ----------

    /** A send on a capacity-1 channel; it would block on a full one. */
    method Send(w: nat, r: WaitResult)
      requires w !in inbox
      modifies this`inbox
      ensures inbox == old(inbox)[w := r]
    {
      inbox := inbox[w := r];
    }

    method NotifyWaiters(removal: bool)
      requires forall w :: w in waiters ==> w !in inbox
      modifies this`waiters, this`inbox
      ensures Waits(waiters, inbox, nextWaiter) ==
              Notified(old(Waits(waiters, inbox, nextWaiter)), ResultOf(LifeNow()), removal)
    {
      ghost var all, sent := waiters, inbox;
      ghost var answered := Answered(all, removal);
      var result := ResultOf(LifeNow());
      var pending := waiters.Keys;
      while pending != {}
        invariant pending <= all.Keys
        invariant waiters.Keys == all.Keys - (answered - pending)
        invariant forall w :: w in waiters ==> waiters[w] == all[w]
        invariant inbox.Keys == sent.Keys + (answered - pending)
        invariant forall w :: w in inbox ==> inbox[w] == if w in answered then result else sent[w]
        decreases pending
      {
        var w :| w in pending;
        pending := pending - {w};
        if removal || waiters[w] != WhenRemoved {
          Send(w, result);
          waiters := waiters - {w};
        }
      }
      assert waiters == all - answered;
      assert inbox == sent + map w | w in answered :: result;
    }

    method SubscribeWait(condition: Condition) returns (w: nat)
      requires WaitsSound(Now())
      modifies this
      ensures Some(Now()) == Step(cfg, old(Now()), Subscribe(condition), 0)
      ensures w == old(nextWaiter)
      ensures WaitsSound(Now())
    {
      w := nextWaiter;
      nextWaiter := nextWaiter + 1;
      if removed || (condition == NotRunning && !running) {
        Send(w, ResultOf(LifeNow()));
      } else {
        waiters := waiters[w := condition];
      }
    }

    method CancelWait(w: nat)
      requires WaitsSound(Now())
      modifies this
      ensures Some(Now()) == Step(cfg, old(Now()), Cancel(w), 0)
      ensures WaitsSound(Now())
    {
      waiters := waiters - {w};
    }

    method MarkAsRemoved()
      requires WaitsSound(Now())
      modifies this
      ensures Some(Now()) == Step(cfg, old(Now()), MarkRemoved, 0)
      ensures WaitsSound(Now()) && waiters == map[]
    {
      removed := true;
      NotifyWaiters(true);
      assert waiters == map[];
    }

    // ---------- patches ----------

    /** Fields present in the patch are copied, then every flag is recomputed from the status. */
    method CopyPatch(patch: Patch)
      requires KnownStatus(patch.status.GetOr(status))
      modifies this`status, this`running, this`paused, this`restarting, this`dead, this`health, this`exitCode, this`error
      modifies this`restartCount
      ensures CopiedLife(old(LifeNow()), patch, LifeNow())
      ensures health == old(health).(status := patch.health.GetOr(old(health).status))
    {
      status := patch.status.GetOr(status);
      running := patch.running.GetOr(running);
      restarting := patch.restarting.GetOr(restarting);
      dead := patch.dead.GetOr(dead);
      health := health.(status := patch.health.GetOr(health.status));
      exitCode := patch.exitCode.GetOr(exitCode);
      error := patch.error.GetOr(error);
      restartCount := patch.restartCount.GetOr(restartCount) + patch.restartCountDelta;
      RecomputeFlags();
    }

    /** Waiters hear of an exit before the process number and the health log are settled. */
    method CopyAndNotify(patch: Patch)
      requires KnownStatus(patch.status.GetOr(status))
      requires forall w :: w in waiters ==> w !in inbox
      modifies this`status, this`running, this`paused, this`restarting, this`dead, this`exitCode, this`error
      modifies this`restartCount, this`health, this`waiters, this`inbox
      ensures CopiedLife(old(LifeNow()), patch, LifeNow())
      ensures health == old(health).(status := patch.health.GetOr(old(health).status))
      ensures Waits(waiters, inbox, nextWaiter) == WaitsAfter(old(Now()), LifeNow())
    {
      var oldStatus, oldRunning := status, running;
      CopyPatch(patch);
      if oldRunning && status != oldStatus && (status.Exited? || status.Dead? || status.Restarting?) {
        NotifyWaiters(false);
      }
    }

    method RecomputeFlags()
      requires KnownStatus(status)
      modifies this`running, this`paused, this`restarting, this`dead
      ensures FlagsMatchStatus(LifeNow())
    {
      match status
      case Running => running, paused, restarting, dead := true, false, false, false;
      case Paused => running, paused, restarting, dead := true, true, false, false;
      case Restarting => running, paused, restarting, dead := true, false, true, false;
      case Created => running, paused, restarting, dead := false, false, false, false;
      case Exited => running, paused, restarting, dead := false, false, false, false;
      case Dead => running, paused, restarting, dead := false, false, false, true;
    }

    method LogHealth(oldHealth: Health)
      modifies this`health
      ensures health == HealthAfter(old(health).(status := oldHealth), old(health).status)
    {
      var to := health.status;
      if to != oldHealth && to != NoHealth {
        var code, streak := 0, health.failingStreak;
        if to.Unhealthy? {
          code, streak := 1, streak + 1;
        } else if to.Healthy? {
          streak := 0;
        }
        var log := health.log + [HealthEntry(code, to)];
        if |log| > 5 {
          log := log[|log| - 5..];
        }
        health := HealthState(to, streak, log);
      }
    }

    /** The precondition on the status is the program's panic. */
    method ApplyPatchLocked(patch: Patch)
      requires KnownStatus(patch.status.GetOr(status))
      requires forall w :: w in waiters ==> w !in inbox
      modifies this`status, this`running, this`paused, this`restarting, this`dead, this`pid, this`exitCode, this`error
      modifies this`restartCount, this`health, this`waiters, this`inbox, pids
      ensures Some(Now()) == Patched(old(Now()), patch, old(NextPid()))
      ensures pids.last == old(pids.last) + if DrawsPid(old(LifeNow()), status) then 1 else 0
    {
      ghost var before, n := Now(), NextPid();
      var oldStatus, oldHealth := status, health.status;
      CopyAndNotify(patch);
      SettleAndLog(oldStatus, oldHealth);
      PatchedAs(before, patch, n, Now());
    }

    method SettleAndLog(oldStatus: Status, oldHealth: Health)
      modifies this`pid, this`health, pids
      ensures pid == PidAfter(old(LifeNow()).(status := oldStatus), status, old(NextPid()))
      ensures pids.last == old(pids.last) + if DrawsPid(old(LifeNow()).(status := oldStatus), status) then 1 else 0
      ensures health == HealthAfter(old(health).(status := oldHealth), old(health).status)
    {
      SettlePid(oldStatus);
      LogHealth(oldHealth);
    }

    method SettlePid(oldStatus: Status)
      modifies this`pid, pids
      ensures pid == PidAfter(old(LifeNow()).(status := oldStatus), status, old(NextPid()))
      ensures pids.last == old(pids.last) + if DrawsPid(old(LifeNow()).(status := oldStatus), status) then 1 else 0
    {
      if status.Running? && !oldStatus.Running? {
        if pid == 0 {
          var n := pids.Add();
          pid := 1000 + n;
        }
      }
      if (status.Exited? || status.Dead?) && oldStatus != status {
        pid := 0;
      }
      if status.Restarting? && !oldStatus.Restarting? {
        pid := 0;
      }
      if status.Created? {
        pid := 0;
      }
    }

    // ---------- operations ----------

    method StartLocked()
      requires KnownStatus(StartPatch(cfg, startCount).status.GetOr(status)) && forall w :: w in waiters ==> w !in inbox
      modifies this, pids
      ensures Some(Now()) == Started(cfg, old(Now()), old(NextPid()))
      ensures pids.last == old(pids.last) + if DrawsPid(old(LifeNow()), status) then 1 else 0
    {
      ghost var s, n := Now(), NextPid();
      manuallyStopped := false;
      automaticRestarts := 0;
      ghost var cleared := Now();
      assert cleared == Reopened(s);
      var patch := StartPatch(cfg, startCount);
      ApplyPatchLocked(patch);
      ghost var applied := Now();
      startCount := startCount + 1;
      StartedAs(cfg, s, n, applied);
    }

    /** The first start applies the whole initial state; a later one keeps the restart count. */
    method DoStart()
      requires Valid()
      modifies this, pids
      ensures Valid() && Some(Now()) == Step(cfg, old(Now()), Start, old(NextPid()))
      ensures pids.last == old(pids.last) + if Draws(cfg, old(Now()), Start) then 1 else 0
      ensures startCount == old(startCount) + 1 && (old(startCount) > 0 ==> restartCount == old(restartCount) && exitCode == 0)
    {
      StepKeepsValid(cfg, Now(), Start, NextPid());
      StartOutcome(cfg, Now(), NextPid());
      StartStatusKnown(cfg, Now());
      StartLocked();
    }

    method DoStop(exitCode: int)
      requires Valid()
      modifies this, pids
      ensures Valid() && Some(Now()) == Step(cfg, old(Now()), Stop(exitCode), old(NextPid()))
      ensures pids.last == old(pids.last)
      ensures status.Exited? && this.exitCode == exitCode && restartCount == old(restartCount)
    {
      ghost var s, op := Now(), Stop(exitCode);
      StepKeepsValid(cfg, s, op, NextPid());
      OperationOutcome(cfg, s, op, NextPid());
      manuallyStopped := true;
      ApplyPatchLocked(StopPatch(exitCode));
    }

    method DoKill() returns (ok: bool)
      requires Valid()
      modifies this, pids
      ensures Valid() && Some(Now()) == Step(cfg, old(Now()), Kill, old(NextPid()))
      ensures pids.last == old(pids.last)
      ensures ok == CanKill(old(Now()))
      ensures ok ==> status.Exited? && exitCode == 137 && restartCount == old(restartCount)
    {
      if !running || dead || removed {
        return false;
      }
      ghost var s := Now();
      StepKeepsValid(cfg, s, Kill, NextPid());
      OperationOutcome(cfg, s, Kill, NextPid());
      manuallyStopped := true;
      ApplyPatchLocked(KILL_PATCH);
      ok := true;
    }

    method DoPause() returns (ok: bool)
      requires Valid()
      modifies this
      ensures Valid() && Some(Now()) == Step(cfg, old(Now()), Pause, 0)
      ensures ok <==> HasProcess(old(status))
      ensures ok ==> status.Paused? && pid == old(pid)
    {
      if !running || restarting || dead {
        return false;
      }
      ok := true;
      if !paused {
        status := Paused;
        paused := true;
      }
    }

    method DoUnpause() returns (ok: bool)
      requires Valid()
      modifies this
      ensures Valid() && Some(Now()) == Step(cfg, old(Now()), Unpause, 0)
      ensures ok <==> old(status).Paused?
      ensures ok ==> status.Running? && pid == old(pid)
    {
      if !paused {
        return false;
      }
      ghost var s := Now();
      UnpauseStep(cfg, s);
      ok := true;
      Resume();
      assert LifeNow() == UnpausedLife(s.life);
    }

    method Resume()
      modifies this`status, this`running, this`paused, this`restarting, this`dead
      ensures LifeNow() == old(LifeNow()).(status := Running, running := true, paused := false, restarting := false, dead := false)
    {
      status := Running;
      running, paused, restarting, dead := true, false, false, false;
    }

    method DoRestart()
      requires Valid()
      modifies this, pids
      ensures Valid() && Some(Now()) == Step(cfg, old(Now()), Restart, old(NextPid()))
      ensures pids.last == old(pids.last)
      ensures status.Restarting? && restartCount == old(restartCount) + 1 && health.status.Starting?
    {
      ghost var s := Now();
      StepKeepsValid(cfg, s, Restart, NextPid());
      OperationOutcome(cfg, s, Restart, NextPid());
      manuallyStopped := false;
      automaticRestarts := 0;
      ApplyPatchLocked(RESTART_PATCH);
    }

    method DoApplyPatch(patch: Patch)
      requires Valid() && Accepted(patch)
      modifies this, pids
      ensures Valid() && Some(Now()) == Step(cfg, old(Now()), ApplyPatch(patch), old(NextPid()))
      ensures pids.last == old(pids.last) + if Draws(cfg, old(Now()), ApplyPatch(patch)) then 1 else 0
    {
      ghost var s, op := Now(), ApplyPatch(patch);
      StepKeepsValid(cfg, s, op, NextPid());
      ApplyPatchLocked(patch);
    }

    method CountEvent(event: Event) returns (count: nat)
      modifies this`counters
      ensures counters == Tally(old(counters), event)
      ensures count == CountOf(old(counters), event) + 1
    {
      count := CountOf(counters, event) + 1;
      counters := counters[event := count];
      if IsObservation(event) {
        counters := counters[DockerObserve := CountOf(counters, DockerObserve) + 1];
      }
    }

    /** Fires row k, whose guards have held up to the restart policy. */
    method FireTransition(k: nat)
      requires k < |cfg.transitions| && forall w :: w in waiters ==> w !in inbox
      requires KnownStatus(cfg.transitions[k].patch.status.GetOr(status))
      modifies this, pids
      ensures Some(Now()) == FireRow(cfg, old(Now()), k, old(NextPid()))
      ensures pids.last == old(pids.last) + if DrawsPid(old(LifeNow()), status) then 1 else 0
    {
      var transition := cfg.transitions[k];
      if RestartsStopped(status, transition.patch) {
        automaticRestarts := automaticRestarts + 1;
      }
      ApplyPatchLocked(transition.patch);
      if transition.once {
        applied := applied + {k};
      }
    }

    /** The first row whose guards all hold, if any; `count` is the event's own counter. */
    method FindTransition(event: Event, count: nat) returns (found: Option<nat>)
      requires count == CountOf(counters, event)
      ensures found == FirstEligible(cfg, Now(), event, 0)
    {
      for k := 0 to |cfg.transitions|
        invariant FirstEligible(cfg, Now(), event, 0) == FirstEligible(cfg, Now(), event, k)
      {
        var eligible := GuardsHold(k, event, count);
        if eligible {
          return Some(k);
        }
      }
      found := None;
    }

    /** One event is counted, and fires at most one row of the table. */
    method AdvanceLocked(event: Event) returns (count: nat, fired: Option<nat>)
      requires forall w :: w in waiters ==> w !in inbox
      requires forall k :: 0 <= k < |cfg.transitions| ==> KnownStatus(cfg.transitions[k].patch.status.GetOr(status))
      modifies this, pids
      ensures Some(Now()) == Advanced(cfg, old(Now()), event, old(NextPid()))
      ensures count == CountOf(old(counters), event) + 1
      ensures fired == Fired(cfg, old(Now()), event)
      ensures pids.last == old(pids.last) + if Draws(cfg, old(Now()), Advance(event)) then 1 else 0
    {
      ghost var s, n := Now(), NextPid();
      count := CountEvent(event);
      ghost var counted := Now();
      assert counted == Counted(s, event);
      fired := FindTransition(event, count);
      AdvancedAs(cfg, s, event, n, fired);
      if fired.Some? {
        FireTransition(fired.value);
      }
    }

    method DoAdvance(event: Event) returns (count: nat, fired: Option<nat>)
      requires Valid()
      modifies this, pids
      ensures Valid() && Some(Now()) == Step(cfg, old(Now()), Advance(event), old(NextPid()))
      ensures count == CountOf(old(counters), event) + 1
      ensures fired == Fired(cfg, old(Now()), event)
      ensures fired.Some? ==> LifeNow() == PatchedLife(old(LifeNow()), cfg.transitions[fired.value].patch, old(NextPid()))
      ensures pids.last == old(pids.last) + if Draws(cfg, old(Now()), Advance(event)) then 1 else 0
    {
      StepKeepsValid(cfg, Now(), Advance(event), NextPid());
      if Fired(cfg, Now(), event).Some? {
        OneEdgePerEvent(cfg, Now(), event, NextPid());
      }
      RowStatusKnown(cfg, status);
      count, fired := AdvanceLocked(event);
    }

    /** The chain of `continue` tests; `count` is the event's own counter. */
    method GuardsHold(k: nat, event: Event, count: nat) returns (eligible: bool)
      requires k < |cfg.transitions| && count == CountOf(counters, event)
      ensures eligible == Eligible(cfg, Now(), event, k)
    {
      var transition := cfg.transitions[k];
      if transition.once && k in applied { return false; }
      if !EventMatches(transition.event, event) { return false; }
      var transitionCount := count;
      if transition.event.DockerObserve? { transitionCount := CountOf(counters, DockerObserve); }
      if transition.count > 0 && transition.count != transitionCount { return false; }
      if transition.whenStatus.Some? && transition.whenStatus.value != status { return false; }
      if transition.whenHealth.Some? && transition.whenHealth.value != health.status { return false; }
      if RestartsStopped(status, transition.patch) {
        return AutomaticRestartAllowed(cfg, Now().life, Now().budget);
      }
      eligible := true;
    }
  }
}
