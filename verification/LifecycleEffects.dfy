/**
 What each container operation and each event does, field by field and read off the history: no predicate that a step
 itself uses stands in these statements.
 */
module LifecycleEffects {
  import opened Basics
  import opened StatePatches
  import opened Lifecycle
  import opened LifecycleRuns
  import opened WaitRuns

  // ---------- reading the history ----------

  predicate RemovedIn(h: History) {
    exists i :: 0 <= i < |h| && h[i].op.MarkRemoved?
  }

  function Starts(h: History): nat {
    if h == [] then 0 else Starts(h[..|h| - 1]) + if h[|h| - 1].op.Start? then 1 else 0
  }

  /** The last of stop, effective kill, start and restart was a stop or a kill. */
  predicate HandStopped(h: History) {
    h != [] &&
    var prior, e := h[..|h| - 1], h[|h| - 1];
    if e.op.Start? || e.op.Restart? then false
    else
      || e.op.Stop?
      || (e.op.Kill? && e.before.life.running && !e.before.life.dead && !RemovedIn(prior))
      || HandStopped(prior)
  }

  /** Turns from not running to running that events made since the last start or restart. */
  function EventStarts(h: History): nat {
    if h == [] then 0
    else
      var prior, e := h[..|h| - 1], h[|h| - 1];
      if e.op.Start? || e.op.Restart? then 0
      else EventStarts(prior) + if e.op.Advance? && !e.before.life.running && e.after.life.running then 1 else 0
  }

  lemma RemovedLater(h: History)
    requires h != []
    ensures RemovedIn(h) <==> RemovedIn(h[..|h| - 1]) || h[|h| - 1].op.MarkRemoved?
  {
    var prior := h[..|h| - 1];
    if RemovedIn(h) {
      var i :| 0 <= i < |h| && h[i].op.MarkRemoved?;
      assert i < |prior| ==> prior[i].op.MarkRemoved?;
    }
    if RemovedIn(prior) {
      var i :| 0 <= i < |prior| && prior[i].op.MarkRemoved?;
      assert h[i].op.MarkRemoved?;
    }
    assert h[|h| - 1].op.MarkRemoved? ==> RemovedIn(h);
  }

  lemma StepMarks(cfg: Config, e: Entry)
    requires FlagsMatchStatus(e.before.life) && Step(cfg, e.before, e.op, e.newPid) == Some(e.after)
    ensures e.after.budget.removed <==> e.before.budget.removed || e.op.MarkRemoved?
    ensures e.after.budget.startCount == e.before.budget.startCount + if e.op.Start? then 1 else 0
    ensures e.op.Start? || e.op.Restart? ==> !e.after.budget.manuallyStopped && e.after.budget.automaticRestarts == 0
    ensures !(e.op.Start? || e.op.Restart?) ==>
              (e.after.budget.manuallyStopped <==>
                 || e.before.budget.manuallyStopped || e.op.Stop?
                 || (e.op.Kill? && e.before.life.running && !e.before.life.dead && !e.before.budget.removed))
  {
    StepWaits(cfg, e);
    StepBudget(cfg, e);
  }

  /** The marks a container keeps are what its history says. */
  lemma {:induction false} MarksAreHistory(cfg: Config, h: History)
    requires IsRun(cfg, h)
    ensures var b := Final(h).budget;
            && (b.removed <==> RemovedIn(h)) && b.startCount == Starts(h)
            && (b.manuallyStopped <==> HandStopped(h)) && b.automaticRestarts == EventStarts(h)
  {
    if h != [] {
      var prior, e := h[..|h| - 1], h[|h| - 1];
      MarksAreHistory(cfg, prior);
      RunFlags(cfg, prior);
      RemovedLater(h);
      StepMarks(cfg, e);
      StepBudget(cfg, e);
    }
  }

  // ---------- what a waiter hears ----------

  /** The result holds the exit code and error of this life. */
  predicate Tells(r: WaitResult, l: Life) {
    && r.statusCode == l.exitCode
    && (r.error.None? <==> l.error == "")
    && (r.error.Some? ==> r.error.value == l.error)
  }

  /** A running process ended. */
  predicate Ends(e: Entry) {
    e.before.life.running && e.after.life.status != e.before.life.status &&
    (e.after.life.status == Exited || e.after.life.status == Dead || e.after.life.status == Restarting)
  }

  predicate Hears(e: Entry, cond: Condition) {
    e.op == MarkRemoved || (cond != WhenRemoved && Ends(e))
  }

  /** Entry j is the first after i that waiter w hears of, and w was not cancelled before. */
  predicate HeardAt(h: History, i: nat, j: nat, w: nat, cond: Condition)
    requires i < j < |h|
  {
    Hears(h[j], cond) && forall k :: i < k < j ==> !Hears(h[k], cond) && h[k].op != Cancel(w)
  }

  lemma HearingIsSettling(e: Entry, cond: Condition)
    ensures Hears(e, cond) <==> Settles(e, cond)
  {
  }

  lemma HeardIsAnswered(h: History, i: nat, j: nat, w: nat, cond: Condition)
    requires i < j < |h|
    ensures HeardAt(h, i, j, w, cond) <==> FirstAnswer(h, i, j, w, cond)
  {
    HearingIsSettling(h[j], cond);
    forall k | i < k < j ensures Hears(h[k], cond) <==> Settles(h[k], cond) {
      HearingIsSettling(h[k], cond);
    }
  }

  /** The waiter subscribed at entry i is answered on the spot: removed already, or not running and only that is awaited. */
  predicate HeardAtOnce(h: History, i: nat)
    requires i < |h| && h[i].op.Subscribe?
  {
    RemovedIn(h[..i]) || (h[i].op.condition == NotRunning && !h[i].before.life.running)
  }

  /**
   Over every interleaving: a waiter answered on the spot holds the exit code and error of that moment; any other holds
   those of the first entry it hears of, if there is one, and else nothing.
   */
  lemma WaiterHears(cfg: Config, h: History, i: nat)
    requires IsRun(cfg, h) && i < |h| && h[i].op.Subscribe?
    ensures var w, cond, inbox := h[i].before.waits.next, h[i].op.condition, Final(h).waits.inbox;
            && (HeardAtOnce(h, i) ==> w in inbox && Tells(inbox[w], h[i].before.life))
            && (!HeardAtOnce(h, i) ==>
                  && (w in inbox <==> exists j :: i < j < |h| && HeardAt(h, i, j, w, cond))
                  && forall j :: i < j < |h| && HeardAt(h, i, j, w, cond) ==> w in inbox && Tells(inbox[w], h[j].after.life))
  {
    var w, cond, ws := h[i].before.waits.next, h[i].op.condition, Final(h).waits;
    EntryOfRun(cfg, h, i);
    MarksAreHistory(cfg, h[..i]);
    WaitDelivery(cfg, h, i);
    assert HeardAtOnce(h, i) <==> AnsweredAtOnce(h[i].before, cond);
    if !HeardAtOnce(h, i) {
      forall j | i < j < |h| && HeardAt(h, i, j, w, cond) ensures w in ws.inbox && Tells(ws.inbox[w], h[j].after.life) {
        HeardIsAnswered(h, i, j, w, cond);
        assert AnswerIs(h, i, w, cond, ResultOf(h[j].after.life));
      }
      if w in ws.inbox {
        var j :| i < j < |h| && FirstAnswer(h, i, j, w, cond) && ResultOf(h[j].after.life) == ws.inbox[w];
        HeardIsAnswered(h, i, j, w, cond);
      }
    }
  }

  // ---------- which row an event fires ----------

  /** Whether the policy lets an event restart the container now. */
  predicate PolicyAllows(cfg: Config, h: History) {
    var exitCode := Final(h).life.exitCode;
    match cfg.policy
    case Always => true
    case UnlessStopped => true
    case OnFailure => exitCode != 0 && (cfg.maximumRetryCount == 0 || EventStarts(h) < cfg.maximumRetryCount)
    case PolicyNo => false
    case OtherPolicy(_) => false
  }

  /** An event may restart an exited container: started once, there, not stopped by hand, and allowed by its policy. */
  predicate MayRestart(cfg: Config, h: History) {
    && Final(h).life.status == Exited
    && Starts(h) > 0 && !RemovedIn(h) && !HandStopped(h)
    && PolicyAllows(cfg, h)
  }

  /** The patch would start a container that is exited, created or dead. */
  predicate WouldRestart(from: Status, p: Patch) {
    && (from == Exited || from == Created || from == Dead)
    && (p.status == Some(Running) || p.status == Some(Restarting) || p.status == Some(Paused))
  }

  predicate MatchesEvent(pattern: Event, e: Event) {
    pattern == e || (pattern == DockerObserve && (e == DockerInspect || e == DockerList))
  }

  /** How many events the row's count is compared with, this one included. */
  function Occurrences(h: History, pattern: Event, e: Event): nat {
    1 + if pattern == DockerObserve
        then EventsIn(h, DockerObserve) + EventsIn(h, DockerInspect) + EventsIn(h, DockerList)
        else EventsIn(h, e)
  }

  /** Row k of the table may fire on event e after the history h. */
  predicate GuardsMet(cfg: Config, h: History, e: Event, k: nat)
    requires k < |cfg.transitions|
    decreases |h|, 1
  {
    var t, l := cfg.transitions[k], Final(h).life;
    && (t.once ==> !HasFired(cfg, h, k))
    && MatchesEvent(t.event, e)
    && (t.count > 0 ==> t.count == Occurrences(h, t.event, e))
    && (t.whenStatus.Some? ==> t.whenStatus.value == l.status)
    && (t.whenHealth.Some? ==> t.whenHealth.value == l.health.status)
    && (WouldRestart(l.status, t.patch) ==> MayRestart(cfg, h))
  }

  /** Row k is the first whose guards are met. */
  predicate FiresRow(cfg: Config, h: History, e: Event, k: nat)
    decreases |h|, 2
  {
    k < |cfg.transitions| && GuardsMet(cfg, h, e, k) && forall j :: 0 <= j < k ==> !GuardsMet(cfg, h, e, j)
  }

  /** Row k has fired somewhere in the history. */
  predicate HasFired(cfg: Config, h: History, k: nat)
    decreases |h|, 0
  {
    h != [] &&
    var prior, e := h[..|h| - 1], h[|h| - 1];
    (e.op.Advance? && FiresRow(cfg, prior, e.op.event, k)) || HasFired(cfg, prior, k)
  }

  lemma {:induction false} AppliedIsHistory(cfg: Config, h: History, k: nat)
    requires IsRun(cfg, h) && k < |cfg.transitions| && cfg.transitions[k].once
    ensures k in Final(h).progress.applied <==> HasFired(cfg, h, k)
    decreases |h|, 0
  {
    if h != [] {
      var prior, e := h[..|h| - 1], h[|h| - 1];
      AppliedIsHistory(cfg, prior, k);
      StepCounters(cfg, e);
      if e.op.Advance? {
        FiredIsFirst(cfg, prior, e.op.event, k);
      }
    }
  }

  lemma CountIsHistory(cfg: Config, h: History, e: Event, pattern: Event)
    requires IsRun(cfg, h) && MatchesEvent(pattern, e)
    ensures CountOf(Counted(Final(h), e).progress.counters, if pattern.DockerObserve? then DockerObserve else e) == Occurrences(h, pattern, e)
  {
    CountersCountEvents(cfg, h, DockerObserve);
    CountersCountEvents(cfg, h, e);
  }

  lemma PolicyIsHistory(cfg: Config, h: History)
    requires IsRun(cfg, h)
    ensures AutomaticRestartAllowed(cfg, Final(h).life, Final(h).budget) <==> MayRestart(cfg, h)
  {
    MarksAreHistory(cfg, h);
  }

  lemma {:induction false} GuardsAreHistory(cfg: Config, h: History, e: Event, k: nat)
    requires IsRun(cfg, h) && k < |cfg.transitions|
    ensures Eligible(cfg, Counted(Final(h), e), e, k) <==> GuardsMet(cfg, h, e, k)
    decreases |h|, 1
  {
    var t := cfg.transitions[k];
    if t.once {
      AppliedIsHistory(cfg, h, k);
    }
    if MatchesEvent(t.event, e) {
      CountIsHistory(cfg, h, e, t.event);
    }
    PolicyIsHistory(cfg, h);
  }

  lemma {:induction false} FiredIsFirst(cfg: Config, h: History, e: Event, k: nat)
    requires IsRun(cfg, h)
    ensures Fired(cfg, Final(h), e) == Some(k) <==> FiresRow(cfg, h, e, k)
    decreases |h|, 2
  {
    forall j: nat | j < |cfg.transitions| ensures Eligible(cfg, Counted(Final(h), e), e, j) <==> GuardsMet(cfg, h, e, j) {
      GuardsAreHistory(cfg, h, e, j);
    }
  }

  /**
   After every history an event fires exactly the first row whose guards, written out over the history, are met, and
   leaves that row's patch; without such a row it changes nothing about the process.
   */
  lemma EventFires(cfg: Config, h: History, e: Event, newPid: nat)
    requires IsRun(cfg, h) && Step(cfg, Final(h), Advance(e), newPid).Some?
    ensures var l := Step(cfg, Final(h), Advance(e), newPid).value.life;
            && (forall k: nat :: FiresRow(cfg, h, e, k) ==> PatchTaken(Final(h).life, cfg.transitions[k].patch, l))
            && ((forall k: nat :: k < |cfg.transitions| ==> !GuardsMet(cfg, h, e, k)) ==> l == Final(h).life)
  {
    var s := Final(h);
    forall k: nat | FiresRow(cfg, h, e, k) ensures PatchTaken(s.life, cfg.transitions[k].patch, Step(cfg, s, Advance(e), newPid).value.life) {
      FiredIsFirst(cfg, h, e, k);
      FiredLeaves(cfg, s, e, k, newPid);
    }
    if Fired(cfg, s, e).Some? {
      FiredIsFirst(cfg, h, e, Fired(cfg, s, e).value);
    } else {
      NothingFired(cfg, s, e, newPid);
    }
  }

  lemma FiredLeaves(cfg: Config, s: State, e: Event, k: nat, newPid: nat)
    requires Fired(cfg, s, e) == Some(k) && Step(cfg, s, Advance(e), newPid).Some?
    ensures PatchTaken(s.life, cfg.transitions[k].patch, Step(cfg, s, Advance(e), newPid).value.life)
  {
  }

  lemma NothingFired(cfg: Config, s: State, e: Event, newPid: nat)
    requires Fired(cfg, s, e) == None
    ensures Step(cfg, s, Advance(e), newPid).Some? && Step(cfg, s, Advance(e), newPid).value.life == s.life
  {
  }

  /** The restart policy, both ways: a row that would restart and whose other guards are met is blocked exactly by it. */
  lemma PolicyDecides(cfg: Config, h: History, e: Event, k: nat)
    requires IsRun(cfg, h) && k < |cfg.transitions| && WouldRestart(Final(h).life.status, cfg.transitions[k].patch)
    requires var t, l := cfg.transitions[k], Final(h).life;
             && !t.once && t.event == e && t.count <= 0 && t.whenStatus.None? && t.whenHealth.None?
             && forall j :: 0 <= j < k ==> !GuardsMet(cfg, h, e, j)
    ensures Fired(cfg, Final(h), e) == Some(k) <==> MayRestart(cfg, h)
  {
    FiredIsFirst(cfg, h, e, k);
  }

  // ---------- what a patch and each operation leave ----------

  /** Each field comes from the patch if it names it, and is kept otherwise. */
  predicate PatchTaken(l: Life, p: Patch, l': Life) {
    && l'.status == (if p.status.Some? then p.status.value else l.status)
    && l'.exitCode == (if p.exitCode.Some? then p.exitCode.value else l.exitCode)
    && l'.error == (if p.error.Some? then p.error.value else l.error)
    && l'.restartCount == (if p.restartCount.Some? then p.restartCount.value else l.restartCount) + p.restartCountDelta
    && l'.health.status == (if p.health.Some? then p.health.value else l.health.status)
  }

  lemma PatchEffect(cfg: Config, s: State, p: Patch, newPid: nat)
    requires Step(cfg, s, ApplyPatch(p), newPid).Some?
    ensures var t := Step(cfg, s, ApplyPatch(p), newPid).value;
            PatchTaken(s.life, p, t.life) && t.budget == s.budget && t.progress == s.progress
  {
  }

  /**
   A first start takes the scenario's initial state, running and with exit code zero where it says nothing; a later one
   restores its status and health and clears exit code and error.
   */
  lemma StartEffect(cfg: Config, h: History, newPid: nat)
    requires IsRun(cfg, h) && Step(cfg, Final(h), Start, newPid).Some?
    ensures var l, first := Final(h).life, Starts(h) == 0;
            var initial, t := cfg.initial, Step(cfg, Final(h), Start, newPid).value;
            && t.life.status == (if initial.status.Some? then initial.status.value else Running)
            && t.life.exitCode == (if first && initial.exitCode.Some? then initial.exitCode.value else 0)
            && t.life.error == (if !first then "" else if initial.error.Some? then initial.error.value else l.error)
            && t.life.health.status == (if initial.health.Some? then initial.health.value else l.health.status)
            && (!first ==> t.life.restartCount == l.restartCount)
            && t.budget.startCount == Starts(h) + 1 && t.progress == Final(h).progress
  {
    MarksAreHistory(cfg, h);
  }

  /** A stop leaves an exited container with the code given, a restart a restarting one, a failed bind an unhealthy one. */
  lemma StopRestartEffect(cfg: Config, s: State, exitCode: int, message: string, newPid: nat)
    ensures var t := Step(cfg, s, Stop(exitCode), newPid);
            && t.Some? && t.value.life.status == Exited && t.value.life.exitCode == exitCode && t.value.life.error == s.life.error
            && t.value.life.health == s.life.health && t.value.life.restartCount == s.life.restartCount
    ensures var t := Step(cfg, s, Restart, newPid);
            && t.Some? && t.value.life.status == Restarting && t.value.life.exitCode == 0 && t.value.life.error == s.life.error
            && t.value.life.health.status == Starting && t.value.life.restartCount == s.life.restartCount + 1
    ensures var t := Step(cfg, s, BindFailed(message), newPid);
            && t.Some? && t.value.life.status == Exited && t.value.life.exitCode == 128 && t.value.life.error == message
            && t.value.life.health.status == Unhealthy && t.value.life.restartCount == s.life.restartCount
  {
  }

  /** Pausing and unpausing change the status and the flags with it, and nothing else. */
  lemma PauseEffect(cfg: Config, s: State, newPid: nat)
    requires FlagsMatchStatus(s.life)
    ensures Step(cfg, s, Pause, newPid) ==
            Some(if s.life.status == Running then s.(life := s.life.(status := Paused, paused := true)) else s)
    ensures Step(cfg, s, Unpause, newPid) ==
            Some(if s.life.status == Paused then s.(life := s.life.(status := Running, paused := false)) else s)
  {
  }

  /** A kill works on exactly a running, live container that is not removed. */
  lemma KillEffect(cfg: Config, h: History, newPid: nat)
    requires IsRun(cfg, h)
    ensures var l := Final(h).life;
            var t := Step(cfg, Final(h), Kill, newPid);
            && t.Some?
            && if l.running && !l.dead && !RemovedIn(h)
               then t.value.life.status == Exited && t.value.life.exitCode == 137 && t.value.life.error == l.error
               else t.value == Final(h)
  {
    MarksAreHistory(cfg, h);
  }

  /** The process number lasts as long as the process, however it is paused, patched or observed. */
  lemma PidLasts(cfg: Config, s: State, op: Op, newPid: nat)
    requires Sound(s.life) && Step(cfg, s, op, newPid).Some?
    ensures var l' := Step(cfg, s, op, newPid).value.life;
            HasProcess(s.life.status) && HasProcess(l'.status) ==> l'.pid == s.life.pid
  {
  }

  // ---------- health ----------

  /** The changes of health in a history, each with the exit code of its check. */
  function HealthChanges(h: History): seq<HealthEntry> {
    if h == [] then []
    else
      var e := h[|h| - 1];
      var from, to := e.before.life.health.status, e.after.life.health.status;
      HealthChanges(h[..|h| - 1])
      + if to == from || to == NoHealth then [] else [HealthEntry(if to == Unhealthy then 1 else 0, to)]
  }

  /** Changes to unhealthy since the last change to healthy. */
  function Streak(changes: seq<HealthEntry>): nat {
    if changes == [] then 0
    else
      var last := changes[|changes| - 1].health;
      if last == Healthy then 0 else Streak(changes[..|changes| - 1]) + if last == Unhealthy then 1 else 0
  }

  /** What one change of health does to the log and the streak. */
  predicate HealthMoves(a: HealthState, b: HealthState) {
    if b.status == a.status || b.status == NoHealth then b.log == a.log && b.failingStreak == a.failingStreak
    else
      var code := if b.status == Unhealthy then 1 else 0;
      var grown := a.log + [HealthEntry(code, b.status)];
      && b.log == (if |grown| > 5 then grown[|grown| - 5..] else grown)
      && b.failingStreak == (if b.status == Healthy then 0 else a.failingStreak + code)
  }

  lemma HealthAfterMoves(a: HealthState, to: Health)
    ensures HealthMoves(a, HealthAfter(a, to))
  {
  }

  lemma PatchedHealth(s: State, p: Patch, newPid: nat)
    requires Patched(s, p, newPid).Some?
    ensures var to := Patched(s, p, newPid).value.life.health; to == HealthAfter(s.life.health, to.status)
  {
  }

  lemma SameHealth(h: HealthState)
    ensures HealthAfter(h, h.status) == h
  {
  }

  lemma RowHealth(cfg: Config, s: State, e: Event, newPid: nat)
    requires Advanced(cfg, s, e, newPid).Some?
    ensures var to := Advanced(cfg, s, e, newPid).value.life.health; to == HealthAfter(s.life.health, to.status)
  {
    SameHealth(s.life.health);
    var k := Fired(cfg, s, e);
    if k.Some? {
      PatchedHealth(Charged(Counted(s, e), cfg.transitions[k.value].patch), cfg.transitions[k.value].patch, newPid);
    }
  }

  lemma StepHealthIs(cfg: Config, e: Entry)
    requires Step(cfg, e.before, e.op, e.newPid) == Some(e.after)
    ensures e.after.life.health == HealthAfter(e.before.life.health, e.after.life.health.status)
  {
    SameHealth(e.before.life.health);
    if e.op.Advance? {
      RowHealth(cfg, e.before, e.op.event, e.newPid);
    }
  }

  lemma StepHealth(cfg: Config, e: Entry)
    requires Step(cfg, e.before, e.op, e.newPid) == Some(e.after)
    ensures HealthMoves(e.before.life.health, e.after.life.health)
  {
    StepHealthIs(cfg, e);
    HealthAfterMoves(e.before.life.health, e.after.life.health.status);
  }

  /** In every run the log is the last five health changes and the streak counts the unhealthy ones since the last healthy. */
  lemma {:induction false} HealthIsHistory(cfg: Config, h: History)
    requires IsRun(cfg, h)
    ensures var health, changes := Final(h).life.health, HealthChanges(h);
            && health.log == (if |changes| > 5 then changes[|changes| - 5..] else changes)
            && health.failingStreak == Streak(changes)
  {
    if h != [] {
      var prior, e := h[..|h| - 1], h[|h| - 1];
      HealthIsHistory(cfg, prior);
      StepHealth(cfg, e);
      ChangesGrow(HealthChanges(prior), HealthChanges(h), e.before.life.health, e.after.life.health);
    }
  }

  lemma ChangesGrow(was: seq<HealthEntry>, now: seq<HealthEntry>, a: HealthState, b: HealthState)
    requires HealthMoves(a, b) && a.log == (if |was| > 5 then was[|was| - 5..] else was) && a.failingStreak == Streak(was)
    requires now == was + if b.status == a.status || b.status == NoHealth then []
                          else [HealthEntry(if b.status == Unhealthy then 1 else 0, b.status)]
    ensures b.log == (if |now| > 5 then now[|now| - 5..] else now) && b.failingStreak == Streak(now)
  {
    if now != was {
      assert now[..|now| - 1] == was;
    }
  }

  // ---------- the validator ----------

  /** A patch is accepted exactly when its values are legal and canonicalisation overrides no flag it sets. */
  lemma AcceptedExactly(p: Patch)
    ensures Accepted(p) <==>
            && (p.status.Some? ==> p.status.value in {Created, Running, Restarting, Exited, Dead})
            && (p.health.Some? ==> p.health.value in {NoHealth, Starting, Healthy, Unhealthy})
            && (p.exitCode.Some? ==> 0 <= p.exitCode.value <= 255)
            && (p.restartCount.Some? ==> p.restartCount.value >= 0) && p.restartCountDelta >= 0
            && (p.error.Some? ==> '\0' !in p.error.value)
            && forall l | FlagsMatchStatus(l) :: FlagsKept(l, p)
  {
    if ValuesInRange(p) {
      AcceptedIffFlagsKept(p);
    }
  }
}
