/**
 The container state machine on values: what one operation, taken under the
 container's lock, makes of the state.  `Containers.Container` is the object
 whose methods compute these functions in place.
 */
module Lifecycle {
  import opened Basics
  import opened StatePatches

  /** The three Docker event names with special meaning, and every other one. */
  datatype Event = DockerInspect | DockerList | DockerObserve | OtherEvent(name: string)

  /** One row of a scenario's transition table; an empty condition string is None. */
  datatype Transition = Transition(
    event: Event, count: int, whenStatus: Option<Status>, whenHealth: Option<Health>, once: bool, patch: Patch)

  datatype PolicyName = PolicyNo | Always | UnlessStopped | OnFailure | OtherPolicy(text: string)

  /** What is fixed when the container is created. */
  datatype Config = Config(initial: Patch, transitions: seq<Transition>, policy: PolicyName, maximumRetryCount: int)

  datatype Condition = NotRunning | NextExit | WhenRemoved

  datatype WaitResult = WaitResult(statusCode: int, error: Option<string>)

  datatype HealthEntry = HealthEntry(exitCode: int, health: Health)

  datatype HealthState = HealthState(status: Health, failingStreak: nat, log: seq<HealthEntry>)

  /** What Docker reports about the process. */
  datatype Life = Life(
    status: Status, running: bool, paused: bool, restarting: bool, dead: bool,
    pid: nat, exitCode: int, error: string, restartCount: int, health: HealthState)

  /** What decides whether an event may restart the container. */
  datatype Budget = Budget(manuallyStopped: bool, automaticRestarts: nat, startCount: nat, removed: bool)

  /** Progress through the scenario's transition table. */
  datatype Progress = Progress(counters: map<Event, nat>, applied: set<nat>)

  /**
   A waiter object is named by the number it was given; `registered` is the waiters
   map and `inbox` holds the result sent on a waiter's capacity-1 channel.  Nothing
   ever empties `inbox`, the worst case for a sender.
   */
  datatype Waits = Waits(registered: map<nat, Condition>, inbox: map<nat, WaitResult>, next: nat)

  datatype State = State(life: Life, budget: Budget, progress: Progress, waits: Waits)

  const NEW_STATE := State(
    Life(Created, false, false, false, false, 0, 0, "", 0, HealthState(NoHealth, 0, [])),
    Budget(false, 0, 0, false),
    Progress(map[], {}),
    Waits(map[], map[], 0))

  // ---------- waiting ----------

  function ResultOf(l: Life): WaitResult {
    WaitResult(l.exitCode, if l.error == "" then None else Some(l.error))
  }

  /** The registered waiters a notification answers. */
  function Answered(registered: map<nat, Condition>, removal: bool): set<nat> {
    set w | w in registered && (removal || registered[w] != WhenRemoved)
  }

  function Notified(ws: Waits, r: WaitResult, removal: bool): Waits {
    var answered := Answered(ws.registered, removal);
    Waits(ws.registered - answered, ws.inbox + map w | w in answered :: r, ws.next)
  }

  predicate AnsweredAtOnce(s: State, cond: Condition) {
    s.budget.removed || (cond == NotRunning && !s.life.running)
  }

  function Subscribed(s: State, cond: Condition): State {
    var ws := s.waits;
    s.(waits :=
         if AnsweredAtOnce(s, cond)
         then Waits(ws.registered, ws.inbox[ws.next := ResultOf(s.life)], ws.next + 1)
         else Waits(ws.registered[ws.next := cond], ws.inbox, ws.next + 1))
  }

  // ---------- patches ----------

  /** The status changes that waiters hear of: from a live process into exited, dead or restarting. */
  predicate ExitEdge(wasRunning: bool, from: Status, to: Status) {
    wasRunning && to != from && (to.Exited? || to.Dead? || to.Restarting?)
  }

  /** A process number is drawn exactly when a container without one enters `running`. */
  predicate DrawsPid(l: Life, to: Status) {
    to.Running? && !l.status.Running? && l.pid == 0
  }

  function PidAfter(l: Life, to: Status, newPid: nat): nat {
    if DrawsPid(l, to) then newPid
    else if to.Created? || (to != l.status && (to.Exited? || to.Dead? || to.Restarting?)) then 0
    else l.pid
  }

  function LastFive<T>(log: seq<T>): seq<T> {
    if |log| > 5 then log[|log| - 5..] else log
  }

  function HealthAfter(h: HealthState, to: Health): HealthState {
    if to == h.status || to == NoHealth then h.(status := to)
    else
      HealthState(
        to,
        if to.Unhealthy? then h.failingStreak + 1 else if to.Healthy? then 0 else h.failingStreak,
        LastFive(h.log + [HealthEntry(if to.Unhealthy? then 1 else 0, to)]))
  }

  /** The status is taken from the patch or kept; every lifecycle flag is derived from it. */
  function PatchedLife(l: Life, p: Patch, newPid: nat): Life {
    var to := p.status.GetOr(l.status);
    Life(
      to, RunningIn(to), to.Paused?, to.Restarting?, to.Dead?,
      PidAfter(l, to, newPid),
      p.exitCode.GetOr(l.exitCode),
      p.error.GetOr(l.error),
      p.restartCount.GetOr(l.restartCount) + p.restartCountDelta,
      HealthAfter(l.health, p.health.GetOr(l.health.status)))
  }

  /** None is the panic on a status the program does not know. */
  function Patched(s: State, p: Patch, newPid: nat): Option<State> {
    var l := PatchedLife(s.life, p, newPid);
    if !KnownStatus(l.status) then None
    else
      Some(State(l, s.budget, s.progress, WaitsAfter(s, l)))
  }

  /** An exit edge answers the waiters with the exit code and error of the new life. */
  function WaitsAfter(s: State, l: Life): Waits {
    if ExitEdge(s.life.running, s.life.status, l.status) then Notified(s.waits, ResultOf(l), false) else s.waits
  }

  // ---------- operations ----------

  function StartPatch(cfg: Config, startCount: nat): Patch {
    var initial := cfg.initial;
    if startCount == 0 then
      initial.(status := Some(initial.status.GetOr(Running)),
               running := Some(initial.running.GetOr(true)),
               restarting := Some(initial.restarting.GetOr(false)),
               dead := Some(initial.dead.GetOr(false)),
               exitCode := Some(initial.exitCode.GetOr(0)))
    else
      Patch(Some(initial.status.GetOr(Running)), Some(true), Some(false), Some(false),
            initial.health, Some(0), Some(""), None, 0)
  }

  function StopPatch(exitCode: int): Patch {
    EMPTY_PATCH.(status := Some(Exited), running := Some(false), restarting := Some(false), exitCode := Some(exitCode))
  }

  const KILL_PATCH := EMPTY_PATCH.(status := Some(Exited), exitCode := Some(137))

  const RESTART_PATCH := Patch(
    Some(Restarting), Some(true), Some(true), None, Some(Starting), Some(0), None, None, 1)

  /** What a failed listener start does to the container. */
  function BindFailurePatch(message: string): Patch {
    Patch(Some(Exited), Some(false), Some(false), None, Some(Unhealthy), Some(128), Some(message), None, 0)
  }

  predicate RestartsStopped(from: Status, p: Patch) {
    && (from.Exited? || from.Created? || from.Dead?)
    && p.status.Some?
    && (p.status.value.Running? || p.status.value.Restarting? || p.status.value.Paused?)
  }

  predicate AutomaticRestartAllowed(cfg: Config, l: Life, b: Budget) {
    && !b.manuallyStopped && !b.removed && l.status.Exited? && b.startCount != 0
    && match cfg.policy
       case Always => true
       case UnlessStopped => true
       case OnFailure =>
         l.exitCode != 0 && (cfg.maximumRetryCount == 0 || b.automaticRestarts < cfg.maximumRetryCount)
       case _ => false
  }

  predicate IsObservation(e: Event) {
    e.DockerInspect? || e.DockerList?
  }

  predicate EventMatches(pattern: Event, e: Event) {
    pattern == e || (pattern.DockerObserve? && IsObservation(e))
  }

  function CountOf(counters: map<Event, nat>, e: Event): nat {
    if e in counters then counters[e] else 0
  }

  /** The counters after one event: its own, and the shared observation counter. */
  function Tally(counters: map<Event, nat>, e: Event): map<Event, nat> {
    var c := counters[e := CountOf(counters, e) + 1];
    if IsObservation(e) then c[DockerObserve := CountOf(c, DockerObserve) + 1] else c
  }

  function Counted(s: State, e: Event): State {
    s.(progress := s.progress.(counters := Tally(s.progress.counters, e)))
  }

  /** Whether row k may fire on event e; `s` already counts the event. */
  predicate Eligible(cfg: Config, s: State, e: Event, k: nat)
    requires k < |cfg.transitions|
  {
    var t := cfg.transitions[k];
    && !(t.once && k in s.progress.applied)
    && EventMatches(t.event, e)
    && (t.count > 0 ==> t.count == CountOf(s.progress.counters, if t.event.DockerObserve? then DockerObserve else e))
    && (t.whenStatus.Some? ==> t.whenStatus.value == s.life.status)
    && (t.whenHealth.Some? ==> t.whenHealth.value == s.life.health.status)
    && (RestartsStopped(s.life.status, t.patch) ==> AutomaticRestartAllowed(cfg, s.life, s.budget))
  }

  /** The least eligible row at or after `from`. */
  function FirstEligible(cfg: Config, s: State, e: Event, from: nat): (k: Option<nat>)
    requires from <= |cfg.transitions|
    ensures k.Some? ==> from <= k.value < |cfg.transitions| && Eligible(cfg, s, e, k.value)
    ensures k.Some? ==> forall j :: from <= j < k.value ==> !Eligible(cfg, s, e, j)
    ensures k.None? ==> forall j :: from <= j < |cfg.transitions| ==> !Eligible(cfg, s, e, j)
    decreases |cfg.transitions| - from
  {
    if from == |cfg.transitions| then None
    else if Eligible(cfg, s, e, from) then Some(from)
    else FirstEligible(cfg, s, e, from + 1)
  }

  /** The row an event fires in state `s`, which has not counted it yet. */
  function Fired(cfg: Config, s: State, e: Event): (k: Option<nat>)
    ensures k.Some? ==> k.value < |cfg.transitions|
  {
    FirstEligible(cfg, Counted(s, e), e, 0)
  }

  /** An automatic restart is charged to the budget. */
  function Charged(s: State, p: Patch): State {
    if RestartsStopped(s.life.status, p)
    then s.(budget := s.budget.(automaticRestarts := s.budget.automaticRestarts + 1))
    else s
  }

  function FireRow(cfg: Config, s: State, k: nat, newPid: nat): Option<State>
    requires k < |cfg.transitions|
  {
    var t := cfg.transitions[k];
    var after := Patched(Charged(s, t.patch), t.patch, newPid);
    if after.Some? && t.once
    then Some(after.value.(progress := Progress(s.progress.counters, s.progress.applied + {k})))
    else after
  }

  function Advanced(cfg: Config, s: State, e: Event, newPid: nat): Option<State> {
    var k := Fired(cfg, s, e);
    if k.None? then Some(Counted(s, e)) else FireRow(cfg, Counted(s, e), k.value, newPid)
  }

  datatype Op =
    | Start
    | Stop(exitCode: int)
    | Kill
    | Pause
    | Unpause
    | Restart
    | Advance(event: Event)
    | ApplyPatch(patch: Patch)
    | BindFailed(message: string)
    | Subscribe(condition: Condition)
    | Cancel(waiter: nat)
    | MarkRemoved

  predicate CanKill(s: State) {
    s.life.running && !s.life.dead && !s.budget.removed
  }

  predicate CanPause(l: Life) {
    l.running && !l.restarting && !l.dead
  }

  /** The marks an explicit start or restart clears. */
  function Reopened(s: State): State {
    s.(budget := s.budget.(manuallyStopped := false, automaticRestarts := 0))
  }

  function ByHand(s: State): State {
    s.(budget := s.budget.(manuallyStopped := true))
  }

  function Started(cfg: Config, s: State, newPid: nat): Option<State> {
    var t := Patched(Reopened(s), StartPatch(cfg, s.budget.startCount), newPid);
    if t.Some? then Some(t.value.(budget := t.value.budget.(startCount := s.budget.startCount + 1))) else None
  }

  function PausedLife(l: Life): Life {
    if CanPause(l) && !l.paused then l.(status := Paused, paused := true) else l
  }

  function UnpausedLife(l: Life): Life {
    if l.paused
    then l.(status := Running, running := true, paused := false, restarting := false, dead := false)
    else l
  }

  function MarkedRemoved(s: State): State {
    s.(budget := s.budget.(removed := true), waits := Notified(s.waits, ResultOf(s.life), true))
  }

  /** `newPid` is the process number the shared counter would hand out next. */
  function Step(cfg: Config, s: State, op: Op, newPid: nat): Option<State> {
    match op
    case Start => Started(cfg, s, newPid)
    case Stop(exitCode) => Patched(ByHand(s), StopPatch(exitCode), newPid)
    case Kill => if CanKill(s) then Patched(ByHand(s), KILL_PATCH, newPid) else Some(s)
    case Pause => Some(s.(life := PausedLife(s.life)))
    case Unpause => Some(s.(life := UnpausedLife(s.life)))
    case Restart => Patched(Reopened(s), RESTART_PATCH, newPid)
    case Advance(e) => Advanced(cfg, s, e, newPid)
    case ApplyPatch(p) => Patched(s, p, newPid)
    case BindFailed(message) => Patched(s, BindFailurePatch(message), newPid)
    case Subscribe(cond) => Some(Subscribed(s, cond))
    case Cancel(w) => Some(s.(waits := s.waits.(registered := s.waits.registered - {w})))
    case MarkRemoved => Some(MarkedRemoved(s))
  }

  /** The patch an operation applies, if it applies one. */
  function PatchOf(cfg: Config, s: State, op: Op): Option<Patch> {
    match op
    case Start => Some(StartPatch(cfg, s.budget.startCount))
    case Stop(exitCode) => Some(StopPatch(exitCode))
    case Kill => if CanKill(s) then Some(KILL_PATCH) else None
    case Restart => Some(RESTART_PATCH)
    case Advance(e) => if Fired(cfg, s, e).Some? then Some(cfg.transitions[Fired(cfg, s, e).value].patch) else None
    case ApplyPatch(p) => Some(p)
    case BindFailed(message) => Some(BindFailurePatch(message))
    case _ => None
  }

  /** Whether the operation takes a process number from the shared counter. */
  predicate Draws(cfg: Config, s: State, op: Op) {
    var p := PatchOf(cfg, s, op);
    p.Some? && DrawsPid(s.life, p.value.status.GetOr(s.life.status))
  }

  // ---------- runs ----------

  datatype Entry = Entry(op: Op, newPid: nat, before: State, after: State)

  type History = seq<Entry>

  function Final(h: History): State {
    if h == [] then NEW_STATE else h[|h| - 1].after
  }

  /** A history of one container, from creation, that has not panicked. */
  predicate IsRun(cfg: Config, h: History) {
    h == [] ||
    var prior, e := h[..|h| - 1], h[|h| - 1];
    && IsRun(cfg, prior)
    && e.before == Final(prior)
    && e.newPid > 0
    && Step(cfg, e.before, e.op, e.newPid) == Some(e.after)
  }
}
