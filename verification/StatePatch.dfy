/**
 State patches and the checks a cookbook patch passes before it may drive a
 container.  A status or health string is one of the names the program knows or
 any other text.
 */
module StatePatches {
  import opened Basics

  datatype Status = Created | Running | Paused | Restarting | Exited | Dead | OtherStatus(text: string)

  datatype Health = NoHealth | Starting | Healthy | Unhealthy | OtherHealth(text: string)

  /** A partial update; an absent field is a nil pointer. */
  datatype Patch = Patch(
    status: Option<Status>,
    running: Option<bool>,
    restarting: Option<bool>,
    dead: Option<bool>,
    health: Option<Health>,
    exitCode: Option<int>,
    error: Option<string>,
    restartCount: Option<int>,
    restartCountDelta: int)

  const EMPTY_PATCH := Patch(None, None, None, None, None, None, None, None, 0)

  /** The field a rejected patch is rejected for. */
  datatype Field =
    | WholePatch | StatusField | RunningField | RestartingField | DeadField
    | HealthField | ExitCodeField | ErrorField | RestartCountField | RestartCountDeltaField

  /** The lifecycle flags that go with a status. */
  predicate RunningIn(s: Status) {
    s.Running? || s.Paused? || s.Restarting?
  }

  predicate KnownStatus(s: Status) {
    !s.OtherStatus?
  }

  predicate KnownHealth(h: Health) {
    !h.OtherHealth?
  }

  /** Statuses a cookbook may name: every known one except `paused`. */
  predicate AllowedStatus(s: Status) {
    KnownStatus(s) && !s.Paused?
  }

  /** Flags that contradict the status of the same patch, in the order they are checked. */
  function FlagConflict(s: Status, p: Patch): Outcome<Field> {
    match s
    case Running =>
      if p.running == Some(false) then Failed(RunningField)
      else if p.restarting == Some(true) then Failed(RestartingField)
      else if p.dead == Some(true) then Failed(DeadField)
      else Ok
    case Restarting =>
      if p.running == Some(false) then Failed(RunningField)
      else if p.restarting == Some(false) then Failed(RestartingField)
      else if p.dead == Some(true) then Failed(DeadField)
      else Ok
    case Created =>
      if p.running == Some(true) then Failed(RunningField)
      else if p.restarting == Some(true) then Failed(RestartingField)
      else if p.dead == Some(true) then Failed(DeadField)
      else Ok
    case Exited =>
      if p.running == Some(true) then Failed(RunningField)
      else if p.restarting == Some(true) then Failed(RestartingField)
      else if p.dead == Some(true) then Failed(DeadField)
      else Ok
    case Dead =>
      if p.running == Some(true) then Failed(RunningField)
      else if p.restarting == Some(true) then Failed(RestartingField)
      else if p.dead == Some(false) then Failed(DeadField)
      else Ok
    case _ => Ok
  }

  /** The cookbook check of one patch; the first failing test decides the reported field. */
  function ValidatePatch(p: Patch, allowEmpty: bool): Outcome<Field> {
    if !allowEmpty && p == EMPTY_PATCH then Failed(WholePatch)
    else if p.status.Some? && !AllowedStatus(p.status.value) then Failed(StatusField)
    else if p.health.Some? && !KnownHealth(p.health.value) then Failed(HealthField)
    else if p.exitCode.Some? && !(0 <= p.exitCode.value <= 255) then Failed(ExitCodeField)
    else if p.restartCount.Some? && p.restartCount.value < 0 then Failed(RestartCountField)
    else if p.restartCountDelta < 0 then Failed(RestartCountDeltaField)
    else if p.error.Some? && '\0' in p.error.value then Failed(ErrorField)
    else if p.status.None? && (p.running.Some? || p.restarting.Some? || p.dead.Some?) then Failed(WholePatch)
    else if p.status.Some? && FlagConflict(p.status.value, p).Failed? then FlagConflict(p.status.value, p)
    else if p.dead == Some(true) && (p.status.None? || !p.status.value.Dead?) then Failed(DeadField)
    else Ok
  }

  predicate Accepted(p: Patch) {
    ValidatePatch(p, true).Ok?
  }

  /** Values, as opposed to flags, that a patch may carry. */
  predicate ValuesInRange(p: Patch) {
    && (p.status.Some? ==> AllowedStatus(p.status.value))
    && (p.health.Some? ==> KnownHealth(p.health.value))
    && (p.exitCode.Some? ==> 0 <= p.exitCode.value <= 255)
    && (p.restartCount.Some? ==> 0 <= p.restartCount.value)
    && 0 <= p.restartCountDelta
    && (p.error.Some? ==> '\0' !in p.error.value)
  }
}
