/** All the containers of a process, which share one process-number counter. */
module ProcessRuns {
  import opened Basics
  import opened StatePatches
  import opened Lifecycle
  import opened LifecycleRuns

  datatype Member = Member(cfg: Config, state: State)

  datatype World = World(drawn: nat, members: map<nat, Member>)

  datatype WorldOp = Create(id: nat, cfg: Config) | On(id: nat, op: Op)

  const EMPTY_WORLD := World(0, map[])

  function WorldStep(w: World, op: WorldOp): Option<World> {
    match op
    case Create(id, cfg) =>
      Some(if id in w.members then w else w.(members := w.members[id := Member(cfg, NEW_STATE)]))
    case On(id, o) =>
      if id !in w.members then Some(w)
      else
        var m := w.members[id];
        var t := Step(m.cfg, m.state, o, 1001 + w.drawn);
        if t.None? then None
        else Some(World(w.drawn + (if Draws(m.cfg, m.state, o) then 1 else 0), w.members[id := m.(state := t.value)]))
  }

  /** None when some step panicked. */
  function WorldAfter(ops: seq<WorldOp>): Option<World> {
    if ops == [] then Some(EMPTY_WORLD)
    else
      var w := WorldAfter(ops[..|ops| - 1]);
      if w.None? then None else WorldStep(w.value, ops[|ops| - 1])
  }

  predicate WorldOpAccepted(op: WorldOp) {
    match op
    case Create(_, cfg) => ScenarioAccepted(cfg)
    case On(_, o) => OpAccepted(o)
  }

  predicate WorldSound(w: World) {
    && (forall id :: id in w.members ==>
          ScenarioAccepted(w.members[id].cfg) && Sound(w.members[id].state.life) &&
          w.members[id].state.life.pid <= 1000 + w.drawn)
    && forall a, b :: a in w.members && b in w.members && a != b && w.members[a].state.life.pid != 0 ==>
          w.members[a].state.life.pid != w.members[b].state.life.pid
  }

  /** A step leaves the process number, clears it, or replaces it by the drawn one. */
  lemma StepPid(cfg: Config, s: State, op: Op, newPid: nat)
    requires Step(cfg, s, op, newPid).Some?
    ensures var pid := Step(cfg, s, op, newPid).value.life.pid;
            if Draws(cfg, s, op) then pid == newPid else pid == 0 || pid == s.life.pid
  {
  }

  /** Replacing one member keeps the world sound if its number is fresh, unchanged or zero. */
  lemma ReplaceMember(w: World, id: nat, s: State, drew: bool)
    requires WorldSound(w) && id in w.members && Sound(s.life)
    requires if drew then s.life.pid == 1001 + w.drawn
             else s.life.pid == 0 || s.life.pid == w.members[id].state.life.pid
    ensures WorldSound(World(w.drawn + (if drew then 1 else 0), w.members[id := w.members[id].(state := s)]))
  {
  }

  lemma AddMember(w: World, id: nat, cfg: Config)
    requires WorldSound(w) && ScenarioAccepted(cfg) && id !in w.members
    ensures WorldSound(w.(members := w.members[id := Member(cfg, NEW_STATE)]))
  {
  }

  lemma WorldStepKeepsSound(w: World, op: WorldOp)
    requires WorldSound(w) && WorldOpAccepted(op)
    ensures WorldStep(w, op).Some? && WorldSound(WorldStep(w, op).value)
  {
    match op
    case Create(id, cfg) =>
      if id !in w.members {
        AddMember(w, id, cfg);
      }
    case On(id, o) =>
      if id in w.members {
        var m := w.members[id];
        var newPid := 1001 + w.drawn;
        StepKeepsSound(m.cfg, m.state, o, newPid);
        StepPid(m.cfg, m.state, o, newPid);
        ReplaceMember(w, id, Step(m.cfg, m.state, o, newPid).value, Draws(m.cfg, m.state, o));
      }
  }

  /** In every run over any number of containers nothing panics and no two live processes share a number. */
  lemma {:induction false} ProcessNumbersDistinct(ops: seq<WorldOp>)
    requires forall i :: 0 <= i < |ops| ==> WorldOpAccepted(ops[i])
    ensures WorldAfter(ops).Some? && WorldSound(WorldAfter(ops).value)
  {
    if ops != [] {
      ProcessNumbersDistinct(ops[..|ops| - 1]);
      WorldStepKeepsSound(WorldAfter(ops[..|ops| - 1]).value, ops[|ops| - 1]);
    }
  }
}
