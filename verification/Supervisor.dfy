/**
 The supervisor loop of src/executor.rs as a state machine: one step per event. The environment
 chooses the events, their order, what the kernel reports and which pid a spawn returns.
 */
module Supervisor {
  import opened Services
  import opened Ordering
  import Kahn
  import opened Graph

  const MAX_RESTARTS: nat := 5

  type Pid = nat
  type ReplyId = nat

  datatype ServiceState = Pending | Running(pid: Pid) | Ready | Exited(code: int) | Failed

  /** One row of the map shared with the control server. */
  datatype Info = Info(name: Name, state: string, pid: Option<Pid>)

  /** What the loop reports as it goes: the lines of its log that matter here. */
  datatype Action =
    | Started(name: Name, pid: Pid)                          // launched from the ready queue
    | Skipped(name: Name)                                    // blocked by a failed hard dependency
    | Reported(name: Name)                                   // first readiness signal
    | Respawned(name: Name, pid: Pid, manual: bool)          // child ended, spawned again
    | Ended(name: Name, failed: bool, reported: bool)        // child ended for good

  datatype Loop = Loop(
    inDegree: map<Name, nat>,
    pidToName: map<Pid, Name>,
    readyReported: set<Name>,
    blocked: set<Name>,
    restartCounts: map<Name, nat>,
    states: map<Name, ServiceState>,
    shared: map<Name, Info>,
    pendingRestart: set<Name>,
    restartReplies: map<Name, ReplyId>,
    toStart: seq<Name>,
    completed: nat,
    defs: Catalog,
    aborted: bool,
    log: seq<Action>)

  datatype WaitStatus = ExitedWith(code: int) | Signaled

  /** What re-reading the definition file on Reload comes to. */
  datatype Reread = NoDirectory | Unreadable | Unchanged | Malformed | Changed(def: ServiceDef)

  datatype Event =
    | ReadySignal(name: Name)
    | LaunchNext(spawn: Option<Pid>)
    | Reaped(pid: Pid, status: WaitStatus, stopping: bool, spawn: Option<Pid>)
    | Vanished(pid: Pid)
    | StartCommand(name: Name, spawn: Option<Pid>)
    | RestartCommand(name: Name, reply: ReplyId, spawn: Option<Pid>)
    | ReloadCommand(name: Name, reply: ReplyId, reread: Reread, spawn: Option<Pid>)

  // ------------------------------------------------------------------------------------------
  // Pure helpers of the source
  // ------------------------------------------------------------------------------------------

  function ShouldRestart(policy: Option<RestartPolicy>, code: int, isSignal: bool): bool {
    match policy
    case Some(Always) => true
    case Some(OnFailure) => code != 0 || isSignal
    case _ => false
  }

  function Tag(st: ServiceState): string {
    match st
    case Pending => "pending"
    case Running(_) => "running"
    case Ready => "ready"
    case Exited(_) => "exited"
    case Failed => "failed"
  }

  /** `sync_state`: the pid is set by Running, kept by Ready and cleared otherwise. */
  function Sync(shared: map<Name, Info>, name: Name, st: ServiceState): map<Name, Info> {
    var info := if name in shared then shared[name] else Info(name, "pending", None);
    var pid := if st.Running? then Some(st.pid) else if st.Ready? then info.pid else None;
    shared[name := info.(state := Tag(st), pid := pid)]
  }

  function PolicyOf(defs: Catalog, name: Name): Option<RestartPolicy> {
    if name in defs then defs[name].service.restart else None
  }

  function CountOf(counts: map<Name, nat>, name: Name): nat {
    if name in counts then counts[name] else 0
  }

  // ------------------------------------------------------------------------------------------
  // Steps
  // ------------------------------------------------------------------------------------------

  /** What `mark_ready` appends to the queue. */
  ghost function Newly(cfg: Catalog, degree: map<Name, nat>, name: Name): seq<Name> {
    Listing(Unlocked(cfg, degree, name))
  }

  /** The first readiness signal of a service marks it; later ones are ignored. */
  ghost function OnReady(cfg: Catalog, s: Loop, name: Name): Loop {
    if name in s.readyReported then s
    else
      s.(readyReported := s.readyReported + {name},
         states := s.states[name := Ready],
         shared := Sync(s.shared, name, Ready),
         inDegree := Lowered(cfg, s.inDegree, name),
         toStart := s.toStart + Newly(cfg, s.inDegree, name),
         log := s.log + [Reported(name)])
  }

  /** One pass of the launch loop. A failed spawn ends the run. */
  ghost function OnLaunch(cfg: Catalog, s: Loop, spawn: Option<Pid>): Loop {
    if s.toStart == [] then s
    else
      var name := s.toStart[|s.toStart| - 1];
      var s0 := s.(toStart := s.toStart[..|s.toStart| - 1]);
      if name in s.blocked then OnSkip(cfg, s0, name)
      else if name !in s.defs then s0
      else if spawn.None? then s0.(aborted := true)
      else Track(s0, name, spawn.value, [Started(name, spawn.value)])
  }

  /** A blocked service fails without running; its own dependents are blocked, and released. */
  ghost function OnSkip(cfg: Catalog, s: Loop, name: Name): Loop {
    s.(states := s.states[name := Failed],
       shared := Sync(s.shared, name, Failed),
       blocked := s.blocked + NeedsDependents(cfg, name),
       inDegree := Lowered(cfg, s.inDegree, name),
       toStart := s.toStart + Newly(cfg, s.inDegree, name),
       completed := s.completed + 1,
       log := s.log + [Skipped(name)])
  }

  ghost function Track(s: Loop, name: Name, pid: Pid, entry: seq<Action>): Loop {
    s.(states := s.states[name := Running(pid)],
       shared := Sync(s.shared, name, Running(pid)),
       pidToName := s.pidToName[pid := name],
       log := s.log + entry)
  }

  ghost function OnReaped(cfg: Catalog, s: Loop, pid: Pid, status: WaitStatus, stopping: bool, spawn: Option<Pid>): Loop {
    if pid !in s.pidToName then s
    else
      var name := s.pidToName[pid];
      var s0 := s.(pidToName := s.pidToName - {pid});
      if name in s.pendingRestart then OnManualRespawn(s0, name, spawn)
      else if WillRestart(s.defs, s.restartCounts, name, status, stopping) then OnAutoRespawn(s0, name, spawn)
      else OnEnd(cfg, s0, name, status)
  }

  /** A manual restart takes priority over the restart policy. */
  ghost function OnManualRespawn(s: Loop, name: Name, spawn: Option<Pid>): Loop {
    var s1 := s.(pendingRestart := s.pendingRestart - {name}, restartReplies := s.restartReplies - {name});
    match spawn
    case Some(pid) => Track(s1, name, pid, [Respawned(name, pid, true)])
    case None => s1.(states := s.states[name := Failed], shared := Sync(s.shared, name, Failed))
  }

  function WantsRestart(defs: Catalog, name: Name, status: WaitStatus): bool {
    if status.Signaled? then ShouldRestart(PolicyOf(defs, name), 1, true)
    else ShouldRestart(PolicyOf(defs, name), status.code, false)
  }

  predicate WillRestart(defs: Catalog, counts: map<Name, nat>, name: Name, status: WaitStatus, stopping: bool) {
    WantsRestart(defs, name, status) && CountOf(counts, name) < MAX_RESTARTS && !stopping
  }

  ghost function OnAutoRespawn(s: Loop, name: Name, spawn: Option<Pid>): Loop {
    var s1 := s.(restartCounts := s.restartCounts[name := CountOf(s.restartCounts, name) + 1]);
    match spawn
    case Some(pid) => Track(s1, name, pid, [Respawned(name, pid, false)])
    case None => s1.(aborted := true)
  }

  predicate Exhausted(defs: Catalog, counts: map<Name, nat>, name: Name, status: WaitStatus) {
    WantsRestart(defs, name, status) && CountOf(counts, name) >= MAX_RESTARTS
  }

  /** Nonzero exit, killed by a signal, or restarts used up. */
  predicate Unsuccessful(defs: Catalog, counts: map<Name, nat>, name: Name, status: WaitStatus) {
    Exhausted(defs, counts, name, status) || status.Signaled? || status.code != 0
  }

  function FinalState(defs: Catalog, counts: map<Name, nat>, name: Name, status: WaitStatus): ServiceState {
    if Exhausted(defs, counts, name, status) then Failed
    else if status.Signaled? then Exited(-1)
    else Exited(status.code)
  }

  /**
   A service ends for good. If it fails before it was reported ready, what needs it is blocked; its
   dependents are released either way, unless its readiness signal released them already.
   */
  ghost function OnEnd(cfg: Catalog, s: Loop, name: Name, status: WaitStatus): Loop {
    var failed, reported := Unsuccessful(s.defs, s.restartCounts, name, status), name in s.readyReported;
    s.(restartCounts := s.restartCounts[name := CountOf(s.restartCounts, name)],
       states := s.states[name := FinalState(s.defs, s.restartCounts, name, status)],
       shared := Sync(s.shared, name, FinalState(s.defs, s.restartCounts, name, status)),
       completed := s.completed + 1,
       blocked := if failed && !reported then s.blocked + NeedsDependents(cfg, name) else s.blocked,
       readyReported := s.readyReported + {name},
       inDegree := if reported then s.inDegree else Lowered(cfg, s.inDegree, name),
       toStart := if reported then s.toStart else s.toStart + Newly(cfg, s.inDegree, name),
       log := s.log + [Ended(name, failed, reported)])
  }

  /** ECHILD: the child was reaped elsewhere. */
  ghost function OnVanished(s: Loop, pid: Pid): Loop {
    s.(pidToName := s.pidToName - {pid}, completed := s.completed + 1)
  }

  predicate IsUp(states: map<Name, ServiceState>, name: Name) {
    name in states && (states[name].Running? || states[name].Ready?)
  }

  ghost function SpawnByHand(s: Loop, name: Name, spawn: Option<Pid>): Loop {
    if name !in s.defs || spawn.None? then s else Track(s, name, spawn.value, [])
  }

  ghost function OnStart(s: Loop, name: Name, spawn: Option<Pid>): Loop {
    if name !in s.states || IsUp(s.states, name) then s else SpawnByHand(s, name, spawn)
  }

  ghost function Defer(s: Loop, name: Name, reply: ReplyId): Loop {
    s.(pendingRestart := s.pendingRestart + {name}, restartReplies := s.restartReplies[name := reply])
  }

  ghost function OnRestart(s: Loop, name: Name, reply: ReplyId, spawn: Option<Pid>): Loop {
    if name !in s.states then s
    else if IsUp(s.states, name) then Defer(s, name, reply)
    else SpawnByHand(s, name, spawn)
  }

  ghost function OnReload(s: Loop, name: Name, reply: ReplyId, reread: Reread, spawn: Option<Pid>): Loop {
    if !reread.Changed? then s
    else
      var s1 := s.(defs := s.defs[name := reread.def]);
      if name in s.pidToName.Values then Defer(s1, name, reply) else SpawnByHand(s1, name, spawn)
  }

  ghost function Step(cfg: Catalog, s: Loop, e: Event): Loop {
    if s.aborted then s
    else
      match e
      case ReadySignal(name) => OnReady(cfg, s, name)
      case LaunchNext(spawn) => OnLaunch(cfg, s, spawn)
      case Reaped(pid, status, stopping, spawn) => OnReaped(cfg, s, pid, status, stopping, spawn)
      case Vanished(pid) => OnVanished(s, pid)
      case StartCommand(name, spawn) => OnStart(s, name, spawn)
      case RestartCommand(name, reply, spawn) => OnRestart(s, name, reply, spawn)
      case ReloadCommand(name, reply, reread, spawn) => OnReload(s, name, reply, reread, spawn)
  }

  ghost function Run(cfg: Catalog, s: Loop, events: seq<Event>): Loop {
    if events == [] then s
    else Step(cfg, Run(cfg, s, events[..|events| - 1]), events[|events| - 1])
  }

  /** The state in which the loop is entered, for the graph of a successful build. */
  ghost function Init(cfg: Catalog, degree: map<Name, nat>): Loop {
    Loop(degree, map[], {}, {}, map[],
         map n | n in cfg :: Pending,
         map n | n in cfg :: Info(n, "pending", None),
         {}, map[], Listing(Kahn.ZeroSet(degree)), 0, cfg, false, [])
  }

  // ------------------------------------------------------------------------------------------
  // What the kernel guarantees, and regular runs
  // ------------------------------------------------------------------------------------------

  /** A spawned child gets a pid that no tracked child has. */
  ghost predicate FreshPid(pids: set<Pid>, spawn: Option<Pid>) {
    spawn.Some? ==> spawn.value !in pids
  }

  ghost predicate Possible(s: Loop, e: Event) {
    match e
    case ReadySignal(_) => true
    case LaunchNext(spawn) => FreshPid(s.pidToName.Keys, spawn)
    case Reaped(pid, _, _, spawn) => pid in s.pidToName && FreshPid(s.pidToName.Keys - {pid}, spawn)
    case Vanished(pid) => pid in s.pidToName
    case StartCommand(_, spawn) => FreshPid(s.pidToName.Keys, spawn)
    case RestartCommand(_, _, spawn) => FreshPid(s.pidToName.Keys, spawn)
    case ReloadCommand(_, _, _, spawn) => FreshPid(s.pidToName.Keys, spawn)
  }

  ghost function Launched(log: seq<Action>): set<Name> {
    set a | a in log && a.Started? :: a.name
  }

  /** Handling the event comes to a spawn from the queue or a respawn. */
  ghost predicate NeedsSpawn(s: Loop, e: Event) {
    match e
    case LaunchNext(_) =>
      && s.toStart != [] && s.toStart[|s.toStart| - 1] !in s.blocked && s.toStart[|s.toStart| - 1] in s.defs
    case Reaped(pid, status, stopping, _) =>
      && pid in s.pidToName
      && (s.pidToName[pid] in s.pendingRestart || WillRestart(s.defs, s.restartCounts, s.pidToName[pid], status, stopping))
    case _ => false
  }

  /**
   The events of a regular run: spawns succeed where one is needed, no child vanishes, readiness signals name services
   that were launched, and a command spawns nothing by itself: it is refused, or its target is up.
   */
  ghost predicate Regular(s: Loop, e: Event) {
    && Possible(s, e)
    && match e
       case ReadySignal(name) => name in Launched(s.log)
       case LaunchNext(spawn) => NeedsSpawn(s, e) ==> spawn.Some?
       case Reaped(_, _, _, spawn) => NeedsSpawn(s, e) ==> spawn.Some?
       case Vanished(_) => false
       case StartCommand(name, spawn) => name !in s.states || IsUp(s.states, name)
       case RestartCommand(name, _, spawn) => name !in s.states || name in s.pidToName.Values
       case ReloadCommand(name, _, reread, spawn) => reread.Changed? ==> name in s.pidToName.Values
  }

  ghost predicate RegularRun(cfg: Catalog, s: Loop, events: seq<Event>) {
    if events == [] then true
    else
      var init := events[..|events| - 1];
      RegularRun(cfg, s, init) && Regular(Run(cfg, s, init), events[|events| - 1])
  }

  ghost predicate PossibleRun(cfg: Catalog, s: Loop, events: seq<Event>) {
    if events == [] then true
    else
      var init := events[..|events| - 1];
      PossibleRun(cfg, s, init) && Possible(Run(cfg, s, init), events[|events| - 1])
  }
}
