/**
 The whole next state after each event, told in the fields of the loop and of the definitions, case by
 case, without the functions the steps are made of.
 */
module SupervisorRules {
  import opened Services
  import opened Ordering
  import Kahn
  import opened Graph
  import opened Supervisor
  import opened SupervisorSteps

  /** The row of a service in the shared map, rewritten. */
  ghost function Row(shared: map<Name, Info>, n: Name, state: string, pid: Option<Pid>): map<Name, Info> {
    shared[n := Info(if n in shared then shared[n].name else n, state, pid)]
  }

  /** Services with n under `needs`. */
  ghost function HardDependents(cfg: Catalog, n: Name): set<Name> {
    set m | m in cfg && cfg[m].deps.Some? && n in cfg[m].deps.value.needs
  }

  /**
   Degrees of what depends on n, where positive, have dropped by one, and what came down from one to
   zero by it stands at the end of the queue, in dictionary order.
   */
  ghost predicate Releases(cfg: Catalog, s: Loop, s': Loop, n: Name) {
    && s'.inDegree.Keys == s.inDegree.Keys
    && (forall m :: m in s.inDegree ==>
          s'.inDegree[m] == s.inDegree[m] - if s.inDegree[m] > 0 && DependsDirectly(cfg, m, n) then 1 else 0)
    && exists newly :: s'.toStart == s.toStart + newly && Unlocks(cfg, s.inDegree, newly, n)
  }

  ghost predicate Unlocks(cfg: Catalog, degree: map<Name, nat>, newly: seq<Name>, n: Name) {
    && Ascending(newly) && NoDuplicates(newly)
    && forall m :: m in newly <==> m in degree && degree[m] == 1 && DependsDirectly(cfg, m, n)
  }

  lemma ReleasesBy(cfg: Catalog, s: Loop, s': Loop, n: Name)
    requires s'.inDegree == Lowered(cfg, s.inDegree, n) && s'.toStart == s.toStart + Newly(cfg, s.inDegree, n)
    ensures Releases(cfg, s, s', n)
  {
    hide DependsDirectly, Lowered, Unlocked, Listing, Ascending;
    MarkFields(cfg, s.inDegree, n);
    ListingAscends(Unlocked(cfg, s.inDegree, n));
    assert Unlocks(cfg, s.inDegree, Newly(cfg, s.inDegree, n), n);
  }

  lemma HardDependentsAre(cfg: Catalog, n: Name)
    ensures NeedsDependents(cfg, n) == HardDependents(cfg, n)
  {
  }

  // ------------------------------------------------------------------------------------------
  // The start
  // ------------------------------------------------------------------------------------------

  /** Every service is pending, and those without a dependency to wait for are queued in dictionary order. */
  lemma InitRule(cfg: Catalog, degree: map<Name, nat>)
    ensures var s := Init(cfg, degree);
            && s.states.Keys == cfg.Keys && (forall n :: n in cfg ==> s.states[n] == Pending)
            && s.shared.Keys == cfg.Keys && (forall n :: n in cfg ==> s.shared[n] == Info(n, "pending", None))
            && Ascending(s.toStart) && NoDuplicates(s.toStart)
            && (forall n :: n in s.toStart <==> n in degree && degree[n] == 0)
            && s.inDegree == degree && s.defs == cfg && s.completed == 0 && !s.aborted && s.log == []
            && s.pidToName == map[] && s.restartCounts == map[] && s.restartReplies == map[]
            && s.readyReported == {} && s.blocked == {} && s.pendingRestart == {}
  {
    ListingAscends(Kahn.ZeroSet(degree));
    hide Listing, Ascending;
  }

  // ------------------------------------------------------------------------------------------
  // Readiness and launching
  // ------------------------------------------------------------------------------------------

  /** A first signal makes the service ready, keeps its pid and releases its dependents; others do nothing. */
  lemma SignalRule(cfg: Catalog, s: Loop, n: Name)
    requires !s.aborted
    ensures var s' := Step(cfg, s, ReadySignal(n));
            && (n in s.readyReported ==> s' == s)
            && (n !in s.readyReported ==>
                  && Releases(cfg, s, s', n)
                  && s' == s.(readyReported := s.readyReported + {n},
                              states := s.states[n := Ready],
                              shared := Row(s.shared, n, "ready", if n in s.shared then s.shared[n].pid else None),
                              inDegree := s'.inDegree,
                              toStart := s'.toStart,
                              log := s.log + [Reported(n)]))
  {
    hide Lowered, Newly, Releases;
    if n !in s.readyReported {
      ReleasesBy(cfg, s, OnReady(cfg, s, n), n);
    }
  }

  lemma SkipRule(cfg: Catalog, s: Loop, n: Name)
    ensures var s' := OnSkip(cfg, s, n);
            && Releases(cfg, s, s', n)
            && s' == s.(states := s.states[n := Failed],
                        shared := Row(s.shared, n, "failed", None),
                        blocked := s.blocked + HardDependents(cfg, n),
                        inDegree := s'.inDegree,
                        toStart := s'.toStart,
                        completed := s.completed + 1,
                        log := s.log + [Skipped(n)])
  {
    hide Lowered, Newly, Releases, NeedsDependents, HardDependents;
    HardDependentsAre(cfg, n);
    ReleasesBy(cfg, s, OnSkip(cfg, s, n), n);
  }

  lemma TrackRule(s: Loop, n: Name, pid: Pid, entry: seq<Action>)
    ensures Track(s, n, pid, entry) ==
            s.(states := s.states[n := Running(pid)],
               shared := Row(s.shared, n, "running", Some(pid)),
               pidToName := s.pidToName[pid := n],
               log := s.log + entry)
  {
  }

  /** The last of the queue is given up if it is blocked, and otherwise launched, or ends the run. */
  lemma LaunchRule(cfg: Catalog, s: Loop, spawn: Option<Pid>)
    requires !s.aborted
    ensures var s' := Step(cfg, s, LaunchNext(spawn));
            if s.toStart == [] then s' == s
            else
              var n, s0 := s.toStart[|s.toStart| - 1], s.(toStart := s.toStart[..|s.toStart| - 1]);
              if n in s.blocked then
                && Releases(cfg, s0, s', n)
                && s' == s0.(states := s.states[n := Failed],
                             shared := Row(s.shared, n, "failed", None),
                             blocked := s.blocked + HardDependents(cfg, n),
                             inDegree := s'.inDegree,
                             toStart := s'.toStart,
                             completed := s.completed + 1,
                             log := s.log + [Skipped(n)])
              else if n !in s.defs then s' == s0
              else if spawn.None? then s' == s0.(aborted := true)
              else s' == s0.(states := s.states[n := Running(spawn.value)],
                             shared := Row(s.shared, n, "running", spawn),
                             pidToName := s.pidToName[spawn.value := n],
                             log := s.log + [Started(n, spawn.value)])
  {
    hide OnSkip, Track, Releases, HardDependents, Row;
    if s.toStart != [] {
      var n, s0 := s.toStart[|s.toStart| - 1], s.(toStart := s.toStart[..|s.toStart| - 1]);
      SkipRule(cfg, s0, n);
      if spawn.Some? {
        TrackRule(s0, n, spawn.value, [Started(n, spawn.value)]);
      }
    }
  }

  // ------------------------------------------------------------------------------------------
  // The end of a child
  // ------------------------------------------------------------------------------------------

  /** The policy of the service asks for another attempt after this end. */
  ghost predicate AsksAttempt(s: Loop, n: Name, status: WaitStatus) {
    && n in s.defs
    && (s.defs[n].service.restart == Some(Always)
        || (s.defs[n].service.restart == Some(OnFailure) && (status.Signaled? || status.code != 0)))
  }

  ghost function AttemptsMade(s: Loop, n: Name): nat {
    if n in s.restartCounts then s.restartCounts[n] else 0
  }

  lemma RestartsIff(s: Loop, n: Name, status: WaitStatus, stopping: bool)
    ensures WillRestart(s.defs, s.restartCounts, n, status, stopping) <==>
            AsksAttempt(s, n, status) && AttemptsMade(s, n) < 5 && !stopping
  {
  }

  lemma FinalRule(s: Loop, n: Name, status: WaitStatus)
    ensures FinalState(s.defs, s.restartCounts, n, status) ==
            if AsksAttempt(s, n, status) && AttemptsMade(s, n) >= 5 then Failed
            else if status.Signaled? then Exited(-1) else Exited(status.code)
    ensures Unsuccessful(s.defs, s.restartCounts, n, status) <==>
            (AsksAttempt(s, n, status) && AttemptsMade(s, n) >= 5) || status.Signaled? || status.code != 0
  {
  }

  /** A service is respawned by request, with its reply released, or fails if that cannot be done. */
  lemma RequestedRule(cfg: Catalog, s: Loop, pid: Pid, status: WaitStatus, stopping: bool, spawn: Option<Pid>)
    requires !s.aborted && pid in s.pidToName && s.pidToName[pid] in s.pendingRestart
    ensures var n := s.pidToName[pid];
            var s0 := s.(pidToName := s.pidToName - {pid}, pendingRestart := s.pendingRestart - {n},
                         restartReplies := s.restartReplies - {n});
            Step(cfg, s, Reaped(pid, status, stopping, spawn)) ==
            match spawn
            case Some(q) => s0.(states := s.states[n := Running(q)],
                                shared := Row(s.shared, n, "running", Some(q)),
                                pidToName := (s.pidToName - {pid})[q := n],
                                log := s.log + [Respawned(n, q, true)])
            case None => s0.(states := s.states[n := Failed], shared := Row(s.shared, n, "failed", None))
  {
    hide OnEnd, OnAutoRespawn;
  }

  lemma RespawnRule(s: Loop, n: Name, spawn: Option<Pid>)
    ensures OnAutoRespawn(s, n, spawn) ==
            var s1 := s.(restartCounts := s.restartCounts[n := AttemptsMade(s, n) + 1]);
            match spawn
            case Some(q) => s1.(states := s.states[n := Running(q)],
                                shared := Row(s.shared, n, "running", Some(q)),
                                pidToName := s.pidToName[q := n],
                                log := s.log + [Respawned(n, q, false)])
            case None => s1.(aborted := true)
  {
  }

  /** What is shown of an ended service. */
  ghost function EndShown(s: Loop, n: Name, status: WaitStatus): (ServiceState, string) {
    if AsksAttempt(s, n, status) && AttemptsMade(s, n) >= 5 then (Failed, "failed")
    else (Exited(if status.Signaled? then -1 else status.code), "exited")
  }

  ghost predicate EndsBadly(s: Loop, n: Name, status: WaitStatus) {
    (AsksAttempt(s, n, status) && AttemptsMade(s, n) >= 5) || status.Signaled? || status.code != 0
  }

  /** A service ends for good. */
  ghost predicate Ends(cfg: Catalog, s: Loop, s': Loop, n: Name, status: WaitStatus) {
    var (st, tag) := EndShown(s, n, status);
    && (n in s.readyReported ==> s'.inDegree == s.inDegree && s'.toStart == s.toStart)
    && (n !in s.readyReported ==> Releases(cfg, s, s', n))
    && s' == s.(restartCounts := s.restartCounts[n := AttemptsMade(s, n)],
                states := s.states[n := st],
                shared := Row(s.shared, n, tag, None),
                completed := s.completed + 1,
                blocked := s.blocked + if EndsBadly(s, n, status) && n !in s.readyReported then HardDependents(cfg, n) else {},
                readyReported := s.readyReported + {n},
                inDegree := s'.inDegree,
                toStart := s'.toStart,
                log := s.log + [Ended(n, EndsBadly(s, n, status), n in s.readyReported)])
  }

  lemma EndRow(s: Loop, n: Name, status: WaitStatus)
    ensures FinalState(s.defs, s.restartCounts, n, status) == EndShown(s, n, status).0
    ensures Sync(s.shared, n, FinalState(s.defs, s.restartCounts, n, status)) == Row(s.shared, n, EndShown(s, n, status).1, None)
    ensures Unsuccessful(s.defs, s.restartCounts, n, status) == EndsBadly(s, n, status)
    ensures CountOf(s.restartCounts, n) == AttemptsMade(s, n)
  {
    hide AsksAttempt, FinalState, Unsuccessful;
    FinalRule(s, n, status);
  }

  lemma EndReportedRule(cfg: Catalog, s: Loop, n: Name, status: WaitStatus)
    requires n in s.readyReported
    ensures Ends(cfg, s, OnEnd(cfg, s, n, status), n, status)
  {
    hide Releases, NeedsDependents, HardDependents, EndShown, EndsBadly, AttemptsMade, Unsuccessful, FinalState, CountOf, OnEnd, Row;
    hide Sync, Lowered, Newly;
    EndRow(s, n, status);
    EndReportedFields(cfg, s, n, status);
    assert s.blocked + {} == s.blocked;
  }

  lemma EndFirstRule(cfg: Catalog, s: Loop, n: Name, status: WaitStatus)
    requires n !in s.readyReported
    ensures Ends(cfg, s, OnEnd(cfg, s, n, status), n, status)
  {
    hide Releases, NeedsDependents, HardDependents, EndShown, EndsBadly, AttemptsMade, Unsuccessful, FinalState, CountOf, OnEnd, Row;
    hide Sync, Lowered, Newly;
    EndRow(s, n, status);
    HardDependentsAre(cfg, n);
    EndFirstFields(cfg, s, n, status);
    ReleasesBy(cfg, s, OnEnd(cfg, s, n, status), n);
    assert s.blocked + {} == s.blocked;
  }

  lemma EndRule(cfg: Catalog, s: Loop, n: Name, status: WaitStatus)
    ensures Ends(cfg, s, OnEnd(cfg, s, n, status), n, status)
  {
    hide *;
    if n in s.readyReported {
      EndReportedRule(cfg, s, n, status);
    } else {
      EndFirstRule(cfg, s, n, status);
    }
  }

  /**
   Without a request, a service is respawned exactly if its policy asks for it, fewer than five
   automatic restarts were made and no shutdown is under way; a respawn that fails ends the run.
   Otherwise it ends for good.
   */
  lemma ReapRule(cfg: Catalog, s: Loop, pid: Pid, status: WaitStatus, stopping: bool, spawn: Option<Pid>)
    requires !s.aborted && pid in s.pidToName && s.pidToName[pid] !in s.pendingRestart
    ensures var n, s0 := s.pidToName[pid], s.(pidToName := s.pidToName - {pid});
            var s' := Step(cfg, s, Reaped(pid, status, stopping, spawn));
            if AsksAttempt(s, n, status) && AttemptsMade(s, n) < 5 && !stopping then
              var s1 := s0.(restartCounts := s.restartCounts[n := AttemptsMade(s, n) + 1]);
              s' == match spawn
                    case Some(q) => s1.(states := s.states[n := Running(q)],
                                        shared := Row(s.shared, n, "running", Some(q)),
                                        pidToName := (s.pidToName - {pid})[q := n],
                                        log := s.log + [Respawned(n, q, false)])
                    case None => s1.(aborted := true)
            else Ends(cfg, s0, s', n, status)
  {
    hide OnEnd, OnManualRespawn, OnAutoRespawn, WillRestart, Row, AsksAttempt, AttemptsMade, Ends;
    var n, s0 := s.pidToName[pid], s.(pidToName := s.pidToName - {pid});
    RestartsIff(s, n, status, stopping);
    SameAttempts(s, s0, n, status);
    RespawnRule(s0, n, spawn);
    EndRule(cfg, s0, n, status);
  }

  lemma SameAttempts(s: Loop, s0: Loop, n: Name, status: WaitStatus)
    requires s0.defs == s.defs && s0.restartCounts == s.restartCounts
    ensures AsksAttempt(s0, n, status) == AsksAttempt(s, n, status) && AttemptsMade(s0, n) == AttemptsMade(s, n)
  {
  }

  /** So a child is replaced, and its service runs again, in exactly these cases. */
  lemma RespawnedIff(cfg: Catalog, s: Loop, pid: Pid, status: WaitStatus, stopping: bool, newPid: Pid)
    requires !s.aborted && pid in s.pidToName && s.pidToName[pid] !in s.pendingRestart
    ensures var n := s.pidToName[pid];
            var s' := Step(cfg, s, Reaped(pid, status, stopping, Some(newPid)));
            && (s'.pidToName == (s.pidToName - {pid})[newPid := n] && s'.states == s.states[n := Running(newPid)] <==>
                AsksAttempt(s, n, status) && AttemptsMade(s, n) < 5 && !stopping)
            && (!(AsksAttempt(s, n, status) && AttemptsMade(s, n) < 5 && !stopping) ==>
                  && s'.pidToName == s.pidToName - {pid}
                  && s'.states == s.states[n := if AsksAttempt(s, n, status) && AttemptsMade(s, n) >= 5 then Failed
                                                else if status.Signaled? then Exited(-1) else Exited(status.code)])
  {
    var n := s.pidToName[pid];
    SameAttempts(s, s.(pidToName := s.pidToName - {pid}), n, status);
    ReapRule(cfg, s, pid, status, stopping, Some(newPid));
    hide Step, Row, AsksAttempt, AttemptsMade, Releases, HardDependents, EndsBadly;
    assert s.states[n := Running(newPid)][n] == Running(newPid);
  }

  /** waitpid answered ECHILD. */
  lemma VanishRule(cfg: Catalog, s: Loop, pid: Pid)
    requires !s.aborted
    ensures Step(cfg, s, Vanished(pid)) == s.(pidToName := s.pidToName - {pid}, completed := s.completed + 1)
  {
  }

  // ------------------------------------------------------------------------------------------
  // Commands
  // ------------------------------------------------------------------------------------------

  ghost predicate ShownUp(s: Loop, n: Name) {
    n in s.states && (s.states[n].Running? || s.states[n] == Ready)
  }

  /** A child is spawned by hand, if there is a definition and the spawn works. */
  ghost function ByHand(s: Loop, n: Name, spawn: Option<Pid>): Loop {
    if n in s.defs && spawn.Some?
    then s.(states := s.states[n := Running(spawn.value)],
            shared := Row(s.shared, n, "running", spawn),
            pidToName := s.pidToName[spawn.value := n])
    else s
  }

  lemma ByHandRule(s: Loop, n: Name, spawn: Option<Pid>)
    ensures SpawnByHand(s, n, spawn) == ByHand(s, n, spawn)
  {
    assert s.log + [] == s.log;
  }

  /** Start spawns a child of a known service that is not up, and is refused otherwise. */
  lemma StartRule(cfg: Catalog, s: Loop, n: Name, spawn: Option<Pid>)
    requires !s.aborted
    ensures Step(cfg, s, StartCommand(n, spawn)) == if n in s.states && !ShownUp(s, n) then ByHand(s, n, spawn) else s
  {
    hide SpawnByHand, ByHand;
    ByHandRule(s, n, spawn);
  }

  /** Restart is filed for a service that is up, spawns one that is not, and is refused if it is unknown. */
  lemma RestartRule(cfg: Catalog, s: Loop, n: Name, reply: ReplyId, spawn: Option<Pid>)
    requires !s.aborted
    ensures Step(cfg, s, RestartCommand(n, reply, spawn)) ==
            if n !in s.states then s
            else if ShownUp(s, n) then
              s.(pendingRestart := s.pendingRestart + {n}, restartReplies := s.restartReplies[n := reply])
            else ByHand(s, n, spawn)
  {
    hide SpawnByHand, ByHand;
    ByHandRule(s, n, spawn);
  }

  /**
   Reload takes up a changed definition in any case; then it files a restart if a child of the service
   is tracked, and spawns one from the new definition if not. Any other re-read changes nothing.
   */
  lemma ReloadRule(cfg: Catalog, s: Loop, n: Name, reply: ReplyId, reread: Reread, spawn: Option<Pid>)
    requires !s.aborted
    ensures var s' := Step(cfg, s, ReloadCommand(n, reply, reread, spawn));
            match reread
            case Changed(def) =>
              s' == var s1 := s.(defs := s.defs[n := def]);
                    if exists p :: p in s.pidToName && s.pidToName[p] == n then
                      s1.(pendingRestart := s.pendingRestart + {n}, restartReplies := s.restartReplies[n := reply])
                    else if spawn.Some? then
                      s1.(states := s.states[n := Running(spawn.value)],
                          shared := Row(s.shared, n, "running", spawn),
                          pidToName := s.pidToName[spawn.value := n])
                    else s1
            case _ => s' == s
  {
    hide SpawnByHand, Row;
    assert n in s.pidToName.Values <==> exists p :: p in s.pidToName && s.pidToName[p] == n;
    if reread.Changed? {
      ByHandRule(s.(defs := s.defs[n := reread.def]), n, spawn);
    }
  }

  /** The five words a state is shown by. */
  lemma TagRule()
    ensures Tag(Pending) == "pending" && Tag(Ready) == "ready" && Tag(Failed) == "failed"
    ensures forall pid :: Tag(Running(pid)) == "running"
    ensures forall code :: Tag(Exited(code)) == "exited"
  {
  }
}
