/** The supervisor as the mutable object the source runs (src/executor.rs). */
module Execution {
  import opened Services
  import opened Ordering
  import opened Dependency
  import opened Kahn
  import opened Graph
  import opened Build
  import opened Supervisor
  import opened SupervisorAnyRun
  import opened SupervisorEnvironment

  class Executor {
    const graph: ServiceGraph
    /** Whether every fork and exec of this run succeeds; otherwise any of them may fail. */
    const reliable: bool
    var pidToName: map<Pid, Name>
    var readyReported: set<Name>
    var blocked: set<Name>
    var restartCounts: map<Name, nat>
    var states: map<Name, ServiceState>
    var shared: map<Name, Info>
    var pendingRestart: set<Name>
    var restartReplies: map<Name, ReplyId>
    var toStart: seq<Name>
    var completed: nat
    var defs: Catalog
    var aborted: bool
    var log: seq<Action>

    /** The degrees the run began with, and the events handled since. */
    ghost var degree0: map<Name, nat>
    ghost var history: seq<Event>

    ghost function State(): Loop
      reads this, graph
    {
      Loop(graph.inDegree, pidToName, readyReported, blocked, restartCounts, states, shared, pendingRestart,
           restartReplies, toStart, completed, defs, aborted, log)
    }

    /** The object is in the state that its history leads to. */
    ghost predicate Valid()
      reads this, graph
    {
      && graph.Valid()
      && PossibleRun(graph.services, Init(graph.services, degree0), history)
      && State() == Run(graph.services, Init(graph.services, degree0), history)
    }

    /** Handling one more event, when the fields have been brought to the state it leads to. */
    ghost method Record(s: Loop, e: Event)
      requires graph.Valid() && PossibleRun(graph.services, Init(graph.services, degree0), history)
      requires s == Run(graph.services, Init(graph.services, degree0), history) && Possible(s, e)
      requires State() == Step(graph.services, s, e)
      modifies `history
      ensures Valid() && history == old(history) + [e]
    {
      hide Step, Possible, Init, WellBuilt;
      RunAppends(graph.services, Init(graph.services, degree0), history, e);
      history := history + [e];
    }

    /** Enter the loop with a graph and the service list it was built from. */
    constructor (graph: ServiceGraph, services: seq<ServiceDef>, reliable: bool)
      requires graph.Valid() && DistinctNames(services) && IsCatalogOf(graph.services, services)
      ensures this.graph == graph && this.reliable == reliable && Valid() && history == [] && degree0 == graph.inDegree
      ensures State() == Init(graph.services, graph.inDegree) && !aborted
    {
      hide Acyclic, WellBuilt, Listing;
      var byName := IndexByName(services);
      SameCatalog(graph.services, byName, services);
      var ready := graph.InitiallyReady();
      this.graph, this.reliable := graph, reliable;
      pidToName, readyReported, blocked, restartCounts := map[], {}, {}, map[];
      states := map n | n in byName :: Pending;
      shared := map n | n in byName :: Info(n, "pending", None);
      pendingRestart, restartReplies := {}, map[];
      toStart, completed, defs, aborted, log := ready, 0, byName, false, [];
      degree0, history := graph.inDegree, [];
    }

    method SetState(name: Name, st: ServiceState)
      modifies `states, `shared
      ensures State() == old(State()).(states := old(states)[name := st], shared := Sync(old(shared), name, st))
    {
      hide Sync;
      states := states[name := st];
      shared := Sync(shared, name, st);
    }

    method BlockDependents(name: Name)
      requires graph.Valid()
      modifies `blocked
      ensures State() == old(State()).(blocked := old(blocked) + NeedsDependents(graph.services, name))
    {
      var list := graph.DependentsByNeed(name);
      for i := 0 to |list|
        invariant blocked == old(blocked) + Elems(list[..i])
      {
        assert list[..i + 1] == list[..i] + [list[i]];
        blocked := blocked + {list[i]};
      }
      assert list[..|list|] == list;
    }

    method ReadyBody(name: Name)
      requires graph.Valid()
      modifies this, graph`inDegree
      ensures graph.Valid() && degree0 == old(degree0) && history == old(history)
      ensures State() == OnReady(graph.services, old(State()), name)
    {
      hide WellBuilt, Sync, Lowered, Newly;
      if name !in readyReported {
        readyReported := readyReported + {name};
        SetState(name, Ready);
        log := log + [Reported(name)];
        Release(name);
      }
    }

    /** A readiness signal: only the first for each service counts. */
    method HandleReady(name: Name)
      requires Valid() && !aborted
      modifies this, graph`inDegree
      ensures Valid() && history == old(history) + [ReadySignal(name)] && degree0 == old(degree0)
      ensures State() == OnReady(graph.services, old(State()), name)
    {
      ghost var s := State();
      hide Run, PossibleRun, Init, WellBuilt, OnReady;
      ReadyBody(name);
      Record(s, ReadySignal(name));
    }

    /** Fork and exec: any pid that no tracked child has, or a failure. */
    method SpawnService() returns (spawn: Option<Pid>)
      ensures FreshPid(pidToName.Keys, spawn) && (reliable ==> spawn.Some?)
    {
      var works: bool, pid: Pid := *, *;
      if pid in pidToName {
        pid := PidAbove(pidToName.Keys);
      }
      spawn := if works || reliable then Some(pid) else None;
    }

    /** A blocked service is given up. */
    method SkipService(name: Name)
      requires graph.Valid()
      modifies this, graph`inDegree
      ensures graph.Valid() && degree0 == old(degree0) && history == old(history)
      ensures State() == OnSkip(graph.services, old(State()), name)
    {
      hide WellBuilt, Sync, Lowered, Newly, NeedsDependents;
      SetState(name, Failed);
      BlockDependents(name);
      Release(name);
      completed := completed + 1;
      log := log + [Skipped(name)];
    }

    method TrackChild(name: Name, pid: Pid, entry: seq<Action>)
      modifies this
      ensures degree0 == old(degree0) && history == old(history)
      ensures State() == Track(old(State()), name, pid, entry)
    {
      hide Sync;
      SetState(name, Running(pid));
      pidToName := pidToName[pid := name];
      log := log + entry;
    }

    /** Pop one service off the queue: skip it, launch it, or fail to. */
    method LaunchBody() returns (spawn: Option<Pid>)
      requires graph.Valid() && toStart != []
      modifies this, graph`inDegree
      ensures graph.Valid() && degree0 == old(degree0) && history == old(history)
      ensures FreshPid(old(pidToName).Keys, spawn)
      ensures State() == OnLaunch(graph.services, old(State()), spawn)
      ensures reliable && NeedsSpawn(old(State()), LaunchNext(spawn)) ==> spawn.Some?
    {
      hide WellBuilt, OnSkip, Track;
      spawn := None;
      var name := toStart[|toStart| - 1];
      toStart := toStart[..|toStart| - 1];
      if name in blocked {
        SkipService(name);
        return;
      }
      if name in defs {
        spawn := SpawnService();
        if spawn.None? {
          aborted := true;
          return;
        }
        TrackChild(name, spawn.value, [Started(name, spawn.value)]);
      }
    }

    /** One pass of the launch loop. */
    method LaunchOne() returns (spawn: Option<Pid>)
      requires Valid() && !aborted && toStart != []
      modifies this, graph`inDegree
      ensures Valid() && history == old(history) + [LaunchNext(spawn)] && degree0 == old(degree0)
      ensures State() == OnLaunch(graph.services, old(State()), spawn)
      ensures (reliable ==> Regular(old(State()), LaunchNext(spawn))) && (aborted || Regular(old(State()), LaunchNext(spawn)))
    {
      ghost var s := State();
      hide Run, PossibleRun, Init, WellBuilt, OnLaunch;
      spawn := LaunchBody();
      FailedLaunchAborts(graph.services, s, spawn);
      assert State().aborted == OnLaunch(graph.services, s, spawn).aborted;
      Record(s, LaunchNext(spawn));
    }

    method ReapBody(pid: Pid, status: WaitStatus, stopping: bool) returns (spawn: Option<Pid>)
      requires graph.Valid() && pid in pidToName
      modifies this, graph`inDegree
      ensures graph.Valid() && degree0 == old(degree0) && history == old(history)
      ensures FreshPid(old(pidToName).Keys - {pid}, spawn)
      ensures State() == OnReaped(graph.services, old(State()), pid, status, stopping, spawn)
      ensures reliable && NeedsSpawn(old(State()), Reaped(pid, status, stopping, spawn)) ==> spawn.Some?
    {
      hide WellBuilt, OnManualRespawn, OnAutoRespawn, OnEnd, WillRestart;
      spawn := None;
      var name := pidToName[pid];
      pidToName := pidToName - {pid};
      if name in pendingRestart {
        spawn := RespawnManually(name);
        return;
      }
      if WillRestart(defs, restartCounts, name, status, stopping) {
        spawn := RespawnAutomatically(name);
        return;
      }
      EndService(name, status);
    }

    /** A tracked child exited or was killed. */
    method HandleReaped(pid: Pid, status: WaitStatus, stopping: bool) returns (spawn: Option<Pid>)
      requires Valid() && !aborted && pid in pidToName
      modifies this, graph`inDegree
      ensures Valid() && history == old(history) + [Reaped(pid, status, stopping, spawn)] && degree0 == old(degree0)
      ensures State() == OnReaped(graph.services, old(State()), pid, status, stopping, spawn)
      ensures reliable || spawn.Some? || !NeedsSpawn(old(State()), Reaped(pid, status, stopping, spawn)) ==>
                Regular(old(State()), Reaped(pid, status, stopping, spawn))
    {
      ghost var s := State();
      hide Run, PossibleRun, Init, WellBuilt, OnReaped;
      spawn := ReapBody(pid, status, stopping);
      Record(s, Reaped(pid, status, stopping, spawn));
    }

    method RespawnManually(name: Name) returns (spawn: Option<Pid>)
      modifies this
      ensures reliable ==> spawn.Some?
      ensures degree0 == old(degree0) && history == old(history)
      ensures FreshPid(old(pidToName).Keys, spawn)
      ensures State() == OnManualRespawn(old(State()), name, spawn)
    {
      hide Sync, Track;
      pendingRestart := pendingRestart - {name};
      restartReplies := restartReplies - {name};
      spawn := SpawnService();
      match spawn
      case Some(pid) => TrackChild(name, pid, [Respawned(name, pid, true)]);
      case None => SetState(name, Failed);
    }

    method RespawnAutomatically(name: Name) returns (spawn: Option<Pid>)
      modifies this
      ensures reliable ==> spawn.Some?
      ensures degree0 == old(degree0) && history == old(history)
      ensures FreshPid(old(pidToName).Keys, spawn)
      ensures State() == OnAutoRespawn(old(State()), name, spawn)
    {
      hide Track, CountOf;
      restartCounts := restartCounts[name := CountOf(restartCounts, name) + 1];
      spawn := SpawnService();
      match spawn
      case Some(pid) => TrackChild(name, pid, [Respawned(name, pid, false)]);
      case None => aborted := true;
    }

    /** `mark_ready`, queueing what it unlocks. */
    method Release(name: Name)
      requires graph.Valid()
      modifies `toStart, graph`inDegree
      ensures graph.Valid()
      ensures State() == old(State()).(inDegree := Lowered(graph.services, old(graph.inDegree), name),
                                       toStart := old(toStart) + Newly(graph.services, old(graph.inDegree), name))
    {
      hide WellBuilt, Lowered, Unlocked, Listing;
      var newly := graph.MarkReady(name);
      toStart := toStart + newly;
    }

    /** Note the end of a service, without its consequences for others. */
    method Settle(name: Name, status: WaitStatus, failed: bool, reported: bool)
      modifies `states, `shared, `restartCounts, `completed, `log
      ensures State() == old(State()).(
                states := old(states)[name := FinalState(defs, old(restartCounts), name, status)],
                shared := Sync(old(shared), name, FinalState(defs, old(restartCounts), name, status)),
                restartCounts := old(restartCounts)[name := CountOf(old(restartCounts), name)],
                completed := old(completed) + 1,
                log := old(log) + [Ended(name, failed, reported)])
    {
      hide Sync, FinalState, CountOf;
      SetState(name, FinalState(defs, restartCounts, name, status));
      restartCounts := restartCounts[name := CountOf(restartCounts, name)];
      completed := completed + 1;
      log := log + [Ended(name, failed, reported)];
    }

    method EndReported(name: Name, status: WaitStatus)
      requires name in readyReported
      modifies `states, `shared, `restartCounts, `completed, `log
      ensures State() == OnEnd(graph.services, old(State()), name, status)
    {
      hide Sync, Lowered, Newly, NeedsDependents, Unsuccessful, FinalState, CountOf;
      Settle(name, status, Unsuccessful(defs, restartCounts, name, status), true);
      assert readyReported + {name} == readyReported;
    }

    method EndFirst(name: Name, status: WaitStatus)
      requires graph.Valid() && name !in readyReported
      modifies this, graph`inDegree
      ensures graph.Valid() && degree0 == old(degree0) && history == old(history)
      ensures State() == OnEnd(graph.services, old(State()), name, status)
    {
      hide WellBuilt, Sync, Lowered, Newly, NeedsDependents, Unsuccessful, FinalState, CountOf;
      var failed := Unsuccessful(defs, restartCounts, name, status);
      Settle(name, status, failed, false);
      if failed {
        BlockDependents(name);
      }
      readyReported := readyReported + {name};
      Release(name);
    }

    method EndService(name: Name, status: WaitStatus)
      requires graph.Valid()
      modifies this, graph`inDegree
      ensures graph.Valid() && degree0 == old(degree0) && history == old(history)
      ensures State() == OnEnd(graph.services, old(State()), name, status)
    {
      hide WellBuilt, OnEnd;
      if name in readyReported {
        EndReported(name, status);
      } else {
        EndFirst(name, status);
      }
    }

    /** waitpid answered ECHILD. */
    method HandleVanished(pid: Pid)
      requires Valid() && !aborted && pid in pidToName
      modifies this
      ensures Valid() && history == old(history) + [Vanished(pid)] && degree0 == old(degree0)
      ensures State() == OnVanished(old(State()), pid)
    {
      ghost var s := State();
      hide Run, PossibleRun, Init, WellBuilt;
      pidToName := pidToName - {pid};
      completed := completed + 1;
      Record(s, Vanished(pid));
    }

    method SpawnNow(name: Name) returns (spawn: Option<Pid>)
      modifies this
      ensures degree0 == old(degree0) && history == old(history)
      ensures FreshPid(old(pidToName).Keys, spawn)
      ensures State() == SpawnByHand(old(State()), name, spawn)
    {
      hide Track;
      spawn := None;
      if name in defs {
        spawn := SpawnService();
        match spawn
        case None =>
        case Some(pid) => TrackChild(name, pid, []);
      }
    }

    method DeferRestart(name: Name, reply: ReplyId)
      modifies `pendingRestart, `restartReplies
      ensures State() == Defer(old(State()), name, reply)
    {
      pendingRestart := pendingRestart + {name};
      restartReplies := restartReplies[name := reply];
    }

    method HandleStart(name: Name) returns (spawn: Option<Pid>)
      requires Valid() && !aborted
      modifies this
      ensures Valid() && history == old(history) + [StartCommand(name, spawn)] && degree0 == old(degree0)
      ensures State() == OnStart(old(State()), name, spawn)
    {
      ghost var s := State();
      hide Run, PossibleRun, Init, WellBuilt, SpawnByHand, Defer;
      spawn := None;
      if name in states && !IsUp(states, name) {
        spawn := SpawnNow(name);
      }
      Record(s, StartCommand(name, spawn));
    }

    method HandleRestart(name: Name, reply: ReplyId) returns (spawn: Option<Pid>)
      requires Valid() && !aborted
      modifies this
      ensures Valid() && history == old(history) + [RestartCommand(name, reply, spawn)] && degree0 == old(degree0)
      ensures State() == OnRestart(old(State()), name, reply, spawn)
    {
      ghost var s := State();
      hide Run, PossibleRun, Init, WellBuilt, SpawnByHand, Defer;
      spawn := None;
      if name in states {
        if IsUp(states, name) {
          DeferRestart(name, reply);
        } else {
          spawn := SpawnNow(name);
        }
      }
      Record(s, RestartCommand(name, reply, spawn));
    }

    method ReloadBody(name: Name, reply: ReplyId, reread: Reread) returns (spawn: Option<Pid>)
      modifies this
      ensures degree0 == old(degree0) && history == old(history)
      ensures FreshPid(old(pidToName).Keys, spawn)
      ensures State() == OnReload(old(State()), name, reply, reread, spawn)
    {
      hide SpawnByHand, Defer;
      spawn := None;
      if !reread.Changed? {
        return;
      }
      defs := defs[name := reread.def];
      if name in pidToName.Values {
        DeferRestart(name, reply);
        return;
      }
      spawn := SpawnNow(name);
    }

    method HandleReload(name: Name, reply: ReplyId, reread: Reread) returns (spawn: Option<Pid>)
      requires Valid() && !aborted
      modifies this
      ensures Valid() && history == old(history) + [ReloadCommand(name, reply, reread, spawn)] && degree0 == old(degree0)
      ensures State() == OnReload(old(State()), name, reply, reread, spawn)
    {
      ghost var s := State();
      hide Run, PossibleRun, Init, WellBuilt, OnReload;
      spawn := ReloadBody(name, reply, reread);
      Record(s, ReloadCommand(name, reply, reread, spawn));
    }

    // ----------------------------------------------------------------------------------------
    // The loop
    // ----------------------------------------------------------------------------------------

    method HandleCommand(command: Command) returns (ghost e: Event)
      requires Valid() && !aborted
      modifies this
      ensures Valid() && !aborted && degree0 == old(degree0)
      ensures history == old(history) + [e] && Answers(e, command)
    {
      hide Valid, OnStart, OnRestart, OnReload;
      ghost var s := State();
      match command
      case Start(name) =>
        var spawn := HandleStart(name);
        e := StartCommand(name, spawn);
        CommandsDoNotAbort(s, command, spawn);
        assert !State().aborted;
      case Restart(name, reply) =>
        var spawn := HandleRestart(name, reply);
        e := RestartCommand(name, reply, spawn);
        CommandsDoNotAbort(s, command, spawn);
        assert !State().aborted;
      case Reload(name, reply, reread) =>
        var spawn := HandleReload(name, reply, reread);
        e := ReloadCommand(name, reply, reread, spawn);
        CommandsDoNotAbort(s, command, spawn);
        assert !State().aborted;
    }

    /** Handle every command waiting in the channel, in order. */
    method DrainCommands(commands: seq<Command>) returns (ghost events: seq<Event>)
      requires Valid() && !aborted
      modifies this
      ensures Valid() && !aborted && degree0 == old(degree0)
      ensures history == old(history) + events && AnswersAll(events, commands)
    {
      hide Valid, OnStart, OnRestart, OnReload, OnReady, OnLaunch, OnReaped, OnVanished, PositiveSet, Answers;
      events := [];
      for i := 0 to |commands|
        invariant Valid() && !aborted && degree0 == old(degree0)
        invariant history == old(history) + events && AnswersAll(events, commands[..i])
      {
        ghost var e := HandleCommand(commands[i]);
        events := events + [e];
      }
      assert commands[..|commands|] == commands;
    }

    /** Handle every readiness signal waiting in the channel, in order. */
    method DrainReady(names: seq<Name>) returns (ghost events: seq<Event>)
      requires Valid() && !aborted
      modifies this, graph`inDegree
      ensures Valid() && !aborted && degree0 == old(degree0) && pidToName == old(pidToName)
      ensures history == old(history) + events && Signals(events, names)
    {
      hide Valid, OnStart, OnRestart, OnReload, OnReady, OnLaunch, OnReaped, OnVanished, PositiveSet;
      events := [];
      for i := 0 to |names|
        invariant Valid() && !aborted && degree0 == old(degree0) && pidToName == old(pidToName)
        invariant history == old(history) + events && Signals(events, names[..i])
      {
        ghost var s := State();
        HandleReady(names[i]);
        ReadyDoesNotAbort(graph.services, s, names[i]);
        assert State().pidToName == s.pidToName && !State().aborted;
        events := events + [ReadySignal(names[i])];
      }
      assert names[..|names|] == names;
    }

    /** Launch until the queue is empty: skipping a service may queue more, but never without end. */
    method LaunchAll() returns (ghost events: seq<Event>)
      requires Valid() && !aborted
      modifies this, graph`inDegree
      ensures Valid() && degree0 == old(degree0)
      ensures history == old(history) + events && Launches(events)
      ensures !aborted ==> toStart == []
      ensures aborted ==> events != [] && events[|events| - 1] == LaunchNext(None)
      ensures State() == Run(graph.services, old(State()), events)
      ensures !aborted ==> SpawnsRegular(graph.services, old(State()), events)
      ensures reliable ==> !aborted
    {
      hide Run, SpawnsRegular, Regular, NeedsSpawn, Step, Possible;
      hide Valid, OnStart, OnRestart, OnReload, OnReady, OnLaunch, OnReaped, OnVanished, PositiveSet;
      events := [];
      NoEventsYet(graph.services, State());
      while toStart != [] && !aborted
        invariant Valid() && degree0 == old(degree0)
        invariant history == old(history) + events && Launches(events)
        invariant aborted ==> events != [] && events[|events| - 1] == LaunchNext(None)
        invariant State() == Run(graph.services, old(State()), events)
        invariant (reliable ==> !aborted) && (!aborted ==> SpawnsRegular(graph.services, old(State()), events))
        decreases |PositiveSet(graph.inDegree)|, |toStart|
      {
        ghost var s := State();
        var spawn := LaunchOne();
        LaunchProgresses(graph.services, s, spawn);
        LaunchContinues(graph.services, old(State()), events, s, spawn);
        assert State() == OnLaunch(graph.services, s, spawn) && State().aborted == aborted;
        events := events + [LaunchNext(spawn)];
      }
    }

    /**
     Poll each tracked child once, in arbitrary order, until all are seen, waitpid fails for one, or a
     respawn fails. `stopping` are the children that are polled with the shutdown flag set.
     */
    method Poll(children: Pid -> Child, stopping: set<Pid>)
      returns (broken: bool, ghost events: seq<Event>, ghost seen: set<Pid>)
      requires Valid() && !aborted
      modifies this, graph`inDegree
      ensures Valid() && degree0 == old(degree0)
      ensures history == old(history) + events && Polls(events, children, stopping, seen)
      ensures seen <= old(pidToName).Keys && (broken || aborted || seen == old(pidToName).Keys)
      ensures broken <==> SomeBroken(children, seen)
      ensures aborted ==> EndsInFailedSpawn(events)
      ensures State() == Run(graph.services, old(State()), events)
      ensures reliable && NoneGone(children) ==> !aborted && SpawnsRegular(graph.services, old(State()), events)
    {
      hide Run, SpawnsRegular, Regular, NeedsSpawn, Step, Possible;
      hide Valid, OnStart, OnRestart, OnReload, OnReady, OnLaunch, OnReaped, OnVanished, PositiveSet, Polls;
      broken, events, seen := false, [], {};
      var rest := pidToName.Keys;
      NothingPolled(children, stopping);
      NoEventsYet(graph.services, State());
      while rest != {} && !aborted && !broken
        invariant Valid() && degree0 == old(degree0)
        invariant rest <= pidToName.Keys && seen !! rest && seen + rest == old(pidToName).Keys
        invariant history == old(history) + events && Polls(events, children, stopping, seen)
        invariant broken <==> SomeBroken(children, seen)
        invariant aborted ==> EndsInFailedSpawn(events)
        invariant State() == Run(graph.services, old(State()), events)
        invariant reliable && NoneGone(children) ==> !aborted && SpawnsRegular(graph.services, old(State()), events)
        decreases rest
      {
        var pid :| pid in rest;
        rest := rest - {pid};
        ghost var s := State();
        var child := children(pid);
        match child {
          case StillAlive =>
            PollNone(events, children, stopping, seen, pid);
          case Interrupted =>
            PollNone(events, children, stopping, seen, pid);
          case Broken =>
            PollNone(events, children, stopping, seen, pid);
            broken := true;
          case Gone =>
            HandleVanished(pid);
            VanishKeepsOthers(s, pid);
            assert State() == OnVanished(s, pid) && State().aborted == aborted;
            PollOne(events, children, stopping, seen, pid, Vanished(pid));
            VanishContinues(graph.services, old(State()), events, s, pid);
            events := events + [Vanished(pid)];
          case Over(status) =>
            var spawn := HandleReaped(pid, status, pid in stopping);
            ReapKeepsOthers(graph.services, s, pid, status, pid in stopping, spawn);
            ReapContinues(graph.services, old(State()), events, s, Reaped(pid, status, pid in stopping, spawn));
            assert State() == OnReaped(graph.services, s, pid, status, pid in stopping, spawn) && State().aborted == aborted;
            PollOne(events, children, stopping, seen, pid, Reaped(pid, status, pid in stopping, spawn));
            events := events + [Reaped(pid, status, pid in stopping, spawn)];
        }
        seen := seen + {pid};
      }
      assert rest == {} ==> seen == old(pidToName).Keys;
    }
  }

  // ------------------------------------------------------------------------------------------
  // Which events each part of a pass handles
  // ------------------------------------------------------------------------------------------

  /** Handling this command is this event. */
  ghost predicate Answers(e: Event, command: Command) {
    match command
    case Start(name) => e.StartCommand? && e.name == name
    case Restart(name, reply) => e.RestartCommand? && e.name == name && e.reply == reply
    case Reload(name, reply, reread) => e.ReloadCommand? && e.name == name && e.reply == reply && e.reread == reread
  }

  ghost predicate AnswersAll(events: seq<Event>, commands: seq<Command>) {
    |events| == |commands| && forall i :: 0 <= i < |events| ==> Answers(events[i], commands[i])
  }

  ghost predicate Signals(events: seq<Event>, names: seq<Name>) {
    |events| == |names| && forall i :: 0 <= i < |events| ==> events[i] == ReadySignal(names[i])
  }

  ghost predicate Launches(events: seq<Event>) {
    forall i :: 0 <= i < |events| ==> events[i].LaunchNext?
  }

  /** The event is what waitpid answered for its child. */
  ghost predicate Polled(e: Event, children: Pid -> Child, stopping: set<Pid>) {
    match e
    case Reaped(p, status, flag, _) => children(p) == Over(status) && flag == (p in stopping)
    case Vanished(p) => children(p) == Gone
    case _ => false
  }

  /** One event for each child seen that is over or gone, and no other event. */
  ghost predicate Polls(events: seq<Event>, children: Pid -> Child, stopping: set<Pid>, seen: set<Pid>) {
    && (forall i :: 0 <= i < |events| ==> Polled(events[i], children, stopping) && events[i].pid in seen)
    && (forall i, j :: 0 <= i < j < |events| ==> events[i].pid != events[j].pid)
    && (forall p :: p in seen && (children(p).Over? || children(p).Gone?) ==>
          exists i :: 0 <= i < |events| && events[i].pid == p)
  }

  /** waitpid never answers ECHILD. */
  ghost predicate NoneGone(children: Pid -> Child) {
    forall p :: !children(p).Gone?
  }

  lemma NoEventsYet(cfg: Catalog, s: Loop)
    ensures Run(cfg, s, []) == s && SpawnsRegular(cfg, s, [])
  {
  }

  /** waitpid failed for one of these children. */
  ghost predicate SomeBroken(children: Pid -> Child, seen: set<Pid>) {
    exists p :: p in seen && children(p).Broken?
  }

  ghost predicate EndsInFailedSpawn(events: seq<Event>) {
    events != [] && events[|events| - 1].Reaped? && events[|events| - 1].spawn.None?
  }

  lemma NothingPolled(children: Pid -> Child, stopping: set<Pid>)
    ensures Polls([], children, stopping, {})
  {
  }

  lemma PollNone(events: seq<Event>, children: Pid -> Child, stopping: set<Pid>, seen: set<Pid>, pid: Pid)
    requires Polls(events, children, stopping, seen)
    requires !children(pid).Over? && !children(pid).Gone?
    ensures Polls(events, children, stopping, seen + {pid})
  {
  }

  lemma PollOne(events: seq<Event>, children: Pid -> Child, stopping: set<Pid>, seen: set<Pid>, pid: Pid, e: Event)
    requires Polls(events, children, stopping, seen) && pid !in seen && Polled(e, children, stopping) && e.pid == pid
    ensures Polls(events + [e], children, stopping, seen + {pid})
  {
    var all := events + [e];
    forall p | p in seen + {pid} && (children(p).Over? || children(p).Gone?)
      ensures exists i :: 0 <= i < |all| && all[i].pid == p
    {
      if p == pid {
        assert all[|events|].pid == p;
      } else {
        var i :| 0 <= i < |events| && events[i].pid == p;
        assert all[i].pid == p;
      }
    }
  }

  datatype Command =
    | Start(name: Name)
    | Restart(name: Name, reply: ReplyId)
    | Reload(name: Name, reply: ReplyId, reread: Reread)

  /** What waitpid answers for one child. */
  datatype Child = StillAlive | Over(status: WaitStatus) | Gone | Interrupted | Broken

  ghost function PositiveSet(degree: map<Name, nat>): set<Name> {
    set n | n in degree && degree[n] > 0
  }

  /** A mark that unlocks something takes a service out of the positive ones. */
  lemma MarkProgresses(cfg: Catalog, degree: map<Name, nat>, name: Name)
    ensures |PositiveSet(Lowered(cfg, degree, name))| <= |PositiveSet(degree)|
    ensures Newly(cfg, degree, name) != [] ==> |PositiveSet(Lowered(cfg, degree, name))| < |PositiveSet(degree)|
  {
    var before, after := PositiveSet(degree), PositiveSet(Lowered(cfg, degree, name));
    assert after <= before;
    SubsetCardinality(after, before);
    if Newly(cfg, degree, name) != [] {
      var n := Newly(cfg, degree, name)[0];
      assert n in Elems(Newly(cfg, degree, name));
      assert n in before && n !in after;
    }
  }

  lemma SkipQueue(cfg: Catalog, s: Loop, n: Name)
    ensures OnSkip(cfg, s, n).aborted == s.aborted
    ensures OnSkip(cfg, s, n).inDegree == Lowered(cfg, s.inDegree, n)
    ensures OnSkip(cfg, s, n).toStart == s.toStart + Newly(cfg, s.inDegree, n)
  {
    hide Sync, Lowered, Newly, NeedsDependents;
  }

  lemma TrackQueue(s: Loop, n: Name, pid: Pid)
    ensures Track(s, n, pid, [Started(n, pid)]).aborted == s.aborted
    ensures Track(s, n, pid, [Started(n, pid)]).inDegree == s.inDegree
    ensures Track(s, n, pid, [Started(n, pid)]).toStart == s.toStart
  {
    hide Sync;
  }

  lemma LaunchProgresses(cfg: Catalog, s: Loop, spawn: Option<Pid>)
    requires s.toStart != []
    ensures var s' := OnLaunch(cfg, s, spawn);
            || |PositiveSet(s'.inDegree)| < |PositiveSet(s.inDegree)|
            || (|PositiveSet(s'.inDegree)| == |PositiveSet(s.inDegree)| && |s'.toStart| < |s.toStart|)
  {
    hide PositiveSet, Lowered, Newly, OnSkip, Track;
    var n, s0 := s.toStart[|s.toStart| - 1], s.(toStart := s.toStart[..|s.toStart| - 1]);
    MarkProgresses(cfg, s.inDegree, n);
    SkipQueue(cfg, s0, n);
    if spawn.Some? {
      TrackQueue(s0, n, spawn.value);
    }
  }

  lemma SpawnDoesNotAbort(s: Loop, n: Name, spawn: Option<Pid>)
    ensures SpawnByHand(s, n, spawn).aborted == s.aborted
  {
    hide Sync;
  }

  lemma CommandsDoNotAbort(s: Loop, c: Command, spawn: Option<Pid>)
    ensures c.Start? ==> OnStart(s, c.name, spawn).aborted == s.aborted
    ensures c.Restart? ==> OnRestart(s, c.name, c.reply, spawn).aborted == s.aborted
    ensures c.Reload? ==> OnReload(s, c.name, c.reply, c.reread, spawn).aborted == s.aborted
  {
    hide SpawnByHand;
    SpawnDoesNotAbort(s, c.name, spawn);
    if c.Reload? && c.reread.Changed? {
      SpawnDoesNotAbort(s.(defs := s.defs[c.name := c.reread.def]), c.name, spawn);
    }
  }

  lemma ReadyDoesNotAbort(cfg: Catalog, s: Loop, n: Name)
    ensures OnReady(cfg, s, n).aborted == s.aborted && OnReady(cfg, s, n).pidToName == s.pidToName
  {
    hide Sync, Lowered, Newly;
  }

  lemma LaunchAborts(cfg: Catalog, s: Loop, spawn: Option<Pid>)
    ensures OnLaunch(cfg, s, spawn).aborted && !s.aborted ==> spawn.None? && NeedsSpawn(s, LaunchNext(spawn))
  {
    hide OnSkip, Track;
    if s.toStart != [] {
      var n, s0 := s.toStart[|s.toStart| - 1], s.(toStart := s.toStart[..|s.toStart| - 1]);
      SkipQueue(cfg, s0, n);
      if spawn.Some? {
        TrackQueue(s0, n, spawn.value);
      }
    }
  }

  lemma LaunchContinues(cfg: Catalog, s0: Loop, events: seq<Event>, s: Loop, spawn: Option<Pid>)
    requires s == Run(cfg, s0, events) && !s.aborted
    ensures Run(cfg, s0, events + [LaunchNext(spawn)]) == OnLaunch(cfg, s, spawn)
    ensures OnLaunch(cfg, s, spawn).aborted ==> spawn.None?
    ensures Regular(s, LaunchNext(spawn)) ==> !OnLaunch(cfg, s, spawn).aborted
    ensures Regular(s, LaunchNext(spawn)) && SpawnsRegular(cfg, s0, events) ==>
              SpawnsRegular(cfg, s0, events + [LaunchNext(spawn)])
  {
    LaunchAborts(cfg, s, spawn);
    FailureIsIrregular(s, LaunchNext(spawn));
    hide Run, SpawnsRegular, Regular, OnLaunch, NeedsSpawn;
    RunAppends(cfg, s0, events, LaunchNext(spawn));
    SpawnsAppend(cfg, s0, events, LaunchNext(spawn));
  }

  lemma VanishContinues(cfg: Catalog, s0: Loop, events: seq<Event>, s: Loop, pid: Pid)
    requires s == Run(cfg, s0, events) && !s.aborted
    ensures Run(cfg, s0, events + [Vanished(pid)]) == OnVanished(s, pid) && !OnVanished(s, pid).aborted
  {
    hide Run;
    RunAppends(cfg, s0, events, Vanished(pid));
  }

  lemma ReapContinues(cfg: Catalog, s0: Loop, events: seq<Event>, s: Loop, e: Event)
    requires s == Run(cfg, s0, events) && !s.aborted && e.Reaped? && e.pid in s.pidToName
    ensures Run(cfg, s0, events + [e]) == OnReaped(cfg, s, e.pid, e.status, e.stopping, e.spawn)
    ensures OnReaped(cfg, s, e.pid, e.status, e.stopping, e.spawn).aborted ==> e.spawn.None?
    ensures Regular(s, e) ==> !OnReaped(cfg, s, e.pid, e.status, e.stopping, e.spawn).aborted
    ensures Regular(s, e) && SpawnsRegular(cfg, s0, events) ==> SpawnsRegular(cfg, s0, events + [e])
  {
    ReapKeepsOthers(cfg, s, e.pid, e.status, e.stopping, e.spawn);
    FailureIsIrregular(s, e);
    hide Run, SpawnsRegular, Regular, OnReaped, NeedsSpawn;
    RunAppends(cfg, s0, events, e);
    SpawnsAppend(cfg, s0, events, e);
  }

  lemma FailureIsIrregular(s: Loop, e: Event)
    ensures (e.LaunchNext? || e.Reaped?) && NeedsSpawn(s, e) && e.spawn.None? ==> !Regular(s, e)
  {
    hide NeedsSpawn, Possible;
  }

  /** A launch that is no regular one ends the run. */
  lemma FailedLaunchAborts(cfg: Catalog, s: Loop, spawn: Option<Pid>)
    ensures NeedsSpawn(s, LaunchNext(spawn)) && spawn.None? ==> OnLaunch(cfg, s, spawn).aborted
  {
    hide OnSkip, Track;
  }

  /** Some pid that is not among these. */
  method PidAbove(pids: set<Pid>) returns (bound: Pid)
    ensures bound !in pids
  {
    bound := 0;
    var rest := pids;
    while rest != {}
      invariant forall p :: p in pids ==> p in rest || p < bound
      decreases rest
    {
      var p :| p in rest;
      rest := rest - {p};
      if bound <= p {
        bound := p + 1;
      }
    }
  }

  lemma VanishKeepsOthers(s: Loop, pid: Pid)
    ensures OnVanished(s, pid).aborted == s.aborted
    ensures s.pidToName.Keys - {pid} <= OnVanished(s, pid).pidToName.Keys
  {
  }

  lemma EndPids(cfg: Catalog, s: Loop, n: Name, status: WaitStatus)
    ensures OnEnd(cfg, s, n, status).pidToName == s.pidToName && OnEnd(cfg, s, n, status).aborted == s.aborted
  {
    hide Sync, Lowered, Newly, NeedsDependents, Unsuccessful, FinalState, CountOf;
  }

  lemma RespawnPids(s: Loop, n: Name, spawn: Option<Pid>)
    ensures s.pidToName.Keys <= OnManualRespawn(s, n, spawn).pidToName.Keys
    ensures s.pidToName.Keys <= OnAutoRespawn(s, n, spawn).pidToName.Keys
    ensures OnManualRespawn(s, n, spawn).aborted == s.aborted
    ensures OnAutoRespawn(s, n, spawn).aborted && !s.aborted ==> spawn.None?
  {
    hide Sync, CountOf;
  }

  lemma ReapKeepsOthers(cfg: Catalog, s: Loop, pid: Pid, status: WaitStatus, stopping: bool, spawn: Option<Pid>)
    requires pid in s.pidToName
    ensures s.pidToName.Keys - {pid} <= OnReaped(cfg, s, pid, status, stopping, spawn).pidToName.Keys
    ensures OnReaped(cfg, s, pid, status, stopping, spawn).aborted && !s.aborted ==>
              spawn.None? && NeedsSpawn(s, Reaped(pid, status, stopping, spawn))
  {
    hide OnManualRespawn, OnAutoRespawn, OnEnd, WillRestart;
    var n, s0 := s.pidToName[pid], s.(pidToName := s.pidToName - {pid});
    EndPids(cfg, s0, n, status);
    RespawnPids(s0, n, spawn);
  }

  lemma SameCatalog(a: Catalog, b: Catalog, defs: seq<ServiceDef>)
    requires IsCatalogOf(a, defs) && IsCatalogOf(b, defs)
    ensures a == b
  {
    forall n | n in a
      ensures n in b && a[n] == b[n]
    {
      var i :| 0 <= i < |defs| && defs[i].service.name == n;
    }
  }
}
