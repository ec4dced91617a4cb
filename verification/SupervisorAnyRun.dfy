/** What holds in every run, what manual restarts leave alone, and what a Start command can break. */
module SupervisorAnyRun {
  import opened Services
  import opened Ordering
  import opened Dependency
  import Kahn
  import opened Graph
  import opened Supervisor
  import opened SupervisorInvariant
  import opened SupervisorSteps
  import opened SupervisorTheorems
  import opened SupervisorWork

  // ------------------------------------------------------------------------------------------
  // Every run, whatever the commands
  // ------------------------------------------------------------------------------------------

  ghost predicate IsAutoRestart(a: Action, n: Name) {
    a.Respawned? && !a.manual && a.name == n
  }

  ghost function AutoRestarts(log: seq<Action>, n: Name): nat {
    CountIf(log, a => IsAutoRestart(a, n))
  }

  ghost predicate CountsAutoRestarts(counts: map<Name, nat>, log: seq<Action>, n: Name) {
    AutoRestarts(log, n) <= CountOf(counts, n) <= MAX_RESTARTS
  }

  /** Someone waits for exactly the pending restarts; restarts are limited; every child has a definition. */
  ghost predicate AlwaysInv(s: Loop) {
    && s.restartReplies.Keys == s.pendingRestart
    && (forall n {:trigger CountsAutoRestarts(s.restartCounts, s.log, n)} ::
          CountsAutoRestarts(s.restartCounts, s.log, n))
    && s.pidToName.Values <= s.defs.Keys
  }

  lemma AutoRestartsAppend(log: seq<Action>, a: Action, n: Name)
    ensures AutoRestarts(log + [a], n) == AutoRestarts(log, n) + if IsAutoRestart(a, n) then 1 else 0
  {
    CountIfAppend(log, a, x => IsAutoRestart(x, n));
  }

  /** An entry that is no automatic restart changes no count. */
  lemma CountsKeep(counts: map<Name, nat>, log: seq<Action>, a: Action, n: Name)
    requires CountsAutoRestarts(counts, log, n) && (a.Respawned? ==> a.manual)
    ensures CountsAutoRestarts(counts, log + [a], n)
  {
    AutoRestartsAppend(log, a, n);
  }

  lemma CountsRestart(counts: map<Name, nat>, log: seq<Action>, a: Action, n: Name)
    requires CountsAutoRestarts(counts, log, n) && a.Respawned? && !a.manual
    requires CountOf(counts, a.name) < MAX_RESTARTS
    ensures var counts' := counts[a.name := CountOf(counts, a.name) + 1];
            CountsAutoRestarts(counts', log, n) && CountsAutoRestarts(counts', log + [a], n)
  {
    AutoRestartsAppend(log, a, n);
  }

  lemma CountsTouch(counts: map<Name, nat>, log: seq<Action>, m: Name, n: Name)
    requires CountsAutoRestarts(counts, log, n)
    ensures CountsAutoRestarts(counts[m := CountOf(counts, m)], log, n)
  {
  }

  lemma ValuesAfterTrack(pids: map<Pid, Name>, defs: Catalog, pid: Pid, n: Name)
    requires pids.Values <= defs.Keys && n in defs
    ensures pids[pid := n].Values <= defs.Keys
  {
    forall m | m in pids[pid := n].Values
      ensures m in defs
    {
      var p :| p in pids[pid := n] && pids[pid := n][p] == m;
      assert p != pid ==> pids[p] in pids.Values;
    }
  }

  lemma ValuesAfterDrop(pids: map<Pid, Name>, gone: set<Pid>)
    ensures (pids - gone).Values <= pids.Values
  {
    forall m | m in (pids - gone).Values
      ensures m in pids.Values
    {
      var p :| p in pids - gone && (pids - gone)[p] == m;
      assert pids[p] in pids.Values;
    }
  }

  lemma TrackAlways(s: Loop, n: Name, pid: Pid, entry: seq<Action>)
    requires AlwaysInv(s) && n in s.defs
    requires entry == [] || (|entry| == 1 && (entry[0].Respawned? ==> entry[0].manual))
    ensures AlwaysInv(Track(s, n, pid, entry))
  {
    hide CountsAutoRestarts, Sync;
    ValuesAfterTrack(s.pidToName, s.defs, pid, n);
    if entry == [] {
      assert s.log + entry == s.log;
    } else {
      assert entry == [entry[0]];
      forall m
        ensures CountsAutoRestarts(s.restartCounts, s.log + entry, m)
      {
        CountsKeep(s.restartCounts, s.log, entry[0], m);
      }
    }
  }

  lemma QuietAlways(s: Loop, s': Loop, a: Action)
    requires AlwaysInv(s) && (a.Respawned? ==> a.manual)
    requires s'.log == s.log || s'.log == s.log + [a]
    requires s'.restartReplies == s.restartReplies && s'.pendingRestart == s.pendingRestart
    requires s'.restartCounts == s.restartCounts && s'.defs == s.defs && s'.pidToName.Values <= s.pidToName.Values
    ensures AlwaysInv(s')
  {
    hide CountsAutoRestarts;
    forall m
      ensures CountsAutoRestarts(s'.restartCounts, s'.log, m)
    {
      assert CountsAutoRestarts(s.restartCounts, s.log, m);
      CountsKeep(s.restartCounts, s.log, a, m);
    }
  }

  lemma LaunchAlways(cfg: Catalog, s: Loop, spawn: Option<Pid>)
    requires AlwaysInv(s)
    ensures AlwaysInv(OnLaunch(cfg, s, spawn))
  {
    hide AlwaysInv, Sync, Lowered, Newly, NeedsDependents;
    if s.toStart != [] {
      var n, s0 := s.toStart[|s.toStart| - 1], s.(toStart := s.toStart[..|s.toStart| - 1]);
      QuietAlways(s, s0, Skipped(n));
      if n in s.blocked {
        QuietAlways(s0, OnSkip(cfg, s0, n), Skipped(n));
      } else if n in s.defs {
        if spawn.None? {
          QuietAlways(s0, s0.(aborted := true), Skipped(n));
        } else {
          TrackAlways(s0, n, spawn.value, [Started(n, spawn.value)]);
        }
      }
    }
  }

  lemma ReadyAlways(cfg: Catalog, s: Loop, n: Name)
    requires AlwaysInv(s)
    ensures AlwaysInv(OnReady(cfg, s, n))
  {
    hide AlwaysInv, Sync, Lowered, Newly;
    if n !in s.readyReported {
      QuietAlways(s, OnReady(cfg, s, n), Reported(n));
    }
  }

  lemma ManualAlways(s: Loop, n: Name, spawn: Option<Pid>)
    requires AlwaysInv(s) && n in s.defs
    ensures AlwaysInv(OnManualRespawn(s, n, spawn))
  {
    var s1 := s.(pendingRestart := s.pendingRestart - {n}, restartReplies := s.restartReplies - {n});
    assert AlwaysInv(s1) by {
      assert s1.restartReplies.Keys == s1.pendingRestart;
    }
    hide AlwaysInv, Sync;
    match spawn
    case Some(pid) => TrackAlways(s1, n, pid, [Respawned(n, pid, true)]);
    case None => QuietAlways(s1, OnManualRespawn(s, n, spawn), Reported(n));
  }

  lemma AutoAlways(s: Loop, n: Name, spawn: Option<Pid>)
    requires AlwaysInv(s) && n in s.defs && CountOf(s.restartCounts, n) < MAX_RESTARTS
    ensures AlwaysInv(OnAutoRespawn(s, n, spawn))
  {
    hide CountsAutoRestarts, Sync, CountOf;
    var a := Respawned(n, if spawn.Some? then spawn.value else 0, false);
    var s' := OnAutoRespawn(s, n, spawn);
    if spawn.Some? {
      ValuesAfterTrack(s.pidToName, s.defs, spawn.value, n);
    }
    forall m
      ensures CountsAutoRestarts(s'.restartCounts, s'.log, m)
    {
      assert CountsAutoRestarts(s.restartCounts, s.log, m);
      CountsRestart(s.restartCounts, s.log, a, m);
    }
  }

  lemma EndAlways(cfg: Catalog, s: Loop, n: Name, status: WaitStatus)
    requires AlwaysInv(s)
    ensures AlwaysInv(OnEnd(cfg, s, n, status))
  {
    hide CountsAutoRestarts, Sync, CountOf, Lowered, Newly, NeedsDependents, Unsuccessful, FinalState;
    var s', a := OnEnd(cfg, s, n, status), Ended(n, Unsuccessful(s.defs, s.restartCounts, n, status), n in s.readyReported);
    forall m
      ensures CountsAutoRestarts(s'.restartCounts, s'.log, m)
    {
      assert CountsAutoRestarts(s.restartCounts, s.log, m);
      CountsTouch(s.restartCounts, s.log, n, m);
      CountsKeep(s'.restartCounts, s.log, a, m);
    }
  }

  lemma DropAlways(s: Loop, pid: Pid)
    requires AlwaysInv(s)
    ensures AlwaysInv(s.(pidToName := s.pidToName - {pid}))
  {
    hide CountsAutoRestarts;
    ValuesAfterDrop(s.pidToName, {pid});
  }

  lemma ReapedAlways(cfg: Catalog, s: Loop, pid: Pid, status: WaitStatus, stopping: bool, spawn: Option<Pid>)
    requires AlwaysInv(s) && pid in s.pidToName
    ensures AlwaysInv(OnReaped(cfg, s, pid, status, stopping, spawn))
  {
    var n, s0 := s.pidToName[pid], s.(pidToName := s.pidToName - {pid});
    assert n in s.pidToName.Values;
    hide AlwaysInv, OnManualRespawn, OnAutoRespawn, OnEnd;
    DropAlways(s, pid);
    assert n in s.defs by { DefinedChild(s, pid); }
    if n in s.pendingRestart {
      ManualAlways(s0, n, spawn);
    } else if WillRestart(s.defs, s.restartCounts, n, status, stopping) {
      AutoAlways(s0, n, spawn);
    } else {
      EndAlways(cfg, s0, n, status);
    }
  }

  /** So looking up the definition of a reaped service never fails. */
  lemma DefinedChild(s: Loop, pid: Pid)
    requires AlwaysInv(s) && pid in s.pidToName
    ensures s.pidToName[pid] in s.defs
  {
    assert s.pidToName[pid] in s.pidToName.Values;
  }

  lemma DeferAlways(s: Loop, n: Name, reply: ReplyId)
    requires AlwaysInv(s)
    ensures AlwaysInv(Defer(s, n, reply))
  {
    hide CountsAutoRestarts;
  }

  lemma SpawnAlways(s: Loop, n: Name, spawn: Option<Pid>)
    requires AlwaysInv(s)
    ensures AlwaysInv(SpawnByHand(s, n, spawn))
  {
    hide AlwaysInv, Track;
    if n in s.defs && spawn.Some? {
      TrackAlways(s, n, spawn.value, []);
    }
  }

  lemma RedefineAlways(s: Loop, n: Name, def: ServiceDef)
    requires AlwaysInv(s)
    ensures AlwaysInv(s.(defs := s.defs[n := def]))
  {
    hide CountsAutoRestarts;
  }

  lemma StepAlways(cfg: Catalog, s: Loop, e: Event)
    requires AlwaysInv(s) && Possible(s, e)
    ensures AlwaysInv(Step(cfg, s, e))
  {
    hide AlwaysInv, OnReady, OnLaunch, OnReaped, Defer, SpawnByHand;
    match e
    case ReadySignal(n) => ReadyAlways(cfg, s, n);
    case LaunchNext(spawn) => LaunchAlways(cfg, s, spawn);
    case Reaped(pid, status, stopping, spawn) => ReapedAlways(cfg, s, pid, status, stopping, spawn);
    case Vanished(pid) =>
      DropAlways(s, pid);
      var s0 := s.(pidToName := s.pidToName - {pid});
      QuietAlways(s0, s0.(completed := s0.completed + 1), Reported(""));
    case StartCommand(n, spawn) => SpawnAlways(s, n, spawn);
    case RestartCommand(n, reply, spawn) =>
      DeferAlways(s, n, reply);
      SpawnAlways(s, n, spawn);
    case ReloadCommand(n, reply, reread, spawn) =>
      if reread.Changed? {
        RedefineAlways(s, n, reread.def);
        var s1 := s.(defs := s.defs[n := reread.def]);
        DeferAlways(s1, n, reply);
        SpawnAlways(s1, n, spawn);
      }
  }

  /**
   In every run, with any mix of commands and failures: the replies held are those of the pending
   restarts, automatic restarts of a service stay within the limit, and every tracked child belongs
   to a service with a definition.
   */
  lemma {:induction false} EveryRun(cfg: Catalog, degree: map<Name, nat>, events: seq<Event>)
    requires PossibleRun(cfg, Init(cfg, degree), events)
    ensures AlwaysInv(Run(cfg, Init(cfg, degree), events))
    decreases |events|
  {
    hide AlwaysInv, Step, Possible, Init;
    if events == [] {
      InitAlways(cfg, degree);
    } else {
      var init := events[..|events| - 1];
      EveryRun(cfg, degree, init);
      StepAlways(cfg, Run(cfg, Init(cfg, degree), init), events[|events| - 1]);
    }
  }

  lemma InitAlways(cfg: Catalog, degree: map<Name, nat>)
    ensures AlwaysInv(Init(cfg, degree))
  {
    var s := Init(cfg, degree);
    forall n
      ensures CountsAutoRestarts(s.restartCounts, s.log, n)
    {
    }
  }

  // ------------------------------------------------------------------------------------------
  // Manual restarts
  // ------------------------------------------------------------------------------------------

  /** Everything that decides how the boot proceeds. */
  datatype Boot = Boot(inDegree: map<Name, nat>, readyReported: set<Name>, blocked: set<Name>,
                       restartCounts: map<Name, nat>, toStart: seq<Name>, completed: nat, history: Summary)

  ghost function BootOf(s: Loop): Boot {
    Boot(s.inDegree, s.readyReported, s.blocked, s.restartCounts, s.toStart, s.completed, Summarise(s.log))
  }

  lemma ManualRespawnBoot(s: Loop, n: Name, pid: Pid)
    ensures BootOf(OnManualRespawn(s, n, Some(pid))) == BootOf(s)
  {
    hide Summarise, Sync;
    SummaryGrows(s.log, Respawned(n, pid, true));
  }

  /** Asking for a restart, and respawning because of one, leaves the boot exactly where it was. */
  lemma ManualRestartKeepsBoot(cfg: Catalog, s: Loop, e: Event)
    requires Inv(cfg, s) && Regular(s, e)
    requires e.RestartCommand? || e.ReloadCommand? || (e.Reaped? && s.pidToName[e.pid] in s.pendingRestart)
    ensures BootOf(Step(cfg, s, e)) == BootOf(s)
  {
    hide Inv, OnManualRespawn, Launched, Summarise;
    TrackedAreKnown(cfg, s);
    if e.Reaped? {
      var s0 := s.(pidToName := s.pidToName - {e.pid});
      ManualRespawnBoot(s0, s.pidToName[e.pid], e.spawn.value);
    }
  }

  // ------------------------------------------------------------------------------------------
  // A Start command that is not refused
  // ------------------------------------------------------------------------------------------

  lemma RunAppends(cfg: Catalog, s: Loop, events: seq<Event>, e: Event)
    ensures Run(cfg, s, events + [e]) == Step(cfg, Run(cfg, s, events), e)
    ensures PossibleRun(cfg, s, events + [e]) <==> PossibleRun(cfg, s, events) && Possible(Run(cfg, s, events), e)
    ensures RegularRun(cfg, s, events + [e]) <==> RegularRun(cfg, s, events) && Regular(Run(cfg, s, events), e)
  {
    assert (events + [e])[..|events + [e]| - 1] == events;
  }

  /** A run can be cut anywhere. */
  lemma {:induction false} RunConcat(cfg: Catalog, s: Loop, a: seq<Event>, b: seq<Event>)
    ensures Run(cfg, s, a + b) == Run(cfg, Run(cfg, s, a), b)
    ensures RegularRun(cfg, s, a + b) <==> RegularRun(cfg, s, a) && RegularRun(cfg, Run(cfg, s, a), b)
    decreases |b|
  {
    hide Step, Regular, Possible;
    if b == [] {
      assert a + b == a;
    } else {
      var init, e := b[..|b| - 1], b[|b| - 1];
      RunConcat(cfg, s, a, init);
      assert a + b == (a + init) + [e] && b == init + [e];
      RunAppends(cfg, s, a + init, e);
      RunAppends(cfg, Run(cfg, s, a), init, e);
    }
  }

  lemma AloneUnlocksNothing(cfg: Catalog, degree: map<Name, nat>, n: Name)
    requires degree.Keys == cfg.Keys == {n} && DepsOn(cfg, n) == {} && degree[n] == 0
    ensures Lowered(cfg, degree, n) == degree
    ensures Listing(Unlocked(cfg, degree, n)) == []
    ensures Listing(Kahn.ZeroSet(degree)) == [n]
  {
    assert Unlocked(cfg, degree, n) == {};
    assert Arranges([], {});
    ArrangementUnique(Listing({}), [], {});
    assert Kahn.ZeroSet(degree) == {n};
    assert Elems([n]) == {n};
    ArrangementUnique(Listing({n}), [n], {n});
  }

  /**
   Starting a service by hand after it has ended: the loop counts every service as done and has an
   empty queue, so it exits, and a tracked child is left behind, for any service that runs alone.
   When a command does this is stated exactly by `SupervisorStart.ExitTestsAgreeIff`.
   */
  lemma StartLeavesChildBehind(n: Name, def: ServiceDef)
    requires def.deps.None? && def.service.restart.None?
    ensures var cfg, degree := map[n := def], map[n := 0];
            var s0 := Init(cfg, degree);
            var events := [LaunchNext(Some(1)), Reaped(1, ExitedWith(0), false, None), StartCommand(n, Some(2))];
            && Booted(cfg, degree) && PossibleRun(cfg, s0, events)
            && Run(cfg, s0, events).completed == |cfg| && Run(cfg, s0, events).toStart == []
            && Run(cfg, s0, events).pidToName == map[2 := n]
  {
    var cfg: Catalog, degree: map<Name, nat> := map[n := def], map[n := 0];
    var s0 := Init(cfg, degree);
    var e1, e2, e3 := LaunchNext(Some(1)), Reaped(1, ExitedWith(0), false, None), StartCommand(n, Some(2));
    AloneIsBooted(cfg, degree, n);
    AloneUnlocksNothing(cfg, degree, n);
    AloneInit(cfg, degree, n);
    hide Lowered, Unlocked, Listing, Booted, Step, Init, Possible, Run, PossibleRun;
    var s1 := Step(cfg, s0, e1);
    AloneLaunch(cfg, s0, n);
    var s2 := Step(cfg, s1, e2);
    AloneEnd(cfg, s1, n);
    AloneStart(cfg, s2, n);
    RunThree(cfg, s0, e1, e2, e3);
  }

  lemma RunThree(cfg: Catalog, s: Loop, e1: Event, e2: Event, e3: Event)
    requires Possible(s, e1) && Possible(Step(cfg, s, e1), e2) && Possible(Step(cfg, Step(cfg, s, e1), e2), e3)
    ensures PossibleRun(cfg, s, [e1, e2, e3])
    ensures Run(cfg, s, [e1, e2, e3]) == Step(cfg, Step(cfg, Step(cfg, s, e1), e2), e3)
  {
    hide Step, Possible;
    RunAppends(cfg, s, [], e1);
    RunAppends(cfg, s, [e1], e2);
    RunAppends(cfg, s, [e1, e2], e3);
    assert [] + [e1] == [e1];
    assert [e1] + [e2] == [e1, e2];
    assert [e1, e2] + [e3] == [e1, e2, e3];
  }

  lemma AloneInit(cfg: Catalog, degree: map<Name, nat>, n: Name)
    requires cfg.Keys == degree.Keys == {n} && Listing(Kahn.ZeroSet(degree)) == [n]
    ensures var s := Init(cfg, degree);
            && !s.aborted && s.toStart == [n] && s.blocked == {} && s.defs == cfg && s.pidToName == map[]
            && s.pendingRestart == {} && s.readyReported == {} && s.inDegree == degree && s.completed == 0
  {
    hide Listing;
  }

  lemma AloneStart(cfg: Catalog, s: Loop, n: Name)
    requires !s.aborted && s.pidToName == map[] && n in s.states && s.states[n] == Exited(0) && n in s.defs
    ensures Possible(s, StartCommand(n, Some(2)))
    ensures var s' := Step(cfg, s, StartCommand(n, Some(2)));
            s'.pidToName == map[2 := n] && s'.toStart == s.toStart && s'.completed == s.completed
  {
    hide Sync;
  }

  lemma AloneIsBooted(cfg: Catalog, degree: map<Name, nat>, n: Name)
    requires cfg.Keys == degree.Keys == {n} && cfg[n].deps.None? && degree[n] == 0
    ensures Booted(cfg, degree) && DepsOn(cfg, n) == {}
  {
    assert CountAt(cfg, degree[n], {}, n);
    var rank: map<Name, nat> := map[n := 0];
    assert RankedAbove(Deps(cfg), rank, n, 0);
    RankedReachesNoCycle(Deps(cfg), rank, n);
    AcyclicIffNoneReachesCycle(Deps(cfg));
  }

  lemma AloneLaunch(cfg: Catalog, s: Loop, n: Name)
    requires !s.aborted && s.toStart == [n] && s.blocked == {} && n in s.defs && s.pidToName == map[]
    ensures Possible(s, LaunchNext(Some(1)))
    ensures var s' := Step(cfg, s, LaunchNext(Some(1)));
            && s'.toStart == [] && s'.pidToName == map[1 := n] && s'.states == s.states[n := Running(1)]
            && s'.inDegree == s.inDegree && s'.completed == s.completed && s'.readyReported == s.readyReported
            && s'.restartCounts == s.restartCounts && s'.pendingRestart == s.pendingRestart && s'.defs == s.defs
            && !s'.aborted
  {
    hide Sync;
  }

  lemma AloneEnd(cfg: Catalog, s: Loop, n: Name)
    requires !s.aborted && s.pidToName == map[1 := n] && s.pendingRestart == {} && s.readyReported == {}
    requires n in s.defs && s.defs[n].service.restart.None? && s.toStart == []
    requires Listing(Unlocked(cfg, s.inDegree, n)) == []
    ensures Possible(s, Reaped(1, ExitedWith(0), false, None))
    ensures var s' := Step(cfg, s, Reaped(1, ExitedWith(0), false, None));
            && s'.toStart == [] && s'.pidToName == map[] && s'.states == s.states[n := Exited(0)]
            && s'.completed == s.completed + 1 && s'.defs == s.defs && !s'.aborted
  {
    hide Sync, Lowered, Unlocked, Listing, NeedsDependents;
  }
}
