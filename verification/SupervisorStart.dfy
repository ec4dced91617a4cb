/** Commands that spawn a child by hand, and what they do to the exit tests of the loop. */
module SupervisorStart {
  import opened Services
  import opened Ordering
  import opened Dependency
  import opened Kahn
  import opened Graph
  import opened Build
  import opened Supervisor
  import opened SupervisorInvariant
  import opened SupervisorSteps
  import opened SupervisorTheorems
  import opened SupervisorWork
  import opened SupervisorAnyRun
  import opened SupervisorRestart

  // ------------------------------------------------------------------------------------------
  // One command
  // ------------------------------------------------------------------------------------------

  /** Both exit tests hold, or neither does. */
  ghost predicate ExitTestsAgree(cfg: Catalog, s: Loop) {
    s.completed >= |cfg| <==> s.pidToName == map[]
  }

  lemma DrainedAgrees(cfg: Catalog, s: Loop)
    requires Acyclic(Deps(cfg)) && Inv(cfg, s) && s.toStart == []
    ensures ExitTestsAgree(cfg, s) && s.completed <= |cfg|
  {
    hide Inv, Acyclic;
    SummaryFacts(cfg, s, Summarise(s.log));
    if s.completed >= |cfg| {
      CompleteMeansSettled(cfg, s);
    } else if s.pidToName == map[] {
      QuietMeansComplete(cfg, s);
    }
  }

  lemma SpawnEffect(s: Loop, n: Name, pid: Pid)
    requires n in s.defs
    ensures var s' := SpawnByHand(s, n, Some(pid));
            s'.completed == s.completed && s'.toStart == s.toStart && s'.pidToName == s.pidToName[pid := n]
  {
    hide Sync;
  }

  /** A command leaves the count and the queue alone; if it is not a regular one it tracks one more child. */
  lemma CommandEffect(cfg: Catalog, s: Loop, e: Event)
    requires Inv(cfg, s) && Possible(s, e) && IsCommand(e) && SpawnOf(e).Some?
    ensures var s' := Step(cfg, s, e);
            && s'.completed == s.completed && s'.toStart == s.toStart
            && s'.pidToName == if Regular(s, e) then s.pidToName else s.pidToName[SpawnOf(e).value := e.name]
  {
    hide Inv, Step, Regular, Possible;
    match e
    case StartCommand(_, _) => StartEffect(cfg, s, e);
    case RestartCommand(_, _, _) => RestartEffect(cfg, s, e);
    case ReloadCommand(_, _, _, _) => ReloadEffect(cfg, s, e);
  }

  lemma StartEffect(cfg: Catalog, s: Loop, e: Event)
    requires Inv(cfg, s) && Possible(s, e) && e.StartCommand? && e.spawn.Some?
    ensures var s' := Step(cfg, s, e);
            && s'.completed == s.completed && s'.toStart == s.toStart
            && s'.pidToName == if Regular(s, e) then s.pidToName else s.pidToName[e.spawn.value := e.name]
  {
    hide Inv, SpawnByHand;
    TrackedAreKnown(cfg, s);
    if e.name in s.states {
      SpawnEffect(s, e.name, e.spawn.value);
    }
  }

  lemma RestartEffect(cfg: Catalog, s: Loop, e: Event)
    requires Inv(cfg, s) && Possible(s, e) && e.RestartCommand? && e.spawn.Some?
    ensures var s' := Step(cfg, s, e);
            && s'.completed == s.completed && s'.toStart == s.toStart
            && s'.pidToName == if Regular(s, e) then s.pidToName else s.pidToName[e.spawn.value := e.name]
  {
    hide Inv, SpawnByHand;
    TrackedAreKnown(cfg, s);
    if e.name in s.states {
      SpawnEffect(s, e.name, e.spawn.value);
    }
  }

  lemma ReloadEffect(cfg: Catalog, s: Loop, e: Event)
    requires Inv(cfg, s) && Possible(s, e) && e.ReloadCommand? && e.spawn.Some?
    ensures var s' := Step(cfg, s, e);
            && s'.completed == s.completed && s'.toStart == s.toStart
            && s'.pidToName == if Regular(s, e) then s.pidToName else s.pidToName[e.spawn.value := e.name]
  {
    hide Inv, SpawnByHand;
    TrackedAreKnown(cfg, s);
    if e.reread.Changed? {
      SpawnEffect(s.(defs := s.defs[e.name := e.reread.def]), e.name, e.spawn.value);
    }
  }

  /**
   With the queue drained, a command whose spawn succeeds leaves the exit tests in agreement exactly
   when it is a regular one or some service is not counted yet; otherwise the loop exits with a child.
   */
  lemma ExitTestsAgreeIff(cfg: Catalog, s: Loop, e: Event)
    requires Acyclic(Deps(cfg)) && Inv(cfg, s) && s.toStart == []
    requires Possible(s, e) && IsCommand(e) && SpawnOf(e).Some?
    ensures var s' := Step(cfg, s, e);
            && (ExitTestsAgree(cfg, s') <==> Regular(s, e) || s.completed < |cfg|)
            && (s'.completed >= |cfg| && s'.pidToName != map[] <==> !Regular(s, e) && s.completed == |cfg|)
  {
    hide Inv, Acyclic, Step, Regular, Possible;
    DrainedAgrees(cfg, s);
    CommandEffect(cfg, s, e);
    assert !Regular(s, e) ==> SpawnOf(e).value in Step(cfg, s, e).pidToName;
  }

  // ------------------------------------------------------------------------------------------
  // After one spawn by hand of a service that was counted already
  // ------------------------------------------------------------------------------------------

  /** A service marked twice may take its dependents below what they are still owed. */
  ghost predicate AtMostUnmarked(cfg: Catalog, degree: map<Name, nat>, marked: set<Name>) {
    && degree.Keys == cfg.Keys
    && forall m {:trigger AtMostAt(cfg, degree[m], marked, m)} :: m in cfg ==> AtMostAt(cfg, degree[m], marked, m)
  }

  ghost predicate AtMostAt(cfg: Catalog, degree: nat, marked: set<Name>, m: Name)
    requires m in cfg
  {
    degree <= |DepsOn(cfg, m) - marked|
  }

  ghost predicate ZerosBegun(degree: map<Name, nat>, toStart: seq<Name>, launched: set<Name>, skipped: set<Name>) {
    && NoDuplicates(toStart)
    && Elems(toStart) !! launched && Elems(toStart) !! skipped && launched !! skipped
    && Elems(toStart) + launched + skipped == ZeroSet(degree)
  }

  /** The children are those of the services up and perhaps one of n, one each, and shown as up. */
  ghost predicate TrackedWith(pids: map<Pid, Name>, states: map<Name, ServiceState>, up: set<Name>, n: Name) {
    && Tracking(pids, pids.Values)
    && up <= pids.Values <= up + {n}
    && (forall m :: m in pids.Values ==> IsUp(states, m))
  }

  ghost predicate Noted(readyReported: set<Name>, h: Summary, n: Name) {
    && readyReported <= Marked(h)
    && h.over <= h.launched + h.skipped
    && n in h.over + h.skipped
  }

  /** The spawned child of n is counted a second time when it ends. */
  ghost predicate CountedTwice(completed: nat, pids: map<Pid, Name>, settled: set<Name>, n: Name) {
    completed + (if n in pids.Values then 1 else 0) == |settled| + 1
  }

  ghost predicate LooseParts(cfg: Catalog, s: Loop, h: Summary, n: Name) {
    && !s.aborted && cfg.Keys <= s.defs.Keys
    && AtMostUnmarked(cfg, s.inDegree, Marked(h))
    && ZerosBegun(s.inDegree, s.toStart, h.launched, h.skipped)
    && Noted(s.readyReported, h, n)
    && TrackedWith(s.pidToName, s.states, Up(h), n)
    && CountedTwice(s.completed, s.pidToName, h.over + h.skipped, n)
  }

  ghost predicate Loose(cfg: Catalog, s: Loop, n: Name) {
    LooseParts(cfg, s, Summarise(s.log), n)
  }

  lemma MarksAt(cfg: Catalog, degree: map<Name, nat>, marked: set<Name>, m: Name, d: Name)
    requires degree.Keys == cfg.Keys && d in cfg && AtMostAt(cfg, degree[d], marked, d)
    ensures AtMostAt(cfg, Lowered(cfg, degree, m)[d], marked + {m}, d)
  {
    if m in marked {
      assert marked + {m} == marked;
    } else {
      SmallerDifference(DepsOn(cfg, d), marked, m);
    }
  }

  lemma MarksMore(cfg: Catalog, degree: map<Name, nat>, marked: set<Name>, m: Name)
    requires AtMostUnmarked(cfg, degree, marked)
    ensures AtMostUnmarked(cfg, Lowered(cfg, degree, m), marked + {m})
  {
    hide AtMostAt;
    forall d | d in cfg
      ensures AtMostAt(cfg, Lowered(cfg, degree, m)[d], marked + {m}, d)
    {
      assert AtMostAt(cfg, degree[d], marked, d);
      MarksAt(cfg, degree, marked, m, d);
    }
  }

  lemma QueuesMore(cfg: Catalog, degree: map<Name, nat>, toStart: seq<Name>, launched: set<Name>, skipped: set<Name>, m: Name)
    requires degree.Keys == cfg.Keys && ZerosBegun(degree, toStart, launched, skipped)
    ensures ZerosBegun(Lowered(cfg, degree, m), toStart + Newly(cfg, degree, m), launched, skipped)
  {
    var newly := Unlocked(cfg, degree, m);
    assert ZeroSet(Lowered(cfg, degree, m)) == ZeroSet(degree) + newly;
    assert newly !! ZeroSet(degree);
    ElemsConcat(toStart, Listing(newly));
  }

  /** The last of the queue, taken off it. */
  lemma QueueTakes(degree: map<Name, nat>, toStart: seq<Name>, launched: set<Name>, skipped: set<Name>)
    requires ZerosBegun(degree, toStart, launched, skipped) && toStart != []
    ensures var m, rest := toStart[|toStart| - 1], toStart[..|toStart| - 1];
            && m in degree && m !in launched && m !in skipped
            && ZerosBegun(degree, rest, launched + {m}, skipped) && ZerosBegun(degree, rest, launched, skipped + {m})
  {
    var m, rest := toStart[|toStart| - 1], toStart[..|toStart| - 1];
    assert toStart == rest + [m];
    ElemsAppend(rest, m);
    assert m in ZeroSet(degree);
  }

  lemma WithAdds(pids: map<Pid, Name>, states: map<Name, ServiceState>, up: set<Name>, n: Name, m: Name, pid: Pid)
    requires TrackedWith(pids, states, up, n) && m !in pids.Values && pid !in pids
    ensures pids[pid := m].Values == pids.Values + {m}
    ensures TrackedWith(pids[pid := m], states[m := Running(pid)], up + {m}, n)
  {
    TrackingAdds(pids, pids.Values, m, pid);
  }

  lemma WithReplaces(pids: map<Pid, Name>, states: map<Name, ServiceState>, up: set<Name>, n: Name, was: Pid, pid: Pid)
    requires TrackedWith(pids, states, up, n) && was in pids && pid !in pids - {was}
    ensures (pids - {was})[pid := pids[was]].Values == pids.Values
    ensures TrackedWith((pids - {was})[pid := pids[was]], states[pids[was] := Running(pid)], up, n)
  {
    TrackingReplaces(pids, pids.Values, was, pid);
  }

  lemma WithDrops(pids: map<Pid, Name>, states: map<Name, ServiceState>, up: set<Name>, n: Name, was: Pid, st: ServiceState)
    requires TrackedWith(pids, states, up, n) && was in pids
    ensures (pids - {was}).Values == pids.Values - {pids[was]}
    ensures TrackedWith(pids - {was}, states[pids[was] := st], up - {pids[was]}, n)
  {
    TrackingDrops(pids, pids.Values, was);
  }

  /** A readiness signal, or a change to a service without a child. */
  lemma WithState(pids: map<Pid, Name>, states: map<Name, ServiceState>, up: set<Name>, n: Name, m: Name, st: ServiceState)
    requires TrackedWith(pids, states, up, n) && (st == Ready || m !in pids.Values)
    ensures TrackedWith(pids, states[m := st], up, n)
  {
  }

  lemma ReadyLoose(cfg: Catalog, s: Loop, n: Name, m: Name)
    requires Loose(cfg, s, n)
    ensures Loose(cfg, OnReady(cfg, s, m), n)
  {
    hide AtMostUnmarked, ZerosBegun, TrackedWith, Sync, Summarise, Lowered, Newly;
    var h := Summarise(s.log);
    if m !in s.readyReported {
      SummaryGrows(s.log, Reported(m));
      NoteReported(h, m);
      MarksMore(cfg, s.inDegree, Marked(h), m);
      SameKeys(cfg, s.inDegree, Marked(h));
      QueuesMore(cfg, s.inDegree, s.toStart, h.launched, h.skipped, m);
      WithState(s.pidToName, s.states, Up(h), n, m, Ready);
    }
  }

  lemma SameKeys(cfg: Catalog, degree: map<Name, nat>, marked: set<Name>)
    requires AtMostUnmarked(cfg, degree, marked)
    ensures degree.Keys == cfg.Keys
  {
  }

  /** The next of the queue has not begun, and is not n. */
  lemma NextIsNew(cfg: Catalog, s: Loop, h: Summary, n: Name)
    requires LooseParts(cfg, s, h, n) && s.toStart != []
    ensures var m := s.toStart[|s.toStart| - 1];
            m in cfg && m in s.defs && m != n && m !in s.pidToName.Values && m !in h.over && m !in h.skipped
  {
    hide Tracking, ZerosBegun, AtMostUnmarked, Marked;
    QueueTakes(s.inDegree, s.toStart, h.launched, h.skipped);
    SameKeys(cfg, s.inDegree, Marked(h));
  }

  lemma NotedMore(readyReported: set<Name>, h: Summary, n: Name, m: Name, a: Action)
    requires Noted(readyReported, h, n) && a.name == m
    requires a.Ended? ==> m in h.launched + h.skipped
    ensures Noted(readyReported, Note(h, a), n)
    ensures a.Ended? ==> Noted(readyReported + {m}, Note(h, a), n)
  {
  }

  lemma CountStays(completed: nat, pids: map<Pid, Name>, pids': map<Pid, Name>, settled: set<Name>, n: Name)
    requires CountedTwice(completed, pids, settled, n) && (n in pids.Values <==> n in pids'.Values)
    ensures CountedTwice(completed, pids', settled, n)
  {
  }

  lemma LaunchLoose(cfg: Catalog, s: Loop, n: Name, pid: Pid)
    requires Loose(cfg, s, n) && s.toStart != [] && s.toStart[|s.toStart| - 1] !in s.blocked && pid !in s.pidToName
    ensures Loose(cfg, OnLaunch(cfg, s, Some(pid)), n)
  {
    hide AtMostUnmarked, ZerosBegun, TrackedWith, Sync, Summarise, OnLaunch, Noted, CountedTwice, Marked, Up;
    var h, m, a := Summarise(s.log), s.toStart[|s.toStart| - 1], Started(s.toStart[|s.toStart| - 1], pid);
    NextIsNew(cfg, s, h, n);
    LaunchFields(cfg, s, m, pid);
    SummaryGrows(s.log, a);
    NoteStarted(h, m, pid);
    QueueTakes(s.inDegree, s.toStart, h.launched, h.skipped);
    NotedMore(s.readyReported, h, n, m, a);
    WithAdds(s.pidToName, s.states, Up(h), n, m, pid);
    CountStays(s.completed, s.pidToName, s.pidToName[pid := m], h.over + h.skipped, n);
  }

  lemma SkipFields(cfg: Catalog, s: Loop, m: Name, spawn: Option<Pid>)
    requires s.toStart != [] && m == s.toStart[|s.toStart| - 1] && m in s.blocked
    ensures OnLaunch(cfg, s, spawn) ==
            s.(states := s.states[m := Failed],
               shared := Sync(s.shared, m, Failed),
               blocked := s.blocked + NeedsDependents(cfg, m),
               inDegree := Lowered(cfg, s.inDegree, m),
               toStart := s.toStart[..|s.toStart| - 1] + Newly(cfg, s.inDegree, m),
               completed := s.completed + 1,
               log := s.log + [Skipped(m)])
  {
    hide Sync, NeedsDependents, Lowered, Newly;
  }

  lemma SkipCounts(completed: nat, pids: map<Pid, Name>, over: set<Name>, skipped: set<Name>, n: Name, m: Name)
    requires CountedTwice(completed, pids, over + skipped, n) && m !in over && m !in skipped
    ensures CountedTwice(completed + 1, pids, over + (skipped + {m}), n)
  {
    assert over + (skipped + {m}) == (over + skipped) + {m};
  }

  lemma SkipLoose(cfg: Catalog, s: Loop, n: Name, spawn: Option<Pid>)
    requires Loose(cfg, s, n) && s.toStart != [] && s.toStart[|s.toStart| - 1] in s.blocked
    ensures Loose(cfg, OnLaunch(cfg, s, spawn), n)
  {
    hide AtMostUnmarked, ZerosBegun, TrackedWith, Sync, Summarise, OnLaunch, Noted, CountedTwice, Marked, Up;
    hide Lowered, Newly, NeedsDependents;
    var h, m, rest := Summarise(s.log), s.toStart[|s.toStart| - 1], s.toStart[..|s.toStart| - 1];
    NextIsNew(cfg, s, h, n);
    SkipFields(cfg, s, m, spawn);
    SummaryGrows(s.log, Skipped(m));
    NoteSkipped(h, m);
    SameKeys(cfg, s.inDegree, Marked(h));
    QueueTakes(s.inDegree, s.toStart, h.launched, h.skipped);
    MarksMore(cfg, s.inDegree, Marked(h), m);
    QueuesMore(cfg, s.inDegree, rest, h.launched, h.skipped + {m}, m);
    NotedMore(s.readyReported, h, n, m, Skipped(m));
    WithState(s.pidToName, s.states, Up(h), n, m, Failed);
    SkipCounts(s.completed, s.pidToName, h.over, h.skipped, n, m);
  }

  lemma RespawnLoose(cfg: Catalog, s: Loop, n: Name, s': Loop, was: Pid, pid: Pid, manual: bool)
    requires Loose(cfg, s, n) && was in s.pidToName && pid !in s.pidToName - {was}
    requires s'.aborted == s.aborted && s'.defs == s.defs && s'.inDegree == s.inDegree && s'.toStart == s.toStart
    requires s'.readyReported == s.readyReported && s'.completed == s.completed
    requires s'.pidToName == (s.pidToName - {was})[pid := s.pidToName[was]]
    requires s'.states == s.states[s.pidToName[was] := Running(pid)]
    requires s'.log == s.log + [Respawned(s.pidToName[was], pid, manual)]
    ensures Loose(cfg, s', n)
  {
    hide AtMostUnmarked, ZerosBegun, TrackedWith, Summarise;
    SummaryGrows(s.log, Respawned(s.pidToName[was], pid, manual));
    WithReplaces(s.pidToName, s.states, Up(Summarise(s.log)), n, was, pid);
  }

  /** The second end of n is counted again; any other end is the first of its service. */
  lemma EndCounts(completed: nat, pids: map<Pid, Name>, pids': map<Pid, Name>, h: Summary, n: Name, m: Name)
    requires CountedTwice(completed, pids, h.over + h.skipped, n) && n in h.over + h.skipped
    requires m in pids.Values && pids'.Values == pids.Values - {m} && (m != n ==> m !in h.over + h.skipped)
    ensures CountedTwice(completed + 1, pids', h.over + {m} + h.skipped, n)
  {
    assert h.over + {m} + h.skipped == (h.over + h.skipped) + {m};
    if m == n {
      assert (h.over + h.skipped) + {m} == h.over + h.skipped;
    }
  }

  lemma EndsSummary(h: Summary, m: Name, failed: bool, reported: bool)
    ensures var h' := Note(h, Ended(m, failed, reported));
            && Marked(h') == Marked(h) + {m} && Up(h') == Up(h) - {m} && h'.over == h.over + {m}
            && h'.launched == h.launched && h'.skipped == h.skipped
  {
  }

  lemma EndReportedLoose(cfg: Catalog, s: Loop, n: Name, pid: Pid, status: WaitStatus)
    requires Loose(cfg, s, n) && pid in s.pidToName && s.pidToName[pid] in s.readyReported
    ensures Loose(cfg, OnEnd(cfg, s.(pidToName := s.pidToName - {pid}), s.pidToName[pid], status), n)
  {
    hide AtMostUnmarked, ZerosBegun, TrackedWith, Sync, Summarise, OnEnd, Note, CountedTwice, Unsuccessful, FinalState, CountOf;
    hide Noted, Marked, Up;
    var h, m, s0 := Summarise(s.log), s.pidToName[pid], s.(pidToName := s.pidToName - {pid});
    var failed, st := Unsuccessful(s0.defs, s0.restartCounts, m, status), FinalState(s0.defs, s0.restartCounts, m, status);
    assert m in s.pidToName.Values;
    KnownIsBegun(cfg, s, h, n, m);
    EndReportedFields(cfg, s0, m, status);
    SummaryGrows(s.log, Ended(m, failed, true));
    EndsSummary(h, m, failed, true);
    ReportedIsNoted(s.readyReported, h, n, m);
    NotedMore(s.readyReported, h, n, m, Ended(m, failed, true));
    WithDrops(s.pidToName, s.states, Up(h), n, pid, st);
    EndCounts(s.completed, s.pidToName, s0.pidToName, h, n, m);
  }

  lemma ReportedIsNoted(readyReported: set<Name>, h: Summary, n: Name, m: Name)
    requires Noted(readyReported, h, n) && m in readyReported
    ensures Marked(h) + {m} == Marked(h)
  {
  }

  /** A tracked child belongs to n, or to a service launched and not ended. */
  lemma KnownIsBegun(cfg: Catalog, s: Loop, h: Summary, n: Name, m: Name)
    requires LooseParts(cfg, s, h, n) && m in s.pidToName.Values
    ensures m in h.launched + h.skipped && n in h.over + h.skipped && (m != n ==> m !in h.over + h.skipped)
  {
    hide AtMostUnmarked, Tracking;
  }

  lemma EndFirstLoose(cfg: Catalog, s: Loop, n: Name, pid: Pid, status: WaitStatus)
    requires Loose(cfg, s, n) && pid in s.pidToName && s.pidToName[pid] !in s.readyReported
    ensures Loose(cfg, OnEnd(cfg, s.(pidToName := s.pidToName - {pid}), s.pidToName[pid], status), n)
  {
    hide AtMostUnmarked, ZerosBegun, TrackedWith, Sync, Summarise, OnEnd, Note, CountedTwice, Unsuccessful, FinalState, CountOf;
    hide Noted, Marked, Up;
    hide Lowered, Newly, NeedsDependents;
    var h, m, s0 := Summarise(s.log), s.pidToName[pid], s.(pidToName := s.pidToName - {pid});
    var failed, st := Unsuccessful(s0.defs, s0.restartCounts, m, status), FinalState(s0.defs, s0.restartCounts, m, status);
    assert m in s.pidToName.Values;
    KnownIsBegun(cfg, s, h, n, m);
    EndFirstFields(cfg, s0, m, status);
    SummaryGrows(s.log, Ended(m, failed, false));
    EndsSummary(h, m, failed, false);
    NotedMore(s.readyReported, h, n, m, Ended(m, failed, false));
    MarksMore(cfg, s.inDegree, Marked(h), m);
    SameKeys(cfg, s.inDegree, Marked(h));
    QueuesMore(cfg, s.inDegree, s.toStart, h.launched, h.skipped, m);
    WithDrops(s.pidToName, s.states, Up(h), n, pid, st);
    EndCounts(s.completed, s.pidToName, s0.pidToName, h, n, m);
  }

  lemma ReapLoose(cfg: Catalog, s: Loop, n: Name, pid: Pid, status: WaitStatus, stopping: bool, newPid: Pid)
    requires Loose(cfg, s, n) && pid in s.pidToName && newPid !in s.pidToName - {pid}
    ensures Loose(cfg, OnReaped(cfg, s, pid, status, stopping, Some(newPid)), n)
  {
    hide Loose, OnEnd, OnManualRespawn, OnAutoRespawn, WillRestart;
    var m, s0 := s.pidToName[pid], s.(pidToName := s.pidToName - {pid});
    if m in s.pendingRestart {
      RespawnFields(s0, m, newPid);
      RespawnLoose(cfg, s, n, OnManualRespawn(s0, m, Some(newPid)), pid, newPid, true);
    } else if WillRestart(s.defs, s.restartCounts, m, status, stopping) {
      RespawnFields(s0, m, newPid);
      RespawnLoose(cfg, s, n, OnAutoRespawn(s0, m, Some(newPid)), pid, newPid, false);
    } else if m in s.readyReported {
      EndReportedLoose(cfg, s, n, pid, status);
    } else {
      EndFirstLoose(cfg, s, n, pid, status);
    }
  }

  lemma RespawnFields(s: Loop, m: Name, pid: Pid)
    ensures var a, b := OnManualRespawn(s, m, Some(pid)), OnAutoRespawn(s, m, Some(pid));
            && a == s.(pendingRestart := a.pendingRestart, restartReplies := a.restartReplies, shared := a.shared,
                       states := s.states[m := Running(pid)], pidToName := s.pidToName[pid := m],
                       log := s.log + [Respawned(m, pid, true)])
            && b == s.(restartCounts := b.restartCounts, shared := b.shared,
                       states := s.states[m := Running(pid)], pidToName := s.pidToName[pid := m],
                       log := s.log + [Respawned(m, pid, false)])
  {
    hide Sync, CountOf;
  }

  /** A regular command at most asks for a restart and replaces a definition. */
  lemma CommandLoose(cfg: Catalog, s: Loop, n: Name, e: Event)
    requires Loose(cfg, s, n) && IsCommand(e) && Regular(s, e)
    ensures Loose(cfg, Step(cfg, s, e), n)
  {
    hide AtMostUnmarked, ZerosBegun, Tracking, Summarise, CountedTwice, Noted, SpawnByHand;
  }

  lemma StepLoose(cfg: Catalog, s: Loop, n: Name, e: Event)
    requires Loose(cfg, s, n) && Regular(s, e)
    ensures Loose(cfg, Step(cfg, s, e), n)
  {
    assert !s.aborted;
    hide Loose, OnReady, OnLaunch, OnReaped, Launched;
    match e
    case ReadySignal(m) => ReadyLoose(cfg, s, n, m);
    case LaunchNext(spawn) =>
      if s.toStart == [] {
        NothingToLaunch(cfg, s, spawn);
      } else if s.toStart[|s.toStart| - 1] in s.blocked {
        SkipLoose(cfg, s, n, spawn);
      } else {
        var pid := LaunchPid(cfg, s, spawn);
        LaunchLoose(cfg, s, n, pid);
      }
    case Reaped(pid, status, stopping, spawn) =>
      var newPid := ReapPid(cfg, s, pid, status, stopping, spawn);
      ReapLoose(cfg, s, n, pid, status, stopping, newPid);
    case StartCommand(_, _) => CommandLoose(cfg, s, n, e);
    case RestartCommand(_, _, _) => CommandLoose(cfg, s, n, e);
    case ReloadCommand(_, _, _, _) => CommandLoose(cfg, s, n, e);
  }

  lemma {:induction false} RunLoose(cfg: Catalog, s: Loop, n: Name, events: seq<Event>)
    requires Loose(cfg, s, n) && RegularRun(cfg, s, events)
    ensures Loose(cfg, Run(cfg, s, events), n)
    decreases |events|
  {
    hide Loose, Step, Regular;
    if events == [] {
    } else {
      var init := events[..|events| - 1];
      RunLoose(cfg, s, n, init);
      StepLoose(cfg, Run(cfg, s, init), n, events[|events| - 1]);
    }
  }

  // ------------------------------------------------------------------------------------------
  // The child left behind
  // ------------------------------------------------------------------------------------------

  /** The command spawns a child, by hand, for a service that has ended or was given up. */
  ghost predicate RevivesEnded(s: Loop, e: Event) {
    && IsCommand(e) && SpawnOf(e).Some? && Possible(s, e) && !Regular(s, e)
    && e.name in s.states && (s.states[e.name].Exited? || s.states[e.name].Failed?)
  }

  lemma RevivedFields(cfg: Catalog, s: Loop, e: Event)
    requires Inv(cfg, s) && RevivesEnded(s, e)
    ensures var s' := Step(cfg, s, e);
            && !s'.aborted && s'.defs.Keys == cfg.Keys && s'.inDegree == s.inDegree && s'.toStart == s.toStart
            && s'.readyReported == s.readyReported && s'.completed == s.completed && s'.log == s.log
            && s'.pidToName == s.pidToName[SpawnOf(e).value := e.name]
            && s'.states == s.states[e.name := Running(SpawnOf(e).value)]
  {
    hide Inv, Sync, Launched;
    TrackedAreKnown(cfg, s);
  }

  lemma EndedIsSettled(cfg: Catalog, s: Loop, h: Summary, n: Name)
    requires Parts(cfg, s, h) && n in s.states && (s.states[n].Exited? || s.states[n].Failed?)
    ensures n in cfg && n in h.over + h.skipped && n !in s.pidToName.Values
  {
    hide CountsUnmarked, StartOrder, Blocking, Restarts, Reports, Queue;
    assert StatusAt(s.states, s.shared, s.pidToName, Up(h), Begun(h), h.succeeded, h.skipped, n);
  }

  lemma ExactIsAtMost(cfg: Catalog, degree: map<Name, nat>, marked: set<Name>)
    requires CountsUnmarked(cfg, degree, marked)
    ensures AtMostUnmarked(cfg, degree, marked)
  {
    forall m | m in cfg
      ensures AtMostAt(cfg, degree[m], marked, m)
    {
      assert CountAt(cfg, degree[m], marked, m);
    }
  }

  lemma EligibleIsZero(cfg: Catalog, degree: map<Name, nat>, marked: set<Name>, toStart: seq<Name>, launched: set<Name>, skipped: set<Name>)
    requires CountsUnmarked(cfg, degree, marked) && Queue(cfg, toStart, marked, launched, skipped)
    ensures ZerosBegun(degree, toStart, launched, skipped)
  {
    forall m | m in cfg
      ensures m in ZeroSet(degree) <==> m in Eligible(cfg, marked)
    {
      assert CountAt(cfg, degree[m], marked, m);
      EmptyDifference(DepsOn(cfg, m), marked);
    }
    assert ZeroSet(degree) == Eligible(cfg, marked);
  }

  lemma InvIsTracked(cfg: Catalog, s: Loop, n: Name)
    requires Inv(cfg, s)
    ensures TrackedWith(s.pidToName, s.states, Up(Summarise(s.log)), n)
  {
    hide Inv, Summarise, IsUp, Up;
    TrackedAreKnown(cfg, s);
    TrackingOf(cfg, s);
  }

  lemma TrackingOf(cfg: Catalog, s: Loop)
    requires Inv(cfg, s)
    ensures Tracking(s.pidToName, Up(Summarise(s.log)))
  {
    hide CountsUnmarked, Queue, Status, StartOrder, Blocking, Restarts, Tracking, Reports, Summarise, Up, Marked;
  }

  lemma ReportsAreNoted(readyReported: set<Name>, h: Summary, n: Name)
    requires Reports(readyReported, h) && n in h.over + h.skipped
    ensures Noted(readyReported, h, n)
  {
  }

  lemma PartsOf(cfg: Catalog, s: Loop, h: Summary)
    requires Parts(cfg, s, h)
    ensures CountsUnmarked(cfg, s.inDegree, Marked(h)) && Queue(cfg, s.toStart, Marked(h), h.launched, h.skipped)
  {
    hide CountsUnmarked, Queue, Status, StartOrder, Blocking, Restarts, Tracking, Reports;
  }

  lemma CountsExtra(completed: nat, pids: map<Pid, Name>, settled: set<Name>, n: Name)
    requires completed == |settled| && n in pids.Values
    ensures CountedTwice(completed, pids, settled, n)
  {
  }

  /** After the command: everything is as in a regular run, but for one child too many. */
  lemma RevivedIsLoose(cfg: Catalog, s: Loop, e: Event)
    requires Inv(cfg, s) && RevivesEnded(s, e)
    ensures Loose(cfg, Step(cfg, s, e), e.name)
  {
    hide Parts, Step, Summarise, CountsUnmarked, Queue, TrackedWith, Noted, Marked, Up, AtMostUnmarked, ZerosBegun, CountedTwice;
    hide Regular, Eligible, Reports;
    var h, n, pid := Summarise(s.log), e.name, SpawnOf(e).value;
    EndedIsSettled(cfg, s, h, n);
    RevivedFields(cfg, s, e);
    RevivedPid(s, e);
    SummaryFacts(cfg, s, h);
    InvIsTracked(cfg, s, n);
    ReportsOf(cfg, s, h);
    ReportsAreNoted(s.readyReported, h, n);
    PartsOf(cfg, s, h);
    ExactIsAtMost(cfg, s.inDegree, Marked(h));
    EligibleIsZero(cfg, s.inDegree, Marked(h), s.toStart, h.launched, h.skipped);
    WithAdds(s.pidToName, s.states, Up(h), n, n, pid);
    WithExtra(s.pidToName[pid := n], s.states[n := Running(pid)], Up(h), n);
    CountsExtra(s.completed, s.pidToName[pid := n], h.over + h.skipped, n);
  }

  lemma RevivedPid(s: Loop, e: Event)
    requires RevivesEnded(s, e)
    ensures SpawnOf(e).value !in s.pidToName
  {
  }

  lemma WithExtra(pids: map<Pid, Name>, states: map<Name, ServiceState>, up: set<Name>, n: Name)
    requires TrackedWith(pids, states, up + {n}, n)
    ensures TrackedWith(pids, states, up, n)
  {
  }

  /** A service with all its dependencies marked has begun, once the queue is drained. */
  lemma MarkedHasBegun(cfg: Catalog, degree: map<Name, nat>, marked: set<Name>, toStart: seq<Name>,
                       launched: set<Name>, skipped: set<Name>, m: Name)
    requires AtMostUnmarked(cfg, degree, marked) && ZerosBegun(degree, toStart, launched, skipped) && toStart == []
    requires m in cfg && DepsOn(cfg, m) <= marked
    ensures m in launched + skipped
  {
    assert AtMostAt(cfg, degree[m], marked, m);
    EmptyDifference(DepsOn(cfg, m), marked);
    assert m in ZeroSet(degree);
    assert Elems(toStart) == {};
  }

  /** So while a service is not counted, a child is tracked. */
  lemma LastIsUp(cfg: Catalog, s: Loop, h: Summary, n: Name)
    requires Acyclic(Deps(cfg)) && LooseParts(cfg, s, h, n) && s.toStart == []
    requires !(cfg.Keys <= h.over + h.skipped)
    ensures s.pidToName != map[]
  {
    hide Tracking, Acyclic, Deps, DepsOn, AtMostUnmarked, ZerosBegun, CountedTwice;
    var m := SomeUnsettled(cfg, h.over + h.skipped);
    assert DepsOn(cfg, m) <= Marked(h);
    MarkedHasBegun(cfg, s.inDegree, Marked(h), s.toStart, h.launched, h.skipped, m);
    assert m in Up(h);
    assert m in s.pidToName.Values;
  }

  lemma SomeUnsettled(cfg: Catalog, settled: set<Name>) returns (m: Name)
    requires Acyclic(Deps(cfg)) && !(cfg.Keys <= settled)
    ensures m in cfg && m !in settled && DepsOn(cfg, m) <= settled
  {
    var n := SomeEligible(cfg, settled);
    m := n;
  }

  lemma LooseEnd(cfg: Catalog, s: Loop, n: Name)
    requires Acyclic(Deps(cfg)) && Loose(cfg, s, n) && s.toStart == []
    ensures s.completed <= |cfg| + 1 && (s.completed == |cfg| ==> s.pidToName != map[])
  {
    var h := Summarise(s.log);
    LooseSettled(cfg, s, h, n);
    hide Summarise, Acyclic, LooseParts, Deps;
    SubsetCardinality(h.over + h.skipped, cfg.Keys);
    if s.completed == |cfg| && n !in s.pidToName.Values {
      SmallerMisses(h.over + h.skipped, cfg.Keys);
      LastIsUp(cfg, s, h, n);
    }
  }

  lemma SmallerMisses(a: set<Name>, b: set<Name>)
    requires |a| < |b|
    ensures !(b <= a)
  {
    if b <= a {
      SubsetCardinality(b, a);
    }
  }

  lemma LooseSettled(cfg: Catalog, s: Loop, h: Summary, n: Name)
    requires LooseParts(cfg, s, h, n)
    ensures h.over + h.skipped <= cfg.Keys
    ensures s.completed + (if n in s.pidToName.Values then 1 else 0) == |h.over + h.skipped| + 1
  {
    hide Tracking;
    assert h.launched + h.skipped <= ZeroSet(s.inDegree);
  }

  /**
   Once a service that has ended is started, restarted or reloaded into a new child, the loop miscounts
   to the end: through any regular run that follows, whenever the count is at the total and the queue
   drained, so that the loop exits, some child is tracked. The count passes the total by one at most.
   */
  lemma RevivalLeavesChild(cfg: Catalog, s: Loop, e: Event, events: seq<Event>)
    requires Acyclic(Deps(cfg)) && Inv(cfg, s) && RevivesEnded(s, e)
    requires RegularRun(cfg, Step(cfg, s, e), events)
    ensures var t := Run(cfg, Step(cfg, s, e), events);
            t.toStart == [] ==> t.completed <= |cfg| + 1 && (t.completed == |cfg| ==> t.pidToName != map[])
  {
    assert IsCommand(e);
    hide Loose, Inv, RevivesEnded, Step, Run, RegularRun, Acyclic;
    RevivedIsLoose(cfg, s, e);
    RunLoose(cfg, Step(cfg, s, e), e.name, events);
    var t := Run(cfg, Step(cfg, s, e), events);
    if t.toStart == [] {
      LooseEnd(cfg, t, e.name);
    }
  }

  // ------------------------------------------------------------------------------------------
  // Two children of one service
  // ------------------------------------------------------------------------------------------

  ghost predicate HasTwo(pids: map<Pid, Name>, n: Name) {
    exists p, q :: p in pids && q in pids && p != q && pids[p] == n && pids[q] == n
  }

  /** The event spawns a child of n while one is tracked. */
  ghost predicate SpawnsBeside(s: Loop, e: Event, n: Name) {
    && n in s.pidToName.Values
    && match e
       case LaunchNext(spawn) => NeedsSpawn(s, e) && spawn.Some? && s.toStart[|s.toStart| - 1] == n
       case StartCommand(m, spawn) => m == n && n in s.states && !IsUp(s.states, n) && n in s.defs && spawn.Some?
       case RestartCommand(m, _, spawn) => m == n && n in s.states && !IsUp(s.states, n) && n in s.defs && spawn.Some?
       case _ => false
  }

  lemma AddsBeside(pids: map<Pid, Name>, m: Name, pid: Pid, n: Name)
    requires pid !in pids && !HasTwo(pids, n)
    ensures HasTwo(pids[pid := m], n) <==> m == n && n in pids.Values
  {
    var pids' := pids[pid := m];
    if m == n && n in pids.Values {
      var p :| p in pids && pids[p] == n;
      assert pids'[p] == n && pids'[pid] == n && p != pid;
    }
    if HasTwo(pids', n) {
      var p, q :| p in pids' && q in pids' && p != q && pids'[p] == n && pids'[q] == n;
      assert p == pid || q == pid;
      assert p == pid ==> pids[q] == n && q in pids;
      assert q == pid ==> pids[p] == n && p in pids;
    }
  }

  lemma DropsOne(pids: map<Pid, Name>, was: Pid, n: Name)
    requires was in pids && !HasTwo(pids, n)
    ensures !HasTwo(pids - {was}, n) && (pids[was] == n ==> n !in (pids - {was}).Values)
  {
    forall p, q | p in pids - {was} && q in pids - {was} && p != q
      ensures !(pids[p] == n && pids[q] == n)
    {
    }
    if pids[was] == n {
      forall p | p in pids - {was}
        ensures (pids - {was})[p] != n
      {
        assert p in pids && p != was;
      }
    }
  }

  lemma SpawnBeside(s: Loop, m: Name, spawn: Option<Pid>, n: Name)
    requires FreshPid(s.pidToName.Keys, spawn) && !HasTwo(s.pidToName, n)
    ensures HasTwo(SpawnByHand(s, m, spawn).pidToName, n) <==>
            m == n && n in s.pidToName.Values && m in s.defs && spawn.Some?
  {
    hide Sync, HasTwo;
    if m in s.defs && spawn.Some? {
      AddsBeside(s.pidToName, m, spawn.value, n);
    }
  }

  lemma LaunchBeside(cfg: Catalog, s: Loop, spawn: Option<Pid>, n: Name)
    requires FreshPid(s.pidToName.Keys, spawn) && !HasTwo(s.pidToName, n)
    ensures HasTwo(OnLaunch(cfg, s, spawn).pidToName, n) <==> SpawnsBeside(s, LaunchNext(spawn), n)
  {
    hide HasTwo, OnSkip, Track;
    if s.toStart != [] {
      var m, s0 := s.toStart[|s.toStart| - 1], s.(toStart := s.toStart[..|s.toStart| - 1]);
      SkipPids(cfg, s0, m);
      if spawn.Some? {
        TrackPids(s0, m, spawn.value);
        AddsBeside(s.pidToName, m, spawn.value, n);
      }
    }
  }

  lemma SkipPids(cfg: Catalog, s: Loop, m: Name)
    ensures OnSkip(cfg, s, m).pidToName == s.pidToName && OnSkip(cfg, s, m).aborted == s.aborted && OnSkip(cfg, s, m).defs == s.defs
  {
    hide Sync, NeedsDependents, Lowered, Newly;
  }

  lemma TrackPids(s: Loop, m: Name, pid: Pid)
    ensures var s' := Track(s, m, pid, [Started(m, pid)]);
            s'.pidToName == s.pidToName[pid := m] && s'.aborted == s.aborted && s'.defs == s.defs
  {
    hide Sync;
  }

  lemma RespawnPid(cfg: Catalog, s: Loop, m: Name, status: WaitStatus, spawn: Option<Pid>)
    ensures var pids := match spawn case Some(pid) => s.pidToName[pid := m] case None => s.pidToName;
            OnManualRespawn(s, m, spawn).pidToName == pids && OnAutoRespawn(s, m, spawn).pidToName == pids
    ensures OnEnd(cfg, s, m, status).pidToName == s.pidToName
  {
    hide Sync, CountOf, Lowered, Newly, NeedsDependents, Unsuccessful, FinalState;
  }

  lemma ReapBeside(cfg: Catalog, s: Loop, was: Pid, status: WaitStatus, stopping: bool, spawn: Option<Pid>, n: Name)
    requires was in s.pidToName && FreshPid(s.pidToName.Keys - {was}, spawn) && !HasTwo(s.pidToName, n)
    ensures !HasTwo(OnReaped(cfg, s, was, status, stopping, spawn).pidToName, n)
  {
    hide HasTwo, OnEnd, OnManualRespawn, OnAutoRespawn, WillRestart;
    var m, s0 := s.pidToName[was], s.(pidToName := s.pidToName - {was});
    DropsOne(s.pidToName, was, n);
    RespawnPid(cfg, s0, m, status, spawn);
    if spawn.Some? {
      AddsBeside(s0.pidToName, m, spawn.value, n);
    }
  }

  lemma ReadyPids(cfg: Catalog, s: Loop, m: Name)
    ensures OnReady(cfg, s, m).pidToName == s.pidToName
  {
    hide Sync, Lowered, Newly;
  }

  lemma VanishBeside(s: Loop, pid: Pid, n: Name)
    requires pid in s.pidToName && !HasTwo(s.pidToName, n)
    ensures !HasTwo(OnVanished(s, pid).pidToName, n)
  {
    hide HasTwo;
    DropsOne(s.pidToName, pid, n);
  }

  /**
   A service gets a second tracked child exactly when it has one and is launched from the queue, or
   started or restarted by hand while it is not shown as up. No other event can do it, in any state.
   */
  lemma TwoChildrenIff(cfg: Catalog, s: Loop, e: Event, n: Name)
    requires !s.aborted && Possible(s, e) && !HasTwo(s.pidToName, n)
    ensures HasTwo(Step(cfg, s, e).pidToName, n) <==> SpawnsBeside(s, e, n)
  {
    hide HasTwo, OnReady, OnLaunch, OnReaped, OnVanished, SpawnByHand, NeedsSpawn;
    match e
    case ReadySignal(m) => ReadyPids(cfg, s, m);
    case LaunchNext(spawn) => LaunchBeside(cfg, s, spawn, n);
    case Reaped(pid, status, stopping, spawn) => ReapBeside(cfg, s, pid, status, stopping, spawn, n);
    case Vanished(pid) => VanishBeside(s, pid, n);
    case StartCommand(m, spawn) => SpawnBeside(s, m, spawn, n);
    case RestartCommand(m, reply, spawn) => SpawnBeside(s, m, spawn, n);
    case ReloadCommand(m, reply, reread, spawn) =>
      if reread.Changed? {
        SpawnBeside(s.(defs := s.defs[m := reread.def]), m, spawn, n);
      }
  }

  /** Until it is reaped, a child stays tracked for its service, and the service keeps a definition. */
  ghost predicate Tracked(s: Loop, pid: Pid, n: Name) {
    !s.aborted && pid in s.pidToName && s.pidToName[pid] == n && n in s.defs
  }

  lemma LaunchTracks(cfg: Catalog, s: Loop, pid: Pid, n: Name, q: Pid)
    requires Tracked(s, pid, n) && q != pid
    ensures Tracked(OnLaunch(cfg, s, Some(q)), pid, n)
  {
    hide OnSkip, Track;
    if s.toStart != [] {
      var m, s0 := s.toStart[|s.toStart| - 1], s.(toStart := s.toStart[..|s.toStart| - 1]);
      SkipPids(cfg, s0, m);
      TrackPids(s0, m, q);
    }
  }

  lemma ReapTracks(cfg: Catalog, s: Loop, pid: Pid, n: Name, was: Pid, status: WaitStatus, stopping: bool, q: Pid)
    requires Tracked(s, pid, n) && was in s.pidToName && was != pid && q != pid
    ensures Tracked(OnReaped(cfg, s, was, status, stopping, Some(q)), pid, n)
  {
    hide OnEnd, OnManualRespawn, OnAutoRespawn, WillRestart;
    var m, s0 := s.pidToName[was], s.(pidToName := s.pidToName - {was});
    RespawnPid(cfg, s0, m, status, Some(q));
    RespawnFields(s0, m, q);
    EndStays(cfg, s0, m, status);
  }

  lemma EndStays(cfg: Catalog, s: Loop, m: Name, status: WaitStatus)
    ensures OnEnd(cfg, s, m, status).aborted == s.aborted && OnEnd(cfg, s, m, status).defs == s.defs
  {
    hide Sync, CountOf, Lowered, Newly, NeedsDependents, Unsuccessful, FinalState;
  }

  lemma SpawnTracks(s: Loop, pid: Pid, n: Name, m: Name, spawn: Option<Pid>)
    requires Tracked(s, pid, n) && FreshPid(s.pidToName.Keys, spawn)
    ensures Tracked(SpawnByHand(s, m, spawn), pid, n)
  {
    hide Sync;
  }

  lemma ReadyTracks(cfg: Catalog, s: Loop, pid: Pid, n: Name, m: Name)
    requires Tracked(s, pid, n)
    ensures Tracked(OnReady(cfg, s, m), pid, n)
  {
    hide Sync, Lowered, Newly;
  }

  lemma CommandTracks(cfg: Catalog, s: Loop, pid: Pid, n: Name, e: Event)
    requires Tracked(s, pid, n) && Possible(s, e) && IsCommand(e)
    ensures Tracked(Step(cfg, s, e), pid, n)
  {
    hide SpawnByHand;
    SpawnTracks(s, pid, n, e.name, e.spawn);
    if e.ReloadCommand? && e.reread.Changed? {
      SpawnTracks(s.(defs := s.defs[e.name := e.reread.def]), pid, n, e.name, e.spawn);
    }
  }

  lemma StepTracks(cfg: Catalog, s: Loop, pid: Pid, n: Name, e: Event)
    requires Tracked(s, pid, n) && Regular(s, e) && (e.Reaped? ==> e.pid != pid)
    ensures Tracked(Step(cfg, s, e), pid, n)
  {
    assert !s.aborted && pid in s.pidToName;
    hide Tracked, OnReady, OnLaunch, OnReaped, Launched, NeedsSpawn;
    match e
    case ReadySignal(m) => ReadyTracks(cfg, s, pid, n, m);
    case LaunchNext(spawn) =>
      var q := LaunchPid(cfg, s, spawn);
      LaunchTracks(cfg, s, pid, n, q);
    case Reaped(was, status, stopping, spawn) =>
      var q := ReapPid(cfg, s, was, status, stopping, spawn);
      ReapTracks(cfg, s, pid, n, was, status, stopping, q);
    case StartCommand(_, _) => CommandTracks(cfg, s, pid, n, e);
    case RestartCommand(_, _, _) => CommandTracks(cfg, s, pid, n, e);
    case ReloadCommand(_, _, _, _) => CommandTracks(cfg, s, pid, n, e);
  }

  lemma {:induction false} RunTracks(cfg: Catalog, s: Loop, pid: Pid, n: Name, events: seq<Event>)
    requires Tracked(s, pid, n) && RegularRun(cfg, s, events) && NeverReaps(events, pid)
    ensures Tracked(Run(cfg, s, events), pid, n)
    decreases |events|
  {
    hide Tracked, Step, Regular;
    if events == [] {
    } else {
      var init, e := events[..|events| - 1], events[|events| - 1];
      assert NeverReaps(init, pid) && e in events;
      RunTracks(cfg, s, pid, n, init);
      StepTracks(cfg, Run(cfg, s, init), pid, n, e);
    }
  }

  /**
   A Pending service started by hand is launched again when its turn comes: whatever happens in between,
   if it is not blocked and its first child was not reaped, it then has two.
   */
  lemma StartedPendingRunsTwice(cfg: Catalog, s: Loop, n: Name, pid: Pid, events: seq<Event>, t: Loop, pid2: Pid)
    requires Inv(cfg, s) && n in s.states && s.states[n].Pending? && pid !in s.pidToName
    requires RegularRun(cfg, Step(cfg, s, StartCommand(n, Some(pid))), events) && NeverReaps(events, pid)
    requires t == Run(cfg, Step(cfg, s, StartCommand(n, Some(pid))), events)
    requires t.toStart != [] && t.toStart[|t.toStart| - 1] == n && n !in t.blocked && pid2 !in t.pidToName
    ensures var t' := Step(cfg, t, LaunchNext(Some(pid2)));
            && pid in t'.pidToName && pid2 in t'.pidToName && pid != pid2
            && t'.pidToName[pid] == n && t'.pidToName[pid2] == n && HasTwo(t'.pidToName, n)
  {
    hide *;
    StartTracks(cfg, s, n, pid);
    RunTracks(cfg, Step(cfg, s, StartCommand(n, Some(pid))), pid, n, events);
    LaunchTwice(cfg, t, n, pid, pid2);
  }

  lemma StartTracks(cfg: Catalog, s: Loop, n: Name, pid: Pid)
    requires Inv(cfg, s) && n in s.states && s.states[n].Pending? && pid !in s.pidToName
    ensures Tracked(Step(cfg, s, StartCommand(n, Some(pid))), pid, n)
  {
    hide Inv, Sync;
    TrackedAreKnown(cfg, s);
  }

  lemma LaunchTwice(cfg: Catalog, t: Loop, n: Name, pid: Pid, pid2: Pid)
    requires Tracked(t, pid, n) && t.toStart != [] && t.toStart[|t.toStart| - 1] == n && n !in t.blocked
    requires pid2 !in t.pidToName
    ensures var t' := Step(cfg, t, LaunchNext(Some(pid2)));
            && pid in t'.pidToName && pid2 in t'.pidToName && pid != pid2
            && t'.pidToName[pid] == n && t'.pidToName[pid2] == n && HasTwo(t'.pidToName, n)
  {
    hide OnLaunch;
    LaunchFields(cfg, t, n, pid2);
  }

  /** Such as a service that runs alone, started by hand before the loop first launches anything. */
  lemma StartedAndLaunched(n: Name, def: ServiceDef)
    requires def.deps.None?
    ensures var cfg, degree := map[n := def], map[n := 0];
            var s0 := Init(cfg, degree);
            var events := [StartCommand(n, Some(1)), LaunchNext(Some(2))];
            && Booted(cfg, degree) && PossibleRun(cfg, s0, events)
            && Run(cfg, s0, events).pidToName == map[1 := n, 2 := n]
  {
    var cfg: Catalog, degree: map<Name, nat> := map[n := def], map[n := 0];
    var s0, e1, e2 := Init(cfg, degree), StartCommand(n, Some(1)), LaunchNext(Some(2));
    AloneIsBooted(cfg, degree, n);
    AloneUnlocksNothing(cfg, degree, n);
    AloneInit(cfg, degree, n);
    assert n in s0.states && s0.states[n] == Pending;
    hide Listing, Booted, Init, Run, PossibleRun;
    AloneStartedFirst(cfg, s0, n);
    RunAppends(cfg, s0, [], e1);
    RunAppends(cfg, s0, [e1], e2);
    RunEmpty(cfg, s0);
    assert [] + [e1] == [e1] && [e1] + [e2] == [e1, e2];
  }

  lemma RunEmpty(cfg: Catalog, s: Loop)
    ensures Run(cfg, s, []) == s && PossibleRun(cfg, s, [])
  {
  }

  lemma AloneStartedFirst(cfg: Catalog, s: Loop, n: Name)
    requires !s.aborted && s.toStart == [n] && s.blocked == {} && n in s.defs && s.pidToName == map[]
    requires n in s.states && s.states[n] == Pending
    ensures var s1 := Step(cfg, s, StartCommand(n, Some(1)));
            && Possible(s, StartCommand(n, Some(1))) && Possible(s1, LaunchNext(Some(2)))
            && Step(cfg, s1, LaunchNext(Some(2))).pidToName == map[1 := n, 2 := n]
  {
    hide Sync;
  }
}
