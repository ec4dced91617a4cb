/** Every event of a regular run preserves the invariant. */
module SupervisorSteps {
  import opened Services
  import opened Ordering
  import Kahn
  import opened Graph
  import opened Build
  import opened Supervisor
  import opened SupervisorInvariant

  /** A launched service not yet reported is not marked, and has its one child. */
  lemma UnreportedIsUp(cfg: Catalog, s: Loop, h: Summary, n: Name)
    requires Parts(cfg, s, h) && n in h.launched && n !in s.readyReported
    ensures n in cfg && n !in Marked(h) && n in Up(h) && n in Begun(h)
  {
  }

  lemma ReportsSignal(readyReported: set<Name>, h: Summary, n: Name)
    requires Reports(readyReported, h) && n in h.launched && n !in readyReported
    ensures Reports(readyReported + {n}, Note(h, Reported(n)))
  {
  }

  lemma ReportsEnd(readyReported: set<Name>, h: Summary, n: Name, failed: bool)
    requires Reports(readyReported, h) && n in h.launched && n !in h.over
    ensures Reports(readyReported + {n}, Note(h, Ended(n, failed, n in readyReported)))
  {
  }

  lemma LaunchedIsSummarised(log: seq<Action>)
    ensures Summarise(log).launched == Launched(log)
  {
  }

  lemma NoteReported(h: Summary, n: Name)
    ensures var h' := Note(h, Reported(n));
            Marked(h') == Marked(h) + {n} && Up(h') == Up(h) && Begun(h') == Begun(h)
  {
  }

  lemma NoteSkipped(h: Summary, n: Name)
    requires n !in h.skipped
    ensures var h' := Note(h, Skipped(n));
            && Marked(h') == Marked(h) + {n} && Up(h') == Up(h) && Begun(h') == Begun(h) + {n}
            && |h'.skipped| == |h.skipped| + 1
  {
  }

  lemma ReadyKeeps(cfg: Catalog, s: Loop, n: Name)
    requires Inv(cfg, s) && n in Launched(s.log) && n !in s.readyReported
    ensures Inv(cfg, OnReady(cfg, s, n))
  {
    hide Queue, CountsUnmarked, Status, StartOrder, Blocking, Tracking, Reports, Restarts, Sync, Summarise;
    hide Marked, Up, Begun, Lowered, Newly, NeedsDependents, DepsOn;
    var h, s' := Summarise(s.log), OnReady(cfg, s, n);
    var h' := Note(h, Reported(n));
    LaunchedIsSummarised(s.log);
    UnreportedIsUp(cfg, s, h, n);
    ReportsSignal(s.readyReported, h, n);
    SummaryGrows(s.log, Reported(n));
    NoteReported(h, n);
    MarkStep(cfg, s.inDegree, Marked(h), n);
    QueueMarks(cfg, s.inDegree, s.toStart, Marked(h), h.launched, h.skipped, n);
    StatusReady(cfg, s.states, s.shared, s.pidToName, Up(h), Begun(h), h.succeeded, h.skipped, n);
    StartOrderGrows(cfg, s.log, Reported(n));
  }

  // ------------------------------------------------------------------------------------------
  // Launching
  // ------------------------------------------------------------------------------------------

  /** What is known of the service about to be launched. */
  lemma NextIsFresh(cfg: Catalog, s: Loop, h: Summary)
    requires Parts(cfg, s, h) && s.toStart != []
    ensures var n := s.toStart[|s.toStart| - 1];
            && n in cfg && n in s.defs && n !in Begun(h) && n !in Marked(h) && n !in Up(h) && n !in h.over && n !in h.skipped
            && n !in h.succeeded && DepsOn(cfg, n) <= Marked(h)
  {
    hide CountsUnmarked, Status, StartOrder, Blocking;
    QueuePops(cfg, s.toStart, Marked(h), h.launched, h.skipped);
  }

  lemma NotBlockedIsHealthy(cfg: Catalog, blocked: set<Name>, h: Summary, readyReported: set<Name>, n: Name)
    requires Blocking(cfg, blocked, h.culprits, h.skipped, h.launched) && Reports(readyReported, h)
    requires n in cfg && n !in blocked && DepsOn(cfg, n) <= Marked(h)
    ensures NeedsOf(cfg[n]) * cfg.Keys <= h.signalled + h.succeeded
  {
    forall d | d in NeedsOf(cfg[n]) * cfg.Keys
      ensures d in h.signalled + h.succeeded
    {
      assert d in DepsOn(cfg, n);
      assert n in NeedsDependents(cfg, d);
      assert d !in h.culprits + h.skipped;
    }
  }

  /** The launch about to happen respects the start order. */
  lemma LaunchOrdered(cfg: Catalog, s: Loop, n: Name, pid: Pid)
    requires Inv(cfg, s) && s.toStart != [] && n == s.toStart[|s.toStart| - 1] && n !in s.blocked
    ensures StartOrder(cfg, s.log + [Started(n, pid)])
  {
    hide Queue, CountsUnmarked, Status, StartOrder, Blocking, Tracking, Reports, Restarts, Summarise;
    var h := Summarise(s.log);
    NextIsFresh(cfg, s, h);
    NotBlockedIsHealthy(cfg, s.blocked, h, s.readyReported, n);
    LaunchedNow(cfg, s.log, h, n);
    StartOrderGrows(cfg, s.log, Started(n, pid));
  }

  lemma LaunchFields(cfg: Catalog, s: Loop, n: Name, pid: Pid)
    requires !s.aborted && s.toStart != [] && n == s.toStart[|s.toStart| - 1] && n !in s.blocked && n in s.defs
    ensures OnLaunch(cfg, s, Some(pid)) ==
            s.(toStart := s.toStart[..|s.toStart| - 1],
               states := s.states[n := Running(pid)],
               shared := Sync(s.shared, n, Running(pid)),
               pidToName := s.pidToName[pid := n],
               log := s.log + [Started(n, pid)])
  {
    hide Sync;
  }

  lemma LaunchKeeps(cfg: Catalog, s: Loop, pid: Pid)
    requires Inv(cfg, s) && s.toStart != [] && s.toStart[|s.toStart| - 1] !in s.blocked
    requires pid !in s.pidToName
    ensures Inv(cfg, OnLaunch(cfg, s, Some(pid)))
  {
    hide Queue, CountsUnmarked, Status, StartOrder, Blocking, Tracking, Reports, Restarts, Sync, Summarise;
    hide Marked, Up, Begun, Lowered, Newly, NeedsDependents, DepsOn, OnLaunch;
    var h, n := Summarise(s.log), s.toStart[|s.toStart| - 1];
    NextIsFresh(cfg, s, h);
    LaunchFields(cfg, s, n, pid);
    SummaryGrows(s.log, Started(n, pid));
    NoteStarted(h, n, pid);
    QueuePops(cfg, s.toStart, Marked(h), h.launched, h.skipped);
    LaunchKeepsReports(s.readyReported, h, n, pid);
    LaunchKeepsBlocking(cfg, s.blocked, h, n);
    StatusLaunches(cfg, s.states, s.shared, s.pidToName, Up(h), Begun(h), h.succeeded, h.skipped, n, pid);
    TrackingAdds(s.pidToName, Up(h), n, pid);
    RestartsGrow(cfg, s.pendingRestart, s.restartReplies, s.defs, s.restartCounts, Up(h), n);
    LaunchOrdered(cfg, s, n, pid);
  }

  lemma NoteStarted(h: Summary, n: Name, pid: Pid)
    requires n !in h.over
    ensures var h' := Note(h, Started(n, pid));
            Marked(h') == Marked(h) && Up(h') == Up(h) + {n} && Begun(h') == Begun(h) + {n}
  {
  }

  lemma RestartsGrow(cfg: Catalog, pending: set<Name>, replies: map<Name, ReplyId>, defs: Catalog,
                     counts: map<Name, nat>, up: set<Name>, n: Name)
    requires Restarts(cfg, pending, replies, defs, counts, up)
    ensures Restarts(cfg, pending, replies, defs, counts, up + {n})
  {
  }

  lemma LaunchedNow(cfg: Catalog, log: seq<Action>, h: Summary, n: Name)
    requires h == Summarise(log) && n in cfg && n !in h.launched
    requires DepsOn(cfg, n) <= Marked(h) && NeedsOf(cfg[n]) * cfg.Keys <= h.signalled + h.succeeded
    ensures LaunchedInOrder(cfg, log, n)
  {
  }

  lemma LaunchKeepsReports(readyReported: set<Name>, h: Summary, n: Name, pid: Pid)
    requires Reports(readyReported, h)
    ensures Reports(readyReported, Note(h, Started(n, pid)))
  {
  }

  lemma LaunchKeepsBlocking(cfg: Catalog, blocked: set<Name>, h: Summary, n: Name)
    requires Blocking(cfg, blocked, h.culprits, h.skipped, h.launched) && n !in blocked
    ensures Blocking(cfg, blocked, h.culprits, h.skipped, h.launched + {n})
  {
  }

  lemma SkipKeepsReports(readyReported: set<Name>, h: Summary, n: Name)
    requires Reports(readyReported, h)
    ensures Reports(readyReported, Note(h, Skipped(n)))
  {
  }

  lemma SkipKeepsBlocking(cfg: Catalog, blocked: set<Name>, h: Summary, n: Name)
    requires Blocking(cfg, blocked, h.culprits, h.skipped, h.launched) && n in blocked
    requires NeedsDependents(cfg, n) !! h.launched
    ensures Blocking(cfg, blocked + NeedsDependents(cfg, n), h.culprits, h.skipped + {n}, h.launched)
  {
    NeedAnyGrows(cfg, h.culprits + h.skipped, n);
    assert h.culprits + h.skipped + {n} == h.culprits + (h.skipped + {n});
  }

  lemma SkipKeeps(cfg: Catalog, s: Loop, spawn: Option<Pid>)
    requires Inv(cfg, s) && s.toStart != [] && s.toStart[|s.toStart| - 1] in s.blocked
    ensures Inv(cfg, OnLaunch(cfg, s, spawn))
  {
    hide Queue, CountsUnmarked, Status, StartOrder, Blocking, Tracking, Reports, Restarts, Sync, Summarise;
    hide Marked, Up, Begun, Lowered, Newly, NeedsDependents, DepsOn;
    var h, n, s' := Summarise(s.log), s.toStart[|s.toStart| - 1], OnLaunch(cfg, s, spawn);
    var h', init := Note(h, Skipped(n)), s.toStart[..|s.toStart| - 1];
    NextIsFresh(cfg, s, h);
    SummaryGrows(s.log, Skipped(n));
    NoteSkipped(h, n);
    BlocksNoneLaunched(cfg, s.toStart, Marked(h), h.launched, h.skipped, n);
    QueuePops(cfg, s.toStart, Marked(h), h.launched, h.skipped);
    MarkStep(cfg, s.inDegree, Marked(h), n);
    QueueMarks(cfg, s.inDegree, init, Marked(h), h.launched, h'.skipped, n);
    SkipKeepsReports(s.readyReported, h, n);
    SkipKeepsBlocking(cfg, s.blocked, h, n);
    StatusSkips(cfg, s.states, s.shared, s.pidToName, Up(h), Begun(h), h.succeeded, h.skipped, n);
    StartOrderGrows(cfg, s.log, Skipped(n));
  }

  // ------------------------------------------------------------------------------------------
  // A child ended
  // ------------------------------------------------------------------------------------------

  lemma TrackedIsUp(cfg: Catalog, s: Loop, h: Summary, pid: Pid)
    requires Parts(cfg, s, h) && pid in s.pidToName
    ensures var n := s.pidToName[pid];
            && n in cfg && n in s.defs && n in h.launched && n !in h.over && n !in h.skipped
            && n in Up(h) && n in Begun(h) && n !in h.succeeded
  {
    hide CountsUnmarked, Status, StartOrder, Blocking;
    assert s.pidToName[pid] in s.pidToName.Values;
  }

  /** A respawn changes the pid of a service that stays up, whatever else it does to the restart maps. */
  lemma RespawnKeeps(cfg: Catalog, s: Loop, s0: Loop, pid: Pid, newPid: Pid, manual: bool)
    requires Inv(cfg, s) && pid in s.pidToName && newPid !in (s.pidToName - {pid})
    requires s0 == s.(pidToName := s.pidToName - {pid}, pendingRestart := s0.pendingRestart,
                      restartReplies := s0.restartReplies, restartCounts := s0.restartCounts)
    requires Restarts(cfg, s0.pendingRestart, s0.restartReplies, s0.defs, s0.restartCounts, Up(Summarise(s.log)))
    ensures var n := s.pidToName[pid]; Inv(cfg, Track(s0, n, newPid, [Respawned(n, newPid, manual)]))
  {
    hide Queue, CountsUnmarked, Status, StartOrder, Blocking, Tracking, Reports, Restarts, Sync, Summarise;
    hide Marked, Up, Begun, Lowered, Newly, NeedsDependents, DepsOn;
    var h, n := Summarise(s.log), s.pidToName[pid];
    var a := Respawned(n, newPid, manual);
    TrackedIsUp(cfg, s, h, pid);
    SummaryGrows(s.log, a);
    StatusRespawns(cfg, s.states, s.shared, s.pidToName, Up(h), Begun(h), h.succeeded, h.skipped, pid, newPid);
    TrackingReplaces(s.pidToName, Up(h), pid, newPid);
    StartOrderGrows(cfg, s.log, a);
  }

  lemma ManualRespawnKeeps(cfg: Catalog, s: Loop, pid: Pid, newPid: Pid)
    requires Inv(cfg, s) && pid in s.pidToName && newPid !in (s.pidToName - {pid})
    requires s.pidToName[pid] in s.pendingRestart
    ensures Inv(cfg, OnManualRespawn(s.(pidToName := s.pidToName - {pid}), s.pidToName[pid], Some(newPid)))
  {
    hide Queue, CountsUnmarked, Status, StartOrder, Blocking, Tracking, Reports, Restarts, Sync, Summarise;
    var n := s.pidToName[pid];
    var s0 := s.(pidToName := s.pidToName - {pid}, pendingRestart := s.pendingRestart - {n},
                 restartReplies := s.restartReplies - {n});
    RestartsManual(cfg, s.pendingRestart, s.restartReplies, s.defs, s.restartCounts, Up(Summarise(s.log)), n);
    RespawnKeeps(cfg, s, s0, pid, newPid, true);
  }

  lemma RestartsManual(cfg: Catalog, pending: set<Name>, replies: map<Name, ReplyId>, defs: Catalog,
                       counts: map<Name, nat>, up: set<Name>, n: Name)
    requires Restarts(cfg, pending, replies, defs, counts, up)
    ensures Restarts(cfg, pending - {n}, replies - {n}, defs, counts, up)
  {
  }

  lemma RestartsCounted(cfg: Catalog, pending: set<Name>, replies: map<Name, ReplyId>, defs: Catalog,
                        counts: map<Name, nat>, up: set<Name>, n: Name, c: nat)
    requires Restarts(cfg, pending, replies, defs, counts, up) && n in cfg && c <= MAX_RESTARTS
    ensures Restarts(cfg, pending, replies, defs, counts[n := c], up)
    ensures n !in pending ==> Restarts(cfg, pending, replies, defs, counts[n := c], up - {n})
    ensures CountOf(counts, n) <= MAX_RESTARTS
  {
  }

  lemma AutoRespawnKeeps(cfg: Catalog, s: Loop, pid: Pid, newPid: Pid)
    requires Inv(cfg, s) && pid in s.pidToName && newPid !in (s.pidToName - {pid})
    requires CountOf(s.restartCounts, s.pidToName[pid]) < MAX_RESTARTS
    ensures Inv(cfg, OnAutoRespawn(s.(pidToName := s.pidToName - {pid}), s.pidToName[pid], Some(newPid)))
  {
    hide Queue, CountsUnmarked, Status, StartOrder, Blocking, Tracking, Reports, Restarts, Sync, Summarise;
    var n, h := s.pidToName[pid], Summarise(s.log);
    var c := CountOf(s.restartCounts, n) + 1;
    var s0 := s.(pidToName := s.pidToName - {pid}, restartCounts := s.restartCounts[n := c]);
    TrackedIsUp(cfg, s, h, pid);
    RestartsCounted(cfg, s.pendingRestart, s.restartReplies, s.defs, s.restartCounts, Up(h), n, c);
    RespawnKeeps(cfg, s, s0, pid, newPid, false);
  }

  lemma NoteEnded(h: Summary, n: Name, failed: bool, reported: bool)
    requires n in h.launched && n !in h.over
    ensures var h' := Note(h, Ended(n, failed, reported));
            && Marked(h') == Marked(h) + {n} && Up(h') == Up(h) - {n} && Begun(h') == Begun(h)
            && |h'.over| == |h.over| + 1
  {
  }

  lemma EndBlocks(cfg: Catalog, blocked: set<Name>, h: Summary, n: Name)
    requires Blocking(cfg, blocked, h.culprits, h.skipped, h.launched)
    requires NeedsDependents(cfg, n) !! h.launched
    ensures Blocking(cfg, blocked + NeedsDependents(cfg, n), h.culprits + {n}, h.skipped, h.launched)
  {
    NeedAnyGrows(cfg, h.culprits + h.skipped, n);
    assert h.culprits + h.skipped + {n} == h.culprits + {n} + h.skipped;
  }

  lemma ReportedIsMarked(readyReported: set<Name>, h: Summary, n: Name)
    requires Reports(readyReported, h) && n in h.launched && n !in h.over && n !in h.skipped
    ensures n in readyReported <==> n in Marked(h)
  {
  }

  /** The state a service ends in is Exited with code 0 exactly when its end is no failure. */
  lemma FinalVerdict(defs: Catalog, counts: map<Name, nat>, n: Name, status: WaitStatus)
    ensures FinalState(defs, counts, n, status) == Exited(0) <==> !Unsuccessful(defs, counts, n, status)
    ensures FinalState(defs, counts, n, status).Exited? || FinalState(defs, counts, n, status).Failed?
    ensures Unsuccessful(defs, counts, n, status) <==>
            || status.Signaled? || status.code != 0
            || (PolicyOf(defs, n) == Some(Always) && CountOf(counts, n) >= MAX_RESTARTS)
  {
  }

  lemma EndReportedFields(cfg: Catalog, s: Loop, n: Name, status: WaitStatus)
    requires n in s.readyReported
    ensures var failed, st := Unsuccessful(s.defs, s.restartCounts, n, status), FinalState(s.defs, s.restartCounts, n, status);
            OnEnd(cfg, s, n, status) ==
            s.(restartCounts := s.restartCounts[n := CountOf(s.restartCounts, n)],
               states := s.states[n := st],
               shared := Sync(s.shared, n, st),
               completed := s.completed + 1,
               readyReported := s.readyReported + {n},
               log := s.log + [Ended(n, failed, true)])
  {
    hide Sync, Lowered, Newly, NeedsDependents, FinalState, Unsuccessful, CountOf;
  }

  /** The end of a service already reported ready: nothing is marked or blocked. */
  lemma EndReportedKeeps(cfg: Catalog, s: Loop, pid: Pid, status: WaitStatus)
    requires Inv(cfg, s) && pid in s.pidToName && s.pidToName[pid] !in s.pendingRestart
    requires s.pidToName[pid] in s.readyReported
    ensures Inv(cfg, OnEnd(cfg, s.(pidToName := s.pidToName - {pid}), s.pidToName[pid], status))
  {
    hide Queue, CountsUnmarked, Status, StartOrder, Blocking, Tracking, Reports, Restarts, Sync, Summarise, Note;
    hide Marked, Up, Begun, Lowered, Newly, NeedsDependents, DepsOn, FinalState, Unsuccessful, CountOf, OnEnd;
    var h, n, s0 := Summarise(s.log), s.pidToName[pid], s.(pidToName := s.pidToName - {pid});
    var failed, st := Unsuccessful(s0.defs, s0.restartCounts, n, status), FinalState(s0.defs, s0.restartCounts, n, status);
    var a := Ended(n, failed, true);
    var h' := Note(h, a);
    EndReportedFields(cfg, s0, n, status);
    TrackedIsUp(cfg, s, h, pid);
    SummaryGrows(s.log, a);
    ReportedIsMarked(s.readyReported, h, n);
    NoteEndedReported(h, n, failed);
    ReportsEnd(s.readyReported, h, n, failed);
    FinalVerdict(s.defs, s.restartCounts, n, status);
    StatusEnds(cfg, s.states, s.shared, s.pidToName, Up(h), Begun(h), h.succeeded, h.skipped, pid, st, h'.succeeded);
    TrackingDrops(s.pidToName, Up(h), pid);
    RestartsEnd(cfg, s, h, n);
    StartOrderGrows(cfg, s.log, a);
  }

  lemma NoteEndedReported(h: Summary, n: Name, failed: bool)
    requires n in h.launched && n !in h.over && n in Marked(h)
    ensures var h' := Note(h, Ended(n, failed, true));
            && Marked(h') == Marked(h) && Up(h') == Up(h) - {n} && Begun(h') == Begun(h)
            && |h'.over| == |h.over| + 1
            && h'.culprits == h.culprits && h'.launched == h.launched && h'.skipped == h.skipped
            && h'.succeeded == (if failed then h.succeeded else h.succeeded + {n})
  {
    hide Marked, Up, Begun;
    NoteEnded(h, n, failed, true);
    assert Marked(h) + {n} == Marked(h);
  }

  lemma RestartsEnd(cfg: Catalog, s: Loop, h: Summary, n: Name)
    requires Parts(cfg, s, h) && n in cfg && n !in s.pendingRestart
    ensures Restarts(cfg, s.pendingRestart, s.restartReplies, s.defs,
                     s.restartCounts[n := CountOf(s.restartCounts, n)], Up(h) - {n})
  {
    hide Queue, CountsUnmarked, Status, StartOrder, Blocking, Tracking, Reports;
  }

  lemma EndKeepsBlocking(cfg: Catalog, s: Loop, h: Summary, n: Name, failed: bool)
    requires Parts(cfg, s, h) && n in cfg && n !in Marked(h)
    ensures var h' := Note(h, Ended(n, failed, false));
            Blocking(cfg, if failed then s.blocked + NeedsDependents(cfg, n) else s.blocked,
                     h'.culprits, h'.skipped, h'.launched)
  {
    hide Queue, CountsUnmarked, Status, StartOrder, Blocking, Tracking, Reports, Restarts;
    if failed {
      BlocksNoneLaunched(cfg, s.toStart, Marked(h), h.launched, h.skipped, n);
      EndBlocks(cfg, s.blocked, h, n);
    } else {
      assert Note(h, Ended(n, failed, false)).culprits == h.culprits;
    }
  }

  lemma EndFirstFields(cfg: Catalog, s: Loop, n: Name, status: WaitStatus)
    requires n !in s.readyReported
    ensures var failed, st := Unsuccessful(s.defs, s.restartCounts, n, status), FinalState(s.defs, s.restartCounts, n, status);
            OnEnd(cfg, s, n, status) ==
            s.(restartCounts := s.restartCounts[n := CountOf(s.restartCounts, n)],
               states := s.states[n := st],
               shared := Sync(s.shared, n, st),
               completed := s.completed + 1,
               blocked := if failed then s.blocked + NeedsDependents(cfg, n) else s.blocked,
               readyReported := s.readyReported + {n},
               inDegree := Lowered(cfg, s.inDegree, n),
               toStart := s.toStart + Newly(cfg, s.inDegree, n),
               log := s.log + [Ended(n, failed, false)])
  {
    hide Sync, Lowered, Newly, NeedsDependents, FinalState, Unsuccessful, CountOf;
  }

  lemma EndFirstKeeps(cfg: Catalog, s: Loop, pid: Pid, status: WaitStatus)
    requires Inv(cfg, s) && pid in s.pidToName && s.pidToName[pid] !in s.pendingRestart
    requires s.pidToName[pid] !in s.readyReported
    ensures Inv(cfg, OnEnd(cfg, s.(pidToName := s.pidToName - {pid}), s.pidToName[pid], status))
  {
    hide Queue, CountsUnmarked, Status, StartOrder, Blocking, Tracking, Reports, Restarts, Sync, Summarise;
    hide Marked, Up, Begun, Lowered, Newly, NeedsDependents, DepsOn, FinalState, Unsuccessful, CountOf, OnEnd;
    var h, n, s0 := Summarise(s.log), s.pidToName[pid], s.(pidToName := s.pidToName - {pid});
    var failed, st := Unsuccessful(s0.defs, s0.restartCounts, n, status), FinalState(s0.defs, s0.restartCounts, n, status);
    var a := Ended(n, failed, false);
    var h' := Note(h, a);
    EndFirstFields(cfg, s0, n, status);
    TrackedIsUp(cfg, s, h, pid);
    SummaryGrows(s.log, a);
    NoteEnded(h, n, failed, false);
    ReportedIsMarked(s.readyReported, h, n);
    ReportsEnd(s.readyReported, h, n, failed);
    FinalVerdict(s.defs, s.restartCounts, n, status);
    StatusEnds(cfg, s.states, s.shared, s.pidToName, Up(h), Begun(h), h.succeeded, h.skipped, pid, st, h'.succeeded);
    TrackingDrops(s.pidToName, Up(h), pid);
    RestartsEnd(cfg, s, h, n);
    StartOrderGrows(cfg, s.log, a);
    MarkStep(cfg, s.inDegree, Marked(h), n);
    QueueMarks(cfg, s.inDegree, s.toStart, Marked(h), h.launched, h.skipped, n);
    EndKeepsBlocking(cfg, s, h, n, failed);
  }

  lemma ReapedKeeps(cfg: Catalog, s: Loop, pid: Pid, status: WaitStatus, stopping: bool, newPid: Pid)
    requires Inv(cfg, s) && pid in s.pidToName && newPid !in (s.pidToName - {pid})
    ensures Inv(cfg, OnReaped(cfg, s, pid, status, stopping, Some(newPid)))
  {
    hide Inv, OnManualRespawn, OnAutoRespawn, OnEnd;
    var n, s0 := s.pidToName[pid], s.(pidToName := s.pidToName - {pid});
    if n in s.pendingRestart {
      ManualRespawnKeeps(cfg, s, pid, newPid);
    } else if WillRestart(s.defs, s.restartCounts, n, status, stopping) {
      AutoRespawnKeeps(cfg, s, pid, newPid);
    } else if n in s.readyReported {
      EndReportedKeeps(cfg, s, pid, status);
    } else {
      EndFirstKeeps(cfg, s, pid, status);
    }
  }

  // ------------------------------------------------------------------------------------------
  // Commands
  // ------------------------------------------------------------------------------------------

  lemma DeferKeeps(cfg: Catalog, s: Loop, n: Name, reply: ReplyId, defs: Catalog)
    requires Inv(cfg, s) && n in s.pidToName.Values && defs.Keys == cfg.Keys
    ensures Inv(cfg, Defer(s.(defs := defs), n, reply))
  {
    hide Queue, CountsUnmarked, Status, StartOrder, Blocking, Reports, Summarise;
  }

  lemma TrackedAreKnown(cfg: Catalog, s: Loop)
    requires Inv(cfg, s)
    ensures !s.aborted && s.pidToName.Values <= cfg.Keys
    ensures s.states.Keys == cfg.Keys && s.defs.Keys == cfg.Keys
    ensures forall n :: n in cfg ==> (IsUp(s.states, n) <==> n in s.pidToName.Values)
  {
    var h := Summarise(s.log);
    hide CountsUnmarked, StartOrder, Blocking, Summarise;
    forall n | n in cfg
      ensures IsUp(s.states, n) <==> n in s.pidToName.Values
    {
      assert StatusAt(s.states, s.shared, s.pidToName, Up(h), Begun(h), h.succeeded, h.skipped, n);
    }
  }

  lemma SignalKeeps(cfg: Catalog, s: Loop, n: Name)
    requires Inv(cfg, s) && n in Launched(s.log)
    ensures Inv(cfg, OnReady(cfg, s, n))
  {
    hide Inv;
    if n !in s.readyReported {
      ReadyKeeps(cfg, s, n);
    }
  }

  lemma LaunchNextKeeps(cfg: Catalog, s: Loop, pid: Pid)
    requires Inv(cfg, s) && pid !in s.pidToName
    ensures Inv(cfg, OnLaunch(cfg, s, Some(pid)))
  {
    hide Inv;
    if s.toStart == [] {
    } else if s.toStart[|s.toStart| - 1] in s.blocked {
      SkipKeeps(cfg, s, Some(pid));
    } else {
      LaunchKeeps(cfg, s, pid);
    }
  }

  /** There is always a pid that no child has. */
  lemma SomeFreshPid(pids: set<Pid>) returns (pid: Pid)
    ensures pid !in pids
  {
    pid := AbovePids(pids);
  }

  lemma {:induction false} AbovePids(pids: set<Pid>) returns (bound: Pid)
    ensures forall p :: p in pids ==> p < bound
  {
    if pids == {} {
      bound := 0;
    } else {
      var q :| q in pids;
      var below := AbovePids(pids - {q});
      bound := if below <= q then q + 1 else below;
      assert forall p :: p in pids ==> p == q || p in pids - {q};
    }
  }

  lemma LaunchIgnores(cfg: Catalog, s: Loop, spawn: Option<Pid>, other: Option<Pid>)
    requires !NeedsSpawn(s, LaunchNext(spawn))
    ensures OnLaunch(cfg, s, spawn) == OnLaunch(cfg, s, other)
  {
    hide OnSkip, Track;
  }

  lemma ReapIgnores(cfg: Catalog, s: Loop, pid: Pid, status: WaitStatus, stopping: bool, spawn: Option<Pid>, other: Option<Pid>)
    requires !NeedsSpawn(s, Reaped(pid, status, stopping, spawn))
    ensures OnReaped(cfg, s, pid, status, stopping, spawn) == OnReaped(cfg, s, pid, status, stopping, other)
  {
    hide OnManualRespawn, OnAutoRespawn, OnEnd, WillRestart;
  }

  /** A regular launch or reap is as if it came with a pid, needed or not. */
  lemma LaunchPid(cfg: Catalog, s: Loop, spawn: Option<Pid>) returns (pid: Pid)
    requires Regular(s, LaunchNext(spawn))
    ensures pid !in s.pidToName && OnLaunch(cfg, s, spawn) == OnLaunch(cfg, s, Some(pid))
  {
    hide OnLaunch;
    if spawn.Some? {
      pid := spawn.value;
    } else {
      pid := SomeFreshPid(s.pidToName.Keys);
      LaunchIgnores(cfg, s, spawn, Some(pid));
    }
  }

  lemma ReapPid(cfg: Catalog, s: Loop, p: Pid, status: WaitStatus, stopping: bool, spawn: Option<Pid>) returns (pid: Pid)
    requires Regular(s, Reaped(p, status, stopping, spawn))
    ensures p in s.pidToName && pid !in s.pidToName.Keys - {p} && pid !in s.pidToName - {p}
    ensures OnReaped(cfg, s, p, status, stopping, spawn) == OnReaped(cfg, s, p, status, stopping, Some(pid))
  {
    hide OnReaped, WillRestart;
    if spawn.Some? {
      pid := spawn.value;
    } else {
      pid := SomeFreshPid(s.pidToName.Keys);
      ReapIgnores(cfg, s, p, status, stopping, spawn, Some(pid));
    }
  }

  /** Every event of a regular run keeps the invariant. */
  lemma StepKeeps(cfg: Catalog, s: Loop, e: Event)
    requires Inv(cfg, s) && Regular(s, e)
    ensures Inv(cfg, Step(cfg, s, e))
  {
    hide Inv, OnReady, OnLaunch, OnReaped, Launched, NeedsSpawn;
    TrackedAreKnown(cfg, s);
    match e
    case ReadySignal(n) =>
      SignalKeeps(cfg, s, n);
    case LaunchNext(spawn) =>
      var pid := LaunchPid(cfg, s, spawn);
      LaunchNextKeeps(cfg, s, pid);
    case Reaped(pid, status, stopping, spawn) =>
      var newPid := ReapPid(cfg, s, pid, status, stopping, spawn);
      ReapedKeeps(cfg, s, pid, status, stopping, newPid);
    case StartCommand(n, spawn) =>
    case RestartCommand(n, reply, spawn) =>
      if n in s.states {
        DeferKeeps(cfg, s, n, reply, s.defs);
      }
    case ReloadCommand(n, reply, reread, spawn) =>
      if reread.Changed? {
        DeferKeeps(cfg, s, n, reply, s.defs[n := reread.def]);
      }
  }

  lemma InitHolds(cfg: Catalog, degree: map<Name, nat>)
    requires CountsUnmarked(cfg, degree, {})
    ensures Inv(cfg, Init(cfg, degree))
  {
    hide CountsUnmarked, Queue, Status, StartOrder, Blocking, Tracking, Reports, Restarts, Listing, Marked, Up, Begun, Summarise;
    var s, h := Init(cfg, degree), Summarise([]);
    EmptySummary();
    InitQueue(cfg, degree);
    InitStatus(cfg, degree);
    InitRest(cfg);
  }

  lemma EmptySummary()
    ensures var h := Summarise([]); h == Summary({}, {}, {}, {}, {}, {}) && Marked(h) == {} && Up(h) == {} && Begun(h) == {}
  {
    assert Summarise([]) == Summary({}, {}, {}, {}, {}, {});
  }

  lemma InitRest(cfg: Catalog)
    ensures Blocking(cfg, {}, {}, {}, {}) && StartOrder(cfg, []) && Restarts(cfg, {}, map[], cfg, map[], {})
    ensures Tracking(map[], {}) && Reports({}, Summary({}, {}, {}, {}, {}, {}))
  {
    assert NeedAny(cfg, {} + {}) == {};
  }

  lemma InitStatus(cfg: Catalog, degree: map<Name, nat>)
    ensures var s := Init(cfg, degree); Status(cfg, s.states, s.shared, s.pidToName, {}, {}, {}, {})
  {
    var s := Init(cfg, degree);
    forall n | n in cfg
      ensures StatusAt(s.states, s.shared, s.pidToName, {}, {}, {}, {}, n)
    {
    }
  }

  lemma InitQueue(cfg: Catalog, degree: map<Name, nat>)
    requires CountsUnmarked(cfg, degree, {})
    ensures Queue(cfg, Listing(Kahn.ZeroSet(degree)), {}, {}, {})
  {
    forall n | n in cfg
      ensures n in Kahn.ZeroSet(degree) <==> n in Eligible(cfg, {})
    {
      assert CountAt(cfg, degree[n], {}, n);
      EmptyDifference(DepsOn(cfg, n), {});
    }
    assert Kahn.ZeroSet(degree) == Eligible(cfg, {});
  }

  lemma {:induction false} RunKeeps(cfg: Catalog, degree: map<Name, nat>, events: seq<Event>)
    requires CountsUnmarked(cfg, degree, {}) && RegularRun(cfg, Init(cfg, degree), events)
    ensures Inv(cfg, Run(cfg, Init(cfg, degree), events))
    decreases |events|
  {
    hide Inv, Regular, Step, Init, CountsUnmarked;
    if events == [] {
      InitHolds(cfg, degree);
    } else {
      var init := events[..|events| - 1];
      RunKeeps(cfg, degree, init);
      StepKeeps(cfg, Run(cfg, Init(cfg, degree), init), events[|events| - 1]);
    }
  }

  // ------------------------------------------------------------------------------------------
  // Commands outside a regular run
  // ------------------------------------------------------------------------------------------

  /** A child tracked for a service that was not up contradicts the log: no launch accounts for it. */
  lemma SpawnByHandBreaks(cfg: Catalog, s: Loop, s': Loop, n: Name)
    requires Inv(cfg, s) && n !in s.pidToName.Values
    requires n in s'.pidToName.Values && s'.log == s.log
    ensures !Inv(cfg, s')
  {
    hide Queue, CountsUnmarked, Status, StartOrder, Blocking, Reports, Restarts, Summarise;
  }

  predicate IsCommand(e: Event) {
    e.StartCommand? || e.RestartCommand? || e.ReloadCommand?
  }

  ghost function SpawnOf(e: Event): Option<Pid>
    requires IsCommand(e)
  {
    e.spawn
  }

  /** A command whose spawn would succeed keeps the invariant exactly when it is a regular one. */
  lemma CommandKeepsIff(cfg: Catalog, s: Loop, e: Event)
    requires Inv(cfg, s) && Possible(s, e) && IsCommand(e) && SpawnOf(e).Some?
    ensures Inv(cfg, Step(cfg, s, e)) <==> Regular(s, e)
  {
    hide Inv;
    TrackedAreKnown(cfg, s);
    if Regular(s, e) {
      StepKeeps(cfg, s, e);
    } else {
      var s' := Step(cfg, s, e);
      assert s'.pidToName[e.spawn.value] == e.name;
      assert e.name in s'.pidToName.Values;
      SpawnByHandBreaks(cfg, s, s', e.name);
    }
  }

  /** One whose spawn would fail keeps it unless it is a Reload that finds a definition for an unknown service. */
  lemma FailedCommandKeepsIff(cfg: Catalog, s: Loop, e: Event)
    requires Inv(cfg, s) && IsCommand(e) && SpawnOf(e).None?
    ensures Inv(cfg, Step(cfg, s, e)) <==> (e.ReloadCommand? && e.reread.Changed? ==> e.name in cfg)
  {
    hide Inv;
    TrackedAreKnown(cfg, s);
    if Regular(s, e) {
      StepKeeps(cfg, s, e);
    } else if e.ReloadCommand? && e.reread.Changed? {
      RedefineKeepsIff(cfg, s, e.name, e.reread.def);
    }
  }

  lemma RedefineKeepsIff(cfg: Catalog, s: Loop, n: Name, def: ServiceDef)
    requires Inv(cfg, s)
    ensures Inv(cfg, s.(defs := s.defs[n := def])) <==> n in cfg
  {
    hide Queue, CountsUnmarked, Status, StartOrder, Blocking, Reports, Tracking, Summarise;
  }

  /** A readiness signal keeps the invariant exactly when its service was launched. */
  lemma SignalKeepsIff(cfg: Catalog, s: Loop, n: Name)
    requires Inv(cfg, s)
    ensures Inv(cfg, Step(cfg, s, ReadySignal(n))) <==> n in Launched(s.log)
  {
    hide Inv, Step, Launched;
    if n in Launched(s.log) {
      StepKeeps(cfg, s, ReadySignal(n));
    } else {
      EarlySignalBreaks(cfg, s, n);
    }
  }

  lemma EarlySignalBreaks(cfg: Catalog, s: Loop, n: Name)
    requires Inv(cfg, s) && n !in Launched(s.log)
    ensures !Inv(cfg, Step(cfg, s, ReadySignal(n)))
  {
    var s' := Step(cfg, s, ReadySignal(n));
    hide Queue, CountsUnmarked, Status, StartOrder, Blocking, Tracking, Restarts, Sync, Lowered, Newly, Summarise;
    LaunchedIsSummarised(s.log);
    SummaryGrows(s.log, Reported(n));
    assert n in s'.readyReported && n !in Summarise(s'.log).launched;
  }
}
