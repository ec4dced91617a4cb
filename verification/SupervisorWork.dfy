/** Status, bounded work, and what holds in every run, regular or not. */
module SupervisorWork {
  import opened Services
  import opened Ordering
  import opened Graph
  import opened Supervisor
  import opened SupervisorInvariant
  import opened SupervisorSteps
  import opened SupervisorTheorems

  // ------------------------------------------------------------------------------------------
  // Start order and status
  // ------------------------------------------------------------------------------------------

  /** Every launch is the first of its service and comes after its dependencies were dealt with. */
  lemma StartOrderSafety(cfg: Catalog, degree: map<Name, nat>, events: seq<Event>, i: nat)
    requires Booted(cfg, degree) && RegularRun(cfg, Init(cfg, degree), events)
    requires i < |Run(cfg, Init(cfg, degree), events).log| && Run(cfg, Init(cfg, degree), events).log[i].Started?
    ensures var log := Run(cfg, Init(cfg, degree), events).log; LaunchedInOrder(cfg, log[..i], log[i].name)
  {
    RunKeeps(cfg, degree, events);
    hide Run, LaunchedInOrder;
  }

  /** The pid a Stop request signals (src/ctl_server.rs). */
  function StopTarget(shared: map<Name, Info>, service: Name): Option<Pid> {
    if service in shared then shared[service].pid else None
  }

  /** The shared map shows exactly the states and the tracked children, so Stop signals a tracked child. */
  lemma StatusView(cfg: Catalog, degree: map<Name, nat>, events: seq<Event>, n: Name)
    requires Booted(cfg, degree) && RegularRun(cfg, Init(cfg, degree), events)
    ensures var s := Run(cfg, Init(cfg, degree), events);
            && (n in s.shared <==> n in cfg) && (n in s.states <==> n in cfg)
            && (n in cfg ==> s.shared[n].state == Tag(s.states[n]))
            && (forall p :: StopTarget(s.shared, n) == Some(p) <==> p in s.pidToName && s.pidToName[p] == n)
            && (forall p, q :: p in s.pidToName && q in s.pidToName && s.pidToName[p] == s.pidToName[q] ==> p == q)
  {
    var s := Run(cfg, Init(cfg, degree), events);
    RunKeeps(cfg, degree, events);
    hide Run, RegularRun, Booted;
    StatusOf(cfg, s, n);
    TrackedOnce(cfg, s);
  }

  lemma StatusOf(cfg: Catalog, s: Loop, n: Name)
    requires Inv(cfg, s)
    ensures (n in s.shared <==> n in cfg) && (n in s.states <==> n in cfg)
    ensures n in cfg ==> s.shared[n].state == Tag(s.states[n])
    ensures forall p :: StopTarget(s.shared, n) == Some(p) <==> p in s.pidToName && s.pidToName[p] == n
  {
    var h := Summarise(s.log);
    TrackedAreKnown(cfg, s);
    hide CountsUnmarked, Queue, StartOrder, Blocking, Restarts, Reports, Summarise, Tracking;
    if n in cfg {
      assert StatusAt(s.states, s.shared, s.pidToName, Up(h), Begun(h), h.succeeded, h.skipped, n);
    } else {
      forall p | p in s.pidToName
        ensures s.pidToName[p] != n
      {
        assert s.pidToName[p] in s.pidToName.Values;
      }
    }
  }

  lemma TrackedOnce(cfg: Catalog, s: Loop)
    requires Inv(cfg, s)
    ensures forall p, q :: p in s.pidToName && q in s.pidToName && s.pidToName[p] == s.pidToName[q] ==> p == q
  {
    hide CountsUnmarked, Queue, StartOrder, Blocking, Restarts, Reports, Summarise, Status;
  }

  // ------------------------------------------------------------------------------------------
  // Bounded work
  // ------------------------------------------------------------------------------------------

  ghost predicate IsAutomatic(a: Action) {
    a.Ended? || (a.Respawned? && !a.manual)
  }

  ghost predicate IsManual(a: Action) {
    a.Respawned? && a.manual
  }

  /** How many entries of the log satisfy p. */
  ghost function CountIf(log: seq<Action>, p: Action -> bool): nat {
    if log == [] then 0 else CountIf(log[..|log| - 1], p) + if p(log[|log| - 1]) then 1 else 0
  }

  lemma CountIfAppend(log: seq<Action>, a: Action, p: Action -> bool)
    ensures CountIf(log + [a], p) == CountIf(log, p) + if p(a) then 1 else 0
  {
    assert (log + [a])[..|log|] == log;
  }

  /** Attempts left: none once settled, otherwise the restarts to come and the final end. */
  ghost function AttemptsLeft(counts: map<Name, nat>, settled: set<Name>, n: Name): nat {
    if n in settled || CountOf(counts, n) > MAX_RESTARTS then 0 else MAX_RESTARTS + 1 - CountOf(counts, n)
  }

  ghost function TotalLeft(xs: seq<Name>, counts: map<Name, nat>, settled: set<Name>): nat {
    if xs == [] then 0
    else TotalLeft(xs[..|xs| - 1], counts, settled) + AttemptsLeft(counts, settled, xs[|xs| - 1])
  }

  lemma {:induction false} TotalAtMost(xs: seq<Name>, counts: map<Name, nat>, settled: set<Name>)
    ensures TotalLeft(xs, counts, settled) <= (MAX_RESTARTS + 1) * |xs|
  {
    if xs == [] {
    } else {
      TotalAtMost(xs[..|xs| - 1], counts, settled);
    }
  }

  lemma {:induction false} TotalShrinks(xs: seq<Name>, counts: map<Name, nat>, settled: set<Name>,
                                        counts': map<Name, nat>, settled': set<Name>)
    requires forall n :: AttemptsLeft(counts', settled', n) <= AttemptsLeft(counts, settled, n)
    ensures TotalLeft(xs, counts', settled') <= TotalLeft(xs, counts, settled)
  {
    if xs == [] {
    } else {
      TotalShrinks(xs[..|xs| - 1], counts, settled, counts', settled');
    }
  }

  lemma {:induction false} TotalDrops(xs: seq<Name>, counts: map<Name, nat>, settled: set<Name>,
                                      counts': map<Name, nat>, settled': set<Name>, n: Name)
    requires forall m :: AttemptsLeft(counts', settled', m) <= AttemptsLeft(counts, settled, m)
    requires AttemptsLeft(counts', settled', n) < AttemptsLeft(counts, settled, n) && n in xs
    ensures TotalLeft(xs, counts', settled') < TotalLeft(xs, counts, settled)
  {
    var init, last := xs[..|xs| - 1], xs[|xs| - 1];
    assert xs == init + [last];
    if n in init {
      TotalDrops(init, counts, settled, counts', settled', n);
    } else {
      TotalShrinks(init, counts, settled, counts', settled');
    }
  }

  ghost function Settled(h: Summary): set<Name> {
    h.over + h.skipped
  }

  ghost function Automatic(log: seq<Action>): nat {
    CountIf(log, a => IsAutomatic(a))
  }

  ghost function Manual(log: seq<Action>): nat {
    CountIf(log, a => IsManual(a))
  }

  lemma TallyAppend(log: seq<Action>, a: Action)
    ensures Automatic(log + [a]) == Automatic(log) + if IsAutomatic(a) then 1 else 0
    ensures Manual(log + [a]) == Manual(log) + if IsManual(a) then 1 else 0
  {
    CountIfAppend(log, a, x => IsAutomatic(x));
    CountIfAppend(log, a, x => IsManual(x));
  }

  /** Automatic reaps so far and attempts left never exceed MAX_RESTARTS + 1 per service. */
  ghost predicate WorkBounded(cfg: Catalog, counts: map<Name, nat>, log: seq<Action>) {
    Automatic(log) + Left(cfg, counts, log) <= (MAX_RESTARTS + 1) * |cfg|
  }

  /** Anything but an automatic reap leaves the work as it is. */
  lemma WorkQuiet(cfg: Catalog, counts: map<Name, nat>, log: seq<Action>, a: Action)
    requires WorkBounded(cfg, counts, log) && !IsAutomatic(a)
    ensures WorkBounded(cfg, counts, log + [a])
  {
    hide Automatic, Left;
    TallyAppend(log, a);
    LeftKeeps(cfg, counts, log, a);
  }

  lemma AttemptUsed(counts: map<Name, nat>, h: Summary, a: Action, c: nat, m: Name)
    requires IsAutomatic(a) && a.name !in Settled(h) && CountOf(counts, a.name) <= MAX_RESTARTS
    requires a.Respawned? ==> c == CountOf(counts, a.name) + 1
    requires a.Ended? ==> c == CountOf(counts, a.name)
    ensures var left := AttemptsLeft(counts[a.name := c], Settled(Note(h, a)), m);
            left <= AttemptsLeft(counts, Settled(h), m) && (m == a.name ==> left < AttemptsLeft(counts, Settled(h), m))
  {
  }

  /** The attempts left to all services. */
  ghost function Left(cfg: Catalog, counts: map<Name, nat>, log: seq<Action>): nat {
    TotalLeft(Listing(cfg.Keys), counts, Settled(Summarise(log)))
  }

  /** An automatic restart uses up one attempt; the end of a service uses up the last. */
  lemma LeftDrops(cfg: Catalog, counts: map<Name, nat>, log: seq<Action>, a: Action, c: nat)
    requires IsAutomatic(a) && a.name in cfg
    requires a.name !in Settled(Summarise(log)) && CountOf(counts, a.name) <= MAX_RESTARTS
    requires a.Respawned? ==> c == CountOf(counts, a.name) + 1
    requires a.Ended? ==> c == CountOf(counts, a.name)
    ensures Left(cfg, counts[a.name := c], log + [a]) < Left(cfg, counts, log)
  {
    hide Summarise, TotalLeft, AttemptsLeft, Settled, Note;
    SummaryGrows(log, a);
    var h := Summarise(log);
    assert a.name in Elems(Listing(cfg.Keys));
    forall m
      ensures AttemptsLeft(counts[a.name := c], Settled(Note(h, a)), m) <= AttemptsLeft(counts, Settled(h), m)
    {
      AttemptUsed(counts, h, a, c, m);
    }
    AttemptUsed(counts, h, a, c, a.name);
    TotalDrops(Listing(cfg.Keys), counts, Settled(h), counts[a.name := c], Settled(Note(h, a)), a.name);
  }

  /** Nothing gives attempts back. */
  lemma LeftKeeps(cfg: Catalog, counts: map<Name, nat>, log: seq<Action>, a: Action)
    ensures Left(cfg, counts, log + [a]) <= Left(cfg, counts, log)
  {
    hide Summarise, Listing, TotalLeft;
    SummaryGrows(log, a);
    var h := Summarise(log);
    TotalShrinks(Listing(cfg.Keys), counts, Settled(h), counts, Settled(Note(h, a)));
  }

  lemma WorkReaps(cfg: Catalog, counts: map<Name, nat>, log: seq<Action>, a: Action, c: nat)
    requires WorkBounded(cfg, counts, log) && IsAutomatic(a) && a.name in cfg
    requires a.name !in Settled(Summarise(log)) && CountOf(counts, a.name) <= MAX_RESTARTS
    requires a.Respawned? ==> c == CountOf(counts, a.name) + 1
    requires a.Ended? ==> c == CountOf(counts, a.name)
    ensures WorkBounded(cfg, counts[a.name := c], log + [a])
  {
    hide Automatic, Left, Settled, Summarise;
    TallyAppend(log, a);
    LeftDrops(cfg, counts, log, a, c);
  }

  lemma WorkInitially(cfg: Catalog, degree: map<Name, nat>)
    ensures var s := Init(cfg, degree); WorkBounded(cfg, s.restartCounts, s.log) && Tallied(0, 0, s)
  {
    NoDuplicatesCardinality(Listing(cfg.Keys));
    TotalAtMost(Listing(cfg.Keys), map[], Settled(Summarise([])));
  }

  /** What a reap writes to the log. */
  ghost function ReapAction(s: Loop, pid: Pid, status: WaitStatus, stopping: bool, newPid: Pid): Action
    requires pid in s.pidToName
  {
    var n, s0 := s.pidToName[pid], s.(pidToName := s.pidToName - {pid});
    if n in s.pendingRestart then Respawned(n, newPid, true)
    else if WillRestart(s.defs, s.restartCounts, n, status, stopping) then Respawned(n, newPid, false)
    else Ended(n, Unsuccessful(s0.defs, s0.restartCounts, n, status), n in s.readyReported)
  }

  lemma EndEffect(cfg: Catalog, s: Loop, n: Name, status: WaitStatus)
    ensures OnEnd(cfg, s, n, status).log
         == s.log + [Ended(n, Unsuccessful(s.defs, s.restartCounts, n, status), n in s.readyReported)]
    ensures OnEnd(cfg, s, n, status).pendingRestart == s.pendingRestart
    ensures OnEnd(cfg, s, n, status).restartCounts == s.restartCounts[n := CountOf(s.restartCounts, n)]
  {
    hide Unsuccessful, FinalState, Sync, Lowered, Newly, NeedsDependents, CountOf;
  }

  lemma ManualEffect(s: Loop, n: Name, pid: Pid)
    ensures OnManualRespawn(s, n, Some(pid)).log == s.log + [Respawned(n, pid, true)]
    ensures OnManualRespawn(s, n, Some(pid)).pendingRestart == s.pendingRestart - {n}
    ensures OnManualRespawn(s, n, Some(pid)).restartCounts == s.restartCounts
  {
    hide Sync;
  }

  lemma AutoEffect(s: Loop, n: Name, pid: Pid)
    ensures OnAutoRespawn(s, n, Some(pid)).log == s.log + [Respawned(n, pid, false)]
    ensures OnAutoRespawn(s, n, Some(pid)).pendingRestart == s.pendingRestart
    ensures OnAutoRespawn(s, n, Some(pid)).restartCounts == s.restartCounts[n := CountOf(s.restartCounts, n) + 1]
  {
    hide Sync, CountOf;
  }

  /** The log, the pending restarts and the restart counts after a reap. */
  lemma ReapEffect(cfg: Catalog, s: Loop, pid: Pid, status: WaitStatus, stopping: bool, newPid: Pid)
    requires pid in s.pidToName
    ensures OnReaped(cfg, s, pid, status, stopping, Some(newPid)).log
         == s.log + [ReapAction(s, pid, status, stopping, newPid)]
    ensures OnReaped(cfg, s, pid, status, stopping, Some(newPid)).pendingRestart == s.pendingRestart - {s.pidToName[pid]}
    ensures var a, c := ReapAction(s, pid, status, stopping, newPid), CountOf(s.restartCounts, s.pidToName[pid]);
            var counts := if IsManual(a) then s.restartCounts
                          else s.restartCounts[s.pidToName[pid] := if a.Respawned? then c + 1 else c];
            OnReaped(cfg, s, pid, status, stopping, Some(newPid)).restartCounts == counts
  {
    hide WillRestart, Unsuccessful, OnManualRespawn, OnAutoRespawn, OnEnd, CountOf;
    var n, s0 := s.pidToName[pid], s.(pidToName := s.pidToName - {pid});
    if n in s.pendingRestart {
      ManualEffect(s0, n, newPid);
    } else {
      assert s.pendingRestart - {n} == s.pendingRestart;
      if WillRestart(s.defs, s.restartCounts, n, status, stopping) {
        AutoEffect(s0, n, newPid);
      } else {
        EndEffect(cfg, s0, n, status);
      }
    }
  }

  lemma ReapKinds(s: Loop, pid: Pid, status: WaitStatus, stopping: bool, newPid: Pid)
    requires pid in s.pidToName
    ensures var a := ReapAction(s, pid, status, stopping, newPid);
            && a.name == s.pidToName[pid]
            && (IsManual(a) <==> a.name in s.pendingRestart) && (IsAutomatic(a) <==> !IsManual(a))
  {
    hide WillRestart, Unsuccessful;
  }

  lemma CountWithin(cfg: Catalog, s: Loop, n: Name)
    requires Inv(cfg, s)
    ensures CountOf(s.restartCounts, n) <= MAX_RESTARTS
  {
    hide CountsUnmarked, Queue, StartOrder, Blocking, Reports, Status, Summarise, Tracking;
  }

  lemma ReapWork(cfg: Catalog, s: Loop, pid: Pid, status: WaitStatus, stopping: bool, newPid: Pid)
    requires Inv(cfg, s) && pid in s.pidToName && WorkBounded(cfg, s.restartCounts, s.log)
    ensures var s' := OnReaped(cfg, s, pid, status, stopping, Some(newPid));
            WorkBounded(cfg, s'.restartCounts, s'.log)
  {
    hide Inv, Parts, WorkBounded, Summarise, OnReaped, ReapAction;
    var a := ReapAction(s, pid, status, stopping, newPid);
    ReapEffect(cfg, s, pid, status, stopping, newPid);
    ReapKinds(s, pid, status, stopping, newPid);
    if IsManual(a) {
      WorkQuiet(cfg, s.restartCounts, s.log, a);
    } else {
      UpIsUnsettled(cfg, s, pid);
      CountWithin(cfg, s, a.name);
      var c := CountOf(s.restartCounts, a.name);
      WorkReaps(cfg, s.restartCounts, s.log, a, if a.Respawned? then c + 1 else c);
    }
  }

  lemma UpIsUnsettled(cfg: Catalog, s: Loop, pid: Pid)
    requires Inv(cfg, s) && pid in s.pidToName
    ensures s.pidToName[pid] in cfg && s.pidToName[pid] !in Settled(Summarise(s.log))
  {
    hide Parts, Summarise;
    TrackedIsUp(cfg, s, Summarise(s.log), pid);
  }

  lemma SkipEffect(cfg: Catalog, s: Loop, n: Name)
    ensures OnSkip(cfg, s, n).log == s.log + [Skipped(n)]
    ensures OnSkip(cfg, s, n).pendingRestart == s.pendingRestart && OnSkip(cfg, s, n).restartCounts == s.restartCounts
  {
    hide Sync, Lowered, Newly, NeedsDependents;
  }

  lemma TrackEffect(s: Loop, n: Name, pid: Pid, entry: seq<Action>)
    ensures Track(s, n, pid, entry).log == s.log + entry
    ensures Track(s, n, pid, entry).pendingRestart == s.pendingRestart
    ensures Track(s, n, pid, entry).restartCounts == s.restartCounts
  {
    hide Sync;
  }

  /** A launch logs that a service was skipped or started, and touches no restart bookkeeping. */
  lemma LaunchEffect(cfg: Catalog, s: Loop, pid: Pid)
    requires s.toStart != []
    ensures OnLaunch(cfg, s, Some(pid)).log == s.log
         || OnLaunch(cfg, s, Some(pid)).log == s.log + [Skipped(s.toStart[|s.toStart| - 1])]
         || OnLaunch(cfg, s, Some(pid)).log == s.log + [Started(s.toStart[|s.toStart| - 1], pid)]
    ensures OnLaunch(cfg, s, Some(pid)).pendingRestart == s.pendingRestart
    ensures OnLaunch(cfg, s, Some(pid)).restartCounts == s.restartCounts
  {
    hide OnSkip, Track;
    var n, s0 := s.toStart[|s.toStart| - 1], s.(toStart := s.toStart[..|s.toStart| - 1]);
    SkipEffect(cfg, s0, n);
    TrackEffect(s0, n, pid, [Started(n, pid)]);
  }

  lemma NothingToLaunch(cfg: Catalog, s: Loop, spawn: Option<Pid>)
    requires s.toStart == []
    ensures OnLaunch(cfg, s, spawn) == s
  {
  }

  lemma LaunchWork(cfg: Catalog, s: Loop, pid: Pid)
    requires WorkBounded(cfg, s.restartCounts, s.log)
    ensures WorkBounded(cfg, OnLaunch(cfg, s, Some(pid)).restartCounts, OnLaunch(cfg, s, Some(pid)).log)
  {
    hide WorkBounded, OnLaunch;
    if s.toStart == [] {
      NothingToLaunch(cfg, s, Some(pid));
    } else {
      var n := s.toStart[|s.toStart| - 1];
      LaunchEffect(cfg, s, pid);
      WorkQuiet(cfg, s.restartCounts, s.log, Skipped(n));
      WorkQuiet(cfg, s.restartCounts, s.log, Started(n, pid));
    }
  }

  lemma StepWork(cfg: Catalog, s: Loop, e: Event)
    requires Inv(cfg, s) && Regular(s, e) && WorkBounded(cfg, s.restartCounts, s.log)
    ensures WorkBounded(cfg, Step(cfg, s, e).restartCounts, Step(cfg, s, e).log)
  {
    hide Inv, WorkBounded, OnLaunch, OnReaped, Launched, Sync, Lowered, Newly;
    TrackedAreKnown(cfg, s);
    match e
    case ReadySignal(n) =>
      WorkQuiet(cfg, s.restartCounts, s.log, Reported(n));
    case LaunchNext(spawn) =>
      var pid := LaunchPid(cfg, s, spawn);
      LaunchWork(cfg, s, pid);
    case Reaped(pid, status, stopping, spawn) =>
      var newPid := ReapPid(cfg, s, pid, status, stopping, spawn);
      ReapWork(cfg, s, pid, status, stopping, newPid);
    case StartCommand(n, spawn) =>
    case RestartCommand(n, reply, spawn) =>
    case ReloadCommand(n, reply, reread, spawn) =>
  }

  // ------------------------------------------------------------------------------------------
  // Counting events
  // ------------------------------------------------------------------------------------------

  ghost function Reaps(events: seq<Event>): nat {
    if events == [] then 0
    else Reaps(events[..|events| - 1]) + if events[|events| - 1].Reaped? then 1 else 0
  }

  /** Restart and Reload commands. */
  ghost function RestartRequests(events: seq<Event>): nat {
    if events == [] then 0
    else
      var e := events[|events| - 1];
      RestartRequests(events[..|events| - 1]) + if e.RestartCommand? || e.ReloadCommand? then 1 else 0
  }

  /** Every reap is logged once, and every manual respawn was asked for. */
  ghost predicate Tallied(reaps: nat, requests: nat, s: Loop) {
    reaps == Automatic(s.log) + Manual(s.log) && Manual(s.log) + |s.pendingRestart| <= requests
  }

  lemma ReapTally(cfg: Catalog, s: Loop, pid: Pid, status: WaitStatus, stopping: bool, newPid: Pid, reaps: nat, requests: nat)
    requires pid in s.pidToName && Tallied(reaps, requests, s)
    ensures Tallied(reaps + 1, requests, OnReaped(cfg, s, pid, status, stopping, Some(newPid)))
  {
    hide Automatic, Manual, OnReaped, ReapAction;
    var n, a := s.pidToName[pid], ReapAction(s, pid, status, stopping, newPid);
    ReapEffect(cfg, s, pid, status, stopping, newPid);
    ReapKinds(s, pid, status, stopping, newPid);
    TallyAppend(s.log, a);
    if n in s.pendingRestart {
      assert |s.pendingRestart - {n}| == |s.pendingRestart| - 1;
    }
  }

  lemma LaunchTally(cfg: Catalog, s: Loop, pid: Pid, reaps: nat, requests: nat)
    requires Tallied(reaps, requests, s)
    ensures Tallied(reaps, requests, OnLaunch(cfg, s, Some(pid)))
  {
    hide Automatic, Manual, OnLaunch;
    if s.toStart == [] {
      NothingToLaunch(cfg, s, Some(pid));
    } else {
      var n := s.toStart[|s.toStart| - 1];
      LaunchEffect(cfg, s, pid);
      TallyAppend(s.log, Skipped(n));
      TallyAppend(s.log, Started(n, pid));
    }
  }

  lemma ReadyTally(cfg: Catalog, s: Loop, n: Name, reaps: nat, requests: nat)
    requires Tallied(reaps, requests, s)
    ensures Tallied(reaps, requests, OnReady(cfg, s, n))
  {
    hide Automatic, Manual, Sync, Lowered, Newly;
    TallyAppend(s.log, Reported(n));
  }

  lemma DeferTally(s: Loop, n: Name, reply: ReplyId, defs: Catalog, reaps: nat, requests: nat)
    requires Tallied(reaps, requests, s)
    ensures Tallied(reaps, requests + 1, s) && Tallied(reaps, requests + 1, Defer(s.(defs := defs), n, reply))
  {
    hide Automatic, Manual;
    PendingGrows(s.pendingRestart, n);
  }

  lemma StepTally(cfg: Catalog, s: Loop, e: Event, reaps: nat, requests: nat)
    requires Inv(cfg, s) && Regular(s, e) && Tallied(reaps, requests, s)
    ensures Tallied(reaps + if e.Reaped? then 1 else 0,
                    requests + if e.RestartCommand? || e.ReloadCommand? then 1 else 0, Step(cfg, s, e))
  {
    hide Inv, Tallied, OnReady, OnLaunch, OnReaped, Launched, Defer;
    TrackedAreKnown(cfg, s);
    match e
    case ReadySignal(n) =>
      ReadyTally(cfg, s, n, reaps, requests);
    case LaunchNext(spawn) =>
      var pid := LaunchPid(cfg, s, spawn);
      LaunchTally(cfg, s, pid, reaps, requests);
    case Reaped(pid, status, stopping, spawn) =>
      var newPid := ReapPid(cfg, s, pid, status, stopping, spawn);
      ReapTally(cfg, s, pid, status, stopping, newPid, reaps, requests);
    case StartCommand(n, spawn) =>
    case RestartCommand(n, reply, spawn) =>
      DeferTally(s, n, reply, s.defs, reaps, requests);
    case ReloadCommand(n, reply, reread, spawn) =>
      DeferTally(s, n, reply, if reread.Changed? then s.defs[n := reread.def] else s.defs, reaps, requests);
  }

  lemma PendingGrows(pending: set<Name>, n: Name)
    ensures |pending| <= |pending + {n}| <= |pending| + 1
  {
    if n in pending {
      assert pending + {n} == pending;
    }
  }

  lemma {:induction false} RunWork(cfg: Catalog, degree: map<Name, nat>, events: seq<Event>)
    requires Booted(cfg, degree) && RegularRun(cfg, Init(cfg, degree), events)
    ensures var s := Run(cfg, Init(cfg, degree), events);
            WorkBounded(cfg, s.restartCounts, s.log) && Tallied(Reaps(events), RestartRequests(events), s)
    decreases |events|
  {
    hide Inv, WorkBounded, Tallied, Regular, Step, Init, Booted;
    if events == [] {
      WorkInitially(cfg, degree);
    } else {
      var init, e := events[..|events| - 1], events[|events| - 1];
      var s := Run(cfg, Init(cfg, degree), init);
      RunWork(cfg, degree, init);
      assert Inv(cfg, s) by { BootedRun(cfg, degree, init); }
      StepWork(cfg, s, e);
      StepTally(cfg, s, e, Reaps(init), RestartRequests(init));
    }
  }

  lemma BootedRun(cfg: Catalog, degree: map<Name, nat>, events: seq<Event>)
    requires Booted(cfg, degree) && RegularRun(cfg, Init(cfg, degree), events)
    ensures Inv(cfg, Run(cfg, Init(cfg, degree), events))
  {
    RunKeeps(cfg, degree, events);
  }

  /** A regular run reaps at most MAX_RESTARTS + 1 children per service, and one more per restart request. */
  lemma BoundedWork(cfg: Catalog, degree: map<Name, nat>, events: seq<Event>)
    requires Booted(cfg, degree) && RegularRun(cfg, Init(cfg, degree), events)
    ensures Reaps(events) <= (MAX_RESTARTS + 1) * |cfg| + RestartRequests(events)
  {
    RunWork(cfg, degree, events);
  }
}
