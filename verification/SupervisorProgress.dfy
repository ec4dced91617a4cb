/** Left alone, the supervisor gets to a clean end: launches and reaps cannot go on for ever. */
module SupervisorProgress {
  import opened Services
  import opened Dependency
  import opened Graph
  import opened Build
  import opened Supervisor
  import opened SupervisorInvariant
  import opened SupervisorSteps
  import opened SupervisorTheorems
  import opened SupervisorWork
  import opened SupervisorAnyRun
  import opened Execution

  /**
   Lexicographically: the attempts left to all services, the restarts asked for, the services with
   unmarked dependencies, the launch queue.
   */
  ghost predicate Closer(cfg: Catalog, s': Loop, s: Loop) {
    var a', a := Left(cfg, s'.restartCounts, s'.log), Left(cfg, s.restartCounts, s.log);
    var b', b := |s'.pendingRestart|, |s.pendingRestart|;
    var c', c := |PositiveSet(s'.inDegree)|, |PositiveSet(s.inDegree)|;
    a' < a || (a' == a && (b' < b || (b' == b && (c' < c || (c' == c && |s'.toStart| < |s.toStart|)))))
  }

  /** The events that take the boot forward by themselves. */
  ghost predicate Advances(s: Loop, e: Event) {
    e.Reaped? || (e.LaunchNext? && s.toStart != [])
  }

  lemma LaunchAdvances(cfg: Catalog, s: Loop, pid: Pid)
    requires s.toStart != []
    ensures Closer(cfg, OnLaunch(cfg, s, Some(pid)), s)
  {
    hide Left, PositiveSet, OnLaunch;
    var n := s.toStart[|s.toStart| - 1];
    LaunchProgresses(cfg, s, Some(pid));
    LaunchEffect(cfg, s, pid);
    LeftKeeps(cfg, s.restartCounts, s.log, Skipped(n));
    LeftKeeps(cfg, s.restartCounts, s.log, Started(n, pid));
  }

  lemma ReapAdvances(cfg: Catalog, s: Loop, pid: Pid, status: WaitStatus, stopping: bool, newPid: Pid)
    requires Inv(cfg, s) && pid in s.pidToName
    ensures Closer(cfg, OnReaped(cfg, s, pid, status, stopping, Some(newPid)), s)
  {
    hide Inv, Left, PositiveSet, OnReaped, ReapAction, Summarise, Settled;
    var n, a := s.pidToName[pid], ReapAction(s, pid, status, stopping, newPid);
    ReapEffect(cfg, s, pid, status, stopping, newPid);
    ReapKinds(s, pid, status, stopping, newPid);
    if IsManual(a) {
      LeftKeeps(cfg, s.restartCounts, s.log, a);
      assert |s.pendingRestart - {n}| == |s.pendingRestart| - 1;
    } else {
      UpIsUnsettled(cfg, s, pid);
      CountWithin(cfg, s, n);
      var c := CountOf(s.restartCounts, n);
      LeftDrops(cfg, s.restartCounts, s.log, a, if a.Respawned? then c + 1 else c);
    }
  }

  /** Every launch and every reap of a regular run, however the child ends, gets closer to the end. */
  lemma Progresses(cfg: Catalog, s: Loop, e: Event)
    requires Inv(cfg, s) && Regular(s, e) && Advances(s, e)
    ensures Closer(cfg, Step(cfg, s, e), s)
  {
    hide Inv, OnLaunch, OnReaped, Closer, Launched;
    assert !s.aborted by { TrackedAreKnown(cfg, s); }
    if e.Reaped? {
      var pid := ReapPid(cfg, s, e.pid, e.status, e.stopping, e.spawn);
      ReapAdvances(cfg, s, e.pid, e.status, e.stopping, pid);
    } else {
      var pid := LaunchPid(cfg, s, e.spawn);
      LaunchAdvances(cfg, s, pid);
    }
  }

  /** While the boot is not complete, a launch or a reap is possible. */
  lemma SomeAdvance(cfg: Catalog, s: Loop) returns (e: Event)
    requires s.toStart != [] || s.pidToName != map[]
    ensures Regular(s, e) && Advances(s, e)
  {
    if s.toStart != [] {
      var pid := SomeFreshPid(s.pidToName.Keys);
      e := LaunchNext(Some(pid));
    } else {
      var pid :| pid in s.pidToName;
      e := Reaped(pid, ExitedWith(0), false, Some(pid));
    }
  }

  ghost predicate OnlyAdvances(events: seq<Event>) {
    forall e :: e in events ==> e.LaunchNext? || e.Reaped?
  }

  lemma {:induction false} CleanEndFrom(cfg: Catalog, s: Loop) returns (more: seq<Event>)
    requires Acyclic(Deps(cfg)) && Inv(cfg, s)
    ensures RegularRun(cfg, s, more) && OnlyAdvances(more)
    ensures var s' := Run(cfg, s, more); s'.completed == |cfg| && s'.toStart == [] && s'.pidToName == map[]
    decreases Left(cfg, s.restartCounts, s.log), |s.pendingRestart|, |PositiveSet(s.inDegree)|, |s.toStart|
  {
    hide Inv, Regular, Step, Left, PositiveSet, Acyclic;
    if s.toStart == [] && s.pidToName == map[] {
      more := [];
      QuietMeansComplete(cfg, s);
    } else {
      var e := SomeAdvance(cfg, s);
      var s' := Step(cfg, s, e);
      StepKeeps(cfg, s, e);
      Progresses(cfg, s, e);
      var rest := CleanEndFrom(cfg, s');
      more := [e] + rest;
      assert [] + [e] == [e];
      RunAppends(cfg, s, [], e);
      RunConcat(cfg, s, [e], rest);
    }
  }

  // ------------------------------------------------------------------------------------------
  // How many launches and reaps there can be
  // ------------------------------------------------------------------------------------------

  /** Launches with something to launch, and reaps. */
  ghost function Advanced(cfg: Catalog, s: Loop, events: seq<Event>): nat {
    if events == [] then 0
    else
      var init, e := events[..|events| - 1], events[|events| - 1];
      Advanced(cfg, s, init) + if Advances(Run(cfg, s, init), e) then 1 else 0
  }

  ghost function HasBegun(s: Loop): set<Name> {
    Begun(Summarise(s.log))
  }

  lemma BeginsNone(log: seq<Action>, a: Action)
    requires !a.Started? && !a.Skipped?
    ensures Begun(Summarise(log + [a])) == Begun(Summarise(log))
  {
    hide Summarise;
    SummaryGrows(log, a);
  }

  lemma BeginsOne(log: seq<Action>, a: Action)
    requires a.Started? || a.Skipped?
    ensures Begun(Summarise(log + [a])) == Begun(Summarise(log)) + {a.name}
  {
    hide Summarise;
    SummaryGrows(log, a);
  }

  lemma LaunchBegins(cfg: Catalog, s: Loop, pid: Pid)
    requires Inv(cfg, s) && s.toStart != []
    ensures |HasBegun(OnLaunch(cfg, s, Some(pid)))| == |HasBegun(s)| + 1
  {
    hide Parts, Summarise, OnLaunch, Begun;
    var n := s.toStart[|s.toStart| - 1];
    NextIsFresh(cfg, s, Summarise(s.log));
    LaunchLogs(cfg, s, pid);
    BeginsOne(s.log, Skipped(n));
    BeginsOne(s.log, Started(n, pid));
  }

  lemma LaunchLogs(cfg: Catalog, s: Loop, pid: Pid)
    requires s.toStart != [] && s.toStart[|s.toStart| - 1] in s.defs
    ensures var n := s.toStart[|s.toStart| - 1];
            OnLaunch(cfg, s, Some(pid)).log == s.log + [Skipped(n)] || OnLaunch(cfg, s, Some(pid)).log == s.log + [Started(n, pid)]
  {
    hide OnSkip, Track;
    var n, s0 := s.toStart[|s.toStart| - 1], s.(toStart := s.toStart[..|s.toStart| - 1]);
    SkipEffect(cfg, s0, n);
    TrackEffect(s0, n, pid, [Started(n, pid)]);
  }

  lemma ReapBegins(cfg: Catalog, s: Loop, pid: Pid, status: WaitStatus, stopping: bool, newPid: Pid)
    requires pid in s.pidToName
    ensures HasBegun(OnReaped(cfg, s, pid, status, stopping, Some(newPid))) == HasBegun(s)
  {
    hide OnReaped, Summarise, Begun, ReapAction;
    ReapEffect(cfg, s, pid, status, stopping, newPid);
    ReapKinds(s, pid, status, stopping, newPid);
    BeginsNone(s.log, ReapAction(s, pid, status, stopping, newPid));
  }

  lemma ReadyBegins(cfg: Catalog, s: Loop, n: Name)
    ensures HasBegun(OnReady(cfg, s, n)) == HasBegun(s)
  {
    hide Summarise, Begun, Sync, Lowered, Newly;
    BeginsNone(s.log, Reported(n));
  }

  lemma CommandBegins(cfg: Catalog, s: Loop, e: Event)
    requires IsCommand(e)
    ensures Step(cfg, s, e).log == s.log
  {
    hide SpawnByHand;
    SpawnLogsNothing(s, e.name, e.spawn);
    if e.ReloadCommand? && e.reread.Changed? {
      SpawnLogsNothing(s.(defs := s.defs[e.name := e.reread.def]), e.name, e.spawn);
    }
  }

  lemma SpawnLogsNothing(s: Loop, n: Name, spawn: Option<Pid>)
    ensures SpawnByHand(s, n, spawn).log == s.log
  {
    hide Sync;
  }

  lemma StepBegins(cfg: Catalog, s: Loop, e: Event)
    requires Inv(cfg, s) && Regular(s, e)
    ensures |HasBegun(Step(cfg, s, e))| == |HasBegun(s)| + if e.LaunchNext? && s.toStart != [] then 1 else 0
  {
    hide Inv, OnReady, OnLaunch, OnReaped, HasBegun, Launched;
    assert !s.aborted by { TrackedAreKnown(cfg, s); }
    if IsCommand(e) {
      CommandBegins(cfg, s, e);
      SameLog(s, Step(cfg, s, e));
    } else {
      match e
      case ReadySignal(n) => ReadyBegins(cfg, s, n);
      case LaunchNext(spawn) =>
        if s.toStart == [] {
          NothingToLaunch(cfg, s, spawn);
        } else {
          var pid := LaunchPid(cfg, s, spawn);
          LaunchBegins(cfg, s, pid);
        }
      case Reaped(pid, status, stopping, spawn) =>
        var newPid := ReapPid(cfg, s, pid, status, stopping, spawn);
        ReapBegins(cfg, s, pid, status, stopping, newPid);
    }
  }

  lemma SameLog(a: Loop, b: Loop)
    requires a.log == b.log
    ensures HasBegun(a) == HasBegun(b)
  {
  }

  /** Every advance is a reap or begins a service. */
  lemma {:induction false} AdvancesCounted(cfg: Catalog, degree: map<Name, nat>, events: seq<Event>)
    requires Booted(cfg, degree) && RegularRun(cfg, Init(cfg, degree), events)
    ensures Advanced(cfg, Init(cfg, degree), events) == Reaps(events) + |HasBegun(Run(cfg, Init(cfg, degree), events))|
    decreases |events|
  {
    hide Inv, Step, Regular, HasBegun, Booted, Init;
    var s0 := Init(cfg, degree);
    if events == [] {
      NoneBegun(cfg, degree);
    } else {
      var init := events[..|events| - 1];
      AdvancesCounted(cfg, degree, init);
      assert Inv(cfg, Run(cfg, s0, init)) by { BootedRun(cfg, degree, init); }
      StepBegins(cfg, Run(cfg, s0, init), events[|events| - 1]);
    }
  }

  lemma NoneBegun(cfg: Catalog, degree: map<Name, nat>)
    ensures |HasBegun(Init(cfg, degree))| == 0
  {
    EmptySummary();
  }

  lemma BegunWithin(cfg: Catalog, s: Loop)
    requires Inv(cfg, s)
    ensures |HasBegun(s)| <= |cfg|
  {
    hide Inv, Summarise, Eligible, Marked;
    SummaryFacts(cfg, s, Summarise(s.log));
    SubsetCardinality(HasBegun(s), cfg.Keys);
  }

  /**
   In every regular run, whatever the order of events and however the children end, there are at most
   MAX_RESTARTS + 2 launches and reaps per service, and one more per restart request.
   */
  lemma AdvancesBounded(cfg: Catalog, degree: map<Name, nat>, events: seq<Event>)
    requires Booted(cfg, degree) && RegularRun(cfg, Init(cfg, degree), events)
    ensures Advanced(cfg, Init(cfg, degree), events) <= (MAX_RESTARTS + 2) * |cfg| + RestartRequests(events)
  {
    hide Inv, Booted, Run, RegularRun, Init, Advanced, HasBegun, Reaps, RestartRequests;
    AdvancesCounted(cfg, degree, events);
    BoundedWork(cfg, degree, events);
    BootedRun(cfg, degree, events);
    BegunWithin(cfg, Run(cfg, Init(cfg, degree), events));
  }

  /**
   Every regular run of a booted graph can be continued to a clean end by launches and reaps alone.
   By `AdvancesBounded`, no choice of how the children end can put it off for ever.
   */
  lemma CleanEndReachable(cfg: Catalog, degree: map<Name, nat>, events: seq<Event>) returns (more: seq<Event>)
    requires Booted(cfg, degree) && RegularRun(cfg, Init(cfg, degree), events)
    ensures RegularRun(cfg, Init(cfg, degree), events + more) && OnlyAdvances(more)
    ensures var s := Run(cfg, Init(cfg, degree), events + more);
            s.completed == |cfg| && s.toStart == [] && s.pidToName == map[]
  {
    var s0 := Init(cfg, degree);
    RunKeeps(cfg, degree, events);
    hide Inv, Run, RegularRun, Init, OnlyAdvances, Acyclic, CountsUnmarked;
    more := CleanEndFrom(cfg, Run(cfg, s0, events));
    RunConcat(cfg, s0, events, more);
  }
}
