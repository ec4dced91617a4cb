/** What regular runs guarantee. */
module SupervisorTheorems {
  import opened Services
  import opened Dependency
  import opened Graph
  import opened Build
  import opened Supervisor
  import opened SupervisorInvariant
  import opened SupervisorSteps

  /** A catalog and degrees that come from one successful build. */
  ghost predicate Booted(cfg: Catalog, degree: map<Name, nat>) {
    Acyclic(Deps(cfg)) && CountsUnmarked(cfg, degree, {})
  }

  // ------------------------------------------------------------------------------------------
  // No stall
  // ------------------------------------------------------------------------------------------

  lemma SummaryFacts(cfg: Catalog, s: Loop, h: Summary)
    requires Inv(cfg, s) && h == Summarise(s.log)
    ensures h.launched !! h.skipped && h.launched + h.skipped <= cfg.Keys
    ensures h.over <= h.launched && h.signalled <= h.launched
    ensures Elems(s.toStart) + h.launched + h.skipped == Eligible(cfg, Marked(h))
    ensures s.pidToName.Values == h.launched - h.over
    ensures s.completed == |h.over| + |h.skipped|
    ensures s.completed == |h.over + h.skipped| <= |cfg|
  {
    hide CountsUnmarked, Status, StartOrder, Blocking, Restarts, Summarise;
    assert h.launched + h.skipped <= Eligible(cfg, Marked(h)) <= cfg.Keys;
    CountsDisjoint(h.over, h.skipped, cfg.Keys);
  }

  lemma CountsDisjoint(a: set<Name>, b: set<Name>, all: set<Name>)
    requires a !! b && a + b <= all
    ensures |a| + |b| == |a + b| <= |all|
    ensures |a + b| == |all| ==> a + b == all
  {
    SubsetCardinality(a + b, all);
  }

  /** In an acyclic graph, while a service is unmarked, some unmarked service is eligible. */
  lemma SomeEligible(cfg: Catalog, marked: set<Name>) returns (n: Name)
    requires Acyclic(Deps(cfg)) && !(cfg.Keys <= marked)
    ensures n in Eligible(cfg, marked) && n !in marked
  {
    var rest := cfg.Keys - marked;
    var x :| x in cfg && x !in marked;
    assert x in rest;
    n := AcyclicEscapes(Deps(cfg), rest);
    assert DepsOn(cfg, n) == Deps(cfg)[n];
    assert forall d :: d in DepsOn(cfg, n) ==> d in cfg.Keys && d !in rest;
  }

  /** Nothing tracked and nothing queued: then everything is accounted for. */
  lemma QuietMeansSettled(cfg: Catalog, h: Summary)
    requires Acyclic(Deps(cfg))
    requires h.over <= h.launched <= h.over && h.signalled <= h.launched
    requires h.launched + h.skipped == Eligible(cfg, Marked(h))
    ensures h.over + h.skipped == cfg.Keys
  {
    assert Marked(h) == h.over + h.skipped;
    if !(cfg.Keys <= Marked(h)) {
      var n := SomeEligible(cfg, Marked(h));
    }
  }

  lemma NoValues(pids: map<Pid, Name>)
    ensures pids == map[] <==> pids.Values == {}
  {
    if pids != map[] {
      var p :| p in pids;
      assert pids[p] in pids.Values;
    }
  }

  lemma QuietQueue(toStart: seq<Name>, launched: set<Name>, skipped: set<Name>)
    requires toStart == []
    ensures Elems(toStart) + launched + skipped == launched + skipped
  {
    assert Elems(toStart) == {};
  }

  lemma QuietMeansComplete(cfg: Catalog, s: Loop)
    requires Acyclic(Deps(cfg)) && Inv(cfg, s) && s.toStart == [] && s.pidToName == map[]
    ensures s.completed == |cfg|
  {
    hide Inv, Acyclic, Summarise, Eligible;
    var h := Summarise(s.log);
    SummaryFacts(cfg, s, h);
    NoValues(s.pidToName);
    QuietQueue(s.toStart, h.launched, h.skipped);
    QuietMeansSettled(cfg, h);
  }

  /** Every service has been accounted for once `completed` reaches the total. */
  lemma CompleteMeansSettled(cfg: Catalog, s: Loop)
    requires Inv(cfg, s) && s.completed >= |cfg|
    ensures var h := Summarise(s.log); h.over + h.skipped == cfg.Keys && h.over == h.launched
    ensures s.completed == |cfg| && s.pidToName == map[]
  {
    hide Inv, Summarise, Eligible, Marked;
    var h := Summarise(s.log);
    SummaryFacts(cfg, s, h);
    AllCounted(h.over, h.skipped, h.launched, cfg.Keys);
    NoValues(s.pidToName);
  }

  lemma AllCounted(over: set<Name>, skipped: set<Name>, launched: set<Name>, all: set<Name>)
    requires over <= launched && launched !! skipped && launched + skipped <= all && |over + skipped| >= |all|
    ensures over + skipped == all && over == launched && |over + skipped| == |all| && launched - over == {}
  {
    CountsDisjoint(over, skipped, all);
  }

  /**
   The two exit tests of the loop agree: with the launch queue drained, no child is tracked exactly
   when every service is counted, and the count never passes the total.
   */
  lemma NoStall(cfg: Catalog, degree: map<Name, nat>, events: seq<Event>)
    requires Booted(cfg, degree) && RegularRun(cfg, Init(cfg, degree), events)
    ensures var s := Run(cfg, Init(cfg, degree), events);
            && s.completed <= |cfg|
            && (s.completed == |cfg| ==> s.pidToName == map[])
            && (s.toStart == [] && s.pidToName == map[] ==> s.completed == |cfg|)
  {
    var s := Run(cfg, Init(cfg, degree), events);
    RunKeeps(cfg, degree, events);
    hide Inv, Run, RegularRun, Acyclic, CountsUnmarked;
    SummaryFacts(cfg, s, Summarise(s.log));
    if s.completed == |cfg| {
      CompleteMeansSettled(cfg, s);
    } else if s.toStart == [] && s.pidToName == map[] {
      QuietMeansComplete(cfg, s);
    }
  }

  /**
   A clean end leaves every service Exited or Failed, in the loop and in the shared map: Exited with
   code 0 exactly when it ended well, and Failed when it was never launched.
   */
  lemma CleanEnd(cfg: Catalog, degree: map<Name, nat>, events: seq<Event>, n: Name)
    requires Booted(cfg, degree) && RegularRun(cfg, Init(cfg, degree), events) && n in cfg
    requires Run(cfg, Init(cfg, degree), events).completed == |cfg|
    ensures var s := Run(cfg, Init(cfg, degree), events);
            && n in s.states && (s.states[n].Exited? || s.states[n].Failed?)
            && n in s.shared && s.shared[n].pid == None && s.shared[n].state == Tag(s.states[n])
            && (s.states[n] == Exited(0) <==> n in Summarise(s.log).succeeded)
            && (n !in Launched(s.log) ==> s.states[n].Failed?)
  {
    var s := Run(cfg, Init(cfg, degree), events);
    RunKeeps(cfg, degree, events);
    SettledStatus(cfg, s, n);
  }

  lemma SettledStatus(cfg: Catalog, s: Loop, n: Name)
    requires Inv(cfg, s) && s.completed == |cfg| && n in cfg
    ensures n in s.states && (s.states[n].Exited? || s.states[n].Failed?)
    ensures n in s.shared && s.shared[n].pid == None && s.shared[n].state == Tag(s.states[n])
    ensures s.states[n] == Exited(0) <==> n in Summarise(s.log).succeeded
    ensures n !in Launched(s.log) ==> s.states[n].Failed?
  {
    LaunchedIsSummarised(s.log);
    hide Summarise, CountsUnmarked, Queue, StartOrder, Blocking, Restarts, Reports, Tracking;
    var h := Summarise(s.log);
    CompleteMeansSettled(cfg, s);
    assert StatusAt(s.states, s.shared, s.pidToName, Up(h), Begun(h), h.succeeded, h.skipped, n);
    assert n in Begun(h) && n !in Up(h);
    match s.shared[n].pid
    case None =>
    case Some(p) =>
  }

  // ------------------------------------------------------------------------------------------
  // Failure propagation
  // ------------------------------------------------------------------------------------------

  /** The known `needs` relation. */
  ghost function Needs(cfg: Catalog): Relation {
    map n | n in cfg :: NeedsOf(cfg[n]) * cfg.Keys
  }

  lemma NeedsAcyclic(cfg: Catalog)
    requires Acyclic(Deps(cfg))
    ensures Acyclic(Needs(cfg))
  {
    forall c | OnCycle(Needs(cfg), c)
      ensures OnCycle(Deps(cfg), c)
    {
      var p :| ChainBetween(Needs(cfg), p, c, c) && |p| >= 2;
      assert ChainBetween(Deps(cfg), p, c, c);
    }
  }

  ghost predicate BlamedOn(cfg: Catalog, culprits: set<Name>, n: Name) {
    exists c :: c in culprits && ReachesStrictly(Needs(cfg), n, c)
  }

  /** A skipped service outside `stray` dependencies can be blamed, if every other skipped one can. */
  lemma BlameSpreads(cfg: Catalog, culprits: set<Name>, skipped: set<Name>, stray: set<Name>, m: Name)
    requires culprits <= cfg.Keys && skipped <= cfg.Keys && skipped <= NeedAny(cfg, culprits + skipped)
    requires m in skipped && Needs(cfg)[m] !! stray
    requires forall d :: d in skipped && d !in stray ==> BlamedOn(cfg, culprits, d)
    ensures BlamedOn(cfg, culprits, m)
  {
    var rel := Needs(cfg);
    var d :| d in culprits + skipped && m in NeedsDependents(cfg, d);
    assert d in rel[m];
    if d in culprits {
      SelfReaches(rel, d);
      ReachesStep(rel, m, d, d);
    } else {
      var c :| c in culprits && ReachesStrictly(rel, d, c);
      ReachesStep(rel, m, d, c);
    }
  }

  /** A skipped service reaches a culprit through `needs`: going down, the blame must stop somewhere. */
  lemma SkippedReaches(cfg: Catalog, culprits: set<Name>, skipped: set<Name>, n: Name)
    requires Acyclic(Needs(cfg)) && culprits <= cfg.Keys && skipped <= cfg.Keys
    requires skipped <= NeedAny(cfg, culprits + skipped) && n in skipped
    ensures BlamedOn(cfg, culprits, n)
  {
    hide BlamedOn;
    var stray := set m | m in skipped && !BlamedOn(cfg, culprits, m);
    if n in stray {
      var m := AcyclicEscapes(Needs(cfg), stray);
      BlameSpreads(cfg, culprits, skipped, stray, m);
    }
  }

  lemma SelfReaches(rel: Relation, d: Name)
    requires d in rel
    ensures Reaches(rel, d, d)
  {
    assert ChainBetween(rel, [d], d, d);
  }

  /** Going up a `needs` chain from a culprit, everything is skipped. */
  lemma {:induction false} ReachedIsSkipped(cfg: Catalog, h: Summary, p: seq<Name>, i: nat)
    requires IsChain(Needs(cfg), p) && i < |p| - 1 && p[|p| - 1] in h.culprits
    requires NeedAny(cfg, h.culprits + h.skipped) !! h.launched
    requires h.launched + h.skipped == cfg.Keys
    ensures p[i] in h.skipped
    decreases |p| - i
  {
    if i + 1 == |p| - 1 {
    } else {
      ReachedIsSkipped(cfg, h, p, i + 1);
    }
    assert p[i + 1] in Needs(cfg)[p[i]];
    assert p[i] in NeedsDependents(cfg, p[i + 1]);
    assert p[i] in NeedAny(cfg, h.culprits + h.skipped);
  }

  /** Launched services that did not end with code 0 and never reported ready. */
  ghost function Faulty(s: Loop): set<Name> {
    set c | c in Launched(s.log) && c in s.states && s.states[c] != Exited(0) && Reported(c) !in s.log
  }

  /**
   At a clean end, the services never launched are exactly those that reach, by one `needs` edge or
   more, a launched service that did not end with code 0 and was never reported ready.
   */
  lemma FailurePropagation(cfg: Catalog, degree: map<Name, nat>, events: seq<Event>, n: Name)
    requires Booted(cfg, degree) && RegularRun(cfg, Init(cfg, degree), events) && n in cfg
    requires Run(cfg, Init(cfg, degree), events).completed == |cfg|
    ensures var s := Run(cfg, Init(cfg, degree), events);
            n !in Launched(s.log) <==> BlamedOn(cfg, Faulty(s), n)
  {
    var s := Run(cfg, Init(cfg, degree), events);
    RunKeeps(cfg, degree, events);
    LaunchedIsSummarised(s.log);
    hide Run, RegularRun, CountsUnmarked;
    SettledPropagation(cfg, s, n);
    FaultyAreCulprits(cfg, s);
  }

  /** At a clean end the faulty services are those the log blames. */
  lemma FaultyAreCulprits(cfg: Catalog, s: Loop)
    requires Inv(cfg, s) && s.completed == |cfg|
    ensures Faulty(s) == Summarise(s.log).culprits
  {
    hide *;
    forall c
      ensures c in Faulty(s) <==> c in Summarise(s.log).culprits
    {
      FaultyIsCulprit(cfg, s, c);
    }
  }

  lemma FaultyIsCulprit(cfg: Catalog, s: Loop, c: Name)
    requires Inv(cfg, s) && s.completed == |cfg|
    ensures c in Faulty(s) <==> c in Summarise(s.log).culprits
  {
    hide Summarise, Parts, Launched;
    var h := Summarise(s.log);
    LaunchedIsSummarised(s.log);
    SignalledIsReported(s.log);
    CompleteMeansSettled(cfg, s);
    SummaryFacts(cfg, s, h);
    assert Reports(s.readyReported, h) by { ReportsOf(cfg, s, h); }
    hide Reports;
    EndedOneWay(s.readyReported, h);
    if c in h.launched {
      SettledStatus(cfg, s, c);
    }
  }

  lemma ReportsOf(cfg: Catalog, s: Loop, h: Summary)
    requires Parts(cfg, s, h)
    ensures Reports(s.readyReported, h)
  {
    hide CountsUnmarked, Queue, Status, StartOrder, Blocking, Restarts, Tracking, Reports;
  }

  lemma SignalledIsReported(log: seq<Action>)
    ensures forall c :: c in Summarise(log).signalled <==> Reported(c) in log
  {
  }

  lemma EndedOneWay(readyReported: set<Name>, h: Summary)
    requires Reports(readyReported, h)
    ensures h.culprits == h.over - h.succeeded - h.signalled
  {
  }

  lemma BlockingFacts(cfg: Catalog, s: Loop, h: Summary)
    requires Parts(cfg, s, h)
    ensures NeedAny(cfg, h.culprits + h.skipped) !! h.launched
    ensures h.skipped <= NeedAny(cfg, h.culprits + h.skipped)
    ensures h.culprits <= h.launched
  {
    hide CountsUnmarked, Queue, Status, StartOrder, Restarts, Tracking, NeedAny;
  }

  lemma SettledPropagation(cfg: Catalog, s: Loop, n: Name)
    requires Acyclic(Deps(cfg)) && Inv(cfg, s) && s.completed == |cfg| && n in cfg
    ensures var h := Summarise(s.log); n !in h.launched <==> BlamedOn(cfg, h.culprits, n)
  {
    var h := Summarise(s.log);
    CompleteMeansSettled(cfg, s);
    SummaryFacts(cfg, s, h);
    BlockingFacts(cfg, s, h);
    NeedsAcyclic(cfg);
    hide Inv, Acyclic, Needs, Summarise, ReachesStrictly;
    if n !in h.launched {
      SkippedReaches(cfg, h.culprits, h.skipped, n);
    }
    if c :| c in h.culprits && ReachesStrictly(Needs(cfg), n, c) {
      ReachingIsSkipped(cfg, h, n, c);
    }
  }

  lemma ReachingIsSkipped(cfg: Catalog, h: Summary, n: Name, c: Name)
    requires c in h.culprits && ReachesStrictly(Needs(cfg), n, c)
    requires NeedAny(cfg, h.culprits + h.skipped) !! h.launched
    requires h.launched + h.skipped == cfg.Keys
    ensures n in h.skipped
  {
    var p :| ChainBetween(Needs(cfg), p, n, c) && |p| >= 2;
    ReachedIsSkipped(cfg, h, p, 0);
  }
}
