/**
 The repository's README says that a service whose hard dependency permanently fails is marked Failed
 as well. The code does this only if the dependency never reported ready; `FailurePropagation` states
 exactly when. Here is a regular run in which it does not.
 */
module SupervisorExample {
  import opened Services
  import opened Ordering
  import opened Dependency
  import Kahn
  import opened Graph
  import opened Supervisor
  import opened SupervisorTheorems
  import opened SupervisorAnyRun

  /** b needs a; a needs nothing; neither is restarted. */
  ghost predicate Pair(cfg: Catalog, a: Name, b: Name) {
    && a != b && cfg.Keys == {a, b}
    && cfg[a].deps.None? && cfg[b].deps == Some(DepsSection([], [a]))
    && cfg[a].service.restart.None? && cfg[b].service.restart.None?
  }

  lemma PairDeps(cfg: Catalog, a: Name, b: Name)
    requires Pair(cfg, a, b)
    ensures DepsOn(cfg, a) == {} && DepsOn(cfg, b) == {a}
  {
  }

  lemma SingleListing(n: Name)
    ensures Listing({n}) == [n] && Listing({}) == []
  {
    assert Elems([n]) == {n};
    ArrangementUnique(Listing({n}), [n], {n});
    ArrangementUnique(Listing({}), [], {});
  }

  lemma PairIsAcyclic(cfg: Catalog, a: Name, b: Name)
    requires Pair(cfg, a, b)
    ensures Acyclic(Deps(cfg))
  {
    PairDeps(cfg, a, b);
    hide Pair, DepsOn;
    var rank: map<Name, nat> := map[a := 0, b := 1];
    var rel := Deps(cfg);
    PairRanked(rel, rank, a, b);
    hide Deps;
    RankedReachesNoCycle(rel, rank, a);
    RankedReachesNoCycle(rel, rank, b);
    AcyclicIffNoneReachesCycle(rel);
  }

  lemma PairRanked(rel: Relation, rank: map<Name, nat>, a: Name, b: Name)
    requires rel.Keys == {a, b} && rank == map[a := 0, b := 1] && a != b && rel[a] == {} && rel[b] == {a}
    ensures Ranked(rel, rank)
  {
    assert RankedAbove(rel, rank, a, 0) && RankedAbove(rel, rank, b, 1);
  }

  lemma PairIsBooted(cfg: Catalog, degree: map<Name, nat>, a: Name, b: Name)
    requires Pair(cfg, a, b) && degree == map[a := 0, b := 1]
    ensures Booted(cfg, degree)
  {
    PairIsAcyclic(cfg, a, b);
    PairCounts(cfg, a, b);
    hide Acyclic, Deps;
    PairKeys(cfg, a, b);
    hide Pair, CountAt;
    CountsPair(cfg, degree, a, b);
  }

  lemma PairKeys(cfg: Catalog, a: Name, b: Name)
    requires Pair(cfg, a, b)
    ensures cfg.Keys == {a, b} && a != b
  {
  }

  lemma CountsPair(cfg: Catalog, degree: map<Name, nat>, a: Name, b: Name)
    requires cfg.Keys == {a, b} && a != b && degree == map[a := 0, b := 1]
    requires CountAt(cfg, 0, {}, a) && CountAt(cfg, 1, {}, b)
    ensures CountsUnmarked(cfg, degree, {})
  {
    hide CountAt;
  }

  lemma PairCounts(cfg: Catalog, a: Name, b: Name)
    requires Pair(cfg, a, b)
    ensures CountAt(cfg, 0, {}, a) && CountAt(cfg, 1, {}, b)
  {
    PairDeps(cfg, a, b);
    assert DepsOn(cfg, b) - {} == {a};
  }

  lemma PairFacts(cfg: Catalog, a: Name, b: Name)
    requires Pair(cfg, a, b)
    ensures a != b && a in cfg && b in cfg && cfg[a].service.restart.None? && cfg[b].service.restart.None? && |cfg| == 2
  {
    assert cfg.Keys == {a} + {b};
  }

  /** Marking a releases b, and later marks release nothing. */
  lemma PairMarks(cfg: Catalog, a: Name, b: Name)
    requires Pair(cfg, a, b)
    ensures var degree: map<Name, nat> := map[a := 0, b := 1];
            var after: map<Name, nat> := map[a := 0, b := 0];
            && Listing(Kahn.ZeroSet(degree)) == [a]
            && Lowered(cfg, degree, a) == after && Newly(cfg, degree, a) == [b]
            && Newly(cfg, after, b) == []
  {
    PairDeps(cfg, a, b);
    SingleListing(a);
    SingleListing(b);
    var degree: map<Name, nat> := map[a := 0, b := 1];
    var after: map<Name, nat> := map[a := 0, b := 0];
    assert Kahn.ZeroSet(degree) == {a};
    assert Lowered(cfg, degree, a) == after;
    assert Unlocked(cfg, degree, a) == {b};
    assert Unlocked(cfg, after, b) == {};
  }

  /** The part of the state the example follows. */
  ghost predicate At(s: Loop, cfg: Catalog, degree: map<Name, nat>, queue: seq<Name>, pids: map<Pid, Name>,
                     reported: set<Name>, completed: nat)
  {
    && !s.aborted && s.inDegree == degree && s.toStart == queue && s.pidToName == pids && s.readyReported == reported
    && s.completed == completed && s.blocked == {} && s.pendingRestart == {} && s.defs == cfg
  }

  lemma LaunchAt(cfg: Catalog, s: Loop, degree: map<Name, nat>, n: Name, pids: map<Pid, Name>, reported: set<Name>, pid: Pid)
    requires At(s, cfg, degree, [n], pids, reported, 0) && n in cfg && pid !in pids
    ensures Regular(s, LaunchNext(Some(pid)))
    ensures At(Step(cfg, s, LaunchNext(Some(pid))), cfg, degree, [], pids[pid := n], reported, 0)
    ensures n in Launched(Step(cfg, s, LaunchNext(Some(pid))).log)
  {
    hide Sync;
    assert (s.log + [Started(n, pid)])[|s.log|] == Started(n, pid);
  }

  lemma ReadyAt(cfg: Catalog, s: Loop, degree: map<Name, nat>, after: map<Name, nat>, n: Name, m: Name, pids: map<Pid, Name>)
    requires At(s, cfg, degree, [], pids, {}, 0) && n in Launched(s.log)
    requires Lowered(cfg, degree, n) == after && Newly(cfg, degree, n) == [m]
    ensures Regular(s, ReadySignal(n))
    ensures At(Step(cfg, s, ReadySignal(n)), cfg, after, [m], pids, {n}, 0)
  {
    hide Sync, Lowered, Newly, Launched;
  }

  /** The reported service fails: nothing is blocked. */
  lemma FailAt(cfg: Catalog, s: Loop, degree: map<Name, nat>, n: Name, m: Name, p: Pid, q: Pid)
    requires At(s, cfg, degree, [], map[p := n, q := m], {n}, 0) && p != q
    requires n in cfg && cfg[n].service.restart.None?
    ensures var e := Reaped(p, ExitedWith(1), false, Some(p));
            && Regular(s, e) && At(Step(cfg, s, e), cfg, degree, [], map[q := m], {n}, 1)
            && Step(cfg, s, e).states == s.states[n := Exited(1)]
  {
    hide Sync, Lowered, Newly, NeedsDependents;
    assert {n} + {n} == {n};
    assert map[p := n, q := m] - {p} == map[q := m];
  }

  lemma ExitAt(cfg: Catalog, s: Loop, degree: map<Name, nat>, n: Name, m: Name, q: Pid)
    requires At(s, cfg, degree, [], map[q := m], {n}, 1) && m != n
    requires m in cfg && cfg[m].service.restart.None? && Newly(cfg, degree, m) == []
    ensures var e := Reaped(q, ExitedWith(0), false, Some(q));
            && Regular(s, e) && Step(cfg, s, e).completed == 2 && Step(cfg, s, e).pidToName == map[]
            && Step(cfg, s, e).states == s.states[m := Exited(0)]
  {
    hide Sync, Lowered, Newly, NeedsDependents;
    assert map[q := m] - {q} == map[];
  }

  /** One more regular event. */
  lemma Extend(cfg: Catalog, s0: Loop, events: seq<Event>, e: Event) returns (more: seq<Event>)
    requires RegularRun(cfg, s0, events) && Regular(Run(cfg, s0, events), e)
    ensures RegularRun(cfg, s0, more) && Run(cfg, s0, more) == Step(cfg, Run(cfg, s0, events), e)
  {
    hide Regular, Step;
    more := events + [e];
    RunAppends(cfg, s0, events, e);
  }

  lemma InitAt(cfg: Catalog, degree: map<Name, nat>, a: Name)
    requires Listing(Kahn.ZeroSet(degree)) == [a]
    ensures At(Init(cfg, degree), cfg, degree, [a], map[], {}, 0)
    ensures RegularRun(cfg, Init(cfg, degree), []) && Run(cfg, Init(cfg, degree), []) == Init(cfg, degree)
  {
    hide Listing;
  }

  /**
   a reports ready, b starts, a fails for good: b, which needs a, still ends well and is not Failed.
   The run is regular and ends cleanly, so the documented rule does not hold of it.
   */
  lemma ReportedFailureDoesNotPropagate(cfg: Catalog, a: Name, b: Name) returns (events: seq<Event>)
    requires Pair(cfg, a, b)
    ensures var degree := map[a := 0, b := 1];
            && Booted(cfg, degree) && RegularRun(cfg, Init(cfg, degree), events)
            && var s := Run(cfg, Init(cfg, degree), events);
               && s.completed == |cfg| && s.pidToName == map[]
               && a in s.states && s.states[a] == Exited(1) && b in s.states && s.states[b] == Exited(0)
  {
    hide *;
    var degree: map<Name, nat> := map[a := 0, b := 1];
    var after: map<Name, nat> := map[a := 0, b := 0];
    var s0 := Init(cfg, degree);
    PairFacts(cfg, a, b);
    PairIsBooted(cfg, degree, a, b);
    PairMarks(cfg, a, b);
    InitAt(cfg, degree, a);
    LaunchAt(cfg, s0, degree, a, map[], {}, 1);
    var r1 := Extend(cfg, s0, [], LaunchNext(Some(1)));
    var s1 := Run(cfg, s0, r1);
    ReadyAt(cfg, s1, degree, after, a, b, map[1 := a]);
    var r2 := Extend(cfg, s0, r1, ReadySignal(a));
    var s2 := Run(cfg, s0, r2);
    LaunchAt(cfg, s2, after, b, map[1 := a], {a}, 2);
    var r3 := Extend(cfg, s0, r2, LaunchNext(Some(2)));
    var s3 := Run(cfg, s0, r3);
    FailAt(cfg, s3, after, a, b, 1, 2);
    var r4 := Extend(cfg, s0, r3, Reaped(1, ExitedWith(1), false, Some(1)));
    var s4 := Run(cfg, s0, r4);
    ExitAt(cfg, s4, after, a, b, 2);
    events := Extend(cfg, s0, r4, Reaped(2, ExitedWith(0), false, Some(2)));
  }
}
