/** `run_with_marker` (src/executor.rs:169-623) against a script of what the environment does. */
module Supervise {
  import opened Services
  import opened Dependency
  import opened Kahn
  import opened Graph
  import opened Layering
  import opened Build
  import opened Supervisor
  import opened SupervisorTheorems
  import opened SupervisorWork
  import opened SupervisorAnyRun
  import opened SupervisorEnvironment
  import opened Shutdown
  import opened Execution

  /** What one pass of the loop meets: the flag, the channels and the children. */
  datatype Tick = Tick(
    shutdown: bool,              // the flag at the top of the pass
    commands: seq<Command>,      // control commands waiting
    readies: seq<Name>,          // readiness signals waiting
    late: Option<Name>,          // a signal arriving during the short wait
    stopping: set<Pid>,          // children polled when the flag is set already
    children: Pid -> Child,      // what waitpid answers
    stubborn: set<Pid>)          // children that outlive the grace period at shutdown

  datatype Outcome =
    | Finished                                               // one of the exit tests held
    | ShutDown(sent: seq<Sent>, left: map<Pid, Name>)        // the flag was set
    | Errored                                                // a spawn or waitpid failed
    | Undecided                                              // the script ended first

  ghost predicate RegularHistory(x: Executor)
    reads x, x.graph
  {
    RegularRun(x.graph.services, Init(x.graph.services, x.degree0), x.history)
  }

  /** Every service ended or was skipped, and exactly those blamed on a faulty one were skipped. */
  ghost predicate CleanlyDone(cfg: Catalog, s: Loop) {
    && s.completed == |cfg| && s.pidToName == map[]
    && (forall n :: n in cfg ==> n in s.states && (s.states[n].Exited? || s.states[n].Failed?))
    && (forall n :: n in cfg ==>
          (n !in Launched(s.log) <==> BlamedOn(cfg, Faulty(s), n)))
  }

  lemma RegularFinish(cfg: Catalog, degree: map<Name, nat>, events: seq<Event>)
    requires Booted(cfg, degree) && RegularRun(cfg, Init(cfg, degree), events)
    requires var s := Run(cfg, Init(cfg, degree), events); s.toStart == [] && (s.completed >= |cfg| || s.pidToName == map[])
    ensures CleanlyDone(cfg, Run(cfg, Init(cfg, degree), events))
  {
    var s := Run(cfg, Init(cfg, degree), events);
    hide Booted, RegularRun, Run, Init;
    NoStall(cfg, degree, events);
    forall n | n in cfg
      ensures n in s.states && (s.states[n].Exited? || s.states[n].Failed?)
      ensures n !in Launched(s.log) <==> BlamedOn(cfg, Faulty(s), n)
    {
      CleanEnd(cfg, degree, events, n);
      FailurePropagation(cfg, degree, events, n);
    }
  }

  lemma RegularOneChild(cfg: Catalog, degree: map<Name, nat>, events: seq<Event>)
    requires Booted(cfg, degree) && RegularRun(cfg, Init(cfg, degree), events)
    ensures OneChildEach(Run(cfg, Init(cfg, degree), events).pidToName)
  {
    hide Booted, RegularRun, Run, Init;
    StatusView(cfg, degree, events, "");
  }

  /** The ordered pass signalled the tracked children in the stopping order, dependents first, and left none. */
  ghost predicate OrderlyStop(cfg: Catalog, pids: map<Pid, Name>, sent: seq<Sent>, left: map<Pid, Name>) {
    left == map[] && TermsInOrder(cfg, pids, sent) && Signalled(sent) == StopOrder(Deps(cfg), pids.Values)
  }

  method ShutDownNow(x: Executor, stubborn: set<Pid>) returns (outcome: Outcome)
    requires x.Valid() && Booted(x.graph.services, x.degree0)
    ensures outcome.ShutDown? && TreatedOnce(x.pidToName, map[], outcome.sent, stubborn)
    ensures Justified(x, outcome)
  {
    var sent, left := StopAll(x.graph, x.pidToName, stubborn);
    hide OneChildEach, TermsInOrder, TreatedOnce, Booted, RegularRun, Run, Init, PossibleRun, WellBuilt;
    if RegularHistory(x) {
      RegularOneChild(x.graph.services, x.degree0, x.history);
    }
    outcome := ShutDown(sent, left);
  }

  lemma FinishedIsClean(x: Executor)
    requires x.Valid() && Booted(x.graph.services, x.degree0)
    requires x.toStart == [] && (x.completed >= |x.graph.services| || x.pidToName == map[])
    ensures RegularHistory(x) ==> CleanlyDone(x.graph.services, x.State())
  {
    hide Booted, RegularRun, Run, Init, PossibleRun, WellBuilt, CleanlyDone;
    if RegularHistory(x) {
      RegularFinish(x.graph.services, x.degree0, x.history);
    }
  }

  /** What an outcome promises if the events so far made a regular run. */
  ghost predicate Justified(x: Executor, outcome: Outcome)
    reads x, x.graph
  {
    && (outcome.Finished? && RegularHistory(x) ==> CleanlyDone(x.graph.services, x.State()))
    && (outcome.ShutDown? && RegularHistory(x) ==>
          OrderlyStop(x.graph.services, x.pidToName, outcome.sent, outcome.left))
  }

  // ------------------------------------------------------------------------------------------
  // One pass
  // ------------------------------------------------------------------------------------------

  /** The events of one pass, in the order in which they are handled, and the children polled in it. */
  datatype Pass = Pass(commands: seq<Event>, readies: seq<Event>, launches: seq<Event>,
                       late: seq<Event>, polls: seq<Event>, polled: set<Pid>)

  ghost function FirstEvents(pass: Pass): seq<Event> {
    pass.commands + pass.readies + pass.launches
  }

  ghost function EventsOf(pass: Pass): seq<Event> {
    FirstEvents(pass) + (pass.late + pass.polls)
  }

  ghost function AllEvents(passes: seq<Pass>): seq<Event> {
    if passes == [] then [] else AllEvents(passes[..|passes| - 1]) + EventsOf(passes[|passes| - 1])
  }

  /** Every waiting command and signal was handled, in order, and then only launches happened. */
  ghost predicate Began(tick: Tick, pass: Pass) {
    AnswersAll(pass.commands, tick.commands) && Signals(pass.readies, tick.readies) && Launches(pass.launches)
  }

  function Late(tick: Tick): seq<Name> {
    if tick.late.Some? then [tick.late.value] else []
  }

  /** After the launches: an exit test holds. */
  ghost predicate Exits(cfg: Catalog, s: Loop) {
    !s.aborted && s.toStart == [] && (s.completed >= |cfg| || s.pidToName == map[])
  }

  /** After the launches: the queue is drained and neither exit test holds. */
  ghost predicate Continues(cfg: Catalog, s: Loop) {
    !s.aborted && s.toStart == [] && s.completed < |cfg| && s.pidToName != map[]
  }

  /** The first half alone. */
  ghost predicate HalfDone(tick: Tick, pass: Pass) {
    Began(tick, pass) && pass.late == [] && pass.polls == [] && pass.polled == {}
  }

  /** From the state after the launches: the late signal, and one event for each child polled that ended. */
  ghost predicate Polling(mid: Loop, tick: Tick, pass: Pass) {
    && Signals(pass.late, Late(tick)) && pass.polled <= mid.pidToName.Keys
    && Polls(pass.polls, tick.children, tick.stopping, pass.polled)
  }

  /**
   The pass did what the environment offered, starting in state s. One that led to another pass polled
   every tracked child; one that ended the loop was cut short by an exit test, by a failed spawn, or
   by a child for which waitpid failed.
   */
  ghost predicate PassDone(cfg: Catalog, s: Loop, tick: Tick, pass: Pass, outcome: Outcome) {
    var mid := Run(cfg, s, FirstEvents(pass));
    var end := Run(cfg, mid, pass.late + pass.polls);
    match outcome
    case Finished => HalfDone(tick, pass) && Exits(cfg, mid)
    case Errored =>
      || (HalfDone(tick, pass) && mid.aborted)
      || (Began(tick, pass) && Continues(cfg, mid) && Polling(mid, tick, pass)
          && (end.aborted || SomeBroken(tick.children, pass.polled)))
    case _ =>
      && Began(tick, pass) && Continues(cfg, mid) && Polling(mid, tick, pass)
      && pass.polled == mid.pidToName.Keys && !SomeBroken(tick.children, pass.polled) && !end.aborted
  }

  lemma StateIs(x: Executor)
    requires x.Valid()
    ensures x.State() == Run(x.graph.services, Init(x.graph.services, x.degree0), x.history)
  {
  }

  /** Where the events handled since lead. */
  lemma StateFollows(x: Executor, s: Loop, before: seq<Event>, more: seq<Event>)
    requires x.Valid() && x.history == before + more
    requires s == Run(x.graph.services, Init(x.graph.services, x.degree0), before)
    ensures x.State() == Run(x.graph.services, s, more)
  {
    hide Run, Init, PossibleRun, WellBuilt;
    RunConcat(x.graph.services, Init(x.graph.services, x.degree0), before, more);
  }

  /** The first half of a pass: commands, readiness, launches and the exit tests. */
  method FirstHalf(x: Executor, tick: Tick) returns (outcome: Outcome, ghost pass: Pass)
    requires x.Valid() && !x.aborted && Booted(x.graph.services, x.degree0)
    modifies x, x.graph`inDegree
    ensures x.Valid() && x.degree0 == old(x.degree0)
    ensures x.history == old(x.history) + FirstEvents(pass) && HalfDone(tick, pass)
    ensures x.State() == Run(x.graph.services, old(x.State()), FirstEvents(pass))
    ensures !x.State().aborted ==> SpawnsRegular(x.graph.services, old(x.State()), FirstEvents(pass))
    ensures x.reliable ==> !x.State().aborted
    ensures Justified(x, outcome) && (outcome.Undecided? || outcome.Errored? || outcome.Finished?)
    ensures outcome.Errored? ==> x.State().aborted
    ensures outcome.Finished? ==> Exits(x.graph.services, x.State())
    ensures outcome.Undecided? ==> Continues(x.graph.services, x.State())
  {
    hide Booted, Executor.Valid, RegularHistory, CleanlyDone, OrderlyStop, AnswersAll, Signals, Launches, Run, Init, SpawnsRegular;
    StateIs(x);
    ghost var commands := x.DrainCommands(tick.commands);
    ghost var readies := x.DrainReady(tick.readies);
    assert x.history == old(x.history) + (commands + readies);
    StateFollows(x, old(x.State()), old(x.history), commands + readies);
    ghost var launches := x.LaunchAll();
    pass := Pass(commands, readies, launches, [], [], {});
    assert old(x.history) + commands + readies + launches == old(x.history) + FirstEvents(pass);
    StateFollows(x, old(x.State()), old(x.history), FirstEvents(pass));
    DrainsAreInputs(x.graph.services, old(x.State()), tick, pass);
    SpawnsConcat(x.graph.services, old(x.State()), commands + readies, launches);
    outcome := Undecided;
    if x.aborted {
      return Errored, pass;
    }
    var total := x.graph.Len();
    if x.completed >= total || x.pidToName == map[] {
      FinishedIsClean(x);
      return Finished, pass;
    }
  }

  lemma DrainsAreInputs(cfg: Catalog, s: Loop, tick: Tick, pass: Pass)
    requires AnswersAll(pass.commands, tick.commands) && Signals(pass.readies, tick.readies)
    ensures SpawnsRegular(cfg, s, pass.commands + pass.readies)
  {
    var events := pass.commands + pass.readies;
    forall e | e in events
      ensures IsInput(e)
    {
      if e in pass.commands {
        var i :| 0 <= i < |pass.commands| && pass.commands[i] == e;
        assert Answers(pass.commands[i], tick.commands[i]);
      }
    }
    InputsSpawnNothing(cfg, s, events);
  }

  lemma LateIsInput(cfg: Catalog, s: Loop, late: seq<Event>, names: seq<Name>)
    requires Signals(late, names)
    ensures SpawnsRegular(cfg, s, late)
  {
    InputsSpawnNothing(cfg, s, late);
  }

  /** The second half: a readiness signal during the wait, and the children. */
  method SecondHalf(x: Executor, tick: Tick, ghost first: Pass) returns (outcome: Outcome, ghost pass: Pass)
    requires x.Valid() && !x.aborted
    modifies x, x.graph`inDegree
    ensures x.Valid() && x.degree0 == old(x.degree0)
    ensures pass == first.(late := pass.late, polls := pass.polls, polled := pass.polled)
    ensures x.history == old(x.history) + (pass.late + pass.polls) && Polling(old(x.State()), tick, pass)
    ensures x.State() == Run(x.graph.services, old(x.State()), pass.late + pass.polls)
    ensures x.reliable && NoneGone(tick.children) ==>
              !x.State().aborted && SpawnsRegular(x.graph.services, old(x.State()), pass.late + pass.polls)
    ensures outcome.Errored? || outcome.Undecided?
    ensures outcome.Errored? ==> x.State().aborted || SomeBroken(tick.children, pass.polled)
    ensures outcome.Undecided? ==>
              !x.State().aborted && pass.polled == old(x.State()).pidToName.Keys && !SomeBroken(tick.children, pass.polled)
  {
    hide Executor.Valid, Polls, SomeBroken, Run, Init, SpawnsRegular, NoneGone;
    StateIs(x);
    RunNothing(x.graph.services, x.State());
    ghost var late, polls, polled := [], [], {};
    if tick.late.Some? {
      late := x.DrainReady([tick.late.value]);
    }
    assert x.history == old(x.history) + late;
    StateFollows(x, old(x.State()), old(x.history), late);
    var broken: bool;
    broken, polls, polled := x.Poll(tick.children, tick.stopping);
    outcome := if broken || x.aborted then Errored else Undecided;
    pass := first.(late := late, polls := polls, polled := polled);
    assert old(x.history) + late + polls == old(x.history) + (late + polls);
    StateFollows(x, old(x.State()), old(x.history), late + polls);
    LateIsInput(x.graph.services, old(x.State()), late, Late(tick));
    SpawnsConcat(x.graph.services, old(x.State()), late, polls);
  }

  /** One pass, if the flag is not set at its top. */
  method OnePass(x: Executor, tick: Tick) returns (outcome: Outcome, ghost pass: Pass)
    requires x.Valid() && !x.aborted && Booted(x.graph.services, x.degree0)
    modifies x, x.graph`inDegree
    ensures x.Valid() && x.degree0 == old(x.degree0) && (outcome.Undecided? ==> !x.aborted)
    ensures x.history == old(x.history) + EventsOf(pass)
    ensures x.State() == Run(x.graph.services, old(x.State()), EventsOf(pass))
    ensures PassDone(x.graph.services, old(x.State()), tick, pass, outcome)
    ensures x.reliable && NoneGone(tick.children) ==>
              !x.aborted && SpawnsRegular(x.graph.services, old(x.State()), EventsOf(pass))
    ensures outcome.Errored? ==> x.aborted || SomeBroken(tick.children, pass.polled)
    ensures Justified(x, outcome) && !outcome.ShutDown?
  {
    hide Booted, Executor.Valid, RegularHistory, CleanlyDone, OrderlyStop, Run, Began, Polling, SomeBroken, SpawnsRegular, NoneGone;
    ghost var s := x.State();
    outcome, pass := FirstHalf(x, tick);
    ghost var half := pass;
    if outcome.Undecided? {
      outcome, pass := SecondHalf(x, tick, half);
      BeganStays(tick, half, pass);
    }
    assert old(x.history) + FirstEvents(pass) + (pass.late + pass.polls) == old(x.history) + EventsOf(pass);
    RunConcat(x.graph.services, s, FirstEvents(pass), pass.late + pass.polls);
    RunNothing(x.graph.services, Run(x.graph.services, s, FirstEvents(pass)));
    SpawnsConcat(x.graph.services, s, FirstEvents(pass), pass.late + pass.polls);
  }

  lemma BeganStays(tick: Tick, first: Pass, pass: Pass)
    requires Began(tick, first) && pass == first.(late := pass.late, polls := pass.polls, polled := pass.polled)
    ensures Began(tick, pass)
  {
  }

  lemma RunNothing(cfg: Catalog, s: Loop)
    ensures Run(cfg, s, []) == s && SpawnsRegular(cfg, s, [])
  {
  }

  // ------------------------------------------------------------------------------------------
  // The loop
  // ------------------------------------------------------------------------------------------

  /**
   How the loop, entered in state s, followed the script: pass by pass, each starting where the one
   before ended, until the flag, an exit test, an error or the end of the script.
   */
  ghost predicate Followed(cfg: Catalog, s: Loop, script: seq<Tick>, passes: seq<Pass>, outcome: Outcome) {
    && |passes| <= |script|
    && (forall i :: 0 <= i < |passes| ==> FollowedAt(cfg, s, script, passes, outcome, i))
    && (outcome.Undecided? ==> |passes| == |script|)
    && (outcome.ShutDown? ==> |passes| < |script| && script[|passes|].shutdown)
    && (outcome.Finished? || outcome.Errored? ==> passes != [])
  }

  ghost predicate FollowedAt(cfg: Catalog, s: Loop, script: seq<Tick>, passes: seq<Pass>, outcome: Outcome, i: nat)
    requires i < |passes| <= |script|
  {
    && !script[i].shutdown
    && PassDone(cfg, Run(cfg, s, AllEvents(passes[..i])), script[i], passes[i],
                if i < |passes| - 1 then Undecided else outcome)
  }

  /** An error has a cause: a failed spawn, or a child polled in the last pass for which waitpid failed. */
  ghost predicate HasCause(aborted: bool, script: seq<Tick>, passes: seq<Pass>) {
    && 0 < |passes| <= |script|
    && (aborted || SomeBroken(script[|passes| - 1].children, passes[|passes| - 1].polled))
  }

  lemma CauseFound(aborted: bool, script: seq<Tick>, passes: seq<Pass>, outcome: Outcome)
    requires 0 < |passes| <= |script|
    requires outcome.Errored? ==> aborted || SomeBroken(script[|passes| - 1].children, passes[|passes| - 1].polled)
    ensures outcome.Errored? ==> HasCause(aborted, script, passes)
  {
    hide SomeBroken;
  }

  lemma NothingPromised(x: Executor)
    ensures Justified(x, Undecided)
  {
    hide RegularHistory, CleanlyDone, OrderlyStop;
  }

  lemma NoEvents()
    ensures AllEvents([]) == []
  {
  }

  lemma FollowedStarts(cfg: Catalog, s: Loop, script: seq<Tick>)
    ensures Followed(cfg, s, script[..0], [], Undecided)
  {
  }

  /** One more pass, as part of any script that goes on like this. */
  lemma FollowedGrows(cfg: Catalog, s: Loop, script: seq<Tick>, i: nat, passes: seq<Pass>, pass: Pass, outcome: Outcome, longer: seq<Tick>)
    requires i < |script| && Followed(cfg, s, script[..i], passes, Undecided) && !script[i].shutdown
    requires PassDone(cfg, Run(cfg, s, AllEvents(passes)), script[i], pass, outcome) && !outcome.ShutDown?
    requires longer == script[..i + 1] || (longer == script && !outcome.Undecided?)
    ensures Followed(cfg, s, longer, passes + [pass], outcome)
  {
    hide PassDone, Run, AllEvents;
    var all := passes + [pass];
    forall k | 0 <= k < |all|
      ensures FollowedAt(cfg, s, longer, all, outcome, k)
    {
      assert all[..k] == passes[..k];
      assert longer[k] == script[k];
      if k < |passes| {
        assert FollowedAt(cfg, s, script[..i], passes, Undecided, k);
        assert script[..i][k] == script[k] && all[k] == passes[k];
      } else {
        assert passes[..k] == passes;
      }
    }
  }

  lemma PassDoneThenFlag(cfg: Catalog, s: Loop, tick: Tick, pass: Pass, outcome: Outcome)
    requires PassDone(cfg, s, tick, pass, Undecided) && outcome.ShutDown?
    ensures PassDone(cfg, s, tick, pass, outcome)
  {
  }

  lemma FollowedStops(cfg: Catalog, s: Loop, script: seq<Tick>, i: nat, passes: seq<Pass>, outcome: Outcome)
    requires i < |script| && Followed(cfg, s, script[..i], passes, Undecided) && script[i].shutdown && outcome.ShutDown?
    ensures Followed(cfg, s, script, passes, outcome)
  {
    hide PassDone, Run, AllEvents;
    forall k | 0 <= k < |passes|
      ensures FollowedAt(cfg, s, script, passes, outcome, k)
    {
      assert FollowedAt(cfg, s, script[..i], passes, Undecided, k);
      assert script[..i][k] == script[k];
      PassDoneThenFlag(cfg, Run(cfg, s, AllEvents(passes[..k])), script[k], passes[k], outcome);
    }
  }

  lemma EventsAppend(cfg: Catalog, s: Loop, history: seq<Event>, passes: seq<Pass>, pass: Pass)
    ensures history + AllEvents(passes + [pass]) == history + AllEvents(passes) + EventsOf(pass)
    ensures Run(cfg, s, AllEvents(passes + [pass])) == Run(cfg, Run(cfg, s, AllEvents(passes)), EventsOf(pass))
    ensures SpawnsRegular(cfg, s, AllEvents(passes + [pass])) <==>
            SpawnsRegular(cfg, s, AllEvents(passes)) && SpawnsRegular(cfg, Run(cfg, s, AllEvents(passes)), EventsOf(pass))
  {
    hide EventsOf, Run, SpawnsRegular;
    assert (passes + [pass])[..|passes|] == passes;
    assert AllEvents(passes + [pass]) == AllEvents(passes) + EventsOf(pass);
    RunConcat(cfg, s, AllEvents(passes), EventsOf(pass));
    SpawnsConcat(cfg, s, AllEvents(passes), EventsOf(pass));
  }

  /**
   The loop. It handles what the environment does, pass by pass and in order; and whatever that is, if
   what happened was a regular run then leaving by an exit test is a clean end, and leaving by the
   shutdown flag is an orderly stop. Every tracked child is treated once at shutdown in any case.
   */
  method RunLoop(x: Executor, script: seq<Tick>) returns (outcome: Outcome, ghost passes: seq<Pass>)
    requires x.Valid() && !x.aborted && Booted(x.graph.services, x.degree0)
    modifies x, x.graph`inDegree
    ensures x.Valid() && x.degree0 == old(x.degree0)
    ensures x.history == old(x.history) + AllEvents(passes)
    ensures x.State() == Run(x.graph.services, old(x.State()), AllEvents(passes))
    ensures Followed(x.graph.services, old(x.State()), script, passes, outcome)
    ensures Justified(x, outcome)
    ensures x.reliable && NeverGone(script) ==>
              !x.aborted && SpawnsRegular(x.graph.services, old(x.State()), AllEvents(passes))
    ensures x.reliable && NeverGone(script) ==>
              (RegularRun(x.graph.services, old(x.State()), AllEvents(passes)) <==>
               InputsRegular(x.graph.services, old(x.State()), AllEvents(passes)))
    ensures outcome.Errored? ==> HasCause(x.aborted, script, passes)
    ensures outcome.ShutDown? ==>
              |passes| < |script| && TreatedOnce(x.pidToName, map[], outcome.sent, script[|passes|].stubborn)
  {
    hide Booted, Executor.Valid, RegularHistory, CleanlyDone, OrderlyStop, Followed, PassDone, TreatedOnce, EventsOf, Run, SomeBroken,
         Justified, HasCause, AllEvents, SpawnsRegular, NoneGone, RegularRun, InputsRegular;
    ghost var cfg, s := x.graph.services, x.State();
    outcome, passes := Undecided, [];
    FollowedStarts(cfg, s, script);
    RunNothing(cfg, s);
    NoEvents();
    for i := 0 to |script|
      invariant x.Valid() && !x.aborted && x.degree0 == old(x.degree0)
      invariant outcome.Undecided? && |passes| == i
      invariant x.history == old(x.history) + AllEvents(passes) && x.State() == Run(cfg, s, AllEvents(passes))
      invariant Followed(cfg, s, script[..i], passes, Undecided)
      invariant x.reliable && NeverGone(script) ==> SpawnsRegular(cfg, s, AllEvents(passes))
    {
      if script[i].shutdown {
        outcome := ShutDownNow(x, script[i].stubborn);
        FollowedStops(cfg, s, script, i, passes, outcome);
        RegularIffBoth(cfg, s, AllEvents(passes));
        return;
      }
      ghost var pass: Pass;
      outcome, pass := OnePass(x, script[i]);
      FollowedGrows(cfg, s, script, i, passes, pass, outcome, if outcome.Undecided? then script[..i + 1] else script);
      EventsAppend(cfg, s, old(x.history), passes, pass);
      passes := passes + [pass];
      CauseFound(x.aborted, script, passes, outcome);
      RegularIffBoth(cfg, s, AllEvents(passes));
      if !outcome.Undecided? {
        return;
      }
    }
    assert script[..|script|] == script;
    NothingPromised(x);
    RegularIffBoth(cfg, s, AllEvents(passes));
  }

  /** In the whole script, waitpid never answers ECHILD. */
  ghost predicate NeverGone(script: seq<Tick>) {
    forall i :: 0 <= i < |script| ==> NoneGone(script[i].children)
  }

  /** Nothing but the children themselves: no command and no readiness signal. */
  ghost predicate Quiet(script: seq<Tick>) {
    forall i :: 0 <= i < |script| ==> script[i].commands == [] && script[i].readies == [] && script[i].late.None?
  }

  lemma QuietPass(cfg: Catalog, s: Loop, tick: Tick, pass: Pass, outcome: Outcome)
    requires PassDone(cfg, s, tick, pass, outcome) && tick.commands == [] && tick.readies == [] && tick.late.None?
    ensures forall e :: e in EventsOf(pass) ==> !IsInput(e)
  {
    hide Run;
    assert Began(tick, pass) && pass.commands == [] && pass.readies == [] && pass.late == [];
    forall e | e in EventsOf(pass)
      ensures !IsInput(e)
    {
      if e in pass.launches {
        var i :| 0 <= i < |pass.launches| && pass.launches[i] == e;
      } else {
        var i :| 0 <= i < |pass.polls| && pass.polls[i] == e;
        assert Polled(pass.polls[i], tick.children, tick.stopping);
      }
    }
  }

  lemma {:induction false} QuietPasses(cfg: Catalog, s: Loop, script: seq<Tick>, passes: seq<Pass>, outcome: Outcome, k: nat)
    requires Followed(cfg, s, script, passes, outcome) && Quiet(script) && k <= |passes|
    ensures forall e :: e in AllEvents(passes[..k]) ==> !IsInput(e)
  {
    hide PassDone, EventsOf, Run, IsInput;
    if k == 0 {
    } else {
      QuietPasses(cfg, s, script, passes, outcome, k - 1);
      assert FollowedAt(cfg, s, script, passes, outcome, k - 1);
      QuietPass(cfg, Run(cfg, s, AllEvents(passes[..k - 1])), script[k - 1], passes[k - 1],
                if k - 1 < |passes| - 1 then Undecided else outcome);
      assert passes[..k][..k - 1] == passes[..k - 1];
    }
  }

  /** The history is regular if what came from outside was, and spawning and waiting went well. */
  lemma RegularWhen(x: Executor, script: seq<Tick>, passes: seq<Pass>, outcome: Outcome)
    requires x.history == AllEvents(passes)
    requires SpawnsRegular(x.graph.services, Init(x.graph.services, x.degree0), x.history)
    requires Followed(x.graph.services, Init(x.graph.services, x.degree0), script, passes, outcome)
    ensures RegularHistory(x) <==> InputsRegular(x.graph.services, Init(x.graph.services, x.degree0), x.history)
    ensures Quiet(script) ==> RegularHistory(x)
  {
    hide Followed, SpawnsRegular, InputsRegular, RegularRun, Init, AllEvents;
    var cfg, s := x.graph.services, Init(x.graph.services, x.degree0);
    RegularIffBoth(cfg, s, x.history);
    if Quiet(script) {
      QuietPasses(cfg, s, script, passes, outcome, |passes|);
      assert passes[..|passes|] == passes;
      NoInputs(cfg, s, x.history);
    }
  }

  // ------------------------------------------------------------------------------------------
  // The loop ends
  // ------------------------------------------------------------------------------------------

  /** No shutdown, and in every pass the children have come to an end, each in its own way. */
  ghost predicate AllEnd(script: seq<Tick>) {
    forall i :: 0 <= i < |script| ==> EndsAll(script[i])
  }

  ghost predicate EndsAll(tick: Tick) {
    !tick.shutdown && forall p :: tick.children(p).Over?
  }

  lemma {:induction false} ReapsConcat(a: seq<Event>, b: seq<Event>)
    ensures Reaps(a + b) == Reaps(a) + Reaps(b)
    decreases |b|
  {
    if b == [] {
      assert a + b == a;
    } else {
      ReapsConcat(a, b[..|b| - 1]);
      assert (a + b)[..|a + b| - 1] == a + b[..|b| - 1];
    }
  }

  lemma ReapsOne(events: seq<Event>, i: nat)
    requires i < |events| && events[i].Reaped?
    ensures Reaps(events) >= 1
  {
    assert events == events[..i + 1] + events[i + 1..];
    ReapsConcat(events[..i + 1], events[i + 1..]);
  }

  /** A pass that leads to another one found a tracked child, and so reaped it. */
  lemma PassReaps(cfg: Catalog, s: Loop, tick: Tick, pass: Pass)
    requires PassDone(cfg, s, tick, pass, Undecided) && EndsAll(tick)
    ensures Reaps(EventsOf(pass)) >= 1
  {
    hide Run, Reaps;
    var mid := Run(cfg, s, FirstEvents(pass));
    var p :| p in mid.pidToName;
    assert p in pass.polled && tick.children(p).Over?;
    var i :| 0 <= i < |pass.polls| && pass.polls[i].pid == p;
    assert Polled(pass.polls[i], tick.children, tick.stopping);
    ReapsOne(pass.polls, i);
    ReapsConcat(pass.late, pass.polls);
    ReapsConcat(FirstEvents(pass), pass.late + pass.polls);
  }

  lemma {:induction false} PassesReap(cfg: Catalog, s: Loop, script: seq<Tick>, passes: seq<Pass>, k: nat)
    requires Followed(cfg, s, script, passes, Undecided) && AllEnd(script) && k <= |passes|
    ensures Reaps(AllEvents(passes[..k])) >= k
  {
    hide PassDone, EventsOf, Run, EndsAll, Reaps;
    if k == 0 {
    } else {
      PassesReap(cfg, s, script, passes, k - 1);
      assert FollowedAt(cfg, s, script, passes, Undecided, k - 1);
      PassReaps(cfg, Run(cfg, s, AllEvents(passes[..k - 1])), script[k - 1], passes[k - 1]);
      assert passes[..k][..k - 1] == passes[..k - 1];
      ReapsConcat(AllEvents(passes[..k - 1]), EventsOf(passes[k - 1]));
    }
  }

  lemma {:induction false} NoRequests(events: seq<Event>)
    requires forall e :: e in events ==> !IsInput(e)
    ensures RestartRequests(events) == 0
    decreases |events|
  {
    if events == [] {
    } else {
      assert events[|events| - 1] in events;
      NoRequests(events[..|events| - 1]);
    }
  }

  lemma NoneBroken(script: seq<Tick>, passes: seq<Pass>)
    requires AllEnd(script)
    ensures !HasCause(false, script, passes) && NeverGone(script)
  {
    forall i | 0 <= i < |script|
      ensures NoneGone(script[i].children) && forall seen :: !SomeBroken(script[i].children, seen)
    {
      assert EndsAll(script[i]);
    }
  }

  /**
   Left alone, with spawns that succeed and children that end, however they end, the loop leaves by an
   exit test within MAX_RESTARTS + 1 passes per service and one more.
   */
  lemma LoopEnds(x: Executor, script: seq<Tick>, passes: seq<Pass>, outcome: Outcome)
    requires Booted(x.graph.services, x.degree0) && RegularHistory(x) && x.history == AllEvents(passes)
    requires Followed(x.graph.services, Init(x.graph.services, x.degree0), script, passes, outcome)
    requires Quiet(script) && AllEnd(script) && (outcome.Errored? ==> HasCause(false, script, passes))
    requires |script| > (MAX_RESTARTS + 1) * |x.graph.services|
    ensures outcome.Finished?
  {
    var cfg, s := x.graph.services, Init(x.graph.services, x.degree0);
    NoneBroken(script, passes);
    NotStopped(cfg, s, script, passes, outcome);
    hide Followed, Booted, RegularRun, Init, AllEvents, HasCause, AllEnd, Quiet, Reaps;
    if outcome.Undecided? {
      PassesReap(cfg, s, script, passes, |passes|);
      QuietPasses(cfg, s, script, passes, outcome, |passes|);
      assert passes[..|passes|] == passes;
      NoRequests(x.history);
      BoundedWork(cfg, x.degree0, x.history);
    }
  }

  lemma NotStopped(cfg: Catalog, s: Loop, script: seq<Tick>, passes: seq<Pass>, outcome: Outcome)
    requires Followed(cfg, s, script, passes, outcome) && AllEnd(script)
    ensures !outcome.ShutDown? && (outcome.Undecided? ==> |passes| == |script|)
  {
    hide FollowedAt;
    forall i | 0 <= i < |script|
      ensures !script[i].shutdown
    {
      assert EndsAll(script[i]);
    }
  }

  /** From a list of definitions: refuse to boot, or build the graph and run the loop on it. */
  method Boot(defs: seq<ServiceDef>, reliable: bool, script: seq<Tick>)
    returns (r: Result<Executor, seq<Name>>, outcome: Outcome, ghost passes: seq<Pass>)
    ensures r.Ok? <==> Buildable(defs)
    ensures r.Err? ==> Elems(r.error) == CycleNodes(defs)
    ensures r.Ok? ==> fresh(r.value) && r.value.Valid() && IsCatalogOf(r.value.graph.services, defs)
    ensures r.Ok? ==> Justified(r.value, outcome)
    ensures r.Ok? ==> r.value.history == AllEvents(passes)
    ensures r.Ok? && outcome.Errored? ==> HasCause(r.value.aborted, script, passes)
    ensures r.Ok? && reliable && NeverGone(script) ==>
              var cfg := r.value.graph.services;
              && (RegularHistory(r.value) <==> InputsRegular(cfg, Init(cfg, r.value.degree0), r.value.history))
              && (Quiet(script) ==> RegularHistory(r.value))
    ensures r.Ok? && reliable && Quiet(script) && AllEnd(script)
              && |script| > (MAX_RESTARTS + 1) * |r.value.graph.services| ==>
                outcome.Finished? && CleanlyDone(r.value.graph.services, r.value.State())
    ensures r.Ok? && outcome.ShutDown? ==>
              |passes| < |script| && TreatedOnce(r.value.pidToName, map[], outcome.sent, script[|passes|].stubborn)
    ensures r.Ok? ==>
              var cfg := r.value.graph.services;
              Followed(cfg, Init(cfg, r.value.degree0), script, passes, outcome) && CountsUnmarked(cfg, r.value.degree0, {})
  {
    hide DistinctNames, Acyclic, RelationOf, CycleNodes, WellBuilt, CountsUnmarked, Executor.State, Run, PossibleRun, Booted, Init, Followed;
    passes := [];
    var built := Build.Build(defs);
    match built
    case Err(nodes) => return Err(nodes), Undecided, passes;
    case Ok(graph) =>
      var x := new Executor(graph, defs, reliable);
      BuiltIsBooted(graph.services, graph.dependents, graph.inDegree, graph.needsDependents);
      hide *;
      outcome, passes := RunLoop(x, script);
      assert [] + AllEvents(passes) == AllEvents(passes);
      if reliable && NeverGone(script) {
        RegularWhen(x, script, passes, outcome);
      }
      if reliable && Quiet(script) && AllEnd(script) && |script| > (MAX_RESTARTS + 1) * |x.graph.services| {
        NoneBroken(script, passes);
        RegularWhen(x, script, passes, outcome);
        LoopEnds(x, script, passes, outcome);
        EndIsClean(x, outcome);
      }
      r := Ok(x);
  }

  lemma EndIsClean(x: Executor, outcome: Outcome)
    requires Justified(x, outcome) && outcome.Finished? && RegularHistory(x)
    ensures CleanlyDone(x.graph.services, x.State())
  {
    hide RegularHistory, CleanlyDone;
  }

  lemma BuiltIsBooted(services: Catalog, dependents: map<Name, seq<Name>>, degree: map<Name, nat>, needs: map<Name, seq<Name>>)
    requires WellBuilt(services, dependents, degree, needs) && CountsUnmarked(services, degree, {})
    ensures Booted(services, degree)
  {
  }
}
