/** What makes a run regular, split between what comes from outside and how spawning and waiting go. */
module SupervisorEnvironment {
  import opened Graph
  import opened Supervisor
  import opened SupervisorSteps
  import opened SupervisorAnyRun

  /** A readiness signal or a command. */
  ghost predicate IsInput(e: Event) {
    e.ReadySignal? || IsCommand(e)
  }

  /** Signals name launched services, and commands are regular ones, each when it is handled. */
  ghost predicate InputsRegular(cfg: Catalog, s: Loop, events: seq<Event>) {
    if events == [] then true
    else
      var init, e := events[..|events| - 1], events[|events| - 1];
      InputsRegular(cfg, s, init) && (IsInput(e) ==> Regular(Run(cfg, s, init), e))
  }

  /** No spawn that was needed failed, and no child vanished. */
  ghost predicate SpawnsRegular(cfg: Catalog, s: Loop, events: seq<Event>) {
    if events == [] then true
    else
      var init, e := events[..|events| - 1], events[|events| - 1];
      SpawnsRegular(cfg, s, init) && (!IsInput(e) ==> Regular(Run(cfg, s, init), e))
  }

  lemma {:induction false} RegularIffBoth(cfg: Catalog, s: Loop, events: seq<Event>)
    ensures RegularRun(cfg, s, events) <==> InputsRegular(cfg, s, events) && SpawnsRegular(cfg, s, events)
    decreases |events|
  {
    hide Regular, Run, IsInput;
    if events == [] {
    } else {
      RegularIffBoth(cfg, s, events[..|events| - 1]);
    }
  }

  lemma SpawnsAppend(cfg: Catalog, s: Loop, events: seq<Event>, e: Event)
    ensures SpawnsRegular(cfg, s, events + [e]) <==>
            SpawnsRegular(cfg, s, events) && (!IsInput(e) ==> Regular(Run(cfg, s, events), e))
  {
    hide Regular, Run, IsInput;
    assert (events + [e])[..|events|] == events;
  }

  lemma {:induction false} SpawnsConcat(cfg: Catalog, s: Loop, a: seq<Event>, b: seq<Event>)
    ensures SpawnsRegular(cfg, s, a + b) <==> SpawnsRegular(cfg, s, a) && SpawnsRegular(cfg, Run(cfg, s, a), b)
    decreases |b|
  {
    hide Regular, Run, IsInput;
    if b == [] {
      assert a + b == a;
    } else {
      var init, e := b[..|b| - 1], b[|b| - 1];
      SpawnsConcat(cfg, s, a, init);
      RunConcat(cfg, s, a, init);
      assert a + b == (a + init) + [e];
      SpawnsAppend(cfg, s, a + init, e);
    }
  }

  lemma {:induction false} InputsSpawnNothing(cfg: Catalog, s: Loop, events: seq<Event>)
    requires forall e :: e in events ==> IsInput(e)
    ensures SpawnsRegular(cfg, s, events)
    decreases |events|
  {
    hide Regular, Run, IsInput;
    if events == [] {
    } else {
      assert events[|events| - 1] in events;
      InputsSpawnNothing(cfg, s, events[..|events| - 1]);
    }
  }

  lemma {:induction false} NoInputs(cfg: Catalog, s: Loop, events: seq<Event>)
    requires forall e :: e in events ==> !IsInput(e)
    ensures InputsRegular(cfg, s, events)
    decreases |events|
  {
    hide Regular, Run, IsInput;
    if events == [] {
    } else {
      assert events[|events| - 1] in events;
      NoInputs(cfg, s, events[..|events| - 1]);
    }
  }
}
