/** A restart asked for by hand, from the request to the end of the old child. */
module SupervisorRestart {
  import opened Services
  import opened Graph
  import opened Supervisor
  import opened SupervisorInvariant
  import opened SupervisorSteps
  import opened SupervisorTheorems
  import opened SupervisorWork
  import opened SupervisorAnyRun

  /** The request that a restart or reload command files for a service that is up. */
  ghost predicate AsksRestart(e: Event, n: Name) {
    (e.RestartCommand? && e.name == n) || Redefines(e, n)
  }

  /** A reload that found a changed definition. */
  ghost predicate Redefines(e: Event, n: Name) {
    e.ReloadCommand? && e.name == n && e.reread.Changed?
  }

  /** The definition of n after these events: that of the last reload which changed it. */
  ghost function LastDefinition(events: seq<Event>, n: Name, def: ServiceDef): ServiceDef {
    if events == [] then def
    else
      var e := events[|events| - 1];
      if Redefines(e, n) then e.reread.def else LastDefinition(events[..|events| - 1], n, def)
  }

  /** Who waits for the restart of n after these events: whoever asked last. */
  ghost function LastReply(events: seq<Event>, n: Name, reply: ReplyId): ReplyId {
    if events == [] then reply
    else
      var e := events[|events| - 1];
      if AsksRestart(e, n) then e.reply else LastReply(events[..|events| - 1], n, reply)
  }

  ghost predicate NeverReaps(events: seq<Event>, pid: Pid) {
    forall e :: e in events && e.Reaped? ==> e.pid != pid
  }

  /** The old child of n still runs, the restart is pending, and this is what it will start from. */
  ghost predicate Waiting(s: Loop, n: Name, pid: Pid, def: ServiceDef, reply: ReplyId) {
    && pid in s.pidToName && s.pidToName[pid] == n && n in s.pendingRestart
    && n in s.restartReplies && s.restartReplies[n] == reply
    && n in s.defs && s.defs[n] == def
  }

  lemma TrackWaits(s: Loop, n: Name, pid: Pid, def: ServiceDef, reply: ReplyId, m: Name, q: Pid, entry: seq<Action>)
    requires Waiting(s, n, pid, def, reply) && q != pid
    ensures Waiting(Track(s, m, q, entry), n, pid, def, reply)
  {
    hide Sync;
  }

  lemma LaunchWaits(cfg: Catalog, s: Loop, n: Name, pid: Pid, def: ServiceDef, reply: ReplyId, q: Pid)
    requires Waiting(s, n, pid, def, reply) && q != pid
    ensures Waiting(OnLaunch(cfg, s, Some(q)), n, pid, def, reply)
  {
    hide Sync, Lowered, Newly, NeedsDependents, Track;
    if s.toStart != [] {
      var m, s0 := s.toStart[|s.toStart| - 1], s.(toStart := s.toStart[..|s.toStart| - 1]);
      TrackWaits(s0, n, pid, def, reply, m, q, [Started(m, q)]);
    }
  }

  lemma ReadyWaits(cfg: Catalog, s: Loop, n: Name, pid: Pid, def: ServiceDef, reply: ReplyId, m: Name)
    requires Waiting(s, n, pid, def, reply)
    ensures Waiting(OnReady(cfg, s, m), n, pid, def, reply)
  {
    hide Sync, Lowered, Newly;
  }

  lemma EndWaits(cfg: Catalog, s: Loop, n: Name, pid: Pid, def: ServiceDef, reply: ReplyId, m: Name, status: WaitStatus)
    requires Waiting(s, n, pid, def, reply)
    ensures Waiting(OnEnd(cfg, s, m, status), n, pid, def, reply)
  {
    hide Sync, Lowered, Newly, NeedsDependents, Unsuccessful, FinalState, CountOf;
  }

  lemma RespawnWaits(s: Loop, n: Name, pid: Pid, def: ServiceDef, reply: ReplyId, m: Name, q: Pid)
    requires Waiting(s, n, pid, def, reply) && q != pid && m != n
    ensures Waiting(OnManualRespawn(s, m, Some(q)), n, pid, def, reply)
    ensures Waiting(OnAutoRespawn(s, m, Some(q)), n, pid, def, reply)
  {
    hide Sync, CountOf;
  }

  /** Another child belongs to another service, and can be dropped. */
  lemma DropWaits(cfg: Catalog, s: Loop, n: Name, pid: Pid, def: ServiceDef, reply: ReplyId, p: Pid)
    requires Inv(cfg, s) && Waiting(s, n, pid, def, reply) && p in s.pidToName && p != pid
    ensures s.pidToName[p] != n && Waiting(s.(pidToName := s.pidToName - {p}), n, pid, def, reply)
  {
    hide Inv;
    TrackedOnce(cfg, s);
  }

  lemma ReapWaits(cfg: Catalog, s: Loop, n: Name, pid: Pid, def: ServiceDef, reply: ReplyId,
                  p: Pid, status: WaitStatus, stopping: bool, q: Pid)
    requires Inv(cfg, s) && Waiting(s, n, pid, def, reply)
    requires p in s.pidToName && p != pid && q != pid
    ensures Waiting(OnReaped(cfg, s, p, status, stopping, Some(q)), n, pid, def, reply)
  {
    hide Inv, OnEnd, OnManualRespawn, OnAutoRespawn, WillRestart, Waiting;
    var m, s0 := s.pidToName[p], s.(pidToName := s.pidToName - {p});
    DropWaits(cfg, s, n, pid, def, reply, p);
    if m in s.pendingRestart {
      RespawnWaits(s0, n, pid, def, reply, m, q);
    } else if WillRestart(s.defs, s.restartCounts, m, status, stopping) {
      RespawnWaits(s0, n, pid, def, reply, m, q);
    } else {
      EndWaits(cfg, s0, n, pid, def, reply, m, status);
    }
  }

  lemma DeferWaits(s: Loop, n: Name, pid: Pid, def: ServiceDef, reply: ReplyId, defs: Catalog, m: Name, r: ReplyId)
    requires Waiting(s, n, pid, def, reply) && n in defs
    ensures Waiting(Defer(s.(defs := defs), m, r), n, pid, defs[n], if m == n then r else reply)
  {
  }

  lemma CommandWaits(cfg: Catalog, s: Loop, n: Name, pid: Pid, def: ServiceDef, reply: ReplyId, e: Event)
    requires Inv(cfg, s) && Regular(s, e) && IsCommand(e) && Waiting(s, n, pid, def, reply)
    ensures Waiting(Step(cfg, s, e), n, pid, if Redefines(e, n) then e.reread.def else def,
                    if AsksRestart(e, n) then e.reply else reply)
  {
    hide Inv, Defer;
    TrackedAreKnown(cfg, s);
    assert s.pidToName[pid] in s.pidToName.Values;
    match e
    case StartCommand(m, spawn) =>
    case RestartCommand(m, r, spawn) => DeferWaits(s, n, pid, def, reply, s.defs, m, r);
    case ReloadCommand(m, r, reread, spawn) =>
      if reread.Changed? {
        DeferWaits(s, n, pid, def, reply, s.defs[m := reread.def], m, r);
      }
  }

  lemma StepWaits(cfg: Catalog, s: Loop, n: Name, pid: Pid, def: ServiceDef, reply: ReplyId, e: Event)
    requires Inv(cfg, s) && Regular(s, e) && Waiting(s, n, pid, def, reply)
    requires e.Reaped? ==> e.pid != pid
    ensures Waiting(Step(cfg, s, e), n, pid, if Redefines(e, n) then e.reread.def else def,
                    if AsksRestart(e, n) then e.reply else reply)
  {
    hide Inv, OnReady, OnLaunch, OnReaped, Launched;
    assert !s.aborted by { TrackedAreKnown(cfg, s); }
    assert pid in s.pidToName;
    hide Waiting;
    match e
    case ReadySignal(m) => ReadyWaits(cfg, s, n, pid, def, reply, m);
    case LaunchNext(spawn) =>
      var q := LaunchPid(cfg, s, spawn);
      LaunchWaits(cfg, s, n, pid, def, reply, q);
    case Reaped(p, status, stopping, spawn) =>
      var q := ReapPid(cfg, s, p, status, stopping, spawn);
      ReapWaits(cfg, s, n, pid, def, reply, p, status, stopping, q);
    case StartCommand(_, _) => CommandWaits(cfg, s, n, pid, def, reply, e);
    case RestartCommand(_, _, _) => CommandWaits(cfg, s, n, pid, def, reply, e);
    case ReloadCommand(_, _, _, _) => CommandWaits(cfg, s, n, pid, def, reply, e);
  }

  /** While the old child lives, whatever else happens, the request stays pending. */
  lemma {:induction false} RunWaits(cfg: Catalog, s: Loop, n: Name, pid: Pid, def: ServiceDef, reply: ReplyId, events: seq<Event>)
    requires Inv(cfg, s) && Waiting(s, n, pid, def, reply)
    requires RegularRun(cfg, s, events) && NeverReaps(events, pid)
    ensures Inv(cfg, Run(cfg, s, events))
    ensures Waiting(Run(cfg, s, events), n, pid, LastDefinition(events, n, def), LastReply(events, n, reply))
    decreases |events|
  {
    hide Inv, Waiting, Step, Regular, Redefines, AsksRestart;
    if events == [] {
    } else {
      var init, e := events[..|events| - 1], events[|events| - 1];
      assert NeverReaps(init, pid) && e in events;
      RunWaits(cfg, s, n, pid, def, reply, init);
      var s' := Run(cfg, s, init);
      StepKeeps(cfg, s', e);
      StepWaits(cfg, s', n, pid, LastDefinition(init, n, def), LastReply(init, n, reply), e);
    }
  }

  /** The request is filed. */
  lemma AskedIsWaiting(cfg: Catalog, s: Loop, e: Event, pid: Pid)
    requires Inv(cfg, s) && pid in s.pidToName && Regular(s, e) && AsksRestart(e, s.pidToName[pid])
    ensures var n := s.pidToName[pid];
            && n in s.defs && Waiting(Step(cfg, s, e), n, pid, LastDefinition([e], n, s.defs[n]), e.reply)
  {
    hide Inv, Launched;
    var n := s.pidToName[pid];
    TrackedAreKnown(cfg, s);
    assert n in s.pidToName.Values;
    assert LastDefinition([e][..0], n, s.defs[n]) == s.defs[n];
  }

  /** The old child ends. */
  lemma WaitingRespawns(cfg: Catalog, s: Loop, n: Name, pid: Pid, def: ServiceDef, reply: ReplyId,
                        status: WaitStatus, stopping: bool, newPid: Pid)
    requires Waiting(s, n, pid, def, reply) && !s.aborted
    ensures var s' := Step(cfg, s, Reaped(pid, status, stopping, Some(newPid)));
            && s'.pidToName == (s.pidToName - {pid})[newPid := n] && s'.states == s.states[n := Running(newPid)]
            && s'.pendingRestart == s.pendingRestart - {n} && s'.restartReplies == s.restartReplies - {n}
            && s'.defs == s.defs && s'.log == s.log + [Respawned(n, newPid, true)]
            && BootOf(s') == BootOf(s)
  {
    hide Summarise, Sync, OnEnd, OnAutoRespawn;
    SummaryGrows(s.log, Respawned(n, newPid, true));
  }

  /**
   A restart asked for is carried out when the child ends, whatever happens in between, however the
   child ends and whatever the restart policy and count. Until then it stays pending and the old child
   tracked; then the service runs under the new pid from the definition of the last reload that
   changed it, whoever asked last is answered, nobody waits any more, and the respawn leaves the boot
   where it was.
   */
  lemma RestartIsHonoured(cfg: Catalog, s: Loop, e: Event, events: seq<Event>, pid: Pid,
                          status: WaitStatus, stopping: bool, newPid: Pid)
    requires Inv(cfg, s) && pid in s.pidToName && Regular(s, e) && AsksRestart(e, s.pidToName[pid])
    requires RegularRun(cfg, Step(cfg, s, e), events) && NeverReaps(events, pid)
    ensures var n := s.pidToName[pid];
            var s1 := Run(cfg, Step(cfg, s, e), events);
            && n in s.defs
            && Waiting(s1, n, pid, LastDefinition(events, n, LastDefinition([e], n, s.defs[n])), LastReply(events, n, e.reply))
            && var s2 := Step(cfg, s1, Reaped(pid, status, stopping, Some(newPid)));
               && s2.pidToName == (s1.pidToName - {pid})[newPid := n] && s2.states == s1.states[n := Running(newPid)]
               && s2.pendingRestart == s1.pendingRestart - {n} && s2.restartReplies == s1.restartReplies - {n}
               && s2.defs == s1.defs && BootOf(s2) == BootOf(s1)
  {
    hide Inv, Waiting, Step, Regular, Run, RegularRun, NeverReaps, LastDefinition, LastReply, BootOf;
    var n := s.pidToName[pid];
    AskedIsWaiting(cfg, s, e, pid);
    StepKeeps(cfg, s, e);
    var def, reply := LastDefinition([e], n, s.defs[n]), e.reply;
    RunWaits(cfg, Step(cfg, s, e), n, pid, def, reply, events);
    var s1 := Run(cfg, Step(cfg, s, e), events);
    TrackedAreKnown(cfg, s1);
    WaitingRespawns(cfg, s1, n, pid, LastDefinition(events, n, def), LastReply(events, n, reply), status, stopping, newPid);
  }

  // ------------------------------------------------------------------------------------------
  // Replies
  // ------------------------------------------------------------------------------------------

  /** Whom the reap of a child answers, when its service is spawned again by request. */
  ghost function AnsweredBy(s: Loop, pid: Pid): Option<ReplyId> {
    if pid in s.pidToName && s.pidToName[pid] in s.pendingRestart && s.pidToName[pid] in s.restartReplies
    then Some(s.restartReplies[s.pidToName[pid]]) else None
  }

  ghost predicate AskedAgain(events: seq<Event>, n: Name) {
    exists e :: e in events && AsksRestart(e, n)
  }

  /** The last reply is the first one exactly if nobody else asked. */
  lemma {:induction false} LastReplyIs(events: seq<Event>, n: Name, reply: ReplyId)
    requires forall e :: e in events && AsksRestart(e, n) ==> e.reply != reply
    ensures LastReply(events, n, reply) == reply <==> !AskedAgain(events, n)
    decreases |events|
  {
    hide AsksRestart;
    if events == [] {
    } else {
      var init, e := events[..|events| - 1], events[|events| - 1];
      assert events == init + [e];
      assert e in events;
      LastReplyIs(init, n, reply);
      AskedAgainSplits(init, e, n);
    }
  }

  lemma AskedAgainSplits(init: seq<Event>, e: Event, n: Name)
    ensures AskedAgain(init + [e], n) <==> AskedAgain(init, n) || AsksRestart(e, n)
  {
    hide AsksRestart;
    assert forall x :: x in init + [e] <==> x in init || x == e;
    if AsksRestart(e, n) {
      assert e in init + [e];
    }
  }

  /**
   A request is answered when the child ends if and only if no later request for the same service came
   in before: a later one takes its place, and the first waits in vain although the restart happens.
   Replies are told apart by their identity.
   */
  lemma AnsweredIff(cfg: Catalog, s: Loop, e: Event, events: seq<Event>, pid: Pid)
    requires Inv(cfg, s) && pid in s.pidToName && Regular(s, e) && AsksRestart(e, s.pidToName[pid])
    requires RegularRun(cfg, Step(cfg, s, e), events) && NeverReaps(events, pid)
    requires forall x :: x in events && AsksRestart(x, s.pidToName[pid]) ==> x.reply != e.reply
    ensures var s1 := Run(cfg, Step(cfg, s, e), events);
            && AnsweredBy(s1, pid) == Some(LastReply(events, s.pidToName[pid], e.reply))
            && (AnsweredBy(s1, pid) == Some(e.reply) <==> !AskedAgain(events, s.pidToName[pid]))
  {
    var n := s.pidToName[pid];
    assert e.RestartCommand? || e.ReloadCommand?;
    LastReplyIs(events, n, e.reply);
    hide Inv, Step, Regular, Run, RegularRun, NeverReaps, LastDefinition, LastReply, AskedAgain, AsksRestart;
    AskedIsWaiting(cfg, s, e, pid);
    StepKeeps(cfg, s, e);
    RunWaits(cfg, Step(cfg, s, e), n, pid, LastDefinition([e], n, s.defs[n]), e.reply, events);
  }

  /** At a clean end nobody is left waiting. */
  lemma NoReplyHeld(cfg: Catalog, degree: map<Name, nat>, events: seq<Event>)
    requires Booted(cfg, degree) && RegularRun(cfg, Init(cfg, degree), events)
    requires Run(cfg, Init(cfg, degree), events).completed == |cfg|
    ensures var s := Run(cfg, Init(cfg, degree), events); s.pendingRestart == {} && s.restartReplies == map[]
  {
    var s := Run(cfg, Init(cfg, degree), events);
    BootedRun(cfg, degree, events);
    hide Run, RegularRun, Booted, Init;
    CompleteMeansSettled(cfg, s);
    RestartsOf(cfg, s, Summarise(s.log));
  }

  lemma RestartsOf(cfg: Catalog, s: Loop, h: Summary)
    requires Parts(cfg, s, h)
    ensures s.pendingRestart <= h.launched - h.over && s.restartReplies.Keys == s.pendingRestart
  {
    hide CountsUnmarked, Queue, Status, StartOrder, Blocking, Tracking, Reports;
  }
}
