/** What every reachable state of a regular run satisfies, part by part. */
module SupervisorInvariant {
  import opened Services
  import opened Graph
  import opened Build
  import opened Supervisor

  // ------------------------------------------------------------------------------------------
  // What the log says
  // ------------------------------------------------------------------------------------------

  datatype Summary = Summary(
    launched: set<Name>,   // spawned from the ready queue
    skipped: set<Name>,    // blocked instead
    over: set<Name>,       // child ended for good
    culprits: set<Name>,   // ended unsuccessfully, never reported ready
    succeeded: set<Name>,  // ended with code 0 and restarts to spare
    signalled: set<Name>)  // reported ready by a signal

  ghost function Summarise(log: seq<Action>): Summary {
    Summary(
      Launched(log),
      set a | a in log && a.Skipped? :: a.name,
      set a | a in log && a.Ended? :: a.name,
      set a | a in log && a.Ended? && a.failed && !a.reported :: a.name,
      set a | a in log && a.Ended? && !a.failed :: a.name,
      set a | a in log && a.Reported? :: a.name)
  }

  ghost function Note(h: Summary, a: Action): Summary {
    match a
    case Started(n, _) => h.(launched := h.launched + {n})
    case Skipped(n) => h.(skipped := h.skipped + {n})
    case Reported(n) => h.(signalled := h.signalled + {n})
    case Respawned(_, _, _) => h
    case Ended(n, failed, reported) =>
      h.(over := h.over + {n},
         culprits := h.culprits + if failed && !reported then {n} else {},
         succeeded := h.succeeded + if failed then {} else {n})
  }

  lemma SummaryGrows(log: seq<Action>, a: Action)
    ensures Summarise(log + [a]) == Note(Summarise(log), a)
  {
    var l, h := log + [a], Note(Summarise(log), a);
    assert forall x :: x in l <==> x in log || x == a;
    assert Summarise(l).launched == h.launched;
    assert Summarise(l).skipped == h.skipped;
    assert Summarise(l).over == h.over;
    assert Summarise(l).culprits == h.culprits;
    assert Summarise(l).succeeded == h.succeeded;
    assert Summarise(l).signalled == h.signalled;
  }

  /** The services whose dependents have been released. */
  ghost function Marked(h: Summary): set<Name> {
    h.signalled + h.over + h.skipped
  }

  /** Launched and not ended. */
  ghost function Up(h: Summary): set<Name> {
    h.launched - h.over
  }

  ghost function Begun(h: Summary): set<Name> {
    h.launched + h.skipped
  }

  // ------------------------------------------------------------------------------------------
  // The parts
  // ------------------------------------------------------------------------------------------

  /** Every service whose dependencies are all marked is queued, launched or skipped, exactly once. */
  ghost predicate Queue(cfg: Catalog, toStart: seq<Name>, marked: set<Name>, launched: set<Name>, skipped: set<Name>) {
    && NoDuplicates(toStart)
    && Elems(toStart) !! launched && Elems(toStart) !! skipped && launched !! skipped
    && Elems(toStart) + launched + skipped == Eligible(cfg, marked)
  }

  ghost predicate Reports(readyReported: set<Name>, h: Summary) {
    && readyReported == h.signalled + h.over
    && readyReported <= h.launched
    && h.culprits <= h.over && h.culprits !! h.signalled && h.succeeded <= h.over && h.culprits !! h.succeeded
    && h.over <= h.culprits + h.succeeded + h.signalled
  }

  /** Exactly the services `up`, launched and not ended, have a tracked child, and only one. */
  ghost predicate Tracking(pidToName: map<Pid, Name>, up: set<Name>) {
    && (forall p, q :: p in pidToName && q in pidToName && pidToName[p] == pidToName[q] ==> p == q)
    && pidToName.Values == up
  }

  /** Services with a hard dependency among `bad`. */
  ghost function NeedAny(cfg: Catalog, bad: set<Name>): set<Name> {
    set n, m | m in bad && n in NeedsDependents(cfg, m) :: n
  }

  ghost predicate Blocking(cfg: Catalog, blocked: set<Name>, culprits: set<Name>, skipped: set<Name>, launched: set<Name>) {
    && blocked == NeedAny(cfg, culprits + skipped)
    && blocked !! launched
    && skipped <= blocked
  }

  ghost predicate StatusAt(states: map<Name, ServiceState>, shared: map<Name, Info>, pidToName: map<Pid, Name>,
                           up: set<Name>, begun: set<Name>, clean: set<Name>, skipped: set<Name>, n: Name)
  {
    && n in states && n in shared
    && shared[n].name == n && shared[n].state == Tag(states[n])
    && (forall p :: shared[n].pid == Some(p) <==> p in pidToName && pidToName[p] == n)
    && (states[n].Running? ==> shared[n].pid == Some(states[n].pid))
    && (IsUp(states, n) <==> n in up)
    && (states[n].Pending? <==> n !in begun)
    && (states[n] == Exited(0) <==> n in clean)
    && (n in skipped ==> states[n].Failed?)
  }

  /**
   The shared map shows the state of each service, and the pid of its tracked child if it has one. The
   services `clean` are those shown as exited with code 0, and those `skipped` are shown as failed.
   */
  ghost predicate Status(cfg: Catalog, states: map<Name, ServiceState>, shared: map<Name, Info>,
                         pidToName: map<Pid, Name>, up: set<Name>, begun: set<Name>, clean: set<Name>, skipped: set<Name>)
  {
    && states.Keys == shared.Keys == cfg.Keys
    && forall n {:trigger StatusAt(states, shared, pidToName, up, begun, clean, skipped, n)} :: n in cfg ==>
         StatusAt(states, shared, pidToName, up, begun, clean, skipped, n)
  }

  /** Restarts are pending only for services that are up; automatic restarts stay within the limit. */
  ghost predicate Restarts(cfg: Catalog, pending: set<Name>, replies: map<Name, ReplyId>, defs: Catalog,
                           counts: map<Name, nat>, up: set<Name>)
  {
    && pending <= up
    && replies.Keys == pending
    && defs.Keys == cfg.Keys
    && counts.Keys <= cfg.Keys
    && forall n :: n in counts ==> counts[n] <= MAX_RESTARTS
  }

  /**
   Entry i launches a service for the first time, after everything it depends on was reported ready,
   ended or was skipped, and after everything it needs was reported ready or ended well.
   */
  ghost predicate LaunchedInOrder(cfg: Catalog, log: seq<Action>, n: Name) {
    var h := Summarise(log);
    && n in cfg && n !in h.launched
    && DepsOn(cfg, n) <= Marked(h)
    && NeedsOf(cfg[n]) * cfg.Keys <= h.signalled + h.succeeded
  }

  ghost predicate StartOrder(cfg: Catalog, log: seq<Action>) {
    forall i :: 0 <= i < |log| && log[i].Started? ==> LaunchedInOrder(cfg, log[..i], log[i].name)
  }

  ghost predicate Parts(cfg: Catalog, s: Loop, h: Summary) {
    && !s.aborted
    && CountsUnmarked(cfg, s.inDegree, Marked(h))
    && Queue(cfg, s.toStart, Marked(h), h.launched, h.skipped)
    && Reports(s.readyReported, h)
    && Tracking(s.pidToName, Up(h))
    && s.completed == |h.over| + |h.skipped|
    && Blocking(cfg, s.blocked, h.culprits, h.skipped, h.launched)
    && Status(cfg, s.states, s.shared, s.pidToName, Up(h), Begun(h), h.succeeded, h.skipped)
    && Restarts(cfg, s.pendingRestart, s.restartReplies, s.defs, s.restartCounts, Up(h))
    && StartOrder(cfg, s.log)
  }

  ghost predicate Inv(cfg: Catalog, s: Loop) {
    Parts(cfg, s, Summarise(s.log))
  }

  // ------------------------------------------------------------------------------------------
  // How the parts change
  // ------------------------------------------------------------------------------------------

  /** Marking a service queues what it makes eligible. */
  lemma QueueMarks(cfg: Catalog, degree: map<Name, nat>, toStart: seq<Name>, marked: set<Name>,
                   launched: set<Name>, skipped: set<Name>, n: Name)
    requires CountsUnmarked(cfg, degree, marked) && Queue(cfg, toStart, marked, launched, skipped) && n !in marked
    ensures Queue(cfg, toStart + Newly(cfg, degree, n), marked + {n}, launched, skipped)
  {
    var newly := Newly(cfg, degree, n);
    MarkUnlocks(cfg, degree, marked, n);
    assert Eligible(cfg, marked) <= Eligible(cfg, marked + {n});
    ElemsConcat(toStart, newly);
  }

  lemma QueuePops(cfg: Catalog, toStart: seq<Name>, marked: set<Name>, launched: set<Name>, skipped: set<Name>)
    requires Queue(cfg, toStart, marked, launched, skipped) && toStart != []
    ensures var init, n := toStart[..|toStart| - 1], toStart[|toStart| - 1];
            && n in cfg && DepsOn(cfg, n) <= marked && n !in launched && n !in skipped
            && Queue(cfg, init, marked, launched + {n}, skipped)
            && Queue(cfg, init, marked, launched, skipped + {n})
  {
    var init, n := toStart[..|toStart| - 1], toStart[|toStart| - 1];
    assert toStart == init + [n];
    ElemsAppend(init, n);
    assert n !in Elems(init);
    assert n in Eligible(cfg, marked);
  }

  /** A service not yet marked blocks nothing that was launched: its dependents still wait. */
  lemma BlocksNoneLaunched(cfg: Catalog, toStart: seq<Name>, marked: set<Name>, launched: set<Name>, skipped: set<Name>, n: Name)
    requires Queue(cfg, toStart, marked, launched, skipped) && n in cfg && n !in marked
    ensures NeedsDependents(cfg, n) !! launched
  {
    forall m | m in NeedsDependents(cfg, n)
      ensures m !in launched
    {
      assert n in DepsOn(cfg, m);
      assert m !in Eligible(cfg, marked);
    }
  }

  lemma NeedAnyGrows(cfg: Catalog, bad: set<Name>, n: Name)
    ensures NeedAny(cfg, bad + {n}) == NeedAny(cfg, bad) + NeedsDependents(cfg, n)
  {
  }

  /** Only service n changes, and its new row agrees with the new tracking map. */
  lemma StatusChanges(cfg: Catalog, states: map<Name, ServiceState>, shared: map<Name, Info>, pids: map<Pid, Name>,
                      up: set<Name>, begun: set<Name>, clean: set<Name>, skipped: set<Name>,
                      n: Name, st: ServiceState, pids': map<Pid, Name>,
                      up': set<Name>, begun': set<Name>, clean': set<Name>, skipped': set<Name>)
    requires Status(cfg, states, shared, pids, up, begun, clean, skipped) && n in cfg
    requires forall p :: (p in pids && pids[p] != n) || (p in pids' && pids'[p] != n) ==>
               p in pids && p in pids' && pids[p] == pids'[p]
    requires up' - {n} == up - {n} && begun' - {n} == begun - {n}
    requires clean' - {n} == clean - {n} && skipped' - {n} == skipped - {n}
    requires forall p :: Sync(shared, n, st)[n].pid == Some(p) <==> p in pids' && pids'[p] == n
    requires (st.Running? || st.Ready?) <==> n in up'
    requires st.Pending? <==> n !in begun'
    requires (st == Exited(0) <==> n in clean') && (n in skipped' ==> st.Failed?)
    ensures Status(cfg, states[n := st], Sync(shared, n, st), pids', up', begun', clean', skipped')
  {
    var states', shared' := states[n := st], Sync(shared, n, st);
    assert StatusAt(states, shared, pids, up, begun, clean, skipped, n);
    assert StatusAt(states', shared', pids', up', begun', clean', skipped', n);
    forall m | m in cfg && m != n
      ensures StatusAt(states', shared', pids', up', begun', clean', skipped', m)
    {
      assert StatusAt(states, shared, pids, up, begun, clean, skipped, m);
      assert m in up - {n} <==> m in up' - {n};
      assert m in begun - {n} <==> m in begun' - {n};
      assert m in clean - {n} <==> m in clean' - {n};
      assert m in skipped - {n} <==> m in skipped' - {n};
    }
  }

  /** A readiness signal for a service with a tracked child: the pid shown stays. */
  lemma StatusReady(cfg: Catalog, states: map<Name, ServiceState>, shared: map<Name, Info>, pids: map<Pid, Name>,
                    up: set<Name>, begun: set<Name>, clean: set<Name>, skipped: set<Name>, n: Name)
    requires Status(cfg, states, shared, pids, up, begun, clean, skipped) && n in cfg && n in up && n in begun
    ensures Status(cfg, states[n := Ready], Sync(shared, n, Ready), pids, up, begun, clean, skipped)
  {
    assert StatusAt(states, shared, pids, up, begun, clean, skipped, n);
    StatusChanges(cfg, states, shared, pids, up, begun, clean, skipped, n, Ready, pids, up, begun, clean, skipped);
  }

  lemma PidsOf(pids: map<Pid, Name>, up: set<Name>, n: Name)
    requires Tracking(pids, up)
    ensures n !in up ==> forall p :: p in pids ==> pids[p] != n
    ensures n in up ==> forall p, q :: p in pids && q in pids && pids[p] == pids[q] == n ==> p == q
  {
    if n !in up {
      forall p | p in pids
        ensures pids[p] != n
      {
        assert pids[p] in pids.Values;
      }
    }
  }

  /** A first child for n. */
  lemma StatusLaunches(cfg: Catalog, states: map<Name, ServiceState>, shared: map<Name, Info>, pids: map<Pid, Name>,
                       up: set<Name>, begun: set<Name>, clean: set<Name>, skipped: set<Name>, n: Name, pid: Pid)
    requires Status(cfg, states, shared, pids, up, begun, clean, skipped) && Tracking(pids, up)
    requires n in cfg && n !in up && n !in clean && n !in skipped && pid !in pids
    ensures Status(cfg, states[n := Running(pid)], Sync(shared, n, Running(pid)), pids[pid := n],
                   up + {n}, begun + {n}, clean, skipped)
  {
    PidsOf(pids, up, n);
    StatusChanges(cfg, states, shared, pids, up, begun, clean, skipped,
                  n, Running(pid), pids[pid := n], up + {n}, begun + {n}, clean, skipped);
  }

  /** A new child in the place of the old one. */
  lemma StatusRespawns(cfg: Catalog, states: map<Name, ServiceState>, shared: map<Name, Info>, pids: map<Pid, Name>,
                       up: set<Name>, begun: set<Name>, clean: set<Name>, skipped: set<Name>, was: Pid, pid: Pid)
    requires Status(cfg, states, shared, pids, up, begun, clean, skipped) && Tracking(pids, up)
    requires was in pids && pids[was] in cfg && pids[was] in up && pids[was] in begun && pid !in (pids - {was})
    requires pids[was] !in clean && pids[was] !in skipped
    ensures var n := pids[was];
            Status(cfg, states[n := Running(pid)], Sync(shared, n, Running(pid)), (pids - {was})[pid := n],
                   up, begun, clean, skipped)
  {
    var n := pids[was];
    PidsOf(pids, up, n);
    StatusChanges(cfg, states, shared, pids, up, begun, clean, skipped,
                  n, Running(pid), (pids - {was})[pid := n], up, begun, clean, skipped);
  }

  /** The only child of n is gone for good. */
  lemma StatusEnds(cfg: Catalog, states: map<Name, ServiceState>, shared: map<Name, Info>, pids: map<Pid, Name>,
                   up: set<Name>, begun: set<Name>, clean: set<Name>, skipped: set<Name>,
                   was: Pid, st: ServiceState, clean': set<Name>)
    requires Status(cfg, states, shared, pids, up, begun, clean, skipped) && Tracking(pids, up) && (st.Exited? || st.Failed?)
    requires was in pids && pids[was] in cfg && pids[was] in begun && pids[was] !in clean && pids[was] !in skipped
    requires clean' == clean + if st == Exited(0) then {pids[was]} else {}
    ensures var n := pids[was];
            Status(cfg, states[n := st], Sync(shared, n, st), pids - {was}, up - {n}, begun, clean', skipped)
  {
    var n := pids[was];
    assert n in pids.Values;
    PidsOf(pids, up, n);
    StatusChanges(cfg, states, shared, pids, up, begun, clean, skipped,
                  n, st, pids - {was}, up - {n}, begun, clean', skipped);
  }

  /** A service without a child is given up. */
  lemma StatusSkips(cfg: Catalog, states: map<Name, ServiceState>, shared: map<Name, Info>, pids: map<Pid, Name>,
                    up: set<Name>, begun: set<Name>, clean: set<Name>, skipped: set<Name>, n: Name)
    requires Status(cfg, states, shared, pids, up, begun, clean, skipped) && Tracking(pids, up)
    requires n in cfg && n !in up && n !in clean
    ensures Status(cfg, states[n := Failed], Sync(shared, n, Failed), pids, up, begun + {n}, clean, skipped + {n})
  {
    PidsOf(pids, up, n);
    StatusChanges(cfg, states, shared, pids, up, begun, clean, skipped,
                  n, Failed, pids, up, begun + {n}, clean, skipped + {n});
  }

  lemma TrackingReplaces(pids: map<Pid, Name>, up: set<Name>, was: Pid, pid: Pid)
    requires Tracking(pids, up) && was in pids && pid !in (pids - {was})
    ensures Tracking((pids - {was})[pid := pids[was]], up)
  {
    TrackingDrops(pids, up, was);
    TrackingAdds(pids - {was}, up - {pids[was]}, pids[was], pid);
    assert up - {pids[was]} + {pids[was]} == up;
  }

  lemma TrackingAdds(pids: map<Pid, Name>, up: set<Name>, n: Name, pid: Pid)
    requires Tracking(pids, up) && n !in up && pid !in pids
    ensures Tracking(pids[pid := n], up + {n})
  {
    var pids' := pids[pid := n];
    assert forall p :: p in pids' <==> p == pid || p in pids;
    assert pids'.Values == up + {n} by {
      forall m
        ensures m in pids'.Values <==> m in up + {n}
      {
        if m in up {
          var p :| p in pids && pids[p] == m;
          assert pids'[p] == m;
        }
        assert pids'[pid] == n;
      }
    }
  }

  lemma TrackingDrops(pids: map<Pid, Name>, up: set<Name>, pid: Pid)
    requires Tracking(pids, up) && pid in pids
    ensures Tracking(pids - {pid}, up - {pids[pid]})
    ensures pids[pid] in up
  {
    var pids' := pids - {pid};
    assert pids'.Values == up - {pids[pid]} by {
      forall m
        ensures m in pids'.Values <==> m in up - {pids[pid]}
      {
        if m in up && m != pids[pid] {
          var p :| p in pids && pids[p] == m;
          assert pids'[p] == m;
        }
      }
    }
  }

  lemma StartOrderGrows(cfg: Catalog, log: seq<Action>, a: Action)
    requires StartOrder(cfg, log)
    requires a.Started? ==> LaunchedInOrder(cfg, log, a.name)
    ensures StartOrder(cfg, log + [a])
  {
    var l := log + [a];
    forall i | 0 <= i < |l| && l[i].Started?
      ensures LaunchedInOrder(cfg, l[..i], l[i].name)
    {
      if i < |log| {
        assert l[..i] == log[..i];
      } else {
        assert l[..i] == log;
      }
    }
  }
}
