/** Stopping the tracked children in order (src/executor.rs:215-282). */
module Shutdown {
  import opened Services
  import opened Dependency
  import opened Graph
  import opened Layering
  import opened Supervisor

  /** What is sent to a child, and the end of the wait for it. */
  datatype Sent = Term(name: Name, pid: Pid) | Kill(name: Name, pid: Pid) | WaitOver(name: Name, pid: Pid)

  ghost predicate OneChildEach(pids: map<Pid, Name>) {
    forall p, q :: p in pids && q in pids && pids[p] == pids[q] ==> p == q
  }

  /** The waits for all direct dependents of `name` among `pids` were over before this point. */
  ghost predicate DependentsGone(cfg: Catalog, pids: map<Pid, Name>, before: seq<Sent>, name: Name) {
    forall q {:trigger pids[q]} :: q in pids && pids[q] in cfg && name in DepsOn(cfg, pids[q]) ==>
      WaitOver(pids[q], q) in before
  }

  ghost predicate TermsInOrder(cfg: Catalog, pids: map<Pid, Name>, sent: seq<Sent>) {
    forall i :: 0 <= i < |sent| && sent[i].Term? ==>
      && sent[i].pid in pids && pids[sent[i].pid] == sent[i].name
      && DependentsGone(cfg, pids, sent[..i], sent[i].name)
  }

  /** The children of the first k services in the stopping order have been dealt with. */
  ghost predicate StoppedUpTo(pids: map<Pid, Name>, left: map<Pid, Name>, sent: seq<Sent>, done: set<Name>) {
    && left == (map p | p in pids && pids[p] !in done :: pids[p])
    && forall p :: p in pids && pids[p] in done ==>
         Term(pids[p], p) in sent && WaitOver(pids[p], p) in sent
  }

  // ------------------------------------------------------------------------------------------
  // Whatever the children: each one is dealt with once
  // ------------------------------------------------------------------------------------------

  /** What is done to one child. */
  function Treatment(name: Name, pid: Pid, stubborn: set<Pid>): seq<Sent> {
    if pid in stubborn then [Term(name, pid), Kill(name, pid), WaitOver(name, pid)]
    else [Term(name, pid), WaitOver(name, pid)]
  }

  /** The child is signalled and waited for, and killed exactly if it is stubborn. */
  ghost predicate Treated(sent: seq<Sent>, name: Name, pid: Pid, stubborn: set<Pid>) {
    Term(name, pid) in sent && WaitOver(name, pid) in sent && (Kill(name, pid) in sent <==> pid in stubborn)
  }

  /**
   One child at a time: a child is signalled when every wait begun before is over, killed only after it
   was signalled, and waited for to the end only after that, and after it was killed if it is stubborn.
   */
  ghost predicate InTurn(sent: seq<Sent>, stubborn: set<Pid>) {
    forall i :: 0 <= i < |sent| ==> TurnOf(sent[..i], sent[i], stubborn)
  }

  ghost predicate TurnOf(before: seq<Sent>, e: Sent, stubborn: set<Pid>) {
    match e
    case Term(_, _) => WaitsOver(before)
    case Kill(name, pid) => Term(name, pid) in before
    case WaitOver(name, pid) => Term(name, pid) in before && (pid in stubborn ==> Kill(name, pid) in before)
  }

  ghost predicate WaitsOver(sent: seq<Sent>) {
    forall e :: e in sent ==> WaitOver(e.name, e.pid) in sent
  }

  lemma InTurnAppend(sent: seq<Sent>, e: Sent, stubborn: set<Pid>)
    requires InTurn(sent, stubborn) && TurnOf(sent, e, stubborn)
    ensures InTurn(sent + [e], stubborn)
  {
    hide TurnOf;
    var all := sent + [e];
    forall i | 0 <= i < |all|
      ensures TurnOf(all[..i], all[i], stubborn)
    {
      if i < |sent| {
        assert all[..i] == sent[..i] && all[i] == sent[i];
      } else {
        assert all[..i] == sent;
      }
    }
  }

  lemma InTurnGrows(sent: seq<Sent>, name: Name, pid: Pid, stubborn: set<Pid>)
    requires InTurn(sent, stubborn) && WaitsOver(sent)
    ensures InTurn(sent + Treatment(name, pid, stubborn), stubborn)
  {
    hide InTurn;
    var s1 := sent + [Term(name, pid)];
    InTurnAppend(sent, Term(name, pid), stubborn);
    assert s1[|sent|] == Term(name, pid);
    if pid in stubborn {
      InTurnAppend(s1, Kill(name, pid), stubborn);
      var s2 := s1 + [Kill(name, pid)];
      assert s2[|sent|] == Term(name, pid) && s2[|s1|] == Kill(name, pid);
      InTurnAppend(s2, WaitOver(name, pid), stubborn);
      assert s2 + [WaitOver(name, pid)] == sent + Treatment(name, pid, stubborn);
    } else {
      InTurnAppend(s1, WaitOver(name, pid), stubborn);
      assert s1 + [WaitOver(name, pid)] == sent + Treatment(name, pid, stubborn);
    }
  }

  /** The services in the order in which their children are signalled. */
  function Signalled(sent: seq<Sent>): seq<Name> {
    if sent == [] then []
    else
      var e := sent[|sent| - 1];
      Signalled(sent[..|sent| - 1]) + if e.Term? then [e.name] else []
  }

  lemma SignalledAppend(sent: seq<Sent>, e: Sent)
    ensures Signalled(sent + [e]) == Signalled(sent) + if e.Term? then [e.name] else []
  {
    assert (sent + [e])[..|sent|] == sent;
  }

  lemma SignalledGrows(sent: seq<Sent>, name: Name, pid: Pid, stubborn: set<Pid>)
    ensures Signalled(sent + Treatment(name, pid, stubborn)) == Signalled(sent) + [name]
  {
    hide Signalled;
    var s1 := sent + [Term(name, pid)];
    SignalledAppend(sent, Term(name, pid));
    if pid in stubborn {
      SignalledAppend(s1, Kill(name, pid));
      SignalledAppend(s1 + [Kill(name, pid)], WaitOver(name, pid));
      assert s1 + [Kill(name, pid)] + [WaitOver(name, pid)] == sent + Treatment(name, pid, stubborn);
    } else {
      SignalledAppend(s1, WaitOver(name, pid));
      assert s1 + [WaitOver(name, pid)] == sent + Treatment(name, pid, stubborn);
    }
  }

  /** Exactly the children not left have been treated, in turn, and nothing was done twice or to anyone else. */
  ghost predicate TreatedOnce(pids: map<Pid, Name>, left: map<Pid, Name>, sent: seq<Sent>, stubborn: set<Pid>) {
    && (forall p :: p in left ==> p in pids && left[p] == pids[p])
    && (forall p :: p in pids && p !in left ==> Treated(sent, pids[p], p, stubborn))
    && (forall e :: e in sent ==> e.pid in pids && e.pid !in left && e.name == pids[e.pid])
    && NoDuplicates(sent) && InTurn(sent, stubborn)
  }

  lemma TreatmentTreats(name: Name, pid: Pid, stubborn: set<Pid>)
    ensures var t := Treatment(name, pid, stubborn);
            Treated(t, name, pid, stubborn) && NoDuplicates(t) && forall e :: e in t ==> e.name == name && e.pid == pid
  {
    var t := Treatment(name, pid, stubborn);
    assert t[0] == Term(name, pid) && t[|t| - 1] == WaitOver(name, pid);
    assert pid in stubborn ==> t[1] == Kill(name, pid);
  }

  lemma TreatmentShape(name: Name, pid: Pid, stubborn: set<Pid>)
    ensures var t := Treatment(name, pid, stubborn);
            && Term(name, pid) in t && WaitOver(name, pid) in t
            && (t == [Term(name, pid), WaitOver(name, pid)] || t == [Term(name, pid), Kill(name, pid), WaitOver(name, pid)])
  {
    TreatmentTreats(name, pid, stubborn);
  }

  lemma TreatOne(pids: map<Pid, Name>, left: map<Pid, Name>, sent: seq<Sent>, stubborn: set<Pid>, pid: Pid)
    requires TreatedOnce(pids, left, sent, stubborn) && pid in left
    ensures TreatedOnce(pids, left - {pid}, sent + Treatment(left[pid], pid, stubborn), stubborn)
  {
    hide Treatment, InTurn;
    var t := Treatment(left[pid], pid, stubborn);
    TreatmentTreats(left[pid], pid, stubborn);
    forall e | e in sent
      ensures WaitOver(e.name, e.pid) in sent
    {
      assert Treated(sent, pids[e.pid], e.pid, stubborn);
    }
    InTurnGrows(sent, left[pid], pid, stubborn);
    ElemsConcat(sent, t);
    forall p | p in pids && p !in left - {pid}
      ensures Treated(sent + t, pids[p], p, stubborn)
    {
      if p != pid {
        assert Treated(sent, pids[p], p, stubborn);
        assert Kill(pids[p], p) !in t;
      } else {
        assert Kill(pids[p], p) !in sent;
      }
    }
  }

  lemma TermsGrow(cfg: Catalog, pids: map<Pid, Name>, sent: seq<Sent>, more: seq<Sent>, name: Name, pid: Pid)
    requires TermsInOrder(cfg, pids, sent)
    requires more == [Term(name, pid), WaitOver(name, pid)] || more == [Term(name, pid), Kill(name, pid), WaitOver(name, pid)]
    requires pid in pids && pids[pid] == name && DependentsGone(cfg, pids, sent, name)
    ensures TermsInOrder(cfg, pids, sent + more)
  {
    var all := sent + more;
    forall i | 0 <= i < |all| && all[i].Term?
      ensures all[i].pid in pids && pids[all[i].pid] == all[i].name
      ensures DependentsGone(cfg, pids, all[..i], all[i].name)
    {
      if i < |sent| {
        assert all[..i] == sent[..i];
      } else {
        assert i == |sent|;
        assert all[..i] == sent;
      }
    }
  }

  /** Everything that depends on the k-th service of the order came before it. */
  lemma DependentsCameFirst(cfg: Catalog, pids: map<Pid, Name>, left: map<Pid, Name>, sent: seq<Sent>,
                            order: seq<Name>, k: nat)
    requires Acyclic(Deps(cfg)) && order == StopOrder(Deps(cfg), pids.Values) && k < |order|
    requires StoppedUpTo(pids, left, sent, Elems(order[..k]))
    ensures DependentsGone(cfg, pids, sent, order[k])
  {
    StopsEachOnce(Deps(cfg), pids.Values);
    forall q | q in pids && pids[q] in cfg && order[k] in DepsOn(cfg, pids[q])
      ensures WaitOver(pids[q], q) in sent
    {
      assert pids[q] in pids.Values;
      assert pids[q] in Elems(order);
      var j :| 0 <= j < |order| && order[j] == pids[q];
      DependentsStopFirst(Deps(cfg), pids.Values, k, j);
      assert order[j] in order[..k];
    }
  }

  lemma StopNext(pids: map<Pid, Name>, left: map<Pid, Name>, sent: seq<Sent>, done: set<Name>,
                 more: seq<Sent>, pid: Pid)
    requires OneChildEach(pids) && StoppedUpTo(pids, left, sent, done)
    requires pid in left
    requires Term(left[pid], pid) in more && WaitOver(left[pid], pid) in more
    ensures StoppedUpTo(pids, left - {pid}, sent + more, done + {left[pid]})
  {
  }

  lemma AllStopped(pids: map<Pid, Name>, left: map<Pid, Name>, sent: seq<Sent>)
    requires StoppedUpTo(pids, left, sent, pids.Values)
    ensures left == map[]
  {
    forall p | p in pids
      ensures pids[p] in pids.Values
    {
    }
  }

  lemma ChildLeft(pids: map<Pid, Name>, left: map<Pid, Name>, sent: seq<Sent>, done: set<Name>, name: Name)
    requires StoppedUpTo(pids, left, sent, done) && name in pids.Values && name !in done
    ensures exists p :: p in left && left[p] == name
  {
    var p :| p in pids && pids[p] == name;
    assert p in left;
  }

  /** The ordered pass: signal and wait, service by service. */
  method StopInOrder(ghost cfg: Catalog, order: seq<Name>, pids: map<Pid, Name>, stubborn: set<Pid>)
    returns (sent: seq<Sent>, left: map<Pid, Name>)
    requires Acyclic(Deps(cfg)) && order == StopOrder(Deps(cfg), pids.Values)
    ensures OneChildEach(pids) ==> StoppedUpTo(pids, left, sent, pids.Values) && TermsInOrder(cfg, pids, sent)
    ensures OneChildEach(pids) ==> Signalled(sent) == order
    ensures TreatedOnce(pids, left, sent, stubborn)
  {
    hide *;
    StopsEachOnce(Deps(cfg), pids.Values);
    sent, left := [], pids;
    NothingStopped(cfg, pids, order, stubborn);
    for k := 0 to |order|
      invariant OneChildEach(pids) ==> StoppedUpTo(pids, left, sent, Elems(order[..k]))
      invariant OneChildEach(pids) ==> TermsInOrder(cfg, pids, sent)
      invariant OneChildEach(pids) ==> Signalled(sent) == order[..k]
      invariant TreatedOnce(pids, left, sent, stubborn)
    {
      NextInOrder(order, k);
      var candidates := set p | p in left && left[p] == order[k];
      if OneChildEach(pids) {
        ChildLeft(pids, left, sent, Elems(order[..k]), order[k]);
        ghost var p :| p in left && left[p] == order[k];
        assert p in candidates;
      }
      if candidates != {} {
        var pid :| pid in candidates;
        assert order[..k + 1] == order[..k] + [order[k]];
        sent, left := StopOne(cfg, order, pids, stubborn, k, pid, sent, left);
      }
    }
    assert order[..|order|] == order;
  }

  /** SIGTERM, then the wait loop, with SIGKILL in it if the grace period passes. */
  method StopOne(ghost cfg: Catalog, ghost order: seq<Name>, ghost pids: map<Pid, Name>, stubborn: set<Pid>,
                 ghost k: nat, pid: Pid, sent: seq<Sent>, left: map<Pid, Name>)
    returns (sent': seq<Sent>, left': map<Pid, Name>)
    requires Acyclic(Deps(cfg)) && order == StopOrder(Deps(cfg), pids.Values)
    requires k < |order| && pid in left && left[pid] == order[k]
    requires Elems(order[..k + 1]) == Elems(order[..k]) + {order[k]}
    requires OneChildEach(pids) ==> StoppedUpTo(pids, left, sent, Elems(order[..k])) && TermsInOrder(cfg, pids, sent)
    requires TreatedOnce(pids, left, sent, stubborn)
    ensures TreatedOnce(pids, left', sent', stubborn)
    ensures Signalled(sent') == Signalled(sent) + [order[k]]
    ensures OneChildEach(pids) ==> StoppedUpTo(pids, left', sent', Elems(order[..k + 1])) && TermsInOrder(cfg, pids, sent')
  {
    hide *;
    var name := left[pid];
    var more := Treatment(name, pid, stubborn);
    TreatOne(pids, left, sent, stubborn, pid);
    TreatmentShape(name, pid, stubborn);
    SignalledGrows(sent, name, pid, stubborn);
    if OneChildEach(pids) {
      DependentsCameFirst(cfg, pids, left, sent, order, k);
      StopNext(pids, left, sent, Elems(order[..k]), more, pid);
      LeftIsOriginal(pids, left, sent, Elems(order[..k]), pid);
      TermsGrow(cfg, pids, sent, more, name, pid);
    }
    sent', left' := sent + more, left - {pid};
  }

  /**
   The whole shutdown. `stubborn` says which children outlive the grace period and are killed. Whatever
   is tracked, every child is signalled and waited for exactly once, one child at a time. With one child
   per service the ordered pass leaves nothing to the straggler pass, children are signalled in the
   stopping order, and none before the waits for the children depending on it are over.
   */
  method StopAll(graph: ServiceGraph, pids: map<Pid, Name>, stubborn: set<Pid>)
    returns (sent: seq<Sent>, left: map<Pid, Name>)
    requires graph.Valid()
    ensures TreatedOnce(pids, map[], sent, stubborn)
    ensures OneChildEach(pids) ==> left == map[] && TermsInOrder(graph.services, pids, sent)
    ensures OneChildEach(pids) ==> Signalled(sent) == StopOrder(Deps(graph.services), pids.Values)
  {
    var order := graph.ShutdownOrder(pids.Values);
    WellBuiltAcyclic(graph.services, graph.dependents, graph.inDegree, graph.needsDependents);
    hide OneChildEach, StoppedUpTo, TermsInOrder, Acyclic, WellBuilt, StopOrder, Deps, TreatedOnce;
    sent, left := StopInOrder(graph.services, order, pids, stubborn);
    if OneChildEach(pids) {
      AllStopped(pids, left, sent);
    }
    sent := Stragglers(pids, sent, left, stubborn);
  }

  lemma WellBuiltAcyclic(services: Catalog, dependents: map<Name, seq<Name>>, degree: map<Name, nat>,
                         needs: map<Name, seq<Name>>)
    requires WellBuilt(services, dependents, degree, needs)
    ensures Acyclic(Deps(services))
  {
  }

  lemma NothingStopped(cfg: Catalog, pids: map<Pid, Name>, order: seq<Name>, stubborn: set<Pid>)
    ensures Signalled([]) == order[..0]
    ensures TreatedOnce(pids, pids, [], stubborn)
    ensures StoppedUpTo(pids, pids, [], Elems(order[..0])) && TermsInOrder(cfg, pids, [])
  {
    assert Elems(order[..0]) == {};
  }

  lemma NextInOrder(order: seq<Name>, k: nat)
    requires NoDuplicates(order) && k < |order|
    ensures order[k] in Elems(order) && order[k] !in Elems(order[..k])
    ensures Elems(order[..k + 1]) == Elems(order[..k]) + {order[k]}
  {
    assert order[..k + 1] == order[..k] + [order[k]];
    ElemsAppend(order[..k], order[k]);
  }

  lemma LeftIsOriginal(pids: map<Pid, Name>, left: map<Pid, Name>, sent: seq<Sent>, done: set<Name>, pid: Pid)
    requires StoppedUpTo(pids, left, sent, done) && pid in left
    ensures pid in pids && pids[pid] == left[pid]
  {
  }

  /** Children the ordered pass did not cover, in the arbitrary order of a hash map. */
  method Stragglers(ghost pids: map<Pid, Name>, sent: seq<Sent>, left: map<Pid, Name>, stubborn: set<Pid>)
    returns (sent': seq<Sent>)
    requires TreatedOnce(pids, left, sent, stubborn)
    ensures left == map[] ==> sent' == sent
    ensures TreatedOnce(pids, map[], sent', stubborn)
  {
    hide TreatedOnce, Treatment;
    sent' := sent;
    var rest := left;
    while rest != map[]
      invariant rest.Keys <= left.Keys
      invariant left == map[] ==> sent' == sent
      invariant TreatedOnce(pids, rest, sent', stubborn)
      decreases rest.Keys
    {
      var p :| p in rest;
      TreatOne(pids, rest, sent', stubborn, p);
      sent' := sent' + Treatment(rest[p], p, stubborn);
      rest := rest - {p};
    }
  }
}
