/**
 Counting the edges that Kahn's algorithm has still to remove.

 The functions here range over the first k definitions of a list in which names may repeat, edges
 may loop and dependencies may be unknown: nothing is assumed of the input.
 */
module Kahn {
  import opened Services
  import opened Dependency

  function NamesOf(defs: seq<ServiceDef>): set<Name> {
    set i | 0 <= i < |defs| :: defs[i].service.name
  }

  ghost predicate DistinctNames(defs: seq<ServiceDef>) {
    forall i, j :: 0 <= i < j < |defs| ==> defs[i].service.name != defs[j].service.name
  }

  /** Exactly the names listed under `after` or `needs` that are known. */
  lemma KnownDepsIff(def: ServiceDef, names: set<Name>, d: Name)
    ensures d in KnownDeps(def, names) <==>
            d in names && def.deps.Some? && (d in def.deps.value.after || d in def.deps.value.needs)
  {
  }

  /** The dependencies of one definition that are names of services. */
  function KnownDeps(def: ServiceDef, names: set<Name>): set<Name> {
    AllDeps(def) * names
  }

  /** Known dependencies of n: the union over every definition of that name. */
  ghost function DepsOf(defs: seq<ServiceDef>, n: Name): set<Name> {
    set i, d | 0 <= i < |defs| && defs[i].service.name == n && d in KnownDeps(defs[i], NamesOf(defs)) :: d
  }

  /** The known `after`/`needs` relation of a list of definitions. */
  ghost function RelationOf(defs: seq<ServiceDef>): Relation {
    map n | n in NamesOf(defs) :: DepsOf(defs, n)
  }

  /** The condition under which `build` succeeds. */
  ghost predicate Buildable(defs: seq<ServiceDef>) {
    DistinctNames(defs) && Acyclic(RelationOf(defs))
  }

  /** Edges into n from services outside `done`. */
  ghost function Owed(defs: seq<ServiceDef>, k: nat, names: set<Name>, done: set<Name>, n: Name): nat
    requires k <= |defs|
  {
    if k == 0 then 0 else
      Owed(defs, k - 1, names, done, n)
      + if defs[k - 1].service.name == n then |KnownDeps(defs[k - 1], names) - done| else 0
  }

  /** The reverse adjacency list of m, in definition order. */
  ghost function DependentsOf(defs: seq<ServiceDef>, k: nat, m: Name): seq<Name>
    requires k <= |defs|
  {
    if k == 0 then [] else
      DependentsOf(defs, k - 1, m) + if m in AllDeps(defs[k - 1]) then [defs[k - 1].service.name] else []
  }

  lemma {:induction false} OwedZero(defs: seq<ServiceDef>, k: nat, names: set<Name>, done: set<Name>, n: Name)
    requires k <= |defs|
    ensures Owed(defs, k, names, done, n) == 0 <==>
            forall i :: 0 <= i < k && defs[i].service.name == n ==> KnownDeps(defs[i], names) <= done
  {
    if k == 0 {
    } else {
      OwedZero(defs, k - 1, names, done, n);
      EmptyDifference(KnownDeps(defs[k - 1], names), done);
    }
  }

  ghost function Occurs(xs: seq<Name>, n: Name): nat {
    multiset(xs)[n]
  }

  lemma OwedUnfolds(defs: seq<ServiceDef>, k: nat, names: set<Name>, done: set<Name>, n: Name)
    requires 0 < k <= |defs|
    ensures Owed(defs, k, names, done, n) == Owed(defs, k - 1, names, done, n)
          + if defs[k - 1].service.name == n then |KnownDeps(defs[k - 1], names) - done| else 0
  {
  }

  lemma OwedByOne(def: ServiceDef, names: set<Name>, done: set<Name>, m: Name)
    requires m in names && m !in done
    ensures |KnownDeps(def, names) - done| == |KnownDeps(def, names) - (done + {m})| + if m in AllDeps(def) then 1 else 0
  {
    KnownIff(def, names, m);
    hide KnownDeps, AllDeps;
    SmallerDifference(KnownDeps(def, names), done, m);
  }

  /** Finishing m removes from n exactly the occurrences of n in the list of m. */
  lemma {:induction false} OwedStep(defs: seq<ServiceDef>, k: nat, names: set<Name>, done: set<Name>, m: Name, n: Name)
    requires k <= |defs| && m in names && m !in done
    ensures Owed(defs, k, names, done, n)
         == Owed(defs, k, names, done + {m}, n) + Occurs(DependentsOf(defs, k, m), n)
  {
    if k == 0 {
    } else {
      hide *;
      OwedStep(defs, k - 1, names, done, m, n);
      OwedUnfolds(defs, k, names, done, n);
      OwedUnfolds(defs, k, names, done + {m}, n);
      OwedByOne(defs[k - 1], names, done, m);
      DependentsCount(defs, k, m, n);
    }
  }

  lemma KnownIff(def: ServiceDef, names: set<Name>, m: Name)
    requires m in names
    ensures m in KnownDeps(def, names) <==> m in AllDeps(def)
  {
  }

  lemma DependentsCount(defs: seq<ServiceDef>, k: nat, m: Name, n: Name)
    requires 0 < k <= |defs|
    ensures Occurs(DependentsOf(defs, k, m), n) == Occurs(DependentsOf(defs, k - 1, m), n)
          + if m in AllDeps(defs[k - 1]) && n == defs[k - 1].service.name then 1 else 0
  {
    hide AllDeps;
    var before, name := DependentsOf(defs, k - 1, m), defs[k - 1].service.name;
    assert multiset(before + [name])[n] == multiset(before)[n] + if n == name then 1 else 0;
  }

  lemma {:induction false} DependentsOfMembers(defs: seq<ServiceDef>, k: nat, m: Name)
    requires k <= |defs|
    ensures forall n :: n in DependentsOf(defs, k, m) <==>
                        exists i :: 0 <= i < k && defs[i].service.name == n && m in AllDeps(defs[i])
    ensures DistinctNames(defs) ==> NoDuplicates(DependentsOf(defs, k, m))
  {
    if k == 0 {
    } else {
      DependentsOfMembers(defs, k - 1, m);
      if DistinctNames(defs) {
        ElemsConcat(DependentsOf(defs, k - 1, m), [defs[k - 1].service.name]);
      }
    }
  }

  // ------------------------------------------------------------------------------------------
  // The state of the algorithm between two pops, and while one adjacency list is being walked.
  // ------------------------------------------------------------------------------------------

  /** Each degree is what services outside `done` owe, plus the unread rest of the current list. */
  ghost predicate DegreeOwed(defs: seq<ServiceDef>, degree: nat, done: set<Name>, pending: seq<Name>, n: Name) {
    degree == Owed(defs, |defs|, NamesOf(defs), done, n) + multiset(pending)[n]
  }

  ghost predicate DegreesOwed(defs: seq<ServiceDef>, degree: map<Name, nat>, done: set<Name>, pending: seq<Name>) {
    && degree.Keys == NamesOf(defs)
    && Elems(pending) <= degree.Keys
    && forall n {:trigger DegreeOwed(defs, degree[n], done, pending, n)} :: n in degree ==>
         DegreeOwed(defs, degree[n], done, pending, n)
  }

  ghost function ZeroSet(degree: map<Name, nat>): set<Name> {
    set n | n in degree && degree[n] == 0
  }

  /** The services at degree zero are those popped and, once each, those queued. */
  ghost predicate ZerosQueued(degree: map<Name, nat>, queue: seq<Name>, done: set<Name>) {
    NoDuplicates(queue) && Elems(queue) !! done && Elems(queue) + done == ZeroSet(degree)
  }

  /** `rank` numbers the services popped so far. */
  ghost predicate RankedInOrder(defs: seq<ServiceDef>, rank: map<Name, nat>) {
    Ranked(RelationOf(defs), rank) && forall n :: n in rank ==> rank[n] < |rank|
  }

  ghost predicate Draining(defs: seq<ServiceDef>, degree: map<Name, nat>, queue: seq<Name>,
                           rank: map<Name, nat>, pending: seq<Name>)
  {
    && DegreesOwed(defs, degree, rank.Keys, pending)
    && ZerosQueued(degree, queue, rank.Keys)
    && RankedInOrder(defs, rank)
  }

  lemma DrainingStarts(defs: seq<ServiceDef>, degree: map<Name, nat>, queue: seq<Name>)
    requires degree.Keys == NamesOf(defs)
    requires forall n :: n in degree ==> degree[n] == Owed(defs, |defs|, NamesOf(defs), {}, n)
    requires NoDuplicates(queue) && Elems(queue) == ZeroSet(degree)
    ensures Draining(defs, degree, queue, map[], [])
  {
    forall n | n in degree
      ensures DegreeOwed(defs, degree[n], {}, [], n)
    {
    }
    var none: map<Name, nat> := map[];
    assert none.Keys == {};
  }

  lemma PopOwes(defs: seq<ServiceDef>, degree: map<Name, nat>, done: set<Name>, node: Name)
    requires DegreesOwed(defs, degree, done, []) && node in degree && node !in done
    ensures DegreesOwed(defs, degree, done + {node}, DependentsOf(defs, |defs|, node))
  {
    var list := DependentsOf(defs, |defs|, node);
    forall n | n in degree
      ensures DegreeOwed(defs, degree[n], done + {node}, list, n)
    {
      assert DegreeOwed(defs, degree[n], done, [], n);
      OwedStep(defs, |defs|, NamesOf(defs), done, node, n);
    }
    DependentsOfMembers(defs, |defs|, node);
  }

  lemma PopDequeues(degree: map<Name, nat>, queue: seq<Name>, done: set<Name>)
    requires ZerosQueued(degree, queue, done) && queue != []
    ensures queue[0] in degree && degree[queue[0]] == 0 && queue[0] !in done
    ensures ZerosQueued(degree, queue[1..], done + {queue[0]})
  {
    ElemsTail(queue);
    assert queue[0] in ZeroSet(degree);
  }

  lemma ZeroDegreeClosed(defs: seq<ServiceDef>, degree: map<Name, nat>, done: set<Name>, node: Name)
    requires DegreesOwed(defs, degree, done, []) && node in degree
    ensures degree[node] == 0 <==> RelationOf(defs)[node] <= done
  {
    assert DegreeOwed(defs, degree[node], done, [], node);
    OwedZero(defs, |defs|, NamesOf(defs), done, node);
    assert forall i :: 0 <= i < |defs| && defs[i].service.name == node ==>
             forall d :: d in KnownDeps(defs[i], NamesOf(defs)) ==> d in DepsOf(defs, node);
  }

  lemma PopRanks(defs: seq<ServiceDef>, degree: map<Name, nat>, rank: map<Name, nat>, node: Name)
    requires DegreesOwed(defs, degree, rank.Keys, []) && RankedInOrder(defs, rank)
    requires node in degree && degree[node] == 0 && node !in rank
    ensures RankedInOrder(defs, rank[node := |rank|])
  {
    ZeroDegreeClosed(defs, degree, rank.Keys, node);
    RankedExtends(RelationOf(defs), rank, node);
  }

  /** Popping a service: its reverse adjacency list is what has to be read next. */
  lemma DrainingPops(defs: seq<ServiceDef>, degree: map<Name, nat>, queue: seq<Name>, rank: map<Name, nat>)
    requires Draining(defs, degree, queue, rank, []) && queue != []
    ensures queue[0] in degree && queue[0] !in rank
    ensures Draining(defs, degree, queue[1..], rank[queue[0] := |rank|], DependentsOf(defs, |defs|, queue[0]))
  {
    hide RankedInOrder, DegreesOwed, ZerosQueued;
    var node, rank' := queue[0], rank[queue[0] := |rank|];
    PopDequeues(degree, queue, rank.Keys);
    assert rank'.Keys == rank.Keys + {node};
    PopOwes(defs, degree, rank.Keys, node);
    PopRanks(defs, degree, rank, node);
  }

  lemma DecrementOwes(defs: seq<ServiceDef>, degree: map<Name, nat>, done: set<Name>, pending: seq<Name>)
    requires DegreesOwed(defs, degree, done, pending) && pending != []
    ensures pending[0] in degree && degree[pending[0]] > 0
    ensures DegreesOwed(defs, degree[pending[0] := degree[pending[0]] - 1], done, pending[1..])
  {
    ElemsTail(pending);
    assert DegreeOwed(defs, degree[pending[0]], done, pending, pending[0]);
    var degree' := degree[pending[0] := degree[pending[0]] - 1];
    assert degree'.Keys == degree.Keys;
    forall n | n in degree'
      ensures DegreeOwed(defs, degree'[n], done, pending[1..], n)
    {
      assert DegreeOwed(defs, degree[n], done, pending, n);
    }
  }

  lemma DecrementQueues(degree: map<Name, nat>, queue: seq<Name>, done: set<Name>, dep: Name)
    requires ZerosQueued(degree, queue, done) && dep in degree && degree[dep] > 0
    ensures var d := degree[dep] - 1;
            ZerosQueued(degree[dep := d], if d == 0 then queue + [dep] else queue, done)
  {
    var degree' := degree[dep := degree[dep] - 1];
    assert dep !in ZeroSet(degree);
    ElemsConcat(queue, [dep]);
    if degree'[dep] == 0 {
      assert ZeroSet(degree') == ZeroSet(degree) + {dep};
    } else {
      assert ZeroSet(degree') == ZeroSet(degree);
    }
  }

  /** The decrement of the next dependent never underflows, and a service reaches zero only once. */
  lemma DrainingDecrements(defs: seq<ServiceDef>, degree: map<Name, nat>, queue: seq<Name>,
                           rank: map<Name, nat>, pending: seq<Name>)
    requires Draining(defs, degree, queue, rank, pending) && pending != []
    ensures pending[0] in degree && degree[pending[0]] > 0
    ensures var d := degree[pending[0]] - 1;
            Draining(defs, degree[pending[0] := d], if d == 0 then queue + [pending[0]] else queue, rank, pending[1..])
  {
    DecrementOwes(defs, degree, rank.Keys, pending);
    DecrementQueues(degree, queue, rank.Keys, pending[0]);
  }

  /** When the queue is empty, the services not popped all depend on one another. */
  lemma StuckIsInescapable(defs: seq<ServiceDef>, degree: map<Name, nat>, rank: map<Name, nat>)
    requires Draining(defs, degree, [], rank, [])
    ensures Inescapable(RelationOf(defs), NamesOf(defs) - rank.Keys)
  {
    var names, rel := NamesOf(defs), RelationOf(defs);
    var stuck := names - rank.Keys;
    forall n | n in stuck
      ensures DependsInside(rel, stuck, n)
    {
      ZeroDegreeClosed(defs, degree, rank.Keys, n);
      assert n !in ZeroSet(degree);
      var d :| d in rel[n] && d !in rank;
      assert d in stuck;
    }
  }

  lemma DrainedSeparates(defs: seq<ServiceDef>, degree: map<Name, nat>, rank: map<Name, nat>)
    requires Draining(defs, degree, [], rank, [])
    ensures rank.Keys == ZeroSet(degree) <= NamesOf(defs) == RelationOf(defs).Keys
    ensures forall n :: n in degree ==> (n in rank <==> !ReachesCycle(RelationOf(defs), n))
    ensures Acyclic(RelationOf(defs)) <==> rank.Keys == NamesOf(defs)
  {
    var rel := RelationOf(defs);
    assert rel.Keys == NamesOf(defs);
    StuckIsInescapable(defs, degree, rank);
    RankOrCycle(rel, rank);
  }

  lemma DrainedKeys(defs: seq<ServiceDef>, degree: map<Name, nat>, rank: map<Name, nat>)
    requires Draining(defs, degree, [], rank, [])
    ensures degree.Keys == NamesOf(defs)
  {
  }

  /** The services left with a positive degree are exactly those whose dependencies lead to a cycle. */
  lemma DrainedDegrees(defs: seq<ServiceDef>, degree: map<Name, nat>, rank: map<Name, nat>)
    requires Draining(defs, degree, [], rank, [])
    ensures forall n :: n in degree ==> (degree[n] > 0 <==> ReachesCycle(RelationOf(defs), n))
  {
    hide Draining, RelationOf, ReachesCycle, Acyclic;
    DrainedSeparates(defs, degree, rank);
    DrainedKeys(defs, degree, rank);
    assert forall n :: n in degree ==> (n in rank <==> n in ZeroSet(degree));
  }

  /** As many services were popped as there are definitions exactly when the list is buildable. */
  lemma DrainedCount(defs: seq<ServiceDef>, degree: map<Name, nat>, rank: map<Name, nat>)
    requires Draining(defs, degree, [], rank, [])
    ensures |rank| == |defs| <==> Buildable(defs)
  {
    DrainedSeparates(defs, degree, rank);
    DistinctIffAsManyNames(defs);
    SubsetCardinality(rank.Keys, NamesOf(defs));
  }

  lemma DistinctIffAsManyNames(defs: seq<ServiceDef>)
    ensures |NamesOf(defs)| <= |defs|
    ensures |NamesOf(defs)| == |defs| <==> DistinctNames(defs)
  {
    var xs := seq(|defs|, i requires 0 <= i < |defs| => defs[i].service.name);
    NoDuplicatesCardinality(xs);
    forall n
      ensures n in NamesOf(defs) <==> n in Elems(xs)
    {
      if n in NamesOf(defs) {
        var i :| 0 <= i < |defs| && defs[i].service.name == n;
        assert xs[i] == n;
      }
    }
    assert NamesOf(defs) == Elems(xs);
    assert NoDuplicates(xs) <==> DistinctNames(defs) by {
      assert forall i :: 0 <= i < |defs| ==> xs[i] == defs[i].service.name;
    }
  }
}
