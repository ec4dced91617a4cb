/**
 The dependency relation between services and what a cycle in it is.

 A relation maps each service to the services it directly depends on. A chain follows the relation
 from a service to a dependency, to a dependency of that one, and so on.
 */
module Dependency {
  import opened Services

  type Relation = map<Name, set<Name>>

  ghost predicate IsChain(rel: Relation, p: seq<Name>) {
    && |p| >= 1
    && (forall i :: 0 <= i < |p| ==> p[i] in rel)
    && (forall i :: 0 <= i < |p| - 1 ==> p[i + 1] in rel[p[i]])
  }

  ghost predicate ChainBetween(rel: Relation, p: seq<Name>, a: Name, b: Name) {
    IsChain(rel, p) && p[0] == a && p[|p| - 1] == b
  }

  /** b is a itself, or a dependency of a, direct or not. */
  ghost predicate Reaches(rel: Relation, a: Name, b: Name) {
    exists p :: ChainBetween(rel, p, a, b)
  }

  /** A chain of at least one step leads from c back to c. */
  ghost predicate OnCycle(rel: Relation, c: Name) {
    exists p :: ChainBetween(rel, p, c, c) && |p| >= 2
  }

  ghost predicate ReachesCycle(rel: Relation, n: Name) {
    exists c :: Reaches(rel, n, c) && OnCycle(rel, c)
  }

  ghost predicate Acyclic(rel: Relation) {
    forall c :: !OnCycle(rel, c)
  }

  /** b is reached from a by one step or more. */
  ghost predicate ReachesStrictly(rel: Relation, a: Name, b: Name) {
    exists p :: ChainBetween(rel, p, a, b) && |p| >= 2
  }

  lemma ReachesStep(rel: Relation, a: Name, d: Name, b: Name)
    requires a in rel && d in rel[a] && Reaches(rel, d, b)
    ensures ReachesStrictly(rel, a, b)
  {
    var p :| ChainBetween(rel, p, d, b);
    var q := [a] + p;
    assert forall i :: 0 < i < |q| ==> q[i] == p[i - 1];
    assert ChainBetween(rel, q, a, b) && |q| >= 2;
  }

  // ------------------------------------------------------------------------------------------
  // Every member of u depends on a member of u: then every member of u reaches a cycle.
  // ------------------------------------------------------------------------------------------

  ghost predicate DependsInside(rel: Relation, u: set<Name>, n: Name) {
    n in rel && exists d :: d in rel[n] && d in u
  }

  ghost predicate Inescapable(rel: Relation, u: set<Name>) {
    forall n {:trigger DependsInside(rel, u, n)} :: n in u ==> DependsInside(rel, u, n)
  }

  /** Walking inside u must repeat a service; the repetition closes a cycle. */
  lemma {:induction false} WalkFindsCycle(rel: Relation, u: set<Name>, p: seq<Name>, unseen: set<Name>)
    requires Inescapable(rel, u)
    requires IsChain(rel, p) && Elems(p) <= u && unseen == u - Elems(p)
    ensures ReachesCycle(rel, p[0])
    decreases unseen
  {
    var last := p[|p| - 1];
    assert last in Elems(p);
    assert DependsInside(rel, u, last);
    var d :| d in rel[last] && d in u;
    var q := p + [d];
    assert DependsInside(rel, u, d);
    assert IsChain(rel, q);
    if d in p {
      var i :| 0 <= i < |p| && p[i] == d;
      var loop := q[i..];
      assert ChainBetween(rel, loop, d, d) && |loop| >= 2;
      assert ChainBetween(rel, p[..i + 1], p[0], d);
      assert Reaches(rel, p[0], d) && OnCycle(rel, d);
    } else {
      ElemsAppend(p, d);
      WalkFindsCycle(rel, u, q, unseen - {d});
    }
  }

  lemma InescapableReachesCycle(rel: Relation, u: set<Name>, n: Name)
    requires Inescapable(rel, u) && n in u
    ensures ReachesCycle(rel, n)
  {
    assert Elems([n]) == {n};
    assert DependsInside(rel, u, n);
    WalkFindsCycle(rel, u, [n], u - {n});
  }

  /** So a non-empty set of services of an acyclic relation has one with no dependency inside it. */
  lemma AcyclicEscapes(rel: Relation, u: set<Name>) returns (n: Name)
    requires Acyclic(rel) && u != {} && u <= rel.Keys
    ensures n in u && rel[n] !! u
  {
    if Inescapable(rel, u) {
      var m :| m in u;
      InescapableReachesCycle(rel, u, m);
      assert false;
    }
    n :| n in u && !DependsInside(rel, u, n);
  }

  // ------------------------------------------------------------------------------------------
  // A set closed under dependencies and ranked along them reaches no cycle.
  // ------------------------------------------------------------------------------------------

  ghost predicate RankedAbove(rel: Relation, rank: map<Name, nat>, n: Name, r: nat) {
    n in rel && forall d :: d in rel[n] ==> d in rank && rank[d] < r
  }

  ghost predicate Ranked(rel: Relation, rank: map<Name, nat>) {
    forall n {:trigger RankedAbove(rel, rank, n, rank[n])} :: n in rank ==> RankedAbove(rel, rank, n, rank[n])
  }

  lemma {:induction false} ChainDescends(rel: Relation, rank: map<Name, nat>, p: seq<Name>, i: nat)
    requires Ranked(rel, rank) && IsChain(rel, p) && p[0] in rank && i < |p|
    ensures p[i] in rank && rank[p[i]] + i <= rank[p[0]]
    decreases i
  {
    if i == 0 {
    } else {
      ChainDescends(rel, rank, p, i - 1);
      assert RankedAbove(rel, rank, p[i - 1], rank[p[i - 1]]);
    }
  }

  lemma RankedReachesNoCycle(rel: Relation, rank: map<Name, nat>, n: Name)
    requires Ranked(rel, rank) && n in rank
    ensures !ReachesCycle(rel, n)
  {
    forall c | Reaches(rel, n, c) && OnCycle(rel, c)
      ensures false
    {
      var p :| ChainBetween(rel, p, n, c);
      ChainDescends(rel, rank, p, |p| - 1);
      var q :| ChainBetween(rel, q, c, c) && |q| >= 2;
      ChainDescends(rel, rank, q, |q| - 1);
    }
  }

  /** A service on a cycle reaches one; so a relation is acyclic when none of its services does. */
  lemma AcyclicIffNoneReachesCycle(rel: Relation)
    ensures Acyclic(rel) <==> forall n :: n in rel ==> !ReachesCycle(rel, n)
  {
    forall c | OnCycle(rel, c)
      ensures c in rel && ReachesCycle(rel, c)
    {
      var q :| ChainBetween(rel, q, c, c) && |q| >= 2;
      assert Reaches(rel, c, c);
    }
  }

  /** Numbering one more service, whose dependencies are all numbered already. */
  lemma RankedExtends(rel: Relation, rank: map<Name, nat>, node: Name)
    requires Ranked(rel, rank) && (forall n :: n in rank ==> rank[n] < |rank|)
    requires node in rel && rel[node] <= rank.Keys && node !in rank
    ensures var rank' := rank[node := |rank|];
            && Ranked(rel, rank')
            && (forall n :: n in rank' ==> rank'[n] < |rank'|)
            && |rank'| == |rank| + 1
            && rank'.Keys == rank.Keys + {node}
  {
    var rank' := rank[node := |rank|];
    assert rank'.Keys == rank.Keys + {node};
    forall n | n in rank'
      ensures RankedAbove(rel, rank', n, rank'[n])
    {
      assert n != node ==> RankedAbove(rel, rank, n, rank[n]);
    }
  }

  /** A ranked part and an inescapable rest separate the services that reach a cycle from the others. */
  lemma RankOrCycle(rel: Relation, rank: map<Name, nat>)
    requires rank.Keys <= rel.Keys
    requires Ranked(rel, rank) && Inescapable(rel, rel.Keys - rank.Keys)
    ensures forall n :: n in rel ==> (n in rank <==> !ReachesCycle(rel, n))
    ensures Acyclic(rel) <==> rank.Keys == rel.Keys
  {
    forall n | n in rel
      ensures n in rank <==> !ReachesCycle(rel, n)
    {
      if n in rank {
        RankedReachesNoCycle(rel, rank, n);
      } else {
        InescapableReachesCycle(rel, rel.Keys - rank.Keys, n);
      }
    }
    AcyclicIffNoneReachesCycle(rel);
  }

  ghost predicate RankedWhole(rel: Relation, rank: map<Name, nat>) {
    rank.Keys == rel.Keys && forall n, d :: n in rel && d in rel[n] ==> d in rank && rank[d] < rank[n]
  }

  /** Numbering whatever is left, one service after another. */
  lemma {:induction false} RankTheRest(rel: Relation, rank: map<Name, nat>, rest: set<Name>) returns (whole: map<Name, nat>)
    requires Acyclic(rel) && Ranked(rel, rank) && (forall n :: n in rank ==> rank[n] < |rank|)
    requires rest == rel.Keys - rank.Keys && rank.Keys <= rel.Keys && forall n :: n in rel ==> rel[n] <= rel.Keys
    ensures whole.Keys == rel.Keys && Ranked(rel, whole)
    decreases rest
  {
    hide Ranked, Acyclic;
    if rest == {} {
      whole := rank;
    } else {
      var n := AcyclicEscapes(rel, rest);
      RankedExtends(rel, rank, n);
      whole := RankTheRest(rel, rank[n := |rank|], rest - {n});
    }
  }

  /** A relation is acyclic exactly if its services can be numbered above what they depend on. */
  lemma AcyclicIffRanked(rel: Relation)
    requires forall n :: n in rel ==> rel[n] <= rel.Keys
    ensures Acyclic(rel) <==> exists rank :: RankedWhole(rel, rank)
  {
    if Acyclic(rel) {
      var none: map<Name, nat> := map[];
      assert none.Keys == {};
      var rank := RankTheRest(rel, none, rel.Keys);
      forall n, d | n in rel && d in rel[n]
        ensures d in rank && rank[d] < rank[n]
      {
        assert RankedAbove(rel, rank, n, rank[n]);
      }
      assert RankedWhole(rel, rank);
    }
    if rank :| RankedWhole(rel, rank) {
      forall n | n in rank
        ensures RankedAbove(rel, rank, n, rank[n])
      {
      }
      forall n | n in rel
        ensures !ReachesCycle(rel, n)
      {
        RankedReachesNoCycle(rel, rank, n);
      }
      AcyclicIffNoneReachesCycle(rel);
    }
  }

  // ------------------------------------------------------------------------------------------
  // The relation turned round, restricted to a set of running services.
  // ------------------------------------------------------------------------------------------

  /** The members of `running` that directly depend on s. */
  ghost function RunningDependents(rel: Relation, running: set<Name>, s: Name): set<Name> {
    set t | t in running && t in rel && s in rel[t]
  }

  ghost function Reversed(rel: Relation, running: set<Name>): Relation {
    map s | s in running :: RunningDependents(rel, running, s)
  }

  ghost function Backwards(p: seq<Name>): seq<Name> {
    seq(|p|, i requires 0 <= i < |p| => p[|p| - 1 - i])
  }

  lemma ReversedCycle(rel: Relation, running: set<Name>, c: Name)
    requires OnCycle(Reversed(rel, running), c)
    ensures OnCycle(rel, c)
  {
    var rev := Reversed(rel, running);
    var p :| ChainBetween(rev, p, c, c) && |p| >= 2;
    var q := Backwards(p);
    forall i | 0 <= i < |q| - 1
      ensures q[i] in rel && q[i + 1] in rel[q[i]]
    {
      var j := |p| - 2 - i;
      assert p[j + 1] in rev[p[j]];
      assert q[i] == p[j + 1] && q[i + 1] == p[j];
    }
    assert q[0] == c == q[|q| - 1];
    assert ChainBetween(rel, q, c, c) && |q| >= 2;
  }

  lemma ReversedAcyclic(rel: Relation, running: set<Name>)
    requires Acyclic(rel)
    ensures Acyclic(Reversed(rel, running))
  {
    forall c | OnCycle(Reversed(rel, running), c)
      ensures OnCycle(rel, c)
    {
      ReversedCycle(rel, running, c);
    }
  }
}
