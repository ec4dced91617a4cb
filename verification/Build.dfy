/** Building the graph with Kahn's algorithm (src/graph.rs), and running the same algorithm online. */
module Build {
  import opened Services
  import opened Dependency
  import opened Kahn
  import opened Layering
  import opened Graph

  /**
   The cycle test: pop services at degree zero, decrementing their dependents.
   The subtraction is unguarded, as in the source: it never underflows, whatever the input.
   */
  method Drain(ghost defs: seq<ServiceDef>, dependents: map<Name, seq<Name>>, degree: map<Name, nat>)
    returns (visited: nat, left: map<Name, nat>)
    requires Adjacency(defs, |defs|, dependents, degree)
    ensures left.Keys == NamesOf(defs)
    ensures forall n :: n in left ==> (left[n] > 0 <==> ReachesCycle(RelationOf(defs), n))
    ensures visited == |defs| <==> Buildable(defs)
  {
    hide *;
    var queue := AtZero(degree);
    visited, left := 0, degree;
    ghost var rank: map<Name, nat> := map[];
    assert Draining(defs, left, queue, rank, []) by { AdjacencyDrains(defs, dependents, degree, queue); }
    while queue != []
      invariant Draining(defs, left, queue, rank, [])
      invariant visited == |rank|
      decreases |NamesOf(defs) - rank.Keys|
    {
      var node := queue[0];
      DrainingPops(defs, left, queue, rank);
      DrainingKeys(defs, left, queue, rank, []);
      RankGrows(NamesOf(defs), rank, node);
      queue, rank, visited := queue[1..], rank[node := |rank|], visited + 1;
      AdjacencyLists(defs, dependents, degree, node);
      left, queue := Release(defs, rank, dependents[node], left, queue);
    }
    DrainingKeys(defs, left, queue, rank, []);
    DrainedDegrees(defs, left, rank);
    DrainedCount(defs, left, rank);
  }

  /** What the unguarded loop computes, on integers: nothing keeps a degree from going below zero. */
  ghost function Released(list: seq<Name>, degree: map<Name, int>, queue: seq<Name>): (map<Name, int>, seq<Name>)
    decreases |list|
  {
    if list == [] then (degree, queue)
    else
      var d := (if list[0] in degree then degree[list[0]] else 0) - 1;
      Released(list[1..], degree[list[0] := d], if d == 0 then queue + [list[0]] else queue)
  }

  lemma ReleasedStep(list: seq<Name>, i: nat, degree: map<Name, nat>, queue: seq<Name>)
    requires i < |list| && list[i] in degree && degree[list[i]] > 0
    ensures var d := degree[list[i]] - 1;
            Released(list[i..], degree, queue) ==
            Released(list[i + 1..], degree[list[i] := d], if d == 0 then queue + [list[i]] else queue)
  {
    assert list[i..][1..] == list[i + 1..];
  }

  lemma ReleasedAll(list: seq<Name>, degree: map<Name, nat>, queue: seq<Name>)
    ensures Released(list[|list|..], degree, queue) == (degree, queue)
  {
  }

  /** Decrement every dependent of a popped service and queue those that reach zero. */
  method Release(ghost defs: seq<ServiceDef>, ghost rank: map<Name, nat>, list: seq<Name>,
                 degree: map<Name, nat>, queue: seq<Name>)
    returns (left: map<Name, nat>, queue': seq<Name>)
    requires Draining(defs, degree, queue, rank, list)
    ensures Draining(defs, left, queue', rank, [])
    ensures (left, queue') == Released(list, degree, queue)
  {
    hide *;
    left, queue' := degree, queue;
    assert list[0..] == list;
    for i := 0 to |list|
      invariant Draining(defs, left, queue', rank, list[i..])
      invariant Released(list[i..], left, queue') == Released(list, degree, queue)
    {
      DrainingDecrements(defs, left, queue', rank, list[i..]);
      ReleasedStep(list, i, left, queue');
      assert list[i..][1..] == list[i + 1..];
      var dep := list[i];
      var d := left[dep] - 1;
      left := left[dep := d];
      if d == 0 {
        queue' := queue' + [dep];
      }
    }
    assert list[|list|..] == [];
    ReleasedAll(list, left, queue');
  }

  lemma AdjacencyDrains(defs: seq<ServiceDef>, dependents: map<Name, seq<Name>>, degree: map<Name, nat>, queue: seq<Name>)
    requires Adjacency(defs, |defs|, dependents, degree)
    requires NoDuplicates(queue) && Elems(queue) == ZeroSet(degree)
    ensures Draining(defs, degree, queue, map[], [])
  {
    forall n | n in degree
      ensures degree[n] == Owed(defs, |defs|, NamesOf(defs), {}, n)
    {
    }
    DrainingStarts(defs, degree, queue);
  }

  lemma AdjacencyLists(defs: seq<ServiceDef>, dependents: map<Name, seq<Name>>, degree: map<Name, nat>, m: Name)
    requires Adjacency(defs, |defs|, dependents, degree) && m in NamesOf(defs)
    ensures m in dependents && dependents[m] == DependentsOf(defs, |defs|, m)
  {
    assert dependents[m] == DependentsOf(defs, |defs|, m);
  }

  lemma DrainingKeys(defs: seq<ServiceDef>, degree: map<Name, nat>, queue: seq<Name>, rank: map<Name, nat>, pending: seq<Name>)
    requires Draining(defs, degree, queue, rank, pending)
    ensures degree.Keys == NamesOf(defs)
  {
  }

  lemma RankGrows(names: set<Name>, rank: map<Name, nat>, node: Name)
    requires node in names && node !in rank
    ensures |rank[node := |rank|]| == |rank| + 1
    ensures |names - rank[node := |rank|].Keys| < |names - rank.Keys|
  {
    var keys := rank[node := |rank|].Keys;
    assert keys == rank.Keys + {node};
    SmallerDifference(names, rank.Keys, node);
  }

  // ------------------------------------------------------------------------------------------
  // build
  // ------------------------------------------------------------------------------------------

  ghost predicate IsCatalogOf(cfg: Catalog, defs: seq<ServiceDef>) {
    cfg.Keys == NamesOf(defs) && forall i :: 0 <= i < |defs| ==> cfg[defs[i].service.name] == defs[i]
  }

  /** The names reported by a failed build. */
  ghost function CycleNodes(defs: seq<ServiceDef>): set<Name> {
    set n | n in NamesOf(defs) && ReachesCycle(RelationOf(defs), n)
  }

  /** The definition lists d under `after` or `needs`. */
  predicate ListsDep(def: ServiceDef, d: Name) {
    def.deps.Some? && (d in def.deps.value.after || d in def.deps.value.needs)
  }

  ghost predicate IsName(defs: seq<ServiceDef>, d: Name) {
    exists i :: 0 <= i < |defs| && defs[i].service.name == d
  }

  /** Names are pairwise distinct, and can be numbered so that whatever a service lists comes before it. */
  ghost predicate CanBeNumbered(defs: seq<ServiceDef>) {
    && (forall i, j :: 0 <= i < j < |defs| ==> defs[i].service.name != defs[j].service.name)
    && exists rank :: Numbers(defs, rank)
  }

  ghost predicate Numbers(defs: seq<ServiceDef>, rank: map<Name, nat>) {
    && (forall i :: 0 <= i < |defs| ==> defs[i].service.name in rank)
    && (forall i, d :: 0 <= i < |defs| && ListsDep(defs[i], d) && IsName(defs, d) ==>
          d in rank && rank[d] < rank[defs[i].service.name])
  }

  /** The graph has exactly the edges the definitions list, and counts them. */
  ghost predicate Wired(defs: seq<ServiceDef>, dependents: map<Name, seq<Name>>, degree: map<Name, nat>,
                        needs: map<Name, seq<Name>>)
  {
    && (forall d :: d in dependents <==> IsName(defs, d)) && (forall d :: d in degree <==> IsName(defs, d))
    && (forall d :: d in dependents ==> NoDuplicates(dependents[d]))
    && (forall d, n :: d in dependents && n in dependents[d] ==> IsName(defs, n))
    && (forall i :: 0 <= i < |defs| ==> WiredTo(defs[i], dependents, degree, needs))
  }

  /** A definition is listed as dependent of just what it lists, and so it is under `needs`. */
  ghost predicate WiredTo(def: ServiceDef, dependents: map<Name, seq<Name>>, degree: map<Name, nat>, needs: map<Name, seq<Name>>) {
    && (forall d :: d in dependents ==> (def.service.name in dependents[d] <==> ListsDep(def, d)))
    && def.service.name in degree
    && degree[def.service.name] == |set d | d in dependents && ListsDep(def, d)|
    && (forall d :: d in needs && def.service.name in needs[d] <==> def.deps.Some? && d in def.deps.value.needs)
  }

  lemma RelationIff(defs: seq<ServiceDef>, n: Name, d: Name)
    ensures n in RelationOf(defs) && d in RelationOf(defs)[n] <==>
            IsName(defs, d) && exists i :: 0 <= i < |defs| && defs[i].service.name == n && ListsDep(defs[i], d)
  {
    if n in RelationOf(defs) && d in RelationOf(defs)[n] {
      var i :| 0 <= i < |defs| && defs[i].service.name == n && d in KnownDeps(defs[i], NamesOf(defs));
      assert ListsDep(defs[i], d);
    }
    if i :| IsName(defs, d) && 0 <= i < |defs| && defs[i].service.name == n && ListsDep(defs[i], d) {
      assert d in KnownDeps(defs[i], NamesOf(defs));
    }
  }

  /** Buildable means just this, in terms of the fields. */
  lemma BuildableIff(defs: seq<ServiceDef>)
    ensures Buildable(defs) <==> CanBeNumbered(defs)
  {
    var rel := RelationOf(defs);
    forall n | n in rel
      ensures rel[n] <= rel.Keys
    {
    }
    AcyclicIffRanked(rel);
    hide Acyclic, RelationOf, ListsDep;
    if rank :| RankedWhole(rel, rank) {
      RankNumbers(defs, rank);
    }
    if rank :| Numbers(defs, rank) {
      NumbersRank(defs, rank);
    }
  }

  lemma RankNumbers(defs: seq<ServiceDef>, rank: map<Name, nat>)
    requires RankedWhole(RelationOf(defs), rank)
    ensures Numbers(defs, rank)
  {
    RelationNames(defs);
    forall i, d | 0 <= i < |defs| && ListsDep(defs[i], d) && IsName(defs, d)
      ensures d in rank && rank[d] < rank[defs[i].service.name]
    {
      RelationIff(defs, defs[i].service.name, d);
    }
  }

  lemma NumbersRank(defs: seq<ServiceDef>, rank: map<Name, nat>)
    requires Numbers(defs, rank)
    ensures exists whole :: RankedWhole(RelationOf(defs), whole)
  {
    var rel := RelationOf(defs);
    RelationNames(defs);
    var whole := map n | n in rank && n in rel :: rank[n];
    assert whole.Keys == rel.Keys;
    forall n, d | n in rel && d in rel[n]
      ensures d in whole && whole[d] < whole[n]
    {
      RelationIff(defs, n, d);
    }
    assert RankedWhole(rel, whole);
  }

  lemma BuiltIsWired(defs: seq<ServiceDef>, cfg: Catalog, dependents: map<Name, seq<Name>>, degree: map<Name, nat>,
                     needs: map<Name, seq<Name>>)
    requires WellBuilt(cfg, dependents, degree, needs) && IsCatalogOf(cfg, defs) && CountsUnmarked(cfg, degree, {})
    ensures Wired(defs, dependents, degree, needs)
  {
    forall d
      ensures (d in dependents <==> IsName(defs, d)) && (d in degree <==> IsName(defs, d))
      ensures d in dependents ==> NoDuplicates(dependents[d]) && forall n :: n in dependents[d] ==> IsName(defs, n)
    {
      BuiltLists(defs, cfg, dependents, degree, needs, d);
    }
    forall i | 0 <= i < |defs|
      ensures WiredTo(defs[i], dependents, degree, needs)
    {
      BuiltIsWiredTo(defs, cfg, dependents, degree, needs, i);
    }
    hide *;
    assert Wired(defs, dependents, degree, needs) by {
      WiredUp(defs, dependents, degree, needs);
    }
  }

  lemma WiredUp(defs: seq<ServiceDef>, dependents: map<Name, seq<Name>>, degree: map<Name, nat>, needs: map<Name, seq<Name>>)
    requires forall d :: (d in dependents <==> IsName(defs, d)) && (d in degree <==> IsName(defs, d))
    requires forall d :: d in dependents ==> NoDuplicates(dependents[d]) && forall n :: n in dependents[d] ==> IsName(defs, n)
    requires forall i :: 0 <= i < |defs| ==> WiredTo(defs[i], dependents, degree, needs)
    ensures Wired(defs, dependents, degree, needs)
  {
    hide IsName, WiredTo, NoDuplicates;
  }

  lemma BuiltLists(defs: seq<ServiceDef>, cfg: Catalog, dependents: map<Name, seq<Name>>, degree: map<Name, nat>,
                   needs: map<Name, seq<Name>>, d: Name)
    requires WellBuilt(cfg, dependents, degree, needs) && IsCatalogOf(cfg, defs)
    ensures (d in dependents <==> IsName(defs, d)) && (d in degree <==> IsName(defs, d))
    ensures d in dependents ==> NoDuplicates(dependents[d]) && forall n :: n in dependents[d] ==> IsName(defs, n)
  {
    hide Acyclic, DepsOn, NoDuplicates;
    assert forall n :: n in cfg <==> IsName(defs, n);
    if d in dependents {
      assert ListsDependents(cfg, d, dependents[d]);
    }
  }

  lemma BuiltIsWiredTo(defs: seq<ServiceDef>, cfg: Catalog, dependents: map<Name, seq<Name>>, degree: map<Name, nat>,
                       needs: map<Name, seq<Name>>, i: nat)
    requires WellBuilt(cfg, dependents, degree, needs) && IsCatalogOf(cfg, defs) && CountsUnmarked(cfg, degree, {})
    requires i < |defs|
    ensures WiredTo(defs[i], dependents, degree, needs)
  {
    var n := defs[i].service.name;
    assert n in cfg && cfg[n] == defs[i] && n in degree && cfg.Keys == dependents.Keys;
    DegreeWired(cfg, dependents, degree, n);
    forall d
      ensures d in dependents ==> (n in dependents[d] <==> ListsDep(cfg[n], d))
      ensures d in needs && n in needs[d] <==> cfg[n].deps.Some? && d in cfg[n].deps.value.needs
    {
      ListsWired(cfg, dependents, degree, needs, n, d);
    }
    hide WellBuilt, CountsUnmarked, IsCatalogOf, ListsDep;
  }

  lemma DegreeWired(cfg: Catalog, dependents: map<Name, seq<Name>>, degree: map<Name, nat>, n: Name)
    requires CountsUnmarked(cfg, degree, {}) && cfg.Keys == dependents.Keys && n in cfg
    ensures n in degree && degree[n] == |set d | d in dependents && ListsDep(cfg[n], d)|
  {
    assert CountAt(cfg, degree[n], {}, n);
    assert DepsOn(cfg, n) - {} == set d | d in dependents && ListsDep(cfg[n], d);
  }

  lemma ListsWired(cfg: Catalog, dependents: map<Name, seq<Name>>, degree: map<Name, nat>, needs: map<Name, seq<Name>>,
                   n: Name, d: Name)
    requires WellBuilt(cfg, dependents, degree, needs) && n in cfg
    ensures d in dependents ==> (n in dependents[d] <==> ListsDep(cfg[n], d))
    ensures d in needs && n in needs[d] <==> cfg[n].deps.Some? && d in cfg[n].deps.value.needs
  {
    hide Acyclic;
    if d in dependents {
      assert ListsDependents(cfg, d, dependents[d]);
    }
    if d in needs {
      assert n in Elems(needs[d]) <==> n in NeedsDependents(cfg, d);
    } else {
      assert n !in NeedsDependents(cfg, d);
    }
  }

  method Build(defs: seq<ServiceDef>) returns (r: Result<ServiceGraph, seq<Name>>)
    ensures r.Ok? <==> Buildable(defs)
    ensures r.Ok? <==> CanBeNumbered(defs)
    ensures r.Ok? ==> Wired(defs, r.value.dependents, r.value.inDegree, r.value.needsDependents)
    ensures r.Ok? ==> fresh(r.value) && r.value.Valid() && IsCatalogOf(r.value.services, defs)
    ensures r.Ok? ==> CountsUnmarked(r.value.services, r.value.inDegree, {})
    ensures r.Err? ==> NoDuplicates(r.error) && Elems(r.error) == CycleNodes(defs)
  {
    hide Adjacency, NeedsListed, WellBuilt, CountsUnmarked, Acyclic, RelationOf, CycleNodes, IsCatalogOf, DistinctNames;
    hide Wired, CanBeNumbered;
    BuildableIff(defs);
    var services := IndexByName(defs);
    var dependents, degree := EdgeLists(defs);
    var needs := NeedsLists(defs);
    var visited, left := Drain(defs, dependents, degree);
    if visited != |defs| {
      var nodes := Positive(left);
      CycleNodesReported(defs, left, nodes);
      r := Err(nodes);
    } else {
      BuiltIsValid(defs, services, dependents, degree, needs);
      BuiltCounts(defs, services, dependents, degree);
      BuiltIsWired(defs, services, dependents, degree, needs);
      var graph := new ServiceGraph(services, dependents, degree, needs);
      r := Ok(graph);
    }
  }

  lemma CycleNodesReported(defs: seq<ServiceDef>, left: map<Name, nat>, nodes: seq<Name>)
    requires left.Keys == NamesOf(defs)
    requires forall n :: n in left ==> (left[n] > 0 <==> ReachesCycle(RelationOf(defs), n))
    requires forall n :: n in nodes <==> n in left && left[n] > 0
    ensures Elems(nodes) == CycleNodes(defs)
  {
  }

  /** A failed build reports nothing exactly when the only fault is a repeated name. */
  lemma ReportsNothingIff(defs: seq<ServiceDef>)
    ensures !Buildable(defs) && CycleNodes(defs) == {} <==> !DistinctNames(defs) && Acyclic(RelationOf(defs))
  {
    hide Acyclic, DistinctNames, ReachesCycle;
    RelationNames(defs);
    AcyclicIffNoneReachesCycle(RelationOf(defs));
    if CycleNodes(defs) == {} {
      forall n | n in RelationOf(defs)
        ensures !ReachesCycle(RelationOf(defs), n)
      {
        assert n !in CycleNodes(defs);
      }
    }
  }

  lemma RelationNames(defs: seq<ServiceDef>)
    ensures RelationOf(defs).Keys == NamesOf(defs)
  {
  }

  /** Such as two copies of a definition without dependencies: an error about a cycle that names nobody. */
  lemma RepeatedNameReportsNothing(def: ServiceDef)
    requires def.deps.None?
    ensures !Buildable([def, def]) && CycleNodes([def, def]) == {}
  {
    var defs := [def, def];
    assert defs[0].service.name == defs[1].service.name;
    var rel, n := RelationOf(defs), def.service.name;
    assert rel[n] == {};
    var rank: map<Name, nat> := map[n := 0];
    assert RankedAbove(rel, rank, n, 0);
    RankedReachesNoCycle(rel, rank, n);
  }

  lemma AdjacencyStarts(defs: seq<ServiceDef>, dependents: map<Name, seq<Name>>, degree: map<Name, nat>)
    requires dependents.Keys == degree.Keys == NamesOf(defs)
    requires (forall m :: m in dependents ==> dependents[m] == []) && (forall n :: n in degree ==> degree[n] == 0)
    ensures Adjacency(defs, 0, dependents, degree)
  {
  }

  lemma AdjacencyKeys(defs: seq<ServiceDef>, k: nat, dependents: map<Name, seq<Name>>, degree: map<Name, nat>)
    requires k < |defs| && Adjacency(defs, k, dependents, degree)
    ensures dependents.Keys == degree.Keys == NamesOf(defs) && defs[k].service.name in degree
  {
  }

  /** Reverse adjacency and in-degrees of the whole list. */
  method EdgeLists(defs: seq<ServiceDef>) returns (dependents: map<Name, seq<Name>>, degree: map<Name, nat>)
    ensures Adjacency(defs, |defs|, dependents, degree)
  {
    hide *;
    var names := NamesOf(defs);
    dependents := EmptyLists(defs);
    degree := map n | n in names :: 0;
    AdjacencyStarts(defs, dependents, degree);
    for k := 0 to |defs|
      invariant Adjacency(defs, k, dependents, degree)
    {
      AdjacencyKeys(defs, k, dependents, degree);
      var dependents', degree' := AddEdges(names, defs[k], dependents, degree);
      AdjacencyStep(defs, k, dependents, degree, dependents', degree');
      dependents, degree := dependents', degree';
    }
  }

  /** The last definition of each name. */
  method IndexByName(defs: seq<ServiceDef>) returns (services: Catalog)
    ensures services.Keys == NamesOf(defs)
    ensures forall n :: n in services ==> services[n].service.name == n
    ensures DistinctNames(defs) ==> IsCatalogOf(services, defs)
  {
    services := map[];
    for k := 0 to |defs|
      invariant forall n :: n in services <==> exists i :: 0 <= i < k && defs[i].service.name == n
      invariant forall n :: n in services ==> services[n].service.name == n && services[n] in defs
    {
      services := services[defs[k].service.name := defs[k]];
    }
  }

  method NeedsLists(defs: seq<ServiceDef>) returns (lists: map<Name, seq<Name>>)
    ensures NeedsListed(defs, |defs|, lists)
  {
    lists := EmptyLists(defs);
    for k := 0 to |defs|
      invariant NeedsListed(defs, k, lists)
    {
      lists := AddNeeds(defs, k, lists);
    }
  }

  /** The keys with a positive value, in the arbitrary order of a hash map. */
  method Positive(degree: map<Name, nat>) returns (nodes: seq<Name>)
    ensures NoDuplicates(nodes)
    ensures forall n :: n in nodes <==> n in degree && degree[n] > 0
  {
    nodes := [];
    var rest := degree.Keys;
    while rest != {}
      invariant rest <= degree.Keys
      invariant NoDuplicates(nodes)
      invariant forall n :: n in nodes <==> n in degree && n !in rest && degree[n] > 0
      decreases rest
    {
      var n :| n in rest;
      rest := rest - {n};
      if degree[n] > 0 {
        nodes := nodes + [n];
      }
    }
  }

  lemma CatalogRelation(defs: seq<ServiceDef>, cfg: Catalog)
    requires IsCatalogOf(cfg, defs) && DistinctNames(defs)
    ensures Deps(cfg) == RelationOf(defs)
  {
    forall n | n in cfg
      ensures DepsOn(cfg, n) == DepsOf(defs, n)
    {
      var i :| 0 <= i < |defs| && defs[i].service.name == n;
      assert cfg[n] == defs[i];
      assert forall j :: 0 <= j < |defs| && defs[j].service.name == n ==> j == i;
    }
    assert Deps(cfg).Keys == RelationOf(defs).Keys;
  }

  lemma DependentsListed(defs: seq<ServiceDef>, cfg: Catalog, m: Name)
    requires IsCatalogOf(cfg, defs) && DistinctNames(defs) && m in cfg
    ensures ListsDependents(cfg, m, DependentsOf(defs, |defs|, m))
  {
    var list := DependentsOf(defs, |defs|, m);
    DependentsOfMembers(defs, |defs|, m);
    forall n
      ensures n in list <==> n in cfg && m in DepsOn(cfg, n)
    {
      if n in cfg && m in DepsOn(cfg, n) {
        var i :| 0 <= i < |defs| && defs[i].service.name == n;
        assert cfg[n] == defs[i];
      }
    }
  }

  lemma NeedersListed(defs: seq<ServiceDef>, cfg: Catalog, m: Name)
    requires IsCatalogOf(cfg, defs) && DistinctNames(defs)
    ensures ListsNeedsDependents(cfg, m, NeedersOf(defs, |defs|, m))
  {
    var list := NeedersOf(defs, |defs|, m);
    NeedersOfMembers(defs, |defs|, m);
    forall n
      ensures n in Elems(list) <==> n in NeedsDependents(cfg, m)
    {
      if n in NeedsDependents(cfg, m) {
        var i :| 0 <= i < |defs| && defs[i].service.name == n;
        assert cfg[n] == defs[i];
      }
    }
  }

  lemma BuiltIsValid(defs: seq<ServiceDef>, cfg: Catalog, dependents: map<Name, seq<Name>>, degree: map<Name, nat>,
                     needs: map<Name, seq<Name>>)
    requires Buildable(defs) && IsCatalogOf(cfg, defs)
    requires forall n :: n in cfg ==> cfg[n].service.name == n
    requires Adjacency(defs, |defs|, dependents, degree) && NeedsListed(defs, |defs|, needs)
    ensures WellBuilt(cfg, dependents, degree, needs)
  {
    CatalogRelation(defs, cfg);
    forall m | m in dependents
      ensures ListsDependents(cfg, m, dependents[m])
    {
      AdjacencyLists(defs, dependents, degree, m);
      DependentsListed(defs, cfg, m);
    }
    forall m
      ensures m in needs ==> ListsNeedsDependents(cfg, m, needs[m])
      ensures m !in needs ==> NeedsDependents(cfg, m) == {}
    {
      NeedersListed(defs, cfg, m);
      assert NeedersOf(defs, |defs|, m) == if m in needs then needs[m] else [];
    }
  }

  lemma {:induction false} OwedDistinct(defs: seq<ServiceDef>, k: nat, names: set<Name>, done: set<Name>, i: nat)
    requires k <= |defs| && i < |defs| && DistinctNames(defs)
    ensures Owed(defs, k, names, done, defs[i].service.name) == if i < k then |KnownDeps(defs[i], names) - done| else 0
  {
    if k == 0 {
    } else {
      OwedDistinct(defs, k - 1, names, done, i);
    }
  }

  lemma BuiltCounts(defs: seq<ServiceDef>, cfg: Catalog, dependents: map<Name, seq<Name>>, degree: map<Name, nat>)
    requires DistinctNames(defs) && IsCatalogOf(cfg, defs)
    requires Adjacency(defs, |defs|, dependents, degree)
    ensures CountsUnmarked(cfg, degree, {})
  {
    forall n | n in cfg
      ensures CountAt(cfg, degree[n], {}, n)
    {
      var i :| 0 <= i < |defs| && defs[i].service.name == n;
      OwedDistinct(defs, |defs|, NamesOf(defs), {}, i);
      assert degree[n] == Owed(defs, |defs|, NamesOf(defs), {}, n);
      assert cfg[n] == defs[i];
    }
  }

  // ------------------------------------------------------------------------------------------
  // The same algorithm online
  // ------------------------------------------------------------------------------------------

  /** Services whose known dependencies are all marked. */
  ghost function Eligible(cfg: Catalog, marked: set<Name>): set<Name> {
    set n | n in cfg && DepsOn(cfg, n) <= marked
  }

  lemma MarkStepAt(cfg: Catalog, degree: map<Name, nat>, marked: set<Name>, name: Name, n: Name)
    requires CountsUnmarked(cfg, degree, marked) && name !in marked && n in cfg
    ensures CountAt(cfg, Lowered(cfg, degree, name)[n], marked + {name}, n)
    ensures degree[n] == 1 && name in DepsOn(cfg, n) <==>
            DepsOn(cfg, n) <= marked + {name} && !(DepsOn(cfg, n) <= marked)
  {
    assert CountAt(cfg, degree[n], marked, n);
    SmallerDifference(DepsOn(cfg, n), marked, name);
    EmptyDifference(DepsOn(cfg, n), marked);
    EmptyDifference(DepsOn(cfg, n), marked + {name});
  }

  /** One mark of a service not marked before keeps the degrees exact. */
  lemma MarkStep(cfg: Catalog, degree: map<Name, nat>, marked: set<Name>, name: Name)
    requires CountsUnmarked(cfg, degree, marked) && name !in marked
    ensures CountsUnmarked(cfg, Lowered(cfg, degree, name), marked + {name})
  {
    forall n | n in cfg
      ensures CountAt(cfg, Lowered(cfg, degree, name)[n], marked + {name}, n)
    {
      MarkStepAt(cfg, degree, marked, name, n);
    }
  }

  /** It unlocks what has become eligible by it, and nothing else. */
  lemma MarkUnlocks(cfg: Catalog, degree: map<Name, nat>, marked: set<Name>, name: Name)
    requires CountsUnmarked(cfg, degree, marked) && name !in marked
    ensures Unlocked(cfg, degree, name) == Eligible(cfg, marked + {name}) - Eligible(cfg, marked)
  {
    forall n | n in cfg
      ensures degree[n] == 1 && name in DepsOn(cfg, n) <==>
              DepsOn(cfg, n) <= marked + {name} && !(DepsOn(cfg, n) <= marked)
    {
      MarkStepAt(cfg, degree, marked, name, n);
    }
  }

  /** Degrees after marking a sequence of services. */
  ghost function MarkAll(cfg: Catalog, degree: map<Name, nat>, names: seq<Name>): map<Name, nat> {
    if names == [] then degree
    else Lowered(cfg, MarkAll(cfg, degree, names[..|names| - 1]), names[|names| - 1])
  }

  lemma {:induction false} MarkAllCounts(cfg: Catalog, degree: map<Name, nat>, names: seq<Name>)
    requires CountsUnmarked(cfg, degree, {}) && NoDuplicates(names)
    ensures CountsUnmarked(cfg, MarkAll(cfg, degree, names), Elems(names))
    decreases |names|
  {
    hide CountsUnmarked, Lowered;
    if names == [] {
      assert Elems(names) == {};
    } else {
      var init, last := names[..|names| - 1], names[|names| - 1];
      MarkAllCounts(cfg, degree, init);
      assert names == init + [last];
      ElemsAppend(init, last);
      MarkStep(cfg, MarkAll(cfg, degree, init), Elems(init), last);
    }
  }

  /** The i-th mark returns n exactly when it marks the last unmarked dependency of n. */
  lemma MarkAllUnlocks(cfg: Catalog, degree: map<Name, nat>, names: seq<Name>, i: nat, n: Name)
    requires CountsUnmarked(cfg, degree, {}) && NoDuplicates(names) && i < |names| && n in cfg
    ensures n in Unlocked(cfg, MarkAll(cfg, degree, names[..i]), names[i]) <==>
            names[i] in DepsOn(cfg, n) && DepsOn(cfg, n) <= Elems(names[..i + 1])
  {
    MarkAllCounts(cfg, degree, names[..i]);
    assert names[..i + 1] == names[..i] + [names[i]];
    ElemsAppend(names[..i], names[i]);
    MarkStepAt(cfg, MarkAll(cfg, degree, names[..i]), Elems(names[..i]), names[i], n);
  }

  /** So no service is returned by two marks. */
  lemma UnlockedOnce(cfg: Catalog, degree: map<Name, nat>, names: seq<Name>, i: nat, j: nat, n: Name)
    requires CountsUnmarked(cfg, degree, {}) && NoDuplicates(names) && i < j < |names| && n in cfg
    requires n in Unlocked(cfg, MarkAll(cfg, degree, names[..i]), names[i])
    ensures n !in Unlocked(cfg, MarkAll(cfg, degree, names[..j]), names[j])
  {
    MarkAllUnlocks(cfg, degree, names, i, n);
    MarkAllUnlocks(cfg, degree, names, j, n);
    assert names[j] !in names[..i + 1];
  }

  // ------------------------------------------------------------------------------------------
  // Starting in the reverse of the stopping order
  // ------------------------------------------------------------------------------------------

  /** Every dependency comes before the service in the reverse of the stopping order. */
  lemma ReverseStopOrderSorted(cfg: Catalog, i: nat)
    requires Acyclic(Deps(cfg)) && i < |StopOrder(Deps(cfg), cfg.Keys)|
    ensures var start := Backwards(StopOrder(Deps(cfg), cfg.Keys));
            start[i] in cfg && DepsOn(cfg, start[i]) <= Elems(start[..i])
  {
    hide StopOrder, Acyclic, DepsOn, Deps, NoDuplicates;
    var order := StopOrder(Deps(cfg), cfg.Keys);
    var start, j := Backwards(order), |order| - 1 - i;
    StopsEachOnce(Deps(cfg), cfg.Keys);
    assert start[i] == order[j] && order[j] in Elems(order);
    forall d | d in DepsOn(cfg, start[i])
      ensures d in Elems(start[..i])
    {
      DependencyStopsLater(cfg, j, d);
      var k :| j < k < |order| && order[k] == d;
      assert start[..i][|order| - 1 - k] == d;
    }
  }

  lemma ReverseNoDuplicates(xs: seq<Name>)
    requires NoDuplicates(xs)
    ensures NoDuplicates(Backwards(xs))
  {
  }

  /** Marking all services in the reverse of the stopping order meets each one at degree zero. */
  lemma ReverseStopOrderStarts(cfg: Catalog, degree: map<Name, nat>, i: nat)
    requires Acyclic(Deps(cfg)) && CountsUnmarked(cfg, degree, {}) && i < |StopOrder(Deps(cfg), cfg.Keys)|
    ensures var start := Backwards(StopOrder(Deps(cfg), cfg.Keys));
            start[i] in MarkAll(cfg, degree, start[..i]) && MarkAll(cfg, degree, start[..i])[start[i]] == 0
  {
    hide StopOrder, Acyclic, DepsOn, Deps, MarkAll;
    var start := Backwards(StopOrder(Deps(cfg), cfg.Keys));
    ReverseStopOrderSorted(cfg, i);
    StopsEachOnce(Deps(cfg), cfg.Keys);
    ReverseNoDuplicates(StopOrder(Deps(cfg), cfg.Keys));
    MarkAllCounts(cfg, degree, start[..i]);
    assert CountAt(cfg, MarkAll(cfg, degree, start[..i])[start[i]], Elems(start[..i]), start[i]);
    EmptyDifference(DepsOn(cfg, start[i]), Elems(start[..i]));
  }

  lemma DependencyStopsLater(cfg: Catalog, j: nat, d: Name)
    requires Acyclic(Deps(cfg))
    requires j < |StopOrder(Deps(cfg), cfg.Keys)|
    requires StopOrder(Deps(cfg), cfg.Keys)[j] in cfg && d in DepsOn(cfg, StopOrder(Deps(cfg), cfg.Keys)[j])
    ensures exists k :: j < k < |StopOrder(Deps(cfg), cfg.Keys)| && StopOrder(Deps(cfg), cfg.Keys)[k] == d
  {
    var order := StopOrder(Deps(cfg), cfg.Keys);
    StopsEachOnce(Deps(cfg), cfg.Keys);
    assert d in Elems(order);
    var k :| 0 <= k < |order| && order[k] == d;
    DependentsStopFirst(Deps(cfg), cfg.Keys, k, j);
  }
}
