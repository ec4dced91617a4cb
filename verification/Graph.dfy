/** The dependency graph object (src/graph.rs). */
module Graph {
  import opened Services
  import opened Ordering
  import opened Dependency
  import opened Kahn
  import opened Layering

  /** The services a definition list turns into: what a built graph keeps. */
  type Catalog = map<Name, ServiceDef>

  /** Known dependencies inside a catalog. */
  ghost function DepsOn(cfg: Catalog, n: Name): set<Name>
    requires n in cfg
  {
    KnownDeps(cfg[n], cfg.Keys)
  }

  ghost function Deps(cfg: Catalog): Relation {
    map n | n in cfg :: DepsOn(cfg, n)
  }

  /** n lists d under `after` or `needs`, and both are services. */
  ghost predicate DependsDirectly(cfg: Catalog, n: Name, d: Name) {
    && n in cfg && d in cfg && cfg[n].deps.Some?
    && (d in cfg[n].deps.value.after || d in cfg[n].deps.value.needs)
  }

  lemma DependsIff(cfg: Catalog, n: Name, d: Name)
    ensures n in cfg && d in DepsOn(cfg, n) <==> DependsDirectly(cfg, n, d)
  {
  }

  /** Services that list m under `needs`. */
  ghost function NeedsDependents(cfg: Catalog, m: Name): set<Name> {
    set n | n in cfg && m in NeedsOf(cfg[n])
  }

  /** Every service has as its degree the number of its dependencies outside `marked`. */
  ghost predicate CountsUnmarked(cfg: Catalog, degree: map<Name, nat>, marked: set<Name>) {
    && degree.Keys == cfg.Keys
    && forall n {:trigger CountAt(cfg, degree[n], marked, n)} :: n in cfg ==> CountAt(cfg, degree[n], marked, n)
  }

  ghost predicate CountAt(cfg: Catalog, degree: nat, marked: set<Name>, n: Name)
    requires n in cfg
  {
    degree == |DepsOn(cfg, n) - marked|
  }

  /** Degrees after one service is marked: every positive degree of a dependent drops by one. */
  ghost function Lowered(cfg: Catalog, degree: map<Name, nat>, name: Name): map<Name, nat> {
    map n | n in degree :: if n in cfg && name in DepsOn(cfg, n) && degree[n] > 0 then degree[n] - 1 else degree[n]
  }

  /** The dependents that one mark takes from degree one to zero. */
  ghost function Unlocked(cfg: Catalog, degree: map<Name, nat>, name: Name): set<Name> {
    set n | n in degree && n in cfg && name in DepsOn(cfg, n) && degree[n] == 1
  }

  ghost predicate ListsDependents(cfg: Catalog, m: Name, xs: seq<Name>) {
    NoDuplicates(xs) && forall n :: n in xs <==> n in cfg && m in DepsOn(cfg, n)
  }

  ghost predicate ListsNeedsDependents(cfg: Catalog, m: Name, xs: seq<Name>) {
    NoDuplicates(xs) && Elems(xs) == NeedsDependents(cfg, m)
  }

  /** The invariant of the graph object, on its four maps. */
  ghost predicate WellBuilt(services: Catalog, dependents: map<Name, seq<Name>>, degree: map<Name, nat>,
                            needs: map<Name, seq<Name>>)
  {
    && Acyclic(Deps(services))
    && (forall n :: n in services ==> services[n].service.name == n)
    && dependents.Keys == degree.Keys == services.Keys
    && services.Keys <= needs.Keys
    && (forall m {:trigger dependents[m]} :: m in dependents ==> ListsDependents(services, m, dependents[m]))
    && (forall m :: m in needs ==> ListsNeedsDependents(services, m, needs[m]))
    && (forall m :: m !in needs ==> NeedsDependents(services, m) == {})
  }

  lemma MarkFields(cfg: Catalog, degree: map<Name, nat>, name: Name)
    ensures forall n :: n in Unlocked(cfg, degree, name) <==> n in degree && degree[n] == 1 && DependsDirectly(cfg, n, name)
    ensures Lowered(cfg, degree, name).Keys == degree.Keys
    ensures forall n :: n in degree ==>
              Lowered(cfg, degree, name)[n] == degree[n] - if degree[n] > 0 && DependsDirectly(cfg, n, name) then 1 else 0
  {
    hide DependsDirectly, DepsOn;
    forall n
      ensures n in cfg && name in DepsOn(cfg, n) <==> DependsDirectly(cfg, n, name)
    {
      DependsIff(cfg, n, name);
    }
  }

  class ServiceGraph {
    var services: Catalog
    var dependents: map<Name, seq<Name>>
    var inDegree: map<Name, nat>
    var needsDependents: map<Name, seq<Name>>

    /** What `build` establishes and nothing changes. */
    ghost predicate Valid()
      reads this
    {
      WellBuilt(services, dependents, inDegree, needsDependents)
    }

    constructor (services: Catalog, dependents: map<Name, seq<Name>>, inDegree: map<Name, nat>,
                 needsDependents: map<Name, seq<Name>>)
      ensures this.services == services && this.dependents == dependents
      ensures this.inDegree == inDegree && this.needsDependents == needsDependents
    {
      this.services, this.dependents, this.inDegree, this.needsDependents :=
        services, dependents, inDegree, needsDependents;
    }

    /** Services at degree zero, sorted: start these first. */
    method InitiallyReady() returns (ready: seq<Name>)
      ensures ready == Listing(ZeroSet(inDegree))
      ensures Ascending(ready) && NoDuplicates(ready)
      ensures forall n :: n in ready <==> n in inDegree && inDegree[n] == 0
    {
      ListingAscends(ZeroSet(inDegree));
      ready := AtZero(inDegree);
      SortIsListing(ready);
      ready := Sort(ready);
    }

    /** Mark a service ready, returning the services this unlocks, sorted. Any name may be given. */
    method MarkReady(name: Name) returns (newly: seq<Name>)
      requires Valid()
      modifies this`inDegree
      ensures Valid()
      ensures inDegree == Lowered(services, old(inDegree), name)
      ensures newly == Listing(Unlocked(services, old(inDegree), name))
      ensures Ascending(newly) && NoDuplicates(newly)
      ensures forall n :: n in newly <==> n in old(inDegree) && old(inDegree)[n] == 1 && DependsDirectly(services, n, name)
      ensures inDegree.Keys == old(inDegree).Keys
      ensures forall n :: n in inDegree ==>
                inDegree[n] == old(inDegree)[n] - if old(inDegree)[n] > 0 && DependsDirectly(services, n, name) then 1 else 0
    {
      hide DependsDirectly, Lowered, Unlocked, Ascending, DepsOn, Precedes, IsSorted;
      MarkFields(services, inDegree, name);
      ListingAscends(Unlocked(services, inDegree, name));
      newly := [];
      ghost var before := inDegree;
      if name in dependents {
        inDegree, newly := LowerEach(dependents[name], inDegree);
        LowersListed(services, name, dependents[name], before, inDegree);
      } else {
        LowersNothing(services, name, before);
      }
      assert Elems(newly) == Unlocked(services, before, name);
      SortIsListing(newly);
      newly := Sort(newly);
    }

    /** Running services in the order to stop them: dependents first. Any set of names may be given. */
    method ShutdownOrder(running: set<Name>) returns (order: seq<Name>)
      requires Valid()
      ensures order == StopOrder(Deps(services), running)
      ensures forall i, j, k :: 0 <= i < j < |order| && 0 <= k < |Layers(Deps(services), running)|
                && order[i] in Layers(Deps(services), running)[k] && order[j] in Layers(Deps(services), running)[k]
                ==> Precedes(order[i], order[j])
    {
      BatchesAscend(Deps(services), running);
      order := PeelOff(services, dependents, running);
    }

    method Len() returns (n: nat)
      ensures n == |services|
    {
      n := |services|;
    }

    method DependentsByNeed(name: Name) returns (list: seq<Name>)
      requires Valid()
      ensures ListsNeedsDependents(services, name, list)
    {
      list := if name in needsDependents then needsDependents[name] else [];
    }
  }

  // ------------------------------------------------------------------------------------------
  // Counting running dependents for the shutdown order
  // ------------------------------------------------------------------------------------------

  ghost predicate ListsAllDependents(cfg: Catalog, lists: map<Name, seq<Name>>) {
    && lists.Keys == cfg.Keys
    && forall m {:trigger lists[m]} :: m in lists ==> ListsDependents(cfg, m, lists[m])
  }

  ghost predicate CountsRunning(rel: Relation, running: set<Name>, count: map<Name, nat>) {
    && running <= count.Keys
    && forall s {:trigger count[s]} :: s in running ==> count[s] == |RunningDependents(rel, running, s)|
  }

  lemma CountsNone(rel: Relation, count: map<Name, nat>)
    ensures CountsRunning(rel, {}, count)
  {
  }

  lemma ListedRunning(cfg: Catalog, running: set<Name>, m: Name, list: seq<Name>)
    requires ListsDependents(cfg, m, list)
    ensures RunningDependents(Deps(cfg), running, m) == Elems(list) * running
  {
  }

  lemma NoneRunning(cfg: Catalog, running: set<Name>, s: Name)
    requires s !in cfg
    ensures RunningDependents(Deps(cfg), running, s) == {}
  {
  }

  lemma OneFewerRunning(rel: Relation, running: set<Name>, leaf: Name, s: Name)
    requires leaf !in running
    ensures |RunningDependents(rel, running + {leaf}, s)|
         == |RunningDependents(rel, running, s)| + if leaf in rel && s in rel[leaf] then 1 else 0
  {
    if leaf in rel && s in rel[leaf] {
      assert RunningDependents(rel, running + {leaf}, s) == RunningDependents(rel, running, s) + {leaf};
    } else {
      assert RunningDependents(rel, running + {leaf}, s) == RunningDependents(rel, running, s);
    }
  }

  lemma CountOneMore(list: seq<Name>, i: nat, running: set<Name>)
    requires NoDuplicates(list) && i < |list|
    ensures |Elems(list[..i + 1]) * running| == |Elems(list[..i]) * running| + if list[i] in running then 1 else 0
  {
    assert list[..i + 1] == list[..i] + [list[i]];
    ElemsAppend(list[..i], list[i]);
    assert list[i] !in Elems(list[..i]);
    if list[i] in running {
      assert Elems(list[..i + 1]) * running == Elems(list[..i]) * running + {list[i]};
    } else {
      assert Elems(list[..i + 1]) * running == Elems(list[..i]) * running;
    }
  }

  method CountIn(list: seq<Name>, running: set<Name>) returns (c: nat)
    requires NoDuplicates(list)
    ensures c == |Elems(list) * running|
  {
    c := 0;
    assert Elems(list[..0]) * running == {};
    for i := 0 to |list|
      invariant c == |Elems(list[..i]) * running|
    {
      CountOneMore(list, i, running);
      if list[i] in running {
        c := c + 1;
      }
    }
    assert list[..|list|] == list;
  }

  /** How many running services depend on each; the adjacency map is visited in arbitrary order. */
  method CountDependents(ghost cfg: Catalog, lists: map<Name, seq<Name>>, running: set<Name>)
    returns (count: map<Name, nat>)
    requires ListsAllDependents(cfg, lists)
    ensures CountsRunning(Deps(cfg), running, count)
  {
    hide Deps, RunningDependents;
    count := map s | s in running :: 0;
    var rest := lists.Keys;
    forall s | s in running && s !in rest
      ensures count[s] == |RunningDependents(Deps(cfg), running, s)|
    {
      NoneRunning(cfg, running, s);
    }
    while rest != {}
      invariant rest <= lists.Keys && count.Keys == running
      invariant forall s :: s in running && s in rest ==> count[s] == 0
      invariant forall s {:trigger count[s]} :: s in running && s !in rest ==>
                  count[s] == |RunningDependents(Deps(cfg), running, s)|
      decreases rest
    {
      var dep :| dep in rest;
      rest := rest - {dep};
      if dep in running {
        var c := CountIn(lists[dep], running);
        ListedRunning(cfg, running, dep, lists[dep]);
        count := count[dep := count[dep] + c];
      }
    }
  }

  /** The members of a set, sorted; collected in arbitrary order first. */
  method InOrder(s: set<Name>) returns (xs: seq<Name>)
    ensures xs == Listing(s)
  {
    xs := [];
    var rest := s;
    while rest != {}
      invariant rest <= s && NoDuplicates(xs) && Elems(xs) == s - rest
      decreases rest
    {
      var x :| x in rest;
      rest := rest - {x};
      ElemsConcat(xs, [x]);
      xs := xs + [x];
    }
    assert Elems(xs) == s;
    SortIsListing(xs);
    xs := Sort(xs);
  }

  method LeavesOf(ghost rel: Relation, remaining: set<Name>, count: map<Name, nat>) returns (leaves: seq<Name>)
    requires CountsRunning(rel, remaining, count)
    ensures leaves == Listing(Leaves(rel, remaining))
  {
    var zero := set s | s in remaining && count[s] == 0;
    assert zero == Leaves(rel, remaining);
    leaves := InOrder(zero);
  }

  /** Take one leaf away: decrement the count of what it depended on. */
  method DropLeaf(ghost cfg: Catalog, lists: map<Name, seq<Name>>, remaining: set<Name>, leaf: Name, count: map<Name, nat>)
    returns (count': map<Name, nat>)
    requires ListsAllDependents(cfg, lists) && leaf !in remaining
    requires CountsRunning(Deps(cfg), remaining + {leaf}, count)
    ensures CountsRunning(Deps(cfg), remaining, count')
  {
    hide RunningDependents;
    count' := count;
    ghost var rel := Deps(cfg);
    var rest := lists.Keys;
    forall s | s in remaining && s !in rest
      ensures count[s] == |RunningDependents(rel, remaining, s)|
    {
      NoneRunning(cfg, remaining, s);
      NoneRunning(cfg, remaining + {leaf}, s);
    }
    while rest != {}
      invariant rest <= lists.Keys && count'.Keys == count.Keys
      invariant forall s {:trigger count'[s]} :: s in remaining && s in rest ==> count'[s] == count[s]
      invariant forall s {:trigger count'[s]} :: s in remaining && s !in rest ==>
                  count'[s] == |RunningDependents(rel, remaining, s)|
      decreases rest
    {
      var dep :| dep in rest;
      rest := rest - {dep};
      OneFewerRunning(rel, remaining, leaf, dep);
      if dep in remaining && leaf in lists[dep] {
        var c := count'[dep];
        if c > 0 {
          count' := count'[dep := c - 1];
        }
      }
    }
  }

  method DropLeaves(ghost cfg: Catalog, lists: map<Name, seq<Name>>, remaining: set<Name>, leaves: seq<Name>,
                    count: map<Name, nat>)
    returns (remaining': set<Name>, count': map<Name, nat>)
    requires ListsAllDependents(cfg, lists)
    requires NoDuplicates(leaves) && Elems(leaves) <= remaining
    requires CountsRunning(Deps(cfg), remaining, count)
    ensures remaining' == remaining - Elems(leaves)
    ensures CountsRunning(Deps(cfg), remaining', count')
  {
    hide CountsRunning, ListsAllDependents, Deps;
    remaining', count' := remaining, count;
    for i := 0 to |leaves|
      invariant remaining' == remaining - Elems(leaves[..i])
      invariant CountsRunning(Deps(cfg), remaining', count')
    {
      var leaf := leaves[i];
      assert leaves[..i + 1] == leaves[..i] + [leaf];
      ElemsAppend(leaves[..i], leaf);
      assert leaf in Elems(leaves) && leaf !in Elems(leaves[..i]);
      assert remaining' == (remaining' - {leaf}) + {leaf};
      remaining' := remaining' - {leaf};
      count' := DropLeaf(cfg, lists, remaining', leaf, count');
    }
    assert leaves[..|leaves|] == leaves;
  }

  /** The body of `shutdown_order`. */
  method PeelOff(ghost cfg: Catalog, lists: map<Name, seq<Name>>, running: set<Name>) returns (order: seq<Name>)
    requires ListsAllDependents(cfg, lists)
    ensures order == StopOrder(Deps(cfg), running)
  {
    hide *;
    ghost var rel := Deps(cfg);
    var depCount := CountDependents(cfg, lists, running);
    var remaining := running;
    order := [];
    while remaining != {}
      invariant order + StopOrder(rel, remaining) == StopOrder(rel, running)
      invariant CountsRunning(rel, remaining, depCount)
      decreases remaining
    {
      var leaves := LeavesOf(rel, remaining, depCount);
      StopOrderUnfolds(rel, remaining);
      ListingElems(Leaves(rel, remaining));
      LeavesRun(rel, remaining);
      if leaves == [] {
        var rest := InOrder(remaining);
        order := order + rest;
        remaining := {};
        StopOrderEmpty(rel);
        CountsNone(rel, depCount);
        break;
      }
      ElemsHead(leaves);
      remaining, depCount := DropLeaves(cfg, lists, remaining, leaves, depCount);
      order := order + leaves;
    }
    StopOrderEmpty(rel);
  }

  // ------------------------------------------------------------------------------------------
  // Marking and building
  // ------------------------------------------------------------------------------------------

  ghost predicate LoweredOn(seen: set<Name>, before: map<Name, nat>, now: map<Name, nat>) {
    && now.Keys == before.Keys
    && forall n :: n in before ==> now[n] == if n in seen && before[n] > 0 then before[n] - 1 else before[n]
  }

  ghost function AtOne(seen: set<Name>, before: map<Name, nat>): set<Name> {
    set n | n in seen && n in before && before[n] == 1
  }

  lemma LowersListed(cfg: Catalog, name: Name, list: seq<Name>, before: map<Name, nat>, now: map<Name, nat>)
    requires ListsDependents(cfg, name, list) && before.Keys == cfg.Keys
    requires LoweredOn(Elems(list), before, now)
    ensures now == Lowered(cfg, before, name)
    ensures AtOne(Elems(list), before) == Unlocked(cfg, before, name)
  {
  }

  lemma LowersNothing(cfg: Catalog, name: Name, before: map<Name, nat>)
    requires name !in cfg && before.Keys == cfg.Keys
    ensures before == Lowered(cfg, before, name)
    ensures Unlocked(cfg, before, name) == {}
  {
  }

  /** Decrement, where positive, the degree of each listed service; collect those that reach zero. */
  method LowerEach(deps: seq<Name>, degree: map<Name, nat>) returns (degree': map<Name, nat>, newly: seq<Name>)
    requires NoDuplicates(deps) && Elems(deps) <= degree.Keys
    ensures LoweredOn(Elems(deps), degree, degree')
    ensures NoDuplicates(newly) && Elems(newly) == AtOne(Elems(deps), degree)
  {
    degree', newly := degree, [];
    ghost var seen: set<Name> := {};
    for i := 0 to |deps|
      invariant seen == Elems(deps[..i])
      invariant LoweredOn(seen, degree, degree')
      invariant NoDuplicates(newly) && Elems(newly) == AtOne(seen, degree)
    {
      var dep := deps[i];
      assert deps[..i + 1] == deps[..i] + [dep];
      ElemsAppend(deps[..i], dep);
      ElemsConcat(newly, [dep]);
      assert dep in Elems(deps) && dep !in seen;
      var d := degree'[dep];
      if d > 0 {
        degree' := degree'[dep := d - 1];
        if d - 1 == 0 {
          newly := newly + [dep];
        }
      }
      assert AtOne(seen + {dep}, degree) == AtOne(seen, degree) + if degree[dep] == 1 then {dep} else {};
      seen := seen + {dep};
    }
    assert deps[..|deps|] == deps;
  }

  /** The keys with value zero, in the arbitrary order of a hash map. */
  method AtZero(degree: map<Name, nat>) returns (zero: seq<Name>)
    ensures NoDuplicates(zero) && Elems(zero) == ZeroSet(degree)
  {
    zero := [];
    var rest := degree.Keys;
    while rest != {}
      invariant rest <= degree.Keys
      invariant NoDuplicates(zero) && Elems(zero) == ZeroSet(degree) - rest
      decreases rest
    {
      var n :| n in rest;
      rest := rest - {n};
      if degree[n] == 0 {
        ElemsConcat(zero, [n]);
        zero := zero + [n];
      }
    }
  }

  /** The reverse adjacency lists and in-degrees of the first k definitions. */
  ghost predicate Adjacency(defs: seq<ServiceDef>, k: nat, dependents: map<Name, seq<Name>>, degree: map<Name, nat>)
    requires k <= |defs|
  {
    && dependents.Keys == degree.Keys == NamesOf(defs)
    && (forall m {:trigger DependentsOf(defs, k, m)} :: m in dependents ==> dependents[m] == DependentsOf(defs, k, m))
    && (forall n {:trigger Owed(defs, k, NamesOf(defs), {}, n)} ::
          n in degree ==> degree[n] == Owed(defs, k, NamesOf(defs), {}, n))
  }

  /** What entering the dependencies `seen` of one definition has changed. */
  ghost predicate ListsGrew(name: Name, seen: set<Name>, before: map<Name, seq<Name>>, now: map<Name, seq<Name>>) {
    && now.Keys == before.Keys
    && forall m :: m in before ==> now[m] == before[m] + if m in seen then [name] else []
  }

  ghost predicate DegreeGrew(name: Name, known: set<Name>, before: map<Name, nat>, now: map<Name, nat>) {
    && now.Keys == before.Keys
    && forall n :: n in before ==> now[n] == before[n] + if n == name then |known| else 0
  }

  lemma AdjacencyStep(defs: seq<ServiceDef>, k: nat, dependents: map<Name, seq<Name>>, degree: map<Name, nat>,
                      dependents': map<Name, seq<Name>>, degree': map<Name, nat>)
    requires k < |defs| && Adjacency(defs, k, dependents, degree)
    requires ListsGrew(defs[k].service.name, AllDeps(defs[k]), dependents, dependents')
    requires DegreeGrew(defs[k].service.name, KnownDeps(defs[k], NamesOf(defs)), degree, degree')
    ensures Adjacency(defs, k + 1, dependents', degree')
  {
    assert KnownDeps(defs[k], NamesOf(defs)) - {} == KnownDeps(defs[k], NamesOf(defs));
    forall m | m in dependents'
      ensures dependents'[m] == DependentsOf(defs, k + 1, m)
    {
      assert dependents[m] == DependentsOf(defs, k, m);
    }
    forall m | m in degree'
      ensures degree'[m] == Owed(defs, k + 1, NamesOf(defs), {}, m)
    {
      assert degree[m] == Owed(defs, k, NamesOf(defs), {}, m);
    }
  }

  lemma ListStarts(name: Name, lists: map<Name, seq<Name>>)
    ensures ListsGrew(name, {}, lists, lists)
  {
  }

  lemma ListGrows(name: Name, seen: set<Name>, before: map<Name, seq<Name>>, now: map<Name, seq<Name>>, dep: Name)
    requires ListsGrew(name, seen, before, now) && dep !in seen
    ensures dep in before ==> dep in now && ListsGrew(name, seen + {dep}, before, now[dep := now[dep] + [name]])
    ensures dep !in before ==> ListsGrew(name, seen + {dep}, before, now)
  {
  }

  lemma DegreeStarts(name: Name, names: set<Name>, degree: map<Name, nat>)
    ensures DegreeGrew(name, {} * names, degree, degree)
  {
    assert {} * names == {};
  }

  lemma DegreeGrows(name: Name, seen: set<Name>, names: set<Name>, before: map<Name, nat>, now: map<Name, nat>, dep: Name)
    requires DegreeGrew(name, seen * names, before, now) && dep !in seen && name in before
    ensures name in now
    ensures dep in names ==> DegreeGrew(name, (seen + {dep}) * names, before, now[name := now[name] + 1])
    ensures dep !in names ==> DegreeGrew(name, (seen + {dep}) * names, before, now)
  {
    if dep in names {
      assert (seen + {dep}) * names == seen * names + {dep};
    } else {
      assert (seen + {dep}) * names == seen * names;
    }
  }

  /** Add the edges of one definition; its dependency set is visited in arbitrary order. */
  method AddEdges(names: set<Name>, def: ServiceDef, dependents: map<Name, seq<Name>>, degree: map<Name, nat>)
    returns (dependents': map<Name, seq<Name>>, degree': map<Name, nat>)
    requires dependents.Keys == degree.Keys == names && def.service.name in names
    ensures ListsGrew(def.service.name, AllDeps(def), dependents, dependents')
    ensures DegreeGrew(def.service.name, KnownDeps(def, names), degree, degree')
  {
    hide AllDeps, ListsGrew, DegreeGrew;
    dependents', degree' := dependents, degree;
    var name := def.service.name;
    var rest := AllDeps(def);
    ListStarts(name, dependents);
    DegreeStarts(name, names, degree);
    ghost var seen: set<Name> := {};
    while rest != {}
      invariant seen !! rest && seen + rest == AllDeps(def)
      invariant ListsGrew(name, seen, dependents, dependents')
      invariant DegreeGrew(name, seen * names, degree, degree')
      decreases rest
    {
      var dep :| dep in rest;
      rest := rest - {dep};
      DegreeGrows(name, seen, names, degree, degree', dep);
      ListGrows(name, seen, dependents, dependents', dep);
      if dep in names {
        dependents' := dependents'[dep := dependents'[dep] + [name]];
        degree' := degree'[name := degree'[name] + 1];
      }
      seen := seen + {dep};
    }
    assert seen == AllDeps(def);
  }

  /** Reverse adjacency over `needs` alone; unknown names get a list too. */
  ghost predicate NeedsListed(defs: seq<ServiceDef>, k: nat, lists: map<Name, seq<Name>>)
    requires k <= |defs|
  {
    && NamesOf(defs) <= lists.Keys
    && forall m {:trigger NeedersOf(defs, k, m)} :: NeedersOf(defs, k, m) == if m in lists then lists[m] else []
  }

  method AddNeeds(defs: seq<ServiceDef>, k: nat, lists: map<Name, seq<Name>>) returns (lists': map<Name, seq<Name>>)
    requires k < |defs| && NeedsListed(defs, k, lists)
    ensures NeedsListed(defs, k + 1, lists')
  {
    lists' := lists;
    var name, rest := defs[k].service.name, NeedsOf(defs[k]);
    ghost var seen: set<Name> := {};
    while rest != {}
      invariant seen !! rest && seen + rest == NeedsOf(defs[k])
      invariant lists'.Keys == lists.Keys + seen
      invariant forall m :: m in lists' ==>
                  lists'[m] == (if m in lists then lists[m] else []) + if m in seen then [name] else []
      decreases rest
    {
      var dep :| dep in rest;
      rest, seen := rest - {dep}, seen + {dep};
      lists' := lists'[dep := (if dep in lists' then lists'[dep] else []) + [name]];
    }
    forall m
      ensures NeedersOf(defs, k + 1, m) == if m in lists' then lists'[m] else []
    {
      assert NeedersOf(defs, k, m) == if m in lists then lists[m] else [];
    }
  }

  method EmptyLists(defs: seq<ServiceDef>) returns (lists: map<Name, seq<Name>>)
    ensures lists.Keys == NamesOf(defs) && forall m :: m in lists ==> lists[m] == []
  {
    lists := map[];
    for k := 0 to |defs|
      invariant forall m :: m in lists <==> exists i :: 0 <= i < k && defs[i].service.name == m
      invariant forall m :: m in lists ==> lists[m] == []
    {
      if defs[k].service.name !in lists {
        lists := lists[defs[k].service.name := []];
      }
    }
  }

  ghost function NeedersOf(defs: seq<ServiceDef>, k: nat, m: Name): seq<Name>
    requires k <= |defs|
  {
    if k == 0 then [] else
      NeedersOf(defs, k - 1, m) + if m in NeedsOf(defs[k - 1]) then [defs[k - 1].service.name] else []
  }

  lemma {:induction false} NeedersOfMembers(defs: seq<ServiceDef>, k: nat, m: Name)
    requires k <= |defs|
    ensures forall n :: n in NeedersOf(defs, k, m) <==>
                        exists i :: 0 <= i < k && defs[i].service.name == n && m in NeedsOf(defs[i])
    ensures DistinctNames(defs) ==> NoDuplicates(NeedersOf(defs, k, m))
  {
    if k == 0 {
    } else {
      NeedersOfMembers(defs, k - 1, m);
      if DistinctNames(defs) {
        ElemsConcat(NeedersOf(defs, k - 1, m), [defs[k - 1].service.name]);
      }
    }
  }
}
