/** The cycle test of `flint-ctl check` (src/check.rs), a second implementation of the one in `build`. */
module Preflight {
  import opened Services
  import opened Kahn
  import opened Graph
  import opened Build

  /** True when the definitions could not be built: a cycle, a self-loop or a repeated name. */
  method HasCycle(defs: seq<ServiceDef>) returns (cyclic: bool)
    ensures cyclic <==> !Buildable(defs)
    ensures cyclic <==> !CanBeNumbered(defs)
  {
    hide *;
    var adjacency, degree := EdgeLists(defs);
    var queue := AtZero(degree);
    var visited, left := 0, degree;
    ghost var rank: map<Name, nat> := map[];
    AdjacencyDrains(defs, adjacency, degree, queue);
    while queue != []
      invariant Draining(defs, left, queue, rank, [])
      invariant visited == |rank|
      decreases |NamesOf(defs) - rank.Keys|
    {
      var node := queue[0];
      DrainingPops(defs, left, queue, rank);
      DrainingKeys(defs, left, queue, rank, []);
      RankGrows(NamesOf(defs), rank, node);
      queue, rank, visited := queue[1..], rank[node := |rank|], visited + 1;
      AdjacencyLists(defs, adjacency, degree, node);
      left, queue := ReleaseGuarded(defs, rank, adjacency[node], left, queue);
    }
    DrainedCount(defs, left, rank);
    BuildableIff(defs);
    cyclic := visited != |defs|;
  }

  /** Skips a zero degree, and computes what the unguarded loop does: the guard suppresses nothing. */
  method ReleaseGuarded(ghost defs: seq<ServiceDef>, ghost rank: map<Name, nat>, list: seq<Name>,
                        degree: map<Name, nat>, queue: seq<Name>)
    returns (left: map<Name, nat>, queue': seq<Name>)
    requires Draining(defs, degree, queue, rank, list)
    ensures Draining(defs, left, queue', rank, [])
    ensures (left, queue') == Released(list, degree, queue)
  {
    hide *;
    left, queue' := degree, queue;
    assert list[0..] == list;
    for i := 0 to |list|
      invariant Draining(defs, left, queue', rank, list[i..])
      invariant Released(list[i..], left, queue') == Released(list, degree, queue)
    {
      DrainingDecrements(defs, left, queue', rank, list[i..]);
      ReleasedStep(list, i, left, queue');
      assert list[i..][1..] == list[i + 1..];
      var dep := list[i];
      if left[dep] > 0 {
        left := left[dep := left[dep] - 1];
        if left[dep] == 0 {
          queue' := queue' + [dep];
        }
      }
    }
    assert list[|list|..] == [];
    ReleasedAll(list, left, queue');
  }

  /** Preflight and boot agree on every list of definitions. */
  method PreflightAgreesWithBuild(defs: seq<ServiceDef>) returns (cyclic: bool, built: bool)
    ensures cyclic == !built
    ensures built <==> Buildable(defs)
  {
    cyclic := HasCycle(defs);
    var r := Build.Build(defs);
    built := r.Ok?;
  }
}
