/**
 The order in which running services are stopped (src/graph.rs:161-217), as a function of the
 dependency relation and the set of running services: peel off the services no running service
 depends on, sorted, then do the same with the rest.
 */
module Layering {
  import opened Services
  import opened Ordering
  import opened Dependency

  ghost function Leaves(rel: Relation, running: set<Name>): set<Name> {
    set s | s in running && RunningDependents(rel, running, s) == {}
  }

  /** Successive batches. A set without leaves would be emitted whole. */
  ghost function Layers(rel: Relation, running: set<Name>): seq<set<Name>>
    decreases running
  {
    if running == {} then []
    else
      var leaves := Leaves(rel, running);
      if leaves == {} then [running] else [leaves] + Layers(rel, running - leaves)
  }

  ghost function Flatten(layers: seq<set<Name>>): seq<Name> {
    if layers == [] then [] else Listing(layers[0]) + Flatten(layers[1..])
  }

  /** The stopping order: each batch sorted. Nothing here depends on a hash iteration order. */
  ghost function StopOrder(rel: Relation, running: set<Name>): seq<Name> {
    Flatten(Layers(rel, running))
  }

  lemma StopOrderUnfolds(rel: Relation, running: set<Name>)
    requires running != {}
    ensures Leaves(rel, running) == {} ==> StopOrder(rel, running) == Listing(running)
    ensures Leaves(rel, running) != {} ==>
              StopOrder(rel, running) == Listing(Leaves(rel, running)) + StopOrder(rel, running - Leaves(rel, running))
  {
    var leaves := Leaves(rel, running);
    if leaves == {} {
      assert Layers(rel, running) == [running];
      assert Flatten([running]) == Listing(running) + Flatten([running][1..]);
      assert [running][1..] == [];
      assert Listing(running) + [] == Listing(running);
    } else {
      var layers := Layers(rel, running);
      assert layers[1..] == Layers(rel, running - leaves);
    }
  }

  lemma StopOrderEmpty(rel: Relation)
    ensures StopOrder(rel, {}) == []
  {
  }

  lemma LeavesRun(rel: Relation, running: set<Name>)
    ensures Leaves(rel, running) <= running
  {
  }

  lemma ListingElems(s: set<Name>)
    ensures Elems(Listing(s)) == s && NoDuplicates(Listing(s))
    ensures Listing(s) == [] <==> s == {}
  {
    NoDuplicatesCardinality(Listing(s));
    if s == {} {
      assert |s| == 0;
    }
  }

  /** In an acyclic graph some running service can always be stopped: the fallback is never taken. */
  lemma LeavesExist(rel: Relation, running: set<Name>)
    requires Acyclic(rel) && running != {}
    ensures Leaves(rel, running) != {}
  {
    ReversedAcyclic(rel, running);
    var s := AcyclicEscapes(Reversed(rel, running), running);
    assert RunningDependents(rel, running, s) == {};
    assert s in Leaves(rel, running);
  }

  /** Every running service is stopped exactly once, and nothing else is, in any graph. */
  lemma {:induction false} StopsEachOnce(rel: Relation, running: set<Name>)
    ensures NoDuplicates(StopOrder(rel, running))
    ensures Elems(StopOrder(rel, running)) == running
    decreases running
  {
    if running == {} {
    } else {
      StopOrderUnfolds(rel, running);
      var leaves := Leaves(rel, running);
      if leaves != {} {
        StopsEachOnce(rel, running - leaves);
        ElemsConcat(Listing(leaves), StopOrder(rel, running - leaves));
        assert leaves + (running - leaves) == running;
      }
    }
  }

  lemma ListingMembers(s: set<Name>)
    ensures forall i :: 0 <= i < |Listing(s)| ==> Listing(s)[i] in s
  {
    forall i | 0 <= i < |Listing(s)|
      ensures Listing(s)[i] in s
    {
      assert Listing(s)[i] in Elems(Listing(s));
    }
  }

  /** A service is stopped only after every running service that directly depends on it. */
  lemma {:induction false} DependentsStopFirst(rel: Relation, running: set<Name>, i: nat, j: nat)
    requires Acyclic(rel)
    requires var order := StopOrder(rel, running);
             && i < |order| && j < |order| && order[j] in rel && order[i] in rel[order[j]]
    ensures j < i
    decreases running
  {
    hide StopOrder, Acyclic, IsSorted;
    var order, leaves := StopOrder(rel, running), Leaves(rel, running);
    assert running != {} && leaves != {} && order == Listing(leaves) + StopOrder(rel, running - leaves) by {
      StopsEachOnce(rel, running);
      assert order[i] in Elems(order);
      LeavesExist(rel, running);
      StopOrderUnfolds(rel, running);
    }
    assert order[i] !in leaves by {
      StopsEachOnce(rel, running);
      assert order[j] in Elems(order);
      assert order[j] in RunningDependents(rel, running, order[i]);
    }
    var first, rest := Listing(leaves), StopOrder(rel, running - leaves);
    assert i >= |first| by {
      ListingMembers(leaves);
    }
    if j >= |first| {
      assert order[i] == rest[i - |first|] && order[j] == rest[j - |first|];
      DependentsStopFirst(rel, running - leaves, i - |first|, j - |first|);
    }
  }

  /** Two services of one batch stand in dictionary order. */
  ghost predicate BatchSorted(order: seq<Name>, batch: set<Name>) {
    forall i, j :: 0 <= i < j < |order| && order[i] in batch && order[j] in batch ==> Precedes(order[i], order[j])
  }

  lemma BatchesAscend(rel: Relation, running: set<Name>)
    ensures forall k :: 0 <= k < |Layers(rel, running)| ==> BatchSorted(StopOrder(rel, running), Layers(rel, running)[k])
  {
    forall k | 0 <= k < |Layers(rel, running)|
      ensures BatchSorted(StopOrder(rel, running), Layers(rel, running)[k])
    {
      BatchAscends(rel, running, k);
    }
  }

  lemma {:induction false} BatchAscends(rel: Relation, running: set<Name>, k: nat)
    requires k < |Layers(rel, running)|
    ensures BatchSorted(StopOrder(rel, running), Layers(rel, running)[k]) && Layers(rel, running)[k] <= running
    decreases running
  {
    hide *;
    var leaves := Leaves(rel, running);
    LayersUnfold(rel, running);
    LeavesRun(rel, running);
    StopOrderUnfolds(rel, running);
    if leaves == {} {
      ListingBatch(running);
    } else {
      var rest := running - leaves;
      var first, later := Listing(leaves), StopOrder(rel, rest);
      ListingBatch(leaves);
      StopsEachOnce(rel, rest);
      LaterAre(later, rest);
      if k > 0 {
        BatchAscends(rel, rest, k - 1);
        SortedBehind(first, later, Layers(rel, rest)[k - 1], leaves);
      } else {
        SortedBefore(first, later, leaves, rest);
      }
    }
  }

  lemma LayersUnfold(rel: Relation, running: set<Name>)
    ensures running == {} ==> Layers(rel, running) == []
    ensures running != {} && Leaves(rel, running) == {} ==> Layers(rel, running) == [running]
    ensures running != {} && Leaves(rel, running) != {} ==>
              Layers(rel, running) == [Leaves(rel, running)] + Layers(rel, running - Leaves(rel, running))
  {
  }

  lemma ListingBatch(batch: set<Name>)
    ensures BatchSorted(Listing(batch), batch) && Ascending(Listing(batch)) && forall n :: n in Listing(batch) <==> n in batch
  {
    hide Precedes;
    ListingAscends(batch);
  }

  lemma LaterAre(later: seq<Name>, rest: set<Name>)
    requires Elems(later) == rest
    ensures forall i :: 0 <= i < |later| ==> later[i] in rest
  {
    forall i | 0 <= i < |later|
      ensures later[i] in rest
    {
      assert later[i] in Elems(later);
    }
  }

  lemma SortedBefore(first: seq<Name>, later: seq<Name>, batch: set<Name>, rest: set<Name>)
    requires Ascending(first) && rest !! batch && forall i :: 0 <= i < |later| ==> later[i] in rest
    ensures BatchSorted(first + later, batch)
  {
    hide Precedes;
    var order := first + later;
    forall i, j | 0 <= i < j < |order| && order[i] in batch && order[j] in batch
      ensures Precedes(order[i], order[j])
    {
      assert j < |first|;
      assert order[i] == first[i] && order[j] == first[j];
    }
  }

  lemma SortedBehind(first: seq<Name>, later: seq<Name>, batch: set<Name>, leaves: set<Name>)
    requires BatchSorted(later, batch) && leaves !! batch && forall n :: n in first <==> n in leaves
    ensures BatchSorted(first + later, batch)
  {
    hide Precedes;
    var order := first + later;
    forall i | 0 <= i < |first|
      ensures order[i] !in batch
    {
      assert first[i] in first;
    }
    forall i, j | |first| <= i < j < |order| && order[i] in batch && order[j] in batch
      ensures Precedes(order[i], order[j])
    {
      assert order[i] == later[i - |first|] && order[j] == later[j - |first|];
    }
  }

  // ------------------------------------------------------------------------------------------
  // Batches are longest chains
  // ------------------------------------------------------------------------------------------

  /** p starts at some service, and each next one runs and directly depends on the one before. */
  ghost predicate DependentChain(rel: Relation, running: set<Name>, p: seq<Name>) {
    && |p| >= 1
    && (forall i :: 0 <= i < |p| ==> p[i] in running)
    && (forall i :: 0 < i < |p| ==> p[i] in rel && p[i - 1] in rel[p[i]])
  }

  ghost predicate HasChain(rel: Relation, running: set<Name>, s: Name, length: nat) {
    exists p :: DependentChain(rel, running, p) && p[0] == s && |p| == length + 1
  }

  ghost predicate LongestChain(rel: Relation, running: set<Name>, s: Name, length: nat) {
    HasChain(rel, running, s, length) && forall k :: k > length ==> !HasChain(rel, running, s, k)
  }

  lemma ChainedIsNoLeaf(rel: Relation, running: set<Name>, s: Name, k: nat)
    requires HasChain(rel, running, s, k + 1)
    ensures s !in Leaves(rel, running)
  {
    var p :| DependentChain(rel, running, p) && p[0] == s && |p| == k + 2;
    assert p[1] in RunningDependents(rel, running, s);
  }

  lemma LeafChains(rel: Relation, running: set<Name>, s: Name, k: nat)
    requires s in Leaves(rel, running)
    ensures HasChain(rel, running, s, k) <==> k == 0
  {
    if k == 0 {
      assert DependentChain(rel, running, [s]);
    } else if HasChain(rel, running, s, k) {
      ChainedIsNoLeaf(rel, running, s, k - 1);
    }
  }

  /** Peeling the leaves off shortens every chain from the rest by one, and only by one. */
  lemma PeelShortens(rel: Relation, running: set<Name>, s: Name, k: nat)
    requires s in running - Leaves(rel, running)
    ensures HasChain(rel, running, s, k + 1) <==> HasChain(rel, running - Leaves(rel, running), s, k)
  {
    var leaves := Leaves(rel, running);
    if HasChain(rel, running, s, k + 1) {
      var p :| DependentChain(rel, running, p) && p[0] == s && |p| == k + 2;
      var q := p[..k + 1];
      forall i | 0 <= i < |q|
        ensures q[i] in running - leaves
      {
        assert p[i + 1] in RunningDependents(rel, running, p[i]);
      }
      assert DependentChain(rel, running - leaves, q) && q[0] == s && |q| == k + 1;
    }
    if HasChain(rel, running - leaves, s, k) {
      var p :| DependentChain(rel, running - leaves, p) && p[0] == s && |p| == k + 1;
      assert p[k] in running - leaves;
      var t :| t in RunningDependents(rel, running, p[k]);
      var q := p + [t];
      assert DependentChain(rel, running, q) && q[0] == s && |q| == k + 2;
    }
  }

  /** A service is in batch k exactly when its longest chain of running dependents has k steps. */
  lemma {:induction false} BatchIsLongestChain(rel: Relation, running: set<Name>, s: Name, k: nat)
    requires Acyclic(rel) && s in running
    ensures k < |Layers(rel, running)| && s in Layers(rel, running)[k] <==> LongestChain(rel, running, s, k)
    decreases running
  {
    LeavesExist(rel, running);
    var leaves := Leaves(rel, running);
    var layers := Layers(rel, running);
    assert layers[0] == leaves && layers[1..] == Layers(rel, running - leaves);
    if s in leaves {
      LeafLongest(rel, running, s, k);
      LaterLayersAvoid(rel, running - leaves, s);
    } else if k == 0 {
      var t :| t in RunningDependents(rel, running, s);
      assert DependentChain(rel, running, [s, t]);
      assert HasChain(rel, running, s, 1);
    } else {
      BatchIsLongestChain(rel, running - leaves, s, k - 1);
      PeelLongest(rel, running, s, k - 1);
    }
  }

  lemma LeafLongest(rel: Relation, running: set<Name>, s: Name, k: nat)
    requires s in Leaves(rel, running)
    ensures LongestChain(rel, running, s, k) <==> k == 0
  {
    LeafChains(rel, running, s, k);
    forall j: nat | j > 0
      ensures !HasChain(rel, running, s, j)
    {
      LeafChains(rel, running, s, j);
    }
  }

  lemma PeelLongest(rel: Relation, running: set<Name>, s: Name, k: nat)
    requires s in running - Leaves(rel, running)
    ensures LongestChain(rel, running, s, k + 1) <==> LongestChain(rel, running - Leaves(rel, running), s, k)
  {
    var rest := running - Leaves(rel, running);
    PeelShortens(rel, running, s, k);
    if LongestChain(rel, running, s, k + 1) {
      forall j: nat | j > k
        ensures !HasChain(rel, rest, s, j)
      {
        PeelShortens(rel, running, s, j);
      }
    }
    if LongestChain(rel, rest, s, k) {
      forall j: nat | j > k + 1
        ensures !HasChain(rel, running, s, j)
      {
        PeelShortens(rel, running, s, j - 1);
      }
    }
  }

  lemma {:induction false} LaterLayersAvoid(rel: Relation, running: set<Name>, s: Name)
    requires s !in running
    ensures forall i :: 0 <= i < |Layers(rel, running)| ==> s !in Layers(rel, running)[i]
    decreases running
  {
    if running == {} || Leaves(rel, running) == {} {
    } else {
      var layers := Layers(rel, running);
      var rest := Layers(rel, running - Leaves(rel, running));
      LaterLayersAvoid(rel, running - Leaves(rel, running), s);
      assert forall i :: 0 < i < |layers| ==> layers[i] == rest[i - 1];
    }
  }
}
