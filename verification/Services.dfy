/** Service definitions, as deserialised from one `.toml` file each (src/service.rs). */
module Services {

  datatype Option<+T> = None | Some(value: T)

  datatype Result<+T, +E> = Ok(value: T) | Err(error: E)

  type Name = string

  datatype RestartPolicy = Always | OnFailure | Never

  datatype ReadyStrategy = Pidfile | Socket

  datatype ServiceSection = ServiceSection(
    name: Name,
    exec: string,
    restart: Option<RestartPolicy>,
    user: Option<string>,
    args: Option<seq<string>>)

  datatype DepsSection = DepsSection(after: seq<Name>, needs: seq<Name>)

  datatype ReadySection = ReadySection(strategy: ReadyStrategy, path: Option<string>)

  datatype ResourcesSection = ResourcesSection(oomScoreAdj: Option<int>)

  datatype ServiceDef = ServiceDef(
    service: ServiceSection,
    deps: Option<DepsSection>,
    ready: Option<ReadySection>,
    resources: Option<ResourcesSection>)

  /** The names in `needs`: hard dependencies, known or not. */
  function NeedsOf(def: ServiceDef): (r: set<Name>)
    ensures forall d :: d in r <==> def.deps.Some? && d in def.deps.value.needs
  {
    if def.deps.None? then {} else set d | d in def.deps.value.needs
  }

  /** The names in `after` or `needs`. */
  function AllDeps(def: ServiceDef): (r: set<Name>)
    ensures forall d :: d in r <==> def.deps.Some? && (d in def.deps.value.after || d in def.deps.value.needs)
  {
    NeedsOf(def) + if def.deps.None? then {} else set d | d in def.deps.value.after
  }

  function Elems<T>(xs: seq<T>): set<T> {
    set x | x in xs
  }

  predicate NoDuplicates<T(==)>(xs: seq<T>) {
    forall i, j :: 0 <= i < j < |xs| ==> xs[i] != xs[j]
  }

  lemma ElemsAppend<T>(xs: seq<T>, x: T)
    ensures Elems(xs + [x]) == Elems(xs) + {x}
  {
    assert forall y :: y in xs + [x] <==> y in xs || y == x;
  }

  lemma ElemsHead<T>(xs: seq<T>)
    requires xs != []
    ensures xs[0] in Elems(xs)
  {
  }

  lemma ElemsTail<T>(xs: seq<T>)
    requires xs != []
    ensures Elems(xs) == {xs[0]} + Elems(xs[1..])
    ensures NoDuplicates(xs) ==> NoDuplicates(xs[1..]) && xs[0] !in Elems(xs[1..])
    ensures forall x :: multiset(xs)[x] == multiset(xs[1..])[x] + if x == xs[0] then 1 else 0
  {
    assert xs == [xs[0]] + xs[1..];
  }

  /** Concatenating duplicate-free sequences with no common element. */
  lemma ElemsConcat<T>(xs: seq<T>, ys: seq<T>)
    ensures Elems(xs + ys) == Elems(xs) + Elems(ys)
    ensures NoDuplicates(xs) && NoDuplicates(ys) && Elems(xs) !! Elems(ys) ==> NoDuplicates(xs + ys)
  {
    assert forall y :: y in xs + ys <==> y in xs || y in ys;
    if NoDuplicates(xs) && NoDuplicates(ys) && Elems(xs) !! Elems(ys) {
      var zs := xs + ys;
      forall i, j | 0 <= i < j < |zs|
        ensures zs[i] != zs[j]
      {
        if i < |xs| <= j {
          assert zs[i] in Elems(xs) && zs[j] in Elems(ys);
        }
      }
    }
  }

  lemma EmptyDifference<T>(a: set<T>, b: set<T>)
    ensures |a - b| == 0 <==> a <= b
  {
    if |a - b| == 0 {
      assert a - b == {};
      assert forall x :: x in a ==> x in b || x in a - b;
    }
    if a <= b {
      assert a - b == {};
    }
  }

  lemma SmallerDifference<T>(a: set<T>, b: set<T>, x: T)
    requires x !in b
    ensures |a - b| == |a - (b + {x})| + if x in a then 1 else 0
  {
    if x in a {
      assert a - b == (a - (b + {x})) + {x};
    } else {
      assert a - b == a - (b + {x});
    }
  }

  /** Cardinality is monotone. */
  lemma SubsetCardinality<T>(a: set<T>, b: set<T>)
    requires a <= b
    ensures |a| <= |b|
    ensures |a| == |b| ==> a == b
  {
    assert b == a + (b - a);
    if |a| == |b| {
      assert b - a == {};
    }
  }

  /** A sequence has as many elements as positions exactly when no element repeats. */
  lemma {:induction false} NoDuplicatesCardinality<T>(xs: seq<T>)
    ensures |Elems(xs)| <= |xs|
    ensures |Elems(xs)| == |xs| <==> NoDuplicates(xs)
  {
    if xs == [] {
    } else {
      var init, last := xs[..|xs| - 1], xs[|xs| - 1];
      NoDuplicatesCardinality(init);
      assert xs == init + [last];
      ElemsAppend(init, last);
      if last in init {
        assert Elems(xs) == Elems(init);
        var i :| 0 <= i < |init| && init[i] == last;
        assert xs[i] == xs[|xs| - 1];
      }
    }
  }
}
