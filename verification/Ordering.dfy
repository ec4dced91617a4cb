/** The order `Vec<String>::sort` uses, and sorting as one fixed function of the set sorted. */
module Ordering {
  import opened Services

  predicate LexLe(a: Name, b: Name) {
    a == [] || (b != [] && (a[0] < b[0] || (a[0] == b[0] && LexLe(a[1..], b[1..]))))
  }

  /** Dictionary order: a is a beginning of b, or smaller where they first differ. */
  ghost predicate Precedes(a: Name, b: Name) {
    a <= b || exists i: nat :: SmallerAt(a, b, i)
  }

  ghost predicate SmallerAt(a: Name, b: Name, i: nat) {
    i < |a| && i < |b| && a[..i] == b[..i] && a[i] < b[i]
  }

  ghost predicate Ascending(xs: seq<Name>) {
    forall i, j :: 0 <= i < j < |xs| ==> Precedes(xs[i], xs[j])
  }

  lemma SmallerLater(a: Name, b: Name, i: nat)
    requires a != [] && b != [] && a[0] == b[0]
    ensures !SmallerAt(a, b, 0) && (SmallerAt(a, b, i + 1) <==> SmallerAt(a[1..], b[1..], i))
  {
    if i + 1 < |a| && i + 1 < |b| {
      assert a[..i + 1] == [a[0]] + a[1..][..i] && b[..i + 1] == [b[0]] + b[1..][..i];
    }
  }

  lemma SmallerFirst(a: Name, b: Name, i: nat)
    requires a != [] && b != [] && a[0] != b[0]
    ensures SmallerAt(a, b, i) <==> i == 0 && a[0] < b[0]
  {
    if 0 < i < |a| && i < |b| {
      assert a[..i][0] == a[0] && b[..i][0] == b[0];
    }
  }

  lemma PrecedesTail(a: Name, b: Name)
    requires a != [] && b != [] && a[0] == b[0]
    ensures Precedes(a, b) <==> Precedes(a[1..], b[1..])
  {
    hide SmallerAt;
    assert a == [a[0]] + a[1..] && b == [b[0]] + b[1..];
    assert a <= b <==> a[1..] <= b[1..];
    if i: nat :| SmallerAt(a, b, i) {
      SmallerLater(a, b, if i == 0 then 0 else i - 1);
      assert SmallerAt(a[1..], b[1..], i - 1);
    }
    if i: nat :| SmallerAt(a[1..], b[1..], i) {
      SmallerLater(a, b, i);
      assert SmallerAt(a, b, i + 1);
    }
  }

  lemma PrecedesFirst(a: Name, b: Name)
    requires a != [] && b != [] && a[0] != b[0]
    ensures Precedes(a, b) <==> a[0] < b[0]
  {
    hide SmallerAt;
    SmallerFirst(a, b, 0);
    if i: nat :| SmallerAt(a, b, i) {
      SmallerFirst(a, b, i);
    }
  }

  /** The order the names are sorted by is the dictionary order. */
  lemma {:induction false} LexLeIff(a: Name, b: Name)
    ensures LexLe(a, b) <==> Precedes(a, b)
    decreases |a|
  {
    if a == [] || b == [] {
    } else if a[0] != b[0] {
      PrecedesFirst(a, b);
    } else {
      LexLeIff(a[1..], b[1..]);
      PrecedesTail(a, b);
    }
  }

  lemma SortedIsAscending(xs: seq<Name>)
    ensures IsSorted(xs) <==> Ascending(xs)
  {
    hide LexLe, Precedes;
    forall i, j | 0 <= i < j < |xs|
      ensures LexLe(xs[i], xs[j]) <==> Precedes(xs[i], xs[j])
    {
      LexLeIff(xs[i], xs[j]);
    }
  }

  lemma {:induction false} LexTotal(a: Name, b: Name)
    ensures LexLe(a, b) || LexLe(b, a)
    decreases |a|
  {
    if a == [] || b == [] {
    } else {
      LexTotal(a[1..], b[1..]);
    }
  }

  lemma {:induction false} LexAntisymmetric(a: Name, b: Name)
    requires LexLe(a, b) && LexLe(b, a)
    ensures a == b
    decreases |a|
  {
    if a == [] {
    } else {
      LexAntisymmetric(a[1..], b[1..]);
      assert a == [a[0]] + a[1..] && b == [b[0]] + b[1..];
    }
  }

  lemma {:induction false} LexTransitive(a: Name, b: Name, c: Name)
    requires LexLe(a, b) && LexLe(b, c)
    ensures LexLe(a, c)
    decreases |a|
  {
    if a == [] || a[0] != b[0] || b[0] != c[0] {
    } else {
      LexTransitive(a[1..], b[1..], c[1..]);
    }
  }

  predicate IsSorted(xs: seq<Name>) {
    forall i, j :: 0 <= i < j < |xs| ==> LexLe(xs[i], xs[j])
  }

  /** xs lists the set s once each, in order. */
  ghost predicate Arranges(xs: seq<Name>, s: set<Name>) {
    NoDuplicates(xs) && Elems(xs) == s && IsSorted(xs)
  }

  lemma ArrangesTail(xs: seq<Name>, s: set<Name>)
    requires Arranges(xs, s) && xs != []
    ensures Arranges(xs[1..], s - {xs[0]})
  {
    var t := xs[1..];
    forall x
      ensures x in Elems(t) <==> x in s - {xs[0]}
    {
      if x in t {
        var i :| 0 <= i < |t| && t[i] == x;
        assert xs[i + 1] == x;
      }
      if x in s && x != xs[0] {
        var i :| 0 <= i < |xs| && xs[i] == x;
        assert t[i - 1] == x;
      }
    }
  }

  /** A set has only one sorted listing: this is what makes sorted batches deterministic. */
  lemma {:induction false} ArrangementUnique(xs: seq<Name>, ys: seq<Name>, s: set<Name>)
    requires Arranges(xs, s) && Arranges(ys, s)
    ensures xs == ys
    decreases |xs|
  {
    NoDuplicatesCardinality(xs);
    NoDuplicatesCardinality(ys);
    if xs == [] {
    } else {
      assert xs[0] in Elems(ys) && ys[0] in Elems(xs);
      var i :| 0 <= i < |xs| && xs[i] == ys[0];
      var j :| 0 <= j < |ys| && ys[j] == xs[0];
      if xs[0] != ys[0] {
        LexAntisymmetric(xs[0], ys[0]);
      }
      ArrangesTail(xs, s);
      ArrangesTail(ys, s);
      ArrangementUnique(xs[1..], ys[1..], s - {xs[0]});
      assert xs == [xs[0]] + xs[1..] && ys == [ys[0]] + ys[1..];
    }
  }

  function Insert(x: Name, xs: seq<Name>): (r: seq<Name>) {
    if xs == [] || LexLe(x, xs[0]) then [x] + xs else [xs[0]] + Insert(x, xs[1..])
  }

  lemma {:induction false} InsertArranges(x: Name, xs: seq<Name>, s: set<Name>)
    requires Arranges(xs, s) && x !in s
    ensures Arranges(Insert(x, xs), s + {x})
    decreases |xs|
  {
    var r := Insert(x, xs);
    if xs == [] {
    } else if LexLe(x, xs[0]) {
      forall j | 0 < j < |r|
        ensures LexLe(r[0], r[j]) && r[0] != r[j]
      {
        assert r[j] == xs[j - 1] && xs[j - 1] in Elems(xs);
        LexTransitive(x, xs[0], xs[0]) by { LexTotal(xs[0], xs[0]); }
        if j > 1 {
          LexTransitive(x, xs[0], xs[j - 1]);
        }
      }
      assert forall y :: y in r <==> y == x || y in xs;
    } else {
      LexTotal(x, xs[0]);
      ArrangesTail(xs, s);
      var t := Insert(x, xs[1..]);
      InsertArranges(x, xs[1..], s - {xs[0]});
      assert r == [xs[0]] + t;
      assert forall y :: y in r <==> y == xs[0] || y in t;
      assert Elems(r) == s + {x} by { assert xs[0] in Elems(xs); }
      forall j | 0 < j < |r|
        ensures LexLe(r[0], r[j]) && r[0] != r[j]
      {
        assert r[j] == t[j - 1] && t[j - 1] in Elems(t);
        if r[j] != x {
          assert r[j] in Elems(xs[1..]);
          var i :| 0 <= i < |xs[1..]| && xs[1..][i] == r[j];
          assert xs[i + 1] == r[j];
        }
      }
      forall i, j | 0 <= i < j < |r|
        ensures LexLe(r[i], r[j]) && r[i] != r[j]
      {
        if i > 0 {
          assert r[i] == t[i - 1] && r[j] == t[j - 1];
        }
      }
    }
  }

  function Sort(xs: seq<Name>): seq<Name> {
    if xs == [] then [] else Insert(xs[0], Sort(xs[1..]))
  }

  lemma {:induction false} SortArranges(xs: seq<Name>)
    requires NoDuplicates(xs)
    ensures Arranges(Sort(xs), Elems(xs))
    decreases |xs|
  {
    if xs == [] {
    } else {
      SortArranges(xs[1..]);
      assert xs == [xs[0]] + xs[1..];
      assert xs[0] !in Elems(xs[1..]);
      InsertArranges(xs[0], Sort(xs[1..]), Elems(xs[1..]));
      assert Elems(xs) == Elems(xs[1..]) + {xs[0]};
    }
  }

  lemma {:induction false} ListingExists(s: set<Name>)
    ensures exists xs :: NoDuplicates(xs) && Elems(xs) == s
  {
    if s == {} {
      assert NoDuplicates<Name>([]) && Elems<Name>([]) == s;
    } else {
      var x :| x in s;
      ListingExists(s - {x});
      var xs :| NoDuplicates(xs) && Elems(xs) == s - {x};
      ElemsConcat(xs, [x]);
      assert NoDuplicates(xs + [x]) && Elems(xs + [x]) == s;
    }
  }

  /** The sorted listing of a set. */
  ghost function Listing(s: set<Name>): (r: seq<Name>)
    ensures Arranges(r, s)
  {
    ListingExists(s);
    var xs :| NoDuplicates(xs) && Elems(xs) == s;
    SortArranges(xs);
    Sort(xs)
  }

  lemma ListingAscends(s: set<Name>)
    ensures Ascending(Listing(s)) && NoDuplicates(Listing(s)) && forall n :: n in Listing(s) <==> n in s
  {
    SortedIsAscending(Listing(s));
    assert Elems(Listing(s)) == s;
  }

  /** Sorting any duplicate-free listing of s gives the one listing of s. */
  lemma SortIsListing(xs: seq<Name>)
    requires NoDuplicates(xs)
    ensures Sort(xs) == Listing(Elems(xs))
  {
    SortArranges(xs);
    ArrangementUnique(Sort(xs), Listing(Elems(xs)), Elems(xs));
  }
}
