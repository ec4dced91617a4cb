/** The recursive installer of `flint-ctl get` (src/bin/flint_ctl.rs). */
module Install {
  import opened Services

  type Disk = map<Name, ServiceDef>

  /** What can be fetched: a name may be unknown, and a fetched text may not parse. */
  type Remote = map<Name, Option<ServiceDef>>

  /** Every installed service has its hard dependencies installed. */
  ghost predicate Closed(disk: Disk) {
    forall n :: n in disk ==> NeedsOf(disk[n]) <= disk.Keys
  }

  /** Each member can be fetched, and what it needs is a member or installed already. */
  ghost predicate Supplied(remote: Remote, disk: Disk, w: set<Name>) {
    forall n :: n in w ==> n in remote && remote[n].Some? && NeedsOf(remote[n].value) <= w + disk.Keys
  }

  /** Files are only added or replaced by what was fetched. */
  ghost predicate Grown(remote: Remote, before: Disk, after: Disk) {
    && before.Keys <= after.Keys
    && forall n :: n in after ==>
         (n in before && after[n] == before[n]) || (n in remote && remote[n] == Some(after[n]))
  }

  /** A service and a dependency of it that was declined. */
  type Warning = (Name, Name)

  /** Every hard dependency of n is installed, or there was a warning about it. */
  ghost predicate Explained(disk: Disk, warned: set<Warning>, n: Name)
    requires n in disk
  {
    forall d :: d in NeedsOf(disk[n]) ==> d in disk || (n, d) in warned
  }

  /** So it is for whatever is new or replaced. */
  ghost predicate NewAreExplained(before: Disk, after: Disk, warned: set<Warning>) {
    forall n :: n in after ==> (n in before && after[n] == before[n]) || Explained(after, warned, n)
  }

  /** The `needs` entries without a file, in order, repetitions included. */
  function MissingDeps(def: ServiceDef, disk: Disk): seq<Name> {
    if def.deps.None? then [] else NotOn(def.deps.value.needs, disk)
  }

  function NotOn(needs: seq<Name>, disk: Disk): seq<Name> {
    if needs == [] then []
    else (if needs[0] in disk then [] else [needs[0]]) + NotOn(needs[1..], disk)
  }

  lemma {:induction false} NotOnMembers(needs: seq<Name>, disk: Disk)
    ensures forall n :: n in NotOn(needs, disk) <==> n in needs && n !in disk
  {
    if needs == [] {
    } else {
      NotOnMembers(needs[1..], disk);
    }
  }

  /** The entries are kept or dropped one by one, in their order. */
  lemma {:induction false} NotOnSplits(a: seq<Name>, b: seq<Name>, disk: Disk)
    ensures NotOn(a + b, disk) == NotOn(a, disk) + NotOn(b, disk)
    ensures forall n :: NotOn([n], disk) == if n in disk then [] else [n]
  {
    assert forall n: Name :: [n][1..] == [];
    if a == [] {
      assert a + b == b;
    } else {
      NotOnSplits(a[1..], b, disk);
      assert (a + b)[1..] == a[1..] + b;
    }
  }

  lemma MissingMembers(def: ServiceDef, disk: Disk)
    ensures forall n :: n in MissingDeps(def, disk) <==> n in NeedsOf(def) && n !in disk
  {
    if def.deps.Some? {
      NotOnMembers(def.deps.value.needs, disk);
    }
  }

  /** Names that can still be installed for the first time. */
  ghost function Uninstalled(remote: Remote, disk: Disk): nat {
    |remote.Keys - disk.Keys|
  }

  lemma UninstalledShrinks(remote: Remote, before: Disk, after: Disk)
    requires before.Keys <= after.Keys
    ensures Uninstalled(remote, after) <= Uninstalled(remote, before)
    ensures (exists n :: n in remote && n in after && n !in before) ==>
              Uninstalled(remote, after) < Uninstalled(remote, before)
  {
    SubsetCardinality(remote.Keys - after.Keys, remote.Keys - before.Keys);
    if n :| n in remote && n in after && n !in before {
      assert n in remote.Keys - before.Keys && n !in remote.Keys - after.Keys;
    }
  }

  lemma GrownTransitive(remote: Remote, a: Disk, b: Disk, c: Disk)
    requires Grown(remote, a, b) && Grown(remote, b, c)
    ensures Grown(remote, a, c)
  {
  }

  lemma WriteGrows(remote: Remote, disk: Disk, name: Name, def: ServiceDef)
    requires name in remote && remote[name] == Some(def)
    ensures Grown(remote, disk, disk[name := def])
  {
  }

  /** Everything but `name` itself that is new or replaced is explained. */
  ghost predicate OthersExplained(before: Disk, after: Disk, warned: set<Warning>, name: Name) {
    forall n :: n in after && n != name ==> (n in before && after[n] == before[n]) || Explained(after, warned, n)
  }

  lemma OthersStayExplained(remote: Remote, before: Disk, a: Disk, b: Disk, v: set<Warning>, w: set<Warning>, name: Name)
    requires OthersExplained(before, a, v, name) && Grown(remote, a, b) && NewAreExplained(a, b, w) && v <= w
    ensures OthersExplained(before, b, w, name)
  {
    hide NeedsOf;
    forall n | n in b && n != name
      ensures (n in before && b[n] == before[n]) || Explained(b, w, n)
    {
      if n in a && b[n] == a[n] {
        assert (n in before && a[n] == before[n]) || Explained(a, v, n);
      }
    }
  }

  lemma AllNowExplained(before: Disk, after: Disk, warned: set<Warning>, name: Name)
    requires OthersExplained(before, after, warned, name) && name in after && Explained(after, warned, name)
    ensures NewAreExplained(before, after, warned)
  {
    hide Explained;
  }

  /** Warnings about `name` explain no other service less. */
  lemma MoreWarnings(before: Disk, after: Disk, v: set<Warning>, w: set<Warning>, name: Name)
    requires OthersExplained(before, after, v, name) && v <= w
    ensures OthersExplained(before, after, w, name)
  {
    hide NeedsOf;
  }

  /** A supply for `name` also supplies each missing dependency, on any larger disk. */
  lemma SupplyPasses(remote: Remote, before: Disk, disk: Disk, name: Name, dep: Name, w: set<Name>)
    requires Supplied(remote, before, w) && name in w && before.Keys <= disk.Keys
    requires name in remote && remote[name].Some? && dep in NeedsOf(remote[name].value) && dep !in before
    ensures Supplied(remote, disk, w) && dep in w
  {
  }

  lemma ClosedAfter(before: Disk, after: Disk)
    requires Closed(before) && before.Keys <= after.Keys && NewAreExplained(before, after, {})
    ensures Closed(after)
  {
    forall n | n in after
      ensures NeedsOf(after[n]) <= after.Keys
    {
      if !(n in before && after[n] == before[n]) {
        assert Explained(after, {}, n);
      }
    }
  }

  /** What was installed is itself a supply. */
  lemma InstalledIsSupply(remote: Remote, before: Disk, after: Disk, name: Name)
    requires Grown(remote, before, after) && NewAreExplained(before, after, {}) && name in after
    requires name in remote && remote[name] == Some(after[name]) && Explained(after, {}, name)
    ensures Supplied(remote, before, (after.Keys - before.Keys) + {name})
  {
  }

  /** A dependency offered: the number of the question, and the disk and the next question before and after. */
  datatype Offer = Offer(dep: Name, at: nat, next: nat, before: Disk, after: Disk)

  /** Accepted, the dependency is on disk; declined, nothing changes and one question was asked. */
  ghost predicate Decided(answers: nat -> bool, o: Offer) {
    if answers(o.at) then o.dep in o.after && o.at < o.next else o.after == o.before && o.next == o.at + 1
  }

  /** Each dependency was offered in turn, by a question of its own, and only its answer decided. */
  ghost predicate Offered(answers: nat -> bool, offers: seq<Offer>, deps: seq<Name>, disk: Disk, asked: nat, disk': Disk, asked': nat)
    decreases |offers|
  {
    && |offers| == |deps|
    && if offers == [] then disk' == disk && asked' == asked
       else
         var o := offers[|offers| - 1];
         && o.dep == deps[|deps| - 1] && o.after == disk' && o.next == asked' && Decided(answers, o)
         && Offered(answers, offers[..|offers| - 1], deps[..|deps| - 1], disk, asked, o.before, o.at)
  }

  ghost function Declined(answers: nat -> bool, offers: seq<Offer>): set<Name> {
    set o | o in offers && !answers(o.at) :: o.dep
  }

  lemma OfferedMore(answers: nat -> bool, offers: seq<Offer>, deps: seq<Name>, i: nat, disk: Disk, asked: nat, o: Offer)
    requires i < |deps| && o.dep == deps[i] && Decided(answers, o)
    requires Offered(answers, offers, deps[..i], disk, asked, o.before, o.at)
    ensures Offered(answers, offers + [o], deps[..i + 1], disk, asked, o.after, o.next)
    ensures Declined(answers, offers + [o]) == Declined(answers, offers) + if answers(o.at) then {} else {o.dep}
  {
    hide Decided;
    var all := offers + [o];
    assert all[..|all| - 1] == offers && deps[..i + 1][..i] == deps[..i];
    assert forall x :: x in all <==> x in offers || x == o;
  }

  /** The same answer to every question. */
  lemma {:induction false} OfferedAlike(answers: nat -> bool, offers: seq<Offer>, deps: seq<Name>, disk: Disk, asked: nat, disk': Disk, asked': nat)
    requires Offered(answers, offers, deps, disk, asked, disk', asked')
    ensures (forall i :: answers(i)) ==> Declined(answers, offers) == {}
    ensures (forall i :: !answers(i)) ==> Declined(answers, offers) == Elems(deps) && disk' == disk
    decreases |offers|
  {
    if offers == [] {
      assert Elems(deps) == {};
    } else {
      var init, o, rest := offers[..|offers| - 1], offers[|offers| - 1], deps[..|deps| - 1];
      OfferedAlike(answers, init, rest, disk, asked, o.before, o.at);
      assert deps == rest + [o.dep] && offers == init + [o];
      ElemsAppend(rest, o.dep);
      assert forall x :: x in offers <==> x in init || x == o;
    }
  }

  lemma NothingOffered(answers: nat -> bool, disk: Disk, asked: nat)
    ensures Offered(answers, [], [], disk, asked, disk, asked) && Declined(answers, []) == {}
  {
  }

  /** What the user is asked. */
  datatype Question = Overwrite(name: Name) | Fetch(name: Name, dep: Name)

  /** The dependencies declined from the k-th question on. */
  ghost function Refused(answers: nat -> bool, questions: seq<Question>, k: nat): set<Warning> {
    set i | k <= i < |questions| && questions[i].Fetch? && !answers(i) :: (questions[i].name, questions[i].dep)
  }

  /** Each offer was made by a question about that dependency of `name`. */
  ghost predicate AskedAbout(questions: seq<Question>, offers: seq<Offer>, name: Name) {
    forall o :: o in offers ==> o.at < |questions| && questions[o.at] == Fetch(name, o.dep)
  }

  lemma RefusedMore(answers: nat -> bool, questions: seq<Question>, k: nat, m: nat)
    requires k <= m <= |questions|
    ensures Refused(answers, questions, k) == Refused(answers, questions[..m], k) + Refused(answers, questions, m)
  {
  }

  lemma RefusedStays(answers: nat -> bool, before: seq<Question>, after: seq<Question>, k: nat)
    requires before <= after
    ensures after[..|before|] == before
  {
  }

  lemma RefusedFirst(answers: nat -> bool, questions: seq<Question>, q: Question)
    ensures Refused(answers, questions + [q], |questions|)
         == if q.Fetch? && !answers(|questions|) then {(q.name, q.dep)} else {}
  {
    assert (questions + [q])[|questions|] == q;
  }

  /** Up to the first offer, only the overwriting was asked about. */
  lemma NothingRefused(answers: nat -> bool, before: seq<Question>, after: seq<Question>, name: Name)
    requires after == before || after == before + [Overwrite(name)]
    ensures Refused(answers, after, |before|) == {} && WarningsFor(name, {}) == {}
    ensures AskedAbout(after, [], name)
  {
  }

  lemma AskedMore(before: seq<Question>, after: seq<Question>, offers: seq<Offer>, name: Name, o: Offer)
    requires AskedAbout(before, offers, name) && before + [Fetch(name, o.dep)] <= after && o.at == |before|
    ensures AskedAbout(after, offers + [o], name)
  {
    assert after[|before|] == (before + [Fetch(name, o.dep)])[|before|];
  }

  lemma SkipsOne(name: Name, skipped: set<Name>, dep: Name)
    ensures WarningsFor(name, skipped + {dep}) == WarningsFor(name, skipped) + {(name, dep)}
  {
  }

  class Installer {
    const remote: Remote
    const answers: nat -> bool
    var disk: Disk
    var questions: seq<Question>
    var warned: set<Warning>

    constructor (remote: Remote, answers: nat -> bool, disk: Disk)
      ensures this.remote == remote && this.answers == answers && this.disk == disk && warned == {} && questions == []
    {
      this.remote, this.answers, this.disk, questions, warned := remote, answers, disk, [], {};
    }

    ghost predicate AllYes() {
      forall i :: answers(i)
    }

    ghost predicate AllNo() {
      forall i :: !answers(i)
    }

    /** The answer to the k-th question is `answers(k)`. */
    method Prompt(question: Question) returns (yes: bool)
      modifies `questions
      ensures yes == answers(|old(questions)|) && questions == old(questions) + [question]
    {
      yes := answers(|questions|);
      questions := questions + [question];
    }

    /** The file is there, and the answer to the next question is to keep it. */
    ghost predicate KeepsOld(disk: Disk, name: Name, asked: nat) {
      name in disk && !answers(asked)
    }

    /**
     Fetch a service, write it, and offer to fetch what it needs and is missing. The result is false
     when the process exits because something cannot be fetched or parsed. `offers` are the offers of
     this call, in order; what is declined is not fetched by its offer, and is warned about.
     */
    method FetchAndInstall(name: Name) returns (ok: bool, ghost offers: seq<Offer>)
      modifies this
      ensures old(questions) <= questions
      ensures ok ==> warned == old(warned) + Refused(answers, questions, |old(questions)|)
      ensures KeepsOld(old(disk), name, |old(questions)|) ==>
                ok && disk == old(disk) && warned == old(warned) && questions == old(questions) + [Overwrite(name)]
      ensures ok && !KeepsOld(old(disk), name, |old(questions)|) ==>
                && name in remote && remote[name].Some?
                && Offered(answers, offers, MissingDeps(remote[name].value, old(disk)), old(disk)[name := remote[name].value],
                           |old(questions)| + if name in old(disk) then 1 else 0, disk, |questions|)
                && AskedAbout(questions, offers, name) && WarningsFor(name, Declined(answers, offers)) <= warned
      ensures Grown(remote, old(disk), disk) && old(warned) <= warned
      ensures ok ==> name in disk && NewAreExplained(old(disk), disk, warned)
      ensures ok && AllYes() ==> warned == old(warned)
      ensures ok && AllYes() ==> name in remote && remote[name] == Some(disk[name]) && Explained(disk, warned, name)
      ensures AllNo() ==> (ok <==> name in old(disk) || (name in remote && remote[name].Some?))
      ensures ok && AllNo() ==> OneFile(remote, old(disk), disk, name)
      ensures ok && AllNo() ==> warned == old(warned) + AllDeclined(remote, old(disk), name)
      ensures forall w {:trigger Supplied(remote, old(disk), w)} :: Supplied(remote, old(disk), w) && name in w ==> ok
      decreases Uninstalled(remote, disk), if name in disk then 1 else 0, 1
    {
      hide Grown, NewAreExplained, OthersExplained, Explained, Uninstalled, NeedsOf, Supplied, Offered, Declined, Decided;
      hide MissingDeps, WarningsFor, AllDeclined, Refused, AskedAbout;
      offers := [];
      ghost var before := disk;
      GrownReflexive(remote, disk, warned);
      NothingDeclined(remote, disk, name);
      if name in disk {
        var overwrite := Prompt(Overwrite(name));
        if !overwrite {
          NothingRefused(answers, old(questions), questions, name);
          return true, offers;
        }
      }
      NothingRefused(answers, old(questions), questions, name);
      if name !in remote || remote[name].None? {
        NoSupply(remote, disk, name);
        return false, offers;
      }
      var def := remote[name].value;
      var missing := MissingDeps(def, disk);
      MissingMembers(def, disk);
      disk := disk[name := def];
      WriteGrows(remote, before, name, def);
      WriteExplainsOthers(before, warned, name, def);
      var skipped: set<Name>;
      ghost var start, asked := disk, questions;
      ok, skipped, offers := OfferMissing(before, name, def, missing);
      if !ok {
        return false, offers;
      }
      RefusedMore(answers, questions, |old(questions)|, |asked|);
      RefusedStays(answers, asked, questions, |old(questions)|);
      OfferedAlike(answers, offers, missing, start, |asked|, disk, |questions|);
      MoreWarnings(before, disk, warned, warned + WarningsFor(name, skipped), name);
      warned := warned + WarningsFor(name, skipped);
      NeedsExplained(remote, before, disk, warned, name, def, missing, skipped);
      AllNowExplained(before, disk, warned, name);
      DeclinedMissing(remote, before, name, def, missing);
    }

    /** Offer each missing dependency in turn. */
    method OfferMissing(ghost before: Disk, name: Name, ghost def: ServiceDef, missing: seq<Name>)
      returns (ok: bool, skipped: set<Name>, ghost offers: seq<Offer>)
      requires Installing(before, name, def) && OthersExplained(before, disk, warned, name)
      requires forall n :: n in missing ==> n in NeedsOf(def) && n !in before
      modifies this
      ensures Installing(before, name, def) && old(questions) <= questions && old(warned) <= warned
      ensures ok ==> OthersExplained(before, disk, warned, name)
      ensures ok ==> forall j :: 0 <= j < |missing| ==> missing[j] in disk || missing[j] in skipped
      ensures ok ==> Offered(answers, offers, missing, old(disk), |old(questions)|, disk, |questions|)
      ensures ok ==> skipped == Declined(answers, offers) && AskedAbout(questions, offers, name)
      ensures ok ==> warned + WarningsFor(name, skipped) == old(warned) + Refused(answers, questions, |old(questions)|)
      ensures ok && (AllYes() || AllNo()) ==> warned == old(warned)
      ensures AllNo() ==> ok
      ensures forall w {:trigger Supplied(remote, before, w)} :: Supplied(remote, before, w) && name in w ==> ok
      decreases Uninstalled(remote, before), if name in before then 1 else 0, 0
    {
      hide Grown, NewAreExplained, OthersExplained, Explained, Uninstalled, NeedsOf, Supplied, Offered, Declined, Decided;
      hide WarningsFor, Refused, AskedAbout;
      ok, skipped, offers := true, {}, [];
      NothingOffered(answers, disk, |questions|);
      NothingRefused(answers, questions, questions, name);
      assert missing[..0] == [];
      for i := 0 to |missing|
        invariant Installing(before, name, def) && old(questions) <= questions && old(warned) <= warned
        invariant ok && OthersExplained(before, disk, warned, name)
        invariant forall j :: 0 <= j < i ==> missing[j] in disk || missing[j] in skipped
        invariant Offered(answers, offers, missing[..i], old(disk), |old(questions)|, disk, |questions|)
        invariant skipped == Declined(answers, offers) && AskedAbout(questions, offers, name)
        invariant warned + WarningsFor(name, skipped) == old(warned) + Refused(answers, questions, |old(questions)|)
        invariant AllYes() || AllNo() ==> warned == old(warned)
      {
        assert missing[i] in missing;
        CallDecreases(remote, before, disk, name, missing[i]);
        var fetched: bool;
        ghost var here, at := disk, questions;
        ok, fetched := OfferDependency(before, name, def, missing[i]);
        if !ok {
          return;
        }
        ghost var o := Offer(missing[i], |at|, |questions|, here, disk);
        OfferedMore(answers, offers, missing, i, old(disk), |old(questions)|, o);
        RefusedMore(answers, questions, |old(questions)|, |at|);
        RefusedStays(answers, at, questions, |old(questions)|);
        AskedMore(at, questions, offers, name, o);
        SkipsOne(name, skipped, missing[i]);
        offers := offers + [o];
        if !fetched {
          skipped := skipped + {missing[i]};
        }
      }
      assert missing[..|missing|] == missing;
    }

    /** The service has been written; its dependencies are being offered. */
    ghost predicate Installing(before: Disk, name: Name, def: ServiceDef)
      reads this
    {
      Grown(remote, before, disk) && name in disk && disk[name] == def && name in remote && remote[name] == Some(def)
    }

    method OfferDependency(ghost before: Disk, name: Name, ghost def: ServiceDef, dep: Name)
      returns (ok: bool, fetched: bool)
      requires Installing(before, name, def) && OthersExplained(before, disk, warned, name)
      requires dep in NeedsOf(def) && dep !in before
      modifies this
      ensures old(questions) + [Fetch(name, dep)] <= questions
      ensures ok ==> warned + (if fetched then {} else {(name, dep)}) == old(warned) + Refused(answers, questions, |old(questions)|)
      ensures Installing(before, name, def) && old(disk).Keys <= disk.Keys && old(warned) <= warned
      ensures ok ==> OthersExplained(before, disk, warned, name) && (fetched ==> dep in disk)
      ensures fetched == answers(|old(questions)|)
      ensures ok ==> Decided(answers, Offer(dep, |old(questions)|, |questions|, old(disk), disk))
      ensures (!fetched ==> ok && warned == old(warned) && disk == old(disk))
      ensures ok && AllYes() ==> warned == old(warned)
      ensures forall w {:trigger Supplied(remote, before, w)} :: Supplied(remote, before, w) && name in w ==> ok
      decreases Uninstalled(remote, disk), if dep in disk then 1 else 0, 2
    {
      hide Grown, NewAreExplained, OthersExplained, Explained, Uninstalled, NeedsOf, Supplied, Offered, Declined;
      ghost var here, said := disk, warned;
      ok := true;
      fetched := Prompt(Fetch(name, dep));
      ghost var asked := questions;
      RefusedFirst(answers, old(questions), Fetch(name, dep));
      if fetched {
        GrownKeys(remote, before, here);
        forall w | Supplied(remote, before, w) && name in w
          ensures Supplied(remote, here, w) && dep in w
        {
          SupplyPasses(remote, before, here, name, dep, w);
        }
        ghost var offers;
        ok, offers := FetchAndInstall(dep);
        RefusedMore(answers, questions, |old(questions)|, |asked|);
        RefusedStays(answers, asked, questions, |old(questions)|);
        GrownTransitive(remote, before, here, disk);
        GrownKeeps(remote, here, disk, name);
        GrownKeys(remote, here, disk);
        if ok {
          OthersStayExplained(remote, before, here, disk, said, warned, name);
        }
      }
    }

    /**
     Whatever is answered, everything installed has its hard dependencies or a warning for each that
     is missing. With every prompt answered yes there is no warning, so a closed set of services stays
     closed, and the process goes through exactly when the remote can supply all that is needed.
     */
    method Get(name: Name) returns (ok: bool)
      requires warned == {} && questions == []
      modifies this
      ensures ok ==> warned == Refused(answers, questions, 0)
      ensures Grown(remote, old(disk), disk)
      ensures ok ==> name in disk && NewAreExplained(old(disk), disk, warned)
      ensures AllYes() && ok ==> warned == {} && (Closed(old(disk)) ==> Closed(disk))
      ensures AllYes() ==> (ok <==> exists w :: Supplied(remote, old(disk), w) && name in w)
      ensures AllNo() ==> (ok <==> name in old(disk) || (name in remote && remote[name].Some?))
      ensures AllNo() && ok ==> OneFile(remote, old(disk), disk, name) && warned == AllDeclined(remote, old(disk), name)
    {
      ghost var before, offers := disk, [];
      ok, offers := FetchAndInstall(name);
      hide Grown, NewAreExplained, Explained, NeedsOf, AllNo, Offered, Declined;
      GrownKeys(remote, before, disk);
      if AllYes() && ok {
        if Closed(before) {
          ClosedAfter(before, disk);
        }
        InstalledIsSupply(remote, before, disk, name);
        ghost var w := (disk.Keys - before.Keys) + {name};
        assert Supplied(remote, before, w) && name in w;
      }
    }
  }

  /** Nothing changed but, if it was missing, one file. */
  ghost predicate OneFile(remote: Remote, before: Disk, after: Disk, name: Name) {
    if name in before then after == before
    else name in remote && remote[name].Some? && after == before[name := remote[name].value]
  }

  /** The warnings due when everything that is missing is declined. */
  ghost function AllDeclined(remote: Remote, disk: Disk, name: Name): set<Warning> {
    if name in disk || name !in remote || remote[name].None? then {}
    else WarningsFor(name, NeedsOf(remote[name].value) - disk.Keys)
  }

  lemma NothingDeclined(remote: Remote, disk: Disk, name: Name)
    ensures WarningsFor(name, {}) == {}
    ensures name in disk ==> AllDeclined(remote, disk, name) == {}
  {
  }

  lemma DeclinedMissing(remote: Remote, disk: Disk, name: Name, def: ServiceDef, missing: seq<Name>)
    requires name in remote && remote[name] == Some(def)
    requires forall n :: n in missing <==> n in NeedsOf(def) && n !in disk
    ensures name !in disk ==> AllDeclined(remote, disk, name) == WarningsFor(name, Elems(missing))
  {
    hide NeedsOf;
    assert Elems(missing) == NeedsOf(def) - disk.Keys;
  }

  function WarningsFor(name: Name, skipped: set<Name>): set<Warning> {
    set d | d in skipped :: (name, d)
  }

  lemma NoSupply(remote: Remote, disk: Disk, name: Name)
    requires name !in remote || remote[name].None?
    ensures forall w {:trigger Supplied(remote, disk, w)} :: Supplied(remote, disk, w) ==> name !in w
  {
  }

  lemma NeedsExplained(remote: Remote, before: Disk, disk: Disk, warned: set<Warning>, name: Name, def: ServiceDef,
                       missing: seq<Name>, skipped: set<Name>)
    requires Grown(remote, before, disk) && name in disk && disk[name] == def
    requires forall j :: 0 <= j < |missing| ==> missing[j] in disk || missing[j] in skipped
    requires forall n :: n in missing <==> n in NeedsOf(def) && n !in before
    requires WarningsFor(name, skipped) <= warned
    ensures Explained(disk, warned, name)
  {
    hide NeedsOf;
    forall d | d in NeedsOf(def)
      ensures d in disk || (name, d) in warned
    {
      if d !in before {
        assert d in missing;
        assert d in skipped ==> (name, d) in WarningsFor(name, skipped);
      }
    }
  }

  lemma GrownReflexive(remote: Remote, disk: Disk, warned: set<Warning>)
    ensures Grown(remote, disk, disk) && NewAreExplained(disk, disk, warned)
  {
  }

  lemma GrownKeys(remote: Remote, a: Disk, b: Disk)
    requires Grown(remote, a, b)
    ensures a.Keys <= b.Keys
  {
  }

  lemma GrownKeeps(remote: Remote, a: Disk, b: Disk, name: Name)
    requires Grown(remote, a, b) && name in a && name in remote && remote[name] == Some(a[name])
    ensures name in b && b[name] == a[name]
  {
  }

  lemma WriteExplainsOthers(before: Disk, warned: set<Warning>, name: Name, def: ServiceDef)
    ensures OthersExplained(before, before[name := def], warned, name)
  {
  }

  /**
   Why the recursion ends: a first installation uses up a remote name, and after a replacement the
   dependency asked for was missing, so it is either still missing or was a first installation.
   */
  lemma CallDecreases(remote: Remote, before: Disk, disk: Disk, name: Name, dep: Name)
    requires Grown(remote, before, disk) && name in remote && name in disk && dep !in before
    ensures Uninstalled(remote, disk) <= Uninstalled(remote, before)
    ensures name !in before || dep in disk ==> Uninstalled(remote, disk) < Uninstalled(remote, before)
  {
    UninstalledShrinks(remote, before, disk);
  }
}
