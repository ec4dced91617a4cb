/** Everything that can happen to a service directory and its manifest, over time. */
module CacheHistory {
  import opened Services
  import opened Cache
  import opened CacheLoad

  /** A content that a file has had, with its modification time. */
  datatype Version = Version(filename: Filename, mtime: int, content: string)

  datatype World = World(dir: Directory, stored: Stored, versions: set<Version>)

  datatype Happening =
    | Edit(f: Filename, content: string, mtime: int)
    | Remove(f: Filename)
    | Watched(f: Filename, deleted: bool)     // the watcher handles an event
    | Loaded(files: seq<Filename>)            // a load scans the directory in this order

  ghost predicate CanHappen(w: World, h: Happening) {
    h.Loaded? ==> Lists(h.files, w.dir)
  }

  ghost function Happen(parse: Parser, w: World, h: Happening): World
    requires CanHappen(w, h)
  {
    match h
    case Edit(f, content, mtime) =>
      w.(dir := w.dir[f := File(content, mtime)], versions := w.versions + {Version(f, mtime, content)})
    case Remove(f) => w.(dir := w.dir - {f})
    case Watched(f, deleted) =>
      if EndsWithToml(f)
      then w.(stored := Saved(Manifest(MANIFEST_VERSION, WatchEntries(parse, w.dir, EntriesOf(w.stored), f, deleted))))
      else w
    case Loaded(files) =>
      match LoadEntries(parse, w.dir, w.stored, files)
      case None => w
      case Some(es) => w.(stored := Saved(Manifest(MANIFEST_VERSION, es)))
  }

  ghost predicate CanUnfold(parse: Parser, w: World, hs: seq<Happening>)
    decreases |hs|
  {
    hs == [] || (CanHappen(w, hs[0]) && CanUnfold(parse, Happen(parse, w, hs[0]), hs[1..]))
  }

  ghost function Unfold(parse: Parser, w: World, hs: seq<Happening>): World
    requires CanUnfold(parse, w, hs)
    decreases |hs|
  {
    if hs == [] then w else Unfold(parse, Happen(parse, w, hs[0]), hs[1..])
  }

  /** A directory that has no readable manifest yet. */
  ghost predicate Begins(w: World) {
    ReadManifest(w.stored).None? && Dated(w)
  }

  /** Every file on disk is one of the versions. */
  ghost predicate Dated(w: World) {
    forall f :: f in w.dir ==> Version(f, w.dir[f].mtime, w.dir[f].content) in w.versions
  }

  /** The entry is what some version of its file parsed to, at that version's second. */
  ghost predicate Recorded(parse: Parser, versions: set<Version>, e: Entry) {
    exists v :: v in versions && v.filename == e.filename && SecsOf(v.mtime) == Some(e.mtimeSecs)
             && parse(v.content) == Some(e.def)
  }

  ghost predicate AllRecorded(parse: Parser, versions: set<Version>, es: seq<Entry>) {
    forall e :: e in es ==> Recorded(parse, versions, e)
  }

  ghost predicate HistoryInv(parse: Parser, w: World) {
    && Dated(w)
    && Unique(EntriesOf(w.stored))
    && AllRecorded(parse, w.versions, EntriesOf(w.stored))
  }

  lemma {:induction false} RetainMembers(es: seq<Entry>, keep: set<Filename>)
    ensures forall e :: e in Retain(es, keep) ==> e in es
  {
    if es == [] {
    } else {
      RetainMembers(es[1..], keep);
    }
  }

  lemma {:induction false} UpsertMembers(es: seq<Entry>, x: Entry)
    ensures forall e :: e in Upsert(es, x) ==> e == x || e in es
  {
    if es == [] {
    } else {
      UpsertMembers(es[1..], x);
    }
  }

  lemma UpsertRecorded(parse: Parser, w: World, es: seq<Entry>, f: Filename, secs: nat, def: ServiceDef)
    requires Dated(w) && AllRecorded(parse, w.versions, es) && f in w.dir
    requires SecsOf(w.dir[f].mtime) == Some(secs) && parse(w.dir[f].content) == Some(def)
    ensures AllRecorded(parse, w.versions, Upsert(es, Entry(f, secs, def)))
  {
    assert Version(f, w.dir[f].mtime, w.dir[f].content) in w.versions;
    assert Recorded(parse, w.versions, Entry(f, secs, def));
    UpsertMembers(es, Entry(f, secs, def));
  }

  lemma {:induction false} RefreshRecorded(parse: Parser, w: World, es: seq<Entry>, files: seq<Filename>)
    requires Dated(w) && AllRecorded(parse, w.versions, es) && forall f :: f in files ==> f in w.dir
    ensures RefreshAll(parse, w.dir, es, files).Some? ==>
            AllRecorded(parse, w.versions, RefreshAll(parse, w.dir, es, files).value)
    decreases |files|
  {
    if files == [] {
    } else {
      var init, last := files[..|files| - 1], files[|files| - 1];
      RefreshRecorded(parse, w, es, init);
      var before := RefreshAll(parse, w.dir, es, init);
      if before.Some? && SecsOf(w.dir[last].mtime).Some? && parse(w.dir[last].content).Some? {
        UpsertRecorded(parse, w, before.value, last, SecsOf(w.dir[last].mtime).value, parse(w.dir[last].content).value);
      }
    }
  }

  lemma LoadKeeps(parse: Parser, w: World, files: seq<Filename>)
    requires HistoryInv(parse, w) && Lists(files, w.dir)
    ensures HistoryInv(parse, Happen(parse, w, Loaded(files)))
  {
    var es := EntriesOf(w.stored);
    var kept := Retain(es, TomlFiles(w.dir));
    RetainMembers(es, TomlFiles(w.dir));
    UniqueRetained(es, TomlFiles(w.dir));
    RefreshRecorded(parse, w, kept, files);
    RefreshUnique(parse, w.dir, kept, files);
  }

  lemma WatchKeeps(parse: Parser, w: World, f: Filename, deleted: bool)
    requires HistoryInv(parse, w)
    ensures HistoryInv(parse, Happen(parse, w, Watched(f, deleted)))
  {
    var es := EntriesOf(w.stored);
    var keep := (set e | e in es :: e.filename) - {f};
    RetainMembers(es, keep);
    UniqueRetained(es, keep);
    if !deleted && f in w.dir {
      match (parse(w.dir[f].content), SecsOf(w.dir[f].mtime))
      case (Some(def), Some(secs)) =>
        UpsertRecorded(parse, w, es, f, secs, def);
        UniqueUpserted(es, Entry(f, secs, def));
      case _ =>
    }
  }

  lemma EditKeeps(parse: Parser, w: World, f: Filename, content: string, mtime: int)
    requires HistoryInv(parse, w)
    ensures HistoryInv(parse, Happen(parse, w, Edit(f, content, mtime)))
  {
    hide Unique;
    var w' := Happen(parse, w, Edit(f, content, mtime));
    forall e | e in EntriesOf(w'.stored)
      ensures Recorded(parse, w'.versions, e)
    {
      assert Recorded(parse, w.versions, e);
    }
  }

  lemma HappenKeeps(parse: Parser, w: World, h: Happening)
    requires HistoryInv(parse, w) && CanHappen(w, h)
    ensures HistoryInv(parse, Happen(parse, w, h))
  {
    match h
    case Edit(f, content, mtime) => EditKeeps(parse, w, f, content, mtime);
    case Remove(f) =>
    case Watched(f, deleted) => WatchKeeps(parse, w, f, deleted);
    case Loaded(files) => LoadKeeps(parse, w, files);
  }

  /**
   However edits, removals, watcher events and loads follow one another, the manifest names each file
   once and every entry is a version its file has had, at that version's second.
   */
  lemma {:induction false} HistoryKeeps(parse: Parser, w: World, hs: seq<Happening>)
    requires HistoryInv(parse, w) && CanUnfold(parse, w, hs)
    ensures HistoryInv(parse, Unfold(parse, w, hs))
    decreases |hs|
  {
    if hs == [] {
    } else {
      HappenKeeps(parse, w, hs[0]);
      HistoryKeeps(parse, Happen(parse, w, hs[0]), hs[1..]);
    }
  }

  lemma BeginsHolds(parse: Parser, w: World)
    requires Begins(w)
    ensures HistoryInv(parse, w)
  {
  }

  /** Times before the epoch have no second the cache could use. */
  ghost predicate SameSecond(v: Version, u: Version) {
    v.filename == u.filename && SecsOf(v.mtime).Some? && SecsOf(v.mtime) == SecsOf(u.mtime)
  }

  /** No file ever has two contents with the same modification second. */
  ghost predicate OneContentPerSecond(versions: set<Version>) {
    forall v, u :: v in versions && u in versions && SameSecond(v, u) ==> v.content == u.content
  }

  lemma RecordedIsNotStale(parse: Parser, w: World, f: Filename)
    requires HistoryInv(parse, w) && OneContentPerSecond(w.versions)
    ensures !Stale(parse, w.dir, EntriesOf(w.stored), f)
  {
    var es := EntriesOf(w.stored);
    if f in w.dir && SecsOf(w.dir[f].mtime).Some? && IsFresh(es, f, SecsOf(w.dir[f].mtime).value) {
      FindMember(es, f);
      var e := Find(es, f).value;
      assert Recorded(parse, w.versions, e);
      var v :| v in w.versions && v.filename == e.filename && SecsOf(v.mtime) == Some(e.mtimeSecs)
               && parse(v.content) == Some(e.def);
      var u := Version(f, w.dir[f].mtime, w.dir[f].content);
      assert u in w.versions;
      assert v.content == u.content;
    }
  }

  /**
   So after any history that began without a manifest, if no file had two contents in one second and
   all files parse now, a cached load returns what parsing the directory afresh returns, up to order.
   */
  lemma HistoryLoadsCurrent(parse: Parser, w: World, hs: seq<Happening>, files: seq<Filename>, scan: seq<Filename>)
    requires Begins(w) && CanUnfold(parse, w, hs)
    requires OneContentPerSecond(Unfold(parse, w, hs).versions) && AllParse(parse, Unfold(parse, w, hs).dir)
    requires Lists(files, Unfold(parse, w, hs).dir) && Lists(scan, Unfold(parse, w, hs).dir)
    ensures var w' := Unfold(parse, w, hs);
            && LoadEntries(parse, w'.dir, w'.stored, files).Some?
            && multiset(DefsOf(LoadEntries(parse, w'.dir, w'.stored, files).value)) == multiset(ParseAll(parse, w'.dir, scan))
  {
    BeginsHolds(parse, w);
    HistoryKeeps(parse, w, hs);
    var w' := Unfold(parse, w, hs);
    hide Unfold, CanUnfold, LoadEntries;
    forall f | f in w'.dir && HasTomlExtension(f)
      ensures !Stale(parse, w'.dir, EntriesOf(w'.stored), f)
    {
      RecordedIsNotStale(parse, w', f);
    }
    CachedEqualsFresh(parse, w'.dir, w'.stored, files, scan);
  }

  /**
   The hypothesis is needed: a file rewritten within the second of its last load keeps its old
   definition, here for any two contents that parse differently.
   */
  lemma StaleWithinASecond(parse: Parser, f: Filename, first: string, second: string)
    requires HasTomlExtension(f) && parse(first).Some? && parse(second).Some? && parse(first) != parse(second)
    ensures var w := World(map[], Missing, {});
            var hs := [Edit(f, first, 0), Loaded([f]), Edit(f, second, 1)];
            && Begins(w) && CanUnfold(parse, w, hs)
            && var w' := Unfold(parse, w, hs);
               && Lists([f], w'.dir) && AllParse(parse, w'.dir)
               && LoadEntries(parse, w'.dir, w'.stored, [f]) == Some([Entry(f, 0, parse(first).value)])
               && parse(w'.dir[f].content) != Some(parse(first).value)
  {
    var w0 := World(map[], Missing, {});
    var h1, h2, h3 := Edit(f, first, 0), Loaded([f]), Edit(f, second, 1);
    var w1 := Happen(parse, w0, h1);
    assert w1.dir == map[f := File(first, 0)];
    var e := Entry(f, 0, parse(first).value);
    RefreshSingle(parse, w1.dir, [], f, e);
    assert LoadEntries(parse, w1.dir, Missing, [f]) == Some([e]);
    var w2 := Happen(parse, w1, h2);
    var w3 := Happen(parse, w2, h3);
    assert w3.dir == map[f := File(second, 1)];
    assert Retain([e], TomlFiles(w3.dir)) == [e];
    assert [f][..0] == [];
    assert RefreshAll(parse, w3.dir, [e], []) == Some([e]);
    assert RefreshOne(parse, w3.dir, [e], f) == Some([e]);
    assert LoadEntries(parse, w3.dir, w2.stored, [f]) == Some([e]);
    UnfoldThree(parse, w0, h1, h2, h3);
  }

  /** So a history can go: `.toml` is written, the watcher records it, and a load forgets it. */
  lemma DotTomlComesAndGoes(parse: Parser, content: string)
    requires parse(content).Some?
    ensures var w := World(map[], Missing, {});
            var h1, h2, h3 := Edit(".toml", content, 0), Watched(".toml", false), Loaded([]);
            && Begins(w) && CanUnfold(parse, w, [h1, h2, h3])
            && EntriesOf(Happen(parse, Happen(parse, w, h1), h2).stored) == [Entry(".toml", 0, parse(content).value)]
            && EntriesOf(Unfold(parse, w, [h1, h2, h3]).stored) == []
  {
    var w := World(map[], Missing, {});
    var h1, h2, h3 := Edit(".toml", content, 0), Watched(".toml", false), Loaded([]);
    var w1 := Happen(parse, w, h1);
    var w2 := Happen(parse, w1, h2);
    var e := Entry(".toml", 0, parse(content).value);
    WatchedNotScannedIff(".toml");
    assert w1.dir == map[".toml" := File(content, 0)];
    assert EntriesOf(w2.stored) == [e];
    assert TomlFiles(w2.dir) == {};
    assert Retain([e], {}) == [];
    assert LoadEntries(parse, w2.dir, w2.stored, []) == Some([]);
    UnfoldThree(parse, w, h1, h2, h3);
  }

  lemma RefreshSingle(parse: Parser, dir: Directory, es: seq<Entry>, f: Filename, e: Entry)
    requires f in dir && es == [] && SecsOf(dir[f].mtime) == Some(e.mtimeSecs) && parse(dir[f].content) == Some(e.def)
    requires e.filename == f
    ensures RefreshAll(parse, dir, es, [f]) == Some([e])
  {
    assert [f][..0] == [];
    assert RefreshAll(parse, dir, es, []) == Some(es);
    assert RefreshOne(parse, dir, es, f) == Some([e]);
  }

  lemma UnfoldThree(parse: Parser, w: World, h1: Happening, h2: Happening, h3: Happening)
    requires CanHappen(w, h1) && CanHappen(Happen(parse, w, h1), h2)
    requires CanHappen(Happen(parse, Happen(parse, w, h1), h2), h3)
    ensures CanUnfold(parse, w, [h1, h2, h3])
    ensures Unfold(parse, w, [h1, h2, h3]) == Happen(parse, Happen(parse, Happen(parse, w, h1), h2), h3)
  {
    hide Happen, CanHappen;
    var w1 := Happen(parse, w, h1);
    assert [h1, h2, h3][1..] == [h2, h3] && [h2, h3][1..] == [h3] && [h3][1..] == [];
    var w2 := Happen(parse, w1, h2);
    assert CanUnfold(parse, w2, [h3]);
    assert CanUnfold(parse, w1, [h2, h3]);
    assert CanUnfold(parse, w, [h1, h2, h3]);
    assert Unfold(parse, w2, [h3]) == Happen(parse, w2, h3);
    assert Unfold(parse, w1, [h2, h3]) == Unfold(parse, w2, [h3]);
    assert Unfold(parse, w, [h1, h2, h3]) == Unfold(parse, w1, [h2, h3]);
  }
}
