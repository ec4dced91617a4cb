/**
 The manifest cache (src/cache.rs) and the watcher that keeps it fresh (src/bin/flint_watch.rs).
 TOML parsing is a parameter; the stored manifest is written and replaced as a whole.
 */
module Cache {
  import opened Services

  const MANIFEST_VERSION: nat := 1
  const NANOS_PER_SEC: int := 1_000_000_000

  type Filename = string
  type Parser = string -> Option<ServiceDef>

  /** Modification times are in nanoseconds from the Unix epoch, and may precede it. */
  datatype File = File(content: string, mtime: int)

  type Directory = map<Filename, File>

  datatype Entry = Entry(filename: Filename, mtimeSecs: nat, def: ServiceDef)

  datatype Manifest = Manifest(version: nat, entries: seq<Entry>)

  /** The manifest file: absent, undecodable, or a decoded value. */
  datatype Stored = Missing | Garbled | Saved(manifest: Manifest)

  // ------------------------------------------------------------------------------------------
  // Reading
  // ------------------------------------------------------------------------------------------

  /** `Path::extension() == Some("toml")`: a name that is only the suffix has no extension. */
  predicate HasTomlExtension(f: Filename) {
    |f| > 5 && f[|f| - 5..] == ".toml"
  }

  ghost predicate IsStem(stem: Filename, f: Filename) {
    f == stem + ".toml"
  }

  /** So the suffix follows a stem that is not empty. */
  lemma ExtensionIff(f: Filename)
    ensures HasTomlExtension(f) <==> exists stem :: IsStem(stem, f) && stem != ""
  {
    if HasTomlExtension(f) {
      assert IsStem(f[..|f| - 5], f);
    }
    if stem :| IsStem(stem, f) && stem != "" {
      assert f[|f| - 5..] == ".toml";
    }
  }

  function TomlFiles(dir: Directory): set<Filename> {
    set f | f in dir && HasTomlExtension(f)
  }

  /** Whole seconds since the epoch; a time before it is an error. */
  function SecsOf(mtime: int): Option<nat> {
    if mtime < 0 then None else Some(mtime / NANOS_PER_SEC)
  }

  /** The second a time falls in. */
  lemma SecsIff(mtime: int, k: nat)
    ensures SecsOf(mtime) == Some(k) <==> k * 1_000_000_000 <= mtime < (k + 1) * 1_000_000_000
    ensures SecsOf(mtime) == None <==> mtime < 0
  {
  }

  /** A manifest is used if it can be read and has version 1. */
  lemma ReadsIff(stored: Stored, m: Manifest)
    ensures ReadManifest(stored) == Some(m) <==> stored == Saved(m) && m.version == 1
  {
  }

  function ReadManifest(stored: Stored): Option<Manifest> {
    if stored.Saved? && stored.manifest.version == MANIFEST_VERSION then Some(stored.manifest) else None
  }

  function EntriesOf(stored: Stored): seq<Entry> {
    match ReadManifest(stored)
    case None => []
    case Some(m) => m.entries
  }

  /** The first entry for a file. */
  function Find(es: seq<Entry>, f: Filename): Option<Entry> {
    if es == [] then None else if es[0].filename == f then Some(es[0]) else Find(es[1..], f)
  }

  function Filenames(es: seq<Entry>): seq<Filename> {
    seq(|es|, i requires 0 <= i < |es| => es[i].filename)
  }

  function DefsOf(es: seq<Entry>): seq<ServiceDef> {
    seq(|es|, i requires 0 <= i < |es| => es[i].def)
  }

  ghost predicate Unique(es: seq<Entry>) {
    NoDuplicates(Filenames(es))
  }

  // ------------------------------------------------------------------------------------------
  // Updating
  // ------------------------------------------------------------------------------------------

  function Retain(es: seq<Entry>, keep: set<Filename>): seq<Entry> {
    if es == [] then []
    else (if es[0].filename in keep then [es[0]] else []) + Retain(es[1..], keep)
  }

  /** Update the first entry for a file in place, or append one. */
  function Upsert(es: seq<Entry>, e: Entry): seq<Entry> {
    if es == [] then [e]
    else if es[0].filename == e.filename then [e] + es[1..]
    else [es[0]] + Upsert(es[1..], e)
  }

  predicate IsFresh(es: seq<Entry>, f: Filename, secs: nat) {
    var e := Find(es, f);
    e.Some? && e.value.mtimeSecs == secs
  }

  /** One file: keep a fresh entry, parse otherwise; None when the time or the text is bad. */
  function RefreshOne(parse: Parser, dir: Directory, es: seq<Entry>, f: Filename): Option<seq<Entry>>
    requires f in dir
  {
    var secs := SecsOf(dir[f].mtime);
    if secs.None? then None
    else if IsFresh(es, f, secs.value) then Some(es)
    else
      match parse(dir[f].content)
      case None => None
      case Some(def) => Some(Upsert(es, Entry(f, secs.value, def)))
  }

  /** All files, in scan order. */
  function RefreshAll(parse: Parser, dir: Directory, es: seq<Entry>, files: seq<Filename>): Option<seq<Entry>>
    requires forall f :: f in files ==> f in dir
  {
    if files == [] then Some(es)
    else
      match RefreshAll(parse, dir, es, files[..|files| - 1])
      case None => None
      case Some(es') => RefreshOne(parse, dir, es', files[|files| - 1])
  }

  /** The entries a load computes from the stored manifest. */
  function LoadEntries(parse: Parser, dir: Directory, stored: Stored, files: seq<Filename>): Option<seq<Entry>>
    requires forall f :: f in files ==> f in dir
  {
    RefreshAll(parse, dir, Retain(EntriesOf(stored), TomlFiles(dir)), files)
  }

  /** The entries after one watcher event. A file that cannot be read or parsed keeps its old entry. */
  function WatchEntries(parse: Parser, dir: Directory, es: seq<Entry>, f: Filename, deleted: bool): seq<Entry> {
    if deleted then Retain(es, (set e | e in es :: e.filename) - {f})
    else if f !in dir then es
    else
      match (parse(dir[f].content), SecsOf(dir[f].mtime))
      case (Some(def), Some(secs)) => Upsert(es, Entry(f, secs, def))
      case _ => es
  }

  // ------------------------------------------------------------------------------------------
  // How lookups see the updates
  // ------------------------------------------------------------------------------------------

  /** The first entry of that name is found, if there is one. */
  lemma {:induction false} FindIff(es: seq<Entry>, f: Filename, i: nat)
    requires i <= |es| && forall j :: 0 <= j < i ==> es[j].filename != f
    ensures Find(es, f) == if i == |es| then None else if es[i].filename == f then Some(es[i]) else Find(es[i..], f)
    decreases i
  {
    if i == 0 {
      assert es[0..] == es;
    } else {
      FindIff(es[1..], f, i - 1);
      assert i < |es| ==> es[1..][i - 1..] == es[i..];
    }
  }

  lemma RetainUnfolds(es: seq<Entry>, keep: set<Filename>)
    requires es != []
    ensures Retain(es, keep) == (if es[0].filename in keep then [es[0]] else []) + Retain(es[1..], keep)
  {
  }

  /** Entries are kept or dropped one by one, in their order. */
  lemma {:induction false} RetainSplits(a: seq<Entry>, b: seq<Entry>, keep: set<Filename>)
    ensures Retain(a + b, keep) == Retain(a, keep) + Retain(b, keep)
    decreases |a|
  {
    if a == [] {
      assert a + b == b;
    } else {
      hide Retain;
      RetainSplits(a[1..], b, keep);
      RetainUnfolds(a, keep);
      RetainUnfolds(a + b, keep);
      assert (a + b)[0] == a[0] && (a + b)[1..] == a[1..] + b;
    }
  }

  lemma RetainOne(e: Entry, keep: set<Filename>)
    ensures Retain([e], keep) == if e.filename in keep then [e] else []
  {
    assert [e][1..] == [];
  }

  /** The first entry of that name is replaced where it stands; without one the new entry comes last. */
  lemma {:induction false} UpsertAt(es: seq<Entry>, e: Entry, i: nat)
    requires i <= |es| && (forall j :: 0 <= j < i ==> es[j].filename != e.filename)
    requires i < |es| ==> es[i].filename == e.filename
    ensures Upsert(es, e) == if i == |es| then es + [e] else es[i := e]
    decreases i
  {
    if i == 0 {
    } else {
      UpsertAt(es[1..], e, i - 1);
      assert es == [es[0]] + es[1..];
    }
  }

  lemma {:induction false} FindRetained(es: seq<Entry>, keep: set<Filename>, g: Filename)
    ensures Find(Retain(es, keep), g) == if g in keep then Find(es, g) else None
  {
    if es == [] {
    } else {
      FindRetained(es[1..], keep, g);
      var rest := Retain(es[1..], keep);
      assert ([es[0]] + rest)[1..] == rest;
      assert [] + rest == rest;
    }
  }

  lemma {:induction false} FindUpserted(es: seq<Entry>, e: Entry, g: Filename)
    ensures Find(Upsert(es, e), g) == if g == e.filename then Some(e) else Find(es, g)
  {
    if es == [] {
      assert [e][1..] == [];
    } else {
      FindUpserted(es[1..], e, g);
      assert ([e] + es[1..])[1..] == es[1..];
      assert ([es[0]] + Upsert(es[1..], e))[1..] == Upsert(es[1..], e);
    }
  }

  lemma {:induction false} FindMember(es: seq<Entry>, g: Filename)
    ensures Find(es, g).Some? ==> Find(es, g).value in es && Find(es, g).value.filename == g
    ensures Find(es, g).Some? <==> g in Filenames(es)
  {
    if es == [] {
    } else {
      FindMember(es[1..], g);
      FilenamesTail(es);
    }
  }

  lemma FilenamesTail(es: seq<Entry>)
    requires es != []
    ensures Filenames(es) == [es[0].filename] + Filenames(es[1..])
  {
  }

  /** In a list without repeated names, every entry is the one its name finds. */
  lemma {:induction false} UniqueFinds(es: seq<Entry>, i: nat)
    requires Unique(es) && i < |es|
    ensures Find(es, es[i].filename) == Some(es[i])
    decreases |es|
  {
    if i == 0 {
    } else {
      assert Filenames(es)[0] != Filenames(es)[i];
      UniqueTail(es);
      UniqueFinds(es[1..], i - 1);
    }
  }

  lemma UniqueTail(es: seq<Entry>)
    requires es != []
    ensures Unique(es) <==> Unique(es[1..]) && es[0].filename !in Filenames(es[1..])
  {
    var xs := Filenames(es);
    FilenamesTail(es);
    if Unique(es) {
      ElemsTail(xs);
      assert xs[1..] == Filenames(es[1..]);
      assert es[0].filename !in Elems(Filenames(es[1..]));
    }
    if Unique(es[1..]) && es[0].filename !in Filenames(es[1..]) {
      ElemsConcat([es[0].filename], Filenames(es[1..]));
      assert Elems([es[0].filename]) == {es[0].filename};
      assert es[0].filename !in Elems(Filenames(es[1..]));
    }
  }

  lemma {:induction false} UniqueRetained(es: seq<Entry>, keep: set<Filename>)
    requires Unique(es)
    ensures Unique(Retain(es, keep))
  {
    if es == [] {
    } else {
      UniqueTail(es);
      UniqueRetained(es[1..], keep);
      var rest := Retain(es[1..], keep);
      if es[0].filename in keep {
        var r := [es[0]] + rest;
        assert r[1..] == rest;
        FindMember(es[1..], es[0].filename);
        FindRetained(es[1..], keep, es[0].filename);
        FindMember(rest, es[0].filename);
        UniqueTail(r);
      } else {
        assert [] + rest == rest;
      }
    }
  }

  lemma {:induction false} UniqueUpserted(es: seq<Entry>, e: Entry)
    requires Unique(es)
    ensures Unique(Upsert(es, e))
  {
    if es == [] {
    } else {
      UniqueTail(es);
      if es[0].filename == e.filename {
        var r := [e] + es[1..];
        assert r[1..] == es[1..];
        UniqueTail(r);
      } else {
        var rest := Upsert(es[1..], e);
        var r := [es[0]] + rest;
        assert r[1..] == rest;
        UniqueUpserted(es[1..], e);
        FindUpserted(es[1..], e, es[0].filename);
        FindMember(es[1..], es[0].filename);
        FindMember(rest, es[0].filename);
        UniqueTail(r);
      }
    }
  }

  // ------------------------------------------------------------------------------------------
  // What a load computes
  // ------------------------------------------------------------------------------------------

  /** The entry a load leaves for a file, given what the manifest had. */
  function CurrentEntry(parse: Parser, dir: Directory, was: Option<Entry>, f: Filename): Option<Entry>
    requires f in dir
  {
    var secs := SecsOf(dir[f].mtime);
    if secs.None? then None
    else if was.Some? && was.value.mtimeSecs == secs.value then was
    else
      match parse(dir[f].content)
      case None => None
      case Some(def) => Some(Entry(f, secs.value, def))
  }

  /** Exactly the scanned files are brought up to date; a load fails exactly when one cannot be. */
  lemma {:induction false} RefreshFinds(parse: Parser, dir: Directory, es: seq<Entry>, files: seq<Filename>)
    requires (forall f :: f in files ==> f in dir) && NoDuplicates(files)
    ensures RefreshAll(parse, dir, es, files).None? <==>
            exists f :: f in files && CurrentEntry(parse, dir, Find(es, f), f).None?
    ensures RefreshAll(parse, dir, es, files).Some? ==>
            forall g :: Find(RefreshAll(parse, dir, es, files).value, g)
                     == if g in files then CurrentEntry(parse, dir, Find(es, g), g) else Find(es, g)
    decreases |files|
  {
    if files == [] {
    } else {
      var init, last := files[..|files| - 1], files[|files| - 1];
      assert files == init + [last];
      RefreshFinds(parse, dir, es, init);
      var before := RefreshAll(parse, dir, es, init);
      if before.None? {
        var f :| f in init && CurrentEntry(parse, dir, Find(es, f), f).None?;
        assert f in files;
      } else {
        RefreshOneFinds(parse, dir, before.value, last);
        assert last !in init && last in files;
        assert Find(before.value, last) == Find(es, last);
      }
    }
  }

  lemma RefreshOneFinds(parse: Parser, dir: Directory, es: seq<Entry>, f: Filename)
    requires f in dir
    ensures RefreshOne(parse, dir, es, f).None? <==> CurrentEntry(parse, dir, Find(es, f), f).None?
    ensures RefreshOne(parse, dir, es, f).Some? ==>
            forall g :: Find(RefreshOne(parse, dir, es, f).value, g)
                     == if g == f then CurrentEntry(parse, dir, Find(es, f), f) else Find(es, g)
  {
    var secs := SecsOf(dir[f].mtime);
    if secs.Some? && !IsFresh(es, f, secs.value) && parse(dir[f].content).Some? {
      var e := Entry(f, secs.value, parse(dir[f].content).value);
      forall g
        ensures Find(Upsert(es, e), g) == if g == f then Some(e) else Find(es, g)
      {
        FindUpserted(es, e, g);
      }
    }
  }

  lemma {:induction false} RefreshUnique(parse: Parser, dir: Directory, es: seq<Entry>, files: seq<Filename>)
    requires (forall f :: f in files ==> f in dir) && Unique(es)
    ensures RefreshAll(parse, dir, es, files).Some? ==> Unique(RefreshAll(parse, dir, es, files).value)
    decreases |files|
  {
    if files == [] {
    } else {
      var init, last := files[..|files| - 1], files[|files| - 1];
      RefreshUnique(parse, dir, es, init);
      var before := RefreshAll(parse, dir, es, init);
      if before.Some? {
        var secs := SecsOf(dir[last].mtime);
        if secs.Some? && parse(dir[last].content).Some? {
          UniqueUpserted(before.value, Entry(last, secs.value, parse(dir[last].content).value));
        }
      }
    }
  }

  /** files lists the scanned files once each, in some order. */
  ghost predicate Lists(files: seq<Filename>, dir: Directory) {
    NoDuplicates(files) && forall f :: f in files <==> f in dir && HasTomlExtension(f)
  }

  /** A file's entry in the manifest disagrees with the file although the second matches. */
  ghost predicate Stale(parse: Parser, dir: Directory, es: seq<Entry>, f: Filename) {
    && f in dir && SecsOf(dir[f].mtime).Some? && IsFresh(es, f, SecsOf(dir[f].mtime).value)
    && Some(Find(es, f).value.def) != parse(dir[f].content)
  }

  /** Every scanned file has a time the cache can use and parses. */
  ghost predicate AllParse(parse: Parser, dir: Directory) {
    forall f :: f in dir && HasTomlExtension(f) ==> SecsOf(dir[f].mtime).Some? && parse(dir[f].content).Some?
  }

  ghost predicate NoneStale(parse: Parser, dir: Directory, es: seq<Entry>) {
    forall f :: f in dir && HasTomlExtension(f) ==> !Stale(parse, dir, es, f)
  }

  /** Parsing the listed files afresh. */
  ghost function ParseAll(parse: Parser, dir: Directory, files: seq<Filename>): seq<ServiceDef>
    requires forall f :: f in files ==> f in dir && parse(dir[f].content).Some?
  {
    seq(|files|, i requires 0 <= i < |files| => parse(dir[files[i]].content).value)
  }

  lemma LoadFinds(parse: Parser, dir: Directory, stored: Stored, files: seq<Filename>)
    requires Lists(files, dir) && Unique(EntriesOf(stored))
    requires LoadEntries(parse, dir, stored, files).Some?
    ensures var es := LoadEntries(parse, dir, stored, files).value;
            && Unique(es) && Lists(Filenames(es), dir)
            && (forall f :: f in dir && HasTomlExtension(f) ==> Find(es, f) == CurrentEntry(parse, dir, Find(EntriesOf(stored), f), f))
  {
    var kept := Retain(EntriesOf(stored), TomlFiles(dir));
    var es := LoadEntries(parse, dir, stored, files).value;
    RefreshFinds(parse, dir, kept, files);
    UniqueRetained(EntriesOf(stored), TomlFiles(dir));
    RefreshUnique(parse, dir, kept, files);
    forall f
      ensures f in Filenames(es) <==> f in dir && HasTomlExtension(f)
      ensures f in dir && HasTomlExtension(f) ==> Find(es, f) == CurrentEntry(parse, dir, Find(EntriesOf(stored), f), f)
    {
      FindRetained(EntriesOf(stored), TomlFiles(dir), f);
      FindMember(es, f);
    }
  }

  /**
   With unique names in the manifest and files that parse, a load returns each current file's
   definition exactly once if and only if no file is stale: no entry has the file's second but
   another definition.
   */
  lemma LoadIsCurrentIff(parse: Parser, dir: Directory, stored: Stored, files: seq<Filename>)
    requires Lists(files, dir) && Unique(EntriesOf(stored))
    requires AllParse(parse, dir)
    ensures var es := LoadEntries(parse, dir, stored, files);
            && es.Some? && Lists(Filenames(es.value), dir)
            && (DefsOf(es.value) == ParseAll(parse, dir, Filenames(es.value)) <==>
                NoneStale(parse, dir, EntriesOf(stored)))
  {
    LoadSucceeds(parse, dir, stored, files);
    LoadFinds(parse, dir, stored, files);
    var was, es := EntriesOf(stored), LoadEntries(parse, dir, stored, files).value;
    forall i | 0 <= i < |es|
      ensures es[i].filename in dir && HasTomlExtension(es[i].filename)
      ensures Some(es[i].def) == parse(dir[es[i].filename].content) <==> !Stale(parse, dir, was, es[i].filename)
    {
      assert Filenames(es)[i] == es[i].filename;
      UniqueFinds(es, i);
    }
    CurrentIffEach(parse, dir, was, es);
  }

  lemma CurrentIffEach(parse: Parser, dir: Directory, was: seq<Entry>, es: seq<Entry>)
    requires AllParse(parse, dir) && Lists(Filenames(es), dir)
    requires forall i :: 0 <= i < |es| ==>
               && es[i].filename in dir && HasTomlExtension(es[i].filename)
               && (Some(es[i].def) == parse(dir[es[i].filename].content) <==> !Stale(parse, dir, was, es[i].filename))
    ensures DefsOf(es) == ParseAll(parse, dir, Filenames(es)) <==> NoneStale(parse, dir, was)
  {
    var all := ParseAll(parse, dir, Filenames(es));
    assert |all| == |es|;
    assert forall i :: 0 <= i < |es| ==> all[i] == parse(dir[es[i].filename].content).value && DefsOf(es)[i] == es[i].def;
    if NoneStale(parse, dir, was) {
      assert forall i :: 0 <= i < |es| ==> DefsOf(es)[i] == all[i];
    } else {
      var f :| f in dir && HasTomlExtension(f) && Stale(parse, dir, was, f);
      assert f in Filenames(es);
      var i :| 0 <= i < |es| && Filenames(es)[i] == f;
      assert es[i].filename == f;
      assert DefsOf(es)[i] != all[i];
    }
  }

  lemma LoadSucceeds(parse: Parser, dir: Directory, stored: Stored, files: seq<Filename>)
    requires Lists(files, dir)
    requires AllParse(parse, dir)
    ensures LoadEntries(parse, dir, stored, files).Some?
  {
    RefreshFinds(parse, dir, Retain(EntriesOf(stored), TomlFiles(dir)), files);
  }

  // ------------------------------------------------------------------------------------------
  // A second load
  // ------------------------------------------------------------------------------------------

  lemma {:induction false} RetainAll(es: seq<Entry>, keep: set<Filename>)
    requires forall e :: e in es ==> e.filename in keep
    ensures Retain(es, keep) == es
  {
    if es == [] {
    } else {
      RetainAll(es[1..], keep);
      assert es == [es[0]] + es[1..];
    }
  }

  lemma {:induction false} RefreshNothing(parse: Parser, dir: Directory, es: seq<Entry>, files: seq<Filename>)
    requires forall f :: f in files ==>
               f in dir && SecsOf(dir[f].mtime).Some? && IsFresh(es, f, SecsOf(dir[f].mtime).value)
    ensures RefreshAll(parse, dir, es, files) == Some(es)
    decreases |files|
  {
    if files == [] {
    } else {
      RefreshNothing(parse, dir, es, files[..|files| - 1]);
    }
  }

  /** Loading again from what a load stored, in whatever scan order, changes nothing. */
  lemma LoadAgain(parse: Parser, dir: Directory, stored: Stored, files: seq<Filename>, again: seq<Filename>)
    requires Lists(files, dir) && Lists(again, dir) && Unique(EntriesOf(stored))
    requires LoadEntries(parse, dir, stored, files).Some?
    ensures var es := LoadEntries(parse, dir, stored, files).value;
            LoadEntries(parse, dir, Saved(Manifest(MANIFEST_VERSION, es)), again) == Some(es)
  {
    var es := LoadEntries(parse, dir, stored, files).value;
    LoadFinds(parse, dir, stored, files);
    hide LoadEntries, Unique, NoDuplicates;
    ListedOnDisk(dir, es);
    RetainAll(es, TomlFiles(dir));
    forall f | f in again
      ensures SecsOf(dir[f].mtime).Some? && IsFresh(es, f, SecsOf(dir[f].mtime).value)
    {
      assert f in Filenames(es);
      FindMember(es, f);
    }
    RefreshNothing(parse, dir, es, again);
    LoadUnfolds(parse, dir, es, again);
  }

  lemma LoadUnfolds(parse: Parser, dir: Directory, es: seq<Entry>, files: seq<Filename>)
    requires forall f :: f in files ==> f in dir
    ensures LoadEntries(parse, dir, Saved(Manifest(MANIFEST_VERSION, es)), files)
         == RefreshAll(parse, dir, Retain(es, TomlFiles(dir)), files)
  {
  }

  lemma ListedOnDisk(dir: Directory, es: seq<Entry>)
    requires Lists(Filenames(es), dir)
    ensures forall e :: e in es ==> e.filename in TomlFiles(dir)
  {
    forall e | e in es
      ensures e.filename in TomlFiles(dir)
    {
      var i :| 0 <= i < |es| && es[i] == e;
      assert Filenames(es)[i] == e.filename;
    }
  }

  // ------------------------------------------------------------------------------------------
  // Scan order does not matter
  // ------------------------------------------------------------------------------------------

  lemma RemoveAt(files: seq<Filename>, k: nat)
    requires NoDuplicates(files) && k < |files|
    ensures var rest := files[..k] + files[k + 1..];
            NoDuplicates(rest) && forall f :: f in rest <==> f in files && f != files[k]
  {
    var rest := files[..k] + files[k + 1..];
    assert forall i :: 0 <= i < |rest| ==> rest[i] == files[if i < k then i else i + 1];
    forall f | f in files && f != files[k]
      ensures f in rest
    {
      var i :| 0 <= i < |files| && files[i] == f;
      assert rest[if i < k then i else i - 1] == f;
    }
  }

  lemma ParseAllAt(parse: Parser, dir: Directory, files: seq<Filename>, k: nat)
    requires k < |files| && forall f :: f in files ==> f in dir && parse(dir[f].content).Some?
    ensures var rest := files[..k] + files[k + 1..];
            && (forall f :: f in rest ==> f in files)
            && multiset(ParseAll(parse, dir, files))
            == multiset(ParseAll(parse, dir, rest)) + multiset{parse(dir[files[k]].content).value}
  {
    var rest := files[..k] + files[k + 1..];
    var all := ParseAll(parse, dir, files);
    assert all == all[..k] + [all[k]] + all[k + 1..];
    assert ParseAll(parse, dir, rest) == all[..k] + all[k + 1..];
  }

  lemma SameLength(a: seq<Filename>, b: seq<Filename>)
    requires NoDuplicates(a) && NoDuplicates(b) && forall f :: f in a <==> f in b
    ensures |a| == |b|
  {
    NoDuplicatesCardinality(a);
    NoDuplicatesCardinality(b);
    assert Elems(a) == Elems(b);
  }

  /** Two scans of the same files give the same definitions, up to order. */
  lemma {:induction false} ParseAllPermutes(parse: Parser, dir: Directory, a: seq<Filename>, b: seq<Filename>)
    requires NoDuplicates(a) && NoDuplicates(b) && forall f :: f in a <==> f in b
    requires forall f :: f in a ==> f in dir && parse(dir[f].content).Some?
    ensures multiset(ParseAll(parse, dir, a)) == multiset(ParseAll(parse, dir, b))
    decreases |a|
  {
    hide ParseAll;
    SameLength(a, b);
    if a == [] {
      assert a == b;
    } else {
      assert a[0] in b;
      var k :| 0 <= k < |b| && b[k] == a[0];
      RemoveAt(a, 0);
      RemoveAt(b, k);
      ParseAllAt(parse, dir, a, 0);
      ParseAllAt(parse, dir, b, k);
      ParseAllPermutes(parse, dir, a[..0] + a[0 + 1..], b[..k] + b[k + 1..]);
    }
  }

  /**
   With nothing stale, a cached load and an uncached one return the same definitions, up to order,
   whatever the two scan orders.
   */
  lemma CachedEqualsFresh(parse: Parser, dir: Directory, stored: Stored, files: seq<Filename>, scan: seq<Filename>)
    requires Lists(files, dir) && Lists(scan, dir) && Unique(EntriesOf(stored))
    requires AllParse(parse, dir) && NoneStale(parse, dir, EntriesOf(stored))
    ensures LoadEntries(parse, dir, stored, files).Some?
    ensures multiset(DefsOf(LoadEntries(parse, dir, stored, files).value)) == multiset(ParseAll(parse, dir, scan))
  {
    LoadIsCurrentIff(parse, dir, stored, files);
    var es := LoadEntries(parse, dir, stored, files).value;
    ParseAllPermutes(parse, dir, Filenames(es), scan);
  }

  // ------------------------------------------------------------------------------------------
  // The source's loops
  // ------------------------------------------------------------------------------------------

  /** The manifest file on disk. Writing goes through a temporary file and a rename. */
  class ManifestStore {
    var stored: Stored
    var writes: nat

    constructor (stored: Stored)
      ensures this.stored == stored && writes == 0
    {
      this.stored, writes := stored, 0;
    }

    method Write(entries: seq<Entry>)
      modifies this
      ensures stored == Saved(Manifest(MANIFEST_VERSION, entries)) && writes == old(writes) + 1
    {
      stored := Saved(Manifest(MANIFEST_VERSION, entries));
      writes := writes + 1;
    }
  }

  /** Directory scan, in the arbitrary order of `read_dir`. */
  method Scan(dir: Directory) returns (files: seq<Filename>)
    ensures Lists(files, dir)
    ensures forall f :: f in files <==> f in dir && exists stem :: IsStem(stem, f) && stem != ""
  {
    hide IsStem;
    files := [];
    var rest := dir.Keys;
    while rest != {}
      invariant rest <= dir.Keys && NoDuplicates(files)
      invariant forall f :: f in files <==> f in dir && f !in rest && HasTomlExtension(f)
      decreases rest
    {
      var f :| f in rest;
      rest := rest - {f};
      if HasTomlExtension(f) {
        files := files + [f];
      }
    }
    forall f
      ensures HasTomlExtension(f) <==> exists stem :: IsStem(stem, f) && stem != ""
    {
      ExtensionIff(f);
    }
  }

  /** A manifest from scratch: one entry per file, in scan order. */
  method BuildManifest(parse: Parser, dir: Directory, files: seq<Filename>) returns (r: Option<seq<Entry>>)
    requires Lists(files, dir)
    ensures r == RefreshAll(parse, dir, [], files)
  {
    hide RefreshAll, RefreshOne, Upsert, Find;
    RefreshNone(parse, dir);
    var entries := [];
    for i := 0 to |files|
      invariant RefreshAll(parse, dir, [], files[..i]) == Some(entries)
      invariant Filenames(entries) == files[..i]
    {
      var f := files[i];
      var secs, def := SecsOf(dir[f].mtime), parse(dir[f].content);
      NotYetListed(entries, files, i);
      RefreshNew(parse, dir, files, i, entries);
      if secs.None? || def.None? {
        FailureSpreads(parse, dir, [], files, i + 1);
        return None;
      }
      entries := entries + [Entry(f, secs.value, def.value)];
      assert files[..i + 1] == files[..i] + [f];
    }
    assert files[..|files|] == files;
    r := Some(entries);
  }

  lemma RefreshNone(parse: Parser, dir: Directory)
    ensures RefreshAll(parse, dir, [], []) == Some([])
  {
  }

  /** A file not listed yet gets an entry at the end, or makes the load fail. */
  lemma RefreshNew(parse: Parser, dir: Directory, files: seq<Filename>, i: nat, entries: seq<Entry>)
    requires (forall f :: f in files ==> f in dir) && i < |files| && Find(entries, files[i]) == None
    requires RefreshAll(parse, dir, [], files[..i]) == Some(entries)
    ensures var secs, def := SecsOf(dir[files[i]].mtime), parse(dir[files[i]].content);
            RefreshAll(parse, dir, [], files[..i + 1]) ==
            if secs.None? || def.None? then None else Some(entries + [Entry(files[i], secs.value, def.value)])
  {
    var secs, def := SecsOf(dir[files[i]].mtime), parse(dir[files[i]].content);
    assert files[..i + 1][..i] == files[..i];
    if secs.Some? && def.Some? {
      UpsertAppends(entries, Entry(files[i], secs.value, def.value));
    }
  }

  lemma NotYetListed(es: seq<Entry>, files: seq<Filename>, i: nat)
    requires NoDuplicates(files) && i < |files| && Filenames(es) == files[..i]
    ensures Find(es, files[i]) == None
  {
    FindMember(es, files[i]);
  }

  lemma {:induction false} UpsertAppends(es: seq<Entry>, e: Entry)
    requires Find(es, e.filename) == None
    ensures Upsert(es, e) == es + [e]
  {
    if es == [] {
    } else {
      UpsertAppends(es[1..], e);
      assert es + [e] == [es[0]] + (es[1..] + [e]);
    }
  }

  lemma {:induction false} FailureSpreads(parse: Parser, dir: Directory, es: seq<Entry>, files: seq<Filename>, i: nat)
    requires (forall f :: f in files ==> f in dir) && i <= |files|
    requires RefreshAll(parse, dir, es, files[..i]).None?
    ensures RefreshAll(parse, dir, es, files).None?
    decreases |files| - i
  {
    if i == |files| {
      assert files[..i] == files;
    } else {
      assert files[..i + 1][..i] == files[..i];
      FailureSpreads(parse, dir, es, files, i + 1);
    }
  }
}
