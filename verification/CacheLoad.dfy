/** Loading through the cache, loading without it, and the watcher's update. */
module CacheLoad {
  import opened Services
  import opened Cache

  /** Some name is looked up differently: the two entry lists are not the same. */
  ghost predicate Differs(a: seq<Entry>, b: seq<Entry>, g: Filename) {
    Find(a, g) != Find(b, g)
  }

  lemma {:induction false} RetainDrops(es: seq<Entry>, keep: set<Filename>)
    ensures |Retain(es, keep)| <= |es|
    ensures |Retain(es, keep)| == |es| ==> Retain(es, keep) == es
    ensures |Retain(es, keep)| < |es| ==> exists g :: g !in keep && Find(es, g).Some?
  {
    if es == [] {
    } else {
      RetainDrops(es[1..], keep);
      assert es == [es[0]] + es[1..];
      if es[0].filename !in keep {
        assert Find(es, es[0].filename).Some?;
      } else if |Retain(es[1..], keep)| < |es[1..]| {
        var g :| g !in keep && Find(es[1..], g).Some?;
        assert Find(es, g).Some?;
      }
    }
  }

  /** Dropping the entries of deleted files: if the length changed, some name is no longer found. */
  method DropDeleted(entries: seq<Entry>, keep: set<Filename>) returns (kept: seq<Entry>, changed: bool, ghost g: Filename)
    ensures kept == Retain(entries, keep)
    ensures !changed ==> kept == entries
    ensures changed ==> g !in keep && Differs(entries, kept, g)
  {
    kept := Retain(entries, keep);
    changed := |kept| != |entries|;
    g := "";
    RetainDrops(entries, keep);
    if changed {
      g :| g !in keep && Find(entries, g).Some?;
      FindRetained(entries, keep, g);
    }
  }

  /** The update loop over the scanned files; `changed` is set exactly by updates that show. */
  method RefreshLoop(parse: Parser, dir: Directory, files: seq<Filename>, start: seq<Entry>)
    returns (r: Option<seq<Entry>>, changed: bool, ghost g: Filename)
    requires Lists(files, dir)
    ensures r == RefreshAll(parse, dir, start, files)
    ensures r.Some? && !changed ==> r.value == start
    ensures r.Some? && changed ==> g in files && Differs(start, r.value, g)
  {
    hide RefreshAll, RefreshOne, Upsert, Find, Differs;
    RefreshStarts(parse, dir, start);
    var entries := start;
    changed, g := false, "";
    for i := 0 to |files|
      invariant RefreshAll(parse, dir, start, files[..i]) == Some(entries)
      invariant !changed ==> entries == start
      invariant changed ==> g in files[..i] && Differs(start, entries, g)
    {
      var f := files[i];
      assert files[..i + 1] == files[..i] + [f];
      RefreshNext(parse, dir, start, files, i);
      var secs := SecsOf(dir[f].mtime);
      if secs.None? {
        FailureSpreads(parse, dir, start, files, i + 1);
        return None, changed, g;
      }
      if !IsFresh(entries, f, secs.value) {
        var def := parse(dir[f].content);
        if def.None? {
          FailureSpreads(parse, dir, start, files, i + 1);
          return None, changed, g;
        }
        var e := Entry(f, secs.value, def.value);
        ShowsUpdate(parse, dir, start, files, i, entries, e, if changed then g else f);
        entries := Upsert(entries, e);
        changed, g := true, if changed then g else f;
      }
    }
    assert files[..|files|] == files;
    r := Some(entries);
  }

  lemma RefreshStarts(parse: Parser, dir: Directory, start: seq<Entry>)
    ensures RefreshAll(parse, dir, start, []) == Some(start)
  {
  }

  /** One more file of the scan. */
  lemma RefreshNext(parse: Parser, dir: Directory, start: seq<Entry>, files: seq<Filename>, i: nat)
    requires (forall f :: f in files ==> f in dir) && i < |files| && RefreshAll(parse, dir, start, files[..i]).Some?
    ensures var entries := RefreshAll(parse, dir, start, files[..i]).value;
            var f := files[i];
            var secs := SecsOf(dir[f].mtime);
            RefreshAll(parse, dir, start, files[..i + 1]) ==
            if secs.None? then None
            else if IsFresh(entries, f, secs.value) then Some(entries)
            else if parse(dir[f].content).None? then None
            else Some(Upsert(entries, Entry(f, secs.value, parse(dir[f].content).value)))
  {
    hide Upsert, IsFresh;
    assert files[..i + 1][..i] == files[..i];
  }

  /** Updating a file that was not fresh shows, and does not hide an earlier update. */
  lemma ShowsUpdate(parse: Parser, dir: Directory, start: seq<Entry>, files: seq<Filename>, i: nat,
                    entries: seq<Entry>, e: Entry, g: Filename)
    requires Lists(files, dir) && i < |files| && RefreshAll(parse, dir, start, files[..i]) == Some(entries)
    requires e.filename == files[i] && !IsFresh(entries, files[i], e.mtimeSecs)
    requires g == files[i] || (g in files[..i] && Differs(start, entries, g))
    ensures Differs(start, Upsert(entries, e), g)
  {
    FindUpserted(entries, e, g);
    if g == files[i] {
      RefreshFinds(parse, dir, start, files[..i]);
      assert files[i] !in files[..i];
      assert Find(entries, g) == Find(start, g);
    }
  }

  /**
   `load_services_cached`. It fails exactly when a file that has to be parsed or dated cannot be, and
   then leaves the manifest alone. Otherwise it returns the definitions of the entries it has stored,
   and writes exactly when there was no readable manifest or the entries differ from it.
   */
  method LoadServicesCached(store: ManifestStore, parse: Parser, dir: Directory)
    returns (r: Option<seq<ServiceDef>>, ghost files: seq<Filename>)
    modifies store
    ensures Lists(files, dir)
    ensures forall f :: f in files <==> f in dir && exists stem :: IsStem(stem, f) && stem != ""
    ensures r.Some? <==> LoadEntries(parse, dir, old(store.stored), files).Some?
    ensures r.None? ==> store.stored == old(store.stored) && store.writes == old(store.writes)
    ensures r.Some? ==>
              var es := LoadEntries(parse, dir, old(store.stored), files).value;
              && r.value == DefsOf(es) && |r.value| == |es| && (forall i :: 0 <= i < |es| ==> r.value[i] == es[i].def)
              && store.stored == Saved(Manifest(MANIFEST_VERSION, es))
              && store.writes == old(store.writes) +
                 if ReadManifest(old(store.stored)).Some? && es == EntriesOf(old(store.stored)) then 0 else 1
  {
    var scanned := Scan(dir);
    files := scanned;
    match ReadManifest(store.stored)
    case Some(manifest) =>
      var kept, dropped, gone := DropDeleted(manifest.entries, TomlFiles(dir));
      var refreshed, updated, shown := RefreshLoop(parse, dir, scanned, kept);
      if refreshed.None? {
        return None, files;
      }
      WritesIffChanged(parse, dir, manifest.entries, kept, scanned, dropped, gone, updated, shown);
      if dropped || updated {
        store.Write(refreshed.value);
      }
      r := Some(DefsOf(refreshed.value));
    case None =>
      assert Retain([], TomlFiles(dir)) == [];
      var built := BuildManifest(parse, dir, scanned);
      if built.None? {
        return None, files;
      }
      store.Write(built.value);
      r := Some(DefsOf(built.value));
  }

  /**
   The load at boot and the one the watcher starts with: on an unchanged directory the second returns
   the same definitions in the same order, and the manifest is written as by the first alone.
   */
  method LoadTwice(store: ManifestStore, parse: Parser, dir: Directory)
    returns (first: Option<seq<ServiceDef>>, second: Option<seq<ServiceDef>>, ghost files: seq<Filename>)
    requires Unique(EntriesOf(store.stored))
    modifies store
    ensures first.Some? ==> second == first
    ensures first.Some? ==>
              && Lists(files, dir) && LoadEntries(parse, dir, old(store.stored), files).Some?
              && var es := LoadEntries(parse, dir, old(store.stored), files).value;
                 && store.stored == Saved(Manifest(MANIFEST_VERSION, es))
                 && store.writes == old(store.writes) +
                    if ReadManifest(old(store.stored)).Some? && es == EntriesOf(old(store.stored)) then 0 else 1
  {
    first, files := LoadServicesCached(store, parse, dir);
    ghost var again;
    second, again := LoadServicesCached(store, parse, dir);
    if first.Some? {
      LoadAgain(parse, dir, old(store.stored), files, again);
    }
  }

  lemma WritesIffChanged(parse: Parser, dir: Directory, was: seq<Entry>, kept: seq<Entry>, files: seq<Filename>,
                         dropped: bool, gone: Filename, updated: bool, shown: Filename)
    requires Lists(files, dir) && kept == Retain(was, TomlFiles(dir)) && RefreshAll(parse, dir, kept, files).Some?
    requires if dropped then gone !in TomlFiles(dir) && Differs(was, kept, gone) else kept == was
    requires var es := RefreshAll(parse, dir, kept, files).value;
             if updated then shown in files && Differs(kept, es, shown) else es == kept
    ensures dropped || updated <==> RefreshAll(parse, dir, kept, files).value != was
  {
    RefreshFinds(parse, dir, kept, files);
    FindRetained(was, TomlFiles(dir), gone);
    FindRetained(was, TomlFiles(dir), shown);
  }

  ghost predicate AllValidate(parse: Parser, validate: ServiceDef -> bool, dir: Directory) {
    forall f :: f in dir && HasTomlExtension(f) && parse(dir[f].content).Some? ==> validate(parse(dir[f].content).value)
  }

  /** What a load without the cache returns, for a scan order. */
  ghost function FreshLoad(parse: Parser, validate: ServiceDef -> bool, dir: Directory, files: seq<Filename>): Option<seq<ServiceDef>>
    requires forall f :: f in files ==> f in dir
  {
    if forall f :: f in files ==> parse(dir[f].content).Some? && validate(parse(dir[f].content).value)
    then Some(ParseAll(parse, dir, files)) else None
  }

  /** `load_services_from_dir`: every file parsed and validated, in scan order. */
  method LoadServicesFromDir(parse: Parser, validate: ServiceDef -> bool, dir: Directory)
    returns (r: Option<seq<ServiceDef>>, ghost files: seq<Filename>)
    ensures forall f :: f in files <==> f in dir && exists stem :: IsStem(stem, f) && stem != ""
    ensures Lists(files, dir) && r == FreshLoad(parse, validate, dir, files)
    ensures r.Some? <==>
            forall f :: f in dir && HasTomlExtension(f) ==> parse(dir[f].content).Some? && validate(parse(dir[f].content).value)
  {
    var scanned := Scan(dir);
    files := scanned;
    var services := [];
    for i := 0 to |scanned|
      invariant |services| == i
      invariant forall j :: 0 <= j < i ==>
                  && parse(dir[scanned[j]].content) == Some(services[j]) && validate(services[j])
    {
      var def := parse(dir[scanned[i]].content);
      if def.None? || !validate(def.value) {
        assert scanned[i] in files;
        return None, files;
      }
      services := services + [def.value];
    }
    assert services == ParseAll(parse, dir, files);
    r := Some(services);
  }

  /**
   The two loaders, with unique names in the manifest, files that parse and nothing stale. The cached
   one succeeds; the other one does if and only if every definition validates, and then the results
   are the same up to order. So the cache lets in what the other refuses exactly when some definition
   does not validate.
   */
  lemma CachedAgainstValidating(parse: Parser, validate: ServiceDef -> bool, dir: Directory, stored: Stored,
                                files: seq<Filename>, scan: seq<Filename>)
    requires Lists(files, dir) && Lists(scan, dir) && Unique(EntriesOf(stored))
    requires AllParse(parse, dir) && NoneStale(parse, dir, EntriesOf(stored))
    ensures LoadEntries(parse, dir, stored, files).Some?
    ensures FreshLoad(parse, validate, dir, scan).Some? <==> AllValidate(parse, validate, dir)
    ensures FreshLoad(parse, validate, dir, scan).Some? ==>
              multiset(FreshLoad(parse, validate, dir, scan).value) ==
              multiset(DefsOf(LoadEntries(parse, dir, stored, files).value))
  {
    CachedEqualsFresh(parse, dir, stored, files, scan);
    hide LoadEntries, NoDuplicates, NoneStale;
  }

  /** Both loaders on one directory. */
  method LoadBothWays(store: ManifestStore, parse: Parser, validate: ServiceDef -> bool, dir: Directory)
    returns (cached: Option<seq<ServiceDef>>, parsed: Option<seq<ServiceDef>>)
    requires Unique(EntriesOf(store.stored)) && AllParse(parse, dir) && NoneStale(parse, dir, EntriesOf(store.stored))
    modifies store
    ensures cached.Some?
    ensures parsed.Some? <==> AllValidate(parse, validate, dir)
    ensures parsed.Some? ==> multiset(parsed.value) == multiset(cached.value)
  {
    ghost var was := store.stored;
    ghost var files, scan;
    cached, files := LoadServicesCached(store, parse, dir);
    parsed, scan := LoadServicesFromDir(parse, validate, dir);
    hide AllValidate, FreshLoad, LoadEntries, DefsOf;
    CachedAgainstValidating(parse, validate, dir, was, files, scan);
  }

  /** `name.ends_with(".toml")`: unlike the scan, this accepts a name that is only the suffix. */
  predicate EndsWithToml(f: Filename) {
    |f| >= 5 && f[|f| - 5..] == ".toml"
  }

  lemma EndsWithIff(f: Filename)
    ensures EndsWithToml(f) <==> exists stem :: IsStem(stem, f)
  {
    if EndsWithToml(f) {
      assert IsStem(f[..|f| - 5], f);
    }
    if stem :| IsStem(stem, f) {
      assert f[|f| - 5..] == ".toml";
    }
  }

  /** The one name on which the watcher and the scan disagree. */
  lemma WatchedNotScannedIff(f: Filename)
    ensures EndsWithToml(f) && !HasTomlExtension(f) <==> f == ".toml"
  {
  }

  /** One watcher event: read the manifest or start an empty one, update it, write it back. */
  method HandleWatchEvent(store: ManifestStore, parse: Parser, dir: Directory, f: Filename, deleted: bool)
    modifies store
    ensures !EndsWithToml(f) ==> store.stored == old(store.stored) && store.writes == old(store.writes)
    ensures EndsWithToml(f) ==>
              && store.stored == Saved(Manifest(MANIFEST_VERSION,
                                                WatchEntries(parse, dir, EntriesOf(old(store.stored)), f, deleted)))
              && store.writes == old(store.writes) + 1
  {
    if !EndsWithToml(f) {
      return;
    }
    var entries := EntriesOf(store.stored);
    if deleted {
      entries := Retain(entries, (set e | e in entries :: e.filename) - {f});
    } else if f in dir {
      match (parse(dir[f].content), SecsOf(dir[f].mtime))
      case (Some(def), Some(secs)) => entries := Upsert(entries, Entry(f, secs, def));
      case _ =>
    }
    store.Write(entries);
  }

  /**
   What the watcher's update means for a lookup: a deleted file is no longer found, a file that reads
   and parses is found as it is now, and every other lookup is as before.
   */
  lemma WatchFinds(parse: Parser, dir: Directory, es: seq<Entry>, f: Filename, deleted: bool, g: Filename)
    ensures g != f ==> Find(WatchEntries(parse, dir, es, f, deleted), g) == Find(es, g)
    ensures deleted ==> Find(WatchEntries(parse, dir, es, f, deleted), f) == None
    ensures !deleted && f in dir && SecsOf(dir[f].mtime).Some? && parse(dir[f].content).Some? ==>
              var now := Entry(f, SecsOf(dir[f].mtime).value, parse(dir[f].content).value);
              Find(WatchEntries(parse, dir, es, f, deleted), f) == Some(now)
    ensures !deleted && (f !in dir || SecsOf(dir[f].mtime).None? || parse(dir[f].content).None?) ==>
              WatchEntries(parse, dir, es, f, deleted) == es
  {
    if deleted {
      var keep := (set e | e in es :: e.filename) - {f};
      FindRetained(es, keep, f);
      FindRetained(es, keep, g);
      FindMember(es, g);
      if Find(es, g).Some? {
        assert Find(es, g).value.filename == g;
      }
    } else if f in dir && SecsOf(dir[f].mtime).Some? && parse(dir[f].content).Some? {
      var e := Entry(f, SecsOf(dir[f].mtime).value, parse(dir[f].content).value);
      FindUpserted(es, e, f);
      FindUpserted(es, e, g);
    }
  }

  /**
   The watcher records a file it is told of, if it can be dated and parsed; the next load drops that
   entry exactly when the file is the one named `.toml`.
   */
  lemma WatchedThenLoaded(parse: Parser, dir: Directory, stored: Stored, f: Filename, files: seq<Filename>)
    requires Unique(EntriesOf(stored)) && Lists(files, dir) && f in dir && EndsWithToml(f)
    requires SecsOf(dir[f].mtime).Some? && parse(dir[f].content).Some?
    ensures var watched := WatchEntries(parse, dir, EntriesOf(stored), f, false);
            && Find(watched, f) == Some(Entry(f, SecsOf(dir[f].mtime).value, parse(dir[f].content).value))
            && var loaded := LoadEntries(parse, dir, Saved(Manifest(MANIFEST_VERSION, watched)), files);
               loaded.Some? ==> (Find(loaded.value, f) == None <==> f == ".toml")
  {
    var es := EntriesOf(stored);
    var watched := WatchEntries(parse, dir, es, f, false);
    WatchFinds(parse, dir, es, f, false, f);
    UniqueUpserted(es, Entry(f, SecsOf(dir[f].mtime).value, parse(dir[f].content).value));
    var saved := Saved(Manifest(MANIFEST_VERSION, watched));
    WatchedNotScannedIff(f);
    if LoadEntries(parse, dir, saved, files).Some? {
      LoadFinds(parse, dir, saved, files);
      var loaded := LoadEntries(parse, dir, saved, files).value;
      FindMember(loaded, f);
    }
  }
}
