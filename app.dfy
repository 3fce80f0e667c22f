/** The application commands (src-tauri/src/lib.rs): the shared `AppState`, loading a
    previously built index, building one, searching it and reporting its status.
    The file system is an input: which stores exist and what they hold, which roots
    exist and what walking them yields, and which I/O steps fail. */
module App {
  import opened Wrappers
  import opened Index
  import opened Search
  import opened Calendar

  /** What is on disk when a command runs: the sled store and the tantivy index
      under the app data directory, if present, with their contents, and the roots
      that exist, each with what walking it yields. Both passes of a build see this
      one snapshot of the roots. */
  datatype Disk = Disk(
    storedDb: Option<map<string, FileEntity>>,
    storedIndex: Option<seq<Doc>>,
    roots: map<string, seq<WalkItem>>)

  /** Which I/O steps fail: the data-directory lookup, deleting either store on a
      forced rebuild, opening either store while loading, opening either store or
      the writer while rebuilding, the save or add of the entity with a given
      position in the build, and the commit. */
  datatype Faults = Faults(
    dataDirFails: bool,
    dbDeleteFails: bool, indexDeleteFails: bool,
    loadDbFails: bool, loadIndexFails: bool,
    dbOpenFails: bool, indexOpenFails: bool, writerFails: bool,
    saveFailsAt: Option<nat>, addFailsAt: Option<nat>,
    commitFails: bool)

  /** The hard errors `build_index` returns with `?`; each stands for the message the
      source formats ("Failed to get app data directory: …", "Failed to create index
      manager: …", and so on). */
  datatype BuildFailure =
    | DataDirUnavailable | IndexManagerFailed | SearchIndexFailed | WriterFailed
    | SaveFailed | AddFailed | CommitFailed

  datatype BuildStatus = BuildFailed | Completed

  /** The JSON object `build_index` returns. */
  datatype BuildReport = BuildReport(status: BuildStatus, filesIndexed: nat, errors: seq<string>, message: Option<string>)

  /** An `index-progress` event. */
  datatype Progress = Progress(processed: nat, total: nat)

  /** One entry of `search_files`' `results`. */
  datatype FileResult = FileResult(name: string, path: string, size: nat, modified: string, isFolder: bool)

  /** The JSON object `search_files` returns. */
  datatype SearchResponse = SearchResponse(results: seq<FileResult>, totalFound: nat, searchTimeMs: nat)

  /** The JSON object `get_index_status` returns. */
  datatype IndexStatus = IndexStatus(isReady: bool, totalFiles: nat, lastUpdated: Option<string>, indexingInProgress: bool)

  const ProgressEvery: nat := 50
  const DefaultLimit: nat := 1000
  const MissingRootPrefix: string := "Path does not exist: "

  // ---- what a build computes ----

  /** The first pass: the number of walk items under every root that exists. */
  function Estimate(paths: seq<string>, roots: map<string, seq<WalkItem>>): nat {
    if paths == [] then 0
    else
      var p := paths[|paths| - 1];
      Estimate(paths[..|paths| - 1], roots) + (if p in roots then |roots[p]| else 0)
  }

  /** The entities a root contributes to the second pass. */
  function RootEntities(digest: Digest, p: string, roots: map<string, seq<WalkItem>>): seq<FileEntity> {
    if p in roots then Traversal(digest, roots[p]) else []
  }

  /** The entities a root contributes, as a function of the root. */
  function RootsOf(digest: Digest, roots: map<string, seq<WalkItem>>): string -> seq<FileEntity> {
    p => RootEntities(digest, p, roots)
  }

  /** The sequences `f` gives for the elements of `xs`, concatenated in order. */
  function Flattened<A, B>(f: A -> seq<B>, xs: seq<A>): seq<B> {
    if xs == [] then [] else Flattened(f, xs[..|xs| - 1]) + f(xs[|xs| - 1])
  }

  /** The second pass: the entities of every existing root, root by root. */
  function IndexedEntities(digest: Digest, paths: seq<string>, roots: map<string, seq<WalkItem>>): seq<FileEntity> {
    Flattened(RootsOf(digest, roots), paths)
  }

  /** The soft errors: one message per root that does not exist, in order. */
  function MissingRootErrors(paths: seq<string>, roots: map<string, seq<WalkItem>>): seq<string> {
    if paths == [] then []
    else
      var p := paths[|paths| - 1];
      MissingRootErrors(paths[..|paths| - 1], roots) + (if p in roots then [] else [MissingRootPrefix + p])
  }

  /** The progress events emitted while the count of indexed files goes from `from`
      to `to`: one for each multiple of 50 passed, in order. */
  function ProgressFrom(from: nat, to: nat, total: nat): seq<Progress> {
    var first, last := from / ProgressEvery, to / ProgressEvery;
    if last <= first then []
    else seq(last - first, i requires 0 <= i => Progress(ProgressEvery * (first + i + 1), total))
  }

  /** The tantivy document built for an entity. */
  function DocOf(e: FileEntity): Doc {
    Doc(Some(e.name), Some(e.path), Some(e.size), Some(e.modified), Some(e.isFolder))
  }

  /** `f` applied to every element, in order. */
  function Mapped<A, B>(f: A -> B, xs: seq<A>): seq<B> {
    seq(|xs|, i requires 0 <= i < |xs| => f(xs[i]))
  }

  /** The documents of a run of entities, in order. */
  function DocsOf(es: seq<FileEntity>): seq<Doc> {
    Mapped(DocOf, es)
  }

  /** The first save or add failure among the first `n` entities, if any; when both
      hit the same entity, the save comes first. */
  function EntityFault(faults: Faults, n: nat): Option<BuildFailure> {
    var s := faults.saveFailsAt;
    var a := faults.addFailsAt;
    if s.Some? && s.value < n && (a.None? || s.value <= a.value) then Some(SaveFailed)
    else if a.Some? && a.value < n then Some(AddFailed)
    else None
  }

  /** The store left after the delete step of a forced rebuild. */
  function StoreAfterDelete<T>(stored: Option<T>, forceRebuild: bool, deleteFails: bool): Option<T> {
    if forceRebuild && !deleteFails then None else stored
  }

  /** The first hard error of a rebuild, in the order the source meets them. */
  function RebuildFault(faults: Faults, n: nat): Option<BuildFailure> {
    if faults.dbOpenFails then Some(IndexManagerFailed)
    else if faults.indexOpenFails then Some(SearchIndexFailed)
    else if faults.writerFails then Some(WriterFailed)
    else if EntityFault(faults, n).Some? then EntityFault(faults, n)
    else if faults.commitFails then Some(CommitFailed)
    else None
  }

  /** A non-forced build reuses the stores when both exist and both open. */
  predicate Reuses(disk: Disk, forceRebuild: bool, faults: Faults) {
    !forceRebuild && disk.storedDb.Some? && disk.storedIndex.Some? && !faults.loadDbFails && !faults.loadIndexFails
  }

  // ---- lemmas about a build ----

  lemma {:induction false} FlattenedConcat<A, B>(f: A -> seq<B>, a: seq<A>, b: seq<A>)
    ensures Flattened(f, a + b) == Flattened(f, a) + Flattened(f, b)
    decreases |b|
  {
    if b == [] {
      assert a + b == a;
    } else {
      var n := |b| - 1;
      assert (a + b)[..|a + b| - 1] == a + b[..n];
      FlattenedConcat(f, a, b[..n]);
    }
  }

  lemma IndexedEntitiesConcat(digest: Digest, a: seq<string>, b: seq<string>, roots: map<string, seq<WalkItem>>)
    ensures IndexedEntities(digest, a + b, roots) == IndexedEntities(digest, a, roots) + IndexedEntities(digest, b, roots)
  {
    FlattenedConcat(RootsOf(digest, roots), a, b);
  }

  /** One more root adds its entities, or its error message when it is missing. */
  lemma RootStep(digest: Digest, paths: seq<string>, i: nat, roots: map<string, seq<WalkItem>>)
    requires i < |paths|
    ensures IndexedEntities(digest, paths[..i + 1], roots)
         == IndexedEntities(digest, paths[..i], roots) + RootEntities(digest, paths[i], roots)
    ensures MissingRootErrors(paths[..i + 1], roots)
         == MissingRootErrors(paths[..i], roots) + (if paths[i] in roots then [] else [MissingRootPrefix + paths[i]])
  {
    assert paths[..i + 1][..i] == paths[..i];
  }

  /** The roots before `k` yield no more entities than all of them. */
  lemma IndexedPrefix(digest: Digest, paths: seq<string>, k: nat, roots: map<string, seq<WalkItem>>)
    requires k <= |paths|
    ensures |IndexedEntities(digest, paths[..k], roots)| <= |IndexedEntities(digest, paths, roots)|
  {
    IndexedEntitiesConcat(digest, paths[..k], paths[k..], roots);
    assert paths[..k] + paths[k..] == paths;
  }

  lemma DocsOfConcat(a: seq<FileEntity>, b: seq<FileEntity>)
    ensures DocsOf(a + b) == DocsOf(a) + DocsOf(b)
  {
  }

  /** The files indexed never outnumber the first pass's estimate, and every one of
      them is a well-formed entity of its path. */
  lemma {:induction false} IndexedWithinEstimate(digest: Digest, paths: seq<string>, roots: map<string, seq<WalkItem>>)
    ensures |IndexedEntities(digest, paths, roots)| <= Estimate(paths, roots)
    ensures forall e | e in IndexedEntities(digest, paths, roots) :: WellFormed(digest, e)
  {
    if paths != [] {
      var init := paths[..|paths| - 1];
      var p := paths[|paths| - 1];
      IndexedWithinEstimate(digest, init, roots);
      if p in roots {
        TraversalWellFormed(digest, roots[p]);
      }
    }
  }

  /** A missing root is reported, not fatal: every message names a requested path
      that does not exist, every such path has its message, and there are no more
      messages than roots. */
  lemma {:induction false} MissingRootsReported(paths: seq<string>, roots: map<string, seq<WalkItem>>)
    ensures |MissingRootErrors(paths, roots)| <= |paths|
    ensures forall m | m in MissingRootErrors(paths, roots) :: exists p | p in paths :: p !in roots && m == MissingRootPrefix + p
    ensures forall p | p in paths && p !in roots :: MissingRootPrefix + p in MissingRootErrors(paths, roots)
    ensures (forall p | p in paths :: p in roots) ==> MissingRootErrors(paths, roots) == []
  {
    if paths != [] {
      var init, last := paths[..|paths| - 1], paths[|paths| - 1];
      MissingRootsReported(init, roots);
      assert paths == init + [last];
      var before := MissingRootErrors(init, roots);
      var errs := MissingRootErrors(paths, roots);
      assert errs == before + (if last in roots then [] else [MissingRootPrefix + last]);
      forall m | m in errs ensures exists p | p in paths :: p !in roots && m == MissingRootPrefix + p {
        if m in before {
          var p :| p in init && p !in roots && m == MissingRootPrefix + p;
          assert p in paths;
        } else {
          assert last in paths;
        }
      }
      forall p | p in paths && p !in roots ensures MissingRootPrefix + p in errs {
        if p != last {
          assert p in init;
        }
      }
    }
  }

  /** One more indexed file adds an event exactly when the count reaches a multiple of 50. */
  lemma ProgressFromStep(from: nat, to: nat, total: nat)
    requires from <= to
    ensures ProgressFrom(from, to + 1, total)
         == ProgressFrom(from, to, total) + (if (to + 1) % ProgressEvery == 0 then [Progress(to + 1, total)] else [])
  {
  }

  /** The events of two consecutive stretches of counting are those of the whole. */
  lemma ProgressFromSplit(a: nat, b: nat, c: nat, total: nat)
    requires a <= b <= c
    ensures ProgressFrom(a, c, total) == ProgressFrom(a, b, total) + ProgressFrom(b, c, total)
  {
  }

  /** The progress events of a build of `n` files: one for every multiple of 50 up to
      `n` and for no other count, each against the same estimate. */
  lemma ProgressEveryFifty(n: nat, total: nat)
    ensures |ProgressFrom(0, n, total)| == n / ProgressEvery
    ensures forall k: nat :: Progress(k, total) in ProgressFrom(0, n, total) <==> 0 < k <= n && k % ProgressEvery == 0
  {
    var ps := ProgressFrom(0, n, total);
    forall k: nat ensures Progress(k, total) in ps <==> 0 < k <= n && k % ProgressEvery == 0 {
      if 0 < k <= n && k % ProgressEvery == 0 {
        assert ps[k / ProgressEvery - 1] == Progress(k, total);
      }
    }
  }

  /** With no failure among the first `k` entities, the entity at position `k` fails
      its save, else its add, else the first `k + 1` entities have no failure either. */
  lemma EntityFaultNext(faults: Faults, k: nat)
    requires EntityFault(faults, k).None?
    ensures faults.saveFailsAt == Some(k) ==> EntityFault(faults, k + 1) == Some(SaveFailed)
    ensures faults.saveFailsAt != Some(k) && faults.addFailsAt == Some(k) ==> EntityFault(faults, k + 1) == Some(AddFailed)
    ensures faults.saveFailsAt != Some(k) && faults.addFailsAt != Some(k) ==> EntityFault(faults, k + 1).None?
  {
  }

  /** Once the entity at position `k` fails, the build's entity fault is that failure
      however many entities there are. */
  lemma EntityFaultStable(faults: Faults, k: nat, m: nat)
    requires k <= m && EntityFault(faults, k).Some?
    ensures EntityFault(faults, m) == EntityFault(faults, k)
  {
  }

  /** A rebuild over a store that was not deleted adds the documents again: a
      document already in the index is then there twice, while the key-value store
      keeps one entry per id, so re-saving known ids adds no key. */
  lemma RebuildDuplicatesDocuments(base: seq<Doc>, db: map<string, FileEntity>, es: seq<FileEntity>, e: FileEntity)
    requires e in es && DocOf(e) in base
    ensures multiset(base + DocsOf(es))[DocOf(e)] >= 2
    ensures |Upserted(db, es)| <= |db| + |es|
    ensures (forall x | x in es :: x.id in db) ==> Upserted(db, es).Keys == db.Keys
  {
    if forall x | x in es :: x.id in db {
      UpsertedKnownIds(db, es);
    }
    var i :| 0 <= i < |es| && es[i] == e;
    assert DocsOf(es)[i] == DocOf(e);
    assert multiset(base + DocsOf(es)) == multiset(base) + multiset(DocsOf(es));
    UpsertedKeys(db, es);
  }

  // ---- search results ----

  /** One `results` entry: the stored fields, with "", 0, the current time and false
      for the missing ones, and the time in chrono's RFC 3339 rendering. */
  function Project(d: Doc, now: int): FileResult {
    FileResult(d.name.GetOr(""), d.path.GetOr(""), d.size.GetOr(0),
               FormatTimestampIso8601(d.modified.GetOr(now)), d.isFolder.GetOr(false))
  }

  /** The projection of every document at the same time `now`. */
  function ProjectAt(now: int): Doc -> FileResult {
    d => Project(d, now)
  }

  /** Mapping one more element appends its image. */
  lemma MappedStep<A, B>(f: A -> B, xs: seq<A>, i: nat)
    requires i < |xs|
    ensures Mapped(f, xs[..i + 1]) == Mapped(f, xs[..i]) + [f(xs[i])]
  {
    assert xs[..i + 1][..i] == xs[..i];
  }

  /** A result built from an indexed entity carries the entity's fields, and its time
      string reads back as the entity's modification time. */
  lemma ResultOfIndexedEntity(e: FileEntity, now: int)
    requires InChronoRange(e.modified)
    ensures var r := Project(DocOf(e), now);
      r.name == e.name && r.path == e.path && r.size == e.size && r.isFolder == e.isFolder
      && ParseTimestamp(r.modified) == Some(e.modified)
  {
    FormatRoundTrip(e.modified);
  }

  /** A document missing every stored field projects to the defaults, stamped now. */
  lemma EmptyDocDefaults(now: int)
    requires InChronoRange(now)
    ensures var r := Project(Doc(None, None, None, None, None), now);
      r.name == "" && r.path == "" && r.size == 0 && !r.isFolder && ParseTimestamp(r.modified) == Some(now)
  {
    FormatRoundTrip(now);
  }

  /** An optional time in chrono's range renders as a string that reads back as it. */
  lemma TimeTextReadsBack(t: Option<int>)
    ensures t.Some? && InChronoRange(t.value) ==> ParseTimestamp(FormatTimestampIso8601(t.value)) == t
  {
    if t.Some? && InChronoRange(t.value) {
      FormatRoundTrip(t.value);
    }
  }

  /** `AppState`: the shared state of the commands, taken as one sequential object. */
  class AppState {
    const digest: Digest
    var indexManager: Option<IndexManager>
    var searchIndex: Option<SearchIndex>
    var isIndexing: bool
    var totalFiles: nat
    var lastUpdated: Option<int>

    /** `AppState::default`. */
    constructor (digest: Digest)
      ensures this.digest == digest
      ensures indexManager.None? && searchIndex.None? && !isIndexing && totalFiles == 0 && lastUpdated.None?
    {
      this.digest := digest;
      indexManager := None;
      searchIndex := None;
      isIndexing := false;
      totalFiles := 0;
      lastUpdated := None;
    }

    /** `get_index_status`: ready exactly when a search index is installed, and the
        last-update time, when there is one, as a string that reads back as it. */
    function GetIndexStatus(): (s: IndexStatus)
      reads this
      ensures s.isReady <==> searchIndex.Some?
      ensures s.totalFiles == totalFiles && s.indexingInProgress == isIndexing
      ensures s.lastUpdated.Some? <==> lastUpdated.Some?
      ensures lastUpdated.Some? && InChronoRange(lastUpdated.value) ==> ParseTimestamp(s.lastUpdated.value) == lastUpdated
    {
      TimeTextReadsBack(lastUpdated);
      IndexStatus(searchIndex.Some?, totalFiles,
                  if lastUpdated.Some? then Some(FormatTimestampIso8601(lastUpdated.value)) else None, isIndexing)
    }

    /** `load_existing_index`: `Ok(false)`, with nothing changed, unless both stores
        exist and open; then both are installed, the file count is the store's size
        and the update time is now. */
    method LoadExistingIndex(disk: Disk, faults: Faults, now: int) returns (r: Result<bool, string>)
      modifies this
      ensures faults.dataDirFails ==> r.Err?
      ensures !faults.dataDirFails ==> r.Ok?
      ensures r != Ok(true) ==>
        indexManager == old(indexManager) && searchIndex == old(searchIndex)
        && totalFiles == old(totalFiles) && lastUpdated == old(lastUpdated)
      ensures r == Ok(true) <==> !faults.dataDirFails && Reuses(disk, false, faults)
      ensures r == Ok(true) ==>
        && indexManager.Some? && fresh(indexManager.value) && indexManager.value.digest == digest
        && indexManager.value.db == disk.storedDb.value
        && searchIndex.Some? && fresh(searchIndex.value)
        && searchIndex.value.committed == disk.storedIndex.value && searchIndex.value.snapshot == disk.storedIndex.value
        && totalFiles == |disk.storedDb.value| && lastUpdated == Some(now)
      ensures isIndexing == old(isIndexing)
    {
      if faults.dataDirFails {
        return Err("Failed to get app data directory");
      }
      if disk.storedDb.None? || disk.storedIndex.None? {
        return Ok(false);
      }
      if faults.loadDbFails {
        return Ok(false);
      }
      var manager := new IndexManager(digest, disk.storedDb.value);
      if faults.loadIndexFails {
        return Ok(false);
      }
      var index := new SearchIndex(disk.storedIndex);
      var count := manager.CountFiles();
      indexManager := Some(manager);
      searchIndex := Some(index);
      totalFiles := count;
      lastUpdated := Some(now);
      r := Ok(true);
    }

    /** `build_index`. A call while another build runs fails at once and changes
        nothing. Otherwise the build flag is set; a non-forced build with both stores
        present and openable reuses them; any other build reopens or recreates the
        stores, indexes every existing root and reports the missing ones, commits, and
        installs the new stores. A hard error returns with the flag still set and the
        installed stores untouched. */
    method BuildIndex(paths: seq<string>, forceRebuild: bool, disk: Disk, faults: Faults, now: int)
      returns (r: Result<BuildReport, BuildFailure>, events: seq<Progress>)
      modifies this
      ensures old(isIndexing) ==>
        r == Ok(BuildReport(BuildFailed, 0, ["Indexing already in progress"], None)) && events == []
        && isIndexing && indexManager == old(indexManager) && searchIndex == old(searchIndex)
        && totalFiles == old(totalFiles) && lastUpdated == old(lastUpdated)
      ensures !old(isIndexing) && faults.dataDirFails ==> r == Err(DataDirUnavailable)
      ensures !old(isIndexing) && !faults.dataDirFails && Reuses(disk, forceRebuild, faults) ==>
        r == Ok(BuildReport(Completed, 0, [], Some("Using existing index"))) && events == [] && !isIndexing
        && indexManager.Some? && indexManager.value.db == disk.storedDb.value
        && searchIndex.Some? && searchIndex.value.committed == disk.storedIndex.value
        && totalFiles == |disk.storedDb.value| && lastUpdated == Some(now)
      ensures r.Err? ==>
        isIndexing && indexManager == old(indexManager) && searchIndex == old(searchIndex)
        && totalFiles == old(totalFiles) && lastUpdated == old(lastUpdated)
      ensures !old(isIndexing) && !faults.dataDirFails && !Reuses(disk, forceRebuild, faults) ==>
        var es := IndexedEntities(digest, paths, disk.roots);
        (r.Err? <==> RebuildFault(faults, |es|).Some?)
        && (r.Err? ==> r.error == RebuildFault(faults, |es|).value)
      ensures !old(isIndexing) && !faults.dataDirFails && !Reuses(disk, forceRebuild, faults) && r.Ok? ==>
        var es := IndexedEntities(digest, paths, disk.roots);
        var baseDb := StoreAfterDelete(disk.storedDb, forceRebuild, faults.dbDeleteFails).GetOr(map[]);
        var baseDocs := StoreAfterDelete(disk.storedIndex, forceRebuild, faults.indexDeleteFails).GetOr([]);
        && r.value == BuildReport(Completed, |es|, MissingRootErrors(paths, disk.roots), None)
        && !isIndexing && totalFiles == |es| && lastUpdated == Some(now)
        && indexManager.Some? && indexManager.value.db == Upserted(baseDb, es)
        && searchIndex.Some? && searchIndex.value.committed == baseDocs + DocsOf(es)
        && searchIndex.value.snapshot == baseDocs
        && events == ProgressFrom(0, |es|, Estimate(paths, disk.roots)) + [Progress(|es|, |es|)]
    {
      events := [];
      if isIndexing {
        return Ok(BuildReport(BuildFailed, 0, ["Indexing already in progress"], None)), [];
      }
      isIndexing := true;
      if faults.dataDirFails {
        return Err(DataDirUnavailable), [];
      }
      if !forceRebuild && disk.storedDb.Some? && disk.storedIndex.Some? {
        var loaded := LoadExistingIndex(disk, faults, now);
        if loaded == Ok(true) {
          isIndexing := false;
          return Ok(BuildReport(Completed, 0, [], Some("Using existing index"))), [];
        }
      }
      r, events := Rebuild(paths, forceRebuild, disk, faults, now);
    }

    /** The rebuild part of `build_index`, entered with the build flag set: the new
        stores are built, then swapped into the state with the file count and the
        update time, the flag is cleared and the final progress event reports every
        file as processed. */
    method Rebuild(paths: seq<string>, forceRebuild: bool, disk: Disk, faults: Faults, now: int)
      returns (r: Result<BuildReport, BuildFailure>, events: seq<Progress>)
      modifies this
      ensures var es := IndexedEntities(digest, paths, disk.roots);
        (r.Err? <==> RebuildFault(faults, |es|).Some?)
        && (r.Err? ==> r.error == RebuildFault(faults, |es|).value)
      ensures r.Err? ==>
        isIndexing == old(isIndexing) && indexManager == old(indexManager) && searchIndex == old(searchIndex)
        && totalFiles == old(totalFiles) && lastUpdated == old(lastUpdated)
      ensures r.Ok? ==>
        var es := IndexedEntities(digest, paths, disk.roots);
        var baseDb := StoreAfterDelete(disk.storedDb, forceRebuild, faults.dbDeleteFails).GetOr(map[]);
        var baseDocs := StoreAfterDelete(disk.storedIndex, forceRebuild, faults.indexDeleteFails).GetOr([]);
        && r.value == BuildReport(Completed, |es|, MissingRootErrors(paths, disk.roots), None)
        && !isIndexing && totalFiles == |es| && lastUpdated == Some(now)
        && indexManager.Some? && indexManager.value.db == Upserted(baseDb, es)
        && searchIndex.Some? && searchIndex.value.committed == baseDocs + DocsOf(es)
        && searchIndex.value.snapshot == baseDocs
        && events == ProgressFrom(0, |es|, Estimate(paths, disk.roots)) + [Progress(|es|, |es|)]
    {
      var built, filesIndexed, errors, trail := BuildStores(digest, paths, forceRebuild, disk, faults);
      events := trail;
      if built.Err? {
        return Err(built.error), events;
      }
      var (manager, index) := built.value;
      indexManager := Some(manager);
      searchIndex := Some(index);
      totalFiles := filesIndexed;
      lastUpdated := Some(now);
      isIndexing := false;
      events := events + [Progress(filesIndexed, filesIndexed)];
      r := Ok(BuildReport(Completed, filesIndexed, errors, None));
    }

    /** `search_files`: `INDEX_NOT_READY` when no index is installed, then
        `INVALID_REGEX` for a pattern the regex crate rejects, both before any search;
        otherwise the index's results, at most `limit` (1000 by default), projected,
        with `total_found` their number. `collectorFails` says whether the index's
        collector fails on a query that builds. */
    method SearchFiles(query: string, useRegex: bool, limit: Option<nat>, engine: Engine,
                       regexValid: string -> bool, collectorFails: bool, now: int, elapsedMs: nat)
      returns (r: Result<SearchResponse, string>)
      modifies if searchIndex.Some? then {searchIndex.value} else {}
      ensures searchIndex.None? ==> r == Err("INDEX_NOT_READY")
      ensures searchIndex.Some? && useRegex && !regexValid(query) ==>
        r == Err("INVALID_REGEX") && searchIndex.value.snapshot == old(searchIndex.value.snapshot)
      ensures searchIndex.Some? ==> searchIndex.value.committed == old(searchIndex.value.committed)
      ensures searchIndex.Some? && (!useRegex || regexValid(query)) ==>
        match SearchOutcome(searchIndex.value.committed, query, useRegex, limit.GetOr(DefaultLimit), engine, collectorFails)
        case Err(_) => r == Err("Search failed")
        case Ok(docs) =>
          && r.Ok? && r.value.results == Mapped(ProjectAt(now), docs)
          && r.value.totalFound == |r.value.results| && r.value.searchTimeMs == elapsedMs
    {
      if searchIndex.None? {
        return Err("INDEX_NOT_READY");
      }
      var index := searchIndex.value;
      var max := limit.GetOr(DefaultLimit);
      if useRegex && !regexValid(query) {
        return Err("INVALID_REGEX");
      }
      var found := index.Search(query, useRegex, max, engine, collectorFails);
      if found.Err? {
        return Err("Search failed");
      }
      var results := ProjectAll(found.value, now);
      r := Ok(SearchResponse(results, |results|, elapsedMs));
    }
  }

  /** The store-building part of `build_index`: the delete step of a forced rebuild,
      reopening or recreating both stores and the writer, the two passes over the
      roots, and the commit. The new stores are returned, not yet installed. */
  method BuildStores(digest: Digest, paths: seq<string>, forceRebuild: bool, disk: Disk, faults: Faults)
    returns (r: Result<(IndexManager, SearchIndex), BuildFailure>, filesIndexed: nat, errors: seq<string>, events: seq<Progress>)
    ensures var es := IndexedEntities(digest, paths, disk.roots);
      (r.Err? <==> RebuildFault(faults, |es|).Some?)
      && (r.Err? ==> r.error == RebuildFault(faults, |es|).value)
    ensures r.Ok? ==>
      var es := IndexedEntities(digest, paths, disk.roots);
      var baseDb := StoreAfterDelete(disk.storedDb, forceRebuild, faults.dbDeleteFails).GetOr(map[]);
      var baseDocs := StoreAfterDelete(disk.storedIndex, forceRebuild, faults.indexDeleteFails).GetOr([]);
      var (manager, index) := r.value;
      && fresh(manager) && fresh(index)
      && manager.digest == digest && manager.db == Upserted(baseDb, es)
      && index.committed == baseDocs + DocsOf(es) && index.snapshot == baseDocs
      && filesIndexed == |es| && errors == MissingRootErrors(paths, disk.roots)
      && events == ProgressFrom(0, |es|, Estimate(paths, disk.roots))
  {
    events := [];
    errors := [];
    filesIndexed := 0;
    var db := StoreAfterDelete(disk.storedDb, forceRebuild, faults.dbDeleteFails);
    var docs := StoreAfterDelete(disk.storedIndex, forceRebuild, faults.indexDeleteFails);
    if faults.dbOpenFails {
      return Err(IndexManagerFailed), 0, [], [];
    }
    var manager := new IndexManager(digest, db.GetOr(map[]));
    if faults.indexOpenFails {
      return Err(SearchIndexFailed), 0, [], [];
    }
    var index := new SearchIndex(docs);
    if faults.writerFails {
      return Err(WriterFailed), 0, [], [];
    }
    var writer := index.Writer();
    var estimate := EstimateTotal(paths, disk.roots);
    ghost var es := IndexedEntities(digest, paths, disk.roots);
    var fault;
    fault, filesIndexed, errors, events := IndexRoots(manager, writer, paths, disk.roots, estimate, faults);
    if fault.Some? {
      return Err(fault.value), filesIndexed, errors, events;
    }
    if faults.commitFails {
      return Err(CommitFailed), filesIndexed, errors, events;
    }
    assert [] + DocsOf(es) == DocsOf(es);
    writer.Commit();
    r := Ok((manager, index));
  }

  /** The loop of `search_files` that turns each retrieved document into a result entry. */
  method ProjectAll(docs: seq<Doc>, now: int) returns (results: seq<FileResult>)
    ensures results == Mapped(ProjectAt(now), docs)
  {
    var project := ProjectAt(now);
    results := [];
    for i := 0 to |docs|
      invariant results == Mapped(project, docs[..i])
    {
      MappedStep(project, docs, i);
      results := results + [project(docs[i])];
    }
    assert docs[..|docs|] == docs;
  }

  /** The first pass of `build_index`. */
  method EstimateTotal(paths: seq<string>, roots: map<string, seq<WalkItem>>) returns (total: nat)
    ensures total == Estimate(paths, roots)
  {
    total := 0;
    for i := 0 to |paths|
      invariant total == Estimate(paths[..i], roots)
    {
      assert paths[..i + 1][..i] == paths[..i];
      if paths[i] in roots {
        total := total + |roots[paths[i]]|;
      }
    }
    assert paths[..|paths|] == paths;
  }

  /** What indexing the entities `done` in order, counting from `from` files and with
      no failure, has left: the count, the two stores and the progress events. */
  ghost predicate IndexedAll(estimate: nat, faults: Faults, db0: map<string, FileEntity>, pending0: seq<Doc>,
                             from: nat, done: seq<FileEntity>, filesIndexed: nat, events: seq<Progress>,
                             db: map<string, FileEntity>, pending: seq<Doc>)
  {
    && filesIndexed == from + |done|
    && EntityFault(faults, filesIndexed).None?
    && db == Upserted(db0, done)
    && pending == pending0 + DocsOf(done)
    && events == ProgressFrom(from, filesIndexed, estimate)
  }

  lemma DocsOfAppend(pending0: seq<Doc>, done: seq<FileEntity>, added: seq<FileEntity>)
    ensures pending0 + DocsOf(done) + DocsOf(added) == pending0 + DocsOf(done + added)
  {
    DocsOfConcat(done, added);
    assert pending0 + DocsOf(done) + DocsOf(added) == pending0 + (DocsOf(done) + DocsOf(added));
  }

  /** Saving and adding a further run of entities gives the stores of the whole run. */
  lemma StoresMore(db0: map<string, FileEntity>, pending0: seq<Doc>, done: seq<FileEntity>,
                   db: map<string, FileEntity>, pending: seq<Doc>,
                   added: seq<FileEntity>, db': map<string, FileEntity>, pending': seq<Doc>)
    requires db == Upserted(db0, done) && pending == pending0 + DocsOf(done)
    requires db' == Upserted(db, added) && pending' == pending + DocsOf(added)
    ensures db' == Upserted(db0, done + added) && pending' == pending0 + DocsOf(done + added)
  {
    UpsertedConcat(db0, done, added);
    DocsOfAppend(pending0, done, added);
  }

  /** Indexing a further run of entities without a failure extends the count, the
      stores and the events by that run. */
  lemma IndexedMore(estimate: nat, faults: Faults, db0: map<string, FileEntity>, pending0: seq<Doc>,
                    from: nat, done: seq<FileEntity>, filesIndexed: nat, events: seq<Progress>,
                    db: map<string, FileEntity>, pending: seq<Doc>,
                    added: seq<FileEntity>, n: nat, evs: seq<Progress>, db': map<string, FileEntity>, pending': seq<Doc>)
    requires IndexedAll(estimate, faults, db0, pending0, from, done, filesIndexed, events, db, pending)
    requires EntityFault(faults, filesIndexed + |added|).None?
    requires n == filesIndexed + |added| && db' == Upserted(db, added) && pending' == pending + DocsOf(added)
    requires evs == ProgressFrom(filesIndexed, n, estimate)
    ensures IndexedAll(estimate, faults, db0, pending0, from, done + added, n, events + evs, db', pending')
  {
    StoresMore(db0, pending0, done, db, pending, added, db', pending');
    ProgressFromSplit(from, filesIndexed, n, estimate);
  }

  /** One entity of the second pass, as the `indexed`-th file: save it (or fail), add
      its document (or fail), count it and report progress at a multiple of 50. */
  method IndexEntity(manager: IndexManager, writer: IndexWriter, e: FileEntity,
                     indexed: nat, estimate: nat, faults: Faults)
    returns (fault: Option<BuildFailure>, events: seq<Progress>)
    requires EntityFault(faults, indexed).None?
    modifies manager, writer
    ensures fault == EntityFault(faults, indexed + 1)
    ensures fault.None? ==>
      && manager.db == Upserted(old(manager.db), [e])
      && writer.pending == old(writer.pending) + DocsOf([e])
      && events == ProgressFrom(indexed, indexed + 1, estimate)
  {
    EntityFaultNext(faults, indexed);
    if faults.saveFailsAt == Some(indexed) {
      return Some(SaveFailed), [];
    }
    manager.SaveFileEntity(e);
    if faults.addFailsAt == Some(indexed) {
      return Some(AddFailed), [];
    }
    writer.AddDocument(DocOf(e));
    var count := indexed + 1;
    events := if count % ProgressEvery == 0 then [Progress(count, estimate)] else [];
    ProgressFromStep(indexed, indexed, estimate);
    fault := None;
  }

  /** The inner loop of the second pass over one root's entities, counting from
      `done` files; it stops at the first failing save or add. */
  method IndexEntities(manager: IndexManager, writer: IndexWriter, entities: seq<FileEntity>,
                       done: nat, estimate: nat, faults: Faults)
    returns (fault: Option<BuildFailure>, indexed: nat, events: seq<Progress>)
    requires EntityFault(faults, done).None?
    modifies manager, writer
    ensures fault == EntityFault(faults, done + |entities|)
    ensures fault.None? ==>
      && indexed == done + |entities|
      && manager.db == Upserted(old(manager.db), entities)
      && writer.pending == old(writer.pending) + DocsOf(entities)
      && events == ProgressFrom(done, indexed, estimate)
  {
    ghost var db0, pending0 := manager.db, writer.pending;
    indexed := done;
    events := [];
    assert pending0 + DocsOf([]) == pending0;
    for j := 0 to |entities|
      invariant IndexedAll(estimate, faults, db0, pending0, done, entities[..j], indexed, events, manager.db, writer.pending)
    {
      ghost var db, pending := manager.db, writer.pending;
      var f, evs := IndexEntity(manager, writer, entities[j], indexed, estimate, faults);
      if f.Some? {
        EntityFaultStable(faults, indexed + 1, done + |entities|);
        return f, indexed, events;
      }
      IndexedMore(estimate, faults, db0, pending0, done, entities[..j], indexed, events, db, pending,
                  [entities[j]], indexed + 1, evs, manager.db, writer.pending);
      assert entities[..j] + [entities[j]] == entities[..j + 1];
      indexed := indexed + 1;
      events := events + evs;
    }
    assert entities[..|entities|] == entities;
    fault := None;
  }

  /** One root of the second pass, counting from `done` files: a missing root adds
      nothing; an existing one is traversed and its entities indexed. */
  method IndexRoot(manager: IndexManager, writer: IndexWriter, p: string,
                   roots: map<string, seq<WalkItem>>, done: nat, estimate: nat, faults: Faults)
    returns (fault: Option<BuildFailure>, indexed: nat, events: seq<Progress>)
    requires EntityFault(faults, done).None?
    modifies manager, writer
    ensures var added := RootEntities(manager.digest, p, roots);
      && fault == EntityFault(faults, done + |added|)
      && (fault.None? ==>
        && indexed == done + |added|
        && manager.db == Upserted(old(manager.db), added)
        && writer.pending == old(writer.pending) + DocsOf(added)
        && events == ProgressFrom(done, indexed, estimate))
  {
    if p !in roots {
      assert old(writer.pending) + DocsOf([]) == old(writer.pending);
      return None, done, [];
    }
    var found, skipped := manager.TraverseDirectory(roots[p]);
    fault, indexed, events := IndexEntities(manager, writer, found.value, done, estimate, faults);
  }

  /** What the second pass has done after the roots before `i`, with no failure so far:
      the messages of those roots, and the count, stores and events of their entities. */
  ghost predicate PassedRoots(digest: Digest, paths: seq<string>, i: nat,
                              roots: map<string, seq<WalkItem>>, estimate: nat, faults: Faults,
                              db0: map<string, FileEntity>, pending0: seq<Doc>,
                              filesIndexed: nat, errors: seq<string>, events: seq<Progress>,
                              db: map<string, FileEntity>, pending: seq<Doc>)
    requires i <= |paths|
  {
    && errors == MissingRootErrors(paths[..i], roots)
    && IndexedAll(estimate, faults, db0, pending0, 0, IndexedEntities(digest, paths[..i], roots), filesIndexed, events, db, pending)
  }

  /** Handling the root at `i` without a failure extends what the pass has done by
      that root. */
  lemma PassStep(digest: Digest, paths: seq<string>, i: nat,
                 roots: map<string, seq<WalkItem>>, estimate: nat, faults: Faults,
                 db0: map<string, FileEntity>, pending0: seq<Doc>,
                 filesIndexed: nat, errors: seq<string>, events: seq<Progress>,
                 db: map<string, FileEntity>, pending: seq<Doc>,
                 n: nat, evs: seq<Progress>, db': map<string, FileEntity>, pending': seq<Doc>)
    requires i < |paths|
    requires PassedRoots(digest, paths, i, roots, estimate, faults, db0, pending0, filesIndexed, errors, events, db, pending)
    requires var added := RootEntities(digest, paths[i], roots);
      && EntityFault(faults, filesIndexed + |added|).None?
      && n == filesIndexed + |added|
      && db' == Upserted(db, added)
      && pending' == pending + DocsOf(added)
      && evs == ProgressFrom(filesIndexed, n, estimate)
    ensures PassedRoots(digest, paths, i + 1, roots, estimate, faults, db0, pending0, n,
                        if paths[i] in roots then errors else errors + [MissingRootPrefix + paths[i]],
                        events + evs, db', pending')
  {
    RootStep(digest, paths, i, roots);
    IndexedMore(estimate, faults, db0, pending0, 0, IndexedEntities(digest, paths[..i], roots), filesIndexed, events, db, pending,
                RootEntities(digest, paths[i], roots), n, evs, db', pending');
  }

  /** A failure at the root at `i` is the build's entity fault. */
  lemma PassFault(digest: Digest, paths: seq<string>, i: nat, roots: map<string, seq<WalkItem>>, faults: Faults)
    requires i < |paths|
    requires EntityFault(faults, |IndexedEntities(digest, paths[..i], roots)| + |RootEntities(digest, paths[i], roots)|).Some?
    ensures EntityFault(faults, |IndexedEntities(digest, paths, roots)|)
         == EntityFault(faults, |IndexedEntities(digest, paths[..i], roots)| + |RootEntities(digest, paths[i], roots)|)
  {
    RootStep(digest, paths, i, roots);
    IndexedPrefix(digest, paths, i + 1, roots);
    EntityFaultStable(faults, |IndexedEntities(digest, paths[..i + 1], roots)|, |IndexedEntities(digest, paths, roots)|);
  }

  /** One turn of the second pass's loop: the root at `i` is handled, and either the
      pass has done the roots up to and including it, or the build's entity fault is hit. */
  method PassRoot(manager: IndexManager, writer: IndexWriter, paths: seq<string>, i: nat,
                  roots: map<string, seq<WalkItem>>, estimate: nat, faults: Faults,
                  ghost db0: map<string, FileEntity>, ghost pending0: seq<Doc>,
                  filesIndexed: nat, errors: seq<string>, events: seq<Progress>)
    returns (fault: Option<BuildFailure>, filesIndexed': nat, errors': seq<string>, events': seq<Progress>)
    requires i < |paths|
    requires PassedRoots(manager.digest, paths, i, roots, estimate, faults, db0, pending0,
                         filesIndexed, errors, events, manager.db, writer.pending)
    modifies manager, writer
    ensures fault.Some? ==> fault == EntityFault(faults, |IndexedEntities(manager.digest, paths, roots)|)
    ensures fault.None? ==>
      PassedRoots(manager.digest, paths, i + 1, roots, estimate, faults, db0, pending0,
                  filesIndexed', errors', events', manager.db, writer.pending)
  {
    var p := paths[i];
    var n, evs;
    fault, n, evs := IndexRoot(manager, writer, p, roots, filesIndexed, estimate, faults);
    if fault.Some? {
      PassFault(manager.digest, paths, i, roots, faults);
      return fault, n, errors, events;
    }
    PassStep(manager.digest, paths, i, roots, estimate, faults, db0, pending0, filesIndexed, errors, events,
             old(manager.db), old(writer.pending), n, evs, manager.db, writer.pending);
    filesIndexed' := n;
    errors' := if p in roots then errors else errors + [MissingRootPrefix + p];
    events' := events + evs;
  }

  /** The second pass of `build_index`: each root in order, a missing one reported and
      skipped, an existing one traversed and its entities indexed; the pass stops at
      the first failing save or add. */
  method IndexRoots(manager: IndexManager, writer: IndexWriter, paths: seq<string>,
                    roots: map<string, seq<WalkItem>>, estimate: nat, faults: Faults)
    returns (fault: Option<BuildFailure>, filesIndexed: nat, errors: seq<string>, events: seq<Progress>)
    modifies manager, writer
    ensures fault == EntityFault(faults, |IndexedEntities(manager.digest, paths, roots)|)
    ensures fault.None? ==>
      var es := IndexedEntities(manager.digest, paths, roots);
      && filesIndexed == |es|
      && errors == MissingRootErrors(paths, roots)
      && manager.db == Upserted(old(manager.db), es)
      && writer.pending == old(writer.pending) + DocsOf(es)
      && events == ProgressFrom(0, filesIndexed, estimate)
  {
    ghost var db0, pending0 := manager.db, writer.pending;
    filesIndexed := 0;
    errors := [];
    events := [];
    assert pending0 + DocsOf([]) == pending0;
    for i := 0 to |paths|
      invariant PassedRoots(manager.digest, paths, i, roots, estimate, faults, db0, pending0,
                            filesIndexed, errors, events, manager.db, writer.pending)
    {
      fault, filesIndexed, errors, events :=
        PassRoot(manager, writer, paths, i, roots, estimate, faults, db0, pending0, filesIndexed, errors, events);
      if fault.Some? {
        return;
      }
    }
    assert paths[..|paths|] == paths;
    fault := None;
  }
}
