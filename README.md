# CrossEverything indexing and search core, in Dafny

This project models the core of CrossEverything, a desktop file-search application,
and proves properties of that model. The application indexes the directory trees
the user names. Each file or folder goes into two stores: a sled key-value store
keyed by the SHA-256 of its path, and a tantivy full-text index of its name and
path. Searches run against the full-text index. The Tauri commands keep the stores
in a shared state. A notify-based watcher turns file-system events into change items.

The model has one Dafny module per source file, plus two support modules:

- `Index` (`index.dfy`) models `src-tauri/src/index.rs`. `IndexManager` is a class
  whose `db` field is a map from entity id to `FileEntity`. A directory walk is an
  input sequence of per-entry outcomes. SHA-256 is an uninterpreted, deterministic
  `Digest` of the path string. Pure functions specify the traversal (`Traversal`)
  and a batch of upserts (`Upserted`).
- `Search` (`search.dfy`) models `src-tauri/src/search.rs`, the full-text index. `SearchIndex` is a class with
  the committed documents and the reader's snapshot. `IndexWriter` holds the
  pending documents. Query parsing, regex matching and relevance belong to the
  engine and are functions in an `Engine` value. The top-docs collector is
  specified by a ranking function (`TopDocs`), with lemmas saying that it keeps the
  best matches in score order.
- `Watcher` (`watcher.dfy`) models `src-tauri/src/watcher.rs`, the receiving side of the notify channel.
  `FileWatcher` is a class over the queue of received items plus a flag for
  whether the sender is still alive. `ProcessEvents` is proved to take exactly the
  prefix up to the first error item and to return that prefix's change items.
- `App` (`app.dfy`) models the commands of `src-tauri/src/lib.rs`. `AppState` is a class with the installed
  stores, the build flag, the file count and the last-update time. The file
  system is an input: `Disk` says which stores and roots exist and what walking
  each root yields. `Faults` says which I/O steps fail. `BuildIndex` is proved
  against the functions `IndexedEntities`, `MissingRootErrors`, `Estimate` and
  `ProgressFrom`. The second pass is split into per-entity and per-root step
  methods.
- `Calendar` (`calendar.dfy`) models `format_timestamp_iso8601`. Unix seconds
  become a UTC date and time at second precision with a `Z` suffix, as chrono's
  `to_rfc3339_opts` writes it. For years 0 to 9999 this is an RFC 3339
  `date-time` (section 5.6 of RFC 3339). Any other year in chrono's range is written
  with an explicit sign and at least four digits (the expanded year form of
  ISO 8601), which RFC 3339's four-digit `date-fullyear` does not allow. A parser for that format is proved to read every
  rendered string back to the original timestamp.
- `Wrappers` (`wrappers.dfy`) defines `Option` and `Result`.

Where the code and its documentation differ, the model follows the code:

- `count_files` counts every item, readable or not, and never fails. The
  `Err => 0` branch in `load_existing_index` (`lib.rs:127-130`) is therefore
  unreachable. After a reuse, the file count is always the store's size.
- `traverse_directory` always returns `Ok` (`index.rs:166`). The error branch in
  `build_index` (`lib.rs:285-302`) is therefore unreachable and is not modelled.
- A hard error in `build_index` after the flag is set returns with `is_indexing`
  still true. Every later build then fails with "Indexing already in progress".
  The model keeps this behaviour (`App.AppState.BuildIndex`).
- A rebuild that was not forced reopens the stores that are already on disk. The
  key-value store upserts by id, but the full-text index gets every document
  again (`App.RebuildDuplicatesDocuments`).
- A regex query gives every match the same score. The model breaks ties by
  document address, so regex results come back in index order.

## Model

| member | source | states |
|---|---|---|
| `Index.IndexManager.constructor` | src-tauri/src/index.rs:15-27 | The manager opens with the entities already in the store and with the path digest as its id function. |
| `Index.IndexManager.SaveFileEntity` | src-tauri/src/index.rs:29-35 | The store becomes the old store with the entity under its id. The count is unchanged when the id was present and grows by exactly one when it was new. |
| `Index.IndexManager.GetFileEntity` | src-tauri/src/index.rs:38-46 | A failing store read or decode gives an error. Otherwise the result is `Some` exactly when the id is stored, and then it is the stored entity. |
| `Index.IndexManager.CountFiles` | src-tauri/src/index.rs:49-55 | The full scan counts exactly the number of stored entries. |
| `Index.SaveThenGet` | src-tauri/src/index.rs:29-46 | After a save, reading the saved id gives the entity field for field. Every other key keeps its value. The count grows by one exactly when the id was new. |
| `Index.IndexManager.TraverseDirectory` | src-tauri/src/index.rs:57-167 | The result is always `Ok`, with exactly the entities of the walk in walk order. Entities plus skipped items equal the walk length. |
| `Index.TraversalConcat` | src-tauri/src/index.rs:61-160 | Traversal keeps walk order: a walk split in two yields the two results concatenated. |
| `Index.TraversalWellFormed` | src-tauri/src/index.rs:88-157 | A walk yields at most one entity per item. Every entity has `id = H(path)`, `size = 0` for a folder, and as its name the final path component or "". |
| `Index.ReadableEntry` | src-tauri/src/index.rs:112-157 | A readable entry yields exactly one entity: hashed id, file name, the path itself, size 0 for a folder or the length otherwise, and its modification time. |
| `Index.FileName` | src-tauri/src/index.rs:139-143 | A name that `Path::file_name` returns is a normal path component: not empty, not `.` or `..`, and without a separator. |
| `Index.FileNameOfChild` | src-tauri/src/index.rs:139-143 | The entry `dir/name` is named `name`, whatever the directory. |
| `Index.IndexManager.AddOrUpdateFile` | src-tauri/src/index.rs:170-210 | A missing path gives `Ok(None)` and leaves the store unchanged. Unreadable metadata or modification time, or a failing save, gives an error and leaves the store unchanged. Otherwise the result is the entity traversal builds for the path, and it is saved. |
| `Index.IndexManager.RemoveFile` | src-tauri/src/index.rs:213-221 | Removal fails exactly when the store's remove fails, and then changes nothing. Otherwise it succeeds, even when the key is absent, and deletes exactly the key `H(path)`. Every other key keeps its value. |
| `Index.UpsertedConcat` | src-tauri/src/index.rs:29-35 | Saving two batches one after the other is the same as saving their concatenation. |
| `Index.UpsertedIsOverride` | src-tauri/src/index.rs:29-35 | Saving a batch is overriding the old store with the batch saved into an empty one. |
| `Index.UpsertedIdempotent` | src-tauri/src/index.rs:29-35 | Saving the same batch twice leaves the store as one save did. Upserts never duplicate. |
| `Index.UpsertedKnownIds` | src-tauri/src/index.rs:29-35 | Re-saving entities whose ids are all stored keeps the set of keys. |
| `Index.UpsertedKeys` | src-tauri/src/index.rs:29-35 | After a batch, every saved id and every old key is present, and the store grew by at most the batch size. |
| `Search.SearchIndex.constructor` | src-tauri/src/search.rs:19-50 | The index has exactly the five fields: `name` and `path` as indexed text, `size`, `modified` and `is_folder` stored only. It holds the existing documents, or none when created, and the reader starts at the committed state. |
| `Search.SearchIndex.Writer` | src-tauri/src/search.rs:56-58 | A fresh writer on this index, with nothing pending. |
| `Search.SearchIndex.Reload` | src-tauri/src/search.rs:109-111 | The reader's snapshot becomes the committed documents. |
| `Search.SearchIndex.Search` | src-tauri/src/search.rs:60-104 | A blank query returns no results and does not touch the reader. Any other query first reloads the reader. A query that does not build fails on construction. A failing collector search gives an error. Otherwise the result is the specified results over every committed document. |
| `Search.BlankIffAllWhitespace` | src-tauri/src/search.rs:67-69 | A query is blank exactly when every character is Unicode whitespace, the empty query included. |
| `Search.RegexLooksAtNameOnly` | src-tauri/src/search.rs:77-80 | A regex query reads the `name` field only. Documents with the same name match alike and score alike, whatever their paths. |
| `Search.TextQueryWeights` | src-tauri/src/search.rs:82-90 | A text query's score is twice the name relevance plus the path relevance. |
| `Search.NameMatchOutranksPathMatch` | src-tauri/src/search.rs:87-89 | Under a text query, a document matched by name outranks one matched only by path with the same relevance. |
| `Search.Candidates` | src-tauri/src/search.rs:94 | The collector's candidates are matching documents with their scores, in address order. |
| `Search.CandidatesComplete` | src-tauri/src/search.rs:94 | Every matching document is a candidate. |
| `Search.SortHitsRanked` | src-tauri/src/search.rs:94 | Ranking hits gives a permutation of them, best score first. |
| `Search.TopDocs` | src-tauri/src/search.rs:94 | The collector returns at most `limit` hits, each addressing a document of the snapshot. |
| `Search.TopDocsRanked` | src-tauri/src/search.rs:94 | The collected hits are matches, carry their scores and come in ranking order. |
| `Search.TopDocsKeepsBest` | src-tauri/src/search.rs:94 | Every match is either among the hits, or the hits fill the limit and all rank above it. |
| `Search.SearchResultsBounded` | src-tauri/src/search.rs:93-101 | There are at most `min(limit, 1000)` results. Each is a matching document of the snapshot, in descending score order. A regex search returns its hits in index order. |
| `Search.IndexWriter.constructor` | src-tauri/src/search.rs:56-58 | A new writer belongs to its index and has nothing pending. |
| `Search.IndexWriter.AddDocument` | src-tauri/src/lib.rs:342-349 | The document is appended to the pending ones. |
| `Search.IndexWriter.Commit` | src-tauri/src/lib.rs:376-380 | The pending documents join the committed ones, in order. The reader's snapshot stays as it was until a reload. |
| `Watcher.FileWatcher.constructor` | src-tauri/src/watcher.rs:16-24 | The watcher starts over the given channel contents and sender state. `FileWatcher::new` is the case of an empty channel with a live sender. |
| `Watcher.FileWatcher.TryRecv` | src-tauri/src/watcher.rs:44-54 | The head item is taken. An event gives `Ok(Some(event))` and an error item gives `Ok(None)`. An empty queue gives `Ok(None)` while the sender lives and `Err(Disconnected)` once it is gone. |
| `Watcher.FileWatcher.ProcessEvents` | src-tauri/src/watcher.rs:79-117 | Draining takes the queue up to and including the first error item, or all of it. The items after that error stay queued. The result is the change items of the events taken, in channel order. |
| `Watcher.EventChanges` | src-tauri/src/watcher.rs:85-110 | One event's change items are exactly its path changes. |
| `Watcher.DrainStopsAtFirstError` | src-tauri/src/watcher.rs:83-114 | Every drained item but the last is an event. The drain stops before the end only right after an error item. |
| `Watcher.DrainLengthAt` | src-tauri/src/watcher.rs:83-114 | Taking only events, then meeting one error or the end, takes exactly the drain length. |
| `Watcher.ChangesConcat` | src-tauri/src/watcher.rs:83-114 | The change items of two runs of channel items are the two results concatenated, so events keep their channel order. |
| `Watcher.TrackedKindYieldsOnePerPath` | src-tauri/src/watcher.rs:85-106 | A create, modify or remove event yields one `Created`, `Modified` or `Deleted` item per readable path, in path order. |
| `Watcher.ReadableIsTheValidPaths` | src-tauri/src/watcher.rs:88-103 | The paths kept are exactly the UTF-8 ones, in order. Paths that are not UTF-8 are dropped. |
| `Watcher.OtherKindsYieldNothing` | src-tauri/src/watcher.rs:107-109 | Every other event kind is consumed and yields nothing. |
| `App.AppState.constructor` | src-tauri/src/lib.rs:65-76 | The default state: no stores, not indexing, no files and no update time. |
| `App.AppState.GetIndexStatus` | src-tauri/src/lib.rs:541-561 | The state is ready exactly when a search index is installed. It reports the count and the build flag. The update time is present exactly when one is set, and its string reads back as that time. |
| `App.AppState.LoadExistingIndex` | src-tauri/src/lib.rs:84-146 | The result is an error when the data directory is unavailable. It is `Ok(true)` exactly when both stores exist and both open, and then both are installed, the count is the store's size and the time is now. Otherwise nothing changes. |
| `App.AppState.BuildIndex` | src-tauri/src/lib.rs:148-427 | A call during a build fails at once with the "already in progress" report and changes nothing. A reuse installs the stores and reports "Using existing index" with 0 files. A rebuild fails exactly at its first hard error and then leaves the flag set and the state unchanged. Otherwise it installs the new stores and reports every traversed entity and every missing root. It emits one event per 50 files and then the final `(n, n)`. |
| `App.AppState.Rebuild` | src-tauri/src/lib.rs:213-427 | The rebuild fails exactly at its first hard error. Otherwise it installs the built stores, sets the count and time, clears the flag and appends the final event `(n, n)`. |
| `App.BuildStores` | src-tauri/src/lib.rs:177-380 | A forced rebuild deletes the stores (a failed delete keeps them). Both stores and the writer are opened, both passes run, and the writer commits. The key-value store is the base upserted with every entity, and the index is the base plus one document per entity. |
| `App.EstimateTotal` | src-tauri/src/lib.rs:250-262 | The first pass counts the walk items of every root that exists. |
| `App.IndexRoots` | src-tauri/src/lib.rs:270-374 | The second pass fails exactly at the first failing save or add. Otherwise it indexes every entity of every existing root in order and reports one message per missing root. The count is the number of entities and the events are those of the count. |
| `App.PassRoot` | src-tauri/src/lib.rs:273-374 | One root, taken in turn: either the pass has done every root up to this one, or the build's entity fault is hit. |
| `App.IndexRoot` | src-tauri/src/lib.rs:274-306 | A missing root adds nothing. An existing one is traversed and its entities are indexed. |
| `App.IndexEntities` | src-tauri/src/lib.rs:308-373 | The inner loop saves and adds every entity in order, counts each one and emits events at multiples of 50. It stops at the first failing save or add. |
| `App.IndexEntity` | src-tauri/src/lib.rs:308-372 | One entity is saved and then its document is added. A failing save stops before the add. Progress is emitted exactly when the new count is a multiple of 50. |
| `App.IndexedWithinEstimate` | src-tauri/src/lib.rs:253-351 | When both passes see the same tree, the indexed files never outnumber the first pass's estimate. Every one of them is a well-formed entity of its path. |
| `App.MissingRootsReported` | src-tauri/src/lib.rs:273-280 | Every "Path does not exist: " message names a requested path that does not exist, and every such path has its message. There are no more messages than roots, and none when every root exists. |
| `App.ProgressEveryFifty` | src-tauri/src/lib.rs:353-372 | A build of `n` files emits `n / 50` events, one for each positive multiple of 50 up to `n` and none for any other count, each against the estimate. |
| `App.RebuildDuplicatesDocuments` | src-tauri/src/search.rs:32-37 | Over a store that was not deleted, a re-added document appears at least twice in the index. The key-value store grows by at most the batch, and re-saving ids it already holds adds no key. |
| `App.ProjectAll` | src-tauri/src/lib.rs:482-523 | The results are the projection of every retrieved document, in order. |
| `App.ResultOfIndexedEntity` | src-tauri/src/lib.rs:482-523 | A result from an indexed entity carries its name, path, size and folder flag. Its time string reads back as the entity's modification time. |
| `App.EmptyDocDefaults` | src-tauri/src/lib.rs:484-511 | Missing stored fields default to "", 0, false and the current time. |
| `App.AppState.SearchFiles` | src-tauri/src/lib.rs:429-539 | `INDEX_NOT_READY` comes before `INVALID_REGEX`, and both come before any search. The limit defaults to 1000. A failing index search gives "Search failed". Otherwise the results are the projected search results, and `total_found` is their number. |
| `Calendar.ToDateTime` | src-tauri/src/lib.rs:38-42 | Every timestamp maps to a valid calendar date and time of day. |
| `Calendar.ToDateTimeDenotes` | src-tauri/src/lib.rs:38-42 | The calendar date and time of a timestamp denote that timestamp again. |
| `Calendar.FormatTimestampIso8601` | src-tauri/src/lib.rs:38-42 | The output ends in `Z`, with the date and time separators in place after a year of at least four characters: four digits for years 0 to 9999, otherwise a sign and at least four digits. |
| `Calendar.RenderParses` | src-tauri/src/lib.rs:38-42 | A rendered date and time parses back to itself. |
| `Calendar.YearTextParses` | src-tauri/src/lib.rs:38-42 | A rendered year parses back to itself, with a sign outside 0 to 9999. |
| `Calendar.SignedYearTexts` | src-tauri/src/lib.rs:38-42 | Year 10000 is written "+10000" and year -1 is written "-0001": a sign and at least four digits. |
| `Calendar.SignedYearRendering` | src-tauri/src/lib.rs:38-42 | The first day of year 10000 renders as "+10000-01-01T00:00:00Z", which is not an RFC 3339 `date-time`. |
| `Calendar.FormatRoundTrip` | src-tauri/src/lib.rs:976-989 | Parsing the formatted string of a timestamp in chrono's range gives the timestamp back. |
| `Calendar.EpochRendering` | src-tauri/src/lib.rs:678-686 | Timestamp 0 renders as "1970-01-01T00:00:00Z". A timestamp outside chrono's range falls back to that string. |
| `Calendar.EpochDateTime` | src-tauri/src/lib.rs:678-686 | Timestamp 0 is 1970-01-01 at midnight. |
| `Calendar.LastDayOf1969` | src-tauri/src/lib.rs:695-702 | Timestamp -86400 is 1969-12-31 at midnight. |
| `Calendar.DayBeforeEpoch` | src-tauri/src/lib.rs:695-702 | The string for -86400 starts with "1969-12-31". |

## Left out

- I/O outcomes come in as inputs. The walk, `fs::metadata`, whether paths exist, and the success of every open, delete, save, add and commit during a build are given by `WalkItem`, `Disk` and `Faults`. The store read in `get_file_entity`, the save in `add_or_update_file`, the remove in `remove_file` and the collector's search in `search` fail or succeed by a flag argument. Reloading the reader and fetching a stored document are assumed never to fail.
- `App.AppState.BuildIndex`: the progress events emitted before a hard error are not stated. After such an error, the contract covers the in-memory state only and not what is left on disk.
- `App.IndexedWithinEstimate`: both passes read one snapshot of the roots (`Disk.roots`). The source walks the file system twice, and its estimate is only approximate, so the bound holds only when the tree does not change between the two walks.
- `App.AppState.SearchFiles`: "Search failed: <e>" is abstracted to "Search failed". Every other error string carries the source's text with the underlying error dropped, and `BuildFailure` values stand for `build_index`'s formatted messages.
- Regex validity (`regex::Regex::new`), tantivy's query parser, regex engine, tokeniser and BM25 scoring are abstract: the `regexValid` predicate and the `Engine` functions. The model does not relate the regex crate's validity to tantivy's. A tie between equal scores is broken by document address, which is a modelling choice. A parsed query matches and scores each field on its own, and the score is the boosted sum over `name` and `path`. Boolean structure across the two fields is not captured: a clause that is required or excluded (`+a +b`, `a -b`) and is met in one field but not the other is decided field by field here, not on the combined document.
- `TopDocs::with_limit(0)`: a zero limit gives no hits here, so `search_files` with `limit` 0 returns `Ok` with `total_found` 0. `search_files` accepts 0 (src-tauri/src/lib.rs:433). In the tantivy releases whose top collector asserts a limit of at least 1, any non-blank query then panics in `search` (src-tauri/src/search.rs:94) while the `search_index` lock is held. The mutex is then poisoned, and every later `lock().unwrap()` on it panics. The panic and the poisoning are not modelled. The tantivy version is not part of this model, so whether the source has this defect cannot be settled here.
- SHA-256 is an uninterpreted deterministic function of the path. Collision-freedom is not assumed.
- Paths are strings. `to_string_lossy` on a path that is not UTF-8, and the empty name such a path gets from `file_name().to_str()`, are not modelled. `Path::file_name` is modelled for Unix separators only.
- A modification time before 1970 makes `duration_since(UNIX_EPOCH).unwrap()` panic in `traverse_directory` and `add_or_update_file`. The model only has times after the epoch (`Metadata.modified` is a `nat`).
- Integer widths (`usize`, `u64`, `i64`) are unbounded integers. No counter or size here can come near their limits.
- Floating-point rate and percentage logging, `Instant` timings, wall-clock reads and all logging are left out. The current time and the elapsed milliseconds are parameters.
- `Mutex`/`Arc` and async scheduling are left out. `AppState` is one sequential object, and the test-and-set of the build flag is one method step.
- tantivy's second-precision `DateTime` conversion in `add_date` and `into_timestamp_secs` is taken as the identity on seconds. tantivy releases that store a `DateTime` as nanoseconds in an `i64` can represent only about ±9.2·10^9 seconds around the epoch, from 1677-09-21 to 2262-04-11. Outside that range `from_timestamp_secs` overflows. The model does not bound the stored time.
- Creating the notify watcher in `FileWatcher::new`, `watch_path`, `unwatch_path` and the blocking `recv` are thin wrappers over notify and the channel, and are not modelled. The channel `new` creates is the constructor's empty queue with a live sender.
- The `file_watcher` cell of `AppState` is not modelled. `Default` sets it to `None`, and no command reads or writes it.
- `src-tauri/src/explorer.rs`, `greet`, `init_logging`, `run` and the tray, menu and window handlers are UI and platform glue, and are not part of this model.
- `get_schema` and the `get_field` lookups are not modelled. `get_field` cannot fail on the schema `SearchIndex::new` builds, so those error branches are unreachable.
- The `Err` branch of `traverse_directory` in `build_index` and the `count_files` error branch in `load_existing_index` are unreachable and are not modelled.
