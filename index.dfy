/** The metadata store and the directory traversal (src-tauri/src/index.rs).
    The sled database is a map from entity id to entity; a `WalkDir` walk is the
    sequence of its per-entry outcomes; SHA-256 is an uninterpreted, deterministic
    `Digest` of the path string. */
module Index {
  import opened Wrappers

  /** `FileEntity` (src-tauri/src/lib.rs): one file or directory, as both stores keep it. */
  datatype FileEntity = FileEntity(id: string, name: string, path: string, size: nat, modified: int, isFolder: bool)

  /** What `fs::metadata` reports for an entry; `modified` is `None` when reading the
      modification time fails. Times are whole seconds after the epoch. */
  datatype Metadata = Metadata(isDir: bool, len: nat, modified: Option<nat>)

  /** One item of a `WalkDir` walk: an enumeration error, or an entry's path with its
      metadata (`None` when `fs::metadata` fails). */
  datatype WalkItem = WalkError | WalkEntry(path: string, metadata: Option<Metadata>)

  /** The path digest that serves as entity id (lower-case hex SHA-256 in the source). */
  type Digest = string -> string

  // ---- file names ----

  /** Index of the last `/` in `p`, or -1. */
  function LastSlash(p: string): (i: int)
    ensures -1 <= i < |p|
    ensures i >= 0 ==> p[i] == '/'
    ensures forall j | i < j < |p| :: p[j] != '/'
  {
    if |p| == 0 then -1
    else if p[|p| - 1] == '/' then |p| - 1
    else LastSlash(p[..|p| - 1])
  }

  /** A component that `Path::file_name` can return: not empty, not `.` or `..`,
      without a separator. */
  predicate IsNormalComponent(s: string) {
    s != "" && s != "." && s != ".." && '/' !in s
  }

  /** `Path::file_name` on a Unix path: the last normal component, ignoring trailing
      separators and `.` components; `None` for a path with no component (empty or
      `/`) and for one that ends in `..`. */
  function FileName(p: string): (r: Option<string>)
    ensures r.Some? ==> IsNormalComponent(r.value)
    decreases |p|
  {
    if |p| == 0 then None
    else if p[|p| - 1] == '/' then FileName(p[..|p| - 1])
    else
      var i := LastSlash(p);
      var segment := p[i + 1..];
      assert forall j | 0 <= j < |segment| :: segment[j] == p[i + 1 + j];
      if segment == "." then FileName(p[..i + 1])
      else if segment == ".." then None
      else Some(segment)
  }

  /** The entry `dir/name` is named `name`, whatever the directory. */
  lemma FileNameOfChild(dir: string, name: string)
    requires IsNormalComponent(name)
    ensures FileName(dir + "/" + name) == Some(name)
  {
    var p := dir + "/" + name;
    assert p[|dir|] == '/';
    assert forall j | |dir| < j < |p| :: p[j] == name[j - |dir| - 1];
    assert name[|name| - 1] in name;
    var i := LastSlash(p);
    assert i == |dir|;
    assert p[i + 1..] == name;
  }

  // ---- traversal ----

  /** What one walk item contributes: the entity built for it, or nothing when the
      entry, its metadata or its modification time could not be read. */
  function Produced(digest: Digest, item: WalkItem): seq<FileEntity> {
    match item
    case WalkError => []
    case WalkEntry(path, metadata) =>
      if metadata.None? || metadata.value.modified.None? then []
      else
        var m := metadata.value;
        [FileEntity(digest(path), FileName(path).GetOr(""), path,
                    if m.isDir then 0 else m.len, m.modified.value, m.isDir)]
  }

  /** The entities a walk yields, in walk order. */
  function Traversal(digest: Digest, walk: seq<WalkItem>): seq<FileEntity> {
    if walk == [] then []
    else Traversal(digest, walk[..|walk| - 1]) + Produced(digest, walk[|walk| - 1])
  }

  /** An entity as traversal builds it: id derived from the path, name its final
      component (or ""), and size 0 for a folder. */
  predicate WellFormed(digest: Digest, e: FileEntity) {
    && e.id == digest(e.path)
    && e.name == FileName(e.path).GetOr("")
    && (e.isFolder ==> e.size == 0)
  }

  /** Entities keep walk order: traversing two walks one after the other gives the two
      results concatenated. */
  lemma {:induction false} TraversalConcat(digest: Digest, w1: seq<WalkItem>, w2: seq<WalkItem>)
    ensures Traversal(digest, w1 + w2) == Traversal(digest, w1) + Traversal(digest, w2)
    decreases |w2|
  {
    if w2 == [] {
      assert w1 + w2 == w1;
    } else {
      var last := w2[|w2| - 1];
      assert (w1 + w2)[..|w1 + w2| - 1] == w1 + w2[..|w2| - 1];
      TraversalConcat(digest, w1, w2[..|w2| - 1]);
    }
  }

  /** Every item yields at most one entity, and every produced entity is well formed. */
  lemma {:induction false} TraversalWellFormed(digest: Digest, walk: seq<WalkItem>)
    ensures |Traversal(digest, walk)| <= |walk|
    ensures forall e | e in Traversal(digest, walk) :: WellFormed(digest, e)
  {
    if walk != [] {
      TraversalWellFormed(digest, walk[..|walk| - 1]);
    }
  }

  /** A readable entry yields exactly the entity with the entry's own path, id, size and time. */
  lemma ReadableEntry(digest: Digest, path: string, isDir: bool, len: nat, modified: nat)
    ensures Traversal(digest, [WalkEntry(path, Some(Metadata(isDir, len, Some(modified))))])
         == [FileEntity(digest(path), FileName(path).GetOr(""), path, if isDir then 0 else len, modified, isDir)]
  {
    var w := [WalkEntry(path, Some(Metadata(isDir, len, Some(modified))))];
    assert w[..0] == [];
  }

  // ---- the store as a map ----

  /** The store after saving `entities` in order: later saves of the same id win. */
  function Upserted(db: map<string, FileEntity>, entities: seq<FileEntity>): map<string, FileEntity> {
    if entities == [] then db
    else
      var e := entities[|entities| - 1];
      Upserted(db, entities[..|entities| - 1])[e.id := e]
  }

  /** Saving a batch is overriding the old store with the batch saved into an empty one. */
  lemma {:induction false} UpsertedIsOverride(db: map<string, FileEntity>, entities: seq<FileEntity>)
    ensures Upserted(db, entities) == db + Upserted(map[], entities)
  {
    if entities != [] {
      UpsertedIsOverride(db, entities[..|entities| - 1]);
    }
  }

  /** Saving two batches one after the other is saving their concatenation. */
  lemma {:induction false} UpsertedConcat(db: map<string, FileEntity>, a: seq<FileEntity>, b: seq<FileEntity>)
    ensures Upserted(Upserted(db, a), b) == Upserted(db, a + b)
    decreases |b|
  {
    if b == [] {
      assert a + b == a;
    } else {
      assert (a + b)[..|a + b| - 1] == a + b[..|b| - 1];
      UpsertedConcat(db, a, b[..|b| - 1]);
    }
  }

  /** Re-indexing the same entities leaves the store as it was: upserts never duplicate. */
  lemma UpsertedIdempotent(db: map<string, FileEntity>, entities: seq<FileEntity>)
    ensures Upserted(Upserted(db, entities), entities) == Upserted(db, entities)
  {
    UpsertedIsOverride(db, entities);
    UpsertedIsOverride(Upserted(db, entities), entities);
    var batch := Upserted(map[], entities);
    assert (db + batch) + batch == db + batch;
  }

  /** After saving a batch, every saved id is present and the store grew by at most the batch size. */
  lemma {:induction false} UpsertedKeys(db: map<string, FileEntity>, entities: seq<FileEntity>)
    ensures forall e | e in entities :: e.id in Upserted(db, entities)
    ensures forall k | k in db :: k in Upserted(db, entities)
    ensures |Upserted(db, entities)| <= |db| + |entities|
  {
    if entities != [] {
      var init := entities[..|entities| - 1];
      UpsertedKeys(db, init);
      forall e | e in entities ensures e.id in Upserted(db, entities) {
        if e != entities[|entities| - 1] {
          assert e in init;
        }
      }
    }
  }

  /** Re-saving entities whose ids are all stored already keeps the set of keys. */
  lemma {:induction false} UpsertedKnownIds(db: map<string, FileEntity>, entities: seq<FileEntity>)
    requires forall e | e in entities :: e.id in db
    ensures Upserted(db, entities).Keys == db.Keys
  {
    if entities != [] {
      var init := entities[..|entities| - 1];
      assert forall e | e in init :: e in entities;
      UpsertedKnownIds(db, init);
      assert entities[|entities| - 1] in entities;
    }
  }

  /** Saving one entity: it can be read back field for field, every other key keeps its
      value, and the count grows by one exactly when the id was new. */
  lemma SaveThenGet(db: map<string, FileEntity>, e: FileEntity)
    ensures e.id in db[e.id := e] && db[e.id := e][e.id] == e
    ensures forall k | k in db && k != e.id :: k in db[e.id := e] && db[e.id := e][k] == db[k]
    ensures |db[e.id := e]| == if e.id in db then |db| else |db| + 1
  {
    if e.id !in db {
      assert db[e.id := e].Keys == db.Keys + {e.id};
    } else {
      assert db[e.id := e].Keys == db.Keys;
    }
  }

  /** `IndexManager`: a handle on the sled store. */
  class IndexManager {
    const digest: Digest
    var db: map<string, FileEntity>

    /** `IndexManager::new`: opens the store at its path; `stored` is what it already
        holds (empty when the store is created). */
    constructor (digest: Digest, stored: map<string, FileEntity>)
      ensures this.digest == digest && db == stored
    {
      this.digest := digest;
      db := stored;
    }

    /** `save_file_entity`: insert under the entity's id, replacing any older value. */
    method SaveFileEntity(entity: FileEntity)
      modifies this
      ensures db == old(db)[entity.id := entity]
      ensures |db| == if entity.id in old(db) then old(|db|) else old(|db|) + 1
    {
      SaveThenGet(db, entity);
      db := db[entity.id := entity];
    }

    /** `get_file_entity`: the entity stored under `id`, or `None`; `readFails` says
        that the store read, or decoding the stored bytes, fails. */
    method GetFileEntity(id: string, readFails: bool) returns (r: Result<Option<FileEntity>, string>)
      ensures readFails ==> r.Err?
      ensures !readFails ==> r.Ok? && (r.value.Some? <==> id in db)
      ensures r.Ok? && r.value.Some? ==> id in db && r.value.value == db[id]
    {
      if readFails {
        return Err("failed to read the store");
      }
      if id in db {
        r := Ok(Some(db[id]));
      } else {
        r := Ok(None);
      }
    }

    /** `count_files`: a full scan that counts one per stored item. */
    method CountFiles() returns (count: nat)
      ensures count == |db|
    {
      count := 0;
      var unseen := db.Keys;
      while unseen != {}
        invariant unseen <= db.Keys
        invariant count + |unseen| == |db|
        decreases |unseen|
      {
        var k :| k in unseen;
        unseen := unseen - {k};
        count := count + 1;
      }
    }

    /** `traverse_directory`: one entity per readable item, in walk order; an unreadable
        item is counted and skipped, and the call never fails. */
    method TraverseDirectory(walk: seq<WalkItem>) returns (r: Result<seq<FileEntity>, string>, skipped: nat)
      ensures r == Ok(Traversal(digest, walk))
      ensures |r.value| + skipped == |walk|
    {
      var entities: seq<FileEntity> := [];
      skipped := 0;
      for i := 0 to |walk|
        invariant entities == Traversal(digest, walk[..i])
        invariant |entities| + skipped == i
      {
        assert walk[..i + 1][..i] == walk[..i];
        match walk[i]
        case WalkError =>
          skipped := skipped + 1;
        case WalkEntry(path, metadata) =>
          if metadata.None? {
            skipped := skipped + 1;
          } else if metadata.value.modified.None? {
            skipped := skipped + 1;
          } else {
            var isFolder := metadata.value.isDir;
            var size := if isFolder then 0 else metadata.value.len;
            var name := FileName(path).GetOr("");
            var entity := FileEntity(digest(path), name, path, size, metadata.value.modified.value, isFolder);
            entities := entities + [entity];
          }
      }
      assert walk[..|walk|] == walk;
      r := Ok(entities);
    }

    /** `add_or_update_file`: nothing for a path that does not exist; an error when its
        metadata or modification time cannot be read, or when saving fails
        (`saveFails`); otherwise the entity traversal would build for the path, saved. */
    method AddOrUpdateFile(path: string, pathExists: bool, metadata: Option<Metadata>, saveFails: bool)
      returns (r: Result<Option<FileEntity>, string>)
      modifies this
      ensures !pathExists ==> r == Ok(None) && db == old(db)
      ensures pathExists && (metadata.None? || metadata.value.modified.None? || saveFails) ==> r.Err? && db == old(db)
      ensures r.Ok? && r.value.Some? ==>
        && Traversal(digest, [WalkEntry(path, metadata)]) == [r.value.value]
        && db == old(db)[r.value.value.id := r.value.value]
      ensures pathExists && metadata.Some? && metadata.value.modified.Some? && !saveFails ==> r.Ok? && r.value.Some?
    {
      if !pathExists {
        return Ok(None);
      }
      if metadata.None? {
        return Err("failed to read metadata");
      }
      if metadata.value.modified.None? {
        return Err("failed to read modification time");
      }
      var m := metadata.value;
      ReadableEntry(digest, path, m.isDir, m.len, m.modified.value);
      var entity := FileEntity(digest(path), FileName(path).GetOr(""), path,
                               if m.isDir then 0 else m.len, m.modified.value, m.isDir);
      if saveFails {
        return Err("failed to save entity");
      }
      SaveFileEntity(entity);
      r := Ok(Some(entity));
    }

    /** `remove_file`: deletes the key derived from the path; an absent key is not an
        error, and `removeFails` says that the store's remove fails. */
    method RemoveFile(path: string, removeFails: bool) returns (r: Result<(), string>)
      modifies this
      ensures r.Ok? <==> !removeFails
      ensures r.Err? ==> db == old(db)
      ensures r.Ok? ==> db == old(db) - {digest(path)} && digest(path) !in db
      ensures r.Ok? ==> forall k | k in old(db) && k != digest(path) :: k in db && db[k] == old(db)[k]
    {
      if removeFails {
        return Err("failed to remove entity");
      }
      db := db - {digest(path)};
      r := Ok(());
    }
  }
}
