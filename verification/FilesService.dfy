/**
 * Requests that change the bucket and the tables together, with a failure possible at every call: moving a file,
 * and deleting a directory, objects first, then rows, batch by batch.
 */
module FilesService {
  import opened Common
  import opened Ordering
  import opened Paths
  import opened Like
  import opened Measures
  import opened Keyset
  import opened DirectoryIndex
  import opened MoveLocks

  type Content = int

  const DELETE_DIRECTORY_BATCH_SIZE := 1000

  /** The tables, the bucket and the preview keys (file id to object key, "" for none) at one moment. */
  datatype World = World(tables: Tables, bucket: map<string, Content>, previews: map<int, string>)

  /** The rows a key pattern selects. */
  function Selected(files: map<int, FileRow>, pattern: string): set<int> {
    set id | id in files && Matches(pattern, files[id].key)
  }

  /** The rows under a directory path, markers included. */
  function Doomed(files: map<int, FileRow>, path: string): set<int> {
    set id | id in files && path <= files[id].key
  }

  lemma SelectedIsDoomed(files: map<int, FileRow>, path: string)
    ensures Selected(files, EscapeLike(path) + "%") == Doomed(files, path)
  {
    forall id | id in files ensures Matches(EscapeLike(path) + "%", files[id].key) <==> path <= files[id].key {
      EscapedIsPrefixTest(path, files[id].key);
    }
  }

  /** The objects of a set of rows: sources and previews. */
  function ObjectsOf(files: map<int, FileRow>, previews: map<int, string>, ids: set<int>): set<string> {
    (set id | id in ids && id in files :: files[id].key)
    + (set id | id in ids && id in files && id in previews && previews[id] != "" :: previews[id])
  }

  lemma ObjectsOfUnion(files: map<int, FileRow>, previews: map<int, string>, a: set<int>, b: set<int>)
    ensures ObjectsOf(files, previews, a + b) == ObjectsOf(files, previews, a) + ObjectsOf(files, previews, b)
  {
  }

  lemma ObjectsOfRest(files: map<int, FileRow>, previews: map<int, string>, gone: set<int>, ids: set<int>)
    requires gone !! ids
    ensures ObjectsOf(files - gone, previews - gone, ids) == ObjectsOf(files, previews, ids)
  {
  }

  // ---- What a delete may leave behind ---------------------------------------------------------

  /** The world with everything under `path` gone and nothing else changed. */
  ghost function Wiped(w: World, path: string): World {
    var ids := Doomed(w.tables.files, path);
    var files := w.tables.files - ids;
    World(w.tables.(files := files, directories := set d | d in w.tables.directories && HasFileUnder(files, d)),
          w.bucket - ObjectsOf(w.tables.files, w.previews, ids), w.previews - ids)
  }

  /** A wipe, entry by entry: rows below the path, their objects and their previews are gone, all else is as it was. */
  lemma WipedMeans(w: World, path: string, id: int, k: string)
    requires Good(w.tables)
    ensures var v, files := Wiped(w, path), w.tables.files;
            && (id in v.tables.files <==> id in files && !(path <= files[id].key))
            && (id in v.tables.files ==> v.tables.files[id] == files[id])
            && (id in v.previews <==> id in w.previews && !(id in files && path <= files[id].key))
            && (id in v.previews ==> v.previews[id] == w.previews[id])
            && (k in v.bucket <==>
                  k in w.bucket && forall i :: i in files && path <= files[i].key ==>
                    files[i].key != k && (i in w.previews && w.previews[i] != "" ==> w.previews[i] != k))
            && (k in v.bucket ==> v.bucket[k] == w.bucket[k])
            && Good(v.tables) && v.tables.nextId == w.tables.nextId
  {
    WipedIsGood(w, path);
  }

  /** What an attempt that got as far as the rows `gone` leaves: their objects went first, others may have gone too. */
  ghost predicate PartlyWiped(a: World, b: World, path: string, gone: set<int>) {
    var ids := Doomed(a.tables.files, path);
    && gone <= ids && (forall i, j :: i in gone && j in ids && j < i ==> j in gone)
    && b.tables.files == a.tables.files - gone && b.tables.nextId == a.tables.nextId && Good(b.tables)
    && b.previews == a.previews - gone
    && b.bucket.Keys <= a.bucket.Keys && (forall k :: k in b.bucket ==> b.bucket[k] == a.bucket[k])
    && ObjectsOf(a.tables.files, a.previews, gone) !! b.bucket.Keys
    && a.bucket.Keys - b.bucket.Keys <= ObjectsOf(a.tables.files, a.previews, ids)
  }

  /** The index is determined by the files. */
  lemma IndexIsDetermined(t: Tables, u: Tables)
    requires Good(t) && Good(u) && t.files == u.files && t.nextId == u.nextId
    ensures t == u
  {
    assert t.directories == u.directories;
  }

  lemma WipedIsGood(w: World, path: string)
    requires Good(w.tables)
    ensures Good(Wiped(w, path).tables)
  {
    var files := w.tables.files - Doomed(w.tables.files, path);
    forall d | HasFileUnder(files, d) ensures d in w.tables.directories {
      assert HasFileUnder(w.tables.files, d);
    }
  }

  /** A failed attempt does not change where a retry ends. */
  lemma RetryEndsAlike(a: World, b: World, path: string, gone: set<int>)
    requires Good(a.tables) && PartlyWiped(a, b, path, gone)
    ensures Wiped(b, path) == Wiped(a, path)
  {
    var ids := Doomed(a.tables.files, path);
    assert Doomed(b.tables.files, path) == ids - gone;
    assert b.tables.files - (ids - gone) == a.tables.files - ids;
    assert b.previews - (ids - gone) == a.previews - ids;
    WipedIsGood(a, path);
    WipedIsGood(b, path);
    IndexIsDetermined(Wiped(a, path).tables, Wiped(b, path).tables);
    ObjectsSplit(a, b, path, gone);
  }

  lemma ObjectsSplit(a: World, b: World, path: string, gone: set<int>)
    requires PartlyWiped(a, b, path, gone)
    ensures Wiped(b, path).bucket == Wiped(a, path).bucket
  {
    var ids := Doomed(a.tables.files, path);
    var all, early := ObjectsOf(a.tables.files, a.previews, ids), ObjectsOf(a.tables.files, a.previews, gone);
    var late := ObjectsOf(b.tables.files, b.previews, ids - gone);
    assert Doomed(b.tables.files, path) == ids - gone;
    ObjectsOfUnion(a.tables.files, a.previews, gone, ids - gone);
    assert gone + (ids - gone) == ids;
    ObjectsOfRest(a.tables.files, a.previews, gone, ids - gone);
    assert b.bucket - late == a.bucket - all;
  }

  /** `worlds` are the states before each of a series of failed attempts and after the last. */
  ghost predicate Attempts(worlds: seq<World>, path: string) {
    && |worlds| > 0 && Good(worlds[0].tables)
    && forall i :: 0 <= i < |worlds| - 1 ==> Failed(worlds[i], worlds[i + 1], path)
  }

  ghost predicate Failed(a: World, b: World, path: string) {
    exists gone :: PartlyWiped(a, b, path, gone)
  }

  /** However often the delete fails first, the attempt that succeeds reaches the same state. */
  lemma {:induction false} AnyRetriesEndAlike(worlds: seq<World>, path: string)
    requires Attempts(worlds, path)
    ensures Good(worlds[|worlds| - 1].tables)
    ensures Wiped(worlds[|worlds| - 1], path) == Wiped(worlds[0], path)
    decreases |worlds|
  {
    var n := |worlds| - 1;
    if n > 0 {
      AnyRetriesEndAlike(worlds[..n], path);
      assert Failed(worlds[n - 1], worlds[n - 1 + 1], path);
      var gone :| PartlyWiped(worlds[n - 1], worlds[n], path, gone);
      RetryEndsAlike(worlds[n - 1], worlds[n], path, gone);
    }
  }

  // ---- The service ----------------------------------------------------------------------------

  /** `batch` is `ORDER BY id LIMIT limit` of `ids`. */
  ghost predicate IsFirst(batch: seq<int>, ids: set<int>, limit: nat) {
    && Ascending(batch) && |batch| <= limit && (forall id :: id in batch ==> id in ids)
    && (forall id :: id in ids && id !in batch ==> |batch| == limit && forall i :: 0 <= i < limit ==> batch[i] < id)
  }

  /** The selected rows a cursor has not passed. */
  function Remaining(files: map<int, FileRow>, pattern: string, hasCursor: bool, lastID: int): set<int> {
    set id | id in Selected(files, pattern) && (hasCursor ==> id > lastID)
  }

  method ListFilesForDelete(files: map<int, FileRow>, pattern: string, hasCursor: bool, lastID: int, limit: nat)
    returns (batch: seq<int>)
    ensures IsFirst(batch, Remaining(files, pattern, hasCursor, lastID), limit)
  {
    var rows := Ordered(IntLess, Remaining(files, pattern, hasCursor, lastID));
    batch := Take(rows, limit);
    TakeIsFirst(IntLess, rows, limit);
  }

  /** The rows and objects of a batch. */
  method Collect(files: map<int, FileRow>, previews: map<int, string>, batch: seq<int>)
    returns (objectKeys: seq<string>, sourceKeys: seq<string>, ids: set<int>)
    requires forall id :: id in batch ==> id in files
    ensures (set k | k in objectKeys) == ObjectsOf(files, previews, ids)
    ensures ids == (set id | id in batch)
    ensures forall id :: id in batch ==> files[id].key in sourceKeys
  {
    objectKeys, sourceKeys, ids := [], [], {};
    for i := 0 to |batch|
      invariant ids == set id | id in batch[..i]
      invariant (set k | k in objectKeys) == ObjectsOf(files, previews, ids)
      invariant forall id :: id in batch[..i] ==> files[id].key in sourceKeys
    {
      var id := batch[i];
      ObjectsOfMore(files, previews, ids, id);
      objectKeys := objectKeys + [files[id].key];
      sourceKeys := sourceKeys + [files[id].key];
      if id in previews && previews[id] != "" {
        objectKeys := objectKeys + [previews[id]];
      }
      ids := ids + {id};
    }
  }

  lemma ObjectsOfMore(files: map<int, FileRow>, previews: map<int, string>, ids: set<int>, id: int)
    requires id in files
    ensures ObjectsOf(files, previews, ids + {id}) ==
            ObjectsOf(files, previews, ids) + {files[id].key} +
            (if id in previews && previews[id] != "" then {previews[id]} else {})
  {
  }

  /** What a move asks of its destination. */
  predicate ValidDestination(indexPrefix: string, oldKey: string, newKey: string) {
    newKey != "" && newKey != oldKey && (indexPrefix == "" || !(indexPrefix <= newKey))
  }

  /** The size of each row; `COALESCE(size_bytes, 0)`. */
  function SizesOf(sizes: map<int, nat>, ids: set<int>): map<int, nat> {
    map id | id in ids :: if id in sizes then sizes[id] else 0
  }

  /** A row without a size adds nothing to the total. */
  lemma MissingSizesAddNothing(sizes: map<int, nat>, ids: set<int>)
    ensures Total(SizesOf(sizes, ids)) == Total(map id | id in ids && id in sizes :: sizes[id])
  {
    var all, known := SizesOf(sizes, ids), map id | id in ids && id in sizes :: sizes[id];
    TotalBelow(known, all);
    TotalGrows(all, known, set id | id in ids && id !in sizes, 0);
  }

  method SumSizes(sizes: map<int, nat>, ids: set<int>) returns (sum: nat)
    ensures sum == Total(SizesOf(sizes, ids))
  {
    var rest := ids;
    sum := 0;
    while exists id :: id in rest
      invariant sum + Total(SizesOf(sizes, rest)) == Total(SizesOf(sizes, ids))
      decreases rest
    {
      var id :| id in rest;
      TotalRemove(SizesOf(sizes, rest), id);
      assert SizesOf(sizes, rest) - {id} == SizesOf(sizes, rest - {id});
      sum := sum + SizesOf(sizes, rest)[id];
      rest := rest - {id};
    }
    TotalZero(SizesOf(sizes, rest));
  }

  class FilesService {
    const indexPrefix: string
    const store: Store
    /** No call to the database fails. */
    const tablesReliable: bool
    /** No call to the object store fails. */
    const objectsReliable: bool
    var bucket: map<string, Content>
    var previews: map<int, string>

    ghost function View(): World
      reads this, store
    {
      World(store.View(), bucket, previews)
    }

    ghost predicate Valid()
      reads this, store
    {
      store.Valid() && previews.Keys <= store.files.Keys
    }

    constructor (indexPrefix: string, store: Store, tablesReliable: bool, objectsReliable: bool)
      requires store.Valid()
      ensures Valid() && this.store == store && this.indexPrefix == indexPrefix
      ensures this.tablesReliable == tablesReliable && this.objectsReliable == objectsReliable
      ensures bucket == map[] && previews == map[]
    {
      this.indexPrefix, this.store, bucket, previews := indexPrefix, store, map[], map[];
      this.tablesReliable, this.objectsReliable := tablesReliable, objectsReliable;
    }

    /** No call to either fails. */
    predicate Reliable() {
      tablesReliable && objectsReliable
    }

    /** A multi-object delete. When it reports an error, any of the objects may be gone. */
    method DeleteMany(keys: seq<string>) returns (ok: bool)
      modifies this`bucket
      ensures ok ==> bucket == old(bucket) - set k | k in keys
      ensures bucket.Keys <= old(bucket).Keys && old(bucket).Keys - bucket.Keys <= set k | k in keys
      ensures (forall k :: k in bucket ==> bucket[k] == old(bucket)[k]) && (objectsReliable ==> ok)
    {
      ok := *;
      ok := ok || objectsReliable;
      var reached: set<string> := *;
      bucket := bucket - set k | k in keys && (ok || k in reached);
    }

    /** How many files a delete of `path` would remove, and their total size; a file without one counts 0 bytes. */
    method GetDirectoryStats(path: string, sizes: map<int, nat>) returns (r: Result<(nat, nat)>)
      ensures r.Ok? <==> ValidateDirPath(indexPrefix, path).Ok?
      ensures r.Ok? ==> r.value.0 == |Doomed(store.files, path)|
      ensures r.Ok? ==>
                var f := store.files;
                r.value.1 == Total(map id | id in f && path <= f[id].key && id in sizes :: sizes[id])
      ensures r.Err? ==> r.error == InvalidArgument
    {
      var v := ValidateDirPath(indexPrefix, path);
      if v.Err? { return Err(InvalidArgument); }
      SelectedIsDoomed(store.files, path);
      var ids := Selected(store.files, EscapeLike(path) + "%");
      var bytes := SumSizes(sizes, ids);
      MissingSizesAddNothing(sizes, ids);
      assert (map id | id in ids && id in sizes :: sizes[id]) ==
             map id | id in store.files && path <= store.files[id].key && id in sizes :: sizes[id];
      return Ok((|ids|, bytes));
    }

    /** Every row whose object was there still has it, with the same content, under its current key. */
    twostate predicate KeepsContents()
      reads this, store
    {
      forall j :: j in store.files && j in old(store.files) && old(store.files)[j].key in old(bucket) ==>
        store.files[j].key in bucket && bucket[store.files[j].key] == old(bucket)[old(store.files)[j].key]
    }

    twostate predicate OnlyTouches(keys: set<string>)
      reads this
    {
      forall k :: k !in keys ==> (k in bucket <==> k in old(bucket)) && (k in bucket ==> bucket[k] == old(bucket)[k])
    }

    /**
     * A move request. An error means the tables are unchanged, except that the read of the finished row
     * can fail after the move; the error codes tell a missing row, a bad and a taken destination apart.
     */
    method MoveFile(id: int, newKey: string, session: Session) returns (r: Result<FileRow>)
      requires Valid()
      modifies this`bucket, store, session
      ensures Valid() && session.held == old(session.held) && KeepsContents()
      ensures r.Ok? ==> id in store.files && r.value == store.files[id] && r.value.key == newKey
      ensures store.View() == old(store.View()) ||
              ((r.Ok? || r == Err(Internal)) && id in old(store.files) &&
               store.View() == Moved(old(store.View()), id, newKey))
      ensures r.Ok? ==>
                store.View() != old(store.View()) && ValidDestination(indexPrefix, old(store.files)[id].key, newKey)
      ensures r == Err(NotFound) ==> id !in old(store.files)
      ensures r == Err(InvalidArgument) ==>
                  id in old(store.files) && !ValidDestination(indexPrefix, old(store.files)[id].key, newKey)
      ensures r == Err(AlreadyExists) ==> KeyTaken(old(store.files), newKey)
      ensures Reliable() && session.reliable ==>
                if id !in old(store.files) then r == Err(NotFound)
                else if !ValidDestination(indexPrefix, old(store.files)[id].key, newKey) then r == Err(InvalidArgument)
                else if KeyTaken(old(store.files), newKey) then r == Err(AlreadyExists)
                else (r.Ok? <==> old(store.files)[id].key in old(bucket))
                     && var key := old(store.files)[id].key;
                        r.Ok? ==> bucket == old(bucket)[newKey := old(bucket)[key]] - {key}
      ensures objectsReliable && store.View() == old(store.View()) ==>
                bucket == old(bucket) || bucket == old(bucket) - {newKey}
    {
      var reachable: bool := *;
      if !reachable && !tablesReliable { return Err(Internal); }
      if id !in store.files { return Err(NotFound); }
      var file := store.files[id];
      if newKey == "" || newKey == file.key || (indexPrefix != "" && indexPrefix <= newKey) {
        return Err(InvalidArgument); }
      if KeyTaken(store.files, newKey) { return Err(AlreadyExists); }
      r := MoveFileWithLocks(id, file.key, newKey, session);
      reachable := *;
      if r.Ok? && !reachable && !tablesReliable { r := Err(Internal); }
    }

    /**
     * The critical section of a move, run alone. Either the row and its content are at the new key, or
     * the tables are unchanged; at no exit has a row lost its object, and the locks are released.
     */
    method MoveFileWithLocks(id: int, oldKey: string, newKey: string, session: Session) returns (r: Result<FileRow>)
      requires Valid() && oldKey != newKey && (id in store.files ==> store.files[id].key == oldKey)
      modifies this`bucket, store, session
      ensures Valid() && session.held == old(session.held) && KeepsContents() && OnlyTouches({oldKey, newKey})
      ensures r.Ok? ==>
                && id in old(store.files) && oldKey in old(bucket) && !KeyTaken(old(store.files), newKey)
                && store.View() == Moved(old(store.View()), id, newKey) && r.value == store.files[id]
                && newKey in bucket && bucket[newKey] == old(bucket)[oldKey]
      ensures r.Err? ==> store.View() == old(store.View()) && OnlyTouches({newKey})
      ensures r == Err(NotFound) ==> id !in store.files
      ensures r == Err(AlreadyExists) ==> KeyTaken(store.files, newKey) && bucket == old(bucket)
      ensures r != Err(InvalidArgument)
      ensures Reliable() && session.reliable && id in old(store.files) && !KeyTaken(old(store.files), newKey) ==>
                && (r.Ok? <==> oldKey in old(bucket))
                && (r.Ok? ==> bucket == old(bucket)[newKey := old(bucket)[oldKey]] - {oldKey})
      ensures objectsReliable ==>
                if r.Ok? then bucket == old(bucket)[newKey := old(bucket)[oldKey]] - {oldKey}
                else bucket == old(bucket) || bucket == old(bucket) - {newKey}
    {
      var locks := session.AcquireMoveLocks([oldKey, newKey]);
      if locks.Err? { return Err(Internal); }
      r := MoveLocked(id, newKey);
      session.ReleaseAll(locks.value);
    }

    method MoveLocked(id: int, newKey: string) returns (r: Result<FileRow>)
      requires Valid() && (id in store.files ==> store.files[id].key != newKey)
      modifies this`bucket, store
      ensures Valid() && KeepsContents()
      ensures r.Ok? ==>
                && id in old(store.files) && !KeyTaken(old(store.files), newKey)
                && store.View() == Moved(old(store.View()), id, newKey) && r.value == store.files[id]
                && var oldKey := old(store.files)[id].key;
                   OnlyTouches({oldKey, newKey}) && oldKey in old(bucket) &&
                   newKey in bucket && bucket[newKey] == old(bucket)[oldKey]
      ensures r.Err? ==> store.View() == old(store.View()) && OnlyTouches({newKey})
      ensures r == Err(NotFound) ==> id !in store.files
      ensures r == Err(AlreadyExists) ==> KeyTaken(store.files, newKey) && bucket == old(bucket)
      ensures r != Err(InvalidArgument)
      ensures Reliable() && id in old(store.files) && !KeyTaken(old(store.files), newKey) ==>
                var oldKey := old(store.files)[id].key;
                && (r.Ok? <==> oldKey in old(bucket))
                && (r.Ok? ==> bucket == old(bucket)[newKey := old(bucket)[oldKey]] - {oldKey})
      ensures objectsReliable ==>
                if r.Ok? then bucket == old(bucket)[newKey := bucket[newKey]] - {old(store.files)[id].key}
                else bucket == old(bucket) || bucket == old(bucket) - {newKey}
    {
      var reachable: bool := *;
      if !reachable && !tablesReliable { return Err(Internal); }
      if id !in store.files { return Err(NotFound); }
      var src := store.files[id].key;
      if KeyTaken(store.files, newKey) { return Err(AlreadyExists); }
      var effect: bool := *;
      var ok: bool := *;
      effect, ok := effect || objectsReliable, ok || objectsReliable;
      if effect && src in bucket { bucket := bucket[newKey := bucket[src]]; }
      if !(ok && effect && src in bucket) { return Err(Internal); }
      var commits: bool := *;
      var removed: bool := *;
      removed := removed || objectsReliable;
      r := store.MoveFileWithDirectories(id, newKey, commits || tablesReliable);
      if r.Err? {
        if r.error == AlreadyExists { return; }
        if removed { bucket := bucket - {newKey}; }
        return Err(Internal);
      }
      if removed { bucket := bucket - {src}; }
    }

    /**
     * On success everything under the path is gone, nothing else changed, and the count is the one
     * the statistics promised. On failure an initial segment of the rows is gone, their objects before them.
     */
    method DeleteDirectory(path: string) returns (r: Result<()>, deleted: nat, ghost gone: set<int>)
      requires Valid()
      modifies this`bucket, this`previews, store
      ensures Valid() && deleted == |gone|
      ensures ValidateDirPath(indexPrefix, path).Err? <==> r == Err(InvalidArgument)
      ensures r == Err(InvalidArgument) ==> View() == old(View())
      ensures r.Ok? ==> View() == Wiped(old(View()), path) && gone == Doomed(old(store.files), path)
      ensures r.Err? ==> PartlyWiped(old(View()), View(), path, gone)
      ensures Reliable() && ValidateDirPath(indexPrefix, path).Ok? ==> r.Ok?
    {
      deleted, gone := 0, {};
      ghost var w, ids := View(), Doomed(store.files, path);
      StartsIntact(w, path);
      if ValidateDirPath(indexPrefix, path).Err? {
        r := Err(InvalidArgument);
        return;
      }
      var pattern := EscapeLike(path) + "%";
      var lastID, hasCursor := 0, false;
      var length := DELETE_DIRECTORY_BATCH_SIZE;
      while length == DELETE_DIRECTORY_BATCH_SIZE
        invariant Valid() && Removed(w, View(), path, gone) && deleted == |gone|
        invariant if length == DELETE_DIRECTORY_BATCH_SIZE then gone == UpTo(ids, hasCursor, lastID) else gone == ids
        decreases if length == DELETE_DIRECTORY_BATCH_SIZE then |store.files| + 1 else 0
      {
        var n;
        n, length, lastID, gone := DeletePage(pattern, hasCursor, lastID, w, path, gone);
        if n.Err? {
          r := Err(Internal);
          return;
        }
        deleted, hasCursor := deleted + n.value, true;
      }
      RemovedIsWiped(w, View(), path);
      r := Ok(());
    }

    /** One round of the loop. A page shorter than the batch size, even an empty one, is the last. */
    method DeletePage(pattern: string, hasCursor: bool, lastID: int, ghost w: World, ghost path: string,
        ghost gone: set<int>)
      returns (n: Result<nat>, length: nat, last: int, ghost more: set<int>)
      requires Valid() && Removed(w, View(), path, gone) && pattern == EscapeLike(path) + "%"
      requires gone == UpTo(Doomed(w.tables.files, path), hasCursor, lastID)
      modifies this`bucket, this`previews, store
      ensures Valid() && length <= 1000 && (Reliable() ==> n.Ok?)
      ensures n.Err? ==> more == gone && PartlyWiped(w, View(), path, gone)
      ensures n.Ok? ==> Removed(w, View(), path, more) && |more| == |gone| + n.value
      ensures n.Ok? ==>
                if length == 1000 then more == UpTo(Doomed(w.tables.files, path), true, last)
                else more == Doomed(w.tables.files, path)
      ensures n.Ok? && length == DELETE_DIRECTORY_BATCH_SIZE ==> |store.files| < |old(store.files)|
    {
      length, last, more := 0, lastID, gone;
      var listed: bool := *;
      if !listed && !tablesReliable {
        RemovedIsPartial(w, View(), path, gone);
        n := Err(Internal);
        return;
      }
      var batch := NextBatch(pattern, hasCursor, lastID, w, path, gone);
      if |batch| == 0 {
        assert Elements(batch) == {};
        n := Ok(0);
        return;
      }
      n := DeleteBatch(batch, w, path, gone);
      if n.Err? { return; }
      length, last, more := |batch|, batch[|batch| - 1], gone + Elements(batch);
    }

    /** The next rows under the path, and where they leave the cursor. */
    method NextBatch(pattern: string, hasCursor: bool, lastID: int, ghost w: World, ghost path: string,
        ghost gone: set<int>)
      returns (batch: seq<int>)
      requires pattern == EscapeLike(path) + "%" && Removed(w, View(), path, gone)
      requires gone == UpTo(Doomed(w.tables.files, path), hasCursor, lastID)
      ensures var ids := Doomed(w.tables.files, path);
              && |batch| <= DELETE_DIRECTORY_BATCH_SIZE && Elements(batch) <= ids - gone
              && (|batch| < DELETE_DIRECTORY_BATCH_SIZE ==> gone + Elements(batch) == ids)
              && (forall i, j :: i in Elements(batch) && j in ids - gone && j < i ==> j in Elements(batch))
              && (|batch| > 0 ==>
                    Elements(batch) != {} && gone + Elements(batch) == UpTo(ids, true, batch[|batch| - 1]))
    {
      batch := ListFilesForDelete(store.files, pattern, hasCursor, lastID, DELETE_DIRECTORY_BATCH_SIZE);
      RemainingIsRest(w, View(), path, gone, hasCursor, lastID);
      if |batch| == 0 {
        EmptyPageIsEnd(Doomed(w.tables.files, path), gone, batch);
      } else {
        CursorMoves(Doomed(w.tables.files, path), gone, hasCursor, lastID, batch);
      }
    }

    /** One batch: objects first; the rows only if every object is gone. */
    method DeleteBatch(batch: seq<int>, ghost w: World, ghost path: string, ghost gone: set<int>)
      returns (n: Result<nat>)
      requires Valid() && Removed(w, View(), path, gone) && Elements(batch) <= Doomed(w.tables.files, path) - gone
      requires forall i, j :: i in Elements(batch) && j in Doomed(w.tables.files, path) - gone && j < i ==>
                   j in Elements(batch)
      modifies this`bucket, this`previews, store
      ensures Valid() && (Reliable() ==> n.Ok?)
      ensures n.Ok? ==> n.value == |Elements(batch)| && Removed(w, View(), path, gone + Elements(batch))
      ensures n.Ok? ==> |store.files| == |old(store.files)| - |Elements(batch)|
      ensures n.Err? ==> PartlyWiped(w, View(), path, gone)
    {
      ghost var v := View();
      assert Elements(batch) <= store.files.Keys;
      var objectKeys, sourceKeys, ids := Collect(store.files, previews, batch);
      var ok := DeleteMany(objectKeys);
      if !ok {
        BatchFails(w, v, View(), path, gone, ids);
        return Err(Internal);
      }
      n := RemoveRows(ids, sourceKeys);
      if n.Err? {
        BatchFails(w, v, View(), path, gone, ids);
      } else {
        BatchSucceeds(w, v, View(), path, gone, ids);
      }
    }

    /** The row half of a batch, in one transaction; preview results cascade. */
    method RemoveRows(ids: set<int>, keys: seq<string>) returns (n: Result<nat>)
      requires Valid() && ids <= store.files.Keys && CurrentKeys(store.View(), ids, keys)
      modifies this`previews, store
      ensures Valid() && store.nextId == old(store.nextId) && (Reliable() ==> n.Ok?)
      ensures n.Ok? ==> n.value == |ids| && store.files == old(store.files) - ids && previews == old(previews) - ids
      ensures n.Ok? ==> |store.files| == |old(store.files)| - |ids|
      ensures n.Err? ==> store.View() == old(store.View()) && previews == old(previews)
    {
      ghost var was := store.files;
      CurrentKeysCover(store.View(), ids, keys);
      var commits: bool := *;
      var deleted := store.DeleteFilesByIDsWithDirectories(ids, keys, commits || tablesReliable);
      if deleted.Err? { return Err(Internal); }
      previews := previews - ids;
      assert was.Keys * ids == ids;
      assert store.files.Keys == was.Keys - ids;
      n := Ok(deleted.value);
    }
  }

  lemma CurrentKeysCover(t: Tables, ids: set<int>, keys: seq<string>)
    requires CurrentKeys(t, ids, keys)
    ensures KeysCoverOrphans(t, ids, keys)
  {
  }

  // ---- Progress of one attempt ----------------------------------------------------------------

  function Elements(batch: seq<int>): set<int> {
    set id | id in batch
  }

  /** The rows a cursor has passed. */
  ghost function UpTo(ids: set<int>, hasCursor: bool, lastID: int): set<int> {
    set id | id in ids && hasCursor && id <= lastID
  }

  /** Exactly the rows `gone` and their objects have been removed from `w`, lowest ids first. */
  ghost predicate Removed(w: World, v: World, path: string, gone: set<int>) {
    var ids := Doomed(w.tables.files, path);
    && gone <= ids && (forall i, j :: i in gone && j in ids && j < i ==> j in gone)
    && Good(v.tables) && v.tables.files == w.tables.files - gone && v.tables.nextId == w.tables.nextId
    && v.previews == w.previews - gone && v.bucket == w.bucket - ObjectsOf(w.tables.files, w.previews, gone)
  }

  lemma StartsIntact(w: World, path: string)
    requires Good(w.tables)
    ensures Removed(w, w, path, {}) && PartlyWiped(w, w, path, {})
  {
    assert ObjectsOf(w.tables.files, w.previews, {}) == {};
    assert w.tables.files - {} == w.tables.files && w.previews - {} == w.previews && w.bucket - {} == w.bucket;
  }

  lemma RemovedIsPartial(w: World, v: World, path: string, gone: set<int>)
    requires Removed(w, v, path, gone)
    ensures PartlyWiped(w, v, path, gone)
  {
    var ids := Doomed(w.tables.files, path);
    ObjectsOfUnion(w.tables.files, w.previews, gone, ids - gone);
    assert gone + (ids - gone) == ids;
  }

  lemma RemovedIsWiped(w: World, v: World, path: string)
    requires Good(w.tables) && Removed(w, v, path, Doomed(w.tables.files, path))
    ensures v == Wiped(w, path)
  {
    WipedIsGood(w, path);
    IndexIsDetermined(v.tables, Wiped(w, path).tables);
  }

  lemma RemainingIsRest(w: World, v: World, path: string, gone: set<int>, hasCursor: bool, lastID: int)
    requires Removed(w, v, path, gone) && gone == UpTo(Doomed(w.tables.files, path), hasCursor, lastID)
    ensures Remaining(v.tables.files, EscapeLike(path) + "%", hasCursor, lastID) == Doomed(w.tables.files, path) - gone
  {
    SelectedIsDoomed(v.tables.files, path);
  }

  /** A page of the remaining rows moves the cursor over exactly those rows, and a short page over all of them. */
  lemma CursorMoves(ids: set<int>, gone: set<int>, hasCursor: bool, lastID: int, batch: seq<int>)
    requires gone == UpTo(ids, hasCursor, lastID) && |batch| > 0
    requires IsFirst(batch, ids - gone, DELETE_DIRECTORY_BATCH_SIZE)
    ensures Elements(batch) <= ids - gone && gone + Elements(batch) == UpTo(ids, true, batch[|batch| - 1])
    ensures |batch| < DELETE_DIRECTORY_BATCH_SIZE ==> gone + Elements(batch) == ids
    ensures Elements(batch) != {}
    ensures forall i, j :: i in Elements(batch) && j in ids - gone && j < i ==> j in Elements(batch)
  {
    var last := batch[|batch| - 1];
    assert last in Elements(batch);
    forall id | id in ids ensures id in gone + Elements(batch) <==> id <= last {
      if id in batch {
        var i :| 0 <= i < |batch| && batch[i] == id;
      }
    }
  }

  lemma EmptyPageIsEnd(ids: set<int>, gone: set<int>, batch: seq<int>)
    requires gone <= ids && batch == [] && IsFirst(batch, ids - gone, DELETE_DIRECTORY_BATCH_SIZE)
    ensures gone == ids
  {
    var rest := ids - gone;
    assert forall id :: id in rest ==> id in batch;
    assert rest == {} && gone + rest == ids;
  }

  lemma BatchFails(w: World, v: World, x: World, path: string, gone: set<int>, ids: set<int>)
    requires Removed(w, v, path, gone) && ids <= Doomed(w.tables.files, path) - gone
    requires x.tables == v.tables && x.previews == v.previews
    requires x.bucket.Keys <= v.bucket.Keys
    requires v.bucket.Keys - x.bucket.Keys <= ObjectsOf(v.tables.files, v.previews, ids)
    requires forall k :: k in x.bucket ==> x.bucket[k] == v.bucket[k]
    ensures PartlyWiped(w, x, path, gone)
  {
    var all := Doomed(w.tables.files, path);
    ObjectsOfRest(w.tables.files, w.previews, gone, ids);
    ObjectsOfUnion(w.tables.files, w.previews, gone + ids, all - gone - ids);
    ObjectsOfUnion(w.tables.files, w.previews, gone, ids);
    assert gone + ids + (all - gone - ids) == all;
  }

  lemma BatchSucceeds(w: World, v: World, x: World, path: string, gone: set<int>, ids: set<int>)
    requires Removed(w, v, path, gone) && ids <= Doomed(w.tables.files, path) - gone
    requires forall i, j :: i in ids && j in Doomed(w.tables.files, path) - gone && j < i ==> j in ids
    requires Good(x.tables) && x.tables.files == v.tables.files - ids && x.tables.nextId == v.tables.nextId
    requires x.previews == v.previews - ids && x.bucket == v.bucket - ObjectsOf(v.tables.files, v.previews, ids)
    ensures Removed(w, x, path, gone + ids)
  {
    ObjectsOfRest(w.tables.files, w.previews, gone, ids);
    ObjectsOfUnion(w.tables.files, w.previews, gone, ids);
    assert w.tables.files - gone - ids == w.tables.files - (gone + ids);
    assert w.previews - gone - ids == w.previews - (gone + ids);
  }
}
