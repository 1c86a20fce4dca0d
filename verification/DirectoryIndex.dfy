/**
 * The `files` and `directories` tables and the transactions that write them. `directories` is a
 * materialised index, maintained by upserts and prunes, of the prefixes that have a file under them.
 */
module DirectoryIndex {
  import opened Common
  import opened Paths
  import Like

  datatype FileRow = FileRow(key: string, markedAt: int, seenAt: int)

  datatype Tables = Tables(files: map<int, FileRow>, directories: set<string>, nextId: int)

  /** One element of an upsert batch: a listed key and its last-modified time. */
  datatype Listed = Listed(key: string, markedAt: int)

  /** Primary key and unique key: ids are positive and below the sequence, no two rows share a key. */
  ghost predicate WellFormed(t: Tables) {
    && t.nextId > 0
    && (forall id :: id in t.files ==> 0 < id < t.nextId)
    && (forall i, j :: i in t.files && j in t.files && t.files[i].key == t.files[j].key ==> i == j)
  }

  predicate Under(d: string, k: string) {
    !IsMarker(k) && IsDirPath(d) && d < k
  }

  ghost predicate HasFileUnder(files: map<int, FileRow>, d: string) {
    exists id :: id in files && Under(d, files[id].key)
  }

  /** The index is exact: a directory row exists iff some non-marker file lives below that path. */
  ghost predicate Indexed(t: Tables) {
    forall d :: d in t.directories <==> HasFileUnder(t.files, d)
  }

  ghost predicate Good(t: Tables) {
    WellFormed(t) && Indexed(t)
  }

  predicate KeyTaken(files: map<int, FileRow>, key: string) {
    exists id :: id in files && files[id].key == key
  }

  // ---- Statements -----------------------------------------------------------------------------

  function UpsertOne(t: Tables, l: Listed, now: int): (r: Tables)
    requires WellFormed(t)
    ensures WellFormed(r) && r.directories == t.directories && KeyTaken(r.files, l.key)
    ensures forall id :: id in t.files ==> id in r.files && r.files[id].key == t.files[id].key
    ensures r.nextId >= t.nextId && forall id :: id in r.files && id !in t.files ==> id >= t.nextId
    ensures forall id :: id in r.files && r.files[id].key != l.key ==> id in t.files && r.files[id] == t.files[id]
    ensures forall id :: id in r.files && r.files[id].key == l.key ==>
              r.files[id] ==
                FileRow(l.key, if id in t.files then Max(t.files[id].markedAt, l.markedAt) else l.markedAt, now)
  {
    if KeyTaken(t.files, l.key) then
      var id :| id in t.files && t.files[id].key == l.key;
      var r := t.(files := t.files[id := FileRow(l.key, Max(t.files[id].markedAt, l.markedAt), now)]);
      assert r.files[id].key == l.key;
      r
    else
      var r := t.(files := t.files[t.nextId := FileRow(l.key, l.markedAt, now)], nextId := t.nextId + 1);
      assert r.files[t.nextId].key == l.key;
      r
  }

  ghost predicate Mentions(batch: seq<Listed>, key: string) {
    exists i :: 0 <= i < |batch| && batch[i].key == key
  }

  /** The row an upsert leaves at a listed key: stamped now, with the newest mark it has ever been given. */
  ghost predicate Restamped(t: Tables, batch: seq<Listed>, now: int, id: int, row: FileRow) {
    && row.seenAt == now
    && (forall i :: 0 <= i < |batch| && batch[i].key == row.key ==> batch[i].markedAt <= row.markedAt)
    && (id in t.files ==> t.files[id].markedAt <= row.markedAt)
    && ((id in t.files && t.files[id].markedAt == row.markedAt) || Listed(row.key, row.markedAt) in batch)
  }

  /** `UpsertFiles`: insert the new keys, bump the mark (GREATEST) and re-stamp `seen_at` of the known ones. */
  function UpsertFiles(t: Tables, batch: seq<Listed>, now: int): (r: Tables)
    requires WellFormed(t)
    ensures WellFormed(r) && r.directories == t.directories
    ensures forall id :: id in t.files ==> id in r.files && r.files[id].key == t.files[id].key
    ensures r.nextId >= t.nextId && forall id :: id in r.files && id !in t.files ==> id >= t.nextId
  {
    if batch == [] then t else
      var n := |batch| - 1;
      UpsertOne(UpsertFiles(t, batch[..n], now), batch[n], now)
  }

  function KeysOf(batch: seq<Listed>): seq<string> {
    seq(|batch|, i requires 0 <= i < |batch| => batch[i].key)
  }

  function UpsertDirectoriesForKeys(t: Tables, keys: seq<string>): Tables {
    t.(directories := t.directories + AncestorsOf(keys))
  }

  /** The emptiness test of both prunes, as the byte range over `files.key`. */
  predicate SubtreeEmpty(files: map<int, FileRow>, d: string) {
    forall id :: id in files ==> !(d != "" && InSubtreeRange(d, files[id].key) && !IsMarker(files[id].key))
  }

  function PruneDirectoriesForKeys(t: Tables, keys: seq<string>): Tables {
    t.(directories := set d | d in t.directories && !(d in AncestorsOf(keys) && SubtreeEmpty(t.files, d)))
  }

  function PruneOrphanDirectories(t: Tables): Tables {
    t.(directories := set d | d in t.directories && !SubtreeEmpty(t.files, d))
  }

  function DeleteRows(t: Tables, ids: set<int>): Tables {
    t.(files := t.files - ids)
  }

  function UnseenIds(t: Tables, cutoff: int): set<int> {
    set id | id in t.files && t.files[id].seenAt < cutoff
  }

  // ---- Transactions, as functions of the tables -----------------------------------------------

  function Upserted(t: Tables, batch: seq<Listed>, now: int): Tables
    requires WellFormed(t)
  {
    UpsertDirectoriesForKeys(UpsertFiles(t, batch, now), KeysOf(batch))
  }

  function Deleted(t: Tables, id: int): Tables
    requires id in t.files
  {
    PruneDirectoriesForKeys(DeleteRows(t, {id}), [t.files[id].key])
  }

  function Moved(t: Tables, id: int, newKey: string): Tables
    requires id in t.files
  {
    var updated := t.(files := t.files[id := t.files[id].(key := newKey)]);
    UpsertDirectoriesForKeys(PruneDirectoriesForKeys(updated, [t.files[id].key]), [newKey])
  }

  function BatchDeleted(t: Tables, ids: set<int>, keys: seq<string>): Tables {
    PruneDirectoriesForKeys(DeleteRows(t, ids), keys)
  }

  function Swept(t: Tables, cutoff: int): Tables {
    PruneOrphanDirectories(DeleteRows(t, UnseenIds(t, cutoff)))
  }

  // ---- What the statements compute ------------------------------------------------------------

  lemma AncestorsOfMeaning(keys: seq<string>, d: string)
    ensures d in AncestorsOf(keys) <==> exists k :: k in keys && Under(d, k)
  {
    forall k ensures d in Ancestors(k) <==> Under(d, k) { AncestorsAreDirPrefixes(k, d); }
  }

  lemma SubtreeEmptyMeaning(files: map<int, FileRow>, d: string)
    requires IsDirPath(d)
    ensures SubtreeEmpty(files, d) <==> !HasFileUnder(files, d)
  {
    forall k ensures InSubtreeRange(d, k) <==> d < k { RangeIsPrefix(d, k); }
    if !SubtreeEmpty(files, d) {
      var id :| id in files && InSubtreeRange(d, files[id].key) && !IsMarker(files[id].key);
      assert Under(d, files[id].key);
    }
  }

  /** A marker, and the NOT LIKE of the statements. */
  lemma {:induction false} MarkerIsPattern(k: string)
    ensures IsMarker(k) <==> Like.Matches("%/", k)
    decreases |k|
  {
    assert "%/"[1..] == "/" && "/"[1..] == "";
    assert Like.Matches("/", k) <==> k == "/";
    if k != "" {
      MarkerIsPattern(k[1..]);
      assert |k| > 1 ==> k[1..][|k| - 2] == k[|k| - 1];
    }
  }

  /** Only paths are ever directory rows. */
  lemma IndexedPaths(t: Tables, d: string)
    requires Indexed(t) && d in t.directories
    ensures IsDirPath(d)
  {
    assert HasFileUnder(t.files, d);
  }

  lemma MentionsLast(init: seq<Listed>, l: Listed, k: string)
    ensures Mentions(init + [l], k) <==> Mentions(init, k) || l.key == k
  {
    if Mentions(init, k) {
      var i :| 0 <= i < |init| && init[i].key == k;
      assert (init + [l])[i].key == k;
    }
    assert (init + [l])[|init|] == l;
  }

  /** An upsert leaves the rows it does not list alone. */
  lemma {:induction false} UpsertUntouched(t: Tables, batch: seq<Listed>, now: int, id: int)
    requires WellFormed(t) && id in UpsertFiles(t, batch, now).files
    requires !Mentions(batch, UpsertFiles(t, batch, now).files[id].key)
    ensures id in t.files && UpsertFiles(t, batch, now).files[id] == t.files[id]
    decreases |batch|
  {
    if batch != [] {
      var n := |batch| - 1;
      assert batch == batch[..n] + [batch[n]];
      MentionsLast(batch[..n], batch[n], UpsertFiles(t, batch, now).files[id].key);
      UpsertUntouched(t, batch[..n], now, id);
    }
  }

  /** A listed row is stamped with the transaction's time and the newest mark; that is all that changes. */
  lemma {:induction false} UpsertRestamps(t: Tables, batch: seq<Listed>, now: int, id: int)
    requires WellFormed(t) && id in UpsertFiles(t, batch, now).files
    requires Mentions(batch, UpsertFiles(t, batch, now).files[id].key)
    ensures Restamped(t, batch, now, id, UpsertFiles(t, batch, now).files[id])
    decreases |batch|
  {
    var n := |batch| - 1;
    var init, l := batch[..n], batch[n];
    var u, row := UpsertFiles(t, init, now), UpsertFiles(t, batch, now).files[id];
    assert batch == init + [l];
    MentionsLast(init, l, row.key);
    if id in u.files {
      assert u.files[id].key == row.key;
      if Mentions(init, row.key) {
        UpsertRestamps(t, init, now, id);
      } else {
        UpsertUntouched(t, init, now, id);
      }
    } else if i :| 0 <= i < |init| && init[i].key == row.key {
      UpsertCovers(t, init, now, init[i]);
    }
    RestampsOneMore(t, init, l, now, id, u, row);
  }

  lemma RestampsOneMore(t: Tables, init: seq<Listed>, l: Listed, now: int, id: int, u: Tables, row: FileRow)
    requires WellFormed(u) && id in UpsertOne(u, l, now).files && row == UpsertOne(u, l, now).files[id]
    requires Mentions(init + [l], row.key) && (id in t.files ==> id in u.files)
    requires id in u.files ==>
               if Mentions(init, row.key) then Restamped(t, init, now, id, u.files[id])
               else id in t.files && u.files[id] == t.files[id]
    requires id !in u.files ==> !Mentions(init, row.key)
    ensures Restamped(t, init + [l], now, id, row)
  {
    MentionsLast(init, l, row.key);
    var batch := init + [l];
    assert batch[|init|] == l && forall i :: 0 <= i < |init| ==> batch[i] == init[i];
    assert row.key == l.key && row.markedAt == l.markedAt ==> Listed(row.key, row.markedAt) == l;
    assert row.key == l.key ==> forall i :: 0 <= i < |init| && init[i].key == row.key ==> Mentions(init, row.key);
  }

  lemma {:induction false} UpsertCovers(t: Tables, batch: seq<Listed>, now: int, l: Listed)
    requires WellFormed(t) && l in batch
    ensures KeyTaken(UpsertFiles(t, batch, now).files, l.key)
    decreases |batch|
  {
    var n := |batch| - 1;
    if l != batch[n] {
      assert l in batch[..n];
      UpsertCovers(t, batch[..n], now, l);
      var id :| id in UpsertFiles(t, batch[..n], now).files && UpsertFiles(t, batch[..n], now).files[id].key == l.key;
      assert UpsertFiles(t, batch, now).files[id].key == l.key;
    }
  }

  lemma UpsertKeepsIndex(t: Tables, batch: seq<Listed>, now: int)
    requires Good(t)
    ensures Good(Upserted(t, batch, now))
  {
    var u := UpsertFiles(t, batch, now);
    forall d ensures d in Upserted(t, batch, now).directories <==> HasFileUnder(u.files, d) {
      AncestorsOfMeaning(KeysOf(batch), d);
      if HasFileUnder(t.files, d) {
        var id :| id in t.files && Under(d, t.files[id].key);
        assert id in u.files && Under(d, u.files[id].key);
      }
      if k :| k in KeysOf(batch) && Under(d, k) {
        var i :| 0 <= i < |batch| && KeysOf(batch)[i] == k;
        UpsertCovers(t, batch, now, batch[i]);
        var id :| id in u.files && u.files[id].key == k;
      }
      if HasFileUnder(u.files, d) {
        var id :| id in u.files && Under(d, u.files[id].key);
        if Mentions(batch, u.files[id].key) {
          var i :| 0 <= i < |batch| && batch[i].key == u.files[id].key;
          assert KeysOf(batch)[i] in KeysOf(batch);
        } else {
          UpsertUntouched(t, batch, now, id);
        }
      }
    }
  }

  /** A batch delete may prune less than it should: this is what the given keys have to cover. */
  ghost predicate KeysCoverOrphans(t: Tables, ids: set<int>, keys: seq<string>) {
    forall id, d :: id in t.files && id in ids && Under(d, t.files[id].key) ==>
      (exists k :: k in keys && Under(d, k)) || (exists j :: j in t.files && j !in ids && Under(d, t.files[j].key))
  }

  /** Whatever keys the caller passes, a batch delete keeps the index exact iff they cover the orphaned paths. */
  lemma BatchDeleteKeepsIndexIff(t: Tables, ids: set<int>, keys: seq<string>)
    requires Good(t)
    ensures WellFormed(BatchDeleted(t, ids, keys))
    ensures Indexed(BatchDeleted(t, ids, keys)) <==> KeysCoverOrphans(t, ids, keys)
  {
    var r := BatchDeleted(t, ids, keys);
    var left := DeleteRows(t, ids).files;
    forall d
      ensures d in r.directories <==>
        HasFileUnder(t.files, d) && (HasFileUnder(left, d) || !exists k :: k in keys && Under(d, k))
    {
      AncestorsOfMeaning(keys, d);
      if d in t.directories {
        IndexedPaths(t, d);
        SubtreeEmptyMeaning(left, d);
      }
    }
    assert forall d :: HasFileUnder(left, d) ==> HasFileUnder(t.files, d);
    if KeysCoverOrphans(t, ids, keys) {
      forall d ensures d in r.directories <==> HasFileUnder(left, d) {
        if HasFileUnder(t.files, d) {
          var id :| id in t.files && Under(d, t.files[id].key);
          assert id !in ids ==> id in left;
          if j :| j in t.files && j !in ids && Under(d, t.files[j].key) {
            assert j in left;
          }
        }
      }
    }
    if Indexed(r) {
      forall id, d | id in t.files && id in ids && Under(d, t.files[id].key)
        ensures (exists k :: k in keys && Under(d, k)) ||
                (exists j :: j in t.files && j !in ids && Under(d, t.files[j].key))
      {
        assert HasFileUnder(t.files, d);
        assert d in r.directories <==> HasFileUnder(left, d);
        if HasFileUnder(left, d) {
          var j :| j in left && Under(d, left[j].key);
        }
      }
    }
  }

  /** The keys a caller must pass: the current keys of the rows it deletes. */
  predicate CurrentKeys(t: Tables, ids: set<int>, keys: seq<string>) {
    forall id :: id in t.files && id in ids ==> t.files[id].key in keys
  }

  /** A stale key list leaves a directory behind: the row moved between the listing and the delete. */
  lemma StaleBatchKeysBreakIndex()
    ensures exists t, ids, keys :: Good(t) && !Indexed(BatchDeleted(t, ids, keys))
  {
    var t := Tables(map[1 := FileRow("b/x", 0, 0)], {"b/"}, 2);
    assert Under("b/", t.files[1].key);
    forall d | Under(d, "b/x") ensures d == "b/" {
      assert d == "b/x"[..|d|];
    }
    assert Good(t);
    BatchDeleteKeepsIndexIff(t, {1}, ["a/x"]);
    assert !Under("b/", "a/x") by { assert "b/"[0] != "a/x"[0]; }
  }

  lemma DeleteKeepsIndex(t: Tables, id: int)
    requires Good(t) && id in t.files
    ensures Good(Deleted(t, id))
  {
    BatchDeleteKeepsIndexIff(t, {id}, [t.files[id].key]);
    assert t.files[id].key in [t.files[id].key];
  }

  /** A move prunes against the already updated row, so its two index statements commute. */
  lemma MoveKeepsIndex(t: Tables, id: int, newKey: string)
    requires Good(t) && id in t.files && !KeyTaken(t.files, newKey)
    ensures Good(Moved(t, id, newKey))
    ensures var u := t.(files := t.files[id := t.files[id].(key := newKey)]);
            PruneDirectoriesForKeys(UpsertDirectoriesForKeys(u, [newKey]), [t.files[id].key]) == Moved(t, id, newKey)
  {
    var oldKey := t.files[id].key;
    var u := t.(files := t.files[id := t.files[id].(key := newKey)]);
    var r := Moved(t, id, newKey);
    var other := PruneDirectoriesForKeys(UpsertDirectoriesForKeys(u, [newKey]), [oldKey]);
    assert u.files[id].key == newKey;
    forall d
      ensures d in r.directories <==> HasFileUnder(u.files, d)
      ensures d in other.directories <==> d in r.directories
    {
      AncestorsOfMeaning([oldKey], d);
      AncestorsOfMeaning([newKey], d);
      assert newKey in [newKey] && oldKey in [oldKey];
      if Under(d, newKey) { assert HasFileUnder(u.files, d); }
      if HasFileUnder(t.files, d) {
        var i :| i in t.files && Under(d, t.files[i].key);
        assert i != id ==> i in u.files && Under(d, u.files[i].key);
      }
      if HasFileUnder(u.files, d) {
        var i :| i in u.files && Under(d, u.files[i].key);
        assert i != id ==> i in t.files && Under(d, t.files[i].key);
      }
      if IsDirPath(d) { SubtreeEmptyMeaning(u.files, d); }
      if d in t.directories { IndexedPaths(t, d); }
    }
    assert other.directories == r.directories;
  }

  lemma SweepKeepsIndex(t: Tables, cutoff: int)
    requires Good(t)
    ensures Good(Swept(t, cutoff))
  {
    var left := DeleteRows(t, UnseenIds(t, cutoff)).files;
    forall d ensures d in Swept(t, cutoff).directories <==> HasFileUnder(left, d) {
      if HasFileUnder(left, d) {
        var i :| i in left && Under(d, left[i].key);
        assert HasFileUnder(t.files, d);
      }
      if IsDirPath(d) { SubtreeEmptyMeaning(left, d); }
      if d in t.directories { IndexedPaths(t, d); }
    }
  }

  /** The keys-scoped prune and the unscoped one agree whenever only ancestors of the keys can be empty. */
  lemma ScopedPruneAgrees(t: Tables, keys: seq<string>)
    requires forall d :: d in t.directories && SubtreeEmpty(t.files, d) ==> d in AncestorsOf(keys)
    ensures PruneDirectoriesForKeys(t, keys) == PruneOrphanDirectories(t)
  {
    assert PruneDirectoriesForKeys(t, keys).directories == PruneOrphanDirectories(t).directories;
  }

  // ---- Runs -----------------------------------------------------------------------------------

  datatype Op =
    | Upsert(batch: seq<Listed>, now: int)
    | Delete(id: int)
    | DeleteBatch(ids: set<int>, keys: seq<string>)
    | Move(id: int, newKey: string)
    | Sweep(cutoff: int)

  /** One transaction. A missing row and a duplicate key abort it, leaving both tables as they were. */
  function Apply(t: Tables, op: Op): Tables
    requires WellFormed(t)
  {
    match op
    case Upsert(batch, now) => Upserted(t, batch, now)
    case Delete(id) => if id in t.files then Deleted(t, id) else t
    case DeleteBatch(ids, keys) => BatchDeleted(t, ids, keys)
    case Move(id, newKey) =>
      if id in t.files && (t.files[id].key == newKey || !KeyTaken(t.files, newKey)) then Moved(t, id, newKey) else t
    case Sweep(cutoff) => Swept(t, cutoff)
  }

  /** What a batch delete asks of its caller; the other transactions ask nothing. */
  predicate Legal(t: Tables, op: Op) {
    op.DeleteBatch? ==> CurrentKeys(t, op.ids, op.keys)
  }

  lemma MoveToOwnKey(t: Tables, id: int)
    requires Good(t) && id in t.files
    ensures Moved(t, id, t.files[id].key) == t
  {
    var k := t.files[id].key;
    var u := t.(files := t.files[id := t.files[id].(key := k)]);
    assert u.files == t.files;
    var r := Moved(t, id, k);
    forall d ensures d in r.directories <==> d in t.directories {
      AncestorsOfMeaning([k], d);
      assert k in [k];
      if IsDirPath(d) { SubtreeEmptyMeaning(t.files, d); }
      if Under(d, k) { assert HasFileUnder(t.files, d); }
    }
    assert r.directories == t.directories;
  }

  lemma StepKeepsIndex(t: Tables, op: Op)
    requires Good(t) && Legal(t, op)
    ensures Good(Apply(t, op))
  {
    match op
    case Upsert(batch, now) => UpsertKeepsIndex(t, batch, now);
    case Delete(id) => if id in t.files { DeleteKeepsIndex(t, id); }
    case DeleteBatch(ids, keys) => BatchDeleteKeepsIndexIff(t, ids, keys);
    case Move(id, newKey) =>
      if id in t.files {
        if t.files[id].key == newKey { MoveToOwnKey(t, id); }
        else if !KeyTaken(t.files, newKey) { MoveKeepsIndex(t, id, newKey); }
      }
    case Sweep(cutoff) => SweepKeepsIndex(t, cutoff);
  }

  // ---- Row by row -----------------------------------------------------------------------------

  /** What an upsert does to the rows: ids and keys stay, unlisted rows stay whole, listed keys get one stamped row. */
  ghost predicate UpsertedRows(t: Tables, batch: seq<Listed>, now: int, files: map<int, FileRow>) {
    && (forall id :: id in t.files ==> id in files && files[id].key == t.files[id].key)
    && (forall id :: id in files && id !in t.files ==> id >= t.nextId)
    && (forall id :: id in files && !Mentions(batch, files[id].key) ==> id in t.files && files[id] == t.files[id])
    && (forall id :: id in files && Mentions(batch, files[id].key) ==> Restamped(t, batch, now, id, files[id]))
    && (forall l :: l in batch ==> KeyTaken(files, l.key))
  }

  lemma UpsertRows(t: Tables, batch: seq<Listed>, now: int)
    requires WellFormed(t)
    ensures UpsertedRows(t, batch, now, UpsertFiles(t, batch, now).files)
  {
    var files := UpsertFiles(t, batch, now).files;
    forall id | id in files && !Mentions(batch, files[id].key) ensures id in t.files && files[id] == t.files[id] {
      UpsertUntouched(t, batch, now, id);
    }
    forall id | id in files && Mentions(batch, files[id].key) ensures Restamped(t, batch, now, id, files[id]) {
      UpsertRestamps(t, batch, now, id);
    }
    forall l | l in batch ensures KeyTaken(files, l.key) { UpsertCovers(t, batch, now, l); }
  }

  lemma SweptRowsAreCounted(t: Tables, cutoff: int)
    ensures DeleteRows(t, UnseenIds(t, cutoff)).files ==
              map id | id in t.files && t.files[id].seenAt >= cutoff :: t.files[id]
    ensures |UnseenIds(t, cutoff)| == |t.files| - |DeleteRows(t, UnseenIds(t, cutoff)).files|
  {
    var left := DeleteRows(t, UnseenIds(t, cutoff)).files;
    assert t.files.Keys == left.Keys + UnseenIds(t, cutoff);
    assert |t.files.Keys| == |left.Keys| + |UnseenIds(t, cutoff)|;
  }

  /** The rows left: the row deleted, the rows with these ids deleted, one key changed, the seen rows kept. */
  lemma TransactionRows(t: Tables, op: Op)
    requires WellFormed(t)
    ensures op.Upsert? ==> UpsertedRows(t, op.batch, op.now, Apply(t, op).files)
    ensures op.Delete? ==> Apply(t, op).files == t.files - {op.id}
    ensures op.DeleteBatch? ==> Apply(t, op).files == t.files - op.ids
    ensures op.Move? ==>
              Apply(t, op).files ==
                if op.id in t.files && (forall j :: j in t.files && t.files[j].key == op.newKey ==> j == op.id)
                then t.files[op.id := t.files[op.id].(key := op.newKey)] else t.files
    ensures op.Sweep? ==>
              Apply(t, op).files == map id | id in t.files && t.files[id].seenAt >= op.cutoff :: t.files[id]
    ensures !op.Upsert? ==> Apply(t, op).nextId == t.nextId
    ensures op.Delete? || op.DeleteBatch? || op.Sweep? ==> Apply(t, op).directories <= t.directories
  {
    match op
    case Upsert(batch, now) => UpsertRows(t, batch, now);
    case Delete(id) => assert id !in t.files ==> t.files - {id} == t.files;
    case DeleteBatch(ids, keys) =>
    case Move(id, newKey) =>
    case Sweep(cutoff) =>
  }

  /** The tables after each transaction of a serial run. */
  ghost predicate IsRun(states: seq<Tables>, ops: seq<Op>) {
    && |states| == |ops| + 1
    && forall i :: 0 <= i < |ops| ==>
         WellFormed(states[i]) && Legal(states[i], ops[i]) && states[i + 1] == Apply(states[i], ops[i])
  }

  /** Every serial run keeps the index exact in every state it passes through. */
  lemma {:induction false} RunKeepsIndex(states: seq<Tables>, ops: seq<Op>)
    requires IsRun(states, ops) && Good(states[0])
    ensures forall i :: 0 <= i < |states| ==> Good(states[i])
    decreases |ops|
  {
    if ops != [] {
      var n := |ops| - 1;
      RunKeepsIndex(states[..n + 1], ops[..n]);
      assert states[..n + 1][n] == states[n];
      StepKeepsIndex(states[n], ops[n]);
      forall i | 0 <= i < |states| ensures Good(states[i]) {
        if i <= n { assert states[..n + 1][i] == states[i]; }
      }
    }
  }

  // ---- The store ------------------------------------------------------------------------------

  /**
   * The store as the services hold it. Each method is one transaction; `commits` is whether the
   * database lets it commit, and a transaction that does not commit changes nothing.
   */
  class Store {
    var files: map<int, FileRow>
    var directories: set<string>
    var nextId: int

    ghost function View(): Tables
      reads this
    {
      Tables(files, directories, nextId)
    }

    ghost predicate Valid()
      reads this
    {
      Good(View())
    }

    constructor ()
      ensures Valid() && files == map[] && directories == {}
    {
      files, directories, nextId := map[], {}, 1;
    }

    method UpsertFilesWithDirectories(batch: seq<Listed>, now: int, commits: bool) returns (r: Result<()>)
      requires Valid()
      modifies this
      ensures Valid()
      ensures r.Ok? <==> commits
      ensures r.Ok? ==> View() == Upserted(old(View()), batch, now)
      ensures r.Ok? ==> UpsertedRows(old(View()), batch, now, files) && old(directories) <= directories
      ensures r.Err? ==> View() == old(View())
    {
      if !commits { return Err(Internal); }
      UpsertKeepsIndex(View(), batch, now);
      UpsertRows(View(), batch, now);
      var t := UpsertFiles(Tables(files, directories, nextId), batch, now);
      t := UpsertDirectoriesForKeys(t, KeysOf(batch));
      files, directories, nextId := t.files, t.directories, t.nextId;
      r := Ok(());
    }

    method DeleteFileWithDirectories(id: int, commits: bool) returns (r: Result<FileRow>)
      requires Valid()
      modifies this
      ensures Valid()
      ensures r.Ok? <==> id in old(files) && commits
      ensures r.Ok? ==> r.value == old(files)[id] && View() == Deleted(old(View()), id)
      ensures r.Ok? ==> files == old(files) - {id} && directories <= old(directories) && nextId == old(nextId)
      ensures r.Err? ==> View() == old(View()) && (id !in files ==> r.error == NotFound)
    {
      if id !in files { return Err(NotFound); }
      if !commits { return Err(Internal); }
      DeleteKeepsIndex(View(), id);
      var row := files[id];
      var t := DeleteRows(Tables(files, directories, nextId), {id});
      t := PruneDirectoriesForKeys(t, [row.key]);
      files, directories := t.files, t.directories;
      r := Ok(row);
    }

    method MoveFileWithDirectories(id: int, newKey: string, commits: bool) returns (r: Result<FileRow>)
      requires Valid()
      modifies this
      ensures Valid()
      ensures r.Ok? ==> id in old(files) && View() == Moved(old(View()), id, newKey)
                        && r.value == old(files)[id].(key := newKey)
      ensures r.Ok? ==> files == old(files)[id := old(files)[id].(key := newKey)] && nextId == old(nextId)
      ensures r.Err? ==> View() == old(View())
      ensures r == Err(NotFound) <==> id !in old(files)
      ensures r == Err(AlreadyExists) <==>
                id in old(files) && old(files)[id].key != newKey && KeyTaken(old(files), newKey)
      ensures id in old(files) && !KeyTaken(old(files), newKey) && commits ==> r.Ok?
    {
      if id !in files { return Err(NotFound); }
      var oldKey := files[id].key;
      if oldKey != newKey && KeyTaken(files, newKey) { return Err(AlreadyExists); }
      if !commits { return Err(Internal); }
      if oldKey == newKey { MoveToOwnKey(View(), id); } else { MoveKeepsIndex(View(), id, newKey); }
      var row := files[id].(key := newKey);
      var t := Tables(files[id := row], directories, nextId);
      t := PruneDirectoriesForKeys(t, [oldKey]);
      t := UpsertDirectoriesForKeys(t, [newKey]);
      files, directories := t.files, t.directories;
      r := Ok(row);
    }

    /** Without the caller's keys being current, only the row part of the promise holds (see the lemma). */
    method DeleteFilesByIDsWithDirectories(ids: set<int>, keys: seq<string>, commits: bool) returns (r: Result<int>)
      requires Valid()
      modifies this
      ensures WellFormed(View())
      ensures KeysCoverOrphans(old(View()), ids, keys) ==> Valid()
      ensures r.Ok? <==> commits
      ensures r.Ok? ==> r.value == |old(files).Keys * ids| && View() == BatchDeleted(old(View()), ids, keys)
      ensures r.Ok? ==> files == old(files) - ids && directories <= old(directories) && nextId == old(nextId)
      ensures r.Err? ==> View() == old(View())
    {
      if !commits { return Err(Internal); }
      BatchDeleteKeepsIndexIff(View(), ids, keys);
      var n := |files.Keys * ids|;
      var t := DeleteRows(Tables(files, directories, nextId), ids);
      t := PruneDirectoriesForKeys(t, keys);
      files, directories := t.files, t.directories;
      r := Ok(n);
    }

    method DeleteUnseenFilesWithDirectories(cutoff: int, commits: bool) returns (r: Result<int>)
      requires Valid()
      modifies this
      ensures Valid()
      ensures r.Ok? <==> commits
      ensures r.Ok? ==> View() == Swept(old(View()), cutoff) && r.value == |UnseenIds(old(View()), cutoff)|
      ensures r.Ok? ==> files == (map id | id in old(files) && old(files)[id].seenAt >= cutoff :: old(files)[id])
      ensures r.Ok? ==> directories <= old(directories) && nextId == old(nextId) && r.value == |old(files)| - |files|
      ensures r.Err? ==> View() == old(View())
    {
      if !commits { return Err(Internal); }
      SweepKeepsIndex(View(), cutoff);
      var n := |UnseenIds(Tables(files, directories, nextId), cutoff)|;
      var t := DeleteRows(Tables(files, directories, nextId), UnseenIds(Tables(files, directories, nextId), cutoff));
      t := PruneOrphanDirectories(t);
      SweptRowsAreCounted(View(), cutoff);
      files, directories := t.files, t.directories;
      r := Ok(n);
    }
  }
}
