/**
 * The crawl: reconcile the tables with the bucket by re-stamping every listed key and sweeping what was
 * not stamped since the crawl began. Uploads, deletes, moves and other crawls go on meanwhile.
 */
module Crawler {
  import opened Common
  import opened Ordering
  import opened Paths
  import opened Keyset
  import opened DirectoryIndex

  /** The bucket maps keys to last-modified times; `now` is the database clock. */
  datatype World = World(tables: Tables, bucket: map<string, int>, now: int)

  datatype Event =
    | Tick(dt: nat)
    | Put(key: string, mtime: int)
    | Remove(key: string)
    | Write(op: Op)

  /** An upsert stamps with the database clock. */
  predicate Enabled(w: World, e: Event) {
    e.Write? ==> Legal(w.tables, e.op) && (e.op.Upsert? ==> e.op.now == w.now)
  }

  function Next(w: World, e: Event): World
    requires WellFormed(w.tables)
  {
    match e
    case Tick(dt) => w.(now := w.now + dt)
    case Put(key, mtime) => w.(bucket := w.bucket[key := mtime])
    case Remove(key) => w.(bucket := w.bucket - {key})
    case Write(op) => w.(tables := Apply(w.tables, op))
  }

  ghost function Keys(batch: seq<Listed>): set<string> {
    set l | l in batch :: l.key
  }

  lemma MentionsKeys(batch: seq<Listed>, k: string)
    ensures Mentions(batch, k) <==> k in Keys(batch)
  {
    if k in Keys(batch) {
      var l :| l in batch && l.key == k;
    }
  }

  /** Rows at the keys in `stamped` are safe from a sweep at `cutoff`, unless excused. */
  ghost predicate Stamped(t: Tables, stamped: set<string>, cutoff: int, excused: (int, string) -> bool) {
    forall id :: id in t.files && t.files[id].key in stamped && !excused(id, t.files[id].key) ==>
        t.files[id].seenAt >= cutoff
  }

  lemma UpsertStamps(t: Tables, batch: seq<Listed>, now: int, stamped: set<string>, cutoff: int,
      excused: (int, string) -> bool)
    requires WellFormed(t) && Stamped(t, stamped, cutoff, excused) && cutoff <= now
    ensures Stamped(Upserted(t, batch, now), stamped + Keys(batch), cutoff, excused)
  {
    var u := UpsertFiles(t, batch, now);
    forall id | id in u.files && u.files[id].key in stamped + Keys(batch) && !excused(id, u.files[id].key)
      ensures u.files[id].seenAt >= cutoff
    {
      MentionsKeys(batch, u.files[id].key);
      if Mentions(batch, u.files[id].key) {
        UpsertRestamps(t, batch, now, id);
      } else {
        UpsertUntouched(t, batch, now, id);
      }
    }
  }

  /** Nothing that happens during a crawl undoes a stamp, except that a move carries an old stamp to its new key. */
  lemma StampsSurvive(w: World, e: Event, stamped: set<string>, cutoff: int, excused: (int, string) -> bool,
      after: (int, string) -> bool)
    requires WellFormed(w.tables) && Enabled(w, e) && cutoff <= w.now && Stamped(w.tables, stamped, cutoff, excused)
    requires forall id, k :: excused(id, k) ==> after(id, k)
    requires e.Write? && e.op.Move? && e.op.newKey in stamped ==> after(e.op.id, e.op.newKey)
    ensures Stamped(Next(w, e).tables, stamped, cutoff, after) && w.now <= Next(w, e).now
  {
    match e { case Tick(dt) => case _ => }
    assert Stamped(w.tables, stamped, cutoff, after);
    if e.Write? && e.op.Upsert? {
      UpsertStamps(w.tables, e.op.batch, w.now, stamped, cutoff, after);
    } else if e.Write? && e.op.Move? {
      MoveKeepsStamps(w.tables, e.op.id, e.op.newKey, stamped, cutoff, after);
    }
  }

  lemma MoveKeepsStamps(t: Tables, id: int, newKey: string, stamped: set<string>, cutoff: int,
      excused: (int, string) -> bool)
    requires WellFormed(t) && Stamped(t, stamped, cutoff, excused) && (newKey in stamped ==> excused(id, newKey))
    ensures Stamped(Apply(t, Move(id, newKey)), stamped, cutoff, excused)
  {
  }

  /** While nobody else is at work: what was stamped is what was listed so far, with marks as new as the objects. */
  ghost predicate Reflects(t: Tables, stamped: set<string>, bucket: map<string, int>, cutoff: int) {
    && (forall id :: id in t.files && t.files[id].seenAt >= cutoff ==>
          && t.files[id].key in stamped && t.files[id].key in bucket
          && bucket[t.files[id].key] <= t.files[id].markedAt)
    && (forall k :: k in stamped ==> KeyTaken(t.files, k))
  }

  lemma UpsertReflects(t: Tables, batch: seq<Listed>, now: int, stamped: set<string>, bucket: map<string, int>,
      cutoff: int)
    requires WellFormed(t) && Reflects(t, stamped, bucket, cutoff) && cutoff <= now
    requires forall l :: l in batch ==> l.key in bucket && bucket[l.key] == l.markedAt
    ensures Reflects(Upserted(t, batch, now), stamped + Keys(batch), bucket, cutoff)
  {
    var u := UpsertFiles(t, batch, now);
    forall id | id in u.files && u.files[id].seenAt >= cutoff
      ensures u.files[id].key in stamped + Keys(batch) && u.files[id].key in bucket
      ensures bucket[u.files[id].key] <= u.files[id].markedAt
    {
      MentionsKeys(batch, u.files[id].key);
      if Mentions(batch, u.files[id].key) {
        UpsertRestamps(t, batch, now, id);
        var i :| 0 <= i < |batch| && batch[i].key == u.files[id].key;
      } else {
        UpsertUntouched(t, batch, now, id);
      }
    }
    forall k | k in stamped + Keys(batch) ensures KeyTaken(u.files, k) {
      if k in stamped {
        var id :| id in t.files && t.files[id].key == k;
        assert u.files[id].key == k;
      } else {
        var l :| l in batch && l.key == k;
        UpsertCovers(t, batch, now, l);
      }
    }
  }

  // ---- The listing ----------------------------------------------------------------------------

  /** How far a listing has come: not begun, past every key up to `marker`, or at the end. */
  datatype Listing = Begun(marker: string) | NotBegun | Ended

  predicate Passed(at: Listing, k: string) {
    match at
    case NotBegun => false
    case Begun(marker) => !Less(marker, k)
    case Ended => true
  }

  /** The batch holds what the bucket holds. */
  ghost predicate Agree(batch: seq<Listed>, bucket: map<string, int>) {
    forall l :: l in batch ==> l.key in bucket && bucket[l.key] == l.markedAt
  }

  /** `page` is the next page of a listing over `bucket`: everything between `at` and `next`. */
  ghost predicate IsPage(bucket: map<string, int>, at: Listing, page: seq<Listed>, next: Listing) {
    && Agree(page, bucket) && (forall k :: k in bucket && !Passed(at, k) && Passed(next, k) ==> k in Keys(page))
    && (forall k :: k in Keys(page) ==> Passed(next, k)) && (forall k :: Passed(at, k) ==> Passed(next, k))
  }

  /** One listing request: up to `size` keys in byte order; a page that exhausts the bucket ends the listing. */
  method ListObjects(bucket: map<string, int>, at: Listing, size: nat) returns (page: seq<Listed>, next: Listing)
    requires size > 0 && at != Ended
    ensures IsPage(bucket, at, page, next) && |page| <= size
    ensures next != Ended ==> page != [] && !Passed(at, page[0].key)
  {
    var open := set k | k in bucket && !Passed(at, k);
    var all := SortedKeys(open);
    var keys := Take(all, size);
    next := if |all| <= size then Ended else Begun(keys[size - 1]);
    CutAt(at, all, size, next);
    assert forall i :: 0 <= i < |keys| ==> keys[i] in keys && keys[i] in open;
    page := Infos(bucket, keys);
    forall k | k in bucket && !Passed(at, k) && Passed(next, k) ensures k in Keys(page) {
      assert k in open;
    }
  }

  /** Cutting the open keys, in order, after `size` of them: exactly the first ones are newly passed. */
  lemma CutAt(at: Listing, all: seq<string>, size: nat, next: Listing)
    requires Sorted(Less, all) && 0 < size && at != Ended && forall k :: k in all ==> !Passed(at, k)
    requires next == if |all| <= size then Ended else Begun(all[size - 1])
    ensures forall k :: k in all ==> (k in Take(all, size) <==> Passed(next, k))
    ensures forall k :: Passed(at, k) ==> Passed(next, k)
    ensures forall k :: k in Take(all, size) ==> k in all
  {
    if |all| > size {
      var last := all[size - 1];
      assert last in all;
      forall k | k in all ensures k in Take(all, size) <==> !Less(last, k) {
        if k in all[..size] { EarlierKey(all, size, k); } else { LaterKey(all, size, k); }
      }
      forall k | Passed(at, k) ensures !Less(last, k) {
        if Less(last, k) { LessTransitive(at.marker, last, k); }
      }
    }
  }

  lemma EarlierKey(all: seq<string>, size: nat, k: string)
    requires Sorted(Less, all) && 0 < size < |all| && k in all[..size]
    ensures !Less(all[size - 1], k)
  {
    var i :| 0 <= i < size && all[i] == k;
    LessIrreflexive(k);
    if i < size - 1 && Less(all[size - 1], k) { LessTransitive(k, all[size - 1], k); }
  }

  /** The listed objects of some keys. */
  method Infos(bucket: map<string, int>, keys: seq<string>) returns (page: seq<Listed>)
    requires forall i :: 0 <= i < |keys| ==> keys[i] in bucket
    ensures Agree(page, bucket) && |page| == |keys| && forall k :: k in keys <==> k in Keys(page)
  {
    page := seq(|keys|, i requires 0 <= i < |keys| => Listed(keys[i], bucket[keys[i]]));
    forall k | k in keys ensures k in Keys(page) {
      var i :| 0 <= i < |keys| && keys[i] == k;
      assert page[i] in page;
    }
    forall k | k in Keys(page) ensures k in keys {
      var l :| l in page && l.key == k;
      var i :| 0 <= i < |page| && page[i] == l;
      assert keys[i] == k;
    }
  }

  method SortedKeys(keys: set<string>) returns (all: seq<string>)
    ensures Sorted(Less, all) && forall k :: k in all <==> k in keys
  {
    LessLinear(keys);
    all := Ordered(Less, keys);
  }

  lemma LaterKey(all: seq<string>, size: nat, k: string)
    requires Sorted(Less, all) && 0 < size < |all| && k in all && k !in all[..size]
    ensures Less(all[size - 1], k)
  {
    var first := all[..size];
    assert forall i :: 0 <= i < size ==> first[i] != k;
    var i :| 0 <= i < |all| && all[i] == k;
    assert forall j :: 0 <= j < size ==> first[j] == all[j];
  }

  // ---- The history of a crawl -----------------------------------------------------------------

  datatype Moment = Moment(w: World, at: Listing)

  /** An event, by anyone, or a listing request that moves the crawl's position. */
  datatype Act = Happens(e: Event) | Reads(next: Listing)

  /** Everything since the cutoff; `own` are the positions of the crawl's own writes. */
  datatype Trace = Trace(moments: seq<Moment>, acts: seq<Act>, own: set<int>)

  ghost predicate Follows(m: Moment, a: Act, n: Moment) {
    match a
    case Happens(e) => WellFormed(m.w.tables) && Enabled(m.w, e) && n == Moment(Next(m.w, e), m.at)
    case Reads(next) => n == Moment(m.w, next) && forall k :: Passed(m.at, k) ==> Passed(next, k)
  }

  ghost predicate IsTrace(tr: Trace) {
    && |tr.moments| == |tr.acts| + 1 && (forall i :: i in tr.own ==> 0 <= i < |tr.acts|)
    && forall i :: 0 <= i < |tr.acts| ==> Follows(tr.moments[i], tr.acts[i], tr.moments[i + 1])
  }

  ghost function Last(tr: Trace): Moment
    requires |tr.moments| == |tr.acts| + 1
  {
    tr.moments[|tr.acts|]
  }

  /** The object at `k` was there whenever the listing had passed `k`. */
  ghost predicate Held(tr: Trace, k: string) {
    forall i :: 0 <= i < |tr.moments| && Passed(tr.moments[i].at, k) ==> k in tr.moments[i].w.bucket
  }

  /** Row `id` was moved to `k` after the listing had passed `k`. */
  ghost predicate MovedBehind(tr: Trace, id: int, k: string) {
    exists i :: 0 <= i < |tr.acts| < |tr.moments| &&
                tr.acts[i] == Happens(Write(Move(id, k))) && Passed(tr.moments[i].at, k)
  }

  ghost function Behind(tr: Trace): (int, string) -> bool {
    (id, k) => MovedBehind(tr, id, k)
  }

  /** The crawl itself has swept. */
  ghost predicate Sweeps(tr: Trace) {
    exists i :: i in tr.own && 0 <= i < |tr.acts| && SweepAct(tr.acts[i])
  }

  predicate SweepAct(a: Act) {
    a.Happens? && a.e.Write? && a.e.op.Sweep?
  }

  ghost function Grown(tr: Trace, a: Act, n: Moment, own: bool): Trace {
    Trace(tr.moments + [n], tr.acts + [a], if own then tr.own + {|tr.acts|} else tr.own)
  }

  lemma GrownIsTrace(tr: Trace, a: Act, n: Moment, own: bool)
    requires IsTrace(tr) && Follows(Last(tr), a, n)
    ensures IsTrace(Grown(tr, a, n, own))
  {
  }

  /** What was held later was held before, and excuses last. */
  lemma HistoryGrows(tr: Trace, a: Act, n: Moment, own: bool)
    requires |tr.moments| == |tr.acts| + 1
    ensures forall k :: Held(Grown(tr, a, n, own), k) ==> Held(tr, k)
    ensures forall id, k :: MovedBehind(tr, id, k) ==> MovedBehind(Grown(tr, a, n, own), id, k)
    ensures forall id, k :: a == Happens(Write(Move(id, k))) && Passed(Last(tr).at, k) ==>
                MovedBehind(Grown(tr, a, n, own), id, k)
  {
    var x := Grown(tr, a, n, own);
    forall k | Held(x, k) ensures Held(tr, k) {
      forall i | 0 <= i < |tr.moments| && Passed(tr.moments[i].at, k) ensures k in tr.moments[i].w.bucket {
        assert x.moments[i] == tr.moments[i];
      }
    }
    forall id, k | MovedBehind(tr, id, k) ensures MovedBehind(x, id, k) {
      var i :| 0 <= i < |tr.acts| < |tr.moments| &&
               tr.acts[i] == Happens(Write(Move(id, k))) && Passed(tr.moments[i].at, k);
      assert x.acts[i] == tr.acts[i] && x.moments[i] == tr.moments[i];
    }
    forall id, k | a == Happens(Write(Move(id, k))) && Passed(Last(tr).at, k) ensures MovedBehind(x, id, k) {
      assert x.acts[|tr.acts|] == a && x.moments[|tr.acts|] == Last(tr);
    }
  }

  // ---- What a crawl keeps ---------------------------------------------------------------------

  /** Stamped keys have been passed, and their rows are safe from the sweep unless moved there behind the listing. */
  ghost predicate Safe(tr: Trace, stamped: set<string>, cutoff: int) {
    && |tr.moments| == |tr.acts| + 1 && cutoff <= Last(tr).w.now
    && (forall k :: k in stamped ==> Passed(Last(tr).at, k))
    && Stamped(Last(tr).w.tables, stamped, cutoff, Behind(tr))
  }

  /** Every held object that the listing has passed, and that is not ignored, is stamped or still to be. */
  ghost predicate Covered(tr: Trace, ignorePrefix: string, stamped: set<string>, pending: seq<Listed>) {
    && |tr.moments| == |tr.acts| + 1
    && (forall k :: k in Keys(pending) ==> Passed(Last(tr).at, k))
    && (forall k :: Held(tr, k) && !Ignored(ignorePrefix, k) && Passed(Last(tr).at, k) ==>
            k in stamped || k in Keys(pending))
  }

  predicate Ignored(ignorePrefix: string, k: string) {
    ignorePrefix != "" && ignorePrefix <= k
  }

  /** With one reserved prefix for both, the crawl ignores exactly what the upload and delete endpoints keep out of. */
  lemma IgnoredIffReserved(indexPrefix: string, k: string)
    requires k != "" && Browsable(k)
    ensures Ignored(indexPrefix, k) <==> ValidateUploadKey(indexPrefix, k).Err?
    ensures IsDirPath(k) ==> (Ignored(indexPrefix, k) <==> ValidateDirPath(indexPrefix, k).Err?)
    ensures Ignored(indexPrefix, k) <==> exists rest :: indexPrefix != "" && k == indexPrefix + rest
  {
    if Ignored(indexPrefix, k) { assert k == indexPrefix + k[|indexPrefix|..]; }
  }

  lemma SafeEvent(tr: Trace, e: Event, own: bool, stamped: set<string>, cutoff: int)
    requires IsTrace(tr) && Safe(tr, stamped, cutoff) && WellFormed(Last(tr).w.tables) && Enabled(Last(tr).w, e)
    ensures Safe(Grown(tr, Happens(e), Moment(Next(Last(tr).w, e), Last(tr).at), own), stamped, cutoff)
  {
    var x := Grown(tr, Happens(e), Moment(Next(Last(tr).w, e), Last(tr).at), own);
    HistoryGrows(tr, Happens(e), Last(x), own);
    StampsSurvive(Last(tr).w, e, stamped, cutoff, Behind(tr), Behind(x));
  }

  lemma CoveredEvent(tr: Trace, e: Event, own: bool, ignorePrefix: string, stamped: set<string>, pending: seq<Listed>)
    requires IsTrace(tr) && Covered(tr, ignorePrefix, stamped, pending) && WellFormed(Last(tr).w.tables)
    ensures Covered(Grown(tr, Happens(e), Moment(Next(Last(tr).w, e), Last(tr).at), own),
                    ignorePrefix, stamped, pending)
  {
    HistoryGrows(tr, Happens(e), Moment(Next(Last(tr).w, e), Last(tr).at), own);
  }

  lemma SafeFlush(tr: Trace, batch: seq<Listed>, stamped: set<string>, cutoff: int)
    requires IsTrace(tr) && Safe(tr, stamped, cutoff) && WellFormed(Last(tr).w.tables)
    requires forall k :: k in Keys(batch) ==> Passed(Last(tr).at, k)
    ensures var e := Write(Upsert(batch, Last(tr).w.now));
            Safe(Grown(tr, Happens(e), Moment(Next(Last(tr).w, e), Last(tr).at), true), stamped + Keys(batch), cutoff)
  {
    var e := Write(Upsert(batch, Last(tr).w.now));
    var x := Grown(tr, Happens(e), Moment(Next(Last(tr).w, e), Last(tr).at), true);
    HistoryGrows(tr, Happens(e), Last(x), true);
    assert Stamped(Last(tr).w.tables, stamped, cutoff, Behind(x));
    UpsertStamps(Last(tr).w.tables, batch, Last(tr).w.now, stamped, cutoff, Behind(x));
  }

  lemma ReadPage(tr: Trace, page: seq<Listed>, next: Listing, ignorePrefix: string, stamped: set<string>,
      batch: seq<Listed>, cutoff: int)
    requires IsTrace(tr) && Safe(tr, stamped, cutoff) && Covered(tr, ignorePrefix, stamped, batch)
    requires IsPage(Last(tr).w.bucket, Last(tr).at, page, next)
    ensures var x := Grown(tr, Reads(next), Moment(Last(tr).w, next), true);
            IsTrace(x) && Safe(x, stamped, cutoff) && Covered(x, ignorePrefix, stamped, batch + page)
  {
    var x := Grown(tr, Reads(next), Moment(Last(tr).w, next), true);
    HistoryGrows(tr, Reads(next), Last(x), true);
    assert Keys(batch + page) == Keys(batch) + Keys(page) by {
      assert forall l :: l in batch + page <==> l in batch || l in page;
    }
    forall k | Held(x, k) && !Ignored(ignorePrefix, k) && Passed(next, k)
      ensures k in stamped || k in Keys(batch + page) {
      assert Last(x).at == next && k in Last(x).w.bucket;
    }
  }

  // ---- Nobody else at work --------------------------------------------------------------------

  /** The bucket stayed as it was and no row was moved. */
  ghost predicate Undisturbed(tr: Trace) {
    && |tr.moments| == |tr.acts| + 1
    && (forall i :: 0 <= i < |tr.moments| ==> tr.moments[i].w.bucket == tr.moments[0].w.bucket)
    && (forall i :: 0 <= i < |tr.acts| ==> !(tr.acts[i].Happens? && tr.acts[i].e.Write? && tr.acts[i].e.op.Move?))
  }

  lemma UndisturbedMeans(tr: Trace, k: string)
    requires Undisturbed(tr)
    ensures k in Last(tr).w.bucket ==> Held(tr, k)
    ensures forall id :: !MovedBehind(tr, id, k)
  {
    assert Last(tr).w.bucket == tr.moments[0].w.bucket;
  }

  lemma StaysUndisturbed(tr: Trace, a: Act, n: Moment, own: bool)
    requires Undisturbed(tr) && n.w.bucket == Last(tr).w.bucket && !(a.Happens? && a.e.Write? && a.e.op.Move?)
    ensures Undisturbed(Grown(tr, a, n, own))
  {
    var x := Grown(tr, a, n, own);
    assert Last(tr).w.bucket == tr.moments[0].w.bucket;
  }

  /** The stamped rows are no more than the objects listed so far, none of them ignored. */
  ghost predicate Mirrors(tr: Trace, ignorePrefix: string, stamped: set<string>, pending: seq<Listed>, cutoff: int) {
    && Undisturbed(tr) && Agree(pending, Last(tr).w.bucket)
    && Reflects(Last(tr).w.tables, stamped, Last(tr).w.bucket, cutoff)
    && (forall k :: k in stamped ==> !Ignored(ignorePrefix, k))
  }

  // ---- The sweep ------------------------------------------------------------------------------

  /**
   * Whatever the last act removed was excused: moved there behind the listing, its object missing at some
   * moment after the listing had passed its key, or ignored.
   */
  ghost predicate RemovesOnlyExcused(tr: Trace, ignorePrefix: string) {
    && |tr.moments| == |tr.acts| + 1 && |tr.acts| > 0
    && var before, after := tr.moments[|tr.acts| - 1].w.tables.files, Last(tr).w.tables.files;
       forall id :: id in before && id !in after ==>
         MovedBehind(tr, id, before[id].key) || !Held(tr, before[id].key) || Ignored(ignorePrefix, before[id].key)
  }

  lemma SweepIsExcused(tr: Trace, ignorePrefix: string, stamped: set<string>, cutoff: int)
    requires IsTrace(tr) && Safe(tr, stamped, cutoff) && Covered(tr, ignorePrefix, stamped, []) && Last(tr).at == Ended
    requires WellFormed(Last(tr).w.tables)
    ensures var e := Write(Sweep(cutoff));
            RemovesOnlyExcused(Grown(tr, Happens(e), Moment(Next(Last(tr).w, e), Ended), true), ignorePrefix)
  {
    var e := Write(Sweep(cutoff));
    var x := Grown(tr, Happens(e), Moment(Next(Last(tr).w, e), Ended), true);
    HistoryGrows(tr, Happens(e), Last(x), true);
    var before := Last(tr).w.tables.files;
    assert x.moments[|x.acts| - 1] == Last(tr);
    forall id | id in before && id !in Last(x).w.tables.files
      ensures MovedBehind(x, id, before[id].key) || !Held(x, before[id].key) || Ignored(ignorePrefix, before[id].key)
    {
      var k := before[id].key;
      assert before[id].seenAt < cutoff;
      if Held(x, k) && !Ignored(ignorePrefix, k) {
        assert Held(tr, k) && k in stamped;
        assert Behind(tr)(id, k);
      }
    }
  }

  /** An object that was there at every moment was held. */
  lemma StayedIsHeld(tr: Trace, k: string)
    requires forall i :: 0 <= i < |tr.moments| ==> k in tr.moments[i].w.bucket
    ensures Held(tr, k)
  {
  }

  /** After the sweep only stamped rows are left, and all of them. */
  lemma SweepReflects(tr: Trace, ignorePrefix: string, stamped: set<string>, cutoff: int)
    requires Safe(tr, stamped, cutoff) && Covered(tr, ignorePrefix, stamped, []) && Last(tr).at == Ended
    requires Mirrors(tr, ignorePrefix, stamped, [], cutoff)
    ensures Matched(Swept(Last(tr).w.tables, cutoff).files, Last(tr).w.bucket, ignorePrefix)
  {
    var t, bucket := Last(tr).w.tables, Last(tr).w.bucket;
    var files := Swept(t, cutoff).files;
    forall k ensures KeyTaken(files, k) <==> k in bucket && !Ignored(ignorePrefix, k) {
      UndisturbedMeans(tr, k);
      if k in bucket && !Ignored(ignorePrefix, k) {
        var id :| id in t.files && t.files[id].key == k;
        assert !Behind(tr)(id, k);
        assert files[id].key == k;
      }
    }
  }

  /** The files are exactly the objects that are not ignored, with marks at least as new. */
  ghost predicate Matched(files: map<int, FileRow>, bucket: map<string, int>, ignorePrefix: string) {
    && (forall k :: KeyTaken(files, k) <==> k in bucket && !Ignored(ignorePrefix, k))
    && (forall id :: id in files ==> files[id].key in bucket && bucket[files[id].key] <= files[id].markedAt)
  }

  // ---- The crawl ------------------------------------------------------------------------------

  class Crawler {
    const ignorePrefix: string
    const batchSize: nat
    const pageSize: nat
    /** Nobody else writes the bucket or the tables while the crawl runs. */
    const alone: bool
    /** No call of the crawl fails. */
    const reliable: bool
    var w: World
    var at: Listing
    ghost var tr: Trace
    ghost var stamped: set<string>

    ghost predicate Valid()
      reads this
    {
      IsTrace(tr) && Last(tr) == Moment(w, at) && Good(w.tables) && pageSize > 0
    }

    constructor (ignorePrefix: string, alone: bool, reliable: bool, start: World)
      requires Good(start.tables)
      ensures Valid() && w == start && this.ignorePrefix == ignorePrefix && this.alone == alone
      ensures this.reliable == reliable
    {
      this.ignorePrefix, this.alone, this.reliable, batchSize, pageSize := ignorePrefix, alone, reliable, 500, 1000;
      w, at, tr, stamped := start, NotBegun, Trace([Moment(start, NotBegun)], [], {}), {};
    }

    /** One event, by anyone. */
    method Happen(e: Event, ghost own: bool)
      requires Valid() && Enabled(w, e)
      modifies this`w, this`tr
      ensures Valid() && w == Next(old(w), e) && tr == Grown(old(tr), Happens(e), Moment(w, at), own)
    {
      if e.Write? { StepKeepsIndex(w.tables, e.op); }
      GrownIsTrace(tr, Happens(e), Moment(Next(w, e), at), own);
      w := Next(w, e);
      tr := Grown(tr, Happens(e), Moment(w, at), own);
    }

    /**
     * A crawl between two acts: stamped rows are safe, held objects that were passed are stamped or `pending`,
     * and it has not swept. If `exact`, the stamped rows are also no more than the listed objects.
     */
    ghost predicate Walking(cutoff: int, pending: seq<Listed>, exact: bool)
      reads this
    {
      && Valid() && Safe(tr, stamped, cutoff) && Covered(tr, ignorePrefix, stamped, pending) && !Sweeps(tr)
      && Sourced(tr, pending)
      && (exact ==> alone && Mirrors(tr, ignorePrefix, stamped, pending, cutoff))
    }

    /** Anything others do in the meantime; alone, time passes. */
    method Others(cutoff: int, ghost pending: seq<Listed>, ghost exact: bool)
      requires Walking(cutoff, pending, exact)
      modifies this`w, this`tr
      ensures Walking(cutoff, pending, exact) && tr.moments[0] == old(tr.moments[0])
      ensures alone ==> w.tables == old(w.tables) && w.bucket == old(w.bucket)
    {
      var n: nat := *;
      while n > 0
        invariant Walking(cutoff, pending, exact) && tr.moments[0] == old(tr.moments[0])
        invariant alone ==> w.tables == old(w.tables) && w.bucket == old(w.bucket)
      {
        var e: Event := *;
        if Enabled(w, e) && (alone ==> e.Tick?) {
          SafeEvent(tr, e, false, stamped, cutoff);
          CoveredEvent(tr, e, false, ignorePrefix, stamped, pending);
          if exact { StaysUndisturbed(tr, Happens(e), Moment(Next(w, e), at), false); }
          OthersDoNotSweep(tr, Happens(e), Moment(Next(w, e), at));
          SourcedGrows(tr, Happens(e), Moment(Next(w, e), at), false, pending);
          Happen(e, false);
        }
        n := n - 1;
      }
    }

    /** Upserts the batch, if there is one, or fails and changes nothing. */
    method Flush(batch: seq<Listed>, cutoff: int, ghost rest: seq<Listed>, ghost exact: bool) returns (ok: bool)
      requires Walking(cutoff, batch + rest, exact) && forall l :: l in batch ==> !Ignored(ignorePrefix, l.key)
      modifies this`w, this`tr, this`stamped
      ensures reliable ==> ok
      ensures ok ==> Walking(cutoff, rest, exact) && tr.moments[0] == old(tr.moments[0])
      ensures ok ==> w.tables == (if batch == [] then old(w.tables) else Upserted(old(w.tables), batch, w.now))
      ensures w.bucket == old(w.bucket) && w.now == old(w.now)
      ensures !ok ==> w == old(w) && tr == old(tr) && stamped == old(stamped)
    {
      KeysSplit(batch, rest);
      if batch == [] {
        assert batch + rest == rest;
        return true;
      }
      ok := *;
      ok := ok || reliable;
      if ok {
        var e := Write(Upsert(batch, w.now));
        SafeFlush(tr, batch, stamped, cutoff);
        CoveredFlush(tr, e, ignorePrefix, stamped, batch, rest);
        if exact { MirrorsFlush(tr, ignorePrefix, stamped, batch, rest, cutoff); }
        OwnWriteDoesNotSweep(tr, Happens(e), Moment(Next(w, e), at));
        SourcedFlush(tr, Moment(Next(w, e), at), batch, rest);
        Happen(e, true);
        stamped := stamped + Keys(batch);
      }
    }

    /** The walk callback over one page: skip the ignored, collect the rest, flush full batches. */
    method WalkPage(page: seq<Listed>, carried: seq<Listed>, cutoff: int, ghost exact: bool)
      returns (ok: bool, batch: seq<Listed>)
      requires Walking(cutoff, carried + page, exact) && forall l :: l in carried ==> !Ignored(ignorePrefix, l.key)
      modifies this`w, this`tr, this`stamped
      ensures reliable ==> ok
      ensures ok ==> Walking(cutoff, batch, exact) && forall l :: l in batch ==> !Ignored(ignorePrefix, l.key)
      ensures Valid() && !Sweeps(tr) && tr.moments[0] == old(tr.moments[0]) && (alone ==> w.bucket == old(w.bucket))
    {
      batch, ok := carried, true;
      assert page[0..] == page;
      for i := 0 to |page|
        invariant Walking(cutoff, batch + page[i..], exact) && ok && tr.moments[0] == old(tr.moments[0])
        invariant (alone ==> w.bucket == old(w.bucket)) && forall l :: l in batch ==> !Ignored(ignorePrefix, l.key)
      {
        Others(cutoff, batch + page[i..], exact);
        assert page[i..] == [page[i]] + page[i + 1..];
        if Ignored(ignorePrefix, page[i].key) {
          Skip(tr, ignorePrefix, stamped, batch, page[i], page[i + 1..]);
          SourcedLess(tr, batch + page[i..], batch + page[i + 1..]);
        } else {
          batch := batch + [page[i]];
          assert batch + page[i + 1..] == batch[..|batch| - 1] + page[i..];
          if |batch| >= batchSize {
            ok := Flush(batch, cutoff, page[i + 1..], exact);
            if !ok { return; }
            batch := [];
            assert batch + page[i + 1..] == page[i + 1..];
          }
        }
      }
      assert batch + page[|page|..] == batch;
    }

    /** The listing, page by page, until it ends, fails or is cancelled after `pages` requests. */
    method Walk(cutoff: int, pages: nat, ghost exact: bool) returns (ok: bool, batch: seq<Listed>)
      requires Walking(cutoff, [], exact) && at == NotBegun
      modifies this`w, this`at, this`tr, this`stamped
      ensures reliable && alone && pages > |old(w.bucket)| ==> ok
      ensures ok ==> at == Ended && Walking(cutoff, batch, exact) && forall l :: l in batch ==>
                  !Ignored(ignorePrefix, l.key)
      ensures Valid() && !Sweeps(tr) && tr.moments[0] == old(tr.moments[0]) && (alone ==> w.bucket == old(w.bucket))
    {
      batch, ok := [], true;
      for i := 0 to pages
        invariant Walking(cutoff, batch, exact) && tr.moments[0] == old(tr.moments[0])
        invariant (alone ==> w.bucket == old(w.bucket))
        invariant ok && forall l :: l in batch ==> !Ignored(ignorePrefix, l.key)
        invariant reliable && alone && at != Ended ==> i <= |PassedKeys(w.bucket, at)|
      {
        if at == Ended { return; }
        Others(cutoff, batch, exact);
        var listed: bool := *;
        if !listed && !reliable { return false, []; }
        var page;
        page := NextPage(cutoff, batch, exact);
        ok, batch := WalkPage(page, batch, cutoff, exact);
        if !ok { return; }
      }
      PassedKeysFit(w.bucket, at);
      ok := at == Ended;
    }

    /** One listing request; the position moves to its end. */
    method NextPage(cutoff: int, ghost batch: seq<Listed>, ghost exact: bool) returns (page: seq<Listed>)
      requires Walking(cutoff, batch, exact) && at != Ended
      modifies this`at, this`tr
      ensures Walking(cutoff, batch + page, exact) && tr.moments[0] == old(tr.moments[0])
      ensures at != Ended ==> |PassedKeys(w.bucket, at)| > |PassedKeys(w.bucket, old(at))|
    {
      var next;
      page, next := ListObjects(w.bucket, at, pageSize);
      ReadPage(tr, page, next, ignorePrefix, stamped, batch, cutoff);
      if exact { MirrorsRead(tr, ignorePrefix, stamped, batch, page, next, cutoff); }
      OwnWriteDoesNotSweep(tr, Reads(next), Moment(w, next));
      SourcedPage(tr, batch, page);
      SourcedGrows(tr, Reads(next), Moment(w, next), true, batch + page);
      MorePassed(w.bucket, at, page, next);
      at := next;
      tr := Grown(tr, Reads(next), Moment(w, next), true);
    }

    /** The sweep, after a complete walk: the rows not stamped since the cutoff go, all of them excused. */
    method DeleteUnseen(cutoff: int, ghost exact: bool) returns (ok: bool)
      requires Walking(cutoff, [], exact) && at == Ended
      modifies this`w, this`tr
      ensures Valid() && w.bucket == old(w.bucket) && tr.moments[0] == old(tr.moments[0]) && (reliable ==> ok)
      ensures !ok ==> w == old(w) && tr == old(tr)
      ensures ok ==> w.tables == Swept(old(w.tables), cutoff) && RemovesOnlyExcused(tr, ignorePrefix)
      ensures ok ==> tr == Grown(old(tr), Happens(Write(Sweep(cutoff))), Moment(w, Ended), true)
      ensures Sourced(tr, [])
      ensures ok && exact ==> Matched(w.tables.files, w.bucket, ignorePrefix)
    {
      ok := *;
      ok := ok || reliable;
      if !ok { return; }
      SweepIsExcused(tr, ignorePrefix, stamped, cutoff);
      if exact { SweepReflects(tr, ignorePrefix, stamped, cutoff); }
      var e := Write(Sweep(cutoff));
      SourcedGrows(tr, Happens(e), Moment(Next(w, e), at), true, []);
      Happen(Write(Sweep(cutoff)), true);
    }

    /**
     * One crawl; the trace is everything since the cutoff, whoever did it. An error means the crawl has not swept.
     * A successful crawl sweeps once, last, at the cutoff, and removes only rows that were moved behind the listing,
     * whose object was missing after the listing had passed it, or that are ignored; exactly those of them not safe
     * at the cutoff whose key nobody has upserted since. What it upserts it has listed. Alone, over rows stamped before
     * the cutoff, it leaves exactly the unignored objects, with current marks; with no failing call it succeeds.
     */
    method Run(pages: nat) returns (r: Result<()>)
      requires Valid()
      modifies this
      ensures Valid() && tr.moments[0] == Moment(old(w), NotBegun)
      ensures r.Err? ==> !Sweeps(tr)
      ensures r.Ok? ==> SweepsOnceLast(tr, old(w.now)) && RemovesOnlyExcused(tr, ignorePrefix)
      ensures r.Ok? ==> RemovesExactly(tr, ignorePrefix, old(w.now)) && Sourced(tr, [])
      ensures alone ==> w.bucket == old(w.bucket)
      ensures reliable && alone && pages > |old(w.bucket)| ==> r.Ok?
      ensures r.Ok? && alone &&
              (forall id :: id in old(w.tables.files) ==> old(w.tables.files)[id].seenAt < old(w.now)) ==>
                Matched(w.tables.files, w.bucket, ignorePrefix)
    {
      at, stamped := NotBegun, {};
      tr := Trace([Moment(w, at)], [], {});
      var reachable: bool := *;
      if !reachable && !reliable { return Err(Internal); }
      var cutoff := w.now;
      ghost var exact := alone && Reflects(w.tables, stamped, w.bucket, cutoff);
      var ok := Crawl(cutoff, pages, exact);
      r := if ok then Ok(()) else Err(Internal);
    }

    /** Everything after the cutoff has been read. */
    method Crawl(cutoff: int, pages: nat, ghost exact: bool) returns (ok: bool)
      requires Walking(cutoff, [], exact) && at == NotBegun && cutoff <= tr.moments[0].w.now
      modifies this`w, this`at, this`tr, this`stamped
      ensures Valid() && tr.moments[0] == old(tr.moments[0]) && (alone ==> w.bucket == old(w.bucket))
      ensures reliable && alone && pages > |old(w.bucket)| ==> ok
      ensures if ok then SweepsOnceLast(tr, cutoff) && RemovesOnlyExcused(tr, ignorePrefix) else !Sweeps(tr)
      ensures ok ==> RemovesExactly(tr, ignorePrefix, cutoff) && Sourced(tr, [])
      ensures ok && exact ==> Matched(w.tables.files, w.bucket, ignorePrefix)
    {
      var batch;
      ok, batch := Walk(cutoff, pages, exact);
      if ok {
        ok := FlushAndSweep(batch, cutoff, exact);
        if ok { SweepIsExact(tr, ignorePrefix, cutoff); }
      }
    }

    method FlushAndSweep(batch: seq<Listed>, cutoff: int, ghost exact: bool) returns (ok: bool)
      requires Walking(cutoff, batch, exact) && at == Ended && forall l :: l in batch ==> !Ignored(ignorePrefix, l.key)
      modifies this`w, this`tr, this`stamped
      ensures Valid() && tr.moments[0] == old(tr.moments[0]) && (alone ==> w.bucket == old(w.bucket))
      ensures (reliable ==> ok)
      ensures if ok then SweepsOnceLast(tr, cutoff) && RemovesOnlyExcused(tr, ignorePrefix) else !Sweeps(tr)
      ensures ok ==> Sourced(tr, [])
      ensures ok && exact ==> Matched(w.tables.files, w.bucket, ignorePrefix)
    {
      Others(cutoff, batch, exact);
      assert batch + [] == batch;
      ok := Flush(batch, cutoff, [], exact);
      if !ok { return; }
      Others(cutoff, [], exact);
      ghost var before := tr;
      ok := DeleteUnseen(cutoff, exact);
      if ok { SweepsLast(before, cutoff, Moment(w, Ended)); }
    }
  }

  /** The crawl's one sweep is the last act, and its cutoff is `cutoff`. */
  ghost predicate SweepsOnceLast(tr: Trace, cutoff: int) {
    && |tr.acts| > 0 && tr.acts[|tr.acts| - 1] == Happens(Write(Sweep(cutoff))) && |tr.acts| - 1 in tr.own
    && forall i :: i in tr.own && 0 <= i < |tr.acts| - 1 ==> !SweepAct(tr.acts[i])
  }

  lemma SweepsLast(tr: Trace, cutoff: int, n: Moment)
    requires IsTrace(tr) && !Sweeps(tr)
    ensures SweepsOnceLast(Grown(tr, Happens(Write(Sweep(cutoff))), n, true), cutoff)
  {
    var x := Grown(tr, Happens(Write(Sweep(cutoff))), n, true);
    forall i | i in x.own && 0 <= i < |x.acts| - 1 ensures !SweepAct(x.acts[i]) {
      assert x.acts[i] == tr.acts[i];
    }
  }

  lemma Skip(tr: Trace, ignorePrefix: string, stamped: set<string>, batch: seq<Listed>, l: Listed, rest: seq<Listed>)
    requires Covered(tr, ignorePrefix, stamped, batch + ([l] + rest)) && Ignored(ignorePrefix, l.key)
    ensures Covered(tr, ignorePrefix, stamped, batch + rest)
    ensures forall x :: x in batch + rest ==> x in batch + ([l] + rest)
  {
    KeysSplit(batch, [l] + rest);
    KeysSplit([l], rest);
    KeysSplit(batch, rest);
    assert Keys([l]) == {l.key};
  }

  lemma MirrorsRead(tr: Trace, ignorePrefix: string, stamped: set<string>, batch: seq<Listed>, page: seq<Listed>,
      next: Listing, cutoff: int)
    requires Mirrors(tr, ignorePrefix, stamped, batch, cutoff) && Agree(page, Last(tr).w.bucket)
    ensures Mirrors(Grown(tr, Reads(next), Moment(Last(tr).w, next), true), ignorePrefix, stamped, batch + page, cutoff)
  {
    StaysUndisturbed(tr, Reads(next), Moment(Last(tr).w, next), true);
  }

  ghost function PassedKeys(bucket: map<string, int>, at: Listing): set<string> {
    set k | k in bucket && Passed(at, k)
  }

  lemma PassedKeysFit(bucket: map<string, int>, at: Listing)
    ensures |PassedKeys(bucket, at)| <= |bucket|
  {
    SubsetSize(PassedKeys(bucket, at), bucket.Keys);
  }

  lemma {:induction false} SubsetSize(a: set<string>, b: set<string>)
    requires a <= b
    ensures |a| <= |b| && (a != b ==> |a| < |b|)
  {
    assert b == a + (b - a);
  }

  lemma MorePassed(bucket: map<string, int>, at: Listing, page: seq<Listed>, next: Listing)
    requires IsPage(bucket, at, page, next) && at != Ended && (next != Ended ==> page != [] && !Passed(at, page[0].key))
    ensures next != Ended ==> |PassedKeys(bucket, next)| > |PassedKeys(bucket, at)|
  {
    if next != Ended {
      assert page[0] in page && page[0].key in Keys(page);
      assert page[0].key in PassedKeys(bucket, next) && page[0].key !in PassedKeys(bucket, at);
      SubsetSize(PassedKeys(bucket, at), PassedKeys(bucket, next));
    }
  }

  lemma KeysSplit(a: seq<Listed>, b: seq<Listed>)
    ensures Keys(a + b) == Keys(a) + Keys(b)
  {
    assert forall l :: l in a + b <==> l in a || l in b;
  }

  lemma OthersDoNotSweep(tr: Trace, a: Act, n: Moment)
    requires IsTrace(tr) && !Sweeps(tr)
    ensures !Sweeps(Grown(tr, a, n, false))
  {
    var x := Grown(tr, a, n, false);
    forall i | i in x.own && 0 <= i < |x.acts| ensures !SweepAct(x.acts[i]) {
      assert i < |tr.acts| && x.acts[i] == tr.acts[i];
    }
  }

  lemma OwnWriteDoesNotSweep(tr: Trace, a: Act, n: Moment)
    requires IsTrace(tr) && !Sweeps(tr) && !SweepAct(a)
    ensures !Sweeps(Grown(tr, a, n, true))
  {
    var x := Grown(tr, a, n, true);
    forall i | i in x.own && 0 <= i < |x.acts| ensures !SweepAct(x.acts[i]) {
      if i < |tr.acts| { assert x.acts[i] == tr.acts[i]; }
    }
  }

  lemma CoveredFlush(tr: Trace, e: Event, ignorePrefix: string, stamped: set<string>, batch: seq<Listed>,
      rest: seq<Listed>)
    requires IsTrace(tr) && Covered(tr, ignorePrefix, stamped, batch + rest) && WellFormed(Last(tr).w.tables)
    ensures Covered(Grown(tr, Happens(e), Moment(Next(Last(tr).w, e), Last(tr).at), true),
                    ignorePrefix, stamped + Keys(batch), rest)
  {
    KeysSplit(batch, rest);
    HistoryGrows(tr, Happens(e), Moment(Next(Last(tr).w, e), Last(tr).at), true);
  }

  lemma MirrorsFlush(tr: Trace, ignorePrefix: string, stamped: set<string>, batch: seq<Listed>, rest: seq<Listed>,
      cutoff: int)
    requires IsTrace(tr) && Mirrors(tr, ignorePrefix, stamped, batch + rest, cutoff) && cutoff <= Last(tr).w.now
    requires WellFormed(Last(tr).w.tables) && forall l :: l in batch ==> !Ignored(ignorePrefix, l.key)
    ensures var e := Write(Upsert(batch, Last(tr).w.now));
            Mirrors(Grown(tr, Happens(e), Moment(Next(Last(tr).w, e), Last(tr).at), true),
                    ignorePrefix, stamped + Keys(batch), rest, cutoff)
  {
    var e := Write(Upsert(batch, Last(tr).w.now));
    StaysUndisturbed(tr, Happens(e), Moment(Next(Last(tr).w, e), Last(tr).at), true);
    assert forall l :: l in batch || l in rest ==> l in batch + rest;
    UpsertReflects(Last(tr).w.tables, batch, Last(tr).w.now, stamped, Last(tr).w.bucket, cutoff);
  }

  // ---- Exactly which rows a sweep removes -----------------------------------------------------

  /** The act upserts the key that row `id` has afterwards, as row `id` does if it is new. */
  ghost predicate Stamps(a: Act, n: Moment, id: int) {
    && a.Happens? && a.e.Write? && a.e.op.Upsert?
    && id in n.w.tables.files && Mentions(a.e.op.batch, n.w.tables.files[id].key)
  }

  ghost predicate StampedSince(tr: Trace, id: int) {
    exists i :: 0 <= i < |tr.acts| < |tr.moments| && Stamps(tr.acts[i], tr.moments[i + 1], id)
  }

  predicate SeenAt(m: Moment, id: int, cutoff: int) {
    id in m.w.tables.files && m.w.tables.files[id].seenAt >= cutoff
  }

  /** From one moment to the next a row becomes safe only by an upsert of its key, and stays safe. */
  lemma SafeByStamp(m: Moment, a: Act, n: Moment, id: int, cutoff: int)
    requires Follows(m, a, n) && cutoff <= m.w.now && id in n.w.tables.files
    ensures SeenAt(n, id, cutoff) <==> SeenAt(m, id, cutoff) || Stamps(a, n, id)
    ensures id !in m.w.tables.files ==> Stamps(a, n, id)
    ensures m.w.now <= n.w.now
  {
    if a.Happens? {
      match a.e { case Tick(dt) => case _ => }
      if a.e.Write? && a.e.op.Upsert? {
        StampsOrNot(m.w.tables, a.e.op.batch, m.w.now, id, cutoff);
      }
    }
  }

  lemma StampsOrNot(t: Tables, batch: seq<Listed>, now: int, id: int, cutoff: int)
    requires WellFormed(t) && cutoff <= now && id in Upserted(t, batch, now).files
    ensures var row := Upserted(t, batch, now).files[id];
            if Mentions(batch, row.key) then row.seenAt >= cutoff else id in t.files && row == t.files[id]
  {
    if Mentions(batch, Upserted(t, batch, now).files[id].key) {
      UpsertRestamps(t, batch, now, id);
    } else {
      UpsertUntouched(t, batch, now, id);
    }
  }

  lemma {:induction false} ClockRuns(tr: Trace, j: nat)
    requires IsTrace(tr) && j < |tr.moments|
    ensures tr.moments[0].w.now <= tr.moments[j].w.now
  {
    if j > 0 {
      ClockRuns(tr, j - 1);
      TimePasses(tr.moments[j - 1], tr.acts[j - 1], tr.moments[j]);
    }
  }

  lemma TimePasses(m: Moment, a: Act, n: Moment)
    requires Follows(m, a, n)
    ensures m.w.now <= n.w.now
  {
    if a.Happens? { match a.e { case Tick(dt) => case _ => } }
  }

  /** At any moment since the cutoff a row is safe iff it was at the cutoff, or its key has been upserted since. */
  lemma {:induction false} SafeIff(tr: Trace, id: int, cutoff: int, j: nat)
    requires IsTrace(tr) && cutoff <= tr.moments[0].w.now && j < |tr.moments| && id in tr.moments[j].w.tables.files
    ensures SeenAt(tr.moments[j], id, cutoff) <==>
              SeenAt(tr.moments[0], id, cutoff) || exists i :: 0 <= i < j && Stamps(tr.acts[i], tr.moments[i + 1], id)
  {
    if j > 0 {
      ClockRuns(tr, j - 1);
      SafeByStamp(tr.moments[j - 1], tr.acts[j - 1], tr.moments[j], id, cutoff);
      if id in tr.moments[j - 1].w.tables.files {
        SafeIff(tr, id, cutoff, j - 1);
      }
      if Stamps(tr.acts[j - 1], tr.moments[j], id) {
        assert Stamps(tr.acts[j - 1], tr.moments[j - 1 + 1], id);
      }
    }
  }

  /**
   * The last act removed exactly the rows that were not safe at the cutoff and whose key has not been upserted since;
   * and of those whose object is held and not ignored, exactly the ones that were moved behind the listing too.
   */
  ghost predicate RemovesExactly(tr: Trace, ignorePrefix: string, cutoff: int) {
    && |tr.moments| == |tr.acts| + 1 && |tr.acts| > 0
    && var before, after := tr.moments[|tr.acts| - 1].w.tables.files, Last(tr).w.tables.files;
       && (forall id :: id in before ==>
             (id !in after <==> !SeenAt(tr.moments[0], id, cutoff) && !StampedSince(tr, id)))
       && (forall id :: id in before && Held(tr, before[id].key) && !Ignored(ignorePrefix, before[id].key) ==>
             (id !in after <==> !SeenAt(tr.moments[0], id, cutoff) && !StampedSince(tr, id)
                                && MovedBehind(tr, id, before[id].key)))
  }

  lemma SweepIsExact(tr: Trace, ignorePrefix: string, cutoff: int)
    requires IsTrace(tr) && SweepsOnceLast(tr, cutoff) && cutoff <= tr.moments[0].w.now
    requires RemovesOnlyExcused(tr, ignorePrefix)
    ensures RemovesExactly(tr, ignorePrefix, cutoff)
  {
    var n := |tr.acts| - 1;
    var before, after := tr.moments[n].w.tables.files, Last(tr).w.tables.files;
    forall id | id in before
      ensures id !in after <==> !SeenAt(tr.moments[0], id, cutoff) && !StampedSince(tr, id)
    {
      RemovedIff(tr, id, cutoff, n);
    }
  }

  lemma RemovedIff(tr: Trace, id: int, cutoff: int, n: nat)
    requires IsTrace(tr) && |tr.acts| == n + 1 && tr.acts[n] == Happens(Write(Sweep(cutoff)))
    requires cutoff <= tr.moments[0].w.now && id in tr.moments[n].w.tables.files
    ensures id !in tr.moments[n + 1].w.tables.files <==>
              !SeenAt(tr.moments[0], id, cutoff) && !StampedSince(tr, id)
  {
    assert Follows(tr.moments[n], tr.acts[n], tr.moments[n + 1]);
    SafeIff(tr, id, cutoff, n);
    StampedBefore(tr, id, n);
  }

  /** The sweep itself stamps nothing. */
  lemma StampedBefore(tr: Trace, id: int, n: nat)
    requires IsTrace(tr) && |tr.acts| == n + 1 && SweepAct(tr.acts[n])
    ensures StampedSince(tr, id) <==> exists i :: 0 <= i < n && Stamps(tr.acts[i], tr.moments[i + 1], id)
  {
    if i :| 0 <= i < |tr.acts| < |tr.moments| && Stamps(tr.acts[i], tr.moments[i + 1], id) {
      assert i < n;
    }
  }

  // What the crawl upserts it has listed, so a row whose object is gone does go.

  ghost predicate WasThere(tr: Trace, k: string) {
    exists i :: 0 <= i < |tr.moments| && k in tr.moments[i].w.bucket
  }

  /** Every key the crawl has upserted, or is about to, was in the bucket at some moment. */
  ghost predicate Sourced(tr: Trace, pending: seq<Listed>) {
    && (forall k :: k in Keys(pending) ==> WasThere(tr, k))
    && forall i, k :: i in tr.own && 0 <= i < |tr.acts| && UpsertsKey(tr.acts[i], k) ==> WasThere(tr, k)
  }

  predicate UpsertsKey(a: Act, k: string) {
    a.Happens? && a.e.Write? && a.e.op.Upsert? && exists l :: l in a.e.op.batch && l.key == k
  }

  lemma SourcedGrows(tr: Trace, a: Act, n: Moment, own: bool, pending: seq<Listed>)
    requires IsTrace(tr) && Sourced(tr, pending) && (own ==> forall k :: UpsertsKey(a, k) ==> k in Keys(pending))
    ensures Sourced(Grown(tr, a, n, own), pending)
  {
    var x := Grown(tr, a, n, own);
    forall k | WasThere(tr, k) ensures WasThere(x, k) {
      var i :| 0 <= i < |tr.moments| && k in tr.moments[i].w.bucket;
      assert x.moments[i] == tr.moments[i];
    }
    forall i, k | i in x.own && 0 <= i < |x.acts| && UpsertsKey(x.acts[i], k) ensures WasThere(x, k) {
      if i < |tr.acts| { assert x.acts[i] == tr.acts[i]; }
    }
  }

  lemma SourcedFlush(tr: Trace, n: Moment, batch: seq<Listed>, rest: seq<Listed>)
    requires IsTrace(tr) && Sourced(tr, batch + rest)
    ensures Sourced(Grown(tr, Happens(Write(Upsert(batch, Last(tr).w.now))), n, true), rest)
  {
    KeysSplit(batch, rest);
    SourcedGrows(tr, Happens(Write(Upsert(batch, Last(tr).w.now))), n, true, batch + rest);
  }

  lemma SourcedLess(tr: Trace, pending: seq<Listed>, fewer: seq<Listed>)
    requires Sourced(tr, pending) && forall l :: l in fewer ==> l in pending
    ensures Sourced(tr, fewer)
  {
  }

  lemma SourcedPage(tr: Trace, pending: seq<Listed>, page: seq<Listed>)
    requires IsTrace(tr) && Sourced(tr, pending) && Agree(page, Last(tr).w.bucket)
    ensures Sourced(tr, pending + page)
  {
    KeysSplit(pending, page);
    forall k | k in Keys(page) ensures WasThere(tr, k) {
      var l :| l in page && l.key == k;
      assert k in tr.moments[|tr.acts|].w.bucket;
    }
  }

  /** At no moment was there an object under a key that row `id` had. */
  ghost predicate NeverBacked(tr: Trace, id: int) {
    forall i :: 0 <= i < |tr.moments| && id in tr.moments[i].w.tables.files ==>
      !WasThere(tr, tr.moments[i].w.tables.files[id].key)
  }

  /** A row not safe at the cutoff, whose object is gone and that nobody else upserts, is swept. */
  lemma GoneObjectIsSwept(tr: Trace, ignorePrefix: string, cutoff: int, id: int)
    requires IsTrace(tr) && RemovesExactly(tr, ignorePrefix, cutoff) && Sourced(tr, [])
    requires id in tr.moments[|tr.acts| - 1].w.tables.files && !SeenAt(tr.moments[0], id, cutoff)
    requires forall i :: 0 <= i < |tr.acts| && i !in tr.own ==> !Stamps(tr.acts[i], tr.moments[i + 1], id)
    requires NeverBacked(tr, id)
    ensures id !in Last(tr).w.tables.files
  {
    forall i | 0 <= i < |tr.acts| ensures !Stamps(tr.acts[i], tr.moments[i + 1], id) {
      StampUpserts(tr.acts[i], tr.moments[i + 1], id);
    }
  }

  lemma StampUpserts(a: Act, n: Moment, id: int)
    ensures Stamps(a, n, id) ==> UpsertsKey(a, n.w.tables.files[id].key)
  {
  }

  /** A row that stays under its key with its object, and is not ignored, is never swept. */
  lemma StayingRowSurvives(tr: Trace, ignorePrefix: string, id: int, k: string)
    requires RemovesOnlyExcused(tr, ignorePrefix) && !Ignored(ignorePrefix, k)
    requires forall i :: 0 <= i < |tr.moments| ==> k in tr.moments[i].w.bucket
    requires forall i :: 0 <= i < |tr.acts| ==> tr.acts[i] != Happens(Write(Move(id, k)))
    requires var before := tr.moments[|tr.acts| - 1].w.tables.files; id in before && before[id].key == k
    ensures id in Last(tr).w.tables.files
  {
    StayedIsHeld(tr, k);
  }

  // ---- A move behind the listing --------------------------------------------------------------

  /** A row whose key holds an object. */
  predicate HasObject(w: World, id: int) {
    id in w.tables.files && w.tables.files[id].key in w.bucket
  }

  /**
   * Why moves are excused: a row moved after its key was listed is swept although its object was there
   * before, during and after the crawl. `page` is what the listing saw of `before`, `cutoff` its clock.
   */
  lemma MoveDuringWalkIsSwept() returns (before: World, page: seq<Listed>, moved: World, after: World)
    ensures Good(before.tables) && IsPage(before.bucket, NotBegun, page, Ended)
    ensures moved == Next(Next(Next(before, Put("a", 10)), Write(Move(1, "a"))), Remove("z"))
    ensures HasObject(before, 1) && HasObject(moved, 1)
    ensures WellFormed(moved.tables)
    ensures after == moved.(tables := Swept(Upserted(moved.tables, page, before.now), before.now))
    ensures moved.tables.files[1].key in after.bucket && !KeyTaken(after.tables.files, moved.tables.files[1].key)
  {
    before, page := World(Tables(map[1 := FileRow("z", 5, 5)], {}, 2), map["z" := 5], 10), [Listed("z", 5)];
    assert page[0] in page;
    OneFlatFile(before.tables, "z");
    var t := Moved(before.tables, 1, "a");
    moved := World(t, map["a" := 10], 10);
    MoveKeepsIndex(before.tables, 1, "a");
    assert Next(Next(Next(before, Put("a", 10)), Write(Move(1, "a"))), Remove("z")).bucket == moved.bucket;
    UnlistedIsSwept(t, page, 10, "a");
    after := moved.(tables := Swept(Upserted(t, page, 10), 10));
  }

  lemma OneFlatFile(t: Tables, k: string)
    requires t.files.Keys == {1} && t.files[1].key == k && t.nextId == 2 && t.directories == {} && |k| == 1 && k != "/"
    ensures Good(t)
  {
    forall d | IsDirPath(d) ensures !(d < k) { assert |d| > 0; }
  }

  /** Rows at a key that is not listed and was last stamped before the cutoff do not survive the sweep. */
  lemma UnlistedIsSwept(t: Tables, page: seq<Listed>, cutoff: int, k: string)
    requires WellFormed(t) && !Mentions(page, k)
    requires forall id :: id in t.files && t.files[id].key == k ==> t.files[id].seenAt < cutoff
    ensures !KeyTaken(Swept(Upserted(t, page, cutoff), cutoff).files, k)
  {
    var u := UpsertFiles(t, page, cutoff);
    forall id | id in u.files && u.files[id].key == k ensures u.files[id].seenAt < cutoff {
      UpsertUntouched(t, page, cutoff, id);
    }
  }
}
