/** What paging through the search endpoints returns, over changing and over fixed tables (AIP-158). */
module SearchWalks {
  import opened Common
  import opened Ordering
  import opened Keyset
  import opened Search

  type Fuzzy = (string, string) -> bool

  // ---- ListFiles ------------------------------------------------------------------------------

  function LiveFiles(files: set<FileInfo>, fuzzy: Fuzzy, req: ListFilesRequest): set<FileInfo> {
    set f | f in files && Selected(fuzzy, req.query, req.contentType, false, "", f)
  }

  function Field(req: ListFilesRequest): SortField {
    NormalizeSort(req.field, req.order).0
  }

  function Order(req: ListFilesRequest): SortOrder {
    NormalizeSort(req.field, req.order).1
  }

  function OpenFiles(files: set<FileInfo>, fuzzy: Fuzzy, req: ListFilesRequest,
      token: Option<PageToken>): set<FileInfo> {
    OpenRows(files, fuzzy, Field(req), Order(req), req.query, req.contentType, false, "", token)
  }

  function Sort(req: ListFilesRequest): (FileInfo, FileInfo) -> bool {
    Before(Field(req), Order(req))
  }

  /** The token's cursor lets through exactly the rows that sort after `last`. */
  ghost predicate StandsAt(field: SortField, order: SortOrder, token: Option<PageToken>, last: FileInfo) {
    forall f :: PastCursor(field, order, token, f) <==> Before(field, order)(last, f)
  }

  /** One page is the first `limit` rows behind the cursor, with a token iff there are more. */
  lemma ListFilesPage(files: set<FileInfo>, fuzzy: Fuzzy, req: ListFilesRequest)
    requires TableOk(files) && ListFiles(files, fuzzy, req).Ok?
    ensures LinearOn(Sort(req), OpenFiles(files, fuzzy, req, req.token))
    ensures var p, limit := ListFiles(files, fuzzy, req).value, NormalizePageSize(req.pageSize);
            var r := Ordered(Sort(req), OpenFiles(files, fuzzy, req, req.token));
            && p.files == Take(r, limit)
            && (p.next.Some? <==> |r| > limit)
            && (p.next.Some? ==> StandsAt(Field(req), Order(req), p.next, r[limit - 1]))
  {
    var r := PageIsFetched(files, fuzzy, req);
    PageFromShape(Field(req), Order(req), req.query, req.contentType, NormalizePageSize(req.pageSize), r);
  }

  /** The page is cut from the first rows behind the cursor, one more than it holds. */
  lemma PageIsFetched(files: set<FileInfo>, fuzzy: Fuzzy, req: ListFilesRequest) returns (r: seq<FileInfo>)
    requires TableOk(files) && ListFiles(files, fuzzy, req).Ok?
    ensures LinearOn(Sort(req), OpenFiles(files, fuzzy, req, req.token))
    ensures r == Ordered(Sort(req), OpenFiles(files, fuzzy, req, req.token)) && forall f :: f in r ==> f.id > 0
    ensures var limit := NormalizePageSize(req.pageSize);
            ListFiles(files, fuzzy, req).value ==
            PageFrom(Field(req), Order(req), req.query, req.contentType, limit, Take(r, limit + 1))
  {
    BeforeLinear(Field(req), Order(req), files);
    r := Ordered(Sort(req), OpenFiles(files, fuzzy, req, req.token));
    RowsAreFetched(files, fuzzy, req, NormalizePageSize(req.pageSize) + 1);
  }

  lemma RowsAreFetched(files: set<FileInfo>, fuzzy: Fuzzy, req: ListFilesRequest, n: nat)
    requires TableOk(files) && LinearOn(Sort(req), OpenFiles(files, fuzzy, req, req.token))
    ensures ListRows(files, fuzzy, Field(req), Order(req), req.query, req.contentType, false, "", req.token, n)
         == Take(Ordered(Sort(req), OpenFiles(files, fuzzy, req, req.token)), n)
  {
  }

  lemma PageFromShape(field: SortField, order: SortOrder, query: string, contentType: string, limit: nat,
      r: seq<FileInfo>)
    requires field != FieldUnspecified && limit > 0 && forall f :: f in r ==> f.id > 0
    ensures var p := PageFrom(field, order, query, contentType, limit, Take(r, limit + 1));
            && p.files == Take(r, limit) && (p.next.Some? <==> |r| > limit)
            && (p.next.Some? ==> StandsAt(field, order, p.next, r[limit - 1]))
  {
    Lookahead(r, limit);
    if |r| > limit {
      assert r[limit - 1] in r;
      IssuedTokenStands(field, order, query, contentType, r[limit - 1]);
    }
  }

  lemma IssuedTokenStands(field: SortField, order: SortOrder, query: string, contentType: string, last: FileInfo)
    requires field != FieldUnspecified && last.id > 0
    ensures StandsAt(field, order, Some(NewCursor(field, order, query, contentType, last)), last)
  {
    CursorStandsAtRow(field, order, query, contentType, "", last);
  }

  /** A token is refused for any other query, and accepted for the one it was issued for. */
  lemma TokensAreBoundToQuery(files: set<FileInfo>, fuzzy: Fuzzy, req: ListFilesRequest, files': set<FileInfo>,
      req': ListFilesRequest)
    requires TableOk(files) && TableOk(files') && ListFiles(files, fuzzy, req).Ok?
    requires ListFiles(files, fuzzy, req).value.next.Some? && req'.token == ListFiles(files, fuzzy, req).value.next
    ensures ListFiles(files', fuzzy, req').Ok? <==>
              && NormalizeSort(req'.field, req'.order) == NormalizeSort(req.field, req.order)
              && req'.query == req.query && req'.contentType == req.contentType
  {
    IssuedTokenCarriesQuery(files, fuzzy, req);
  }

  lemma IssuedTokenCarriesQuery(files: set<FileInfo>, fuzzy: Fuzzy, req: ListFilesRequest)
    requires TableOk(files) && ListFiles(files, fuzzy, req).Ok? && ListFiles(files, fuzzy, req).value.next.Some?
    ensures var t := ListFiles(files, fuzzy, req).value.next.value;
            && (t.sortField, t.sortOrder) == NormalizeSort(req.field, req.order)
            && t.query == req.query && t.contentType == req.contentType
  {
    var (field, order) := NormalizeSort(req.field, req.order);
    var limit := NormalizePageSize(req.pageSize);
    PageFromToken(field, order, req.query, req.contentType, limit,
                  ListRows(files, fuzzy, field, order, req.query, req.contentType, false, "", req.token, limit + 1));
  }

  lemma PageFromToken(field: SortField, order: SortOrder, query: string, contentType: string, limit: nat,
      rows: seq<FileInfo>)
    requires limit > 0
    ensures var next := PageFrom(field, order, query, contentType, limit, rows).next;
            next.Some? ==>
              && next.value.sortField == field && next.value.sortOrder == order
              && next.value.query == query && next.value.contentType == contentType
  {
  }

  function At(req: ListFilesRequest, pageSize: nat, token: Option<PageToken>): ListFilesRequest {
    req.(pageSize := pageSize, token := token)
  }

  /** A client's walk: each call passes the previous call's token, and the last one returns none. */
  ghost predicate IsFilesWalk(fuzzy: Fuzzy, req: ListFilesRequest, tables: seq<set<FileInfo>>, sizes: seq<nat>,
                              tokens: seq<Option<PageToken>>, pages: seq<seq<FileInfo>>) {
    var n := |tables|;
    && n > 0 && |sizes| == n && |pages| == n && |tokens| == n + 1
    && tokens[0] == None && tokens[n] == None
    && (forall i :: 0 < i < n ==> tokens[i].Some?)
    && (forall i :: 0 <= i < n ==> TableOk(tables[i]))
    && (forall i :: 0 <= i < n ==>
            ListFiles(tables[i], fuzzy, At(req, sizes[i], tokens[i])) == Ok(FilesPage(pages[i], tokens[i + 1])))
  }

  /** Rows tie exactly when sort value and id agree. */
  lemma TiedIsSamePosition(field: SortField, order: SortOrder, f: FileInfo, g: FileInfo)
    ensures Tied(Before(field, order), f, g) <==> PosOf(field, f) == PosOf(field, g)
  {
    PosOrder(order, PosOf(field, f), PosOf(field, g), PosOf(field, g));
  }

  lemma FilesContinue(fuzzy: Fuzzy, req: ListFilesRequest, open: set<FileInfo>, limit: nat, next: set<FileInfo>,
      token: Option<PageToken>)
    requires LinearOn(Sort(req), open) && 1 <= limit < |open|
    requires StandsAt(Field(req), Order(req), token, Ordered(Sort(req), open)[limit - 1])
    ensures Continues(Sort(req), LiveFiles(next, fuzzy, req), open,
                      OpenFiles(next, fuzzy, req, token), Take(Ordered(Sort(req), open), limit))
  {
    var field, order := Field(req), Order(req);
    var last := Ordered(Sort(req), open)[limit - 1];
    BeforeTransitive(field, order);
    forall x, y | x in open && Sort(req)(last, x) && y in LiveFiles(next, fuzzy, req) && Tied(Sort(req), x, y)
      ensures y in OpenFiles(next, fuzzy, req, token)
    {
      TiedIsSamePosition(field, order, x, y);
      assert PastCursor(field, order, token, y);
    }
    FullPageContinues(Sort(req), open, limit, LiveFiles(next, fuzzy, req), OpenFiles(next, fuzzy, req, token));
  }

  /** What one page contributes to a walk; `later` is the table when the next page is read. */
  lemma FilesPageContributes(fuzzy: Fuzzy, req: ListFilesRequest, files: set<FileInfo>, size: nat,
      token: Option<PageToken>,
                             page: seq<FileInfo>, next: Option<PageToken>, later: set<FileInfo>)
    requires TableOk(files) && ListFiles(files, fuzzy, At(req, size, token)) == Ok(FilesPage(page, next))
    ensures Sorted(Sort(req), page) && forall x :: x in page ==> x in OpenFiles(files, fuzzy, req, token)
    ensures next.None? ==> Covers(page, OpenFiles(files, fuzzy, req, token))
    ensures next.Some? ==> |page| == NormalizePageSize(size)
    ensures next.Some? ==>
              Continues(Sort(req), LiveFiles(later, fuzzy, req), OpenFiles(files, fuzzy, req, token),
                        OpenFiles(later, fuzzy, req, next), page)
  {
    var limit := NormalizePageSize(size);
    ListFilesPage(files, fuzzy, At(req, size, token));
    var open := OpenFiles(files, fuzzy, req, token);
    assert open == OpenFiles(files, fuzzy, At(req, size, token), token) && Sort(req) == Sort(At(req, size, token));
    TakeIsFirst(Sort(req), Ordered(Sort(req), open), limit);
    if next.Some? {
      FilesContinue(fuzzy, req, open, limit, later, next);
    }
  }

  /** A client's walk, seen as rows that match and rows behind the cursor. */
  ghost function FilesWalk(fuzzy: Fuzzy, req: ListFilesRequest, tables: seq<set<FileInfo>>,
      tokens: seq<Option<PageToken>>,
                           pages: seq<seq<FileInfo>>): (w: Walk<FileInfo>)
    requires |tokens| == |tables| + 1
    ensures w.pages == pages && |w.live| == |w.open| == |tables|
    ensures forall i :: 0 <= i < |tables| ==> w.live[i] == LiveFiles(tables[i], fuzzy, req)
    ensures forall i :: 0 <= i < |tables| ==> w.open[i] == OpenFiles(tables[i], fuzzy, req, tokens[i])
  {
    var n := |tables|;
    Walk(seq(n, i requires 0 <= i < n => LiveFiles(tables[i], fuzzy, req)),
         seq(n, i requires 0 <= i < n => OpenFiles(tables[i], fuzzy, req, tokens[i])), pages)
  }

  lemma FilesWalkFinishes(fuzzy: Fuzzy, req: ListFilesRequest, tables: seq<set<FileInfo>>, sizes: seq<nat>,
                          tokens: seq<Option<PageToken>>, pages: seq<seq<FileInfo>>) returns (w: Walk<FileInfo>)
    requires IsFilesWalk(fuzzy, req, tables, sizes, tokens, pages)
    ensures Finished(Sort(req), w) && w.pages == pages
    ensures |w.live| == |tables| && forall i :: 0 <= i < |tables| ==> w.live[i] == LiveFiles(tables[i], fuzzy, req)
    ensures forall i :: 0 <= i < |tables| ==> w.open[i] <= w.live[i]
    ensures forall i :: 0 <= i < |pages| - 1 ==> |pages[i]| == NormalizePageSize(sizes[i])
  {
    var n := |tables|;
    w := FilesWalk(fuzzy, req, tables, tokens, pages);
    assert w.open[0] == w.live[0];
    forall i | 0 <= i < n
      ensures Linked(Sort(req), w, i) && (i < n - 1 ==> |pages[i]| == NormalizePageSize(sizes[i]))
    {
      FilesPageContributes(fuzzy, req, tables[i], sizes[i], tokens[i], pages[i], tokens[i + 1],
                           if i < n - 1 then tables[i + 1] else {});
    }
  }

  function Positions(field: SortField, rows: seq<FileInfo>): (r: seq<Pos>)
    ensures |r| == |rows| && forall i :: 0 <= i < |rows| ==> r[i] == PosOf(field, rows[i])
  {
    seq(|rows|, i requires 0 <= i < |rows| => PosOf(field, rows[i]))
  }

  /** Some matching row stands at `p`. */
  ghost predicate Occupied(files: set<FileInfo>, fuzzy: Fuzzy, req: ListFilesRequest, p: Pos) {
    exists f :: f in LiveFiles(files, fuzzy, req) && PosOf(Field(req), f) == p
  }

  ghost function RowAt(files: set<FileInfo>, fuzzy: Fuzzy, req: ListFilesRequest, p: Pos): (f: FileInfo)
    requires Occupied(files, fuzzy, req, p)
    ensures f in LiveFiles(files, fuzzy, req) && PosOf(Field(req), f) == p
  {
    var f :| f in LiveFiles(files, fuzzy, req) && PosOf(Field(req), f) == p; f
  }

  /**
   * For every sort field and direction, whatever is inserted, deleted or changed between pages: the walk
   * returns rows in strictly ascending order, and a row that matches throughout with the same id and sort
   * value, whatever its other columns do, exactly once.
   */
  lemma ListFilesStable(fuzzy: Fuzzy, req: ListFilesRequest, tables: seq<set<FileInfo>>, sizes: seq<nat>,
                        tokens: seq<Option<PageToken>>, pages: seq<seq<FileInfo>>)
    requires IsFilesWalk(fuzzy, req, tables, sizes, tokens, pages)
    ensures Sorted(Sort(req), Flatten(pages))
    ensures forall p :: (forall i :: 0 <= i < |tables| ==> Occupied(tables[i], fuzzy, req, p)) ==>
              multiset(Positions(Field(req), Flatten(pages)))[p] == 1
    ensures forall i :: 0 <= i < |pages| - 1 ==> |pages[i]| == NormalizePageSize(sizes[i])
  {
    var w := FilesWalkFinishes(fuzzy, req, tables, sizes, tokens, pages);
    FinishedWalkIsStable(fuzzy, req, tables, w);
  }

  lemma FinishedWalkIsStable(fuzzy: Fuzzy, req: ListFilesRequest, tables: seq<set<FileInfo>>, w: Walk<FileInfo>)
    requires Finished(Sort(req), w) && |w.live| == |tables|
    requires forall i :: 0 <= i < |tables| ==> w.live[i] == LiveFiles(tables[i], fuzzy, req)
    ensures Sorted(Sort(req), Flatten(w.pages))
    ensures forall p :: (forall i :: 0 <= i < |tables| ==> Occupied(tables[i], fuzzy, req, p)) ==>
              multiset(Positions(Field(req), Flatten(w.pages)))[p] == 1
  {
    var field, order := Field(req), Order(req);
    BeforeTransitive(field, order);
    WalkIsStable(Sort(req), w);
    forall p | forall i :: 0 <= i < |tables| ==> Occupied(tables[i], fuzzy, req, p)
      ensures multiset(Positions(field, Flatten(w.pages)))[p] == 1
    {
      var xs := seq(|tables|, i requires 0 <= i < |tables| => RowAt(tables[i], fuzzy, req, p));
      SteadyPositionOnce(field, order, w, xs, p);
    }
  }

  /** Rows that share a position, one from each table, are returned once between them. */
  lemma SteadyPositionOnce(field: SortField, order: SortOrder, w: Walk<FileInfo>, xs: seq<FileInfo>, p: Pos)
    requires Finished(Before(field, order), w) && Sorted(Before(field, order), Flatten(w.pages))
    requires |xs| == |w.live| && forall k :: 0 <= k < |xs| ==> xs[k] in w.live[k] && PosOf(field, xs[k]) == p
    ensures multiset(Positions(field, Flatten(w.pages)))[p] == 1
  {
    forall j, k | 0 <= j < |xs| && 0 <= k < |xs| ensures Tied(Before(field, order), xs[j], xs[k]) {
      TiedIsSamePosition(field, order, xs[j], xs[k]);
    }
    var k := SteadyRowReached(Before(field, order), w, xs, 0);
    PositionOnce(field, order, Flatten(w.pages), xs[k]);
  }

  lemma PositionOnce(field: SortField, order: SortOrder, rows: seq<FileInfo>, f: FileInfo)
    requires Sorted(Before(field, order), rows) && f in rows
    ensures multiset(Positions(field, rows))[PosOf(field, f)] == 1
  {
    var less := (a: Pos, b: Pos) => PosLess(order, a, b);
    var positions := Positions(field, rows);
    forall i, j | 0 <= i < j < |rows| ensures less(positions[i], positions[j]) {
      assert Before(field, order)(rows[i], rows[j]);
    }
    var i :| 0 <= i < |rows| && rows[i] == f;
    assert positions[i] == PosOf(field, f);
    PosOrder(order, positions[i], positions[i], positions[i]);
    SortedOnce(less, positions, positions[i]);
  }

  lemma {:induction false} SortedOnce<T>(less: (T, T) -> bool, r: seq<T>, x: T)
    requires Sorted(less, r) && x in r && !less(x, x)
    ensures multiset(r)[x] == 1
  {
    var i :| 0 <= i < |r| && r[i] == x;
    assert r == r[..i] + [x] + r[i + 1..];
    assert x !in r[..i] && x !in r[i + 1..];
  }

  /** Over a fixed table the walk is the sorted result, cut into pages. */
  lemma ListFilesComplete(fuzzy: Fuzzy, req: ListFilesRequest, table: set<FileInfo>, sizes: seq<nat>,
                          tokens: seq<Option<PageToken>>, pages: seq<seq<FileInfo>>)
    requires IsFilesWalk(fuzzy, req, seq(|sizes|, i => table), sizes, tokens, pages)
    ensures LinearOn(Sort(req), LiveFiles(table, fuzzy, req))
    ensures Flatten(pages) == Ordered(Sort(req), LiveFiles(table, fuzzy, req))
  {
    var w := FilesWalkFinishes(fuzzy, req, seq(|sizes|, i => table), sizes, tokens, pages);
    var field, order := Field(req), Order(req);
    BeforeTransitive(field, order);
    assert TableOk(table) by { assert TableOk(seq(|sizes|, i => table)[0]); }
    BeforeLinear(field, order, table);
    FixedWalkIsOrdered(Sort(req), w, LiveFiles(table, fuzzy, req));
  }

  // ---- In terms of the rows' own columns ------------------------------------------------------

  /** `f` comes before `g` as the request asks: by key if unspecified, and ascending unless descending is asked for. */
  predicate AskedBefore(field: SortField, order: SortOrder, f: FileInfo, g: FileInfo) {
    if order == Desc then Ascends(field, g, f) else Ascends(field, f, g)
  }

  /** Whatever the tables do between pages, the rows come in the order that was asked for. */
  lemma ListFilesInOrder(fuzzy: Fuzzy, req: ListFilesRequest, tables: seq<set<FileInfo>>, sizes: seq<nat>,
      tokens: seq<Option<PageToken>>, pages: seq<seq<FileInfo>>, i: nat, j: nat)
    requires IsFilesWalk(fuzzy, req, tables, sizes, tokens, pages) && i < j < |Flatten(pages)|
    ensures AskedBefore(req.field, req.order, Flatten(pages)[i], Flatten(pages)[j])
  {
    ListFilesStable(fuzzy, req, tables, sizes, tokens, pages);
    OrderMeans(Field(req), Order(req), Flatten(pages)[i], Flatten(pages)[j]);
  }

  /** The search asks for `f`: its key matches the text, and its content type the filter. */
  predicate Asked(fuzzy: Fuzzy, req: ListFilesRequest, f: FileInfo) {
    && (req.query == "" || fuzzy(req.query, f.key))
    && (req.contentType == "" ||
        (f.contentType.Some?
         && if req.contentType[|req.contentType| - 1] == '/' then req.contentType <= f.contentType.value
            else f.contentType.value == req.contentType))
  }

  /** Over a fixed table the walk returns exactly the rows that were asked for, each once. */
  lemma ListFilesReturns(fuzzy: Fuzzy, req: ListFilesRequest, table: set<FileInfo>, sizes: seq<nat>,
      tokens: seq<Option<PageToken>>, pages: seq<seq<FileInfo>>, f: FileInfo)
    requires IsFilesWalk(fuzzy, req, seq(|sizes|, i => table), sizes, tokens, pages)
    ensures multiset(Flatten(pages))[f] == if f in table && Asked(fuzzy, req, f) then 1 else 0
  {
    ListFilesComplete(fuzzy, req, table, sizes, tokens, pages);
    SelectedMeans(fuzzy, req.query, req.contentType, false, "", f);
    if f in LiveFiles(table, fuzzy, req) {
      SortedOnce(Sort(req), Flatten(pages), f);
    }
  }
}
