/** The search service's list queries, page tokens and endpoints. */
module Search {
  import opened Common
  import opened Ordering
  import opened Keyset
  import opened Paths
  import Like

  datatype SortField = FieldUnspecified | ByKey | ByLastModified | BySize | ByTakenAt
  datatype SortOrder = OrderUnspecified | Asc | Desc
  datatype Phase = PhaseUnspecified | DirectoriesPhase | FilesPhase

  /** A row of the `file_infos` read model; stat columns are NULL until the file is indexed. */
  datatype FileInfo = FileInfo(
    id: int, key: string, contentType: Option<string>, size: Option<int>,
    lastModified: Option<int>, effectiveTakenAt: int)

  /** The decoded page token; an absent field has its zero value. */
  datatype PageToken = PageToken(
    sortField: SortField, sortOrder: SortOrder, lastId: int,
    key: string, lastModified: int, size: int, takenAt: int,
    query: string, contentType: string, path: string, phase: Phase, lastDir: string)

  const EPOCH := 0
  const ZERO_TOKEN :=
    PageToken(FieldUnspecified, OrderUnspecified, 0, "", EPOCH, 0, EPOCH, "", "", "", PhaseUnspecified, "")
  const DEFAULT_PAGE_SIZE := 50
  const MAX_PAGE_SIZE := 200

  /** Primary key of `files`: ids are positive and identify rows. */
  ghost predicate TableOk(files: set<FileInfo>) {
    && (forall f :: f in files ==> f.id > 0)
    && (forall f, g :: f in files && g in files && f.id == g.id ==> f == g)
  }

  // ---- Sort positions -------------------------------------------------------------------------

  datatype Value = Text(s: string) | Number(n: int)

  /** The pair every list query orders by and compares cursors with. */
  datatype Pos = Pos(v: Value, id: int)

  predicate ValueLess(a: Value, b: Value) {
    match a
    case Text(s) => b.Number? || Less(s, b.s)
    case Number(n) => b.Number? && n < b.n
  }

  /** `(value, id)` row comparison, reversed for descending sorts. */
  predicate PosLess(order: SortOrder, a: Pos, b: Pos) {
    var lo, hi := if order == Desc then b else a, if order == Desc then a else b;
    ValueLess(lo.v, hi.v) || (lo.v == hi.v && lo.id < hi.id)
  }

  /** The ORDER BY expression of each list query, with its COALESCE. */
  function SortValue(field: SortField, f: FileInfo): Value {
    match field
    case ByLastModified => Number(if f.lastModified.Some? then f.lastModified.value else EPOCH)
    case BySize => Number(if f.size.Some? then f.size.value else 0)
    case ByTakenAt => Number(f.effectiveTakenAt)
    case _ => Text(f.key)
  }

  function PosOf(field: SortField, f: FileInfo): Pos {
    Pos(SortValue(field, f), f.id)
  }

  function Before(field: SortField, order: SortOrder): (FileInfo, FileInfo) -> bool {
    (f, g) => PosLess(order, PosOf(field, f), PosOf(field, g))
  }

  /** `f` comes before `g` in ascending order of a column, NULL counting as the epoch or 0, and then of the id. */
  predicate Ascends(field: SortField, f: FileInfo, g: FileInfo) {
    match field
    case ByLastModified =>
      var a := if f.lastModified.Some? then f.lastModified.value else EPOCH;
      var b := if g.lastModified.Some? then g.lastModified.value else EPOCH;
      a < b || (a == b && f.id < g.id)
    case BySize =>
      var a := if f.size.Some? then f.size.value else 0;
      var b := if g.size.Some? then g.size.value else 0;
      a < b || (a == b && f.id < g.id)
    case ByTakenAt =>
      var a, b := f.effectiveTakenAt, g.effectiveTakenAt;
      a < b || (a == b && f.id < g.id)
    case _ => Less(f.key, g.key) || (f.key == g.key && f.id < g.id)
  }

  /** Ascending orders ascend, by value and then by id, and descending ones are their reverse. */
  lemma OrderMeans(field: SortField, order: SortOrder, f: FileInfo, g: FileInfo)
    ensures Before(field, order)(f, g) <==> if order == Desc then Ascends(field, g, f) else Ascends(field, f, g)
  {
  }

  lemma ValueOrder(a: Value, b: Value, c: Value)
    ensures !ValueLess(a, a)
    ensures a != b ==> ValueLess(a, b) || ValueLess(b, a)
    ensures ValueLess(a, b) && ValueLess(b, c) ==> ValueLess(a, c)
  {
    if a.Text? {
      LessIrreflexive(a.s);
      if b.Text? {
        if a != b { LessTotal(a.s, b.s); }
        if c.Text? && Less(a.s, b.s) && Less(b.s, c.s) { LessTransitive(a.s, b.s, c.s); }
      }
    }
  }

  lemma PosOrder(order: SortOrder, a: Pos, b: Pos, c: Pos)
    ensures !PosLess(order, a, a)
    ensures a != b ==> PosLess(order, a, b) || PosLess(order, b, a)
    ensures PosLess(order, a, b) && PosLess(order, b, c) ==> PosLess(order, a, c)
  {
    ValueOrder(a.v, b.v, c.v);
    ValueOrder(c.v, b.v, a.v);
  }

  lemma BeforeTransitive(field: SortField, order: SortOrder)
    ensures Transitive(Before(field, order))
  {
    forall f, g, k | Before(field, order)(f, g) && Before(field, order)(g, k) ensures Before(field, order)(f, k) {
      PosOrder(order, PosOf(field, f), PosOf(field, g), PosOf(field, k));
    }
  }

  lemma BeforeLinear(field: SortField, order: SortOrder, files: set<FileInfo>)
    requires TableOk(files)
    ensures LinearOn(Before(field, order), files)
  {
    var less := Before(field, order);
    BeforeTransitive(field, order);
    forall f | f in files ensures !less(f, f) {
      PosOrder(order, PosOf(field, f), PosOf(field, f), PosOf(field, f));
    }
    forall f, g | f in files && g in files && f != g ensures less(f, g) || less(g, f) {
      PosOrder(order, PosOf(field, f), PosOf(field, g), PosOf(field, g));
    }
  }

  // ---- Tokens ---------------------------------------------------------------------------------

  function SetSortValue(c: PageToken, field: SortField, last: FileInfo): PageToken {
    match field
    case ByKey => c.(key := last.key)
    case ByLastModified => c.(lastModified := CoalesceLastModified(last))
    case BySize => c.(size := if last.size.Some? then last.size.value else 0)
    case ByTakenAt => c.(takenAt := last.effectiveTakenAt)
    case FieldUnspecified => c
  }

  function CoalesceLastModified(f: FileInfo): int {
    if f.lastModified.Some? then f.lastModified.value else EPOCH
  }

  function NewCursor(field: SortField, order: SortOrder, query: string, contentType: string,
      last: FileInfo): PageToken {
    SetSortValue(ZERO_TOKEN.(sortField := field, sortOrder := order, lastId := last.id,
                 query := query, contentType := contentType), field, last)
  }

  /** `last` is absent when the page held no file: id 0 then says "start of the files phase". */
  function NewDirFilesCursor(field: SortField, order: SortOrder, path: string, last: Option<FileInfo>): PageToken {
    var c := ZERO_TOKEN.(sortField := field, sortOrder := order, path := path, phase := FilesPhase);
    if last.None? then c else SetSortValue(c.(lastId := last.value.id), field, last.value)
  }

  function NewDirCursor(field: SortField, order: SortOrder, path: string, lastDir: string): PageToken {
    ZERO_TOKEN.(sortField := field, sortOrder := order, path := path, phase := DirectoriesPhase, lastDir := lastDir)
  }

  /** What the list queries compare rows against when a token has a file position. */
  function CursorPos(field: SortField, c: PageToken): Pos {
    Pos(match field
        case ByLastModified => Number(c.lastModified)
        case BySize => Number(c.size)
        case ByTakenAt => Number(c.takenAt)
        case _ => Text(c.key),
        c.lastId)
  }

  /** A token issued for a row compares exactly as the row does, in every sort. */
  lemma CursorStandsAtRow(field: SortField, order: SortOrder, query: string, contentType: string, path: string,
      last: FileInfo)
    requires field != FieldUnspecified
    ensures CursorPos(field, NewCursor(field, order, query, contentType, last)) == PosOf(field, last)
    ensures CursorPos(field, NewDirFilesCursor(field, order, path, Some(last))) == PosOf(field, last)
  {
  }

  // ---- List queries ---------------------------------------------------------------------------

  function NormalizeSort(field: SortField, order: SortOrder): (SortField, SortOrder) {
    (if field == FieldUnspecified then ByKey else field, if order == OrderUnspecified then Asc else order)
  }

  function NormalizePageSize(pageSize: nat): (limit: nat)
    ensures 1 <= limit <= MAX_PAGE_SIZE && (1 <= pageSize <= MAX_PAGE_SIZE ==> limit == pageSize)
    ensures (pageSize == 0 ==> limit == 50) && (pageSize > 200 ==> limit == 200)
  {
    if pageSize == 0 then DEFAULT_PAGE_SIZE else
    if pageSize > MAX_PAGE_SIZE then MAX_PAGE_SIZE else pageSize
  }

  /** The WHERE clause shared by the list queries. `fuzzy(q, k)` stands for `k ILIKE '%q%' OR k %> q`. */
  predicate Selected(fuzzy: (string, string) -> bool, query: string, contentType: string, directOnly: bool,
      dirPrefix: string, f: FileInfo) {
    && Like.Matches(if directOnly then Like.EscapeLike(dirPrefix) + "%" else "%", f.key)
    && (query == "" || fuzzy(query, f.key))
    && (Like.ContentTypeToPattern(contentType) == ""
        || (f.contentType.Some? && Like.Matches(Like.ContentTypeToPattern(contentType), f.contentType.value)))
    && (directOnly ==> '/' !in (if |dirPrefix| <= |f.key| then f.key[|dirPrefix|..] else ""))
  }

  /** What the WHERE clause keeps: the text match, the content type, and the files directly under a directory. */
  lemma SelectedMeans(fuzzy: (string, string) -> bool, query: string, contentType: string, directOnly: bool,
      dirPrefix: string, f: FileInfo)
    ensures Selected(fuzzy, query, contentType, directOnly, dirPrefix, f) <==>
              && (query == "" || fuzzy(query, f.key))
              && (contentType == "" ||
                  (f.contentType.Some?
                   && if contentType[|contentType| - 1] == '/' then contentType <= f.contentType.value
                      else f.contentType.value == contentType))
              && (directOnly ==> dirPrefix <= f.key && '/' !in f.key[|dirPrefix|..])
  {
    Like.PercentMatchesAll(f.key);
    Like.EscapedIsPrefixTest(dirPrefix, f.key);
    if contentType != "" && f.contentType.Some? {
      Like.ContentTypePatternMeaning(contentType, f.contentType.value);
    }
    if contentType != "" { Like.ContentTypePatternMeaning(contentType, ""); }
  }

  predicate PastCursor(field: SortField, order: SortOrder, cur: Option<PageToken>, f: FileInfo) {
    cur.Some? && cur.value.lastId != 0 ==> PosLess(order, CursorPos(field, cur.value), PosOf(field, f))
  }

  /** The rows a list query's WHERE clause keeps: selected, and past the cursor. */
  function OpenRows(files: set<FileInfo>, fuzzy: (string, string) -> bool, field: SortField, order: SortOrder,
                    query: string, contentType: string, directOnly: bool, dirPrefix: string,
                    cur: Option<PageToken>): set<FileInfo> {
    set f | f in files && Selected(fuzzy, query, contentType, directOnly, dirPrefix, f) &&
                PastCursor(field, order, cur, f)
  }

  function ListRows(files: set<FileInfo>, fuzzy: (string, string) -> bool, field: SortField, order: SortOrder,
                    query: string, contentType: string, directOnly: bool, dirPrefix: string,
                    cur: Option<PageToken>, limit: nat): seq<FileInfo>
    requires TableOk(files)
  {
    BeforeLinear(field, order, files);
    Take(Ordered(Before(field, order),
         OpenRows(files, fuzzy, field, order, query, contentType, directOnly, dirPrefix, cur)), limit)
  }

  function ListChildDirectories(directories: set<string>, parent: string, hasCursor: bool, after: string,
      limit: nat): seq<string>
    requires forall d :: d in directories ==> IsDirPath(d)
  {
    LessLinear(OpenChildren(directories, parent, hasCursor, after));
    Take(Ordered(Less, OpenChildren(directories, parent, hasCursor, after)), limit)
  }

  function OpenChildren(directories: set<string>, parent: string, hasCursor: bool, after: string): set<string>
    requires forall d :: d in directories ==> IsDirPath(d)
  {
    set d | d in directories && Parent(d) == parent && (hasCursor ==> Less(after, d))
  }

  // ---- Endpoints ------------------------------------------------------------------------------

  datatype ListFilesRequest = ListFilesRequest(
    query: string, contentType: string, field: SortField, order: SortOrder, pageSize: nat, token: Option<PageToken>)

  datatype FilesPage = FilesPage(files: seq<FileInfo>, next: Option<PageToken>)

  function ListFiles(files: set<FileInfo>, fuzzy: (string, string) -> bool, req: ListFilesRequest): Result<FilesPage>
    requires TableOk(files)
  {
    var (field, order) := NormalizeSort(req.field, req.order);
    var limit := NormalizePageSize(req.pageSize);
    if req.token.Some? && (req.token.value.sortField != field || req.token.value.sortOrder != order
        || req.token.value.query != req.query || req.token.value.contentType != req.contentType) then
      Err(InvalidArgument)
    else
      var rows := ListRows(files, fuzzy, field, order, req.query, req.contentType, false, "", req.token, limit + 1);
      Ok(PageFrom(field, order, req.query, req.contentType, limit, rows))
  }

  /** The page cut from the fetched rows; an extra row means another page. */
  function PageFrom(field: SortField, order: SortOrder, query: string, contentType: string, limit: nat,
      rows: seq<FileInfo>): FilesPage
    requires limit > 0
  {
    if |rows| > limit then FilesPage(rows[..limit], Some(NewCursor(field, order, query, contentType, rows[limit - 1])))
    else FilesPage(rows, None)
  }

  datatype ListDirectoryRequest = ListDirectoryRequest(
    path: string, field: SortField, order: SortOrder, pageSize: nat, token: Option<PageToken>)

  datatype DirectoryPage = DirectoryPage(directories: seq<string>, files: seq<FileInfo>, next: Option<PageToken>)

  const NO_TEXT: (string, string) -> bool := (q, k) => false

  function ListDirectory(directories: set<string>, files: set<FileInfo>,
      req: ListDirectoryRequest): Result<DirectoryPage>
    requires TableOk(files) && forall d :: d in directories ==> IsDirPath(d)
  {
    var normalized := NormalizeDirPath(req.path);
    if normalized.Err? then Err(normalized.error) else
    var path := normalized.value;
    var (field, order) := NormalizeSort(req.field, req.order);
    var limit := NormalizePageSize(req.pageSize);
    if req.token.Some? && (req.token.value.path != path || req.token.value.sortField != field ||
                           req.token.value.sortOrder != order) then
      Err(InvalidArgument)
    else
      Ok(BrowsePage(directories, files, field, order, path, req.token, limit))
  }

  /** The two phases of a validated request. */
  function BrowsePage(directories: set<string>, files: set<FileInfo>, field: SortField, order: SortOrder, path: string,
                      token: Option<PageToken>, limit: nat): DirectoryPage
    requires TableOk(files) && limit > 0 && forall d :: d in directories ==> IsDirPath(d)
  {
    if token.None? || token.value.phase == DirectoriesPhase then
      var after := if token.Some? then token.value.lastDir else "";
      DirectoriesOfPage(files, field, order, path, limit,
                        ListChildDirectories(directories, path, token.Some?, after, limit + 1))
    else
      FilesOfPage(files, field, order, path, token, limit, [])
  }

  /** The directories phase: a full page of directories, or all the rest of them and then files from the start. */
  function DirectoriesOfPage(files: set<FileInfo>, field: SortField, order: SortOrder, path: string, limit: nat,
      fetched: seq<string>): DirectoryPage
    requires TableOk(files) && limit > 0
  {
    if |fetched| > limit then
      DirectoryPage(fetched[..limit], [], Some(NewDirCursor(field, order, path, fetched[limit - 1])))
    else
      FilesOfPage(files, field, order, path, None, limit - |fetched|, fetched)
  }

  /** The files phase: the remaining room on the page, plus one row to see whether another page exists. */
  function FilesOfPage(files: set<FileInfo>, field: SortField, order: SortOrder, path: string, cur: Option<PageToken>,
      remaining: nat, dirs: seq<string>): DirectoryPage
    requires TableOk(files)
  {
    FilesFrom(field, order, path, remaining, dirs,
              ListRows(files, NO_TEXT, field, order, "", "", true, path, cur, remaining + 1))
  }

  function FilesFrom(field: SortField, order: SortOrder, path: string, remaining: nat, dirs: seq<string>,
      rows: seq<FileInfo>): DirectoryPage {
    if |rows| > remaining then
      var last := if remaining > 0 then Some(rows[remaining - 1]) else None;
      DirectoryPage(dirs, rows[..remaining], Some(NewDirFilesCursor(field, order, path, last)))
    else
      DirectoryPage(dirs, rows, None)
  }
}
