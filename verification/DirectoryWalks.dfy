/** Two-phase browsing: child directories, then direct files, in one page sequence. */
module DirectoryWalks {
  import opened Common
  import opened Ordering
  import opened Keyset
  import opened Paths
  import opened Search
  import opened SearchWalks

  datatype Item = DirItem(path: string) | FileItem(file: FileInfo)

  /** Directories first and alphabetical, then files in the requested sort. */
  function ItemBefore(field: SortField, order: SortOrder): (Item, Item) -> bool {
    (a: Item, b: Item) =>
      match a
      case DirItem(p) => b.FileItem? || Less(p, b.path)
      case FileItem(f) => b.FileItem? && Before(field, order)(f, b.file)
  }

  /** Where an entry stands in a listing: its path, or its sort value and id. */
  datatype Slot = DirSlot(path: string) | FileSlot(pos: Pos)

  function SlotOf(field: SortField, x: Item): Slot {
    match x
    case DirItem(p) => DirSlot(p)
    case FileItem(f) => FileSlot(PosOf(field, f))
  }

  function Dirs(s: set<string>): set<Item> {
    set d | d in s :: DirItem(d)
  }

  function Rows(s: set<FileInfo>): set<Item> {
    set f | f in s :: FileItem(f)
  }

  function DirItems(s: seq<string>): (r: seq<Item>)
    ensures |r| == |s| && forall i :: 0 <= i < |s| ==> r[i] == DirItem(s[i])
  {
    seq(|s|, i requires 0 <= i < |s| => DirItem(s[i]))
  }

  function FileItems(s: seq<FileInfo>): (r: seq<Item>)
    ensures |r| == |s| && forall i :: 0 <= i < |s| ==> r[i] == FileItem(s[i])
  {
    seq(|s|, i requires 0 <= i < |s| => FileItem(s[i]))
  }

  function ItemsOf(p: DirectoryPage): seq<Item> {
    DirItems(p.directories) + FileItems(p.files)
  }

  // ---- The items of a directory and those behind a token --------------------------------------

  ghost predicate TablesOk(directories: set<string>, files: set<FileInfo>) {
    TableOk(files) && forall d :: d in directories ==> IsDirPath(d)
  }

  function ChildDirs(directories: set<string>, path: string): set<string>
    requires forall d :: d in directories ==> IsDirPath(d)
  {
    set d | d in directories && Parent(d) == path
  }

  function DirectFiles(files: set<FileInfo>, path: string): set<FileInfo> {
    set f | f in files && Selected(NO_TEXT, "", "", true, path, f)
  }

  function LiveItems(directories: set<string>, files: set<FileInfo>, path: string): set<Item>
    requires forall d :: d in directories ==> IsDirPath(d)
  {
    Dirs(ChildDirs(directories, path)) + Rows(DirectFiles(files, path))
  }

  /** In the directories phase all files are still to come; in the files phase all directories are done. */
  function OpenItems(directories: set<string>, files: set<FileInfo>, field: SortField, order: SortOrder, path: string,
      token: Option<PageToken>): set<Item>
    requires forall d :: d in directories ==> IsDirPath(d)
  {
    if token.None? then LiveItems(directories, files, path) else
    if token.value.phase == DirectoriesPhase then
      Dirs(OpenChildren(directories, path, true, token.value.lastDir)) + Rows(DirectFiles(files, path))
    else
      Rows(OpenRows(files, NO_TEXT, field, order, "", "", true, path, token))
  }

  lemma ItemTransitive(field: SortField, order: SortOrder)
    ensures Transitive(ItemBefore(field, order))
  {
    BeforeTransitive(field, order);
    forall p, q, r | Less(p, q) && Less(q, r) ensures Less(p, r) { LessTransitive(p, q, r); }
  }

  /** Entries tie exactly when they stand at the same place. */
  lemma TiedIsSameSlot(field: SortField, order: SortOrder, x: Item, y: Item)
    ensures Tied(ItemBefore(field, order), x, y) <==> SlotOf(field, x) == SlotOf(field, y)
  {
    if x.DirItem? && y.DirItem? {
      LessIrreflexive(x.path);
      if x != y { LessTotal(x.path, y.path); }
    } else if x.FileItem? && y.FileItem? {
      TiedIsSamePosition(field, order, x.file, y.file);
    }
  }

  lemma ItemLinear(field: SortField, order: SortOrder, ds: set<string>, fs: set<FileInfo>)
    requires TableOk(fs)
    ensures LinearOn(ItemBefore(field, order), Dirs(ds) + Rows(fs))
  {
    ItemTransitive(field, order);
    LessLinear(ds);
    BeforeLinear(field, order, fs);
  }

  /** Sorting the items is sorting each kind by itself, directories in front. */
  lemma ItemsInOrder(field: SortField, order: SortOrder, ds: set<string>, fs: set<FileInfo>)
    requires TableOk(fs)
    ensures LinearOn(ItemBefore(field, order), Dirs(ds) + Rows(fs))
    ensures LinearOn(Less, ds) && LinearOn(Before(field, order), fs)
    ensures Ordered(ItemBefore(field, order), Dirs(ds) + Rows(fs))
         == DirItems(Ordered(Less, ds)) + FileItems(Ordered(Before(field, order), fs))
  {
    var less := ItemBefore(field, order);
    ItemLinear(field, order, ds, fs);
    LessLinear(ds);
    BeforeLinear(field, order, fs);
    var a, b := DirItems(Ordered(Less, ds)), FileItems(Ordered(Before(field, order), fs));
    forall x ensures x in a + b <==> x in Dirs(ds) + Rows(fs) {
      DirItemsHas(Ordered(Less, ds), x);
      FileItemsHas(Ordered(Before(field, order), fs), x);
    }
    assert Sorted(less, a) && Sorted(less, b);
    SortedConcat(less, a, b);
    SortedUnique(less, Dirs(ds) + Rows(fs), a + b, Ordered(less, Dirs(ds) + Rows(fs)));
  }

  lemma DirItemsHas(s: seq<string>, x: Item)
    ensures x in DirItems(s) <==> x.DirItem? && x.path in s
  {
    if x.DirItem? && x.path in s {
      var i :| 0 <= i < |s| && s[i] == x.path;
      assert DirItems(s)[i] == x;
    }
  }

  lemma FileItemsHas(s: seq<FileInfo>, x: Item)
    ensures x in FileItems(s) <==> x.FileItem? && x.file in s
  {
    if x.FileItem? && x.file in s {
      var i :| 0 <= i < |s| && s[i] == x.file;
      assert FileItems(s)[i] == x;
    }
  }

  // ---- One page -------------------------------------------------------------------------------

  function Normal(req: ListDirectoryRequest): (SortField, SortOrder) {
    NormalizeSort(req.field, req.order)
  }

  function ItemSort(req: ListDirectoryRequest): (Item, Item) -> bool {
    ItemBefore(Normal(req).0, Normal(req).1)
  }

  function OpenAt(directories: set<string>, files: set<FileInfo>, req: ListDirectoryRequest,
      token: Option<PageToken>): set<Item>
    requires forall d :: d in directories ==> IsDirPath(d)
    requires NormalizeDirPath(req.path).Ok?
  {
    OpenItems(directories, files, Normal(req).0, Normal(req).1, NormalizeDirPath(req.path).value, token)
  }

  /** The next page starts right behind `last`: nothing before it is open again, nothing behind it is lost. */
  ghost predicate HandsOn(req: ListDirectoryRequest, open: set<Item>, next: Option<PageToken>, last: Item)
    requires NormalizeDirPath(req.path).Ok?
  {
    forall directories, files :: TablesOk(directories, files) ==>
      && (forall x :: x in OpenAt(directories, files, req, next) ==> ItemSort(req)(last, x))
      && (forall x, y :: x in open && ItemSort(req)(last, x) && Tied(ItemSort(req), x, y)
                         && y in LiveItems(directories, files, NormalizeDirPath(req.path).value) ==>
            y in OpenAt(directories, files, req, next))
  }

  /** Cutting the combined order at the page size is cutting inside one of the two phases. */
  lemma TakeItems(rd: seq<string>, rf: seq<FileInfo>, limit: nat)
    ensures |rd| > limit ==> Take(DirItems(rd) + FileItems(rf), limit) == DirItems(Take(rd, limit))
    ensures |rd| <= limit ==>
                Take(DirItems(rd) + FileItems(rf), limit) == DirItems(rd) + FileItems(Take(rf, limit - |rd|))
  {
  }

  /** The page built from the open directories and files, each in order. */
  function PageOf(field: SortField, order: SortOrder, path: string, limit: nat, rd: seq<string>,
      rf: seq<FileInfo>): DirectoryPage
    requires limit > 0
  {
    if |rd| > limit then
      DirectoryPage(Take(rd, limit), [], Some(NewDirCursor(field, order, path, rd[limit - 1])))
    else
      var remaining := limit - |rd|;
      if |rf| > remaining then
        DirectoryPage(rd, Take(rf, remaining),
          Some(NewDirFilesCursor(field, order, path, if remaining > 0 then Some(rf[remaining - 1]) else None)))
      else DirectoryPage(rd, rf, None)
  }

  lemma FilesOfPageShape(files: set<FileInfo>, field: SortField, order: SortOrder, path: string,
      cur: Option<PageToken>, limit: nat, rd: seq<string>)
    requires TableOk(files) && limit > 0 && |rd| <= limit
    ensures LinearOn(Before(field, order), OpenRows(files, NO_TEXT, field, order, "", "", true, path, cur))
    ensures FilesOfPage(files, field, order, path, cur, limit - |rd|, rd)
         == PageOf(field, order, path, limit, rd,
                   Ordered(Before(field, order), OpenRows(files, NO_TEXT, field, order, "", "", true, path, cur)))
  {
    BeforeLinear(field, order, files);
    FilesFromShape(field, order, path, limit, rd,
                   Ordered(Before(field, order), OpenRows(files, NO_TEXT, field, order, "", "", true, path, cur)));
  }

  lemma FilesFromShape(field: SortField, order: SortOrder, path: string, limit: nat, rd: seq<string>, rf: seq<FileInfo>)
    requires limit > 0 && |rd| <= limit
    ensures FilesFrom(field, order, path, limit - |rd|, rd, Take(rf, limit - |rd| + 1))
         == PageOf(field, order, path, limit, rd, rf)
  {
    Lookahead(rf, limit - |rd|);
  }

  /** The open directories behind a token: none once the files phase has begun. */
  function OpenDirs(directories: set<string>, path: string, token: Option<PageToken>): set<string>
    requires forall d :: d in directories ==> IsDirPath(d)
  {
    if token.None? then OpenChildren(directories, path, false, "") else
    if token.value.phase == DirectoriesPhase then OpenChildren(directories, path, true, token.value.lastDir) else {}
  }

  /** The open files behind a token: all of them during the directories phase. */
  function OpenFilesIn(files: set<FileInfo>, field: SortField, order: SortOrder, path: string,
      token: Option<PageToken>): set<FileInfo> {
    if token.Some? && token.value.phase != DirectoriesPhase then
      OpenRows(files, NO_TEXT, field, order, "", "", true, path, token)
    else OpenRows(files, NO_TEXT, field, order, "", "", true, path, None)
  }

  lemma ChildrenFetched(directories: set<string>, path: string, token: Option<PageToken>, limit: nat)
    returns (rd: seq<string>)
    requires forall d :: d in directories ==> IsDirPath(d)
    requires token.None? || token.value.phase == DirectoriesPhase
    ensures LinearOn(Less, OpenDirs(directories, path, token))
    ensures rd == Ordered(Less, OpenDirs(directories, path, token))
    ensures ListChildDirectories(directories, path, token.Some?, if token.Some? then token.value.lastDir else "", limit)
         == Take(rd, limit)
  {
    LessLinear(OpenDirs(directories, path, token));
    rd := Ordered(Less, OpenDirs(directories, path, token));
  }

  lemma FilesPhaseShape(directories: set<string>, files: set<FileInfo>, field: SortField, order: SortOrder,
      path: string, token: PageToken, limit: nat)
    requires TablesOk(directories, files) && limit > 0 && token.phase != DirectoriesPhase
    ensures LinearOn(Before(field, order), OpenFilesIn(files, field, order, path, Some(token)))
    ensures BrowsePage(directories, files, field, order, path, Some(token), limit)
         == PageOf(field, order, path, limit, [],
                   Ordered(Before(field, order), OpenFilesIn(files, field, order, path, Some(token))))
  {
    assert BrowsePage(directories, files, field, order, path, Some(token), limit)
        == FilesOfPage(files, field, order, path, Some(token), limit, []);
    FilesOfPageShape(files, field, order, path, Some(token), limit, []);
  }

  lemma DirectoriesOfPageShape(files: set<FileInfo>, field: SortField, order: SortOrder, path: string, limit: nat,
      rd: seq<string>)
    requires TableOk(files) && limit > 0
    ensures LinearOn(Before(field, order), OpenRows(files, NO_TEXT, field, order, "", "", true, path, None))
    ensures DirectoriesOfPage(files, field, order, path, limit, Take(rd, limit + 1))
         == PageOf(field, order, path, limit, rd,
                   Ordered(Before(field, order), OpenRows(files, NO_TEXT, field, order, "", "", true, path, None)))
  {
    Lookahead(rd, limit);
    if |rd| > limit {
      BeforeLinear(field, order, files);
    } else {
      FilesOfPageShape(files, field, order, path, None, limit, rd);
    }
  }

  lemma BrowsePageShape(directories: set<string>, files: set<FileInfo>, field: SortField, order: SortOrder,
      path: string, token: Option<PageToken>, limit: nat)
      returns (rd: seq<string>, rf: seq<FileInfo>)
    requires TablesOk(directories, files) && limit > 0
    ensures LinearOn(Less, OpenDirs(directories, path, token))
    ensures LinearOn(Before(field, order), OpenFilesIn(files, field, order, path, token))
    ensures rd == Ordered(Less, OpenDirs(directories, path, token))
    ensures rf == Ordered(Before(field, order), OpenFilesIn(files, field, order, path, token))
    ensures BrowsePage(directories, files, field, order, path, token, limit)
         == PageOf(field, order, path, limit, rd, rf)
  {
    if token.None? || token.value.phase == DirectoriesPhase {
      rd := ChildrenFetched(directories, path, token, limit + 1);
      DirectoriesOfPageShape(files, field, order, path, limit, rd);
    } else {
      FilesPhaseShape(directories, files, field, order, path, token.value, limit);
      assert OpenDirs(directories, path, token) == {};
    }
    rd := Ordered(Less, OpenDirs(directories, path, token));
    rf := Ordered(Before(field, order), OpenFilesIn(files, field, order, path, token));
  }

  lemma OpenSplits(directories: set<string>, files: set<FileInfo>, field: SortField, order: SortOrder, path: string,
      token: Option<PageToken>)
    requires TablesOk(directories, files)
    ensures OpenItems(directories, files, field, order, path, token)
         == Dirs(OpenDirs(directories, path, token)) + Rows(OpenFilesIn(files, field, order, path, token))
  {
    assert OpenChildren(directories, path, false, "") == ChildDirs(directories, path);
    assert OpenRows(files, NO_TEXT, field, order, "", "", true, path, None) == DirectFiles(files, path);
    assert Dirs({}) == {};
  }

  predicate SlotLess(order: SortOrder, a: Slot, b: Slot) {
    match a
    case DirSlot(p) => b.FileSlot? || Less(p, b.path)
    case FileSlot(p) => b.FileSlot? && PosLess(order, p, b.pos)
  }

  lemma SlotsDecide(field: SortField, order: SortOrder, x: Item, y: Item)
    ensures ItemBefore(field, order)(x, y) <==> SlotLess(order, SlotOf(field, x), SlotOf(field, y))
  {
    if x.FileItem? && y.FileItem? {
      assert Before(field, order)(x.file, y.file) <==> PosLess(order, PosOf(field, x.file), PosOf(field, y.file));
    }
  }

  /** An entry tied with one behind `last` is itself behind `last`, so the cursor lets it through. */
  lemma TiedIsBehind(field: SortField, order: SortOrder, last: Item, x: Item, y: Item)
    requires ItemBefore(field, order)(last, x) && Tied(ItemBefore(field, order), x, y)
    ensures ItemBefore(field, order)(last, y)
  {
    TiedIsSameSlot(field, order, x, y);
    SlotsDecide(field, order, last, x);
    SlotsDecide(field, order, last, y);
  }

  /** The token lets through exactly what is behind `last`. */
  ghost predicate Exact(req: ListDirectoryRequest, next: Option<PageToken>, last: Item, directories: set<string>,
      files: set<FileInfo>)
    requires NormalizeDirPath(req.path).Ok?
  {
    TablesOk(directories, files) ==>
      forall y :: y in OpenAt(directories, files, req, next) <==>
        y in LiveItems(directories, files, NormalizeDirPath(req.path).value) && ItemSort(req)(last, y)
  }

  lemma ExactCursorHandsOn(req: ListDirectoryRequest, open: set<Item>, next: Option<PageToken>, last: Item)
    requires NormalizeDirPath(req.path).Ok?
    requires forall directories, files :: Exact(req, next, last, directories, files)
    ensures HandsOn(req, open, next, last)
  {
    assert forall directories, files :: TablesOk(directories, files) ==> Exact(req, next, last, directories, files);
    forall x, y | ItemSort(req)(last, x) && Tied(ItemSort(req), x, y) ensures ItemSort(req)(last, y) {
      TiedIsBehind(Normal(req).0, Normal(req).1, last, x, y);
    }
  }

  lemma DirCursorHandsOn(req: ListDirectoryRequest, open: set<Item>, d: string)
    requires NormalizeDirPath(req.path).Ok?
    ensures HandsOn(req, open,
                    Some(NewDirCursor(Normal(req).0, Normal(req).1, NormalizeDirPath(req.path).value, d)), DirItem(d))
  {
    var next := Some(NewDirCursor(Normal(req).0, Normal(req).1, NormalizeDirPath(req.path).value, d));
    forall directories, files ensures Exact(req, next, DirItem(d), directories, files) { }
    ExactCursorHandsOn(req, open, next, DirItem(d));
  }

  lemma FileCursorHandsOn(req: ListDirectoryRequest, open: set<Item>, f: FileInfo)
    requires NormalizeDirPath(req.path).Ok? && f.id > 0
    ensures HandsOn(req, open,
            Some(NewDirFilesCursor(Normal(req).0, Normal(req).1, NormalizeDirPath(req.path).value, Some(f))),
            FileItem(f))
  {
    var (field, order) := Normal(req);
    var path := NormalizeDirPath(req.path).value;
    CursorStandsAtRow(field, order, "", "", path, f);
    assert StandsAt(field, order, Some(NewDirFilesCursor(field, order, path, Some(f))), f);
    var next := Some(NewDirFilesCursor(field, order, path, Some(f)));
    forall directories, files ensures Exact(req, next, FileItem(f), directories, files) { }
    ExactCursorHandsOn(req, open, next, FileItem(f));
  }

  /** The id-0 sentinel: directories filled the page exactly, and every file is still to come. */
  lemma SentinelHandsOn(req: ListDirectoryRequest, ds: set<string>, fs: set<FileInfo>, d: string)
    requires NormalizeDirPath(req.path).Ok? && forall e :: e in ds ==> e == d || Less(e, d)
    ensures HandsOn(req, Dirs(ds) + Rows(fs),
            Some(NewDirFilesCursor(Normal(req).0, Normal(req).1, NormalizeDirPath(req.path).value, None)), DirItem(d))
  {
    forall e | e in ds ensures !Less(d, e) {
      LessIrreflexive(d);
      if e != d && Less(d, e) { LessTransitive(d, e, d); }
    }
  }

  /** What a page must be, given the open items in order. */
  ghost predicate PageSpec(req: ListDirectoryRequest, open: set<Item>, r: seq<Item>, p: DirectoryPage)
    requires NormalizeDirPath(req.path).Ok?
  {
    var limit := NormalizePageSize(req.pageSize);
    && ItemsOf(p) == Take(r, limit)
    && (p.next.Some? <==> |r| > limit)
    && (p.next.Some? ==> HandsOn(req, open, p.next, r[limit - 1]))
  }

  lemma PageOfMeetsSpec(req: ListDirectoryRequest, ds: set<string>, fs: set<FileInfo>, rd: seq<string>,
      rf: seq<FileInfo>)
    requires NormalizeDirPath(req.path).Ok? && Sorted(Less, rd)
    requires forall d :: d in ds ==> d in rd
    requires forall f :: f in rf ==> f.id > 0
    ensures PageSpec(req, Dirs(ds) + Rows(fs), DirItems(rd) + FileItems(rf),
                     PageOf(Normal(req).0, Normal(req).1, NormalizeDirPath(req.path).value,
                            NormalizePageSize(req.pageSize), rd, rf))
  {
    var limit := NormalizePageSize(req.pageSize);
    PageItems(Normal(req).0, Normal(req).1, NormalizeDirPath(req.path).value, limit, rd, rf);
    if |rd| + |rf| > limit { TokenHandsOn(req, ds, fs, rd, rf, limit); }
  }

  /** The token of a page with more behind it hands on at its last item, whichever kind that is. */
  lemma TokenHandsOn(req: ListDirectoryRequest, ds: set<string>, fs: set<FileInfo>, rd: seq<string>, rf: seq<FileInfo>,
      limit: nat)
    requires NormalizeDirPath(req.path).Ok? && Sorted(Less, rd) && 0 < limit < |rd| + |rf|
    requires (forall d :: d in ds ==> d in rd) && forall f :: f in rf ==> f.id > 0
    ensures HandsOn(req, Dirs(ds) + Rows(fs),
                    PageOf(Normal(req).0, Normal(req).1, NormalizeDirPath(req.path).value, limit, rd, rf).next,
                    if |rd| >= limit then DirItem(rd[limit - 1]) else FileItem(rf[limit - |rd| - 1]))
  {
    if |rd| > limit {
      DirCursorHandsOn(req, Dirs(ds) + Rows(fs), rd[limit - 1]);
    } else if |rd| < limit {
      assert rf[limit - |rd| - 1] in rf;
      FileCursorHandsOn(req, Dirs(ds) + Rows(fs), rf[limit - |rd| - 1]);
    } else {
      SentinelHandsOn(req, ds, fs, rd[limit - 1]);
    }
  }

  /** The items on a page, its last item, and when it has a token. */
  lemma PageItems(field: SortField, order: SortOrder, path: string, limit: nat, rd: seq<string>, rf: seq<FileInfo>)
    requires limit > 0
    ensures var p, r := PageOf(field, order, path, limit, rd, rf), DirItems(rd) + FileItems(rf);
            && ItemsOf(p) == Take(r, limit) && (p.next.Some? <==> |r| > limit)
            && (|r| > limit ==>
                  r[limit - 1] == if |rd| >= limit then DirItem(rd[limit - 1]) else FileItem(rf[limit - |rd| - 1]))
  {
    TakeItems(rd, rf, limit);
    PageCuts(field, order, path, limit, rd, rf);
    assert FileItems([]) == [];
  }

  /** What `PageOf` puts on the page, in each of its cases. */
  lemma PageCuts(field: SortField, order: SortOrder, path: string, limit: nat, rd: seq<string>, rf: seq<FileInfo>)
    requires limit > 0
    ensures var p := PageOf(field, order, path, limit, rd, rf);
            && (p.next.Some? <==> |rd| + |rf| > limit)
            && (|rd| > limit ==> p.directories == Take(rd, limit) && p.files == [])
            && (|rd| <= limit ==> p.directories == rd && p.files == Take(rf, limit - |rd|))
  {
  }

  /** A page is the first `limit` open items, whichever phases it spans, with a token iff there are more. */
  lemma ListDirectoryPage(directories: set<string>, files: set<FileInfo>, req: ListDirectoryRequest)
    requires TablesOk(directories, files) && ListDirectory(directories, files, req).Ok?
    ensures NormalizeDirPath(req.path).Ok?
    ensures var open := OpenAt(directories, files, req, req.token);
            && LinearOn(ItemSort(req), open)
            && PageSpec(req, open, Ordered(ItemSort(req), open), ListDirectory(directories, files, req).value)
  {
    var (field, order) := Normal(req);
    var path := NormalizeDirPath(req.path).value;
    var ds, fs := OpenDirs(directories, path, req.token), OpenFilesIn(files, field, order, path, req.token);
    OpenSplits(directories, files, field, order, path, req.token);
    var rd, rf := BrowsePageShape(directories, files, field, order, path, req.token, NormalizePageSize(req.pageSize));
    ItemsInOrder(field, order, ds, fs);
    PageOfMeetsSpec(req, ds, fs, rd, rf);
  }

  // ---- Walks ----------------------------------------------------------------------------------

  function PageAt(req: ListDirectoryRequest, pageSize: nat, token: Option<PageToken>): ListDirectoryRequest {
    req.(pageSize := pageSize, token := token)
  }

  function AllItems(pages: seq<DirectoryPage>): (r: seq<seq<Item>>)
    ensures |r| == |pages| && forall i :: 0 <= i < |pages| ==> r[i] == ItemsOf(pages[i])
  {
    seq(|pages|, i requires 0 <= i < |pages| => ItemsOf(pages[i]))
  }

  /** The endpoint answers a call of a walk with `page`. */
  ghost predicate Answers(req: ListDirectoryRequest, directories: set<string>, files: set<FileInfo>, size: nat,
      token: Option<PageToken>, page: DirectoryPage) {
    TablesOk(directories, files) && ListDirectory(directories, files, PageAt(req, size, token)) == Ok(page)
  }

  /** A client's walk over one directory, with tables that may change from page to page. */
  ghost predicate IsDirectoryWalk(req: ListDirectoryRequest, ds: seq<set<string>>, fs: seq<set<FileInfo>>,
      sizes: seq<nat>,
                                  tokens: seq<Option<PageToken>>, pages: seq<DirectoryPage>) {
    var n := |pages|;
    && n > 0 && |ds| == n && |fs| == n && |sizes| == n && |tokens| == n + 1
    && tokens[0] == None && tokens[n] == None
    && (forall i :: 0 < i < n ==> tokens[i].Some?)
    && (forall i :: 0 <= i < n ==> pages[i].next == tokens[i + 1])
    && (forall i :: 0 <= i < n ==> Answers(req, ds[i], fs[i], sizes[i], tokens[i], pages[i]))
  }

  ghost predicate ContinuesOver(req: ListDirectoryRequest, open: set<Item>, page: DirectoryPage,
      directories: set<string>, files: set<FileInfo>)
    requires NormalizeDirPath(req.path).Ok? && TablesOk(directories, files)
  {
    Continues(ItemSort(req), LiveItems(directories, files, NormalizeDirPath(req.path).value),
              open, OpenAt(directories, files, req, page.next), ItemsOf(page))
  }

  /** What one page contributes to a walk, in terms of the items open to it and whatever tables come next. */
  ghost predicate PageFacts(req: ListDirectoryRequest, directories: set<string>, files: set<FileInfo>, size: nat,
      token: Option<PageToken>, page: DirectoryPage) {
    && NormalizeDirPath(req.path).Ok? && TablesOk(directories, files)
    && var open, live := OpenAt(directories, files, req, token),
                         LiveItems(directories, files, NormalizeDirPath(req.path).value);
       && Sorted(ItemSort(req), ItemsOf(page)) && (forall x :: x in ItemsOf(page) ==> x in open)
       && open <= live && (token.None? ==> open == live)
       && (page.next.None? ==> Covers(ItemsOf(page), open))
       && (page.next.Some? ==> |ItemsOf(page)| == NormalizePageSize(size))
       && (page.next.Some? ==> forall d, f :: TablesOk(d, f) ==> ContinuesOver(req, open, page, d, f))
  }

  lemma SpecGivesFacts(req: ListDirectoryRequest, directories: set<string>, files: set<FileInfo>, page: DirectoryPage)
    requires NormalizeDirPath(req.path).Ok? && TablesOk(directories, files)
    requires var open := OpenAt(directories, files, req, req.token);
             LinearOn(ItemSort(req), open) && PageSpec(req, open, Ordered(ItemSort(req), open), page)
    ensures PageFacts(req, directories, files, req.pageSize, req.token, page)
  {
    var open := OpenAt(directories, files, req, req.token);
    var r, limit := Ordered(ItemSort(req), open), NormalizePageSize(req.pageSize);
    TakeIsFirst(ItemSort(req), r, limit);
    if page.next.Some? {
      ItemTransitive(Normal(req).0, Normal(req).1);
      forall d, f | TablesOk(d, f) ensures ContinuesOver(req, open, page, d, f) {
        FullPageContinues(ItemSort(req), open, limit,
                          LiveItems(d, f, NormalizeDirPath(req.path).value), OpenAt(d, f, req, page.next));
      }
    }
  }

  /** Page size and token are the two arguments that may change from call to call. */
  lemma FactsIgnorePosition(req: ListDirectoryRequest, size: nat, token: Option<PageToken>, directories: set<string>,
      files: set<FileInfo>, page: DirectoryPage)
    requires PageFacts(PageAt(req, size, token), directories, files, size, token, page)
    ensures PageFacts(req, directories, files, size, token, page)
  {
    var reqI := PageAt(req, size, token);
    if page.next.Some? {
      forall d, f | TablesOk(d, f) ensures ContinuesOver(req, OpenAt(directories, files, req, token), page, d, f) {
        assert ContinuesOver(reqI, OpenAt(directories, files, reqI, token), page, d, f);
      }
    }
  }

  lemma WalkPage(req: ListDirectoryRequest, directories: set<string>, files: set<FileInfo>, size: nat,
      token: Option<PageToken>, page: DirectoryPage)
    requires Answers(req, directories, files, size, token, page)
    ensures PageFacts(req, directories, files, size, token, page)
  {
    ListDirectoryPage(directories, files, PageAt(req, size, token));
    SpecGivesFacts(PageAt(req, size, token), directories, files, page);
    FactsIgnorePosition(req, size, token, directories, files, page);
  }

  ghost predicate WalkFacts(req: ListDirectoryRequest, ds: seq<set<string>>, fs: seq<set<FileInfo>>, sizes: seq<nat>,
                            tokens: seq<Option<PageToken>>, pages: seq<DirectoryPage>) {
    var n := |pages|;
    && n > 0 && |ds| == n && |fs| == n && |sizes| == n && |tokens| == n + 1
    && tokens[0] == None && tokens[n] == None
    && (forall i :: 0 < i < n ==> tokens[i].Some?)
    && (forall i :: 0 <= i < n ==> pages[i].next == tokens[i + 1])
    && (forall i :: 0 <= i < n ==> PageFacts(req, ds[i], fs[i], sizes[i], tokens[i], pages[i]))
  }

  lemma WalkHasFacts(req: ListDirectoryRequest, ds: seq<set<string>>, fs: seq<set<FileInfo>>, sizes: seq<nat>,
                     tokens: seq<Option<PageToken>>, pages: seq<DirectoryPage>)
    requires IsDirectoryWalk(req, ds, fs, sizes, tokens, pages)
    ensures WalkFacts(req, ds, fs, sizes, tokens, pages)
  {
    forall i | 0 <= i < |pages| ensures PageFacts(req, ds[i], fs[i], sizes[i], tokens[i], pages[i]) {
      WalkPage(req, ds[i], fs[i], sizes[i], tokens[i], pages[i]);
    }
  }

  lemma DirectoryWalkFinishes(req: ListDirectoryRequest, ds: seq<set<string>>, fs: seq<set<FileInfo>>, sizes: seq<nat>,
                              tokens: seq<Option<PageToken>>, pages: seq<DirectoryPage>) returns (w: Walk<Item>)
    requires WalkFacts(req, ds, fs, sizes, tokens, pages)
    ensures NormalizeDirPath(req.path).Ok?
    ensures Finished(ItemSort(req), w) && w.pages == AllItems(pages)
    ensures forall i :: 0 <= i < |pages| ==>
              TablesOk(ds[i], fs[i]) && w.live[i] == LiveItems(ds[i], fs[i], NormalizeDirPath(req.path).value)
    ensures forall i :: 0 <= i < |pages| ==> w.open[i] <= w.live[i]
    ensures forall i :: 0 <= i < |pages| - 1 ==> |ItemsOf(pages[i])| == NormalizePageSize(sizes[i])
  {
    var n := |pages|;
    assert PageFacts(req, ds[0], fs[0], sizes[0], tokens[0], pages[0]);
    var path := NormalizeDirPath(req.path).value;
    forall i | 0 <= i < n ensures TablesOk(ds[i], fs[i]) {
      assert PageFacts(req, ds[i], fs[i], sizes[i], tokens[i], pages[i]); }
    w := DirectoryWalk(req, ds, fs, tokens, pages);
    FirstPageOpensAll(req, ds[0], fs[0], sizes[0], pages[0]);
    forall i | 0 <= i < n
      ensures Linked(ItemSort(req), w, i) && w.open[i] <= w.live[i]
      ensures i < n - 1 ==> |ItemsOf(pages[i])| == NormalizePageSize(sizes[i])
    {
      assert PageFacts(req, ds[i], fs[i], sizes[i], tokens[i], pages[i]);
      PageIsLinked(req, ds[i], fs[i], sizes[i], tokens[i], pages[i],
                   if i < n - 1 then ds[i + 1] else {}, if i < n - 1 then fs[i + 1] else {});
    }
  }

  ghost function DirectoryWalk(req: ListDirectoryRequest, ds: seq<set<string>>, fs: seq<set<FileInfo>>,
                               tokens: seq<Option<PageToken>>, pages: seq<DirectoryPage>): (w: Walk<Item>)
    requires NormalizeDirPath(req.path).Ok? && |ds| == |fs| && |tokens| == |ds| + 1
    requires forall i :: 0 <= i < |ds| ==> TablesOk(ds[i], fs[i])
    ensures w.pages == AllItems(pages) && |w.live| == |w.open| == |ds|
    ensures forall i :: 0 <= i < |ds| ==>
                TablesOk(ds[i], fs[i]) && w.live[i] == LiveItems(ds[i], fs[i], NormalizeDirPath(req.path).value)
    ensures forall i :: 0 <= i < |ds| ==> TablesOk(ds[i], fs[i]) && w.open[i] == OpenAt(ds[i], fs[i], req, tokens[i])
  {
    var n := |ds|;
    Walk(seq(n, i requires 0 <= i < n && TablesOk(ds[i], fs[i]) =>
                  LiveItems(ds[i], fs[i], NormalizeDirPath(req.path).value)),
         seq(n, i requires 0 <= i < n && TablesOk(ds[i], fs[i]) => OpenAt(ds[i], fs[i], req, tokens[i])),
         AllItems(pages))
  }

  lemma FirstPageOpensAll(req: ListDirectoryRequest, directories: set<string>, files: set<FileInfo>, size: nat,
      page: DirectoryPage)
    requires PageFacts(req, directories, files, size, None, page)
    ensures OpenAt(directories, files, req, None) == LiveItems(directories, files, NormalizeDirPath(req.path).value)
  {
  }

  lemma PageIsLinked(req: ListDirectoryRequest, directories: set<string>, files: set<FileInfo>, size: nat,
      token: Option<PageToken>, page: DirectoryPage,
                     laterDirs: set<string>, laterFiles: set<FileInfo>)
    requires PageFacts(req, directories, files, size, token, page) && TablesOk(laterDirs, laterFiles)
    ensures var open, path := OpenAt(directories, files, req, token), NormalizeDirPath(req.path).value;
            && Sorted(ItemSort(req), ItemsOf(page)) && (forall x :: x in ItemsOf(page) ==> x in open)
            && open <= LiveItems(directories, files, path)
            && (page.next.None? ==> Covers(ItemsOf(page), open))
            && (page.next.Some? ==> |ItemsOf(page)| == NormalizePageSize(size)
                                    && Continues(ItemSort(req), LiveItems(laterDirs, laterFiles, path), open,
                                                        OpenAt(laterDirs, laterFiles, req, page.next), ItemsOf(page)))
  {
    if page.next.Some? {
      assert ContinuesOver(req, OpenAt(directories, files, req, token), page, laterDirs, laterFiles);
    }
  }

  function Slots(field: SortField, items: seq<Item>): (r: seq<Slot>)
    ensures |r| == |items| && forall i :: 0 <= i < |items| ==> r[i] == SlotOf(field, items[i])
  {
    seq(|items|, i requires 0 <= i < |items| => SlotOf(field, items[i]))
  }

  /** The browsed directory has an entry at `slot`. */
  ghost predicate HasEntry(req: ListDirectoryRequest, directories: set<string>, files: set<FileInfo>, slot: Slot) {
    && NormalizeDirPath(req.path).Ok? && TablesOk(directories, files)
    && exists x ::
           x in LiveItems(directories, files, NormalizeDirPath(req.path).value) && SlotOf(Normal(req).0, x) == slot
  }

  ghost function EntryAt(req: ListDirectoryRequest, directories: set<string>, files: set<FileInfo>,
      slot: Slot): (x: Item)
    requires HasEntry(req, directories, files, slot)
    ensures x in LiveItems(directories, files, NormalizeDirPath(req.path).value) && SlotOf(Normal(req).0, x) == slot
  {
    var x :| x in LiveItems(directories, files, NormalizeDirPath(req.path).value) && SlotOf(Normal(req).0, x) == slot; x
  }

  lemma SlotOnce(field: SortField, order: SortOrder, items: seq<Item>, x: Item)
    requires Sorted(ItemBefore(field, order), items) && x in items
    ensures multiset(Slots(field, items))[SlotOf(field, x)] == 1
  {
    var less := (a: Slot, b: Slot) => SlotLess(order, a, b);
    var slots := Slots(field, items);
    forall i, j | 0 <= i < j < |items| ensures less(slots[i], slots[j]) {
      SlotsDecide(field, order, items[i], items[j]);
    }
    var i :| 0 <= i < |items| && items[i] == x;
    assert slots[i] == SlotOf(field, x);
    TiedIsSameSlot(field, order, x, x);
    SlotsDecide(field, order, x, x);
    SortedOnce(less, slots, slots[i]);
  }

  /** Entries that share a slot, one from each state of the directory, are returned once between them. */
  lemma SteadySlotOnce(field: SortField, order: SortOrder, w: Walk<Item>, xs: seq<Item>, slot: Slot)
    requires Finished(ItemBefore(field, order), w) && Sorted(ItemBefore(field, order), Flatten(w.pages))
    requires |xs| == |w.live| && forall k :: 0 <= k < |xs| ==> xs[k] in w.live[k] && SlotOf(field, xs[k]) == slot
    ensures multiset(Slots(field, Flatten(w.pages)))[slot] == 1
  {
    forall j, k | 0 <= j < |xs| && 0 <= k < |xs| ensures Tied(ItemBefore(field, order), xs[j], xs[k]) {
      TiedIsSameSlot(field, order, xs[j], xs[k]);
    }
    var k := SteadyRowReached(ItemBefore(field, order), w, xs, 0);
    SlotOnce(field, order, Flatten(w.pages), xs[k]);
  }

  /** The directory has an entry at `slot` whenever a page is read. */
  ghost predicate EntryThroughout(req: ListDirectoryRequest, ds: seq<set<string>>, fs: seq<set<FileInfo>>, slot: Slot) {
    |ds| == |fs| && forall i :: 0 <= i < |ds| ==> HasEntry(req, ds[i], fs[i], slot)
  }

  lemma FactsGiveStability(req: ListDirectoryRequest, ds: seq<set<string>>, fs: seq<set<FileInfo>>, sizes: seq<nat>,
                           tokens: seq<Option<PageToken>>, pages: seq<DirectoryPage>)
    requires WalkFacts(req, ds, fs, sizes, tokens, pages)
    ensures NormalizeDirPath(req.path).Ok?
    ensures Sorted(ItemSort(req), Flatten(AllItems(pages)))
    ensures forall slot :: EntryThroughout(req, ds, fs, slot) ==>
                multiset(Slots(Normal(req).0, Flatten(AllItems(pages))))[slot] == 1
    ensures forall i :: 0 <= i < |pages| - 1 ==> |ItemsOf(pages[i])| == NormalizePageSize(sizes[i])
  {
    var w := DirectoryWalkFinishes(req, ds, fs, sizes, tokens, pages);
    ItemTransitive(Normal(req).0, Normal(req).1);
    WalkIsStable(ItemSort(req), w);
    forall slot | EntryThroughout(req, ds, fs, slot)
      ensures multiset(Slots(Normal(req).0, Flatten(AllItems(pages))))[slot] == 1 {
      var xs := seq(|ds|, i requires 0 <= i < |ds| => EntryAt(req, ds[i], fs[i], slot));
      SteadySlotOnce(Normal(req).0, Normal(req).1, w, xs, slot);
    }
  }

  /**
   * Browsing a directory page by page returns directories, then files, in strictly ascending order; an
   * entry that keeps its place throughout comes exactly once, and every page but the last is exactly full.
   */
  lemma DirectoryWalkStable(req: ListDirectoryRequest, ds: seq<set<string>>, fs: seq<set<FileInfo>>, sizes: seq<nat>,
                            tokens: seq<Option<PageToken>>, pages: seq<DirectoryPage>)
    requires IsDirectoryWalk(req, ds, fs, sizes, tokens, pages)
    ensures NormalizeDirPath(req.path).Ok?
    ensures Sorted(ItemSort(req), Flatten(AllItems(pages)))
    ensures forall slot :: EntryThroughout(req, ds, fs, slot) ==>
                multiset(Slots(Normal(req).0, Flatten(AllItems(pages))))[slot] == 1
    ensures forall i :: 0 <= i < |pages| - 1 ==> |ItemsOf(pages[i])| == NormalizePageSize(sizes[i])
  {
    WalkHasFacts(req, ds, fs, sizes, tokens, pages);
    FactsGiveStability(req, ds, fs, sizes, tokens, pages);
  }

  /** The full listing of a directory: its children, then its files. */
  function Listing(directories: set<string>, files: set<FileInfo>, req: ListDirectoryRequest): seq<Item>
    requires TablesOk(directories, files) && NormalizeDirPath(req.path).Ok?
  {
    var path := NormalizeDirPath(req.path).value;
    LessLinear(ChildDirs(directories, path));
    BeforeLinear(Normal(req).0, Normal(req).1, DirectFiles(files, path));
    DirItems(Ordered(Less, ChildDirs(directories, path))) +
    FileItems(Ordered(Before(Normal(req).0, Normal(req).1), DirectFiles(files, path)))
  }

  lemma FixedWalkIsListing(req: ListDirectoryRequest, directories: set<string>, files: set<FileInfo>, w: Walk<Item>)
    requires TablesOk(directories, files) && NormalizeDirPath(req.path).Ok? && Finished(ItemSort(req), w)
    requires forall i :: 0 <= i < |w.live| ==>
               w.live[i] == LiveItems(directories, files, NormalizeDirPath(req.path).value) && w.open[i] <= w.live[i]
    ensures Flatten(w.pages) == Listing(directories, files, req)
    ensures |w.pages| <= |Listing(directories, files, req)| + 1
  {
    var path := NormalizeDirPath(req.path).value;
    var (field, order) := Normal(req);
    ItemTransitive(field, order);
    ItemsInOrder(field, order, ChildDirs(directories, path), DirectFiles(files, path));
    FixedWalkIsOrdered(ItemSort(req), w, LiveItems(directories, files, path));
    forall i | 0 <= i < |w.pages| - 1 ensures w.pages[i] != [] {
      assert Linked(ItemSort(req), w, i);
    }
    FlattenLength(w.pages);
  }

  lemma FactsGiveListing(req: ListDirectoryRequest, directories: set<string>, files: set<FileInfo>, sizes: seq<nat>,
                         tokens: seq<Option<PageToken>>, pages: seq<DirectoryPage>)
    requires WalkFacts(req, seq(|sizes|, i => directories), seq(|sizes|, i => files), sizes, tokens, pages)
    ensures NormalizeDirPath(req.path).Ok? && TablesOk(directories, files)
    ensures Flatten(AllItems(pages)) == Listing(directories, files, req)
    ensures |pages| <= |Listing(directories, files, req)| + 1
  {
    var ds, fs := seq(|sizes|, i => directories), seq(|sizes|, i => files);
    var w := DirectoryWalkFinishes(req, ds, fs, sizes, tokens, pages);
    assert TablesOk(ds[0], fs[0]);
    FixedWalkIsListing(req, directories, files, w);
  }

  /** Over fixed tables the pages are the sorted children and then the sorted direct files, and the walk ends. */
  lemma DirectoryWalkComplete(req: ListDirectoryRequest, directories: set<string>, files: set<FileInfo>,
      sizes: seq<nat>,
                              tokens: seq<Option<PageToken>>, pages: seq<DirectoryPage>)
    requires IsDirectoryWalk(req, seq(|sizes|, i => directories), seq(|sizes|, i => files), sizes, tokens, pages)
    ensures NormalizeDirPath(req.path).Ok? && TablesOk(directories, files)
    ensures Flatten(AllItems(pages)) == Listing(directories, files, req)
    ensures |pages| <= |Listing(directories, files, req)| + 1
  {
    WalkHasFacts(req, seq(|sizes|, i => directories), seq(|sizes|, i => files), sizes, tokens, pages);
    FactsGiveListing(req, directories, files, sizes, tokens, pages);
  }

  // ---- Every walk ends ------------------------------------------------------------------------

  type PageSizes = nat -> nat

  /** Whether call number `i` of a walk, with a token, is answered with a page. */
  type Oracle = (nat, Option<PageToken>, DirectoryPage) -> bool

  /** A client following tokens; every page so far had one. */
  ghost predicate Following(answers: Oracle, tokens: seq<Option<PageToken>>, pages: seq<DirectoryPage>) {
    && |tokens| == |pages| + 1 && tokens[0] == None
    && (forall i :: 0 < i < |tokens| ==> tokens[i].Some?)
    && (forall i :: 0 <= i < |pages| ==> pages[i].next == tokens[i + 1])
    && (forall i :: 0 <= i < |pages| ==> answers(i, tokens[i], pages[i]))
  }

  /** One that has come to a page without a token. */
  ghost predicate Arrived(answers: Oracle, tokens: seq<Option<PageToken>>, pages: seq<DirectoryPage>) {
    var n := |pages|;
    && n > 0 && |tokens| == n + 1 && tokens[0] == None && tokens[n] == None
    && (forall i :: 0 < i < n ==> tokens[i].Some?)
    && (forall i :: 0 <= i < n ==> pages[i].next == tokens[i + 1])
    && (forall i :: 0 <= i < n ==> answers(i, tokens[i], pages[i]))
  }

  lemma FollowOneMore(answers: Oracle, tokens: seq<Option<PageToken>>, pages: seq<DirectoryPage>, page: DirectoryPage)
    requires Following(answers, tokens, pages) && answers(|pages|, tokens[|pages|], page)
    ensures page.next.Some? ==> Following(answers, tokens + [page.next], pages + [page])
    ensures page.next.None? ==> Arrived(answers, tokens + [page.next], pages + [page])
  {
  }

  /** The endpoint over fixed tables, asked for `sizes(i)` entries on page `i`. */
  ghost function Endpoint(req: ListDirectoryRequest, directories: set<string>, files: set<FileInfo>,
      sizes: PageSizes): Oracle {
    (i: nat, token, page) => Answers(req, directories, files, sizes(i), token, page)
  }

  /** A token is accepted by the listing it was issued for. */
  lemma IssuedTokenIsAccepted(req: ListDirectoryRequest, directories: set<string>, files: set<FileInfo>, size: nat,
      token: Option<PageToken>, page: DirectoryPage, next: nat)
    requires Answers(req, directories, files, size, token, page)
    ensures ListDirectory(directories, files, PageAt(req, next, page.next)).Ok?
  {
    var (field, order) := Normal(req);
    var path := NormalizeDirPath(req.path).value;
    var rd, rf := BrowsePageShape(directories, files, field, order, path, token, NormalizePageSize(size));
    PageOfIssues(field, order, path, NormalizePageSize(size), rd, rf);
  }

  lemma PageOfIssues(field: SortField, order: SortOrder, path: string, limit: nat, rd: seq<string>, rf: seq<FileInfo>)
    requires limit > 0
    ensures var next := PageOf(field, order, path, limit, rd, rf).next;
            next.Some? ==> next.value.path == path && next.value.sortField == field && next.value.sortOrder == order
  {
  }

  lemma FollowingIsShort(req: ListDirectoryRequest, directories: set<string>, files: set<FileInfo>, sizes: PageSizes,
                         tokens: seq<Option<PageToken>>, pages: seq<DirectoryPage>)
    requires TablesOk(directories, files) && NormalizeDirPath(req.path).Ok?
    requires Following(Endpoint(req, directories, files, sizes), tokens, pages)
    ensures |pages| <= |LiveItems(directories, files, NormalizeDirPath(req.path).value)|
  {
    var n, path := |pages|, NormalizeDirPath(req.path).value;
    var w := DirectoryWalk(req, seq(n, i => directories), seq(n, i => files), tokens, pages);
    forall i | 0 <= i < n
      ensures Linked(ItemSort(req), w, i) && w.open[i] <= LiveItems(directories, files, path) && w.pages[i] != []
    {
      assert Endpoint(req, directories, files, sizes)(i, tokens[i], pages[i]);
      WalkPage(req, directories, files, sizes(i), tokens[i], pages[i]);
      PageIsLinked(req, directories, files, sizes(i), tokens[i], pages[i], directories, files);
    }
    ItemTransitive(Normal(req).0, Normal(req).1);
    ItemLinear(Normal(req).0, Normal(req).1, ChildDirs(directories, path), DirectFiles(files, path));
    ChainIsShort(ItemSort(req), w, LiveItems(directories, files, path));
  }

  /** There is always a next page to read. */
  lemma NextAnswer(req: ListDirectoryRequest, directories: set<string>, files: set<FileInfo>, sizes: PageSizes,
                   tokens: seq<Option<PageToken>>, pages: seq<DirectoryPage>) returns (page: DirectoryPage)
    requires TablesOk(directories, files) && NormalizeDirPath(req.path).Ok?
    requires Following(Endpoint(req, directories, files, sizes), tokens, pages)
    ensures Endpoint(req, directories, files, sizes)(|pages|, tokens[|pages|], page)
  {
    var n := |pages|;
    if n > 0 {
      assert Endpoint(req, directories, files, sizes)(n - 1, tokens[n - 1], pages[n - 1]);
      IssuedTokenIsAccepted(req, directories, files, sizes(n - 1), tokens[n - 1], pages[n - 1], sizes(n));
    }
    page := ListDirectory(directories, files, PageAt(req, sizes(n), tokens[n])).value;
  }

  /** Whatever page sizes a client asks for, following tokens over fixed tables comes to an end. */
  lemma {:induction false} DirectoryWalkEnds(req: ListDirectoryRequest, directories: set<string>,
      files: set<FileInfo>, sizes: PageSizes,
                                             tokens: seq<Option<PageToken>>, pages: seq<DirectoryPage>)
      returns (tokens': seq<Option<PageToken>>, pages': seq<DirectoryPage>)
    requires TablesOk(directories, files) && NormalizeDirPath(req.path).Ok?
    requires Following(Endpoint(req, directories, files, sizes), tokens, pages)
    ensures pages <= pages' && Arrived(Endpoint(req, directories, files, sizes), tokens', pages')
    decreases |LiveItems(directories, files, NormalizeDirPath(req.path).value)| - |pages|
  {
    var page := NextAnswer(req, directories, files, sizes, tokens, pages);
    FollowOneMore(Endpoint(req, directories, files, sizes), tokens, pages, page);
    tokens', pages' := tokens + [page.next], pages + [page];
    if page.next.Some? {
      FollowingIsShort(req, directories, files, sizes, tokens', pages');
      tokens', pages' := DirectoryWalkEnds(req, directories, files, sizes, tokens', pages');
    }
  }

  /** What arrives is a finished walk, so all that holds of those holds of it. */
  lemma ArrivedIsWalk(req: ListDirectoryRequest, directories: set<string>, files: set<FileInfo>, sizes: PageSizes,
                      tokens: seq<Option<PageToken>>, pages: seq<DirectoryPage>,
                      ds: seq<set<string>>, fs: seq<set<FileInfo>>, ss: seq<nat>)
    requires Arrived(Endpoint(req, directories, files, sizes), tokens, pages)
    requires |ds| == |fs| == |ss| == |pages|
    requires forall i :: 0 <= i < |pages| ==> ds[i] == directories && fs[i] == files && ss[i] == sizes(i)
    ensures IsDirectoryWalk(req, ds, fs, ss, tokens, pages)
  {
    forall i | 0 <= i < |pages| ensures Answers(req, ds[i], fs[i], ss[i], tokens[i], pages[i]) {
      assert Endpoint(req, directories, files, sizes)(i, tokens[i], pages[i]);
    }
  }

  /** Any choice of page sizes lists the directory: children, then files, in order, in full pages but the last. */
  lemma PagingListsDirectory(req: ListDirectoryRequest, directories: set<string>, files: set<FileInfo>,
      sizes: PageSizes)
      returns (tokens: seq<Option<PageToken>>, pages: seq<DirectoryPage>)
    requires TablesOk(directories, files) && NormalizeDirPath(req.path).Ok?
    ensures Arrived(Endpoint(req, directories, files, sizes), tokens, pages)
    ensures Flatten(AllItems(pages)) == Listing(directories, files, req)
    ensures forall i :: 0 <= i < |pages| - 1 ==> |ItemsOf(pages[i])| == NormalizePageSize(sizes(i))
  {
    tokens, pages := DirectoryWalkEnds(req, directories, files, sizes, [None], []);
    ArrivedListsAll(req, directories, files, sizes, tokens, pages);
    ArrivedInFullPages(req, directories, files, sizes, tokens, pages);
  }

  lemma ArrivedListsAll(req: ListDirectoryRequest, directories: set<string>, files: set<FileInfo>, sizes: PageSizes,
                        tokens: seq<Option<PageToken>>, pages: seq<DirectoryPage>)
    requires TablesOk(directories, files) && NormalizeDirPath(req.path).Ok?
    requires Arrived(Endpoint(req, directories, files, sizes), tokens, pages)
    ensures Flatten(AllItems(pages)) == Listing(directories, files, req)
  {
    var ss := FirstSizes(sizes, |pages|);
    ArrivedIsWalk(req, directories, files, sizes, tokens, pages,
                  seq(|ss|, i => directories), seq(|ss|, i => files), ss);
    DirectoryWalkComplete(req, directories, files, ss, tokens, pages);
  }

  lemma ArrivedInFullPages(req: ListDirectoryRequest, directories: set<string>, files: set<FileInfo>, sizes: PageSizes,
                           tokens: seq<Option<PageToken>>, pages: seq<DirectoryPage>)
    requires TablesOk(directories, files) && NormalizeDirPath(req.path).Ok?
    requires Arrived(Endpoint(req, directories, files, sizes), tokens, pages)
    ensures forall i :: 0 <= i < |pages| - 1 ==> |ItemsOf(pages[i])| == NormalizePageSize(sizes(i))
  {
    var ss := FirstSizes(sizes, |pages|);
    var ds, fs := seq(|ss|, i => directories), seq(|ss|, i => files);
    ArrivedIsWalk(req, directories, files, sizes, tokens, pages, ds, fs, ss);
    DirectoryWalkStable(req, ds, fs, ss, tokens, pages);
  }

  function FirstSizes(sizes: PageSizes, n: nat): (r: seq<nat>)
    ensures |r| == n && forall i :: 0 <= i < n ==> r[i] == sizes(i)
  {
    seq(n, i requires 0 <= i < n => sizes(i))
  }

  // ---- In terms of paths and columns ----------------------------------------------------------

  /** A path with and without its trailing "/" gets the same listing. */
  lemma ListingOfPathWithoutSlash(directories: set<string>, files: set<FileInfo>, req: ListDirectoryRequest, p: string)
    requires TablesOk(directories, files) && p != "" && p[|p| - 1] != '/'
    ensures ListDirectory(directories, files, req.(path := p)) ==
              ListDirectory(directories, files, req.(path := p + "/"))
  {
    TrailingSlash(p);
  }

  /** `d` is directly below `path`: one more segment and its "/". */
  predicate DirectlyBelow(path: string, d: string) {
    path < d && IsDirPath(d) && '/' !in d[|path|..|d| - 1]
  }

  lemma ParentMeans(path: string, d: string)
    requires IsDirPath(d) && (path == "" || IsDirPath(path))
    ensures Parent(d) == path <==> DirectlyBelow(path, d)
  {
    var seg := if path < d then d[|path|..|d| - 1] else "";
    if DirectlyBelow(path, d) {
      assert d == path + seg + "/";
      ParentIsCapture(d, path, seg);
    }
    if Parent(d) == path {
      var stem := d[..|d| - 1];
      assert forall x :: |path| <= x < |stem| ==> stem[x] != '/' && stem[x] == d[x];
    }
  }

  lemma ListingIsItems(directories: set<string>, files: set<FileInfo>, req: ListDirectoryRequest, x: Item)
    requires TablesOk(directories, files) && NormalizeDirPath(req.path).Ok?
    ensures x in Listing(directories, files, req) <==>
              match x
              case DirItem(d) => d in ChildDirs(directories, NormalizeDirPath(req.path).value)
              case FileItem(f) => f in DirectFiles(files, NormalizeDirPath(req.path).value)
  {
    var path := NormalizeDirPath(req.path).value;
    LessLinear(ChildDirs(directories, path));
    BeforeLinear(Normal(req).0, Normal(req).1, DirectFiles(files, path));
    DirItemsHas(Ordered(Less, ChildDirs(directories, path)), x);
    FileItemsHas(Ordered(Before(Normal(req).0, Normal(req).1), DirectFiles(files, path)), x);
  }

  /** A listing holds exactly the directories and files directly below its path. */
  lemma ListingHolds(directories: set<string>, files: set<FileInfo>, req: ListDirectoryRequest, x: Item)
    requires TablesOk(directories, files) && NormalizeDirPath(req.path).Ok?
    ensures x in Listing(directories, files, req) <==>
              var path := NormalizeDirPath(req.path).value;
              match x
              case DirItem(d) => d in directories && DirectlyBelow(path, d)
              case FileItem(f) => f in files && path <= f.key && '/' !in f.key[|path|..]
  {
    ListingIsItems(directories, files, req, x);
    NormalizeIsDir(req.path);
    match x
    case DirItem(d) => ChildDirsMean(directories, NormalizeDirPath(req.path).value, d);
    case FileItem(f) => DirectFilesMean(files, NormalizeDirPath(req.path).value, f);
  }

  lemma ChildDirsMean(directories: set<string>, path: string, d: string)
    requires (path == "" || IsDirPath(path)) && forall x :: x in directories ==> IsDirPath(x)
    ensures d in ChildDirs(directories, path) <==> d in directories && DirectlyBelow(path, d)
  {
    if d in directories { ParentMeans(path, d); }
  }

  lemma DirectFilesMean(files: set<FileInfo>, path: string, f: FileInfo)
    ensures f in DirectFiles(files, path) <==> f in files && path <= f.key && '/' !in f.key[|path|..]
  {
    SelectedMeans(NO_TEXT, "", "", true, path, f);
  }

  /** And lists them in the order asked for: directories by path, then files by their columns. */
  lemma ListingInOrder(directories: set<string>, files: set<FileInfo>, req: ListDirectoryRequest, i: nat, j: nat)
    requires TablesOk(directories, files) && NormalizeDirPath(req.path).Ok?
    requires i < j < |Listing(directories, files, req)|
    ensures var x, y := Listing(directories, files, req)[i], Listing(directories, files, req)[j];
            match x
            case DirItem(d) => y.FileItem? || Less(d, y.path)
            case FileItem(f) => y.FileItem? && AskedBefore(req.field, req.order, f, y.file)
  {
    var path := NormalizeDirPath(req.path).value;
    var x, y := Listing(directories, files, req)[i], Listing(directories, files, req)[j];
    ItemsInOrder(Normal(req).0, Normal(req).1, ChildDirs(directories, path), DirectFiles(files, path));
    ItemLinear(Normal(req).0, Normal(req).1, ChildDirs(directories, path), DirectFiles(files, path));
    assert ItemSort(req)(x, y);
    if x.FileItem? && y.FileItem? { OrderMeans(Normal(req).0, Normal(req).1, x.file, y.file); }
  }

  /** A token is accepted exactly for the path, in effect, and the sort it was issued for. */
  lemma DirectoryTokensAreBound(directories: set<string>, files: set<FileInfo>, req: ListDirectoryRequest,
      token: PageToken)
    requires TablesOk(directories, files)
    ensures ListDirectory(directories, files, req.(token := Some(token))).Ok? <==>
              && NormalizeDirPath(req.path) == Ok(token.path)
              && NormalizeSort(req.field, req.order) == (token.sortField, token.sortOrder)
  {
  }
}
