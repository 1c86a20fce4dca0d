/** Clients of the browse endpoint: the folder tree's fetch loop, and the recursive browse from the root. */
module Browse {
  import opened Common
  import opened Ordering
  import opened Keyset
  import opened Paths
  import opened Search
  import opened SearchWalks
  import opened DirectoryWalks
  import DirectoryIndex
  import Like

  /** `r` is the table `s` in order: sorted, so without repetition, and with exactly its rows. */
  ghost predicate Lists<T(!new)>(less: (T, T) -> bool, s: set<T>, r: seq<T>) {
    Sorted(less, r) && forall x :: x in r <==> x in s
  }

  // ---- What is left behind a page's token -----------------------------------------------------

  /** In a sorted table the rows after row `n - 1` are the ones from index `n` on. */
  lemma BehindRow<T(!new)>(less: (T, T) -> bool, r: seq<T>, n: nat, x: T)
    requires Sorted(less, r) && 0 < n <= |r| && x in r
    requires Transitive(less) && !less(r[n - 1], r[n - 1])
    ensures less(r[n - 1], x) <==> x in r[n..]
  {
    var i :| 0 <= i < |r| && r[i] == x;
    if i >= n { assert r[n..][i - n] == x; }
    if x in r[n..] {
      var j :| 0 <= j < |r[n..]| && r[n..][j] == x;
      assert r[j + n] == x;
    }
  }

  lemma RestLists<T(!new)>(less: (T, T) -> bool, s: set<T>, r: seq<T>, n: nat, rest: set<T>)
    requires Lists(less, s, r) && 0 < n <= |r| && Transitive(less) && !less(r[n - 1], r[n - 1])
    requires forall x :: x in rest <==> x in s && less(r[n - 1], x)
    ensures Lists(less, rest, r[n..])
  {
    forall x ensures x in r[n..] <==> x in rest {
      if x in r { BehindRow(less, r, n, x); }
    }
  }

  lemma NextDirs(directories: set<string>, path: string, token: Option<PageToken>, rd: seq<string>, n: nat,
      next: PageToken)
    requires forall d :: d in directories ==> IsDirPath(d)
    requires Lists(Less, OpenDirs(directories, path, token), rd) && 0 < n <= |rd|
    requires next.phase == DirectoriesPhase && next.lastDir == rd[n - 1]
    ensures Lists(Less, OpenDirs(directories, path, Some(next)), rd[n..])
  {
    var last := rd[n - 1];
    assert last in rd;
    LessIrreflexive(last);
    forall x, y, z | Less(x, y) && Less(y, z) ensures Less(x, z) { LessTransitive(x, y, z); }
    RestLists(Less, OpenDirs(directories, path, token), rd, n, OpenDirs(directories, path, Some(next)));
  }

  /** A row that sorts after an open row is open. */
  lemma StillOpen(files: set<FileInfo>, field: SortField, order: SortOrder, path: string, token: Option<PageToken>,
      last: FileInfo, x: FileInfo)
    requires last in OpenFilesIn(files, field, order, path, token) && Before(field, order)(last, x)
    requires x in files && Selected(NO_TEXT, "", "", true, path, x)
    ensures x in OpenFilesIn(files, field, order, path, token)
  {
    if token.Some? {
      PosOrder(order, CursorPos(field, token.value), PosOf(field, last), PosOf(field, x));
    }
  }

  lemma NextFiles(files: set<FileInfo>, field: SortField, order: SortOrder, path: string, token: Option<PageToken>,
      rf: seq<FileInfo>, n: nat)
    requires TableOk(files) && field != FieldUnspecified
    requires Lists(Before(field, order), OpenFilesIn(files, field, order, path, token), rf) && 0 < n <= |rf|
    ensures Lists(Before(field, order), OpenFilesIn(files, field, order, path,
                      Some(NewDirFilesCursor(field, order, path, Some(rf[n - 1])))), rf[n..])
  {
    var last := rf[n - 1];
    assert last in rf;
    CursorStandsAtRow(field, order, "", "", path, last);
    BeforeTransitive(field, order);
    PosOrder(order, PosOf(field, last), PosOf(field, last), PosOf(field, last));
    var s, next := OpenFilesIn(files, field, order, path, token),
                 OpenFilesIn(files, field, order, path, Some(NewDirFilesCursor(field, order, path, Some(last))));
    forall x ensures x in next <==> x in s && Before(field, order)(last, x) {
      if x in next { StillOpen(files, field, order, path, token, last, x); }
    }
    RestLists(Before(field, order), s, rf, n, next);
  }

  /** What a token leaves open, of each kind, in order. */
  ghost predicate LeftOpen(directories: set<string>, files: set<FileInfo>, path: string, token: Option<PageToken>,
      rd: seq<string>, rf: seq<FileInfo>)
    requires forall d :: d in directories ==> IsDirPath(d)
  {
    Lists(Less, OpenDirs(directories, path, token), rd) &&
    Lists(Before(ByKey, Asc), OpenFilesIn(files, ByKey, Asc, path, token), rf)
  }

  /** Behind a page's token stands exactly what the page did not show. */
  lemma NextRest(directories: set<string>, files: set<FileInfo>, path: string, token: Option<PageToken>, limit: nat,
      rd: seq<string>, rf: seq<FileInfo>)
    requires TablesOk(directories, files) && limit > 0 && LeftOpen(directories, files, path, token, rd, rf)
    requires PageOf(ByKey, Asc, path, limit, rd, rf).next.Some?
    ensures var p := PageOf(ByKey, Asc, path, limit, rd, rf);
            LeftOpen(directories, files, path, p.next, rd[|p.directories|..], rf[|p.files|..])
  {
    var next := PageOf(ByKey, Asc, path, limit, rd, rf).next.value;
    if |rd| > limit {
      NextDirs(directories, path, token, rd, limit, next);
      FilesUntouched(directories, files, path, token, rd, rf, next);
    } else {
      DirectoriesDone(directories, path, next);
      assert rd[|rd|..] == [];
      if limit > |rd| {
        NextFiles(files, ByKey, Asc, path, token, rf, limit - |rd|);
      } else {
        FilesUntouched(directories, files, path, token, rd, rf, next);
      }
    }
  }

  /** While directories were open, a token without a file position leaves all the files. */
  lemma FilesUntouched(directories: set<string>, files: set<FileInfo>, path: string, token: Option<PageToken>,
      rd: seq<string>, rf: seq<FileInfo>, next: PageToken)
    requires TablesOk(directories, files) && LeftOpen(directories, files, path, token, rd, rf) && rd != []
    requires next.phase == DirectoriesPhase || next.lastId == 0
    ensures Lists(Before(ByKey, Asc), OpenFilesIn(files, ByKey, Asc, path, Some(next)), rf[0..])
  {
    DirectoriesPending(directories, path, token, rd);
    SentinelRest(files, path, token, Some(next));
    assert rf[0..] == rf;
  }

  lemma DirectoriesDone(directories: set<string>, path: string, next: PageToken)
    requires (forall d :: d in directories ==> IsDirPath(d)) && next.phase == FilesPhase
    ensures Lists(Less, OpenDirs(directories, path, Some(next)), [])
  {
  }

  /** While a directory is open, the token is of the directories phase. */
  lemma DirectoriesPending(directories: set<string>, path: string, token: Option<PageToken>, rd: seq<string>)
    requires (forall d :: d in directories ==> IsDirPath(d)) && Lists(Less, OpenDirs(directories, path, token), rd)
    requires rd != []
    ensures token.None? || token.value.phase == DirectoriesPhase
  {
    assert rd[0] in rd;
  }

  /** A token without a file position leaves all the direct files open. */
  lemma SentinelRest(files: set<FileInfo>, path: string, token: Option<PageToken>, next: Option<PageToken>)
    requires token.None? || token.value.phase == DirectoriesPhase
    requires next.None? || next.value.phase == DirectoriesPhase || next.value.lastId == 0
    ensures OpenFilesIn(files, ByKey, Asc, path, next) == OpenFilesIn(files, ByKey, Asc, path, token)
  {
  }

  // ---- One call of a client loop --------------------------------------------------------------

  function TreeRequest(path: string, token: Option<PageToken>): ListDirectoryRequest {
    ListDirectoryRequest(path, ByKey, Asc, 0, token)
  }

  /** A token the endpoint issued for this listing, or none yet. */
  predicate Issued(path: string, token: Option<PageToken>) {
    token.Some? ==> token.value.path == path && token.value.sortField == ByKey && token.value.sortOrder == Asc
  }

  lemma TreePage(directories: set<string>, files: set<FileInfo>, dir: string, token: Option<PageToken>)
      returns (rd: seq<string>, rf: seq<FileInfo>)
    requires TablesOk(directories, files) && Issued(dir, token)
    ensures LeftOpen(directories, files, dir, token, rd, rf)
    ensures BrowsePage(directories, files, ByKey, Asc, dir, token, DEFAULT_PAGE_SIZE)
         == PageOf(ByKey, Asc, dir, DEFAULT_PAGE_SIZE, rd, rf)
    ensures Issued(dir, PageOf(ByKey, Asc, dir, DEFAULT_PAGE_SIZE, rd, rf).next)
  {
    rd, rf := BrowsePageShape(directories, files, ByKey, Asc, dir, token, DEFAULT_PAGE_SIZE);
    PageIssues(dir, DEFAULT_PAGE_SIZE, rd, rf);
  }

  lemma PageIssues(dir: string, limit: nat, rd: seq<string>, rf: seq<FileInfo>)
    requires limit > 0
    ensures Issued(dir, PageOf(ByKey, Asc, dir, limit, rd, rf).next)
  {
  }

  lemma ListsUnique<T(!new)>(less: (T, T) -> bool, s: set<T>, a: seq<T>, b: seq<T>)
    requires Lists(less, s, a) && Lists(less, s, b) && LinearOn(less, s)
    ensures a == b
  {
    SortedUnique(less, s, a, b);
  }

  /** One endpoint call on behalf of a loop that has `rd` and `rf` still to see. */
  method NextPage(directories: set<string>, files: set<FileInfo>, path: string, token: Option<PageToken>,
      ghost rd: seq<string>, ghost rf: seq<FileInfo>)
      returns (page: DirectoryPage)
    requires TablesOk(directories, files) && NormalizeDirPath(path).Ok?
    requires Issued(NormalizeDirPath(path).value, token)
    requires LeftOpen(directories, files, NormalizeDirPath(path).value, token, rd, rf)
    ensures ListDirectory(directories, files, TreeRequest(path, token)) == Ok(page)
    ensures page.directories <= rd && page.files <= rf && (page.files != [] ==> page.directories == rd)
    ensures page.next.None? ==> page.directories == rd && page.files == rf
    ensures page.next.Some? ==>
              && |page.directories| + |page.files| == DEFAULT_PAGE_SIZE
              && Issued(NormalizeDirPath(path).value, page.next)
              && LeftOpen(directories, files, NormalizeDirPath(path).value, page.next,
                          rd[|page.directories|..], rf[|page.files|..])
  {
    page := ListDirectory(directories, files, TreeRequest(path, token)).value;
    ghost var dir := NormalizeDirPath(path).value;
    ghost var rd', rf' := TreePage(directories, files, dir, token);
    assert page == BrowsePage(directories, files, ByKey, Asc, dir, token, DEFAULT_PAGE_SIZE);
    LessLinear(OpenDirs(directories, dir, token));
    BeforeLinear(ByKey, Asc, OpenFilesIn(files, ByKey, Asc, dir, token));
    ListsUnique(Less, OpenDirs(directories, dir, token), rd, rd');
    ListsUnique(Before(ByKey, Asc), OpenFilesIn(files, ByKey, Asc, dir, token), rf, rf');
    if page.next.Some? {
      NextRest(directories, files, dir, token, DEFAULT_PAGE_SIZE, rd, rf);
    }
  }

  lemma StartOpen(directories: set<string>, files: set<FileInfo>, dir: string)
    returns (rd: seq<string>, rf: seq<FileInfo>)
    requires TablesOk(directories, files)
    ensures LeftOpen(directories, files, dir, None, rd, rf)
    ensures Lists(Less, ChildDirs(directories, dir), rd) && Lists(Before(ByKey, Asc), DirectFiles(files, dir), rf)
  {
    rd, rf := TreePage(directories, files, dir, None);
  }

  // ---- The folder tree's fetch loop -----------------------------------------------------------

  /**
   * `fetchChildDirectories`: it stops at the first page that has a file on it, and still returns every
   * child directory in order, because no directory ever comes after a file. So however many files there are,
   * every call but the last has brought a full page of directories.
   */
  method FetchChildDirectories(directories: set<string>, files: set<FileInfo>, path: string)
    returns (r: Result<seq<string>>, ghost calls: nat)
    requires TablesOk(directories, files)
    ensures r.Ok? <==> NormalizeDirPath(path).Ok?
    ensures r.Ok? ==> Lists(Less, ChildDirs(directories, NormalizeDirPath(path).value), r.value)
    ensures r.Ok? ==> calls > 0 && (calls - 1) * DEFAULT_PAGE_SIZE <= |r.value|
  {
    if NormalizeDirPath(path).Err? { return Err(NormalizeDirPath(path).error), 0; }
    ghost var dir := NormalizeDirPath(path).value;
    calls := 0;
    var collected := [];
    var token: Option<PageToken> := None;
    ghost var rd, rf := StartOpen(directories, files, dir);
    ghost var all := rd;
    while true
      invariant Issued(dir, token) && LeftOpen(directories, files, dir, token, rd, rf)
      invariant collected + rd == all && |collected| == calls * DEFAULT_PAGE_SIZE
      decreases |rd| + |rf|
    {
      var page := NextPage(directories, files, path, token, rd, rf);
      calls := calls + 1;
      Glue(collected, page.directories, rd);
      collected := collected + page.directories;
      if |page.files| > 0 || page.next.None? { break; }
      token := page.next;
      rd, rf := rd[|page.directories|..], rf[|page.files|..];
    }
    r := Ok(collected);
  }

  lemma Glue<T>(done: seq<T>, page: seq<T>, left: seq<T>)
    requires page <= left
    ensures (done + page) + left[|page|..] == done + left
    ensures page == left ==> done + page == done + left
  {
  }

  // ---- Browsing from the root -----------------------------------------------------------------

  /** Everything the endpoint lists for one directory, collected page by page. */
  method ListWhole(directories: set<string>, files: set<FileInfo>, path: string)
    returns (r: Result<(seq<string>, seq<FileInfo>)>)
    requires TablesOk(directories, files)
    ensures r.Ok? <==> NormalizeDirPath(path).Ok?
    ensures r.Ok? ==> Lists(Less, ChildDirs(directories, NormalizeDirPath(path).value), r.value.0)
    ensures r.Ok? ==> Lists(Before(ByKey, Asc), DirectFiles(files, NormalizeDirPath(path).value), r.value.1)
  {
    if NormalizeDirPath(path).Err? { return Err(NormalizeDirPath(path).error); }
    ghost var dir := NormalizeDirPath(path).value;
    var dirs, rows := [], [];
    var token: Option<PageToken> := None;
    ghost var rd, rf := StartOpen(directories, files, dir);
    ghost var allDirs, allRows := rd, rf;
    while true
      invariant Issued(dir, token) && LeftOpen(directories, files, dir, token, rd, rf)
      invariant dirs + rd == allDirs && rows + rf == allRows
      decreases |rd| + |rf|
    {
      var page := NextPage(directories, files, path, token, rd, rf);
      Glue(dirs, page.directories, rd);
      Glue(rows, page.files, rf);
      dirs, rows := dirs + page.directories, rows + page.files;
      if page.next.None? { break; }
      token := page.next;
      rd, rf := rd[|page.directories|..], rf[|page.files|..];
    }
    r := Ok((dirs, rows));
  }

  /** The files a recursive browse of `path` has to show: directly in it, or in a stored directory below it. */
  ghost predicate Shown(directories: set<string>, files: set<FileInfo>, path: string, f: FileInfo) {
    f in files && path <= Dir(f.key) && (Dir(f.key) == path || Dir(f.key) in directories)
  }

  /** The direct-only filter keeps exactly the files whose directory is the browsed one. */
  lemma DirectMeansDir(files: set<FileInfo>, path: string, f: FileInfo)
    requires path == "" || IsDirPath(path)
    ensures f in DirectFiles(files, path) <==> f in files && Dir(f.key) == path
  {
    Like.EscapedIsPrefixTest(path, f.key);
    if path <= f.key {
      var tail := f.key[|path|..];
      assert forall x :: |path| <= x < |f.key| ==> f.key[x] == tail[x - |path|];
      assert '/' !in tail <==> forall x :: |path| <= x < |f.key| ==> f.key[x] != '/' by {
        assert forall i :: 0 <= i < |tail| ==> tail[i] == f.key[i + |path|];
      }
      if '/' !in tail { DirUnique(f.key, path); }
    }
  }

  /** Directories are closed under taking the parent, and the endpoint accepts each of them unchanged. */
  ghost predicate Navigable(directories: set<string>) {
    && (forall d :: d in directories ==> IsDirPath(d) && NormalizeDirPath(d) == Ok(d))
    && (forall d :: d in directories && IsDirPath(d) ==> Parent(d) == "" || Parent(d) in directories)
  }

  /** A "/"-terminated proper prefix of a directory is a prefix of its parent. */
  lemma PrefixOfParent(p: string, d: string)
    requires IsDirPath(d) && p < d && (p == "" || IsDirPath(p))
    ensures p <= Parent(d)
  {
    var q := Parent(d);
    assert p == "" || d[|p| - 1] == '/';
    var cut := d[..|d| - 1];
    assert forall x :: |q| <= x < |cut| ==> cut[x] != '/' && cut[x] == d[x];
  }

  /** On the way from `path` down to a stored directory lies exactly one child of `path`. */
  lemma {:induction false} ChildTowards(directories: set<string>, path: string, d: string) returns (c: string)
    requires Navigable(directories) && d in directories && path < d && (path == "" || IsDirPath(path))
    ensures c in directories && Parent(c) == path && c <= d
    decreases |d|
  {
    PrefixOfParent(path, d);
    if Parent(d) == path {
      c := d;
    } else {
      c := ChildTowards(directories, path, Parent(d));
    }
  }

  lemma ChildUnique(path: string, d: string, a: string, b: string)
    requires IsDirPath(a) && IsDirPath(b) && Parent(a) == path && Parent(b) == path && a <= d && b <= d
    ensures a == b
  {
    if |a| < |b| {
      PrefixOfParent(a, b);
      assert false;
    } else if |b| < |a| {
      PrefixOfParent(b, a);
      assert false;
    }
  }

  ghost predicate ShownInOne(directories: set<string>, files: set<FileInfo>, children: seq<string>, f: FileInfo) {
    exists j :: 0 <= j < |children| && Shown(directories, files, children[j], f)
  }

  /** Below a directory a file is shown directly, or through exactly one child. */
  lemma ShownSplits(directories: set<string>, files: set<FileInfo>, path: string, children: seq<string>, f: FileInfo)
    requires Navigable(directories) && (path == "" || path in directories)
    requires Lists(Less, ChildDirs(directories, path), children)
    ensures Shown(directories, files, path, f) <==>
              f in DirectFiles(files, path) || ShownInOne(directories, files, children, f)
    ensures ShownInOne(directories, files, children, f) ==> f !in DirectFiles(files, path)
    ensures forall i, j ::
              0 <= i < |children| && 0 <= j < |children| &&
              Shown(directories, files, children[i], f) && Shown(directories, files, children[j], f) ==>
                i == j
  {
    DirectMeansDir(files, path, f);
    var d := Dir(f.key);
    if Shown(directories, files, path, f) && d != path {
      var c := ChildTowards(directories, path, d);
      assert c in children;
      var j :| 0 <= j < |children| && children[j] == c;
    }
    forall j | 0 <= j < |children| && Shown(directories, files, children[j], f)
      ensures Shown(directories, files, path, f) && path < d
    {
      assert children[j] in children;
    }
    forall i, j | 0 <= i < |children| && 0 <= j < |children|
        && Shown(directories, files, children[i], f) && Shown(directories, files, children[j], f) ensures i == j {
      assert children[i] in children && children[j] in children;
      ChildUnique(path, d, children[i], children[j]);
      LessIrreflexive(children[i]);
    }
  }

  ghost function Below(directories: set<string>, path: string): set<string> {
    set d | d in directories && path < d
  }

  lemma BelowShrinks(directories: set<string>, path: string, c: string)
    requires c in directories && IsDirPath(c) && Parent(c) == path
    ensures Below(directories, c) < Below(directories, path)
  {
    assert c in Below(directories, path) && c !in Below(directories, c);
  }

  /** How often each file has come up: the direct ones, and those below the first `n` children. */
  ghost predicate Counted(directories: set<string>, files: set<FileInfo>, path: string, children: seq<string>, n: nat,
      rows: seq<FileInfo>)
    requires n <= |children|
  {
    forall f :: multiset(rows)[f] ==
          if f in DirectFiles(files, path) || ShownInOne(directories, files, children[..n], f) then 1 else 0
  }

  ghost predicate EachOnce(directories: set<string>, files: set<FileInfo>, path: string, rows: seq<FileInfo>) {
    forall f :: multiset(rows)[f] == if Shown(directories, files, path, f) then 1 else 0
  }

  lemma DirectCounted(directories: set<string>, files: set<FileInfo>, path: string, children: seq<string>,
      rows: seq<FileInfo>)
    requires Lists(Before(ByKey, Asc), DirectFiles(files, path), rows)
    ensures Counted(directories, files, path, children, 0, rows)
  {
    forall f ensures multiset(rows)[f] ==
            if f in DirectFiles(files, path) || ShownInOne(directories, files, children[..0], f) then 1 else 0 {
      if f in rows {
        PosOrder(Asc, PosOf(ByKey, f), PosOf(ByKey, f), PosOf(ByKey, f));
        SortedOnce(Before(ByKey, Asc), rows, f);
      }
    }
  }

  lemma ChildCounted(directories: set<string>, files: set<FileInfo>, path: string, children: seq<string>, n: nat,
      rows: seq<FileInfo>, sub: seq<FileInfo>)
    requires Navigable(directories) && (path == "" || path in directories)
    requires Lists(Less, ChildDirs(directories, path), children) && n < |children|
    requires Counted(directories, files, path, children, n, rows) && EachOnce(directories, files, children[n], sub)
    ensures Counted(directories, files, path, children, n + 1, rows + sub)
  {
    forall f
      ensures multiset(rows + sub)[f] ==
                if f in DirectFiles(files, path) || ShownInOne(directories, files, children[..n + 1], f) then 1 else 0
    {
      ShownSplits(directories, files, path, children, f);
      OneMore(directories, files, children, n, f);
      assert multiset(rows + sub)[f] == multiset(rows)[f] + multiset(sub)[f];
    }
  }

  lemma OneMore(directories: set<string>, files: set<FileInfo>, children: seq<string>, n: nat, f: FileInfo)
    requires n < |children|
    ensures ShownInOne(directories, files, children[..n + 1], f) <==>
              ShownInOne(directories, files, children[..n], f) || Shown(directories, files, children[n], f)
    ensures ShownInOne(directories, files, children[..n], f) ==>
                exists j :: 0 <= j < n && Shown(directories, files, children[j], f)
    ensures ShownInOne(directories, files, children[..n + 1], f) ==> ShownInOne(directories, files, children, f)
  {
    var init, more := children[..n], children[..n + 1];
    if j :| 0 <= j < n && Shown(directories, files, init[j], f) {
      assert more[j] == children[j];
    }
    if Shown(directories, files, children[n], f) { assert more[n] == children[n]; }
    if j :| 0 <= j < |more| && Shown(directories, files, more[j], f) {
      assert j < n ==> init[j] == children[j];
    }
  }

  /** The client: list a directory, then every directory found in it. Each file that has to be shown comes once. */
  method BrowseTree(directories: set<string>, files: set<FileInfo>, path: string) returns (r: Result<seq<FileInfo>>)
    requires TablesOk(directories, files) && Navigable(directories)
    requires path == "" || path in directories
    ensures r.Ok? && EachOnce(directories, files, path, r.value)
    decreases Below(directories, path)
  {
    var listing := ListWhole(directories, files, path);
    var children, rows := listing.value.0, listing.value.1;
    DirectCounted(directories, files, path, children, rows);
    var i := 0;
    while i < |children|
      invariant 0 <= i <= |children|
      invariant Counted(directories, files, path, children, i, rows)
    {
      assert children[i] in children;
      BelowShrinks(directories, path, children[i]);
      var sub := BrowseTree(directories, files, children[i]);
      ChildCounted(directories, files, path, children, i, rows, sub.value);
      rows := rows + sub.value;
      i := i + 1;
    }
    AllCounted(directories, files, path, children, rows);
    r := Ok(rows);
  }

  lemma AllCounted(directories: set<string>, files: set<FileInfo>, path: string, children: seq<string>,
      rows: seq<FileInfo>)
    requires Navigable(directories) && (path == "" || path in directories)
    requires Lists(Less, ChildDirs(directories, path), children)
    requires Counted(directories, files, path, children, |children|, rows)
    ensures EachOnce(directories, files, path, rows)
  {
    assert children[..|children|] == children;
    forall f ensures multiset(rows)[f] == if Shown(directories, files, path, f) then 1 else 0 {
      ShownSplits(directories, files, path, children, f);
    }
  }

  // ---- With an exact directory index ----------------------------------------------------------

  /** The read model shows rows of `files` under their keys. */
  ghost predicate ReadModel(t: DirectoryIndex.Tables, files: set<FileInfo>) {
    TableOk(files) && forall f :: f in files ==> f.id in t.files && t.files[f.id].key == f.key
  }

  /** Non-marker keys are tame: the condition under which browsing from the root is complete. */
  ghost predicate TameTable(t: DirectoryIndex.Tables) {
    forall id :: id in t.files && !IsMarker(t.files[id].key) ==> Tame(t.files[id].key)
  }

  /** With an exact index, the endpoint answers every stored directory with that directory iff the keys are tame. */
  lemma NavigableIff(t: DirectoryIndex.Tables)
    requires DirectoryIndex.Good(t)
    ensures TameTable(t) <==> Navigable(t.directories)
  {
    forall d | d in t.directories ensures IsDirPath(d) && (Parent(d) == "" || Parent(d) in t.directories) {
      var id :| id in t.files && DirectoryIndex.Under(d, t.files[id].key);
      if Parent(d) != "" {
        assert DirectoryIndex.Under(Parent(d), t.files[id].key);
        assert DirectoryIndex.HasFileUnder(t.files, Parent(d));
      }
    }
    if TameTable(t) {
      forall d | d in t.directories ensures NormalizeDirPath(d) == Ok(d) {
        var id :| id in t.files && DirectoryIndex.Under(d, t.files[id].key);
        AncestorsAreDirPrefixes(t.files[id].key, d);
        TameIff(t.files[id].key);
      }
    }
    if Navigable(t.directories) {
      forall id | id in t.files && !IsMarker(t.files[id].key) ensures Tame(t.files[id].key) {
        TameIff(t.files[id].key);
        forall d | d in Ancestors(t.files[id].key) ensures NormalizeDirPath(d) == Ok(d) {
          AncestorsAreDirPrefixes(t.files[id].key, d);
          assert DirectoryIndex.HasFileUnder(t.files, d);
        }
      }
    }
  }

  /**
   * When a key is not tame, following the listings from the root reaches a directory of that key which
   * the endpoint refuses or answers with the listing of another directory.
   */
  lemma WildKeyMisleads(t: DirectoryIndex.Tables, id: int) returns (d: string)
    requires DirectoryIndex.Good(t) && id in t.files && !IsMarker(t.files[id].key) && !Tame(t.files[id].key)
    ensures d in t.directories && d < t.files[id].key && NormalizeDirPath(d) != Ok(d)
    ensures forall e :: IsDirPath(e) && e < d ==> e in t.directories && NormalizeDirPath(e) == Ok(e)
  {
    var k := t.files[id].key;
    TameIff(k);
    d :| d in Ancestors(k) && NormalizeDirPath(d) != Ok(d);
    d := FirstWild(k, d);
    forall e | IsDirPath(e) && e <= d ensures e in t.directories {
      assert DirectoryIndex.Under(e, k);
      assert DirectoryIndex.HasFileUnder(t.files, e);
    }
  }

  lemma {:induction false} FirstWild(k: string, d: string) returns (w: string)
    requires !IsMarker(k) && d in Ancestors(k) && NormalizeDirPath(d) != Ok(d)
    ensures IsDirPath(w) && w < k && NormalizeDirPath(w) != Ok(w)
    ensures forall e :: IsDirPath(e) && e < w ==> NormalizeDirPath(e) == Ok(e)
    decreases |d|
  {
    AncestorsAreDirPrefixes(k, d);
    if e :| IsDirPath(e) && e < d && NormalizeDirPath(e) != Ok(e) {
      AncestorsAreDirPrefixes(k, e);
      w := FirstWild(k, e);
    } else {
      w := d;
    }
  }

  /** With an exact index every non-marker file has to be shown from the root; a marker iff it names a directory. */
  lemma IndexShowsAll(t: DirectoryIndex.Tables, files: set<FileInfo>, f: FileInfo)
    requires DirectoryIndex.Good(t) && ReadModel(t, files) && f in files
    ensures Shown(t.directories, files, "", f) <==> !IsMarker(f.key) || f.key in t.directories
  {
    var d := Dir(f.key);
    if IsMarker(f.key) {
      DirUnique(f.key, f.key);
    } else if d != "" {
      assert DirectoryIndex.Under(d, f.key);
      assert DirectoryIndex.HasFileUnder(t.files, d);
    }
  }

  /** Browsing from the root shows every non-marker file exactly once, and nothing that is not there. */
  method BrowseRoot(t: DirectoryIndex.Tables, files: set<FileInfo>) returns (r: Result<seq<FileInfo>>)
    requires DirectoryIndex.Good(t) && ReadModel(t, files) && TameTable(t)
    ensures r.Ok?
    ensures forall f :: f in r.value ==> f in files
    ensures forall f :: f in files && !IsMarker(f.key) ==> multiset(r.value)[f] == 1
    ensures forall f :: f in files && IsMarker(f.key) ==>
                multiset(r.value)[f] == if f.key in t.directories then 1 else 0
  {
    NavigableIff(t);
    r := BrowseTree(t.directories, files, "");
    forall f | f in files
      ensures multiset(r.value)[f] == if !IsMarker(f.key) || f.key in t.directories then 1 else 0
    {
      IndexShowsAll(t, files, f);
    }
    forall f | f in r.value ensures f in files {
      assert multiset(r.value)[f] > 0;
    }
  }

  // ---- A wild file is never shown -------------------------------------------------------------

  /** A path the endpoint answers with itself, or the root. */
  predicate Normal(q: string) {
    q == "" || (IsDirPath(q) && NormalizeDirPath(q) == Ok(q))
  }

  /** A leading "/" is lost on the way: the listing is that of the directory without it. */
  lemma LeadingSlashIsLost(d: string)
    requires IsDirPath(d) && "/" <= d && d != "/" && !HasDotDotSegment(d)
    ensures NormalizeDirPath(d) == Ok(d[1..]) && !HasDotDotSegment(d[1..])
  {
    assert d[1..][|d| - 2] == '/';
    assert SlashIndex(d) == 0;
    assert Split(d) == [d[..0]] + Split(d[1..]);
  }

  /** A request for a listed child of a normal path is refused or answered with a normal path. */
  lemma ChildIsAnsweredNormally(q: string, d: string)
    requires Normal(q) && IsDirPath(d) && Parent(d) == q && NormalizeDirPath(d).Ok?
    ensures Normal(NormalizeDirPath(d).value)
  {
    SlashNormal();
    NormalDirs(d);
    if "/" <= d && d != "/" {
      LeadingSlashIsLost(d);
      var e := d[1..];
      NormalDirs(e);
      if "/" <= e && e != "/" {
        assert d[..2] == "//" && IsDirPath(d[..2]);
        PrefixOfParent(d[..2], d);
        NormalDirs(q);
      }
    }
  }

  /** Requests from the root on, each for a directory that the answer before it listed. */
  ghost predicate IsVisit(directories: set<string>, paths: seq<string>) {
    && (forall d :: d in directories ==> IsDirPath(d)) && |paths| > 0 && paths[0] == ""
    && (forall i :: 0 <= i < |paths| ==> NormalizeDirPath(paths[i]).Ok?)
    && (forall i :: 0 <= i < |paths| - 1 ==> paths[i + 1] in ChildDirs(directories, NormalizeDirPath(paths[i]).value))
  }

  function Answered(paths: seq<string>): string
    requires |paths| > 0 && NormalizeDirPath(paths[|paths| - 1]).Ok?
  {
    NormalizeDirPath(paths[|paths| - 1]).value
  }

  lemma {:induction false} VisitsAreNormal(directories: set<string>, paths: seq<string>)
    requires IsVisit(directories, paths)
    ensures Normal(Answered(paths))
    decreases |paths|
  {
    var n := |paths| - 1;
    if n > 0 {
      VisitsAreNormal(directories, paths[..n]);
      assert paths[n - 1 + 1] in ChildDirs(directories, NormalizeDirPath(paths[n - 1]).value);
      ChildIsAnsweredNormally(NormalizeDirPath(paths[n - 1]).value, paths[n]);
    }
  }

  /** However a client goes on from listing to listing, no answer has a file with a wild key among its direct files. */
  lemma WildFileIsMissed(directories: set<string>, files: set<FileInfo>, paths: seq<string>, f: FileInfo)
    requires IsVisit(directories, paths) && !IsMarker(f.key) && !Tame(f.key)
    ensures f !in DirectFiles(files, Answered(paths))
  {
    var q := Answered(paths);
    VisitsAreNormal(directories, paths);
    DirectMeansDir(files, q, f);
    if Dir(f.key) == q {
      SlashNormal();
      if q != "" { NormalDirs(q); }
    }
  }

  /** With navigable keys, the way down to a directory is a visit that is answered with it. */
  lemma {:induction false} VisitTo(directories: set<string>, d: string) returns (paths: seq<string>)
    requires Navigable(directories) && (d == "" || d in directories)
    ensures IsVisit(directories, paths) && Answered(paths) == d
    decreases |d|
  {
    if d == "" {
      paths := [""];
    } else {
      var up := VisitTo(directories, Parent(d));
      paths := up + [d];
    }
  }

  /** Some chain of requests shows `f`. */
  ghost predicate Reachable(directories: set<string>, files: set<FileInfo>, f: FileInfo) {
    exists paths :: IsVisit(directories, paths) && f in DirectFiles(files, Answered(paths))
  }

  /** With an exact index, every non-marker file can be reached from the root iff every key is tame. */
  lemma BrowsingIsCompleteIff(t: DirectoryIndex.Tables, files: set<FileInfo>)
    requires DirectoryIndex.Good(t) && ReadModel(t, files)
    requires forall id :: id in t.files ==> exists f :: f in files && f.id == id
    ensures TameTable(t) <==> forall f :: f in files && !IsMarker(f.key) ==> Reachable(t.directories, files, f)
  {
    NavigableIff(t);
    if TameTable(t) {
      forall f | f in files && !IsMarker(f.key) ensures Reachable(t.directories, files, f) {
        IndexShowsAll(t, files, f);
        var paths := VisitTo(t.directories, Dir(f.key));
        DirectMeansDir(files, Dir(f.key), f);
      }
    } else {
      var id :| id in t.files && !IsMarker(t.files[id].key) && !Tame(t.files[id].key);
      var f :| f in files && f.id == id;
      if paths :| IsVisit(t.directories, paths) && f in DirectFiles(files, Answered(paths)) {
        WildFileIsMissed(t.directories, files, paths, f);
      }
    }
  }
}
