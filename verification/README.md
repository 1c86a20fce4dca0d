# File indexer: a verified model

The file indexer keeps an S3 bucket browsable. A crawler and the upload path register objects in
Postgres (`files`), a materialised `directories` table makes prefixes listable, index workers take jobs
from `index_queue`, and services list, move and delete. This project models the protocols between the
two stores and proves what they keep, over every run, every page walk and every interleaving.

| files | what they hold |
|---|---|
| `Common`, `Ordering`, `Measures` | results and codes, byte order, sorted results, totals over tables |
| `Paths`, `Like` | keys as paths, the ancestor explosion, the byte-range subtree test, validators, LIKE |
| `DirectoryIndex` | the two tables, their transactions, exactness of the index over serial runs |
| `MoveProtocol`, `MoveLiveness`, `MoveLocks` | any number of concurrent movers; deadlock; lock acquisition |
| `FilesService` | the move request and the batched directory delete |
| `Keyset`, `Search`, `SearchWalks`, `DirectoryWalks`, `Browse` | page tokens, list endpoints, page walks, recursive browsing |
| `IndexQueue`, `QueueDrain`, `Runner` | the work queue as a state machine, its retry bound, the worker loop |
| `Crawler` | the crawl with others at work |
| `MultipartUpload` | the resumable upload |

A SQL statement or transaction is one atomic step. Calls that can fail are non-deterministic: they may
fail with or without effect where the source allows both; a `reliable` flag says that no call fails, and then success
is promised (in `FilesService` one flag for the database and one for the object store). Loops over changing state are methods; a method with others at work calls one that performs any number of
arbitrary enabled steps (`Runner.Worker.Others`, `Crawler.Crawler.Others`, `MultipartUpload.Client.Meanwhile`), and
keeps the whole history, with its own steps marked, for the contract to speak about. Strings are
sequences of code points, whose order is UTF-8 byte order, as `COLLATE "C"` compares.

## Where the code gives less than its comments say

- A move locks the key it read before waiting but copies and deletes the key it re-reads. Safety holds
  whenever the re-read key is one of the two locked ones (`MoveProtocol.MoveSafety`); from any state
  where it is not, a third call can destroy a file (`MoveLiveness.UnlockedRereadLosesFile`), and such
  states are reached from the initial one (`MoveLiveness.UnsafeRunExists`).
- Hash collisions of lock ids are said to cost only serialisation. Any set of calls can deadlock exactly when
  their lock ids form a cycle, first id to second id, through at least two ids (`MoveLiveness.DeadlockIff`);
  for two calls, when their sorted keys collide crosswise.
- Completing a job captures `marked_at` at completion, so an edit registered after the object was read is
  absorbed (`IndexQueue.MidFlightEditIsAbsorbed`); completion keeps results fresh iff there was none
  (`IndexQueue.CompleteIsFreshIff`).
- Fail and complete do not check who owns the claim. Between resets of its row a file is claimed at most the limit
  plus once for each overrun: a claim of a still claimed row, or the failure of an attempt that is not the row's
  current one (`QueueDrain.AttemptsBounded`). A done row is undone by a reset or by the failure of a claim still open
  (`QueueDrain.LeavesDoneIff`); a file that is never reclaimed has neither overruns nor such claims, whatever becomes
  of the claims of other files (`QueueDrain.DoneStaysDone`, `QueueDrain.AttemptsWithoutReclaim`). Two runs show that
  expired claims do cost this.
- A move does not re-stamp `seen_at`. A crawl removes exactly the rows that were stale at the cutoff and whose key
  nobody has upserted since; if the row's object is held and not ignored, exactly those of them that were moved to
  their key after the listing had passed it (`Crawler.RemovedIff`, `Crawler.SweepIsExact`). That such rows exist is
  shown by `Crawler.MoveDuringWalkIsSwept`.
- The batch delete trusts its caller's keys; the index stays exact iff they cover the orphaned paths
  (`DirectoryIndex.BatchDeleteKeepsIndexIff`).
- Pruning before upserting is said to protect the destination's directories; the two commute, because the
  row is updated first (`DirectoryIndex.MoveKeepsIndex`).
- A key with a ".." directory segment, or with a leading "/" unless its directory is "/" itself, has a directory the
  browse endpoint refuses or answers with another one (`Paths.TameIff`). Such a file is never shown, however a client
  goes from listing to listing, and that is exactly when browsing is incomplete (`Browse.BrowsingIsCompleteIff`).

## Model

| member | source | states |
|---|---|---|
| `Paths.AncestorsAreDirPrefixes` | internal/db/directories.sql.go:170-178 | the split-and-rejoin explosion of a key yields exactly its proper "/"-terminated prefixes, and nothing for a marker |
| `Paths.RangeIsPrefix` | internal/db/directories.sql.go:90-92 | for every path ending in "/", lying strictly between the path and its skip-past in byte order is the same as having it as a proper prefix |
| `Paths.RangeBelow` | internal/db/directories.sql.go:200-204 | whatever a path ends in, the range holds what is below path + "/" iff that last character sorts before "0", so the trailing "/" is needed |
| `Paths.ParentIsCapture` | internal/db/migrations/001_initial.sql:72-76 | the generated parent column is the longest proper "/"-terminated prefix, and "" exactly at top level |
| `Paths.TameIff` | internal/service/search/server.go:457-469 | a key's directories all survive path normalisation unchanged iff it has no ".." directory segment and no leading "/" unless its directory is "/" itself |
| `Paths.BrowsableIsTame` | internal/service/files/server.go:553-564 | keys accepted for upload are navigable |
| `Paths.ValidatedKeys` | internal/service/files/server.go:553-586 | exactly which keys and directory paths the two validators accept, and that an accepted path is in browse form |
| `Paths.DotDotMeans` | internal/service/search/server.go:475-482 | a path is refused for a ".." exactly when one stands between slashes or the ends of the path |
| `Paths.TrailingSlash` | internal/service/search/server.go:457-469 | a path with and without its trailing "/" names the same directory |
| `Paths.NormalizeMeans` | internal/service/search/server.go:457-469 | exactly the paths with a ".." segment are refused; any other, "" and "/" apart, names itself with a trailing "/" and without one leading "/" |
| `Like.EscapedExact` | internal/service/search/server.go:547-550 | an escaped string matches itself and nothing else |
| `Like.EscapedIsPrefixTest` | internal/service/files/server.go:699-702 | escaped text followed by "%" matches exactly the strings with that prefix |
| `Like.EscapedIsSubstringTest` | internal/service/search/server.go:191 | escaped text between two "%" matches exactly the strings containing it |
| `Like.ContentTypePatternMeaning` | internal/service/search/server.go:534-543 | a content type filter is an exact match, or a prefix match for a category |
| `DirectoryIndex.UpsertRestamps` | internal/db/files.sql.go:866-877 | a listed row is stamped with the transaction time and carries the newest mark it was ever given |
| `DirectoryIndex.UpsertUntouched` | internal/db/files.sql.go:866-877 | rows whose key is not listed are left alone |
| `DirectoryIndex.UpsertCovers` | internal/db/files.sql.go:866-877 | every listed key has a row afterwards |
| `DirectoryIndex.AncestorsOfMeaning` | internal/db/directories.sql.go:168-180 | the directories upserted for a batch are those some key of it lies under |
| `DirectoryIndex.SubtreeEmptyMeaning` | internal/db/directories.sql.go:68-73 | the prune's emptiness test is the absence of any non-marker file below the path |
| `DirectoryIndex.MarkerIsPattern` | internal/db/directories.sql.go:68-73 | the keys left out of that test are those ending in "/", which is what the pattern of the statement matches |
| `DirectoryIndex.ScopedPruneAgrees` | internal/db/directories.sql.go:56-95 | scoped and unscoped prune agree whenever only ancestors of the given keys can be empty |
| `DirectoryIndex.UpsertKeepsIndex` | internal/db/store.go:62-72 | an upsert keeps `directories` equal to the paths with a non-marker file below |
| `DirectoryIndex.DeleteKeepsIndex` | internal/db/store.go:77-87 | so does deleting one file |
| `DirectoryIndex.MoveKeepsIndex` | internal/db/store.go:102-122 | so does a move, and its prune and upsert commute |
| `DirectoryIndex.MoveToOwnKey` | internal/db/store.go:102-122 | moving a row to its own key changes nothing |
| `DirectoryIndex.SweepKeepsIndex` | internal/db/store.go:168-178 | so does the sweep |
| `DirectoryIndex.BatchDeleteKeepsIndexIff` | internal/db/store.go:133-143 | a batch delete keeps the index exact iff the caller's keys cover the paths it orphans |
| `DirectoryIndex.StaleBatchKeysBreakIndex` | internal/db/store.go:133-143 | with the keys of moved rows it does not |
| `DirectoryIndex.TransactionRows` | internal/db/store.go:62-178 | row by row: a delete removes that row, a batch delete the rows with those ids, a move changes one key, a sweep keeps exactly the rows seen since the cutoff, an upsert leaves unlisted rows whole and one stamped row at every listed key; nothing else changes |
| `DirectoryIndex.RunKeepsIndex` | internal/db/store.go:62-178 | every serial run of upserts, deletes, moves, batch deletes with current keys and sweeps keeps the index exact in every state |
| `DirectoryIndex.Store.UpsertFilesWithDirectories` | internal/db/store.go:62-72 | on commit every listed key has one row, stamped and with its newest mark, and all other rows are as they were; an abort changes nothing; the index stays exact |
| `DirectoryIndex.Store.DeleteFileWithDirectories` | internal/db/store.go:77-87 | on success exactly that row is gone and returned; a missing row or an abort changes nothing; the index stays exact |
| `DirectoryIndex.Store.MoveFileWithDirectories` | internal/db/store.go:102-122 | on success exactly that row has the new key and nothing else about any row has changed; not found, already exists and success are told apart exactly, and failures change nothing |
| `DirectoryIndex.Store.DeleteFilesByIDsWithDirectories` | internal/db/store.go:133-143 | on success exactly the rows with these ids are gone, and counted; the index stays exact if the keys cover what is orphaned |
| `DirectoryIndex.Store.DeleteUnseenFilesWithDirectories` | internal/db/store.go:168-178 | on success the rows left are exactly those seen since the cutoff, unchanged, the others are counted, and the index stays exact |
| `MoveProtocol.StepKeepsInv` | internal/service/files/server.go:328-390 | every step of any mover, failing or not, keeps the protocol invariant if the re-read key is locked |
| `MoveProtocol.MoveSafety` | internal/service/files/server.go:328-390 | in every interleaving of any number of movers, with failures and crashes, every row's key always holds that file's original content |
| `MoveLiveness.StepKeepsLockInv` | internal/db/store.go:198-245 | locks are held exactly by the calls that took them, in every step |
| `MoveLiveness.NoDeadlock` | internal/db/store.go:180-245 | without hash collisions among the keys in play, some call can always take its next step |
| `MoveLiveness.RunsAreFinite` | internal/service/files/server.go:328-390 | without new calls every run ends, within a bound fixed at its start |
| `MoveLiveness.DeadlockIff` | internal/db/store.go:188-198 | any number of fresh calls, under any hash, can come to wait for each other iff their lock ids form a cycle through at least two ids |
| `MoveLiveness.DeadlockHasCycle` | internal/db/advisory_lock.sql.go:12-14 | in every state of the protocol, calls that wait for each other form such a cycle |
| `MoveLiveness.DeadlockStays` | internal/db/advisory_lock.sql.go:12-14 | as long as no lock call fails and no replica crashes, a deadlock stays |
| `MoveLiveness.TwoCallsDeadlockIff` | internal/db/advisory_lock.sql.go:12-14 | for two calls the cycle is a crossing of the hashes of their sorted keys |
| `MoveLiveness.MoveCanFinish` | internal/service/files/server.go:328-390 | in every state, a call whose two locks are free can run to its end at once: row and content are at the new key and the old object is gone, or the destination is taken and nothing has changed |
| `MoveLiveness.UnlockedRereadLosesFile` | internal/service/files/server.go:345-388 | from any state where a call is about to re-read a key it did not lock, another call can make it delete a live object |
| `MoveLiveness.UnsafeRunExists` | internal/service/files/server.go:335-388 | such a run exists from an initial state |
| `MoveLiveness.MoveCanAbort` | internal/service/files/server.go:363-381 | in every such state whose destination is free, a call whose update aborts can take its copy back and leave all else as it was |
| `MoveLocks.Session.AcquireMoveLocks` | internal/db/store.go:198-245 | on success each distinct key is locked once, in byte order; on failure the session holds what it held before |
| `MoveLocks.Session.LockInOrder` | internal/db/store.go:216-233 | the locks taken are a prefix of the sorted keys, all of them unless a call fails |
| `MoveLocks.Session.ReleaseAll` | internal/db/store.go:235-243 | releasing gives back one lock a key |
| `MoveLocks.Deduplicate` | internal/db/store.go:199-207 | the same keys, each once |
| `MoveLocks.LockOrderOfMove` | internal/service/files/server.go:333-335 | the acquisition order is the order of the move protocol |
| `FilesService.FilesService.MoveFile` | internal/service/files/server.go:280-320 | no row ever loses its object; the error codes say which check failed, any error but a failed final read leaves the tables unchanged, and with no failing call the outcome is determined |
| `FilesService.FilesService.MoveFileWithLocks` | internal/service/files/server.go:328-390 | run alone: the row and its content are at the new key, or the tables are unchanged; only the two keys are touched and the locks are released |
| `FilesService.FilesService.MoveLocked` | internal/service/files/server.go:345-389 | the critical section's outcomes; while the object store works, an abort takes the copy back whatever the database does, and a success removes the old object |
| `FilesService.FilesService.DeleteDirectory` | internal/service/files/server.go:632-693 | success removes exactly the rows under the path and their objects, with the exact count; failure leaves an initial segment of rows gone, each after its objects; with no failing call it succeeds |
| `FilesService.FilesService.DeletePage` | internal/service/files/server.go:642-690 | one round removes the lowest remaining ids, and a page shorter than the batch size is the last |
| `FilesService.FilesService.DeleteBatch` | internal/service/files/server.go:662-683 | a batch's rows go only once all its objects have |
| `FilesService.FilesService.GetDirectoryStats` | internal/service/files/server.go:605-615 | the numbers shown are how many rows a delete of the path would remove and the total of their sizes |
| `FilesService.ListFilesForDelete` | internal/db/files.sql.go:789-795 | a page is the lowest remaining ids, up to the limit |
| `FilesService.Collect` | internal/service/files/server.go:662-672 | the object keys of a batch are its sources and its non-empty previews, and the source keys are current |
| `FilesService.CursorMoves` | internal/service/files/server.go:685-690 | a page moves the cursor over exactly its rows, and a short page ends the walk |
| `FilesService.WipedMeans` | internal/service/files/server.go:642-690 | what a successful delete leaves, entry by entry: rows below the path, their objects and their non-empty previews are gone, everything else is as it was |
| `FilesService.RetryEndsAlike` | internal/service/files/server.go:624-631 | a failed attempt does not change where a retry ends |
| `FilesService.AnyRetriesEndAlike` | internal/service/files/server.go:624-631 | any number of failed attempts followed by a success reach the state one success would have |
| `Keyset.Lookahead` | internal/service/search/server.go:138-148 | fetching one extra row decides exactly whether there is another page |
| `Keyset.SteadyRowReached` | internal/db/files.sql.go:229-239 | a row that keeps its sort position is returned by some page of a finished walk |
| `Keyset.WalkIsStable` | internal/db/files.sql.go:229-239 | a finished walk is strictly ascending and returns every row present throughout |
| `Keyset.ChainIsShort` | internal/db/files.sql.go:229-239 | over a fixed table a chain of tokens is no longer than the table |
| `Keyset.FixedWalkIsOrdered` | internal/db/files.sql.go:229-239 | over a fixed table the pages concatenate to the sorted table |
| `Search.CursorStandsAtRow` | internal/service/search/cursor.go:25-106 | in every sort, a token issued for a row compares as the row itself does |
| `Search.NormalizePageSize` | internal/service/search/server.go:520-529 | the effective page size is the requested one within bounds, the default for 0 and the maximum above it |
| `Search.OrderMeans` | internal/db/files.sql.go:229-239 | a list query's order is by the column asked for, NULL counting as the epoch or 0, ties by id; descending is the reverse |
| `Search.SelectedMeans` | internal/db/files.sql.go:229-239 | the WHERE clause keeps what matches the text and the content type and, in a directory, what has its path as a prefix and no further "/" |
| `SearchWalks.ListFilesPage` | internal/service/search/server.go:119-158 | a page is the first rows behind the cursor, with a token iff there are more, and the token stands at the last row |
| `SearchWalks.TokensAreBoundToQuery` | internal/service/search/server.go:129-134 | a token is accepted iff sort, query and content type are those it was issued for |
| `SearchWalks.ListFilesStable` | internal/service/search/server.go:119-158 | for each sort and direction, over tables that change between pages, the walk is strictly ordered, pages are full, and a row keeping its id, sort value and match comes exactly once |
| `SearchWalks.ListFilesComplete` | internal/service/search/server.go:119-158 | over a fixed table the pages are the sorted matches |
| `SearchWalks.ListFilesInOrder` | internal/service/search/server.go:119-158 | in every walk, whatever the tables do, earlier rows come before later ones in the columns asked for: ascending unless descending is asked for, by key if nothing is |
| `SearchWalks.ListFilesReturns` | internal/service/search/server.go:119-158 | over a fixed table a row comes exactly once if it matches the text and content type asked for, and otherwise not at all |
| `DirectoryWalks.ListDirectoryPage` | internal/service/search/server.go:325-409 | a page is the first open entries across both phases, with a token iff there are more, and the token hands on exactly there |
| `DirectoryWalks.SentinelHandsOn` | internal/service/search/server.go:194-198 | the id-0 token after directories fill a page exactly skips no file and repeats no directory |
| `DirectoryWalks.DirectoryWalkStable` | internal/service/search/server.go:325-409 | over changing tables a browse walk is strictly ordered, entries that keep their place come exactly once, and non-final pages are exactly full |
| `DirectoryWalks.DirectoryWalkComplete` | internal/service/search/server.go:325-409 | over fixed tables the pages are the sorted children and then the sorted direct files, and the number of pages is bounded |
| `DirectoryWalks.DirectoryWalkEnds` | internal/service/search/server.go:350-405 | whatever page sizes a client asks for, following tokens over fixed tables comes to an end, also when directories fill a page exactly |
| `DirectoryWalks.IssuedTokenIsAccepted` | internal/service/search/server.go:335-345 | a token is accepted by the listing it was issued for |
| `DirectoryWalks.ArrivedIsWalk` | internal/service/search/server.go:325-409 | what it then has is a finished walk in the sense of the two results above |
| `DirectoryWalks.PagingListsDirectory` | internal/service/search/server.go:325-409 | for any sequence of page sizes, paging through any directory of fixed tables ends, in full pages, with exactly its sorted children and then its sorted direct files |
| `DirectoryWalks.ListingHolds` | internal/service/search/server.go:325-409 | that listing holds exactly the directories one segment below the path and the files directly in it |
| `DirectoryWalks.ListingInOrder` | internal/service/search/server.go:325-409 | directories by path, then files in the columns and direction asked for |
| `DirectoryWalks.ListingOfPathWithoutSlash` | internal/service/search/server.go:457-469 | a path gets the same answer with and without its trailing "/" |
| `DirectoryWalks.DirectoryTokensAreBound` | internal/service/search/server.go:335-345 | a token is accepted iff the path in effect and the sort are those it was issued for |
| `Browse.FetchChildDirectories` | web/src/components/FolderTree.tsx:11-23 | stopping at the first page with a file still returns exactly the child directories, in order, and every call but the last has brought a full page of them, however many files there are |
| `Browse.ListWhole` | internal/service/search/server.go:325-409 | following tokens to the end lists every child directory and direct file once, in order |
| `Browse.BrowseTree` | internal/service/search/server.go:325-409 | recursion from a directory returns every file it shows exactly once |
| `Browse.BrowseRoot` | internal/service/search/server.go:325-409 | with an exact index and navigable keys, browsing from the root returns every non-marker file exactly once, and a marker iff its own path is a directory |
| `Browse.IndexShowsAll` | internal/db/directories.sql.go:168-180 | an exact index shows every non-marker file from the root |
| `Browse.NavigableIff` | internal/service/search/server.go:457-469 | every directory of the index is reachable under its own name iff every key is navigable |
| `Browse.WildKeyMisleads` | internal/service/search/server.go:457-469 | for every other key, the first directory on its path that browsing cannot name |
| `Browse.LeadingSlashIsLost` | internal/service/search/server.go:464 | every directory path with a leading "/", except "/", is answered with the listing of the path without it |
| `Browse.VisitsAreNormal` | internal/service/search/server.go:457-469 | going from listing to listing from the root, every answer is for a path the endpoint answers with itself |
| `Browse.WildFileIsMissed` | internal/service/search/server.go:325-409 | no such answer has a non-marker file with a non-navigable key among its direct files |
| `Browse.BrowsingIsCompleteIff` | internal/service/search/server.go:325-409 | with an exact index every non-marker file can be reached from the root iff every key is navigable |
| `IndexQueue.StepKeepsMarks` | internal/db/index_queue.sql.go:73-83 | no step makes a mark run ahead of its file, a done row has a mark and a result, and no result outlives its file |
| `IndexQueue.RunKeepsMarks` | internal/db/index_queue.sql.go:197-237 | that holds in every state of every run of workers, edits, deletes and seeds |
| `IndexQueue.SeedCatchesUp` | internal/service/indexer/queue.go:62-72 | right after a seed, whatever others did between its two statements, every file there at its start is queued or gone and every done row carries the current mark |
| `IndexQueue.CompleteIsFreshIff` | internal/db/index_queue.sql.go:73-83 | completion keeps the stored result as new as its mark iff no edit was registered since the read |
| `IndexQueue.RunKeepsFresh` | internal/service/indexer/queue.go:93-111 | in runs without such edits every marked row's result is as new as its mark |
| `IndexQueue.SeededResultsAreCurrent` | internal/db/index_queue.sql.go:197-237 | after such a seed a done row's result is as new as the last registered edit |
| `IndexQueue.MidFlightEditIsAbsorbed` | internal/db/index_queue.sql.go:90-94 | a run in which an edit between read and completion is never picked up by any later seed |
| `IndexQueue.ClaimHolds` | internal/db/index_queue.sql.go:14-35 | a claim stays recorded through seeds, requeues and other steps until it is reported, reclaimed or the file is deleted |
| `IndexQueue.ClaimsAreExclusive` | internal/db/index_queue.sql.go:14-35 | two claims of a file with no report between them are at least the claim TTL apart, in every run |
| `IndexQueue.RetriedIff` | internal/db/index_queue.sql.go:100-108 | after a failed attempt the file can be claimed again iff that attempt was below the limit, from the given time on |
| `IndexQueue.CompletedIsFinal` | internal/db/index_queue.sql.go:73-83 | a completed row cannot be claimed, however long one waits |
| `IndexQueue.ClaimedUntilTtl` | internal/db/index_queue.sql.go:14-35 | a claimed row can be claimed by others exactly once its TTL has passed |
| `IndexQueue.SeededIsClaimable` | internal/db/index_queue.sql.go:227-237 | a seed makes files without a row claimable at once, for a first attempt, and leaves all other rows alone |
| `IndexQueue.RequeuedIff` | internal/db/index_queue.sql.go:197-211 | a requeue makes exactly the rows claimable, for a first attempt, that are pending or done with a mark older than the file's, and leaves all others alone |
| `QueueDrain.ClaimsTakePending` | internal/db/index_queue.sql.go:14-35 | with timely outcomes a claim only ever takes a pending row nobody holds |
| `QueueDrain.RunKeepsInv` | internal/service/indexer/runner.go:101-113 | pending rows stay below the attempt limit and claimed rows within it, each with exactly one worker |
| `QueueDrain.AttemptsBounded` | internal/service/indexer/runner.go:127-190 | in every run that does not reset its row, however many claims are lost, late or expired, a file is claimed as often as its row counts, and at most the limit plus once for each overrun |
| `QueueDrain.AttemptsBetweenResets` | internal/service/indexer/runner.go:127-190 | the same between any two points of a run |
| `QueueDrain.StepKeepsSoleClaim` | internal/db/index_queue.sql.go:14-35 | unless a file is reclaimed while claimed, its one open claim stays the one its row records and nothing overruns, whatever happens to other files |
| `QueueDrain.LeavesDoneIff` | internal/db/index_queue.sql.go:100-108 | a step takes a row out of done iff it is a requeue that resets it or the failure of an open claim of its file |
| `QueueDrain.DoneStaysDone` | internal/db/index_queue.sql.go:100-108 | in every run in which a file is not reclaimed, its row leaves done iff a requeue resets it |
| `QueueDrain.AttemptsWithoutReclaim` | internal/service/indexer/runner.go:101-113 | in every such run the file is claimed at most the limit's number of times between resets |
| `QueueDrain.ClaimsWait` | internal/service/indexer/runner.go:101-113 | in every run in which a file is neither reset nor reclaimed and failures wait for their backoff, consecutive claims are at least the backoff of the earlier one apart |
| `QueueDrain.FailsExactly` | internal/service/indexer/runner.go:101-113 | in such a run in which no attempt succeeds, the file stays pending or claimed until it has been claimed exactly the limit's number of times |
| `QueueDrain.LimitIsReached` | internal/service/indexer/runner.go:101-113 | for every limit and every backoff, a timely run from the empty tables that claims a failing file that often |
| `QueueDrain.TimelyNeverReclaims` | internal/service/indexer/runner.go:101-113 | when every outcome is recorded before the TTL no file is reclaimed |
| `QueueDrain.EmptyIsInv` | internal/db/index_queue.sql.go:227-237 | the empty tables satisfy the invariant that timely runs keep |
| `QueueDrain.TimelyAttempts` | internal/service/indexer/runner.go:101-113 | so from the empty tables on, with timely outcomes, a file is claimed at most the limit's number of times between resets |
| `QueueDrain.StepReducesWork` | internal/service/indexer/runner.go:127-190 | every claim and report strictly reduces the work left, and only a created or reset row adds to it |
| `QueueDrain.RunsDrain` | internal/service/indexer/runner.go:127-190 | the claims and reports of any timely run, plus the work left, never exceed the work at its start plus that of the rows created or reset; idle seeds cost nothing |
| `QueueDrain.DrainedIff` | internal/db/index_queue.sql.go:239-244 | no work is left iff every row is done or parked as an error |
| `QueueDrain.CanDrain` | internal/service/indexer/runner.go:127-190 | from every reachable state the queue can be drained, even if every further attempt fails |
| `QueueDrain.ExpiredClaimsAreUnbounded` | internal/db/index_queue.sql.go:14-35 | a witness for every number: with claims left to expire, a run that claims a file that often |
| `QueueDrain.LateFailUndoesDone` | internal/db/index_queue.sql.go:100-108 | a witness: after an expired claim, a run in which a late failure takes a finished row out of done |
| `Runner.Backoff` | internal/service/indexer/runner.go:195-204 | in 64-bit arithmetic, for base and cap below 2^62, the loop returns the doubled and capped delay without wrapping |
| `Runner.DelayIsMonotone` | internal/service/indexer/runner.go:195-204 | later attempts never wait less, and never longer than the cap |
| `Runner.DelayDoubles` | internal/service/indexer/runner.go:195-204 | the first delay is the base, every further one twice the one before, up to the cap |
| `Runner.WorkerWaits` | internal/service/indexer/runner.go:101-113 | the failures a worker reports wait for that delay, as the spacing of claims needs |
| `Runner.Candidates` | internal/db/index_queue.sql.go:15-24 | a batch is the claimable rows with the earliest next attempt, up to the limit |
| `Runner.Worker.Claim` | internal/service/indexer/queue.go:74-89 | exactly the batch's rows change hands, each under a new handle, and no other claim is touched |
| `Runner.Worker.StatusWrite` | internal/service/indexer/runner.go:82-98 | an outcome is written at most once, and after exactly three failed tries the claim stays as it was; with no failing call only the completion of a deleted file is lost |
| `Runner.Worker.Process` | internal/service/indexer/runner.go:149-160 | the outcome is a completion after reading, or a failure due after the backoff of its attempt |
| `Runner.Worker.Handle` | internal/service/indexer/runner.go:149-167 | a processed job ends in one report of its own claim, or the claim stays open |
| `Runner.Worker.RunBatch` | internal/service/indexer/runner.go:141-168 | after a batch, what is still claimed is exactly what was not reached or could not be recorded; with no failing call all is reached |
| `Runner.Worker.Seed` | internal/service/indexer/queue.go:62-72 | with others at work between its statements, a seed queues every file there at its start and leaves no done row with an old mark |
| `Runner.Worker.RunRound` | internal/service/indexer/runner.go:127-182 | a round claims exactly the batch that is due, works through it and seeds iff the batch was not full |
| `Runner.ClosedOnce` | internal/db/index_queue.sql.go:73-108 | in every run a claim is reported at most once |
| `Runner.Worker.Run` | internal/service/indexer/runner.go:69-191 | with everyone else's steps in its trace: it seeds first, each round claims the batch due, every claim it took is open or closed by its own report, open ones are those lost or not reached, its failures are due on time, and it reports for nobody else |
| `Crawler.StampsSurvive` | internal/db/files.sql.go:839-877 | nothing during a crawl undoes a stamp, except that a move carries an old stamp to a new key |
| `Crawler.IgnoredIffReserved` | internal/service/crawler/crawl.go:100-114 | the crawl ignores a browsable key iff the upload endpoint, and for a directory the delete endpoint, refuses it as reserved |
| `Crawler.SafeEvent` | internal/db/files.sql.go:70-85 | whatever happens, the row of a stamped key is safe from the sweep unless it was moved there behind the listing |
| `Crawler.ReadPage` | internal/storage/s3.go:239-257 | reading a page keeps every object that is held once passed either stamped or still to be |
| `Crawler.ListObjects` | internal/storage/s3.go:239-257 | a listing page holds everything between two positions of the listing |
| `Crawler.Crawler.Flush` | internal/service/crawler/crawl.go:87-98 | a flush upserts and stamps exactly the batch, or fails and changes nothing |
| `Crawler.Crawler.WalkPage` | internal/service/crawler/crawl.go:100-114 | after the callback every unignored object that was passed and is still there is stamped or in the carried batch |
| `Crawler.Crawler.Walk` | internal/service/crawler/crawl.go:100-117 | after a complete walk that holds of the whole bucket, whatever happened meanwhile; alone and with no failing call it completes |
| `Crawler.SafeIff` | internal/db/files.sql.go:866-877 | at any moment since the cutoff a row is safe from the sweep iff it was at the cutoff or its key has been upserted since |
| `Crawler.RemovedIff` | internal/db/files.sql.go:65-68 | the sweep removes a row iff it was not safe at the cutoff and nobody has upserted its key since |
| `Crawler.SweepIsExcused` | internal/service/crawler/crawl.go:122-137 | after a complete walk a row is removed only if it was moved to its key behind the listing, its object was missing once the listing had passed it, or its key is ignored |
| `Crawler.SweepIsExact` | internal/service/crawler/crawl.go:122-137 | both together: which rows go, and that of the held, unignored ones exactly those that are stale, not upserted since and moved behind the listing do |
| `Crawler.StayingRowSurvives` | internal/service/crawler/crawl.go:71-78 | a row that is not moved to its key and whose unignored object stays from cutoff to sweep is not removed |
| `Crawler.GoneObjectIsSwept` | internal/service/crawler/crawl.go:122-137 | a stale row none of whose keys had an object since the cutoff, and that nobody else upserts, is removed, whatever else goes on |
| `Crawler.Crawler.DeleteUnseen` | internal/service/crawler/crawl.go:122-137 | the tables afterwards are the swept ones, with every removed row so excused, or nothing has changed |
| `Crawler.Crawler.Run` | internal/service/crawler/crawl.go:68-141 | over the history since the cutoff: an error means no sweep of its own; success means one sweep, last, at the cutoff, removing exactly the rows so described, and only listed keys upserted; alone it leaves exactly the unignored objects with current marks, and with no failing call it succeeds |
| `Crawler.MoveDuringWalkIsSwept` | internal/db/files.sql.go:839-841 | a witness: a row moved behind the listing is swept although its object was there throughout |
| `MultipartUpload.PlanParts` | web/src/lib/multipartUpload.ts:79-87 | the loop computes the plan |
| `MultipartUpload.PlanTiles` | web/src/lib/multipartUpload.ts:79-87 | the plan tiles the file: numbers from 1, no gap or overlap, every part but the last full |
| `MultipartUpload.PlanLength` | web/src/lib/multipartUpload.ts:79-87 | the number of parts is the size in parts, rounded up |
| `MultipartUpload.LargestFile` | web/src/lib/multipartUpload.ts:16-17 | the files there are enough part numbers for are those of up to 167772160000 bytes |
| `MultipartUpload.PlanMeetsMinimum` | web/src/lib/multipartUpload.ts:16-17 | every part but the last is above the store's minimum |
| `MultipartUpload.ListAllParts` | internal/storage/s3.go:190-205 | paging lists every landed part exactly once, in order |
| `MultipartUpload.PartsAssemble` | internal/storage/s3.go:222-233 | once every planned part has landed, the parts in order are the file's bytes |
| `MultipartUpload.Client.ResumeOrCreateUpload` | web/src/lib/multipartUpload.ts:137-159 | the upload returned belongs to this key and file with exactly its landed parts, is the recorded one whenever that can be resumed, and is on record afterwards |
| `MultipartUpload.FingerprintsAgreeIff` | web/src/lib/multipartUpload.ts:98-100 | the stored text of a fingerprint fits a file iff name, size and time agree, colons in names notwithstanding |
| `MultipartUpload.Client.UploadPartWithRetry` | web/src/lib/multipartUpload.ts:161-185 | success means the part has landed; failure loses nothing that had and, unless the user aborts, comes after exactly three tries |
| `MultipartUpload.LandedAtSize` | web/src/lib/multipartUpload.ts:213 | a part of the file that has landed has landed at its planned size |
| `MultipartUpload.Client.EnsurePart` | web/src/lib/multipartUpload.ts:213-220 | afterwards the part has landed or the call failed, and nothing is sent for one that had landed at its planned size |
| `MultipartUpload.Client.UploadParts` | web/src/lib/multipartUpload.ts:201-223 | if it ends without an error every planned part has landed; only missing parts were sent, and with no failing call each exactly once, in order |
| `MultipartUpload.Client.Cancel` | web/src/lib/multipartUpload.ts:204-208 | a cancelled upload is gone from the store and from the session record |
| `MultipartUpload.Client.CompleteMultipartUpload` | internal/storage/s3.go:222-233 | completion assembles whatever parts have landed, in order, or leaves the object alone |
| `MultipartUpload.Client.UploadFileMultipart` | web/src/lib/multipartUpload.ts:193-227 | success means the object is the file; otherwise it is as it was or the file already; completion is never asked for with a part missing, no landed part is sent again, a failed attempt with nothing lost leaves its upload on record to be resumed, and with no failing call a file within the part limit is uploaded |
| `MultipartUpload.Client.TwoAttempts` | web/src/lib/multipartUpload.ts:187-227 | after a failed attempt, with nothing lost, the next one goes on with the same upload and sends no part that had landed, and with no failing call finishes sending each missing part once; unless the first one's completion had taken effect |
| `MultipartUpload.Client.Attempts` | web/src/lib/multipartUpload.ts:137-227 | after any series of interrupted attempts, a key once uploaded holds its file until another is sent there |

## Left out

- gRPC plumbing, request validation interceptors, server start-up, configuration, logging, health and metrics: they only add easy members; requests are taken as validated.
- Page token bytes (protobuf and base64url): a library round trip; a token is a datatype here.
- SearchDirectories: the same keyset walk as ListChildDirectories with a text filter in place of the parent test.
- ILIKE and trigram matching: an arbitrary predicate, so results hold for every matcher.
- Preview status, content type listing, presigned URLs, EXIF and image decoding, preview garbage collection: field copying, unseen libraries and wall-clock assumptions.
- React components other than the folder tree's fetch loop: user interface.
- Interleavings inside one transaction, ambiguous commits, failed unlock calls and pool exhaustion: transactions are atomic with a definite result, and connections are available.
- MoveProtocol.MoveSafety: no writer other than movers touches the keys in play; the first, unlocked look at the destination is omitted, which only allows more runs, and releasing the locks is one step.
- MoveLiveness.NoDeadlock: the database's own deadlock detector appears only as a lock call that fails.
- FilesService.FilesService.DeleteDirectory: nobody else writes the tables while it runs.
- FilesService.FilesService.MoveFile: this contract is for a move run alone; interleavings are in MoveProtocol.
- IndexQueue.ClaimsAreExclusive: a batch claim is a series of single claims at the same instant, which Runner.Worker.Claim ties to the batch statement; attempt counters are unbounded integers.
- Runner.Worker.Run: any number of iterations instead of an endless loop; the counts a seed reports are not modelled.
- QueueDrain.AttemptsBounded: needs at least one attempt and a positive claim TTL to be configured.
- Crawler.StayingRowSurvives: an upsert stamps with the clock at its commit. In the source it stamps with the start of its transaction and keeps no maximum, so one begun before the cutoff and committed after the crawl's own upsert can set the stamp back, and the row is swept although its object stayed and nothing moved.
- Crawler.Crawler.Run: the walk is cancelled after a given number of listing requests, since a bucket that keeps growing could be listed for ever.
- MultipartUpload.Client.UploadFileMultipart: equal fingerprints mean equal bytes, one client per key; progress callbacks are not modelled.
- DeleteFile and upload commit requests: one store transaction each after an object call; the store methods carry their content.
- Row ids follow insertion order without gaps; only positivity and that ids are never reused is relied on.
