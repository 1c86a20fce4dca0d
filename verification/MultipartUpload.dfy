/**
 * Resumable multipart upload: the browser's part of it as a program against an object store whose calls
 * may fail, take effect without being acknowledged, or find the upload expired.
 */
module MultipartUpload {
  import opened Common
  import opened Ordering
  import opened Keyset

  type Byte = b: int | 0 <= b < 256

  const PART_SIZE_BYTES := 16 * 1024 * 1024
  const PART_RETRY_ATTEMPTS := 3
  const MAX_PART_NUMBER := 10000
  const MIN_PART_SIZE_BYTES := 5 * 1024 * 1024
  const MAX_PARTS_PER_PAGE := 1000

  // ---- Planning -------------------------------------------------------------------------------

  datatype PartPlan = PartPlan(partNumber: int, start: nat, end: nat)

  function PlanFrom(n: int, start: nat, size: nat, partSize: nat): seq<PartPlan>
    requires partSize > 0
    decreases size - start
  {
    if start >= size then [] else
      [PartPlan(n, start, Min(start + partSize, size))] + PlanFrom(n + 1, start + partSize, size, partSize)
  }

  function Plan(size: nat): seq<PartPlan> {
    PlanFrom(1, 0, size, PART_SIZE_BYTES)
  }

  method PlanParts(fileSize: nat, partSize: nat) returns (parts: seq<PartPlan>)
    requires partSize > 0
    ensures parts == PlanFrom(1, 0, fileSize, partSize)
  {
    parts := [];
    var partNumber, start := 1, 0;
    while start < fileSize
      invariant parts + PlanFrom(partNumber, start, fileSize, partSize) == PlanFrom(1, 0, fileSize, partSize)
      decreases fileSize - start
    {
      ghost var rest := PlanFrom(partNumber, start, fileSize, partSize);
      var part := PartPlan(partNumber, start, Min(start + partSize, fileSize));
      assert parts + rest == (parts + [part]) + rest[1..];
      parts := parts + [part];
      partNumber, start := partNumber + 1, start + partSize;
    }
  }

  /** The plan tiles the file: consecutive numbers, no gap, no overlap, every part but the last full. */
  lemma {:induction false} PlanTiles(n: int, start: nat, size: nat, partSize: nat, i: nat)
    requires partSize > 0 && i < |PlanFrom(n, start, size, partSize)|
    ensures var plan := PlanFrom(n, start, size, partSize);
            var p := plan[i];
            && p.partNumber == n + i && start <= p.start < p.end <= size
            && (if i == 0 then p.start == start else p.start == plan[i - 1].end)
            && (if i == |plan| - 1 then p.end == size && p.end - p.start <= partSize else p.end - p.start == partSize)
    decreases i
  {
    var plan := PlanFrom(n, start, size, partSize);
    var rest := PlanFrom(n + 1, start + partSize, size, partSize);
    assert plan[1..] == rest;
    if i > 0 {
      PlanTiles(n + 1, start + partSize, size, partSize, i - 1);
    }
  }

  /** The object store's limits: every part but the last is large enough. */
  lemma PlanMeetsMinimum(size: nat, i: nat)
    requires i + 1 < |Plan(size)|
    ensures Plan(size)[i].end - Plan(size)[i].start >= MIN_PART_SIZE_BYTES
  {
    PlanTiles(1, 0, size, PART_SIZE_BYTES, i);
  }

  /** The number of parts is the size in parts, rounded up. */
  lemma {:induction false} PlanLength(n: int, start: nat, size: nat, partSize: nat, count: nat)
    requires partSize > 0
    ensures |PlanFrom(n, start, size, partSize)| <= count <==> size <= start + count * partSize
    decreases count
  {
    if start < size && count > 0 {
      PlanLength(n + 1, start + partSize, size, partSize, count - 1);
      assert (count - 1) * partSize + partSize == count * partSize;
    }
  }

  /** The largest file there are part numbers for. */
  lemma LargestFile(size: nat)
    ensures |Plan(size)| <= MAX_PART_NUMBER <==> size <= 167_772_160_000
  {
    PlanLength(1, 0, size, PART_SIZE_BYTES, MAX_PART_NUMBER);
  }

  // ---- Assembly -------------------------------------------------------------------------------

  /** The bytes a planned part carries. */
  function Slice(bytes: seq<Byte>, p: PartPlan): seq<Byte> {
    if p.start <= p.end <= |bytes| then bytes[p.start..p.end] else []
  }

  /** What completion assembles: the parts in the order they are submitted. */
  function Concat(parts: map<int, seq<Byte>>, numbers: seq<int>): seq<Byte>
    requires forall i :: 0 <= i < |numbers| ==> numbers[i] in parts
  {
    if numbers == [] then [] else parts[numbers[0]] + Concat(parts, numbers[1..])
  }

  /** Every landed part is a planned part of the file, with the file's bytes. */
  ghost predicate PartsOf(parts: map<int, seq<Byte>>, bytes: seq<Byte>) {
    forall n :: n in parts ==> IsPart(n, parts[n], bytes)
  }

  ghost predicate IsPart(n: int, part: seq<Byte>, bytes: seq<Byte>) {
    1 <= n <= |Plan(|bytes|)| && n <= MAX_PART_NUMBER && part == Slice(bytes, Plan(|bytes|)[n - 1])
  }

  ghost predicate AllLanded(parts: map<int, seq<Byte>>, size: nat) {
    forall n :: 1 <= n <= |Plan(size)| ==> n in parts
  }

  /** The numbers from 1 to `last` in order are 1, 2, ..., last. */
  lemma AscendingIsCounting(numbers: seq<int>, last: nat)
    requires Ascending(numbers) && forall n :: n in numbers <==> 1 <= n <= last
    ensures |numbers| == last && forall i :: 0 <= i < last ==> numbers[i] == i + 1
  {
    var counting := seq(last, i => i + 1);
    var all := set n | n in numbers;
    forall n | n in all ensures n in counting { assert counting[n - 1] == n; }
    SortedUnique(IntLess, all, numbers, counting);
  }

  /** Where part `k` begins; past the last part, where the file ends. */
  function Offset(size: nat, k: nat): (o: nat)
    ensures o <= size
  {
    if k < |Plan(size)| then Min(Plan(size)[k].start, size) else size
  }

  lemma PartRange(bytes: seq<Byte>, k: nat)
    requires k < |Plan(|bytes|)|
    ensures Offset(|bytes|, k) <= Offset(|bytes|, k + 1)
    ensures Slice(bytes, Plan(|bytes|)[k]) == bytes[Offset(|bytes|, k)..Offset(|bytes|, k + 1)]
  {
    PlanTiles(1, 0, |bytes|, PART_SIZE_BYTES, k);
    if k + 1 < |Plan(|bytes|)| { PlanTiles(1, 0, |bytes|, PART_SIZE_BYTES, k + 1); }
  }

  /** Part `k` onwards, concatenated, is the file from part `k` onwards. */
  lemma {:induction false} TailAssembles(parts: map<int, seq<Byte>>, bytes: seq<Byte>, plan: seq<PartPlan>,
      numbers: seq<int>, k: nat)
    requires plan == Plan(|bytes|) && PartsOf(parts, bytes) && k <= |plan| && |numbers| == |plan| - k
    requires forall i :: 0 <= i < |numbers| ==> numbers[i] == k + 1 + i && numbers[i] in parts
    ensures Concat(parts, numbers) == bytes[Offset(|bytes|, k)..]
    decreases |numbers|
  {
    if numbers != [] {
      PartRange(bytes, k);
      TailAssembles(parts, bytes, plan, numbers[1..], k + 1);
      assert parts[numbers[0]] == Slice(bytes, plan[k]);
      var from, mid := Offset(|bytes|, k), Offset(|bytes|, k + 1);
      assert bytes[from..] == bytes[from..mid] + bytes[mid..];
    }
  }

  /** `whole` is some parts put together in part-number order. */
  ghost predicate IsAssembly(parts: map<int, seq<Byte>>, whole: seq<Byte>) {
    exists numbers :: Assembles(parts, numbers, whole)
  }

  ghost predicate Assembles(parts: map<int, seq<Byte>>, numbers: seq<int>, whole: seq<Byte>) {
    && Ascending(numbers) && (forall n :: n in numbers <==> n in parts)
    && (forall i :: 0 <= i < |numbers| ==> numbers[i] in parts) && whole == Concat(parts, numbers)
  }

  lemma AssemblyIsFile(parts: map<int, seq<Byte>>, bytes: seq<Byte>, whole: seq<Byte>)
    requires PartsOf(parts, bytes) && AllLanded(parts, |bytes|) && IsAssembly(parts, whole)
    ensures whole == bytes
  {
    var numbers :| Assembles(parts, numbers, whole);
    PartsAssemble(parts, bytes, numbers);
  }

  /** Once every planned part has landed, the assembled object is the file. */
  lemma PartsAssemble(parts: map<int, seq<Byte>>, bytes: seq<Byte>, numbers: seq<int>)
    requires PartsOf(parts, bytes) && AllLanded(parts, |bytes|)
    requires Ascending(numbers) && forall n :: n in numbers <==> n in parts
    ensures forall i :: 0 <= i < |numbers| ==> numbers[i] in parts
    ensures Concat(parts, numbers) == bytes
  {
    var plan := Plan(|bytes|);
    AscendingIsCounting(numbers, |plan|);
    assert forall i :: 0 <= i < |numbers| ==> numbers[i] in numbers;
    TailAssembles(parts, bytes, plan, numbers, 0);
    assert Offset(|bytes|, 0) == 0;
  }

  /** Lists every landed part number in order, page by page. */
  method ListAllParts(parts: map<int, seq<Byte>>) returns (numbers: seq<int>)
    requires forall n :: n in parts ==> n > 0
    ensures Ascending(numbers) && forall n :: n in numbers <==> n in parts
  {
    numbers := [];
    var marker, truncated := 0, true;
    ghost var left := After(parts, marker);
    while truncated
      invariant Ascending(numbers) && (forall n :: n in numbers <==> n in parts && n !in left)
      invariant left == After(parts, marker)
      invariant !truncated ==> left == {}
      decreases truncated, left
    {
      var page;
      page, truncated := ListObjectParts(parts, marker, MAX_PARTS_PER_PAGE);
      AppendPage(parts, numbers, marker, page);
      numbers := numbers + page;
      if page != [] { marker := page[|page| - 1]; }
      left := After(parts, marker);
    }
  }

  function After(parts: map<int, seq<Byte>>, marker: int): set<int> {
    set n | n in parts && n > marker
  }

  /** One listing request: the first `limit` numbers after the marker, and whether there are more. */
  method ListObjectParts(parts: map<int, seq<Byte>>, marker: int, limit: nat) returns (page: seq<int>, truncated: bool)
    requires limit > 0
    ensures IsPartsPage(After(parts, marker), page) && (truncated ==> page != [])
    ensures truncated <==> exists n :: n in After(parts, marker) && n !in page
  {
    var all := Ordered(IntLess, After(parts, marker));
    page, truncated := Take(all, limit), |all| > limit;
    TakeIsFirst(IntLess, all, limit);
    if truncated {
      assert all[limit] in all && forall i :: 0 <= i < limit ==> all[i] != all[limit];
    }
  }

  /** `page` is ascending and holds every number of `open` up to its last. */
  ghost predicate IsPartsPage(open: set<int>, page: seq<int>) {
    && Ascending(page) && (forall n :: n in page ==> n in open)
    && forall n, m :: n in open && n !in page && m in page ==> m < n
  }

  lemma AppendPage(parts: map<int, seq<Byte>>, numbers: seq<int>, marker: int, page: seq<int>)
    requires Ascending(numbers) && (forall n :: n in numbers <==> n in parts && n !in After(parts, marker))
    requires IsPartsPage(After(parts, marker), page)
    ensures Ascending(numbers + page)
    ensures page != [] ==>
              var last := page[|page| - 1];
              last in After(parts, marker) &&
              forall n :: n in numbers + page <==> n in parts && n !in After(parts, last)
  {
    assert forall i :: 0 <= i < |numbers| ==> numbers[i] in numbers;
    assert forall i :: 0 <= i < |page| ==> page[i] in page;
    if page != [] {
      var last := page[|page| - 1];
      forall n ensures n in numbers + page <==> n in parts && n !in After(parts, last) {
        if n in page {
          var i :| 0 <= i < |page| && page[i] == n;
        }
      }
    }
  }

  // ---- The upload -----------------------------------------------------------------------------

  datatype Fingerprint = Fingerprint(name: string, size: nat, lastModified: int)

  datatype FileLike = FileLike(name: string, lastModified: int, bytes: seq<Byte>)

  function FingerprintOf(file: FileLike): Fingerprint {
    Fingerprint(file.name, |file.bytes|, file.lastModified)
  }

  /** The text a session is stored with; comparing texts is comparing fingerprints (`TextsAgreeIff`). */
  function Text(f: Fingerprint): string {
    f.name + ":" + Decimal(f.size) + ":" + Decimal(f.lastModified)
  }

  function Decimal(i: int): string {
    if i < 0 then "-" + Digits(-i) else Digits(i)
  }

  function Digits(n: nat): (s: string)
    ensures s != "" && forall i :: 0 <= i < |s| ==> '0' <= s[i] <= '9'
  {
    if n < 10 then [DigitChar(n)] else Digits(n / 10) + [DigitChar(n % 10)]
  }

  function DigitChar(d: nat): (c: char)
    requires d < 10
    ensures '0' <= c <= '9' && c as int == '0' as int + d
  {
    '0' + d as char
  }

  lemma {:induction false} DigitsDiffer(m: nat, n: nat)
    requires Digits(m) == Digits(n)
    ensures m == n
    decreases m
  {
    assert Digits(m)[|Digits(m)| - 1] == Digits(n)[|Digits(n)| - 1];
    assert m % 10 == n % 10;
    if m >= 10 && n >= 10 {
      assert Digits(m)[..|Digits(m)| - 1] == Digits(m / 10) && Digits(n)[..|Digits(n)| - 1] == Digits(n / 10);
      DigitsDiffer(m / 10, n / 10);
    }
  }

  lemma SignShows(m: int)
    ensures Decimal(m) != "" && (Decimal(m)[0] == '-' <==> m < 0)
    ensures m < 0 ==> Decimal(m)[1..] == Digits(-m)
  {
  }

  lemma DecimalsDiffer(m: int, n: int)
    requires Decimal(m) == Decimal(n)
    ensures m == n
  {
    SignShows(m);
    SignShows(n);
    if m < 0 { DigitsDiffer(-m, -n); } else { DigitsDiffer(m, n); }
  }

  /** A text is cut at its last colon in one way only. */
  lemma LastColon(x: string, a: string, y: string, b: string)
    requires x + ":" + a == y + ":" + b && ':' !in a && ':' !in b
    ensures x == y && a == b
  {
    var s, t := x + ":" + a, y + ":" + b;
    assert s[|x|] == ':' && t[|y|] == ':';
    assert forall i :: |x| < i < |s| ==> s[i] == a[i - |x| - 1];
    assert forall i :: |y| < i < |t| ==> t[i] == b[i - |y| - 1];
    assert |x| == |y|;
    assert s[..|x|] == x && t[..|y|] == y && s[|x| + 1..] == a && t[|y| + 1..] == b;
  }

  lemma TextsAgreeIff(f: Fingerprint, g: Fingerprint)
    ensures Text(f) == Text(g) <==> f == g
  {
    if Text(f) == Text(g) {
      LastColon(f.name + ":" + Decimal(f.size), Decimal(f.lastModified),
                g.name + ":" + Decimal(g.size), Decimal(g.lastModified));
      LastColon(f.name, Decimal(f.size), g.name, Decimal(g.size));
      DecimalsDiffer(f.size, g.size);
      DecimalsDiffer(f.lastModified, g.lastModified);
    }
  }

  /** A recorded fingerprint fits a file iff it is of a file of that name, size and time. */
  lemma FingerprintsAgreeIff(f: FileLike, g: FileLike)
    ensures Text(FingerprintOf(f)) == Text(FingerprintOf(g)) <==>
              f.name == g.name && |f.bytes| == |g.bytes| && f.lastModified == g.lastModified
  {
    TextsAgreeIff(FingerprintOf(f), FingerprintOf(g));
  }

  datatype Session = Session(uploadId: int, fingerprint: Fingerprint)

  /** An upload in progress; `file` is the history of what it was created for. */
  datatype Upload = Upload(key: string, parts: map<int, seq<Byte>>, file: Fingerprint)

  /** A part on its way; one the client has given up on may still land. */
  datatype Transfer = Transfer(uploadId: int, partNumber: int, bytes: seq<Byte>)

  datatype Outcome = Uploaded | Failed | Cancelled | AbortFailed

  /** What the log has gained since the upload of the parts began, the first `n` rounds being over. */
  ghost predicate SentSoFar(before: seq<Transfer>, now: seq<Transfer>, u: int, landed: map<int, nat>, bytes: seq<Byte>,
      plan: seq<PartPlan>, n: nat, all: bool)
    requires n <= |plan|
  {
    SentMissing(before, now, u, landed) && (all ==> SentOnce(now[|before|..], u, landed, bytes, plan, n))
  }

  lemma SentNothing(log: seq<Transfer>, u: int, landed: map<int, nat>, bytes: seq<Byte>, plan: seq<PartPlan>, all: bool)
    ensures SentSoFar(log, log, u, landed, bytes, plan, 0, all)
  {
  }

  lemma SentNext(before: seq<Transfer>, now: seq<Transfer>, after: seq<Transfer>, u: int, landed: map<int, nat>,
      bytes: seq<Byte>, plan: seq<PartPlan>, n: nat, all: bool)
    requires n < |plan| && SentSoFar(before, now, u, landed, bytes, plan, n, all) && SentMissing(now, after, u, landed)
    requires all ==> after == if n + 1 in landed then now else now + [Transfer(u, n + 1, Slice(bytes, plan[n]))]
    ensures SentSoFar(before, after, u, landed, bytes, plan, n + 1, all)
  {
    SentStill(before, now, after, u, landed);
    if all { SentBefore(before, now, u, landed, bytes, plan, n); }
  }

  /** How an attempt ended: the log, the parts its upload had landed if it was still there, and the object. */
  datatype Attempt = Attempt(outcome: Outcome, used: Option<int>, log: seq<Transfer>, landed: Option<map<int, nat>>,
                             content: Option<seq<Byte>>)

  /** No later attempt among the first `n` sends other bytes to the key of attempt `i`. */
  ghost predicate Unchallenged(jobs: seq<(FileLike, string)>, i: nat, n: nat) {
    i < n <= |jobs| && forall j :: i < j < n && jobs[j].1 == jobs[i].1 ==> jobs[j].0.bytes == jobs[i].0.bytes
  }

  /** The log has grown by transfers to upload `u` of parts that are not in `landed`. */
  ghost predicate SentMissing(before: seq<Transfer>, after: seq<Transfer>, u: int, landed: map<int, nat>) {
    before <= after &&
    forall i :: |before| <= i < |after| ==> after[i].uploadId == u && after[i].partNumber !in landed
  }

  lemma SentStill(before: seq<Transfer>, now: seq<Transfer>, after: seq<Transfer>, u: int, landed: map<int, nat>)
    requires SentMissing(before, now, u, landed) && SentMissing(now, after, u, landed)
    ensures SentMissing(before, after, u, landed)
  {
  }

  /** One transfer of each of the first `n` planned parts that is not in `landed`, in order, and nothing else. */
  ghost predicate SentOnce(sent: seq<Transfer>, u: int, landed: map<int, nat>, bytes: seq<Byte>, plan: seq<PartPlan>,
      n: nat)
    requires n <= |plan|
  {
    && (forall i, j :: 0 <= i < j < |sent| ==> sent[i].partNumber < sent[j].partNumber)
    && (forall i :: 0 <= i < |sent| ==>
          1 <= sent[i].partNumber <= n && sent[i].partNumber !in landed
          && sent[i] == Transfer(u, sent[i].partNumber, Slice(bytes, plan[sent[i].partNumber - 1])))
    && (forall p :: 1 <= p <= n && p !in landed ==> Sent(sent, p))
  }

  ghost predicate Sent(sent: seq<Transfer>, p: int) {
    exists i :: 0 <= i < |sent| && sent[i].partNumber == p
  }

  lemma SentMore(sent: seq<Transfer>, t: Transfer, p: int)
    ensures Sent(sent + [t], p) <==> Sent(sent, p) || t.partNumber == p
  {
    var more := sent + [t];
    assert more[|sent|] == t;
    if Sent(sent, p) {
      var i :| 0 <= i < |sent| && sent[i].partNumber == p;
      assert more[i] == sent[i];
    }
  }

  lemma SentOneMore(sent: seq<Transfer>, u: int, landed: map<int, nat>, bytes: seq<Byte>, plan: seq<PartPlan>, n: nat)
    requires n < |plan| && SentOnce(sent, u, landed, bytes, plan, n)
    ensures n + 1 in landed ==> SentOnce(sent, u, landed, bytes, plan, n + 1)
    ensures n + 1 !in landed ==>
              SentOnce(sent + [Transfer(u, n + 1, Slice(bytes, plan[n]))], u, landed, bytes, plan, n + 1)
  {
    var t := Transfer(u, n + 1, Slice(bytes, plan[n]));
    forall p ensures Sent(sent + [t], p) <==> Sent(sent, p) || p == n + 1 { SentMore(sent, t, p); }
  }

  /** The log before part `n + 1` is sent, and after. */
  lemma SentBefore(before: seq<Transfer>, now: seq<Transfer>, u: int, landed: map<int, nat>, bytes: seq<Byte>,
      plan: seq<PartPlan>, n: nat)
    requires n < |plan| && before <= now && SentOnce(now[|before|..], u, landed, bytes, plan, n)
    ensures n + 1 in landed ==> SentOnce(now[|before|..], u, landed, bytes, plan, n + 1)
    ensures n + 1 !in landed ==>
              var later := now + [Transfer(u, n + 1, Slice(bytes, plan[n]))];
              SentOnce(later[|before|..], u, landed, bytes, plan, n + 1)
  {
    var t := Transfer(u, n + 1, Slice(bytes, plan[n]));
    assert (now + [t])[|before|..] == now[|before|..] + [t];
    SentOneMore(now[|before|..], u, landed, bytes, plan, n);
  }

  class Client {
    /** The bytes behind a fingerprint: what "equal fingerprints mean equal bytes" promises. */
    ghost const bytesOf: Fingerprint -> seq<Byte>
    const hasStorage: bool
    var sessions: map<string, Session>
    var uploads: map<int, Upload>
    var objects: map<string, seq<Byte>>
    var nextUpload: int
    /** Every transfer ever sent, in order. */
    var issued: seq<Transfer>
    /** History: completion was once asked for while a planned part was missing. */
    ghost var premature: bool
    /** History: how often an upload has expired or a session entry was lost. */
    ghost var losses: nat
    /** History: how often a transfer was tried. */
    ghost var tries: nat

    ghost predicate Valid()
      reads this
    {
      && (forall t :: t in issued ==> t.uploadId < nextUpload)
      && (forall t :: t in issued && t.uploadId in uploads ==>
              IsPart(t.partNumber, t.bytes, bytesOf(uploads[t.uploadId].file)))
      && (forall u :: u in uploads ==> u < nextUpload && PartsOf(uploads[u].parts, bytesOf(uploads[u].file)))
      && (forall k :: k in sessions ==> sessions[k].uploadId < nextUpload)
      && (forall k :: k in sessions && sessions[k].uploadId in uploads ==>
            uploads[sessions[k].uploadId].key == k && uploads[sessions[k].uploadId].file == sessions[k].fingerprint)
    }

    /** The file is the one its fingerprint stands for. */
    ghost predicate Genuine(file: FileLike) {
      bytesOf(FingerprintOf(file)) == file.bytes
    }

    constructor (ghost bytesOf: Fingerprint -> seq<Byte>, hasStorage: bool)
      ensures Valid() && this.bytesOf == bytesOf && this.hasStorage == hasStorage && objects == map[] && !premature
    {
      this.bytesOf, this.hasStorage := bytesOf, hasStorage;
      sessions, uploads, objects, nextUpload, issued := map[], map[], map[], 1, [];
      premature, losses, tries := false, 0, 0;
    }

    /** Upload `u`, if the store still has it, belongs to this file and key. */
    ghost predicate Ours(u: int, file: FileLike, key: string)
      reads this
    {
      u < nextUpload && (u in uploads ==> uploads[u].key == key && uploads[u].file == FingerprintOf(file))
    }

    /** The first `n` planned parts have landed, if the store still has the upload. */
    ghost predicate Landed(u: int, n: nat)
      reads this
    {
      u in uploads ==> forall i :: 1 <= i <= n ==> i in uploads[u].parts
    }

    /** Uploads never come back, and those that stay keep what has landed. */
    twostate predicate Kept()
      reads this
    {
      && nextUpload >= old(nextUpload) && losses >= old(losses)
      && forall u :: u in uploads && u < old(nextUpload) ==>
           && u in old(uploads) && uploads[u].key == old(uploads)[u].key && uploads[u].file == old(uploads)[u].file
           && old(uploads)[u].parts.Keys <= uploads[u].parts.Keys
    }

    /** Between calls the objects stay and, but for losses, so do the uploads and the sessions. */
    twostate predicate Quiet()
      reads this
    {
      && Kept() && objects == old(objects) && nextUpload == old(nextUpload)
      && (losses == old(losses) ==> sessions == old(sessions) && uploads.Keys == old(uploads.Keys))
    }

    /** A transfer given up on lands after all; unless all is well, an upload expires or a session entry is lost. */
    method Meanwhile(reliable: bool)
      requires Valid()
      modifies this`sessions, this`uploads, this`losses
      ensures Valid() && Quiet() && (reliable ==> losses == old(losses))
    {
      var key: string := *;
      var u: int := *;
      var t: Transfer := *;
      var lost: bool := *;
      var expires: bool := *;
      if lost && !reliable { sessions, losses := sessions - {key}, losses + 1; }
      if expires && !reliable { uploads, losses := uploads - {u}, losses + 1; }
      if t in issued { Land(t); }
    }

    method Land(t: Transfer)
      requires Valid() && t in issued
      modifies this`uploads
      ensures Valid() && Quiet() && uploads.Keys == old(uploads.Keys)
      ensures t.uploadId in uploads ==> t.partNumber in uploads[t.uploadId].parts
    {
      if t.uploadId in uploads {
        var up := uploads[t.uploadId];
        uploads := uploads[t.uploadId := up.(parts := up.parts[t.partNumber := t.bytes])];
      }
    }

    /** There is an upload on record for this file and key, and the store still has it. */
    predicate Resumable(file: FileLike, key: string)
      reads this
    {
      key in sessions && sessions[key].fingerprint == FingerprintOf(file) && sessions[key].uploadId in uploads
    }

    /** Upload `u` is the one on record for this file and key. */
    predicate OnRecord(u: int, file: FileLike, key: string)
      reads this
    {
      key in sessions && sessions[key] == Session(u, FingerprintOf(file))
    }

    /**
     * Resumes the recorded upload, with every part that has landed, if it is for this file and still there and
     * the listing answers; otherwise begins a new one. Either way it is then the one on record.
     */
    method ResumeOrCreateUpload(file: FileLike, key: string, reachable: bool, reliable: bool)
      returns (ok: bool, u: int, landed: map<int, nat>)
      requires Valid() && Genuine(file)
      modifies this`sessions, this`uploads, this`nextUpload
      ensures Valid() && Kept() && objects == old(objects) && (reliable ==> ok)
      ensures !ok ==> sessions == old(sessions) && uploads == old(uploads)
      ensures ok ==> Ours(u, file, key) && u in uploads && landed == Sizes(uploads[u].parts)
      ensures ok && hasStorage ==> OnRecord(u, file, key)
      ensures old(Resumable(file, key)) && (reachable || reliable) ==> ok && u == old(sessions[key].uploadId)
      ensures ok && u in old(uploads) ==>
                old(Resumable(file, key)) && u == old(sessions[key].uploadId) && uploads == old(uploads)
      ensures ok && u !in old(uploads) ==>
                u == old(nextUpload) && landed == map[] && uploads == old(uploads)[u := uploads[u]]
    {
      var fingerprint := FingerprintOf(file);
      if key in sessions && sessions[key].fingerprint == fingerprint {
        u := sessions[key].uploadId;
        if (reachable || reliable) && u in uploads {
          var numbers := ListAllParts(uploads[u].parts);
          landed := map n | n in numbers :: |uploads[u].parts[n]|;
          assert landed == Sizes(uploads[u].parts);
          return true, u, landed;
        }
      }
      landed := map[];
      ok, u := CreateUpload(file, key, reliable);
    }

    /** Begins an upload and puts it on record. */
    method CreateUpload(file: FileLike, key: string, reliable: bool) returns (ok: bool, u: int)
      requires Valid() && Genuine(file)
      modifies this`sessions, this`uploads, this`nextUpload
      ensures Valid() && Kept() && (reliable ==> ok)
      ensures !ok ==> sessions == old(sessions) && uploads == old(uploads)
      ensures ok ==>
                && u == old(nextUpload) < nextUpload && u !in old(uploads) && (hasStorage ==> OnRecord(u, file, key))
                && uploads == old(uploads)[u := Upload(key, map[], FingerprintOf(file))]
    {
      var fingerprint := FingerprintOf(file);
      ok, u := *, nextUpload;
      ok := ok || reliable;
      if ok {
        uploads := uploads[u := Upload(key, map[], fingerprint)];
        nextUpload := nextUpload + 1;
        if hasStorage { sessions := sessions[key := Session(u, fingerprint)]; }
      }
    }

    /** One transfer of a part: unless it cannot be signed it is sent, and it may land without being acknowledged. */
    method TransferOnce(file: FileLike, key: string, u: int, part: PartPlan, reliable: bool) returns (ok: bool)
      requires Valid() && Genuine(file) && Ours(u, file, key)
      requires 1 <= part.partNumber <= |Plan(|file.bytes|)| && part == Plan(|file.bytes|)[part.partNumber - 1]
      modifies this`sessions, this`uploads, this`issued, this`losses, this`tries
      ensures Valid() && Quiet() && Ours(u, file, key) && tries == old(tries) + 1
      ensures ok ==> part.partNumber <= MAX_PART_NUMBER && (u in uploads ==> part.partNumber in uploads[u].parts)
      ensures issued == old(issued)
           || issued == old(issued) + [Transfer(u, part.partNumber, Slice(file.bytes, part))]
      ensures ok ==> issued != old(issued)
      ensures reliable ==> losses == old(losses)
      ensures reliable && u in old(uploads) && part.partNumber <= MAX_PART_NUMBER ==> ok
    {
      Meanwhile(reliable);
      ok := false;
      tries := tries + 1;
      var signed: bool := *;
      if part.partNumber <= MAX_PART_NUMBER && (signed || reliable) {
        ok := Put(Transfer(u, part.partNumber, Slice(file.bytes, part)), reliable);
      }
    }

    /** Sends the bytes. */
    method Put(t: Transfer, reliable: bool) returns (ok: bool)
      requires Valid() && t.uploadId < nextUpload
      requires t.uploadId in uploads ==> IsPart(t.partNumber, t.bytes, bytesOf(uploads[t.uploadId].file))
      modifies this`uploads, this`issued
      ensures Valid() && Quiet() && uploads.Keys == old(uploads.Keys) && issued == old(issued) + [t]
      ensures ok ==> t.uploadId in uploads && t.partNumber in uploads[t.uploadId].parts
      ensures reliable && t.uploadId in uploads ==> ok
    {
      issued := issued + [t];
      var effect: bool := *;
      var acknowledged: bool := *;
      if effect || reliable { Land(t); }
      ok := ((acknowledged && effect) || reliable) && t.uploadId in uploads;
    }

    /** Up to three tries at one part; fewer only if one succeeds or the user aborts. */
    method UploadPartWithRetry(file: FileLike, key: string, u: int, part: PartPlan, signalled: bool, reliable: bool)
      returns (ok: bool, aborted: bool)
      requires Valid() && Genuine(file) && Ours(u, file, key)
      requires 1 <= part.partNumber <= |Plan(|file.bytes|)| && part == Plan(|file.bytes|)[part.partNumber - 1]
      modifies this`sessions, this`uploads, this`issued, this`losses, this`tries
      ensures Valid() && Quiet() && Ours(u, file, key)
      ensures ok ==> part.partNumber <= MAX_PART_NUMBER && (u in uploads ==> part.partNumber in uploads[u].parts)
      ensures signalled ==> aborted
      ensures old(issued) <= issued && |issued| - |old(issued)| <= tries - old(tries) <= PART_RETRY_ATTEMPTS
      ensures !ok && !aborted ==> tries == old(tries) + 3
      ensures forall i :: |old(issued)| <= i < |issued| ==>
                issued[i] == Transfer(u, part.partNumber, Slice(file.bytes, part))
      ensures reliable ==> losses == old(losses)
      ensures reliable && u in old(uploads) && part.partNumber <= MAX_PART_NUMBER ==>
                && ok && aborted == signalled
                && issued == old(issued) + [Transfer(u, part.partNumber, Slice(file.bytes, part))]
    {
      aborted := signalled;
      for attempt := 1 to PART_RETRY_ATTEMPTS + 1
        invariant Valid() && Quiet() && Ours(u, file, key) && (signalled ==> aborted)
        invariant old(issued) <= issued && |issued| - |old(issued)| <= tries - old(tries) == attempt - 1
        invariant forall i :: |old(issued)| <= i < |issued| ==>
                    issued[i] == Transfer(u, part.partNumber, Slice(file.bytes, part))
        invariant reliable ==> losses == old(losses)
        invariant reliable && u in old(uploads) && part.partNumber <= MAX_PART_NUMBER ==>
                    attempt == 1 && aborted == signalled && issued == old(issued)
      {
        ok := TransferOnce(file, key, u, part, reliable);
        if ok { return; }
        var cancelled: bool := *;
        aborted := aborted || cancelled;
        if aborted { return false, aborted; }
      }
      ok := false;
    }

    /** Uploads a planned part unless it has landed at its planned size; then nothing is sent. */
    method EnsurePart(file: FileLike, key: string, u: int, part: PartPlan, landed: map<int, nat>, signalled: bool,
        reliable: bool)
      returns (ok: bool, aborted: bool)
      requires Valid() && Genuine(file) && Ours(u, file, key)
      requires 1 <= part.partNumber <= |Plan(|file.bytes|)| && part == Plan(|file.bytes|)[part.partNumber - 1]
      requires u in uploads ==> forall n :: n in landed ==> n in uploads[u].parts
      modifies this`sessions, this`uploads, this`issued, this`losses, this`tries
      ensures Valid() && Quiet() && Ours(u, file, key)
      ensures ok && u in uploads ==> part.partNumber in uploads[u].parts
      ensures old(issued) <= issued
      ensures forall i :: |old(issued)| <= i < |issued| ==>
                issued[i] == Transfer(u, part.partNumber, Slice(file.bytes, part))
      ensures part.partNumber in landed && landed[part.partNumber] == part.end - part.start ==>
                ok && issued == old(issued)
      ensures reliable ==> losses == old(losses)
      ensures reliable && u in old(uploads) && part.partNumber <= MAX_PART_NUMBER ==>
                && ok && aborted == signalled
                && ((part.partNumber in landed && landed[part.partNumber] == part.end - part.start)
                    || issued == old(issued) + [Transfer(u, part.partNumber, Slice(file.bytes, part))])
    {
      Meanwhile(reliable);
      ok, aborted := true, signalled;
      if !HasLanded(landed, part) {
        ok, aborted := UploadPartWithRetry(file, key, u, part, signalled, reliable);
      }
    }

    /** One round of the upload: the cancel signal, then one part; the outcome if the upload ends here. */
    method NextPart(file: FileLike, key: string, u: int, part: PartPlan, landed: map<int, nat>, signalled: bool,
        reliable: bool)
      returns (end: Option<Outcome>, aborted: bool)
      requires Valid() && Genuine(file) && Ours(u, file, key)
      requires 1 <= part.partNumber <= |Plan(|file.bytes|)| && part == Plan(|file.bytes|)[part.partNumber - 1]
      requires Landed(u, part.partNumber - 1)
      requires part.partNumber in landed ==> HasLanded(landed, part)
      requires u in uploads ==> forall n :: n in landed ==> n in uploads[u].parts
      modifies this`sessions, this`uploads, this`issued, this`losses, this`tries
      ensures Valid() && Kept() && objects == old(objects) && nextUpload == old(nextUpload) && end != Some(Uploaded)
      ensures end.None? ==> Ours(u, file, key) && Landed(u, part.partNumber)
      ensures end.None? || end == Some(Failed) ==> Quiet()
      ensures end == Some(Cancelled) ==> u !in uploads && key !in sessions
      ensures SentMissing(old(issued), issued, u, landed)
      ensures reliable ==> losses == old(losses)
      ensures reliable && !signalled && u in old(uploads) && part.partNumber <= MAX_PART_NUMBER ==>
                && end.None? && !aborted
                && issued == if part.partNumber in landed then old(issued)
                             else old(issued) + [Transfer(u, part.partNumber, Slice(file.bytes, part))]
    {
      var signal: bool := *;
      aborted := signalled || (signal && !reliable);
      var ok := false;
      if !aborted {
        ok, aborted := EnsurePart(file, key, u, part, landed, aborted, reliable);
      }
      if ok { return None, aborted; }
      if !aborted { return Some(Failed), aborted; }
      var r := Cancel(key, u);
      end := Some(r);
    }

    /** Every planned part that has not landed at its planned size, in order, and no other. */
    method UploadParts(file: FileLike, key: string, u: int, landed: map<int, nat>, reliable: bool) returns (r: Outcome)
      requires Valid() && Genuine(file) && Ours(u, file, key) && u in uploads && landed == Sizes(uploads[u].parts)
      modifies this`sessions, this`uploads, this`issued, this`losses, this`tries
      ensures Valid() && Kept() && objects == old(objects) && nextUpload == old(nextUpload)
      ensures r == Uploaded ==> Ours(u, file, key) && Landed(u, |Plan(|file.bytes|)|)
      ensures r == Uploaded || r == Failed ==> Quiet()
      ensures r == Cancelled ==> u !in uploads && key !in sessions
      ensures SentMissing(old(issued), issued, u, landed)
      ensures reliable ==> losses == old(losses)
      ensures reliable && |file.bytes| <= MAX_PART_NUMBER * PART_SIZE_BYTES ==>
                && r == Uploaded && u in uploads
                && SentOnce(issued[|old(issued)|..], u, landed, file.bytes, Plan(|file.bytes|), |Plan(|file.bytes|)|)
    {
      var plan := PlanParts(|file.bytes|, PART_SIZE_BYTES);
      PlanFits(file.bytes, plan, uploads[u].parts, landed);
      r := SendParts(file, key, u, plan, landed, reliable, reliable && |plan| <= MAX_PART_NUMBER);
    }

    /** A round and what it adds to the log. */
    method Round(file: FileLike, key: string, u: int, plan: seq<PartPlan>, i: nat, landed: map<int, nat>,
        signalled: bool, reliable: bool, ghost before: seq<Transfer>, ghost all: bool)
      returns (end: Option<Outcome>, aborted: bool)
      requires Valid() && Genuine(file) && Ours(u, file, key) && Landed(u, i) && plan == Plan(|file.bytes|)
      requires i < |plan| && PlannedRight(plan, landed, i)
      requires u in uploads ==> forall n :: n in landed ==> n in uploads[u].parts
      requires SentSoFar(before, issued, u, landed, file.bytes, plan, i, all)
      requires all ==> reliable && !signalled && u in uploads && i < MAX_PART_NUMBER
      modifies this`sessions, this`uploads, this`issued, this`losses, this`tries
      ensures Valid() && Kept() && objects == old(objects) && nextUpload == old(nextUpload) && end != Some(Uploaded)
      ensures end.None? ==> Ours(u, file, key) && Landed(u, i + 1)
      ensures end.None? || end == Some(Failed) ==> Quiet()
      ensures end == Some(Cancelled) ==> u !in uploads && key !in sessions
      ensures reliable ==> losses == old(losses)
      ensures end.None? ==> SentSoFar(before, issued, u, landed, file.bytes, plan, i + 1, all)
      ensures SentMissing(before, issued, u, landed)
      ensures all ==> end.None? && !aborted
    {
      ghost var was := issued;
      end, aborted := NextPart(file, key, u, plan[i], landed, signalled, reliable);
      SentStill(before, was, issued, u, landed);
      if end.None? { SentNext(before, was, issued, u, landed, file.bytes, plan, i, all); }
    }

    method SendParts(file: FileLike, key: string, u: int, plan: seq<PartPlan>, landed: map<int, nat>, reliable: bool,
        ghost all: bool)
      returns (r: Outcome)
      requires Valid() && Genuine(file) && Ours(u, file, key) && u in uploads && plan == Plan(|file.bytes|)
      requires forall n :: n in landed ==> n in uploads[u].parts
      requires forall i :: 0 <= i < |plan| ==> PlannedRight(plan, landed, i)
      requires all <==> reliable && |plan| <= MAX_PART_NUMBER
      modifies this`sessions, this`uploads, this`issued, this`losses, this`tries
      ensures Valid() && Kept() && objects == old(objects) && nextUpload == old(nextUpload)
      ensures r == Uploaded ==> Ours(u, file, key) && Landed(u, |plan|)
      ensures r == Uploaded || r == Failed ==> Quiet()
      ensures r == Cancelled ==> u !in uploads && key !in sessions
      ensures SentMissing(old(issued), issued, u, landed)
      ensures reliable ==> losses == old(losses)
      ensures all ==> r == Uploaded && SentSoFar(old(issued), issued, u, landed, file.bytes, plan, |plan|, true)
    {
      var aborted: bool := *;
      aborted := aborted && !reliable;
      SentNothing(issued, u, landed, file.bytes, plan, all);
      for i := 0 to |plan|
        invariant Valid() && Quiet() && Ours(u, file, key) && Landed(u, i)
        invariant reliable ==> losses == old(losses)
        invariant SentSoFar(old(issued), issued, u, landed, file.bytes, plan, i, all)
        invariant all ==> !aborted
      {
        var end;
        end, aborted := Round(file, key, u, plan, i, landed, aborted, reliable, old(issued), all);
        if end.Some? { return end.value; }
      }
      r := Uploaded;
    }

    /** Abort and forget the upload; if the abort itself fails the session stays. */
    method Cancel(key: string, u: int) returns (r: Outcome)
      requires Valid()
      modifies this`sessions, this`uploads
      ensures Valid() && Kept() && objects == old(objects) && (r == Cancelled || r == AbortFailed)
      ensures uploads == old(uploads) || uploads == old(uploads) - {u}
      ensures r == Cancelled ==> u !in uploads && sessions == old(sessions) - {key}
      ensures r == AbortFailed ==> sessions == old(sessions)
    {
      var ok: bool := *;
      var effect: bool := *;
      if ok || effect { uploads := uploads - {u}; }
      if !ok { return AbortFailed; }
      sessions := sessions - {key};
      r := Cancelled;
    }

    /** The server's completion: whatever parts have landed, in order. It may take effect and still report an error. */
    method CompleteMultipartUpload(key: string, u: int, reliable: bool) returns (ok: bool)
      requires Valid() && (u in uploads ==> uploads[u].key == key)
      modifies this`uploads, this`objects, this`premature
      ensures Valid() && Kept()
      ensures premature == (old(premature) ||
                      (u in old(uploads) && !AllLanded(old(uploads)[u].parts, |bytesOf(old(uploads)[u].file)|)))
      ensures (objects == old(objects) && uploads == old(uploads)) ||
              (u in old(uploads) && key in objects && objects == old(objects)[key := objects[key]] &&
               IsAssembly(old(uploads)[u].parts, objects[key]) && uploads == old(uploads) - {u})
      ensures ok ==> u in old(uploads) && key in objects && IsAssembly(old(uploads)[u].parts, objects[key])
                     && u !in uploads
      ensures ok ==> exists n :: n in old(uploads)[u].parts
      ensures reliable && u in old(uploads) && (exists n :: n in old(uploads)[u].parts) ==> ok
    {
      ok := *;
      ok := ok || reliable;
      if u !in uploads { return false; }
      premature := premature || !AllLanded(uploads[u].parts, |bytesOf(uploads[u].file)|);
      var parts := uploads[u].parts;
      var numbers := ListAllParts(parts);
      var effect: bool := *;
      if numbers == [] || !(effect || reliable) { return false; }
      assert forall i :: 0 <= i < |numbers| ==> numbers[i] in numbers && numbers[i] in parts;
      assert numbers[0] in parts;
      assert Assembles(parts, numbers, Concat(parts, numbers));
      objects := objects[key := Concat(parts, numbers)];
      uploads := uploads - {u};
    }

    /** Completion, and forgetting the session. */
    method Finish(file: FileLike, key: string, u: int, reliable: bool) returns (r: Outcome)
      requires Valid() && Genuine(file) && Ours(u, file, key) && Landed(u, |Plan(|file.bytes|)|)
      modifies this`sessions, this`uploads, this`objects, this`premature, this`losses
      ensures Valid() && Kept() && premature == old(premature) && (r == Uploaded || r == Failed)
      ensures r == Uploaded ==> key in objects && objects[key] == file.bytes && key !in sessions && u !in uploads
      ensures r == Uploaded ==> 0 < |file.bytes| <= MAX_PART_NUMBER * PART_SIZE_BYTES
      ensures objects == old(objects) || objects == old(objects)[key := file.bytes]
      ensures r == Failed && losses == old(losses) ==>
                && sessions == old(sessions)
                && (uploads.Keys == old(uploads.Keys) || (key in objects && objects[key] == file.bytes))
      ensures reliable ==> losses == old(losses)
      ensures reliable && u in old(uploads) && |file.bytes| > 0 ==> r == Uploaded
    {
      Meanwhile(reliable);
      ghost var was := uploads;
      if u in uploads {
        LandedFits(uploads[u].parts, file.bytes);
        assert |file.bytes| > 0 ==> 1 in uploads[u].parts by { SomePart(|file.bytes|); }
      }
      var ok := CompleteMultipartUpload(key, u, reliable);
      if u in was && uploads != was { AssemblyIsFile(was[u].parts, file.bytes, objects[key]); }
      if !ok { return Failed; }
      AssemblyIsFile(was[u].parts, file.bytes, objects[key]);
      sessions := sessions - {key};
      r := Uploaded;
    }

    /**
     * One attempt, on upload `used` if it got as far as having one. After success the object is the file,
     * whatever was interrupted before. Otherwise the object is as it was or is the file already, and after a
     * failure the upload used is on record to be resumed. Completion is never asked for with a part missing,
     * and no part that had landed is sent again. If all is well, a file within the part limit is uploaded,
     * each missing part sent once.
     */
    method UploadFileMultipart(file: FileLike, key: string, reachable: bool, reliable: bool)
      returns (r: Outcome, ghost used: Option<int>)
      requires Valid() && Genuine(file)
      modifies this
      ensures Valid() && Kept() && premature == old(premature)
      ensures r == Uploaded ==> key in objects && objects[key] == file.bytes && key !in sessions
      ensures r == Uploaded ==> 0 < |file.bytes| <= MAX_PART_NUMBER * PART_SIZE_BYTES
      ensures r == Cancelled ==> key !in sessions
      ensures objects == old(objects) || objects == old(objects)[key := file.bytes]
      ensures used.None? ==>
                && r == Failed && issued == old(issued) && objects == old(objects)
                && sessions == old(sessions) && uploads == old(uploads)
      ensures used.Some? ==> SentMissing(old(issued), issued, used.value, old(SizesAt(used.value)))
      ensures used.Some? && used.value in old(uploads) ==>
                old(Resumable(file, key)) && used.value == old(sessions[key].uploadId)
      ensures used.Some? && used.value !in old(uploads) ==> used.value == old(nextUpload)
      ensures old(Resumable(file, key)) && (reachable || reliable) ==> used == Some(old(sessions[key].uploadId))
      ensures r == Failed && used.Some? && hasStorage && losses == old(losses) ==>
                && OnRecord(used.value, file, key)
                && (used.value in uploads || (key in objects && objects[key] == file.bytes))
      ensures reliable ==> losses == old(losses)
      ensures reliable && 0 < |file.bytes| <= MAX_PART_NUMBER * PART_SIZE_BYTES ==>
                && r == Uploaded && used.Some?
                && SentOnce(issued[|old(issued)|..], used.value, old(SizesAt(used.value)), file.bytes,
                            Plan(|file.bytes|), |Plan(|file.bytes|)|)
    {
      used := None;
      var ok, u, landed := ResumeOrCreateUpload(file, key, reachable, reliable);
      if !ok { return Failed, None; }
      used := Some(u);
      r := UploadParts(file, key, u, landed, reliable);
      if r != Uploaded { return; }
      r := Finish(file, key, u, reliable);
    }

    /** The landed parts of an upload, none if the store does not have it. */
    ghost function SizesAt(u: int): map<int, nat>
      reads this
    {
      if u in uploads then Sizes(uploads[u].parts) else map[]
    }

    /**
     * A failed attempt and the next one for the same file, with nothing lost. Either the first attempt's upload
     * is still there, on record: then the second goes on with it, sends no part that had landed, and if all is
     * well sends each missing part once and is done. Or its completion took effect unacknowledged: then the
     * object was the file already.
     */
    method TwoAttempts(file: FileLike, key: string, reachable: bool, reliable: bool)
      returns (second: Outcome, ghost first: Attempt, ghost used: Option<int>)
      requires Valid() && Genuine(file) && hasStorage
      modifies this
      ensures Valid() && premature == old(premature) && old(issued) <= first.log <= issued
      ensures first.outcome != Failed ==> second == first.outcome && first.log == issued
      ensures first.outcome == Failed && first.used.Some? && losses == old(losses) ==>
                if first.landed.None? then first.content == Some(file.bytes)
                else reachable || reliable ==>
                  used == first.used && SentMissing(first.log, issued, used.value, first.landed.value)
      ensures first.outcome == Failed && first.used.Some? && losses == old(losses) && first.landed.Some?
              && reliable && 0 < |file.bytes| <= MAX_PART_NUMBER * PART_SIZE_BYTES ==>
                && second == Uploaded
                && forall i, j :: |first.log| <= i < j < |issued| ==> issued[i].partNumber < issued[j].partNumber
    {
      var any: bool := *;
      var other: bool := *;
      second, used := UploadFileMultipart(file, key, any, other);
      first := Attempt(second, used, issued, if used.Some? then LandedAt(used.value) else None,
                       if key in objects then Some(objects[key]) else None);
      if second != Failed { return; }
      Meanwhile(reliable);
      second, used := UploadFileMultipart(file, key, reachable, reliable);
    }

    /** The landed parts of an upload the store has. */
    ghost function LandedAt(u: int): Option<map<int, nat>>
      reads this
    {
      if u in uploads then Some(Sizes(uploads[u].parts)) else None
    }

    /**
     * Any series of attempts, over any files and keys, each failing, cancelled or not: a key whose upload
     * once succeeded holds that file's bytes as long as no other file is sent to it.
     */
    method Attempts(jobs: seq<(FileLike, string)>) returns (outcomes: seq<Outcome>)
      requires Valid() && forall i :: 0 <= i < |jobs| ==> Genuine(jobs[i].0)
      modifies this
      ensures Valid() && premature == old(premature) && |outcomes| == |jobs|
      ensures forall i :: 0 <= i < |jobs| && outcomes[i] == Uploaded && Unchallenged(jobs, i, |jobs|) ==>
                jobs[i].1 in objects && objects[jobs[i].1] == jobs[i].0.bytes
    {
      outcomes := [];
      for n := 0 to |jobs|
        invariant Valid() && premature == old(premature) && |outcomes| == n
        invariant forall i :: 0 <= i < n && outcomes[i] == Uploaded && Unchallenged(jobs, i, n) ==>
                    jobs[i].1 in objects && objects[jobs[i].1] == jobs[i].0.bytes
      {
        assert forall i :: 0 <= i < n && Unchallenged(jobs, i, n + 1) ==> Unchallenged(jobs, i, n);
        assert forall i :: 0 <= i < n && Unchallenged(jobs, i, n + 1) && jobs[n].1 == jobs[i].1 ==>
                   jobs[n].0.bytes == jobs[i].0.bytes;
        var reachable: bool := *;
        var reliable: bool := *;
        var r, _ := UploadFileMultipart(jobs[n].0, jobs[n].1, reachable, reliable);
        outcomes := outcomes + [r];
      }
    }
  }

  function Sizes(parts: map<int, seq<Byte>>): map<int, nat> {
    map n | n in parts :: |parts[n]|
  }

  predicate HasLanded(landed: map<int, nat>, part: PartPlan) {
    part.partNumber in landed && landed[part.partNumber] == part.end - part.start
  }

  /** A part of the file that has landed has landed at its planned size. */
  lemma LandedAtSize(parts: map<int, seq<Byte>>, bytes: seq<Byte>, part: PartPlan)
    requires PartsOf(parts, bytes) && 1 <= part.partNumber <= |Plan(|bytes|)|
    requires part == Plan(|bytes|)[part.partNumber - 1]
    ensures part.partNumber in parts ==> HasLanded(Sizes(parts), part)
  {
    PlanTiles(1, 0, |bytes|, PART_SIZE_BYTES, part.partNumber - 1);
    if part.partNumber in parts { assert IsPart(part.partNumber, parts[part.partNumber], bytes); }
  }

  lemma LandedRight(parts: map<int, seq<Byte>>, bytes: seq<Byte>, landed: map<int, nat>)
    requires PartsOf(parts, bytes) && landed == Sizes(parts)
    ensures forall i :: 0 <= i < |Plan(|bytes|)| && i + 1 in landed ==> HasLanded(landed, Plan(|bytes|)[i])
  {
    forall i | 0 <= i < |Plan(|bytes|)| && i + 1 in landed ensures HasLanded(landed, Plan(|bytes|)[i]) {
      PlanTiles(1, 0, |bytes|, PART_SIZE_BYTES, i);
      LandedAtSize(parts, bytes, Plan(|bytes|)[i]);
    }
  }

  /** Part `i` has its number, and the length it must have if it has landed. */
  predicate PlannedRight(plan: seq<PartPlan>, landed: map<int, nat>, i: nat)
    requires i < |plan|
  {
    plan[i].partNumber == i + 1 && (i + 1 in landed ==> HasLanded(landed, plan[i]))
  }

  lemma PlanFits(bytes: seq<Byte>, plan: seq<PartPlan>, parts: map<int, seq<Byte>>, landed: map<int, nat>)
    requires plan == Plan(|bytes|) && PartsOf(parts, bytes) && landed == Sizes(parts)
    ensures |bytes| <= MAX_PART_NUMBER * PART_SIZE_BYTES <==> |plan| <= MAX_PART_NUMBER
    ensures forall i :: 0 <= i < |plan| ==> PlannedRight(plan, landed, i)
  {
    PlanLength(1, 0, |bytes|, PART_SIZE_BYTES, MAX_PART_NUMBER);
    LandedRight(parts, bytes, landed);
    forall i | 0 <= i < |plan| ensures plan[i].partNumber == i + 1 { PlanTiles(1, 0, |bytes|, PART_SIZE_BYTES, i); }
  }

  lemma SomePart(size: nat)
    ensures size > 0 ==> |Plan(size)| >= 1
  {
  }

  /** A file all of whose parts have landed is within the store's part limit. */
  lemma LandedFits(parts: map<int, seq<Byte>>, bytes: seq<Byte>)
    requires PartsOf(parts, bytes) && AllLanded(parts, |bytes|)
    ensures |bytes| <= MAX_PART_NUMBER * PART_SIZE_BYTES
    ensures (exists n :: n in parts) ==> |bytes| > 0
  {
    var n := |Plan(|bytes|)|;
    assert n > 0 ==> IsPart(n, parts[n], bytes);
    PlanLength(1, 0, |bytes|, PART_SIZE_BYTES, MAX_PART_NUMBER);
    if m :| m in parts {
      assert IsPart(m, parts[m], bytes);
    }
  }
}
