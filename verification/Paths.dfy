/** Object keys as paths: segments, ancestor directories, the byte-range subtree test and the path validators. */
module Paths {
  import opened Common
  import opened Ordering

  /** A directory path: non-empty and "/"-terminated. The root "" is never stored. */
  predicate IsDirPath(d: string) {
    d != "" && d[|d| - 1] == '/'
  }

  /** A marker key is one `LIKE '%/'` matches. */
  predicate IsMarker(k: string) {
    IsDirPath(k)
  }

  // ---- Segments -------------------------------------------------------------------------------

  function SlashIndex(s: string): (i: nat)
    ensures i <= |s|
    ensures forall x :: 0 <= x < i ==> s[x] != '/'
    ensures i < |s| ==> s[i] == '/'
  {
    if s == "" || s[0] == '/' then 0 else 1 + SlashIndex(s[1..])
  }

  /** `strings.Split(s, "/")`, and `string_to_array(s, '/')` on a non-empty string. */
  function Split(s: string): (parts: seq<string>)
    ensures parts != []
    decreases |s|
  {
    var i := SlashIndex(s);
    if i == |s| then [s] else [s[..i]] + Split(s[i + 1..])
  }

  /** `array_to_string(parts, '/')`. */
  function Join(parts: seq<string>): string {
    if parts == [] then "" else
    if |parts| == 1 then parts[0] else parts[0] + "/" + Join(parts[1..])
  }

  lemma JoinCons(head: string, tail: seq<string>)
    requires tail != []
    ensures Join([head] + tail) == head + "/" + Join(tail)
  {
    assert ([head] + tail)[1..] == tail;
  }

  predicate HasDotDotSegment(s: string) {
    ".." in Split(s)
  }

  /** The segments of a "/"-terminated prefix are segments of the whole, followed by an empty one. */
  lemma {:induction false} SegmentsOfPrefix(d: string, k: string)
    requires IsDirPath(d) && d <= k
    ensures forall p :: p in Split(d) ==> p == "" || p in Split(k)
    decreases |k|
  {
    var i := SlashIndex(k);
    SlashOfPrefix(d, k);
    if i + 1 < |d| {
      SegmentsOfPrefix(d[i + 1..], k[i + 1..]);
    }
    assert Split(d[i + 1..]) == [""] || i + 1 < |d|;
  }

  lemma SlashOfPrefix(d: string, k: string)
    requires IsDirPath(d) && d <= k
    ensures SlashIndex(d) == SlashIndex(k) < |d|
    ensures d[..SlashIndex(k)] == k[..SlashIndex(k)]
  {
    assert k[|d| - 1] == '/';
  }

  // ---- Ancestor explosion ---------------------------------------------------------------------

  /** The directories one key contributes: `array_to_string(parts[1:i], '/') || '/'` for `i < array_length`. */
  function Ancestors(k: string): set<string> {
    if IsMarker(k) then {} else
    var parts := Split(k);
    set i | 1 <= i < |parts| :: Join(parts[..i]) + "/"
  }

  function AncestorsOf(keys: seq<string>): set<string> {
    set k, d | k in keys && d in Ancestors(k) :: d
  }

  lemma {:induction false} JoinedPrefix(k: string, i: nat)
    requires 1 <= i < |Split(k)|
    ensures Join(Split(k)[..i]) + "/" <= k
    decreases |k|
  {
    var j := SlashIndex(k);
    var rest := Split(k[j + 1..]);
    assert k == k[..j] + "/" + k[j + 1..];
    if i == 1 {
      assert Split(k)[..1] == [k[..j]];
    } else {
      JoinedPrefix(k[j + 1..], i - 1);
      assert Split(k)[..i] == [k[..j]] + rest[..i - 1];
      JoinCons(k[..j], rest[..i - 1]);
    }
  }

  /** Taking one segment off a "/"-terminated prefix and off the whole. */
  lemma PrefixStep(d: string, k: string) returns (head: string, d': string, k': string)
    requires IsDirPath(d) && d <= k
    ensures d == head + "/" + d' && d' <= k' && |k'| < |k|
    ensures Split(k) == [head] + Split(k')
    ensures d' != "" ==> IsDirPath(d')
  {
    var j := SlashIndex(k);
    SlashOfPrefix(d, k);
    head, d', k' := k[..j], d[j + 1..], k[j + 1..];
    PrefixTail(d, k, j);
    assert d[j] == '/' && head == d[..j];
    if d' != "" { assert d'[|d'| - 1] == d[|d| - 1]; }
  }

  lemma PrefixTail(d: string, k: string, j: nat)
    requires d <= k && j < |d|
    ensures d[..j] == k[..j] && d[j] == k[j] && d[j + 1..] <= k[j + 1..] && d == d[..j] + [d[j]] + d[j + 1..]
  {
    assert k == d + k[|d|..];
    assert k[j + 1..] == d[j + 1..] + k[|d|..];
  }

  lemma {:induction false} PrefixIsJoined(d: string, k: string) returns (i: nat)
    requires IsDirPath(d) && d <= k
    ensures 1 <= i < |Split(k)| && d == Join(Split(k)[..i]) + "/"
    decreases |k|
  {
    var head, d', k' := PrefixStep(d, k);
    if d' == "" {
      i := 1;
      assert Split(k)[..1] == [head];
    } else {
      var i' := PrefixIsJoined(d', k');
      i := i' + 1;
      assert Split(k)[..i] == [head] + Split(k')[..i'];
      JoinCons(head, Split(k')[..i']);
    }
  }

  /** The explosion yields exactly the "/"-terminated proper prefixes. */
  lemma AncestorsAreDirPrefixes(k: string, d: string)
    ensures d in Ancestors(k) <==> !IsMarker(k) && IsDirPath(d) && d < k
  {
    if !IsMarker(k) {
      if d in Ancestors(k) {
        var i :| 1 <= i < |Split(k)| && d == Join(Split(k)[..i]) + "/";
        JoinedPrefix(k, i);
      }
      if IsDirPath(d) && d < k {
        var i := PrefixIsJoined(d, k);
      }
    }
  }

  // ---- Byte-range subtree test ----------------------------------------------------------------

  /** `key > path AND key < left(path, -1) || '0'`. */
  predicate InSubtreeRange(d: string, k: string)
    requires d != ""
  {
    Less(d, k) && Less(k, d[..|d| - 1] + "0")
  }

  /** On a "/"-terminated path the byte range is exactly the proper-prefix test. */
  lemma {:induction false} RangeIsPrefix(d: string, k: string)
    requires IsDirPath(d)
    ensures InSubtreeRange(d, k) <==> d < k
  {
    var hi := d[..|d| - 1] + "0";
    if |d| == 1 {
      assert hi == "0" && d == "/";
      if |k| > 0 {
        assert Less(k, hi) <==> k[0] < '0';
        assert Less(d, k) <==> '/' < k[0] || (k[0] == '/' && |k| > 1);
        assert d < k <==> k[0] == '/' && |k| > 1;
      }
    } else if |k| > 0 {
      var d', k' := d[1..], k[1..];
      assert hi[1..] == d'[..|d'| - 1] + "0" && hi[0] == d[0];
      RangeIsPrefix(d', k');
      if d[0] == k[0] {
        assert d < k <==> d' < k' by {
          assert d == [d[0]] + d' && k == [k[0]] + k';
        }
      }
    }
  }

  /** Whatever a path ends in, the range holds what is below path + "/" iff that character sorts before '0'. */
  lemma {:induction false} RangeBelow(d: string, x: string)
    requires d != ""
    ensures InSubtreeRange(d, d + "/" + x) <==> d[|d| - 1] < '0'
    decreases |d|
  {
    var k, hi := d + "/" + x, d[..|d| - 1] + "0";
    if |d| == 1 {
      assert k[1..] == "/" + x && hi == "0" && hi[1..] == "" && d[1..] == "" && k[0] == d[0];
      assert Less(d[1..], k[1..]) && !Less(k[1..], hi[1..]);
    } else {
      assert k[1..] == d[1..] + "/" + x && hi[1..] == d[1..][..|d| - 2] + "0" && hi[0] == d[0] == k[0];
      RangeBelow(d[1..], x);
    }
  }

  // ---- Parent of a directory, directory of a key ----------------------------------------------

  /** The longest prefix of `k` that is "" or "/"-terminated: the directory a key is directly in. */
  function Dir(k: string): (d: string)
    ensures d <= k && (d == "" || IsDirPath(d))
    ensures forall x :: |d| <= x < |k| ==> k[x] != '/'
  {
    if k == "" || k[|k| - 1] == '/' then k else Dir(k[..|k| - 1])
  }

  /** The generated column `COALESCE(substring(path from '^(.*\/)[^\/]*\/$'), '')`. */
  function Parent(d: string): (p: string)
    requires IsDirPath(d)
    ensures p < d && (p == "" || IsDirPath(p))
  {
    Dir(d[..|d| - 1])
  }

  lemma DirUnique(k: string, d: string)
    requires d <= k && (d == "" || IsDirPath(d)) && forall x :: |d| <= x < |k| ==> k[x] != '/'
    ensures d == Dir(k)
  {
    var e := Dir(k);
    assert e == "" || k[|e| - 1] == '/';
    assert d == "" || k[|d| - 1] == '/';
  }

  /** `Parent` is the capture of the regular expression, and "" exactly when the expression does not match. */
  lemma ParentIsCapture(d: string, g: string, seg: string)
    requires IsDirPath(d) && d == g + seg + "/" && '/' !in seg
    ensures g == "" || IsDirPath(g) ==> Parent(d) == g
    ensures Parent(d) != "" <==> exists h, t :: IsDirPath(h) && '/' !in t && d == h + t + "/"
  {
    if g == "" || IsDirPath(g) {
      assert d[..|d| - 1] == g + seg;
      DirUnique(d[..|d| - 1], g);
    }
    var p := Parent(d);
    if p != "" {
      assert d == p + d[|p|..|d| - 1] + "/";
    }
    if h, t :| IsDirPath(h) && '/' !in t && d == h + t + "/" {
      assert d[..|d| - 1] == h + t;
      DirUnique(d[..|d| - 1], h);
    }
  }

  // ---- Validators -----------------------------------------------------------------------------

  function NormalizeDirPath(path: string): Result<string> {
    if path == "" then Ok("") else
    if HasDotDotSegment(path) then Err(InvalidArgument) else
    var trimmed := if "/" <= path then path[1..] else path;
    Ok(if trimmed != "" && trimmed[|trimmed| - 1] == '/' then trimmed else trimmed + "/")
  }

  /** A ".." between slashes or the ends of the string. */
  predicate DotDotAt(s: string, i: nat) {
    && i + 2 <= |s| && s[i] == '.' && s[i + 1] == '.'
    && (i == 0 || s[i - 1] == '/')
    && (i + 2 == |s| || s[i + 2] == '/')
  }

  lemma DotDotAfter(s: string, n: nat, i: nat)
    requires n < |s| && s[n] == '/' && forall x :: 0 <= x < n ==> s[x] != '/'
    ensures DotDotAt(s, i) <==> (i == 0 && n == 2 && s[0] == s[1] == '.') || (i > n && DotDotAt(s[n + 1..], i - n - 1))
  {
  }

  lemma DotDotAlone(s: string, i: nat)
    requires forall x :: 0 <= x < |s| ==> s[x] != '/'
    ensures DotDotAt(s, i) <==> i == 0 && s == ".."
  {
  }

  lemma {:induction false} DotDotMeans(s: string)
    ensures HasDotDotSegment(s) <==> exists i: nat :: DotDotAt(s, i)
    decreases |s|
  {
    var n := SlashIndex(s);
    if n == |s| {
      forall i: nat ensures DotDotAt(s, i) <==> i == 0 && s == ".." { DotDotAlone(s, i); }
      assert Split(s) == [s];
      if s == ".." { assert DotDotAt(s, 0); }
    } else {
      var rest := s[n + 1..];
      DotDotMeans(rest);
      forall i: nat
        ensures DotDotAt(s, i) <==> (i == 0 && n == 2 && s[0] == s[1] == '.') || (i > n && DotDotAt(rest, i - n - 1))
      { DotDotAfter(s, n, i); }
      assert s[..n] == ".." <==> n == 2 && s[0] == s[1] == '.';
      assert HasDotDotSegment(s) <==> s[..n] == ".." || HasDotDotSegment(rest);
      if i: nat :| DotDotAt(rest, i) { assert DotDotAt(s, i + n + 1); }
      if s[..n] == ".." { assert DotDotAt(s, 0); }
    }
  }

  lemma DotDotSlash(p: string, i: nat)
    requires p != ""
    ensures DotDotAt(p + "/", i) <==> DotDotAt(p, i)
  {
  }

  /** A path with and without its trailing "/" names the same directory. */
  lemma TrailingSlash(p: string)
    requires p != "" && p[|p| - 1] != '/'
    ensures NormalizeDirPath(p) == NormalizeDirPath(p + "/")
  {
    var q := p + "/";
    DotDotMeans(p);
    DotDotMeans(q);
    forall i: nat ensures DotDotAt(q, i) <==> DotDotAt(p, i) { DotDotSlash(p, i); }
    assert "/" <= q <==> "/" <= p;
    if "/" <= p { assert q[1..] == p[1..] + "/" && p[1..][|p| - 2] == p[|p| - 1]; }
  }

  /** Which paths are refused, and which directory every other one names. */
  lemma NormalizeMeans(p: string)
    ensures NormalizeDirPath(p).Err? <==> HasDotDotSegment(p)
    ensures p == "" ==> NormalizeDirPath(p) == Ok("")
    ensures p == "/" ==> NormalizeDirPath(p) == Ok("/")
    ensures !HasDotDotSegment(p) && p != "" && !("/" <= p) ==>
              NormalizeDirPath(p) == Ok(if p[|p| - 1] == '/' then p else p + "/")
    ensures !HasDotDotSegment(p) && IsDirPath(p) && "/" < p ==> NormalizeDirPath(p) == Ok(p[1..])
    ensures NormalizeDirPath(p).Err? ==> NormalizeDirPath(p).error == InvalidArgument
  {
    SlashNormal();
    if "/" < p { assert IsDirPath(p) ==> p[1..][|p| - 2] == '/'; }
  }

  lemma NormalizeIsDir(p: string)
    ensures NormalizeDirPath(p).Ok? ==> NormalizeDirPath(p).value == "" || IsDirPath(NormalizeDirPath(p).value)
  {
  }

  function ValidateUploadKey(indexPrefix: string, key: string): Result<string> {
    if key == "" then Err(InvalidArgument) else
    if "/" <= key || HasDotDotSegment(key) then Err(InvalidArgument) else
    if indexPrefix != "" && indexPrefix <= key then Err(InvalidArgument) else
    Ok(key)
  }

  function ValidateDirPath(indexPrefix: string, path: string): Result<string> {
    if path == "" then Err(InvalidArgument) else
    if path[|path| - 1] != '/' then Err(InvalidArgument) else
    if "/" <= path || HasDotDotSegment(path) then Err(InvalidArgument) else
    if indexPrefix != "" && indexPrefix <= path then Err(InvalidArgument) else
    Ok(path)
  }

  /** What upload validation asks of a key, whatever the reserved prefix. */
  predicate Browsable(k: string) {
    !("/" <= k) && !HasDotDotSegment(k)
  }

  /** A key whose directories the browse endpoint can follow. */
  predicate Tame(k: string) {
    !HasDotDotSegment(Dir(k)) && ("/" <= k ==> Dir(k) == "/")
  }

  lemma SlashNormal()
    ensures !HasDotDotSegment("/") && !HasDotDotSegment("") && NormalizeDirPath("/") == Ok("/")
  {
    assert SlashIndex("/") == 0 && "/"[1..] == "";
    assert Split("") == [""];
    assert Split("/") == [""] + [""];
    assert "/" <= "/" && "/"[1..] + "/" == "/";
  }

  lemma PrefixOfDir(d: string, k: string)
    requires IsDirPath(d) && d <= k
    ensures d <= Dir(k)
  {
    assert k[|d| - 1] == '/';
  }

  /** A directory path is accepted unchanged iff it has no ".." segment, and no leading "/" unless it is "/". */
  lemma NormalDirs(d: string)
    requires IsDirPath(d)
    ensures NormalizeDirPath(d) == Ok(d) <==> !HasDotDotSegment(d) && ("/" <= d ==> d == "/")
  {
    SlashNormal();
    if "/" <= d && d != "/" {
      assert d[1..][|d| - 2] == '/';
    }
  }

  /** The endpoint accepts every directory of a key unchanged iff the key is tame. */
  lemma TameIff(k: string)
    requires !IsMarker(k)
    ensures Tame(k) <==> forall d :: d in Ancestors(k) ==> NormalizeDirPath(d) == Ok(d)
  {
    SlashNormal();
    var dir := Dir(k);
    if Tame(k) {
      forall d | d in Ancestors(k) ensures NormalizeDirPath(d) == Ok(d) {
        AncestorsAreDirPrefixes(k, d);
        PrefixOfDir(d, k);
        SegmentsOfPrefix(d, dir);
        NormalDirs(d);
        assert "/" <= d ==> "/" <= k;
      }
    } else {
      assert dir != "" by { assert "/" <= k ==> k[0] == '/'; }
      AncestorsAreDirPrefixes(k, dir);
      NormalDirs(dir);
      PrefixOfDir(dir, k);
    }
  }

  lemma BrowsableIsTame(k: string)
    requires Browsable(k)
    ensures Tame(k)
  {
    SlashNormal();
    if Dir(k) != "" { SegmentsOfPrefix(Dir(k), k); }
  }

  /** Uploads are browsable, and an upload and a directory deletion never reach under the reserved prefix. */
  lemma ValidatedKeys(indexPrefix: string, s: string)
    ensures ValidateUploadKey(indexPrefix, s).Ok? <==>
              s != "" && Browsable(s) && (indexPrefix == "" || !(indexPrefix <= s))
    ensures ValidateDirPath(indexPrefix, s).Ok? <==> IsDirPath(s) && ValidateUploadKey(indexPrefix, s).Ok?
    ensures ValidateDirPath(indexPrefix, s).Ok? ==> NormalizeDirPath(s) == Ok(s)
  {
  }
}
