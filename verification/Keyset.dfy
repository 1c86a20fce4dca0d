/**
 * Keyset pagination, for any kind of row: what pages of a walk must satisfy, page by page, so that the
 * walk as a whole is ordered, repeats nothing and misses no row that stays, whatever else changes meanwhile.
 */
module Keyset {
  import opened Ordering

  ghost predicate Transitive<T(!new)>(less: (T, T) -> bool) {
    forall x, y, z :: less(x, y) && less(y, z) ==> less(x, z)
  }

  /** `LIMIT n` on an ordered result. */
  function Take<T>(r: seq<T>, n: nat): (p: seq<T>)
    ensures p <= r && |p| == if |r| < n then |r| else n
  {
    if |r| < n then r else r[..n]
  }

  /** Reading one row more than the page holds tells exactly whether there is another page. */
  lemma Lookahead<T>(r: seq<T>, n: nat)
    ensures |Take(r, n + 1)| > n <==> |r| > n
    ensures |r| > n ==> Take(r, n + 1)[..n] == Take(r, n) && (n > 0 ==> Take(r, n + 1)[n - 1] == r[n - 1])
    ensures |r| <= n ==> Take(r, n + 1) == Take(r, n) == r
  {
  }

  lemma PrefixComesFirst<T>(less: (T, T) -> bool, p: seq<T>, rest: seq<T>, y: T, x: T)
    requires Sorted(less, p + rest) && y in p && x in p + rest && x !in p
    ensures less(y, x)
  {
    assert x in rest;
    var i :| 0 <= i < |rest| && rest[i] == x;
    var j :| 0 <= j < |p| && p[j] == y;
    assert (p + rest)[|p| + i] == x && (p + rest)[j] == y;
  }

  /** The first `n` rows of a sorted result come before all the others. */
  lemma TakeIsFirst<T(!new)>(less: (T, T) -> bool, r: seq<T>, n: nat)
    requires Sorted(less, r)
    ensures Sorted(less, Take(r, n))
    ensures forall x, y :: x in r && x !in Take(r, n) && y in Take(r, n) ==> less(y, x)
  {
    var p := Take(r, n);
    assert r == p + r[|p|..];
    forall x, y | x in r && x !in p && y in p ensures less(y, x) {
      PrefixComesFirst(less, p, r[|p|..], y, x);
    }
  }

  function Flatten<T>(pages: seq<seq<T>>): seq<T> {
    if pages == [] then [] else pages[0] + Flatten(pages[1..])
  }

  /**
   * One finished walk. `live[i]` are the matching rows when page `i` is read, `open[i]` those of them
   * the page's cursor has not passed yet.
   */
  datatype Walk<T> = Walk(live: seq<set<T>>, open: seq<set<T>>, pages: seq<seq<T>>)

  ghost predicate Finished<T(!new)>(less: (T, T) -> bool, w: Walk<T>) {
    Chained(less, w) && |w.pages| > 0 && w.open[0] == w.live[0] && Covers(w.pages[|w.pages| - 1], w.open[|w.pages| - 1])
  }

  /** A walk so far: each page hands on to the next. */
  ghost predicate Chained<T(!new)>(less: (T, T) -> bool, w: Walk<T>) {
    |w.live| == |w.open| == |w.pages| && forall i :: 0 <= i < |w.pages| ==> Linked(less, w, i)
  }

  /** Page `i` shows open rows in order and hands on to page `i + 1`, if there is one. */
  ghost predicate Linked<T(!new)>(less: (T, T) -> bool, w: Walk<T>, i: nat)
    requires i < |w.pages| == |w.live| == |w.open|
  {
    && Sorted(less, w.pages[i]) && (forall x :: x in w.pages[i] ==> x in w.open[i])
    && (i < |w.pages| - 1 ==> Continues(less, w.live[i + 1], w.open[i], w.open[i + 1], w.pages[i]))
  }

  ghost predicate Covers<T(!new)>(page: seq<T>, open: set<T>) {
    forall x :: x in open ==> x in page
  }

  /** Neither comes before the other: in a keyset order, the same position. */
  predicate Tied<T>(less: (T, T) -> bool, x: T, y: T) {
    !less(x, y) && !less(y, x)
  }

  /** A page that hands on to the next: it is not empty, and the next page's cursor stands just behind it. */
  ghost predicate Continues<T(!new)>(less: (T, T) -> bool,
      nextLive: set<T>, open: set<T>, nextOpen: set<T>, page: seq<T>) {
    && page != []
    && (forall x, y :: x in nextOpen && y in page ==> less(y, x))
    && (forall x, y :: x in open && x !in page && y in nextLive && Tied(less, x, y) ==> y in nextOpen)
  }

  /** A full page whose successor's cursor stands at its last row hands on as a walk requires. */
  lemma FullPageContinues<T(!new)>(less: (T, T) -> bool, open: set<T>, n: nat, nextLive: set<T>, nextOpen: set<T>)
    requires Transitive(less) && LinearOn(less, open) && 1 <= n < |open|
    requires var last := Ordered(less, open)[n - 1];
             && (forall x :: x in nextOpen ==> less(last, x))
             && (forall x, y :: x in open && less(last, x) && y in nextLive && Tied(less, x, y) ==> y in nextOpen)
    ensures Continues(less, nextLive, open, nextOpen, Take(Ordered(less, open), n))
  {
    var r := Ordered(less, open);
    var page := Take(r, n);
    TakeIsFirst(less, r, n);
    assert page[n - 1] == r[n - 1] && page[n - 1] in page;
    forall x, y | x in nextOpen && y in page ensures less(y, x) {
      var j :| 0 <= j < n && page[j] == y;
    }
  }

  lemma {:induction false} FlattenHas<T(!new)>(pages: seq<seq<T>>, x: T)
    ensures x in Flatten(pages) <==> exists i :: 0 <= i < |pages| && x in pages[i]
  {
    if pages != [] {
      FlattenHas(pages[1..], x);
      if i :| 0 <= i < |pages[1..]| && x in pages[1..][i] { assert x in pages[i + 1]; }
      if i :| 0 <= i < |pages| && x in pages[i] { assert i > 0 ==> x in pages[1..][i - 1]; }
    }
  }

  lemma SortedConcat<T>(less: (T, T) -> bool, a: seq<T>, b: seq<T>)
    requires Sorted(less, a) && Sorted(less, b)
    requires forall x, y :: x in a && y in b ==> less(x, y)
    ensures Sorted(less, a + b)
  {
    forall i, j | 0 <= i < j < |a + b| ensures less((a + b)[i], (a + b)[j]) {
      if i < |a| <= j { assert a[i] in a && b[j - |a|] in b; }
    }
  }

  /** Every row on page `i` or later is after everything on the pages before it. */
  lemma {:induction false} LaterIsAfter<T(!new)>(less: (T, T) -> bool, w: Walk<T>, i: nat, j: nat, y: T, x: T)
    requires Transitive(less) && Chained(less, w) && i < j < |w.pages|
    requires y in w.pages[i] && x in w.open[j]
    ensures less(y, x)
  {
    assert Linked(less, w, j - 1);
    if i + 1 < j {
      var z := w.pages[j - 1][0];
      assert z in w.pages[j - 1];
      LaterIsAfter(less, w, i, j - 1, y, z);
    }
  }

  lemma {:induction false} TailSorted<T(!new)>(less: (T, T) -> bool, w: Walk<T>, i: nat)
    requires Transitive(less) && Chained(less, w) && i <= |w.pages|
    ensures Sorted(less, Flatten(w.pages[i..]))
    decreases |w.pages| - i
  {
    if i < |w.pages| {
      assert Linked(less, w, i);
      TailSorted(less, w, i + 1);
      var rest := w.pages[i + 1..];
      assert w.pages[i..][1..] == rest;
      forall y, x | y in w.pages[i] && x in Flatten(rest) ensures less(y, x) {
        FlattenHas(rest, x);
        var j :| 0 <= j < |rest| && x in rest[j];
        assert x in w.pages[i + 1 + j] && Linked(less, w, i + 1 + j);
        LaterIsAfter(less, w, i, i + 1 + j, y, x);
      }
      SortedConcat(less, w.pages[i], Flatten(rest));
    }
  }

  /** `xs[k]` is a row of `live[k]`, at the same position every time. */
  ghost predicate Steady<T(!new)>(less: (T, T) -> bool, live: seq<set<T>>, xs: seq<T>) {
    && |xs| == |live| && (forall k :: 0 <= k < |live| ==> xs[k] in live[k])
    && (forall j, k :: 0 <= j < |xs| && 0 <= k < |xs| ==> Tied(less, xs[j], xs[k]))
  }

  /** A row that keeps its position, whatever else about it changes, is returned by some page. */
  lemma {:induction false} SteadyRowReached<T(!new)>(less: (T, T) -> bool, w: Walk<T>, xs: seq<T>, i: nat)
    returns (k: nat)
    requires Finished(less, w) && Steady(less, w.live, xs) && i < |w.pages| && xs[i] in w.open[i]
    ensures k < |w.pages| && xs[k] in w.pages[k] && xs[k] in Flatten(w.pages)
    decreases |w.pages| - i
  {
    assert Linked(less, w, i);
    if xs[i] in w.pages[i] {
      k := i;
      FlattenHas(w.pages, xs[k]);
    } else {
      assert Tied(less, xs[i], xs[i + 1]);
      k := SteadyRowReached(less, w, xs, i + 1);
    }
  }

  /**
   * A finished walk returns its rows in strictly ascending order, so none twice, and returns every row
   * that is there throughout.
   */
  lemma WalkIsStable<T(!new)>(less: (T, T) -> bool, w: Walk<T>)
    requires Transitive(less) && Finished(less, w)
    ensures Sorted(less, Flatten(w.pages))
    ensures forall x :: !less(x, x) && (forall k :: 0 <= k < |w.live| ==> x in w.live[k]) ==> x in Flatten(w.pages)
  {
    TailSorted(less, w, 0);
    assert w.pages[0..] == w.pages;
    forall x | !less(x, x) && (forall k :: 0 <= k < |w.live| ==> x in w.live[k]) ensures x in Flatten(w.pages) {
      var k := SteadyRowReached(less, w, seq(|w.live|, i => x), 0);
    }
  }

  /** Over a fixed table the pages, put together, are the sorted table. */
  lemma FixedWalkIsOrdered<T(!new)>(less: (T, T) -> bool, w: Walk<T>, s: set<T>)
    requires Transitive(less) && Finished(less, w) && LinearOn(less, s)
    requires forall i :: 0 <= i < |w.live| ==> w.live[i] == s && w.open[i] <= s
    ensures Flatten(w.pages) == Ordered(less, s)
  {
    WalkIsStable(less, w);
    forall x ensures x in Flatten(w.pages) <==> x in s {
      FlattenHas(w.pages, x);
      if i :| 0 <= i < |w.pages| && x in w.pages[i] { assert Linked(less, w, i); }
    }
    SortedUnique(less, s, Flatten(w.pages), Ordered(less, s));
  }

  lemma {:induction false} FlattenLength<T>(pages: seq<seq<T>>)
    requires forall i :: 0 <= i < |pages| - 1 ==> pages[i] != []
    ensures |pages| <= |Flatten(pages)| + 1
    ensures pages != [] && pages[|pages| - 1] != [] ==> |pages| <= |Flatten(pages)|
  {
    if pages != [] {
      FlattenLength(pages[1..]);
    }
  }

  lemma {:induction false} SortedFits<T(!new)>(less: (T, T) -> bool, s: set<T>, r: seq<T>)
    requires LinearOn(less, s) && Sorted(less, r) && forall x :: x in r ==> x in s
    ensures |r| <= |s|
    decreases |r|
  {
    if r != [] {
      var rest := r[1..];
      assert r[0] in r && forall i :: 0 <= i < |rest| ==> rest[i] == r[i + 1] && less(r[0], rest[i]);
      forall x | x in rest ensures x in s - {r[0]} { }
      SortedFits(less, s - {r[0]}, rest);
    }
  }

  /** Over a fixed table, following tokens cannot go on for longer than there are rows. */
  lemma ChainIsShort<T(!new)>(less: (T, T) -> bool, w: Walk<T>, s: set<T>)
    requires Transitive(less) && Chained(less, w) && LinearOn(less, s)
    requires forall i :: 0 <= i < |w.pages| ==> w.open[i] <= s && w.pages[i] != []
    ensures |w.pages| <= |s|
  {
    TailSorted(less, w, 0);
    assert w.pages[0..] == w.pages;
    forall x | x in Flatten(w.pages) ensures x in s {
      FlattenHas(w.pages, x);
      var i :| 0 <= i < |w.pages| && x in w.pages[i];
      assert Linked(less, w, i);
    }
    SortedFits(less, s, Flatten(w.pages));
    FlattenLength(w.pages);
  }
}
