/** Byte order on keys, and sorting of finite sets under a strict linear order. */
module Ordering {

  /** `COLLATE "C"` order. Comparing code points is comparing UTF-8 bytes, and '/' (0x2F) is next to '0' (0x30). */
  predicate Less(a: string, b: string) {
    |b| > 0 && (|a| == 0 || a[0] < b[0] || (a[0] == b[0] && Less(a[1..], b[1..])))
  }

  lemma {:induction false} LessIrreflexive(a: string)
    ensures !Less(a, a)
  {
    if |a| > 0 {
      LessIrreflexive(a[1..]);
    }
  }

  lemma {:induction false} LessTransitive(a: string, b: string, c: string)
    requires Less(a, b) && Less(b, c)
    ensures Less(a, c)
  {
    if |a| > 0 && a[0] == b[0] && b[0] == c[0] {
      LessTransitive(a[1..], b[1..], c[1..]);
    }
  }

  lemma {:induction false} LessTotal(a: string, b: string)
    requires a != b
    ensures Less(a, b) || Less(b, a)
  {
    if |a| > 0 && |b| > 0 && a[0] == b[0] {
      assert a == [a[0]] + a[1..] && b == [b[0]] + b[1..];
      LessTotal(a[1..], b[1..]);
    }
  }

  /** What a sort needs of its comparison: a strict linear order on the rows at hand. */
  ghost predicate LinearOn<T>(less: (T, T) -> bool, s: set<T>) {
    && (forall x :: x in s ==> !less(x, x))
    && (forall x, y :: x in s && y in s && x != y ==> less(x, y) || less(y, x))
    && (forall x, y, z :: x in s && y in s && z in s && less(x, y) && less(y, z) ==> less(x, z))
  }

  lemma LessLinear(s: set<string>)
    ensures LinearOn(Less, s)
  {
    forall x ensures !Less(x, x) { LessIrreflexive(x); }
    forall x, y | x != y ensures Less(x, y) || Less(y, x) { LessTotal(x, y); }
    forall x, y, z | Less(x, y) && Less(y, z) ensures Less(x, z) { LessTransitive(x, y, z); }
  }

  ghost predicate Sorted<T>(less: (T, T) -> bool, r: seq<T>) {
    forall i, j :: 0 <= i < j < |r| ==> less(r[i], r[j])
  }

  function IntLess(a: int, b: int): bool { a < b }

  ghost predicate Ascending(ids: seq<int>) {
    Sorted(IntLess, ids)
  }

  predicate IsLeast<T(==)>(less: (T, T) -> bool, m: T, s: set<T>) {
    m in s && forall y :: y in s ==> y == m || less(m, y)
  }

  lemma {:induction false} LeastExists<T(!new)>(less: (T, T) -> bool, s: set<T>)
    requires s != {} && LinearOn(less, s)
    ensures exists m :: IsLeast(less, m, s)
  {
    var m :| m in s;
    var rest := s - {m};
    if rest == {} {
      assert s == {m};
      assert IsLeast(less, m, s);
    } else {
      LeastExists(less, rest);
      var n :| IsLeast(less, n, rest);
      assert IsLeast(less, if less(m, n) then m else n, s);
    }
  }

  /** `SELECT ... ORDER BY`: the rows of a finite table, in order. */
  function Ordered<T(==, !new)>(less: (T, T) -> bool, s: set<T>): (r: seq<T>)
    requires LinearOn(less, s)
    ensures forall x :: x in r <==> x in s
    ensures Sorted(less, r)
    ensures |r| == |s|
  {
    if s == {} then [] else
      LeastExists(less, s);
      var m :| IsLeast(less, m, s);
      [m] + Ordered(less, s - {m})
  }

  /** A strictly sorted sequence is determined by its elements. */
  lemma {:induction false} SortedUnique<T>(less: (T, T) -> bool, s: set<T>, a: seq<T>, b: seq<T>)
    requires LinearOn(less, s)
    requires Sorted(less, a) && Sorted(less, b)
    requires forall x :: x in a <==> x in s
    requires forall x :: x in b <==> x in s
    ensures a == b
    decreases |a|
  {
    if a == [] {
      assert forall i :: 0 <= i < |b| ==> b[i] in s;
    } else {
      assert a[0] in s && a[0] in b;
      assert b[0] in s && b[0] in a;
      assert a[0] == b[0];
      var rest := s - {a[0]};
      assert forall x :: x in a[1..] <==> x in rest by {
        assert forall i :: 0 < i < |a| ==> a[i] != a[0];
      }
      assert forall x :: x in b[1..] <==> x in rest by {
        assert forall i :: 0 < i < |b| ==> b[i] != b[0];
      }
      SortedUnique(less, rest, a[1..], b[1..]);
    }
  }
}
