/** Totals over finite maps, for ranking arguments about a whole table. */
module Measures {

  ghost function Total(m: map<int, nat>): nat
    decreases |m|
  {
    if forall k :: k !in m then 0 else
      var k :| k in m;
      m[k] + Total(m - {k})
  }

  lemma {:induction false} TotalRemove(m: map<int, nat>, k: int)
    requires k in m
    ensures Total(m) == m[k] + Total(m - {k})
    decreases |m|
  {
    var c :| c in m && Total(m) == m[c] + Total(m - {c});
    if c != k {
      TotalRemove(m - {c}, k);
      TotalRemove(m - {k}, c);
      assert (m - {c}) - {k} == (m - {k}) - {c};
    }
  }

  /** Changing one entry changes the total by the same amount. */
  lemma TotalUpdate(m: map<int, nat>, k: int, v: nat)
    requires k in m
    ensures Total(m[k := v]) + m[k] == Total(m) + v
  {
    TotalRemove(m, k);
    TotalRemove(m[k := v], k);
    assert m[k := v] - {k} == m - {k};
  }

  /** Pointwise below is below in total, and strictly so if one entry is. */
  lemma {:induction false} TotalBelow(a: map<int, nat>, b: map<int, nat>)
    requires a.Keys <= b.Keys && forall k :: k in a ==> a[k] <= b[k]
    ensures Total(a) <= Total(b)
    ensures (exists k :: k in a && a[k] < b[k]) ==> Total(a) < Total(b)
    decreases |b|
  {
    if exists k :: k in b {
      var k :| k in b;
      if j :| j in a && a[j] < b[j] { k := j; }
      TotalRemove(b, k);
      if k in a { TotalRemove(a, k); }
      else { assert a - {k} == a; }
      TotalBelow(a - {k}, b - {k});
    }
  }

  lemma OneMoreTime(c: nat, n: nat)
    ensures c * (n + 1) == c * n + c
  {
  }

  /** Below `b` except at the keys in `grown`, each of which holds at most `c`. */
  lemma {:induction false} TotalGrows(a: map<int, nat>, b: map<int, nat>, grown: set<int>, c: nat)
    requires forall k :: k in grown ==> k in a && a[k] <= c
    requires forall k :: k in a && k !in grown ==> k in b && a[k] <= b[k]
    ensures Total(a) <= Total(b) + c * |grown|
    decreases |grown|
  {
    if g :| g in grown {
      TotalRemove(a, g);
      TotalGrows(a - {g}, b, grown - {g}, c);
      OneMoreTime(c, |grown - {g}|);
      assert |grown| == |grown - {g}| + 1;
    } else {
      forall k | k in a.Keys ensures k in b.Keys { assert k !in grown; }
      TotalBelow(a, b);
    }
  }

  lemma {:induction false} TotalZero(m: map<int, nat>)
    requires forall k :: k in m ==> m[k] == 0
    ensures Total(m) == 0
    decreases |m|
  {
    if k :| k in m {
      TotalRemove(m, k);
      TotalZero(m - {k});
    }
  }
}
