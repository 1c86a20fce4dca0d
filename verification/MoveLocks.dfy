/** Acquiring and releasing the session locks of one move. */
module MoveLocks {
  import opened Common
  import opened Ordering
  import MoveProtocol

  /** The lock ids of some keys, with multiplicity: a session lock taken twice must be released twice. */
  function LockIds(hash: string -> int, keys: seq<string>): multiset<int> {
    if keys == [] then multiset{} else LockIds(hash, keys[..|keys| - 1]) + multiset{hash(keys[|keys| - 1])}
  }

  lemma LockIdsMore(hash: string -> int, keys: seq<string>, k: string)
    ensures LockIds(hash, keys + [k]) == LockIds(hash, keys) + multiset{hash(k)}
  {
    assert (keys + [k])[..|keys|] == keys;
  }

  ghost predicate SameElements(a: seq<string>, b: seq<string>) {
    forall k :: k in a <==> k in b
  }

  /** The order in which the move protocol takes its two locks is the order in which they are acquired here. */
  lemma LockOrderOfMove(j: MoveProtocol.Job, locked: seq<string>)
    requires j.oldKey != j.newKey && Sorted(Less, locked) && SameElements(locked, [j.oldKey, j.newKey])
    ensures locked == [MoveProtocol.KeyAt(j, 0), MoveProtocol.KeyAt(j, 1)]
  {
    var a, b := MoveProtocol.KeyAt(j, 0), MoveProtocol.KeyAt(j, 1);
    LessTotal(j.oldKey, j.newKey);
    LessLinear({a, b});
    SortedUnique(Less, {a, b}, locked, [a, b]);
  }

  class Session {
    const hash: string -> int
    /** No lock call fails and a connection is available. */
    const reliable: bool
    /** Lock ids this session holds. */
    var held: multiset<int>
    /** The keys of all successful lock calls, in order. */
    ghost var log: seq<string>

    constructor (hash: string -> int, reliable: bool)
      ensures this.hash == hash && this.reliable == reliable && held == multiset{} && log == []
    {
      this.hash, this.reliable, held, log := hash, reliable, multiset{}, [];
    }

    /** One lock call; blocking is not visible here, failing is. */
    method AdvisoryLock(k: string) returns (ok: bool)
      modifies this
      ensures held == old(held) + (if ok then multiset{hash(k)} else multiset{})
      ensures log == old(log) + (if ok then [k] else []) && (reliable ==> ok)
    {
      ok := *;
      ok := ok || reliable;
      if ok {
        held, log := held + multiset{hash(k)}, log + [k];
      }
    }

    /** Releases one lock a key. */
    method ReleaseAll(locked: seq<string>)
      modifies this`held
      ensures held == old(held) - LockIds(hash, locked)
    {
      for i := 0 to |locked|
        invariant held == old(held) - LockIds(hash, locked[..i])
      {
        assert locked[..i + 1][..i] == locked[..i];
        held := held - multiset{hash(locked[i])};
      }
      assert locked[..|locked|] == locked;
    }

    /**
     * All or nothing: on success each distinct key has been locked once, in byte order; on failure the
     * session holds what it held before, and only a prefix of that order was tried.
     */
    method AcquireMoveLocks(keys: seq<string>) returns (r: Result<seq<string>>)
      modifies this
      ensures r.Ok? ==>
                && Sorted(Less, r.value) && SameElements(r.value, keys)
                && held == old(held) + LockIds(hash, r.value) && log == old(log) + r.value
      ensures r.Err? ==> held == old(held) && r.error == Internal && !reliable
      ensures r.Err? ==> old(log) <= log && Sorted(Less, log[|old(log)|..])
    {
      var unique := Deduplicate(keys);
      unique := SortKeys(unique);
      var connected: bool := *;
      if !connected && !reliable { return Err(Internal); }
      var ok, locked := LockInOrder(unique);
      if !ok {
        ReleaseAll(locked);
        return Err(Internal);
      }
      return Ok(locked);
    }

    method LockInOrder(keys: seq<string>) returns (ok: bool, locked: seq<string>)
      modifies this
      ensures locked <= keys && (ok ==> locked == keys) && (reliable ==> ok)
      ensures held == old(held) + LockIds(hash, locked) && log == old(log) + locked
    {
      locked, ok := [], true;
      while ok && |locked| < |keys|
        invariant locked <= keys && Took(old(held), old(log), locked) && (reliable ==> ok)
        decreases |keys| - |locked|, ok
      {
        ok, locked := LockNext(keys, locked, old(held), old(log));
      }
    }

    /** The session has taken exactly the locks of `locked`, in order, since it held `h` with the log `l`. */
    ghost predicate Took(h: multiset<int>, l: seq<string>, locked: seq<string>)
      reads this
    {
      held == h + LockIds(hash, locked) && log == l + locked
    }

    method LockNext(keys: seq<string>, locked: seq<string>, ghost h: multiset<int>, ghost l: seq<string>)
      returns (ok: bool, more: seq<string>)
      requires locked <= keys && |locked| < |keys| && Took(h, l, locked)
      modifies this
      ensures more == (if ok then locked + [keys[|locked|]] else locked) && more <= keys
      ensures Took(h, l, more) && (reliable ==> ok)
    {
      var k := keys[|locked|];
      ok := AdvisoryLock(k);
      more := if ok then locked + [k] else locked;
      LockIdsMore(hash, locked, k);
    }
  }

  ghost predicate Distinct(keys: seq<string>) {
    forall i, j :: 0 <= i < j < |keys| ==> keys[i] != keys[j]
  }

  method Deduplicate(keys: seq<string>) returns (unique: seq<string>)
    ensures SameElements(unique, keys) && Distinct(unique)
  {
    var seen: set<string> := {};
    unique := [];
    for i := 0 to |keys|
      invariant forall k :: k in seen <==> k in keys[..i]
      invariant forall k :: k in unique <==> k in seen
      invariant Distinct(unique)
    {
      if keys[i] !in seen {
        seen, unique := seen + {keys[i]}, unique + [keys[i]];
      }
    }
  }

  /** A byte-order sort of distinct keys. */
  method SortKeys(keys: seq<string>) returns (sorted: seq<string>)
    requires Distinct(keys)
    ensures SameElements(sorted, keys) && Sorted(Less, sorted) && |sorted| == |keys|
  {
    LessLinear(set k | k in keys);
    sorted := Ordered(Less, set k | k in keys);
    DistinctSize(keys);
  }

  lemma {:induction false} DistinctSize(keys: seq<string>)
    requires Distinct(keys)
    ensures |set k | k in keys| == |keys|
  {
    if keys != [] {
      var rest := keys[..|keys| - 1];
      DistinctSize(rest);
      assert (set k | k in keys) == (set k | k in rest) + {keys[|keys| - 1]};
    }
  }
}
