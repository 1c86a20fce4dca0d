/**
 * Progress of the move protocol: ordered locking never deadlocks while lock ids are collision-free,
 * every run without new calls is finite, and the two hypotheses of the protocol are necessary.
 */
module MoveLiveness {
  import opened Ordering
  import opened Measures
  import opened MoveProtocol

  // ---- Waiting --------------------------------------------------------------------------------

  predicate Wants(j: Job) {
    j.pc.Locking? && j.pc.n < 2
  }

  predicate Waiting(h: Hash, s: State, m: Mover) {
    m in s.jobs && Wants(s.jobs[m]) && !Grantable(h, s, m, KeyAt(s.jobs[m], s.jobs[m].pc.n))
  }

  function Taken(j: Job): nat {
    if j.pc.Locking? then j.pc.n else 2
  }

  /** Lock `l` belongs to a live mover, for one of the keys it has reached so far. */
  ghost predicate Justified(h: Hash, s: State, l: int)
    requires l in s.owner
  {
    s.owner[l] in s.jobs && exists i: nat :: i < Taken(s.jobs[s.owner[l]]) && h(KeyAt(s.jobs[s.owner[l]], i)) == l
  }

  ghost predicate LockInv(h: Hash, s: State) {
    && (forall m :: m in s.jobs ==> s.jobs[m].oldKey != s.jobs[m].newKey && Taken(s.jobs[m]) <= 2)
    && (forall l :: l in s.owner ==> Justified(h, s, l))
  }

  /** The same call, at least as far along. */
  predicate Advances(j: Job, j': Job) {
    j'.oldKey == j.oldKey && j'.newKey == j.newKey && Taken(j) <= Taken(j') <= 2
  }

  lemma JustifiedStays(h: Hash, s: State, t: State, l: int)
    requires l in s.owner && l in t.owner && s.owner[l] == t.owner[l] && Justified(h, s, l)
    requires s.owner[l] in t.jobs && Advances(s.jobs[s.owner[l]], t.jobs[s.owner[l]])
    ensures Justified(h, t, l)
  {
    var m := s.owner[l];
    var i: nat :| i < Taken(s.jobs[m]) && h(KeyAt(s.jobs[m], i)) == l;
    assert KeyAt(t.jobs[m], i) == KeyAt(s.jobs[m], i);
  }

  lemma AcquireKeepsLockInv(h: Hash, s: State, m: Mover)
    requires LockInv(h, s) && Enabled(h, s, Acquire(m))
    ensures LockInv(h, Apply(h, s, Acquire(m)))
  {
    var t := Apply(h, s, Acquire(m));
    forall l | l in t.owner ensures Justified(h, t, l) {
      if l == h(KeyAt(s.jobs[m], s.jobs[m].pc.n)) {
        assert KeyAt(t.jobs[m], s.jobs[m].pc.n) == KeyAt(s.jobs[m], s.jobs[m].pc.n);
      } else {
        JustifiedStays(h, s, t, l);
      }
    }
  }

  lemma UnlockKeepsLockInv(h: Hash, s: State, m: Mover)
    requires LockInv(h, s)
    ensures LockInv(h, Unlocked(s, m))
  {
    var t := Unlocked(s, m);
    forall l | l in t.owner ensures Justified(h, t, l) {
      JustifiedStays(h, s, t, l);
    }
  }

  lemma OtherStepKeepsLockInv(h: Hash, s: State, t: State, m: Mover)
    requires LockInv(h, s) && t.owner == s.owner && m in t.jobs && t.jobs == s.jobs[m := t.jobs[m]]
    requires t.jobs[m].oldKey != t.jobs[m].newKey && Taken(t.jobs[m]) <= 2
    requires m in s.jobs ==> Advances(s.jobs[m], t.jobs[m])
    ensures LockInv(h, t)
  {
    forall l | l in t.owner ensures Justified(h, t, l) {
      JustifiedStays(h, s, t, l);
    }
  }

  lemma StepKeepsLockInv(h: Hash, s: State, step: Step)
    requires LockInv(h, s) && Enabled(h, s, step)
    ensures LockInv(h, Apply(h, s, step))
  {
    if step.Acquire? {
      AcquireKeepsLockInv(h, s, step.m);
    } else if step.AcquireFails? || step.Release? || step.Crash? {
      UnlockKeepsLockInv(h, s, step.m);
    } else {
      OtherStepKeepsLockInv(h, s, Apply(h, s, step), step.m);
    }
  }

  lemma {:induction false} RunKeepsLockInv(h: Hash, states: seq<State>, steps: seq<Step>, i: nat)
    requires IsRun(h, states, steps) && LockInv(h, states[0]) && i < |states|
    ensures LockInv(h, states[i])
  {
    if i > 0 {
      RunKeepsLockInv(h, states, steps, i - 1);
      StepKeepsLockInv(h, states[i - 1], steps[i - 1]);
    }
  }

  /** No two keys in play share a lock id. */
  ghost predicate CollisionFree(h: Hash, s: State) {
    forall m, n, i: nat, j: nat ::
      m in s.jobs && n in s.jobs && i < 2 && j < 2 && h(KeyAt(s.jobs[m], i)) == h(KeyAt(s.jobs[n], j)) ==>
        KeyAt(s.jobs[m], i) == KeyAt(s.jobs[n], j)
  }

  lemma KeysAscend(j: Job)
    requires j.oldKey != j.newKey
    ensures Less(KeyAt(j, 0), KeyAt(j, 1))
  {
    LessTotal(j.oldKey, j.newKey);
  }

  ghost function WantedAbove(s: State, k: string): set<string> {
    set m | m in s.jobs && Less(k, KeyAt(s.jobs[m], 1)) :: KeyAt(s.jobs[m], 1)
  }

  /** Following the wait chain climbs in byte order, so it ends at a mover that is not waiting. */
  lemma {:induction false} FindRunnable(h: Hash, s: State, m: Mover) returns (r: Mover)
    requires LockInv(h, s) && CollisionFree(h, s) && m in s.jobs
    ensures r in s.jobs && !Waiting(h, s, r)
    decreases WantedAbove(s, KeyAt(s.jobs[m], 0)), if Wants(s.jobs[m]) then 1 - s.jobs[m].pc.n else 0
  {
    var j := s.jobs[m];
    if !Waiting(h, s, m) { return m; }
    var k := KeyAt(j, j.pc.n);
    var o := s.owner[h(k)];
    assert Justified(h, s, h(k));
    var i: nat :| i < Taken(s.jobs[o]) && h(KeyAt(s.jobs[o], i)) == h(k);
    assert KeyAt(s.jobs[o], i) == k;
    if !Waiting(h, s, o) { return o; }
    KeysAscend(j);
    KeysAscend(s.jobs[o]);
    assert i == 0 && s.jobs[o].pc.n == 1;
    if j.pc.n == 0 {
      assert KeyAt(s.jobs[o], 0) == KeyAt(j, 0);
    } else {
      var lo, hi := KeyAt(j, 0), KeyAt(j, 1);
      forall x | x in WantedAbove(s, hi) ensures x in WantedAbove(s, lo) { LessTransitive(lo, hi, x); }
      LessIrreflexive(hi);
      assert hi in WantedAbove(s, lo) && hi !in WantedAbove(s, hi);
    }
    r := FindRunnable(h, s, o);
  }

  /** A step by which a call advances on its own: not an arrival, a failed acquire or a crash. */
  predicate Progress(step: Step) {
    !step.Start? && !step.AcquireFails? && !step.Crash?
  }

  function NextStep(j: Job, m: Mover): Step {
    match j.pc
    case Locking(n) => if n < 2 then Acquire(m) else Step.Reread(m)
    case Reread => CheckDestination(m)
    case Checked => Copy(m, false, false)
    case Copied => Update(m, false)
    case RollingBack => Rollback(m, true)
    case Updated => DeleteOld(m, true)
    case Finished => Release(m)
  }

  /** With collision-free lock ids some pending call can always advance, in every state of every run. */
  lemma NoDeadlock(h: Hash, states: seq<State>, steps: seq<Step>, i: nat)
    requires IsRun(h, states, steps) && LockInv(h, states[0]) && i < |states|
    requires CollisionFree(h, states[i]) && exists m :: m in states[i].jobs
    ensures exists step :: Progress(step) && Enabled(h, states[i], step)
  {
    RunKeepsLockInv(h, states, steps, i);
    var s := states[i];
    var m :| m in s.jobs;
    var r := FindRunnable(h, s, m);
    assert Progress(NextStep(s.jobs[r], r)) && Enabled(h, s, NextStep(s.jobs[r], r));
  }

  // ---- Termination ----------------------------------------------------------------------------

  function Rank(j: Job): nat {
    match j.pc
    case Locking(n) => if n <= 2 then 8 - n else 0
    case Reread => 5
    case Checked => 4
    case Copied => 3
    case Updated => 2
    case RollingBack => 2
    case Finished => 1
  }

  ghost function Work(s: State): nat {
    Total(map m | m in s.jobs :: Rank(s.jobs[m]))
  }

  lemma RankDrops(h: Hash, s: State, step: Step)
    requires LockInv(h, s) && Enabled(h, s, step) && !step.Start?
    ensures var t := Apply(h, s, step);
            (step.m in t.jobs && t.jobs == s.jobs[step.m := t.jobs[step.m]] &&
             Rank(t.jobs[step.m]) < Rank(s.jobs[step.m]))
            || t.jobs == s.jobs - {step.m}
    ensures Rank(s.jobs[step.m]) > 0
  {
    assert Taken(s.jobs[step.m]) <= 2;
  }

  lemma StepSpendsWork(h: Hash, s: State, step: Step)
    requires LockInv(h, s) && Enabled(h, s, step) && !step.Start?
    ensures Work(Apply(h, s, step)) < Work(s)
  {
    var t, m := Apply(h, s, step), step.m;
    RankDrops(h, s, step);
    var before := map x | x in s.jobs :: Rank(s.jobs[x]);
    var after := map x | x in t.jobs :: Rank(t.jobs[x]);
    if m in t.jobs {
      assert after == before[m := Rank(t.jobs[m])];
      TotalUpdate(before, m, Rank(t.jobs[m]));
    } else {
      TotalRemove(before, m);
      assert after == before - {m};
    }
  }

  /** Without new calls a run has at most `Work` steps; with `NoDeadlock`, all calls finish. */
  lemma {:induction false} RunsAreFinite(h: Hash, states: seq<State>, steps: seq<Step>)
    requires IsRun(h, states, steps) && LockInv(h, states[0])
    requires forall i :: 0 <= i < |steps| ==> !steps[i].Start?
    ensures |steps| + Work(states[|steps|]) <= Work(states[0])
    decreases |steps|
  {
    if steps != [] {
      var n := |steps| - 1;
      RunsAreFinite(h, states[..n + 1], steps[..n]);
      RunKeepsLockInv(h, states, steps, n);
      StepSpendsWork(h, states[n], steps[n]);
    }
  }

  // ---- When colliding lock ids deadlock -------------------------------------------------------

  /** Any number of calls that have not locked anything yet, and nothing else going on. */
  ghost predicate Fresh(s: State) {
    && s.owner == map[]
    && forall m :: m in s.jobs ==> s.jobs[m].pc == Locking(0) && s.jobs[m].oldKey != s.jobs[m].newKey
  }

  /** The lock ids a call takes first and second. */
  function FirstId(h: Hash, j: Job): int {
    h(KeyAt(j, 0))
  }

  function SecondId(h: Hash, j: Job): int {
    h(KeyAt(j, 1))
  }

  /** Calls that form a cycle through at least two lock ids: each one's second id is the next one's first. */
  ghost predicate Cycle(h: Hash, s: State, c: seq<Mover>) {
    && |c| >= 2 && (forall i :: 0 <= i < |c| ==> c[i] in s.jobs)
    && (forall i, j :: 0 <= i < j < |c| ==> FirstId(h, s.jobs[c[i]]) != FirstId(h, s.jobs[c[j]]))
    && (forall i :: 0 <= i < |c| ==> SecondId(h, s.jobs[c[i]]) == FirstId(h, s.jobs[c[After(i, |c|)]]))
  }

  function After(i: nat, n: nat): (j: nat)
    requires i < n
    ensures j < n
  {
    if i + 1 < n then i + 1 else 0
  }

  /** The lock a call is waiting for. */
  function Wanted(h: Hash, j: Job): int
    requires Wants(j)
  {
    h(KeyAt(j, j.pc.n))
  }

  /** Every call in `d` waits for a lock that another call in `d` holds. */
  ghost predicate Deadlocked(h: Hash, s: State, d: set<Mover>) {
    && (exists m :: m in d)
    && forall m :: m in d ==> Waiting(h, s, m) && Wanted(h, s.jobs[m]) in s.owner && s.owner[Wanted(h, s.jobs[m])] in d
  }

  /** A run of the calls in `s`, with no new ones, at whose end those in `d` are deadlocked. */
  ghost predicate ReachesDeadlock(h: Hash, s: State, states: seq<State>, steps: seq<Step>, d: set<Mover>) {
    && IsRun(h, states, steps) && states[0] == s && (forall i :: 0 <= i < |steps| ==> !steps[i].Start?)
    && Deadlocked(h, states[|steps|], d)
  }

  // A cycle deadlocks: every call on it takes its first lock.

  /** The calls `c[..n]` have taken their first locks, and nothing else has happened. */
  ghost predicate FirstLocks(h: Hash, s: State, t: State, c: seq<Mover>, n: nat)
    requires n <= |c| && forall i :: 0 <= i < |c| ==> c[i] in s.jobs
  {
    && t.jobs.Keys == s.jobs.Keys
    && (forall m :: m in s.jobs ==> t.jobs[m] == s.jobs[m].(pc := if m in c[..n] then Locking(1) else s.jobs[m].pc))
    && OwnedByFirst(h, s, t.owner, c, n)
  }

  /** The locks held are the first ones of `c[..n]`, each by its call. */
  ghost predicate OwnedByFirst(h: Hash, s: State, owner: map<int, Mover>, c: seq<Mover>, n: nat)
    requires n <= |c| && forall i :: 0 <= i < |c| ==> c[i] in s.jobs
  {
    && (forall l :: l in owner <==> exists i :: 0 <= i < n && FirstId(h, s.jobs[c[i]]) == l)
    && (forall i :: 0 <= i < n ==>
          FirstId(h, s.jobs[c[i]]) in owner && owner[FirstId(h, s.jobs[c[i]])] == c[i])
  }

  lemma {:induction false} TakeFirstLocks(h: Hash, s: State, c: seq<Mover>, n: nat)
    returns (states: seq<State>, steps: seq<Step>)
    requires Fresh(s) && Cycle(h, s, c) && n <= |c|
    ensures IsRun(h, states, steps) && states[0] == s && (forall i :: 0 <= i < |steps| ==> !steps[i].Start?)
    ensures FirstLocks(h, s, states[|steps|], c, n)
  {
    if n == 0 {
      states, steps := [s], [];
    } else {
      states, steps := TakeFirstLocks(h, s, c, n - 1);
      var t := states[|steps|];
      FirstLockIsFree(h, s, t, c, n - 1);
      states, steps := ExtendOld(h, states, steps, Acquire(c[n - 1]));
    }
  }

  lemma ExtendOld(h: Hash, states: seq<State>, steps: seq<Step>, step: Step)
    returns (states': seq<State>, steps': seq<Step>)
    requires IsRun(h, states, steps) && Enabled(h, states[|steps|], step) && !step.Start?
    requires forall i :: 0 <= i < |steps| ==> !steps[i].Start?
    ensures IsRun(h, states', steps') && states'[0] == states[0] && forall i :: 0 <= i < |steps'| ==> !steps'[i].Start?
    ensures states'[|steps'|] == Apply(h, states[|steps|], step)
  {
    states', steps' := states + [Apply(h, states[|steps|], step)], steps + [step];
  }

  lemma FirstLockIsFree(h: Hash, s: State, t: State, c: seq<Mover>, n: nat)
    requires Fresh(s) && Cycle(h, s, c) && n < |c| && FirstLocks(h, s, t, c, n)
    ensures Enabled(h, t, Acquire(c[n])) && FirstLocks(h, s, Apply(h, t, Acquire(c[n])), c, n + 1)
  {
    var m := c[n];
    assert c[..n + 1] == c[..n] + [m];
    assert forall i :: 0 <= i < n ==> c[i] != m;
    assert KeyAt(t.jobs[m], 0) == KeyAt(s.jobs[m], 0);
    OneMoreOwner(h, s, t.owner, c, n);
    var u := Apply(h, t, Acquire(m));
    assert u.owner == t.owner[FirstId(h, s.jobs[m]) := m];
    assert u.jobs == t.jobs[m := s.jobs[m].(pc := Locking(1))];
  }

  lemma OneMoreOwner(h: Hash, s: State, owner: map<int, Mover>, c: seq<Mover>, n: nat)
    requires n < |c| && forall i :: 0 <= i < |c| ==> c[i] in s.jobs
    requires forall i, j :: 0 <= i < j < |c| ==> FirstId(h, s.jobs[c[i]]) != FirstId(h, s.jobs[c[j]])
    requires OwnedByFirst(h, s, owner, c, n)
    ensures FirstId(h, s.jobs[c[n]]) !in owner
    ensures OwnedByFirst(h, s, owner[FirstId(h, s.jobs[c[n]]) := c[n]], c, n + 1)
  {
    var after := owner[FirstId(h, s.jobs[c[n]]) := c[n]];
    forall l ensures l in after <==> exists i :: 0 <= i < n + 1 && FirstId(h, s.jobs[c[i]]) == l {
      if l == FirstId(h, s.jobs[c[n]]) { assert 0 <= n < n + 1 && FirstId(h, s.jobs[c[n]]) == l; }
    }
  }

  /** `m` has its first lock and waits for its second, which `o` holds. */
  ghost predicate WaitsOn(h: Hash, t: State, m: Mover, o: Mover) {
    && m in t.jobs && t.jobs[m].pc == Locking(1) && o != m
    && SecondId(h, t.jobs[m]) in t.owner && t.owner[SecondId(h, t.jobs[m])] == o
  }

  lemma OnCycleWaits(h: Hash, s: State, t: State, c: seq<Mover>, i: nat)
    requires Cycle(h, s, c) && FirstLocks(h, s, t, c, |c|) && i < |c|
    ensures WaitsOn(h, t, c[i], c[After(i, |c|)])
  {
    var m, k := c[i], After(i, |c|);
    assert m in c[..|c|];
    assert KeyAt(t.jobs[m], 1) == KeyAt(s.jobs[m], 1);
    assert SecondId(h, s.jobs[m]) == FirstId(h, s.jobs[c[k]]);
    assert FirstId(h, s.jobs[c[k]]) != FirstId(h, s.jobs[m]);
  }

  lemma RingDeadlocks(h: Hash, t: State, c: seq<Mover>)
    requires |c| > 0 && forall i :: 0 <= i < |c| ==> WaitsOn(h, t, c[i], c[After(i, |c|)])
    ensures Deadlocked(h, t, set m | m in c)
  {
    var d := set m | m in c;
    var first := c[0];
    assert first in c && first in d;
    forall m | m in d
      ensures Waiting(h, t, m) && Wanted(h, t.jobs[m]) in t.owner && t.owner[Wanted(h, t.jobs[m])] in d
    {
      var i :| 0 <= i < |c| && c[i] == m;
      var o := c[After(i, |c|)];
      assert WaitsOn(h, t, m, o) && o in c;
      assert Wants(t.jobs[m]) && Wanted(h, t.jobs[m]) == SecondId(h, t.jobs[m]);
    }
  }

  lemma FirstLocksDeadlock(h: Hash, s: State, t: State, c: seq<Mover>)
    requires Cycle(h, s, c) && FirstLocks(h, s, t, c, |c|)
    ensures Deadlocked(h, t, set m | m in c)
  {
    forall i | 0 <= i < |c| ensures WaitsOn(h, t, c[i], c[After(i, |c|)]) {
      OnCycleWaits(h, s, t, c, i);
    }
    RingDeadlocks(h, t, c);
  }

  // A deadlock has a cycle: the wait chain goes round it.

  /** Who holds what `m` waits for. */
  function Blocker(h: Hash, s: State, m: Mover): Mover
    requires Waiting(h, s, m) && Wanted(h, s.jobs[m]) in s.owner
  {
    s.owner[Wanted(h, s.jobs[m])]
  }

  /** A blocker that is itself waiting holds its first lock and waits for its second. */
  lemma BlockerHoldsFirst(h: Hash, s: State, d: set<Mover>, m: Mover)
    requires LockInv(h, s) && Deadlocked(h, s, d) && m in d
    ensures var o := Blocker(h, s, m);
            o in d && o != m && s.jobs[o].pc == Locking(1)
            && Wanted(h, s.jobs[m]) == FirstId(h, s.jobs[o]) && Wanted(h, s.jobs[o]) == SecondId(h, s.jobs[o])
  {
    var l := Wanted(h, s.jobs[m]);
    var o := s.owner[l];
    assert Justified(h, s, l) && Waiting(h, s, o);
    var i: nat :| i < Taken(s.jobs[o]) && h(KeyAt(s.jobs[o], i)) == l;
  }

  /** A stretch of the wait chain without repetition. */
  ghost predicate Chain(h: Hash, s: State, d: set<Mover>, p: seq<Mover>) {
    && |p| > 0 && (forall i :: 0 <= i < |p| ==> p[i] in d && p[i] in s.jobs && s.jobs[p[i]].pc == Locking(1))
    && (forall i :: 0 <= i < |p| ==> FirstId(h, s.jobs[p[i]]) in s.owner && s.owner[FirstId(h, s.jobs[p[i]])] == p[i])
    && (forall i :: 0 <= i < |p| - 1 ==> SecondId(h, s.jobs[p[i]]) == FirstId(h, s.jobs[p[i + 1]]))
    && (forall i, j :: 0 <= i < j < |p| ==> p[i] != p[j])
  }

  lemma ChainFits(h: Hash, s: State, d: set<Mover>, p: seq<Mover>)
    requires Chain(h, s, d, p)
    ensures |p| <= |d|
  {
    DistinctFit(d, p);
  }

  lemma {:induction false} DistinctFit(d: set<Mover>, p: seq<Mover>)
    requires (forall i :: 0 <= i < |p| ==> p[i] in d) && (forall i, j :: 0 <= i < j < |p| ==> p[i] != p[j])
    ensures |p| <= |d|
    decreases |p|
  {
    if p != [] {
      var n := |p| - 1;
      DistinctFit(d - {p[n]}, p[..n]);
    }
  }

  lemma {:induction false} ChainCloses(h: Hash, s: State, d: set<Mover>, p: seq<Mover>) returns (c: seq<Mover>)
    requires LockInv(h, s) && Deadlocked(h, s, d) && Chain(h, s, d, p)
    ensures Cycle(h, s, c)
    decreases |d| - |p|
  {
    var last := p[|p| - 1];
    BlockerHoldsFirst(h, s, d, last);
    var next := Blocker(h, s, last);
    if i :| 0 <= i < |p| && p[i] == next {
      c := p[i..];
      ClosedChain(h, s, d, p, i);
    } else {
      ChainGrows(h, s, d, p, next);
      ChainFits(h, s, d, p + [next]);
      c := ChainCloses(h, s, d, p + [next]);
    }
  }

  lemma ChainGrows(h: Hash, s: State, d: set<Mover>, p: seq<Mover>, next: Mover)
    requires Chain(h, s, d, p) && next in d && next in s.jobs && s.jobs[next].pc == Locking(1)
    requires FirstId(h, s.jobs[next]) in s.owner && s.owner[FirstId(h, s.jobs[next])] == next
    requires SecondId(h, s.jobs[p[|p| - 1]]) == FirstId(h, s.jobs[next]) && forall i :: 0 <= i < |p| ==> p[i] != next
    ensures Chain(h, s, d, p + [next])
  {
  }

  lemma ClosedChain(h: Hash, s: State, d: set<Mover>, p: seq<Mover>, i: nat)
    requires Chain(h, s, d, p) && i < |p| - 1 && SecondId(h, s.jobs[p[|p| - 1]]) == FirstId(h, s.jobs[p[i]])
    ensures Cycle(h, s, p[i..])
  {
    var c := p[i..];
    forall k | 0 <= k < |c| ensures SecondId(h, s.jobs[c[k]]) == FirstId(h, s.jobs[c[After(k, |c|)]]) {
      assert c[k] == p[i + k];
      if k + 1 < |c| { assert c[k + 1] == p[i + k + 1]; }
    }
  }

  lemma DeadlockHasCycle(h: Hash, s: State, d: set<Mover>) returns (c: seq<Mover>)
    requires LockInv(h, s) && Deadlocked(h, s, d)
    ensures Cycle(h, s, c)
  {
    var m :| m in d;
    BlockerHoldsFirst(h, s, d, m);
    var o := Blocker(h, s, m);
    ChainStarts(h, s, d, o);
    c := ChainCloses(h, s, d, [o]);
  }

  lemma ChainStarts(h: Hash, s: State, d: set<Mover>, o: Mover)
    requires o in d && o in s.jobs && s.jobs[o].pc == Locking(1) && FirstId(h, s.jobs[o]) in s.owner
    requires s.owner[FirstId(h, s.jobs[o])] == o
    ensures Chain(h, s, d, [o])
  {
  }

  lemma {:induction false} OnlyOldCalls(h: Hash, states: seq<State>, steps: seq<Step>, i: nat)
    requires IsRun(h, states, steps) && (forall c :: 0 <= c < |steps| ==> !steps[c].Start?) && i < |states|
    ensures forall m :: m in states[i].jobs ==>
              m in states[0].jobs && SameCall(states[i].jobs[m], states[0].jobs[m])
  {
    if i > 0 {
      OnlyOldCalls(h, states, steps, i - 1);
      NoNewCall(h, states[i - 1], steps[i - 1]);
    }
  }

  lemma NoNewCall(h: Hash, s: State, step: Step)
    requires Enabled(h, s, step) && !step.Start?
    ensures forall m :: m in Apply(h, s, step).jobs ==> m in s.jobs && SameCall(Apply(h, s, step).jobs[m], s.jobs[m])
  {
  }

  predicate SameCall(a: Job, b: Job) {
    a.oldKey == b.oldKey && a.newKey == b.newKey
  }

  /**
   * Any number of fresh calls, under any hash: some run of theirs ends with calls that wait for each other for ever
   * iff the calls have a cycle of lock ids.
   */
  lemma DeadlockIff(h: Hash, s: State)
    requires Fresh(s)
    ensures (exists c :: Cycle(h, s, c)) <==> (exists states, steps, d :: ReachesDeadlock(h, s, states, steps, d))
  {
    if c :| Cycle(h, s, c) {
      var states, steps := TakeFirstLocks(h, s, c, |c|);
      FirstLocksDeadlock(h, s, states[|steps|], c);
      assert ReachesDeadlock(h, s, states, steps, set m | m in c);
    }
    if states, steps, d :| ReachesDeadlock(h, s, states, steps, d) {
      RunKeepsLockInv(h, states, steps, |steps|);
      OnlyOldCalls(h, states, steps, |steps|);
      var t := states[|steps|];
      var c := DeadlockHasCycle(h, t, d);
      CycleOfOldCalls(h, s, t, c);
    }
  }

  lemma CycleOfOldCalls(h: Hash, s: State, t: State, c: seq<Mover>)
    requires Cycle(h, t, c)
    requires forall m :: m in t.jobs ==> m in s.jobs && SameCall(t.jobs[m], s.jobs[m])
    ensures Cycle(h, s, c)
  {
    forall i | 0 <= i < |c|
      ensures c[i] in s.jobs && FirstId(h, t.jobs[c[i]]) == FirstId(h, s.jobs[c[i]])
      ensures SecondId(h, t.jobs[c[i]]) == SecondId(h, s.jobs[c[i]])
    {
      var m := c[i];
      assert m in t.jobs;
      assert m in s.jobs && SameCall(t.jobs[m], s.jobs[m]);
    }
  }

  /** A deadlock is for ever: as long as no lock call fails and no replica crashes, its calls stay where they are. */
  lemma DeadlockStays(h: Hash, s: State, d: set<Mover>, step: Step)
    requires Deadlocked(h, s, d) && Enabled(h, s, step) && !step.AcquireFails? && !step.Crash?
    ensures Deadlocked(h, Apply(h, s, step), d)
  {
    var t := Apply(h, s, step);
    forall m | m in d ensures BlockedIn(h, t, m, d) {
      assert BlockedIn(h, s, m, d);
      var o := s.owner[Wanted(h, s.jobs[m])];
      assert BlockedIn(h, s, o, d);
      BlockedStays(h, s, step, m, o);
    }
    AllBlocked(h, t, d);
  }

  ghost predicate BlockedIn(h: Hash, s: State, m: Mover, d: set<Mover>) {
    Waiting(h, s, m) && Wanted(h, s.jobs[m]) in s.owner && s.owner[Wanted(h, s.jobs[m])] in d
  }

  lemma AllBlocked(h: Hash, s: State, d: set<Mover>)
    requires (exists m :: m in d) && forall m :: m in d ==> BlockedIn(h, s, m, d)
    ensures Deadlocked(h, s, d)
  {
  }

  lemma BlockedStays(h: Hash, s: State, step: Step, m: Mover, o: Mover)
    requires Enabled(h, s, step) && !step.AcquireFails? && !step.Crash?
    requires Waiting(h, s, m) && Waiting(h, s, o) && Wanted(h, s.jobs[m]) in s.owner
    requires s.owner[Wanted(h, s.jobs[m])] == o
    ensures var t := Apply(h, s, step);
            Waiting(h, t, m) && Wanted(h, t.jobs[m]) in t.owner && t.owner[Wanted(h, t.jobs[m])] == o
  {
    assert step.m != m && step.m != o;
    assert Apply(h, s, step).jobs[m] == s.jobs[m];
  }

  /** For two calls a cycle is a crossing: their sorted keys meet crosswise on the same two lock ids. */
  predicate Crossing(h: Hash, a: Job, b: Job) {
    h(KeyAt(a, 0)) == h(KeyAt(b, 1)) != h(KeyAt(a, 1)) == h(KeyAt(b, 0))
  }

  lemma TwoCallsDeadlockIff(h: Hash, s: State, m: Mover, n: Mover)
    requires Fresh(s) && m != n && s.jobs.Keys == {m, n}
    ensures Crossing(h, s.jobs[m], s.jobs[n]) <==> exists states, steps, d :: ReachesDeadlock(h, s, states, steps, d)
  {
    DeadlockIff(h, s);
    if Crossing(h, s.jobs[m], s.jobs[n]) {
      assert Cycle(h, s, [m, n]);
    }
    if c :| Cycle(h, s, c) {
      CycleOfTwo(h, s, m, n, c);
    }
  }

  lemma CycleOfTwo(h: Hash, s: State, m: Mover, n: Mover, c: seq<Mover>)
    requires m != n && s.jobs.Keys == {m, n} && Cycle(h, s, c)
    ensures Crossing(h, s.jobs[m], s.jobs[n])
  {
    forall i | 0 <= i < |c| ensures c[i] in {m, n} { assert c[i] in s.jobs.Keys; }
    DistinctFit({m, n}, c);
    assert |c| == 2 && After(0, 2) == 1 && After(1, 2) == 0;
    assert SecondId(h, s.jobs[c[0]]) == FirstId(h, s.jobs[c[After(0, 2)]]);
    assert SecondId(h, s.jobs[c[1]]) == FirstId(h, s.jobs[c[After(1, 2)]]);
  }

  // ---- An unlocked re-read key loses a file ---------------------------------------------------

  lemma Extend(h: Hash, states: seq<State>, steps: seq<Step>, step: Step)
    returns (states': seq<State>, steps': seq<Step>)
    requires IsRun(h, states, steps) && Enabled(h, states[|steps|], step)
    ensures IsRun(h, states', steps') && states'[0] == states[0] && steps' == steps + [step]
    ensures states'[|steps'|] == Apply(h, states[|steps|], step)
  {
    states', steps' := states + [Apply(h, states[|steps|], step)], steps + [step];
  }

  /** A call can arrive and take both its locks when neither is held. */
  lemma RunToLocked(h: Hash, states: seq<State>, steps: seq<Step>, m: Mover, id: int, newKey: string)
      returns (states': seq<State>, steps': seq<Step>)
    requires IsRun(h, states, steps)
    requires var s := states[|steps|];
             && m !in s.jobs && id in s.rows && newKey != "" && newKey != s.rows[id]
             && h(s.rows[id]) !in s.owner && h(newKey) !in s.owner
    ensures IsRun(h, states', steps') && states'[0] == states[0]
    ensures var s, t := states[|steps|], states'[|steps'|];
            && t.jobs == s.jobs[m := Job(Locking(2), id, s.rows[id], newKey, "")]
            && t.rows == s.rows && t.bucket == s.bucket
            && t.owner == s.owner[h(s.rows[id]) := m][h(newKey) := m]
  {
    states', steps' := Extend(h, states, steps, Start(m, id, newKey));
    states', steps' := Extend(h, states', steps', Acquire(m));
    states', steps' := Extend(h, states', steps', Acquire(m));
  }

  /** From both locks, a call can run to the point where only the old object is left to delete. */
  lemma RunToUpdated(h: Hash, states: seq<State>, steps: seq<Step>, m: Mover)
      returns (states': seq<State>, steps': seq<Step>)
    requires IsRun(h, states, steps)
    requires var s := states[|steps|];
             && m in s.jobs && s.jobs[m].pc == Locking(2) && s.jobs[m].id in s.rows
             && s.rows[s.jobs[m].id] in s.bucket && Free(s, s.jobs[m].newKey)
    ensures IsRun(h, states', steps') && states'[0] == states[0]
    ensures var s, t := states[|steps|], states'[|steps'|]; var j := s.jobs[m];
            && t.jobs == s.jobs[m := j.(pc := Updated, cur := s.rows[j.id])]
            && t.rows == s.rows[j.id := j.newKey] && t.owner == s.owner
            && t.bucket == s.bucket[j.newKey := s.bucket[s.rows[j.id]]]
  {
    states', steps' := Extend(h, states, steps, Step.Reread(m));
    states', steps' := Extend(h, states', steps', CheckDestination(m));
    states', steps' := Extend(h, states', steps', Copy(m, true, true));
    states', steps' := Extend(h, states', steps', Update(m, true));
  }

  /** From both locks, a call whose destination is taken ends with nothing changed but its own progress. */
  lemma RunToRefused(h: Hash, states: seq<State>, steps: seq<Step>, m: Mover)
      returns (states': seq<State>, steps': seq<Step>)
    requires IsRun(h, states, steps)
    requires var s := states[|steps|];
             && m in s.jobs && s.jobs[m].pc == Locking(2) && s.jobs[m].id in s.rows && !Free(s, s.jobs[m].newKey)
    ensures IsRun(h, states', steps') && states'[0] == states[0]
    ensures var s, t := states[|steps|], states'[|steps'|];
            && t.rows == s.rows && t.bucket == s.bucket && t.owner == s.owner
            && t.jobs == s.jobs[m := s.jobs[m].(pc := Finished, cur := s.rows[s.jobs[m].id])]
  {
    states', steps' := Extend(h, states, steps, Step.Reread(m));
    states', steps' := Extend(h, states', steps', CheckDestination(m));
  }

  /**
   * Whatever else is going on, a call whose two locks are free can run to its end at once: the row and its
   * content are then at the new key and the old key is gone, or the destination was taken and nothing has
   * changed; either way the call and its locks are gone.
   */
  lemma MoveCanFinish(h: Hash, states: seq<State>, steps: seq<Step>, m: Mover, id: int, newKey: string)
      returns (states': seq<State>, steps': seq<Step>)
    requires IsRun(h, states, steps)
    requires var s := states[|steps|];
             && m !in s.jobs && id in s.rows && newKey != "" && newKey != s.rows[id] && s.rows[id] in s.bucket
             && h(s.rows[id]) !in s.owner && h(newKey) !in s.owner && forall l :: l in s.owner ==> s.owner[l] != m
    ensures IsRun(h, states', steps') && states'[0] == states[0]
    ensures var s, t := states[|steps|], states'[|steps'|];
            && t.owner == s.owner && t.jobs == s.jobs
            && t.rows == (if Free(s, newKey) then s.rows[id := newKey] else s.rows)
            && t.bucket == if Free(s, newKey) then s.bucket[newKey := s.bucket[s.rows[id]]] - {s.rows[id]}
                           else s.bucket
  {
    var s := states[|steps|];
    states', steps' := RunToLocked(h, states, steps, m, id, newKey);
    if Free(s, newKey) {
      assert Free(states'[|steps'|], newKey);
      states', steps' := RunToUpdated(h, states', steps', m);
      states', steps' := Extend(h, states', steps', DeleteOld(m, true));
    } else {
      states', steps' := RunToRefused(h, states', steps', m);
    }
    assert states'[|steps'|].jobs == s.jobs[m := states'[|steps'|].jobs[m]];
    var t := states'[|steps'|];
    ReleaseRestores(s, t, m, h(s.rows[id]), h(newKey), t.jobs[m]);
    states', steps' := Extend(h, states', steps', Release(m));
  }

  /** A call whose update aborts can take its copy back and leave everything but an object at the new key as it was. */
  lemma MoveCanAbort(h: Hash, states: seq<State>, steps: seq<Step>, m: Mover, id: int, newKey: string)
      returns (states': seq<State>, steps': seq<Step>)
    requires IsRun(h, states, steps)
    requires var s := states[|steps|];
             && m !in s.jobs && id in s.rows && newKey != "" && newKey != s.rows[id] && s.rows[id] in s.bucket
             && h(s.rows[id]) !in s.owner && h(newKey) !in s.owner && forall l :: l in s.owner ==> s.owner[l] != m
    requires Free(states[|steps|], newKey)
    ensures IsRun(h, states', steps') && states'[0] == states[0]
    ensures |steps'| > 2 && steps'[|steps'| - 3] == Update(m, false)
    ensures var s, t := states[|steps|], states'[|steps'|];
            t.owner == s.owner && t.jobs == s.jobs && t.rows == s.rows && t.bucket == s.bucket - {newKey}
  {
    var s := states[|steps|];
    states', steps' := RunToLocked(h, states, steps, m, id, newKey);
    assert Free(states'[|steps'|], newKey);
    states', steps' := RunToAborted(h, states', steps', m);
    var t := states'[|steps'|];
    assert t.jobs == s.jobs[m := t.jobs[m]] && t.bucket == s.bucket - {newKey};
    ReleaseRestores(s, t, m, h(s.rows[id]), h(newKey), t.jobs[m]);
    states', steps' := Extend(h, states', steps', Release(m));
  }

  lemma RunToAborted(h: Hash, states: seq<State>, steps: seq<Step>, m: Mover)
      returns (states': seq<State>, steps': seq<Step>)
    requires IsRun(h, states, steps)
    requires var s := states[|steps|];
             && m in s.jobs && s.jobs[m].pc == Locking(2) && s.jobs[m].id in s.rows
             && s.rows[s.jobs[m].id] in s.bucket && Free(s, s.jobs[m].newKey)
    ensures IsRun(h, states', steps') && states'[0] == states[0]
    ensures |steps'| > 1 && steps'[|steps'| - 2] == Update(m, false)
    ensures var s, t := states[|steps|], states'[|steps'|]; var j := s.jobs[m];
            && t.jobs == s.jobs[m := j.(pc := Finished, cur := s.rows[j.id])]
            && t.rows == s.rows && t.owner == s.owner
            && t.bucket == s.bucket[j.newKey := s.bucket[s.rows[j.id]]] - {j.newKey}
  {
    states', steps' := Extend(h, states, steps, Step.Reread(m));
    states', steps' := Extend(h, states', steps', CheckDestination(m));
    states', steps' := Extend(h, states', steps', Copy(m, true, true));
    states', steps' := Extend(h, states', steps', Update(m, false));
    states', steps' := Extend(h, states', steps', Rollback(m, true));
  }

  lemma ReleaseRestores(s: State, t: State, m: Mover, a: int, b: int, j: Job)
    requires m !in s.jobs && a !in s.owner && b !in s.owner && forall l :: l in s.owner ==> s.owner[l] != m
    requires t.owner == s.owner[a := m][b := m] && t.jobs == s.jobs[m := j]
    ensures Unlocked(t, m).owner == s.owner && Unlocked(t, m).jobs == s.jobs
  {
    var owner := Unlocked(t, m).owner;
    forall l ensures l in owner <==> l in s.owner {
      if l in s.owner { assert t.owner[l] == s.owner[l] != m; }
    }
    assert owner == s.owner;
    assert Unlocked(t, m).jobs.Keys == s.jobs.Keys;
    assert Unlocked(t, m).jobs == s.jobs;
  }

  /**
   * The hypothesis of `MoveSafety` is needed: once a mover holds its locks and its row's key is not
   * one of them, a third call can take that key between the row update and the delete, and lose its file.
   */
  lemma UnlockedRereadLosesFile(h: Hash, states: seq<State>, steps: seq<Step>, m: Mover, m2: Mover, id2: int,
      orig: map<int, Content>)
      returns (states': seq<State>, steps': seq<Step>)
    requires IsRun(h, states, steps)
    requires var s := states[|steps|];
             && Safe(s, orig)
             && (forall i, j :: i in s.rows && j in s.rows && s.rows[i] == s.rows[j] ==> i == j)
             && m in s.jobs && s.jobs[m].pc == Locking(2) && s.jobs[m].id in s.rows && Free(s, s.jobs[m].newKey)
             && Holds(h, s, m, s.jobs[m].newKey)
             && s.rows[s.jobs[m].id] != "" && h(s.rows[s.jobs[m].id]) !in s.owner
             && m2 !in s.jobs && id2 in s.rows && id2 != s.jobs[m].id && h(s.rows[id2]) !in s.owner
    ensures IsRun(h, states', steps') && states'[0] == states[0]
    ensures !Safe(states'[|steps'|], orig)
  {
    var s := states[|steps|];
    var j := s.jobs[m];
    var cur := s.rows[j.id];
    states', steps' := RunToUpdated(h, states, steps, m);
    var s1 := states'[|steps'|];
    states', steps' := RunToLocked(h, states', steps', m2, id2, cur);
    var s2 := states'[|steps'|];
    assert s2.rows[id2] == s.rows[id2] != j.newKey;
    assert s2.rows[id2] in s2.bucket;
    assert Free(s2, cur);
    states', steps' := RunToUpdated(h, states', steps', m2);
    var s3 := states'[|steps'|];
    assert s3.jobs[m].cur == cur && s3.rows[id2] == cur;
    states', steps' := Extend(h, states', steps', DeleteOld(m, true));
  }

  function LengthHash(k: string): int {
    |k|
  }

  const CLEAN := State(map["a" := 10, "ccc" := 20], map[1 := "a", 2 := "ccc"], map[], map[])

  /** While call 1 ("a" to "bb") waits, call 2 moves its row from "a" to "dddd". */
  lemma SecondCallOvertakes() returns (states: seq<State>, steps: seq<Step>)
    ensures IsRun(LengthHash, states, steps) && states[0] == CLEAN
    ensures var t := states[|steps|];
            && t.rows == map[1 := "dddd", 2 := "ccc"]
            && t.bucket == map["a" := 10, "ccc" := 20, "dddd" := 10]
            && t.jobs == map[1 := Job(Locking(0), 1, "a", "bb", ""), 2 := Job(Updated, 1, "a", "dddd", "a")]
            && t.owner == map[1 := 2, 4 := 2]
  {
    states, steps := [CLEAN], [];
    states, steps := Extend(LengthHash, states, steps, Start(1, 1, "bb"));
    states, steps := RunToLocked(LengthHash, states, steps, 2, 1, "dddd");
    states, steps := RunToUpdated(LengthHash, states, steps, 2);
  }

  /** Call 1 then locks the two keys it read before, and its row is at neither. */
  lemma OvertakenCall() returns (states: seq<State>, steps: seq<Step>)
    ensures IsRun(LengthHash, states, steps) && states[0] == CLEAN
    ensures states[|steps|] == State(map["ccc" := 20, "dddd" := 10], map[1 := "dddd", 2 := "ccc"], map[],
                                     map[1 := Job(Locking(0), 1, "a", "bb", "")])
  {
    states, steps := SecondCallOvertakes();
    states, steps := Extend(LengthHash, states, steps, DeleteOld(2, true));
    assert states[|steps|].bucket == map["ccc" := 20, "dddd" := 10];
    states, steps := Extend(LengthHash, states, steps, Release(2));
    var t := states[|steps|];
    assert t.jobs == map[1 := Job(Locking(0), 1, "a", "bb", "")];
    assert t.owner == map[];
  }

  /** The loss is reachable from a clean start. */
  lemma UnsafeRunExists() returns (states: seq<State>, steps: seq<Step>, orig: map<int, Content>)
    ensures IsRun(LengthHash, states, steps) && Initial(states[0], orig) && !Safe(states[|steps|], orig)
  {
    orig := map[1 := 10, 2 := 20];
    states, steps := OvertakenCall();
    states, steps := Extend(LengthHash, states, steps, Acquire(1));
    states, steps := Extend(LengthHash, states, steps, Acquire(1));
    var t := states[|steps|];
    assert t.jobs[1] == Job(Locking(2), 1, "a", "bb", "");
    assert t.owner == map[1 := 1, 2 := 1];
    states, steps := UnlockedRereadLosesFile(LengthHash, states, steps, 1, 3, 2, orig);
  }
}
