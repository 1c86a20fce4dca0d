/**
 * The worker loop over the index queue, as a program: it claims a batch, processes each job, and
 * records the outcome with a bounded number of tries, while other workers and the crawler go on.
 * Its trace is a run of the queue's state machine, so what holds of every run holds of it.
 */
module Runner {
  import opened Common
  import opened IndexQueue
  import QueueDrain

  // ---- Backoff --------------------------------------------------------------------------------

  const TWO63 := 0x8000_0000_0000_0000
  const TWO62 := 0x4000_0000_0000_0000

  /** Two's complement wrap-around of a 64-bit duration. */
  function Wrap64(x: int): int {
    (x + TWO63) % (2 * TWO63) - TWO63
  }

  function Pow2(n: nat): (p: nat)
    ensures p >= 1
  {
    if n == 0 then 1 else 2 * Pow2(n - 1)
  }

  /** The base delay doubled once for every attempt after the first, and capped. */
  function Delay(base: nat, cap: nat, attempts: int): nat {
    Min(base * Pow2(Max(attempts, 1) - 1), cap)
  }

  lemma {:induction false} Pow2Grows(m: nat, n: nat)
    requires m <= n
    ensures Pow2(m) <= Pow2(n)
  {
    if m < n {
      Pow2Grows(m, n - 1);
    }
  }

  /** Later attempts never wait less. */
  lemma DelayIsMonotone(base: nat, cap: nat, a: int, b: int)
    requires a <= b
    ensures Delay(base, cap, a) <= Delay(base, cap, b) <= cap
  {
    var p, q := Pow2(Max(a, 1) - 1), Pow2(Max(b, 1) - 1);
    Pow2Grows(Max(a, 1) - 1, Max(b, 1) - 1);
    Scaled(base, p, q);
  }

  /** The first delay is the base; each further attempt doubles it; the cap is never passed. */
  lemma DelayDoubles(base: nat, cap: nat, attempts: int)
    ensures attempts <= 1 ==> Delay(base, cap, attempts) == if base <= cap then base else cap
    ensures attempts >= 1 ==>
              var d := 2 * Delay(base, cap, attempts);
              Delay(base, cap, attempts + 1) == if d <= cap then d else cap
  {
    if attempts >= 1 {
      Doubled(base, attempts);
    } else {
      assert Pow2(0) == 1 && base * 1 == base;
    }
  }

  /** The doubling loop, in 64-bit arithmetic, computes the delay: no product wraps around. */
  method Backoff(base: nat, cap: nat, attempts: int) returns (d: int)
    requires base < TWO62 && cap < TWO62
    ensures d == Delay(base, cap, attempts)
  {
    d := base;
    var i := 1;
    while i < attempts
      invariant 1 <= i <= Max(attempts, 1)
      invariant 0 <= d < TWO62 && d == base * Pow2(i - 1)
    {
      d := Wrap64(d * 2);
      assert d == base * Pow2(i) by { Doubled(base, i); }
      if d >= cap {
        Pow2Grows(i, attempts - 1);
        Scaled(base, Pow2(i), Pow2(attempts - 1));
        return cap;
      }
      i := i + 1;
    }
    d := Min(d, cap);
  }

  lemma Doubled(base: nat, i: nat)
    requires i > 0
    ensures base * Pow2(i) == 2 * (base * Pow2(i - 1))
  {
  }

  lemma Scaled(base: nat, p: nat, q: nat)
    requires p <= q
    ensures base * p <= base * q
  {
  }

  // ---- The worker -----------------------------------------------------------------------------

  const STATUS_WRITE_TRIES := 3

  /** The claim a step reads for, reports about or abandons. */
  function JobOf(step: Step): Option<int> {
    match step
    case Read(job) => Some(job)
    case Complete(job) => Some(job)
    case Fail(job, _) => Some(job)
    case Drop(job) => Some(job)
    case _ => None
  }

  /** The rows a claim may take now. */
  function Ready(cfg: Config, s: State): set<int> {
    set id | id in s.queue && Claimable(cfg, s, id)
  }

  /** `ids` is a result of ORDER BY next_attempt_at LIMIT `limit` over the claimable rows. */
  ghost predicate IsBatch(cfg: Config, s: State, limit: nat, ids: seq<int>) {
    && |ids| == Min(limit, |Ready(cfg, s)|)
    && (forall i :: 0 <= i < |ids| ==> ids[i] in Ready(cfg, s))
    && (forall i, j :: 0 <= i < j < |ids| ==>
            ids[i] != ids[j] && s.queue[ids[i]].nextAttemptAt <= s.queue[ids[j]].nextAttemptAt)
    && (forall i, id :: 0 <= i < |ids| && id in Ready(cfg, s) && id !in ids ==>
            s.queue[ids[i]].nextAttemptAt <= s.queue[id].nextAttemptAt)
  }

  /** The candidate rows of one claim statement. */
  method Candidates(cfg: Config, s: State, limit: nat) returns (ids: seq<int>)
    ensures IsBatch(cfg, s, limit, ids)
  {
    ids := [];
    var rest := Ready(cfg, s);
    while |ids| < limit && exists id :: id in rest
      invariant rest <= Ready(cfg, s) && |ids| + |rest| == |Ready(cfg, s)| && |ids| <= limit
      invariant forall i :: 0 <= i < |ids| ==> ids[i] in Ready(cfg, s) && ids[i] !in rest
      invariant forall id :: id in Ready(cfg, s) ==> id in rest || id in ids
      invariant forall i, j :: 0 <= i < j < |ids| ==>
                    ids[i] != ids[j] && s.queue[ids[i]].nextAttemptAt <= s.queue[ids[j]].nextAttemptAt
      invariant forall i, id :: 0 <= i < |ids| && id in rest ==>
                    s.queue[ids[i]].nextAttemptAt <= s.queue[id].nextAttemptAt
      decreases rest
    {
      ghost var e := EarliestExists(s, rest);
      var next :| next in rest && forall id :: id in rest ==> s.queue[next].nextAttemptAt <= s.queue[id].nextAttemptAt;
      ids, rest := ids + [next], rest - {next};
    }
  }

  /** The queue after the rows of `ids` have been claimed at once. */
  function ClaimedRows(s: State, ids: seq<int>): map<int, Row> {
    map id | id in s.queue ::
      if id !in ids then s.queue[id]
      else s.queue[id].(status := Claimed, attempts := s.queue[id].attempts + 1, claimedAt := Some(s.now))
  }

  /** `s` is `was` after claiming the first `i` rows of `ids`, under the next `i` handles. */
  ghost predicate ClaimedUpTo(was: State, s: State, ids: seq<int>, i: nat) {
    && i <= |ids| && (forall k :: 0 <= k < i ==> ids[k] in was.queue)
    && s.queue == ClaimedRows(was, ids[..i]) && s.now == was.now && s.files == was.files && s.results == was.results
    && s.nextId == was.nextId && s.nextJob == was.nextJob + i
    && (forall a :: a in s.jobs <==> a in was.jobs || was.nextJob <= a < s.nextJob)
    && (forall a :: a in was.jobs && a < was.nextJob ==> s.jobs[a] == was.jobs[a])
    && (forall k :: 0 <= k < i ==>
            s.jobs[was.nextJob + k] == Job(ids[k], was.queue[ids[k]].attempts + 1, was.now, None))
  }

  lemma ClaimsOneMore(cfg: Config, was: State, s: State, ids: seq<int>, i: nat)
    requires i < |ids| && ids[i] in Ready(cfg, was) && ids[i] !in ids[..i] && ClaimedUpTo(was, s, ids, i)
    ensures Claimable(cfg, s, ids[i]) && ClaimedUpTo(was, Apply(cfg, s, Claim(ids[i])), ids, i + 1)
  {
    assert s.queue[ids[i]] == was.queue[ids[i]];
    assert ids[..i + 1] == ids[..i] + [ids[i]];
  }

  lemma {:induction false} EarliestExists(s: State, ids: set<int>) returns (e: int)
    requires ids <= s.queue.Keys && exists id :: id in ids
    ensures e in ids && forall id :: id in ids ==> s.queue[e].nextAttemptAt <= s.queue[id].nextAttemptAt
    decreases |ids|
  {
    e :| e in ids;
    if exists f :: f in ids - {e} {
      var f := EarliestExists(s, ids - {e});
      if s.queue[f].nextAttemptAt < s.queue[e].nextAttemptAt { e := f; }
    }
  }

  /** A step leaves other claims alone, and neither time nor counters go back. */
  lemma StepFrame(cfg: Config, s: State, step: Step)
    requires Enabled(cfg, s, step) && HandlesOk(s)
    ensures var t := Apply(cfg, s, step);
            && HandlesOk(t) && Later(s, t)
            && forall a :: a in s.jobs && JobOf(step) != Some(a) ==> a in t.jobs && t.jobs[a] == s.jobs[a]
  {
    match step
    case Tick(dt) =>
    case _ =>
  }

  /** Time and counters have not gone back, and neither a closed claim nor a deleted file has returned. */
  ghost predicate Later(s: State, t: State) {
    && s.now <= t.now && s.nextJob <= t.nextJob && s.nextId <= t.nextId
    && (forall a :: a in t.jobs ==> a in s.jobs || a >= s.nextJob)
    && (forall id :: id in t.files ==> id in s.files || id >= s.nextId)
  }

  /** The claims in `mine` that were open still are, with the same file, attempt and time. */
  ghost predicate Kept(s: State, t: State, mine: set<int>) {
    forall a :: a in mine && a in s.jobs ==>
      && a in t.jobs && t.jobs[a].id == s.jobs[a].id
      && t.jobs[a].attempts == s.jobs[a].attempts && t.jobs[a].claimedAt == s.jobs[a].claimedAt
      && (s.jobs[a].read.Some? ==> t.jobs[a].read.Some?)
  }

  // ---- A worker's trace -----------------------------------------------------------------------

  /** A run with the positions of the worker's own steps and the handles of its claims. */
  datatype Trace = Trace(states: seq<State>, steps: seq<Step>, own: set<int>, mine: set<int>)

  ghost function Last(tr: Trace): State
    requires |tr.states| == |tr.steps| + 1
  {
    tr.states[|tr.steps|]
  }

  predicate Closes(step: Step, h: int) {
    step == Complete(h) || (step.Fail? && step.job == h)
  }

  /** A failure is due again after the backoff of its attempt, counted from some time since the claim. */
  ghost predicate Due(base: nat, cap: nat, s: State, step: Step)
    requires step.Fail?
  {
    && step.job in s.jobs
    && s.jobs[step.job].claimedAt <= step.nextAttemptAt - Delay(base, cap, s.jobs[step.job].attempts) <= s.now
  }

  /** A run of the queue, from a state in which handles and marks are in order. */
  ghost predicate Runs(cfg: Config, tr: Trace) {
    && IsRun(cfg, tr.states, tr.steps)
    && (forall i :: 0 <= i < |tr.states| ==> HandlesOk(tr.states[i]))
    && MarkInv(Last(tr))
  }

  /** The worker reads and reports for its own claims only, and nobody else does. */
  ghost predicate Attributed(tr: Trace)
    requires |tr.states| == |tr.steps| + 1
  {
    && (forall i :: i in tr.own ==> 0 <= i < |tr.steps|)
    && (forall h :: h in tr.mine ==> h < Last(tr).nextJob)
    && (forall i :: 0 <= i < |tr.steps| && JobOf(tr.steps[i]).Some? ==>
          JobOf(tr.steps[i]).value < Last(tr).nextJob && (i in tr.own <==> JobOf(tr.steps[i]).value in tr.mine))
  }

  /** Every claim of the worker is open or has been reported by it, and its failures are due on time. */
  ghost predicate Settled(base: nat, cap: nat, tr: Trace)
    requires |tr.states| == |tr.steps| + 1
  {
    && (forall h :: h in tr.mine ==>
            h in Last(tr).jobs || exists i :: i in tr.own && 0 <= i < |tr.steps| && Closes(tr.steps[i], h))
    && (forall h :: h in tr.mine && h in Last(tr).jobs ==>
            Last(tr).jobs[h].claimedAt <= Last(tr).now && Last(tr).jobs[h].id < Last(tr).nextId)
    && (forall i :: i in tr.own && 0 <= i < |tr.steps| && tr.steps[i].Fail? ==>
            Due(base, cap, tr.states[i], tr.steps[i]))
  }

  ghost predicate TraceOk(cfg: Config, base: nat, cap: nat, tr: Trace) {
    Runs(cfg, tr) && Attributed(tr) && Settled(base, cap, tr)
  }

  ghost function Extended(cfg: Config, tr: Trace, step: Step, own: bool): Trace
    requires |tr.states| == |tr.steps| + 1 && Enabled(cfg, Last(tr), step)
  {
    Trace(tr.states + [Apply(cfg, Last(tr), step)], tr.steps + [step],
          if own then tr.own + {|tr.steps|} else tr.own,
          if own && step.Claim? then tr.mine + {Last(tr).nextJob} else tr.mine)
  }

  /** Whose step it may be: one for a claim of the worker is the worker's own, and the worker never abandons one. */
  ghost predicate MayTake(base: nat, cap: nat, tr: Trace, step: Step, own: bool)
    requires |tr.states| == |tr.steps| + 1
  {
    && (JobOf(step).Some? ==> (own <==> JobOf(step).value in tr.mine))
    && (own ==> !step.Drop? && (step.Fail? ==> Due(base, cap, Last(tr), step)))
  }

  predicate FailsFile(s: State, step: Step, id: int) {
    step.Fail? && step.job in s.jobs && s.jobs[step.job].id == id
  }

  /** Its failures wait for the backoff, as the spacing of claims asks. */
  lemma WorkerWaits(cfg: Config, base: nat, cap: nat, tr: Trace, id: int)
    requires TraceOk(cfg, base, cap, tr)
    requires forall i :: 0 <= i < |tr.steps| && FailsFile(tr.states[i], tr.steps[i], id) ==> i in tr.own
    ensures QueueDrain.FailsAfter(tr.states, tr.steps, id, attempts => Delay(base, cap, attempts))
  {
    forall i | 0 <= i < |tr.steps|
      ensures QueueDrain.FailureWaits(tr.states[i], tr.steps[i], id, attempts => Delay(base, cap, attempts))
    {
      assert FailsFile(tr.states[i], tr.steps[i], id) ==> Due(base, cap, tr.states[i], tr.steps[i]);
    }
  }

  lemma ExtendRuns(cfg: Config, tr: Trace, step: Step, own: bool)
    requires Runs(cfg, tr) && Enabled(cfg, Last(tr), step)
    ensures Runs(cfg, Extended(cfg, tr, step, own)) && Later(Last(tr), Last(Extended(cfg, tr, step, own)))
  {
    StepFrame(cfg, Last(tr), step);
    StepKeepsMarks(cfg, Last(tr), step);
  }

  lemma ExtendAttributed(cfg: Config, base: nat, cap: nat, tr: Trace, step: Step, own: bool)
    requires TraceOk(cfg, base, cap, tr) && Enabled(cfg, Last(tr), step) && MayTake(base, cap, tr, step, own)
    ensures Attributed(Extended(cfg, tr, step, own))
  {
    StepFrame(cfg, Last(tr), step);
    assert HandlesOk(Last(tr));
  }

  lemma ExtendSettled(cfg: Config, base: nat, cap: nat, tr: Trace, step: Step, own: bool)
    requires TraceOk(cfg, base, cap, tr) && Enabled(cfg, Last(tr), step) && MayTake(base, cap, tr, step, own)
    ensures Settled(base, cap, Extended(cfg, tr, step, own))
  {
    var x := Extended(cfg, tr, step, own);
    StepFrame(cfg, Last(tr), step);
    forall h | h in x.mine && h !in Last(x).jobs
      ensures exists i :: i in x.own && 0 <= i < |x.steps| && Closes(x.steps[i], h) {
      if h in Last(tr).jobs {
        assert x.steps[|tr.steps|] == step && |tr.steps| in x.own && Closes(step, h);
      } else {
        var i :| i in tr.own && 0 <= i < |tr.steps| && Closes(tr.steps[i], h);
        assert x.steps[i] == tr.steps[i];
      }
    }
  }

  /** `b` goes on from `a`, and the claims in `kept` that were open still are. */
  ghost predicate Onward(a: Trace, b: Trace, kept: set<int>) {
    && |a.states| == |a.steps| + 1 && |b.states| == |b.steps| + 1
    && a.states <= b.states && a.steps <= b.steps && a.mine <= b.mine
    && (forall i :: 0 <= i < |a.steps| ==> (i in a.own <==> i in b.own))
    && Later(Last(a), Last(b)) && Kept(Last(a), Last(b), kept)
  }

  lemma OnwardSelf(a: Trace, kept: set<int>)
    requires |a.states| == |a.steps| + 1
    ensures Onward(a, a, kept)
  {
  }

  lemma OnwardOn(a: Trace, b: Trace, c: Trace, kept: set<int>)
    requires Onward(a, b, kept) && Onward(b, c, kept)
    ensures Onward(a, c, kept)
  {
  }

  lemma KeepsPosition(a: Trace, b: Trace, kept: set<int>, i: nat)
    requires Onward(a, b, kept) && i < |a.steps|
    ensures i < |b.steps| && b.steps[i] == a.steps[i] && (i in a.own <==> i in b.own)
  {
  }

  lemma OnwardLess(a: Trace, b: Trace, kept: set<int>, fewer: set<int>)
    requires Onward(a, b, kept) && fewer <= kept
    ensures Onward(a, b, fewer)
  {
  }

  lemma ExtendOnward(cfg: Config, tr: Trace, step: Step, own: bool, kept: set<int>)
    requires Runs(cfg, tr) && Enabled(cfg, Last(tr), step) && (forall i :: i in tr.own ==> i < |tr.steps|)
    requires JobOf(step).Some? && !step.Read? ==> JobOf(step).value !in kept
    ensures Onward(tr, Extended(cfg, tr, step, own), kept)
  {
    StepFrame(cfg, Last(tr), step);
    assert HandlesOk(Last(tr));
  }

  /** A claim is reported at most once, by whoever. */
  lemma ClosedOnce(cfg: Config, tr: Trace, i: nat, j: nat, h: int)
    requires Runs(cfg, tr) && i < j < |tr.steps| && Closes(tr.steps[i], h)
    ensures !Closes(tr.steps[j], h)
  {
    assert HandlesOk(tr.states[i]);
    ClosedStays(cfg, tr, i + 1, j, h);
  }

  lemma {:induction false} ClosedStays(cfg: Config, tr: Trace, i: nat, j: nat, h: int)
    requires Runs(cfg, tr) && i <= j <= |tr.steps| && h !in tr.states[i].jobs && h < tr.states[i].nextJob
    ensures h !in tr.states[j].jobs && h < tr.states[j].nextJob
  {
    if i < j {
      ClosedStays(cfg, tr, i, j - 1, h);
      ClosedStaysStep(cfg, tr.states[j - 1], tr.steps[j - 1], h);
    }
  }

  lemma ClosedStaysStep(cfg: Config, s: State, step: Step, h: int)
    requires HandlesOk(s) && Enabled(cfg, s, step) && h !in s.jobs && h < s.nextJob
    ensures h !in Apply(cfg, s, step).jobs && h < Apply(cfg, s, step).nextJob
  {
    StepFrame(cfg, s, step);
  }

  /** An open claim whose file has been deleted: its completion can no longer be stored. */
  ghost predicate Orphaned(s: State, h: int) {
    h in s.jobs && s.jobs[h].id !in s.files && s.jobs[h].id < s.nextId
  }

  lemma OpenIsKnown(base: nat, cap: nat, tr: Trace, h: int)
    requires |tr.states| == |tr.steps| + 1 && Settled(base, cap, tr) && h in tr.mine && h in Last(tr).jobs
    ensures Last(tr).jobs[h].id < Last(tr).nextId
  {
  }

  lemma OrphanedStays(a: Trace, b: Trace, kept: set<int>, h: int)
    requires Onward(a, b, kept) && h in kept && Orphaned(Last(a), h)
    ensures Orphaned(Last(b), h)
  {
  }

  class Worker {
    const cfg: Config
    const base: nat
    const cap: nat
    /** No queue call fails and the worker is not stopped; processing may still fail. */
    const reliable: bool
    var s: State
    /** The handles of its claims, open or not. */
    var mine: set<int>
    ghost var tr: Trace

    ghost predicate Valid()
      reads this
    {
      TraceOk(cfg, base, cap, tr) && Last(tr) == s && tr.mine == mine && base < TWO62 && cap < TWO62
    }

    constructor (cfg: Config, base: nat, cap: nat, reliable: bool, start: State)
      requires base < TWO62 && cap < TWO62 && HandlesOk(start) && MarkInv(start)
      ensures Valid() && this.cfg == cfg && this.base == base && this.cap == cap && this.reliable == reliable
      ensures tr == Trace([start], [], {}, {})
    {
      this.cfg, this.base, this.cap, this.reliable, s := cfg, base, cap, reliable, start;
      mine, tr := {}, Trace([start], [], {}, {});
    }

    method Take(step: Step, own: bool)
      requires Valid() && Enabled(cfg, s, step) && MayTake(base, cap, tr, step, own)
      modifies this
      ensures Valid() && s == Apply(cfg, old(s), step) && tr == Extended(cfg, old(tr), step, own)
      ensures JobOf(step).None? || step.Read? ==> Onward(old(tr), tr, old(mine))
      ensures JobOf(step).Some? ==> Onward(old(tr), tr, old(mine) - {JobOf(step).value})
    {
      ExtendRuns(cfg, tr, step, own);
      ExtendAttributed(cfg, base, cap, tr, step, own);
      ExtendSettled(cfg, base, cap, tr, step, own);
      if JobOf(step).None? || step.Read? { ExtendOnward(cfg, tr, step, own, tr.mine); }
      if JobOf(step).Some? { ExtendOnward(cfg, tr, step, own, tr.mine - {JobOf(step).value}); }
      tr := Extended(cfg, tr, step, own);
      if own && step.Claim? { mine := mine + {s.nextJob}; }
      s := Apply(cfg, s, step);
    }

    /** Any number of steps of everyone else: other workers, uploads, edits, deletes, the clock. */
    method Others()
      requires Valid()
      modifies this
      ensures Valid() && Onward(old(tr), tr, mine) && mine == old(mine) && tr.own == old(tr.own)
    {
      OnwardSelf(tr, tr.mine);
      var n: nat := *;
      while n > 0
        invariant Valid() && Onward(old(tr), tr, mine) && mine == old(mine) && tr.own == old(tr.own)
      {
        var step: Step := *;
        if Enabled(cfg, s, step) && !(JobOf(step).Some? && JobOf(step).value in mine) {
          ghost var before := tr;
          Take(step, false);
          OnwardLess(before, tr,
                     if JobOf(step).Some? && !step.Read? then before.mine - {JobOf(step).value} else before.mine, mine);
          OnwardOn(old(tr), before, tr, mine);
        }
        n := n - 1;
      }
    }

    /**
     * Claims a batch in one statement, as one claim step a row: exactly the batch's rows change hands,
     * each under a new handle, and nobody else's claim is touched.
     */
    method Claim(limit: nat) returns (handles: seq<int>, ghost ids: seq<int>)
      requires Valid()
      modifies this
      ensures Valid() && IsBatch(cfg, old(s), limit, ids) && ClaimProgress(cfg, old(tr), tr, ids, handles, |ids|)
    {
      var batch := Candidates(cfg, s, limit);
      ids, handles := batch, [];
      ClaimStart(cfg, tr, ids);
      for i := 0 to |batch|
        invariant Valid() && ClaimProgress(cfg, old(tr), tr, ids, handles, i)
      {
        ClaimGoesOn(cfg, old(tr), tr, ids, handles, i);
        handles := handles + [s.nextJob];
        Take(Step.Claim(batch[i]), true);
      }
    }

    /**
     * Records an outcome: it gives up after exactly three tries, and does not write again once one has succeeded.
     * Without failing calls only the completion of a deleted file is lost.
     */
    method StatusWrite(step: Step) returns (written: bool, ghost tries: nat)
      requires Valid() && Writable(base, cap, s, step) && step.job in mine
      modifies this
      ensures Valid() && mine == old(mine) && Onward(old(tr), tr, mine - {step.job})
      ensures written ==> Closed(old(tr), tr, step)
      ensures !written ==> Onward(old(tr), tr, mine) && (reliable ==> Orphaned(s, step.job))
      ensures if written then 1 <= tries <= 3 else tries == 3
    {
      tries := 0;
      OnwardSelf(tr, mine);
      for try := 1 to STATUS_WRITE_TRIES + 1
        invariant Valid() && mine == old(mine) && Onward(old(tr), tr, mine) && Writable(base, cap, s, step)
        invariant tries == try - 1 && (try > 1 && reliable ==> Orphaned(s, step.job))
      {
        ghost var before := tr;
        written := TryWrite(step);
        tries := tries + 1;
        if written {
          OnwardLess(old(tr), before, mine, mine - {step.job});
          OnwardOn(old(tr), before, tr, mine - {step.job});
          return;
        }
        OnwardOn(old(tr), before, tr, mine);
      }
      written := false;
    }

    /** One try, after whatever happened since the last. */
    method TryWrite(step: Step) returns (written: bool)
      requires Valid() && Writable(base, cap, s, step) && step.job in mine
      modifies this
      ensures Valid() && mine == old(mine)
      ensures written ==> Onward(old(tr), tr, mine - {step.job}) && Closed(old(tr), tr, step)
      ensures !written ==>
                Onward(old(tr), tr, mine) && Writable(base, cap, s, step) && (reliable ==> Orphaned(s, step.job))
    {
      Wait(step);
      ghost var waited := tr;
      var ok: bool := *;
      written := (ok || reliable) && (step.Complete? ==> s.jobs[step.job].id in s.files);
      if written {
        WriteNow(step);
        ClosedSince(old(tr), waited, tr, mine, step);
      } else if reliable {
        OpenIsKnown(base, cap, tr, step.job);
      }
    }

    method Wait(step: Step)
      requires Valid() && Writable(base, cap, s, step) && step.job in mine
      modifies this
      ensures Valid() && mine == old(mine) && Onward(old(tr), tr, mine) && Writable(base, cap, s, step)
    {
      Others();
      StillWritable(base, cap, old(tr), tr, mine, step);
    }

    method WriteNow(step: Step)
      requires Valid() && Writable(base, cap, s, step) && step.job in mine
      modifies this
      ensures Valid() && mine == old(mine) && Onward(old(tr), tr, mine - {step.job}) && Closed(old(tr), tr, step)
    {
      Take(step, true);
    }

    /** Processes one claim and records the outcome; a failure waits for the backoff of its attempt. */
    method Handle(h: int) returns (written: bool)
      requires Valid() && h in s.jobs && h in mine
      modifies this
      ensures Valid() && mine == old(mine) && Onward(old(tr), tr, mine - {h})
      ensures written ==> ClosedBy(old(tr), tr, h)
      ensures !written ==> h in s.jobs && (reliable ==> Orphaned(s, h))
    {
      var step := Process(h);
      ghost var before := tr;
      ghost var tries;
      written, tries := StatusWrite(step);
      OnwardLess(old(tr), before, mine, mine - {h});
      OnwardOn(old(tr), before, tr, mine - {h});
    }

    /** The outcome of the work: a result read from the object, or a failure and when to retry. */
    method Process(h: int) returns (step: Step)
      requires Valid() && h in s.jobs && h in mine
      modifies this
      ensures Valid() && mine == old(mine) && Onward(old(tr), tr, mine)
      ensures Writable(base, cap, s, step) && Closes(step, h)
    {
      Others();
      var ok: bool := *;
      if ok && s.jobs[h].id in s.files {
        ghost var before := tr;
        Take(Read(h), true);
        OnwardOn(old(tr), before, tr, mine);
        step := Complete(h);
      } else {
        var d := Backoff(base, cap, s.jobs[h].attempts);
        step := Fail(h, s.now + d);
      }
    }

    /**
     * Works through a batch, in order, until done or told to stop. What stays claimed is what was lost or not
     * reached; without failing calls all is reached and only claims of deleted files are lost.
     */
    method RunBatch(handles: seq<int>) returns (lost: set<int>, reached: nat)
      requires Valid() && forall i :: 0 <= i < |handles| ==> handles[i] in s.jobs && handles[i] in mine
      requires forall i, j :: 0 <= i < j < |handles| ==> handles[i] != handles[j]
      modifies this
      ensures Valid() && mine == old(mine) && Onward(old(tr), tr, mine - Elements(handles))
      ensures BatchDone(tr, handles, reached, lost, reliable) && (reliable ==> reached == |handles|)
    {
      lost, reached := {}, 0;
      ghost var kept := mine - Elements(handles);
      OnwardSelf(tr, kept);
      while reached < |handles|
        invariant Valid() && mine == old(mine) && Onward(old(tr), tr, kept)
        invariant BatchDone(tr, handles, reached, lost, reliable)
      {
        var stop: bool := *;
        if stop && !reliable { return; }
        var h := handles[reached];
        ghost var before := tr;
        var written := Handle(h);
        OnwardLess(before, tr, mine - {h}, kept);
        OnwardOn(old(tr), before, tr, kept);
        BatchGoesOn(before, tr, handles, reached, lost, reliable, mine, written);
        if !written { lost := lost + {h}; }
        reached := reached + 1;
      }
    }

    /**
     * Seeds in two statements, with others at work between them. If both commit, every file there
     * at the start is queued or gone, and every done row was completed against the current mark.
     */
    method Seed() returns (ok: bool, ghost at: (nat, nat))
      requires Valid()
      modifies this
      ensures Valid() && mine == old(mine) && Onward(old(tr), tr, mine) && (reliable ==> ok)
      ensures ok ==> SeededAt(tr, |old(tr.steps)|, at)
      ensures ok ==> forall id :: id in old(s.files) && id in s.files ==> id in s.queue
      ensures ok ==> forall id :: id in s.queue && s.queue[id].status == Done ==>
                  id in s.files && s.queue[id].mark == Some(s.files[id])
    {
      ghost var from, was := |tr.steps|, s;
      ok, at := SeedStatements();
      if ok {
        assert tr.states[from] == was;
        SeedTrace(cfg, tr, from);
      }
    }

    method SeedStatements() returns (ok: bool, ghost at: (nat, nat))
      requires Valid()
      modifies this
      ensures Valid() && mine == old(mine) && Onward(old(tr), tr, mine) && (reliable ==> ok)
      ensures ok ==> SeededAt(tr, |old(tr.steps)|, at) && at == (|old(tr.steps)|, |tr.steps| - 1)
    {
      at := (|tr.steps|, 0);
      ok := FirstStatement();
      if !ok { return; }
      ghost var before := tr;
      ok := Statement(RequeueStale);
      KeepsPosition(before, tr, mine, at.0);
      OnwardOn(old(tr), before, tr, mine);
      at := (at.0, |tr.steps| - 1);
    }

    /** The first statement, and what others do before the second. */
    method FirstStatement() returns (ok: bool)
      requires Valid()
      modifies this
      ensures Valid() && mine == old(mine) && Onward(old(tr), tr, mine) && (reliable ==> ok)
      ensures ok ==> |tr.steps| > |old(tr.steps)| && tr.steps[|old(tr.steps)|] == SeedNew && |old(tr.steps)| in tr.own
    {
      ok := Statement(SeedNew);
      if !ok { return; }
      ghost var before := tr;
      Others();
      KeepsPosition(before, tr, mine, |old(tr.steps)|);
      OnwardOn(old(tr), before, tr, mine);
    }

    /** One of the two seed statements, which commits or does nothing. */
    method Statement(step: Step) returns (ok: bool)
      requires Valid() && (step == SeedNew || step == RequeueStale)
      modifies this
      ensures Valid() && mine == old(mine) && Onward(old(tr), tr, mine) && (reliable ==> ok)
      ensures ok ==> |tr.steps| == |old(tr.steps)| + 1 && tr.steps[|old(tr.steps)|] == step
      ensures if ok then |old(tr.steps)| in tr.own else tr == old(tr)
    {
      ok := *;
      ok := ok || reliable;
      if ok { Take(step, true); } else { OnwardSelf(tr, mine); }
    }

    /** Claim, work through the batch and, if it was not full, seed. */
    method RunRound(batchSize: nat) returns (stopped: bool, ghost r: Round)
      requires Valid()
      modifies this
      ensures Valid() && Onward(old(tr), tr, old(mine)) && mine == old(mine) + Elements(r.handles)
      ensures stopped == Stopped(r)
      ensures RoundHolds(cfg, tr, |old(tr.steps)|, batchSize, reliable, r)
    {
      var full;
      stopped, full, r := ClaimAndWork(batchSize);
      if !stopped && !full {
        ghost var before := tr;
        var ok;
        ghost var seed;
        ok, seed := Seed();
        WorkedStays(cfg, before, tr, |old(tr.steps)|, batchSize, reliable, r);
        OnwardLess(before, tr, mine, old(mine));
        OnwardOn(old(tr), before, tr, old(mine));
        if ok { r := r.(seed := Some(seed)); }
      }
    }

    method ClaimAndWork(batchSize: nat) returns (stopped: bool, full: bool, ghost r: Round)
      requires Valid()
      modifies this
      ensures Valid() && Onward(old(tr), tr, old(mine)) && mine == old(mine) + Elements(r.handles)
      ensures stopped == Stopped(r) && full == (|r.handles| >= batchSize) && r.seed.None?
      ensures Worked(cfg, tr, |old(tr.steps)|, batchSize, reliable, r) && r.at <= |tr.steps|
    {
      var handles;
      ghost var ids;
      handles, ids := TryClaim(batchSize);
      ghost var claimed := tr;
      var lost, reached := RunBatch(handles);
      OnwardLess(claimed, tr, mine - Elements(handles), old(mine));
      OnwardOn(old(tr), claimed, tr, old(mine));
      r := Round(|old(tr.steps)|, ids, handles, reached, lost, None);
      ClaimedAtStays(cfg, claimed, tr, r.at, ids, handles, old(mine));
      assert tr.states[r.at] == claimed.states[r.at];
      stopped, full := reached < |handles|, |handles| >= batchSize;
    }

    /** The claim statement, or nothing if the database cannot be reached. */
    method TryClaim(batchSize: nat) returns (handles: seq<int>, ghost ids: seq<int>)
      requires Valid()
      modifies this
      ensures Valid() && Onward(old(tr), tr, old(mine)) && mine == old(mine) + Elements(handles)
      ensures Elements(handles) !! old(mine)
      ensures ClaimedAt(cfg, tr, |old(tr.steps)|, ids, handles)
      ensures ids != [] || reliable ==> IsBatch(cfg, tr.states[|old(tr.steps)|], batchSize, ids)
      ensures forall i :: 0 <= i < |handles| ==> handles[i] in s.jobs && handles[i] in mine
      ensures forall i, j :: 0 <= i < j < |handles| ==> handles[i] != handles[j]
    {
      handles, ids := [], [];
      var reachable: bool := *;
      if reachable || reliable {
        handles, ids := Claim(batchSize);
        ClaimsAreFresh(cfg, old(tr), tr, ids, handles);
      } else {
        OnwardSelf(tr, mine);
      }
    }

    /**
     * The loop, for any number of rounds or until stopped. Its trace is a run of the queue in which every claim it
     * took is open or reported once, by itself, with failures due after their backoff (`TraceOk`); each round
     * claims the batch that is due and leaves open what it lost or did not reach.
     */
    method Run(batchSize: nat, iterations: nat) returns (ghost first: Option<(nat, nat)>, ghost rounds: seq<Round>)
      requires Valid()
      modifies this
      ensures Valid() && Onward(old(tr), tr, old(mine)) && |rounds| <= iterations
      ensures |rounds| < iterations ==> !reliable && |rounds| > 0 && Stopped(rounds[|rounds| - 1])
      ensures reliable ==> first.Some?
      ensures first.Some? ==> SeededAt(tr, |old(tr.steps)|, first.value)
      ensures forall i :: 0 <= i < |rounds| ==> RoundHolds(cfg, tr, |old(tr.steps)|, batchSize, reliable, rounds[i])
      ensures InOrder(rounds) && forall h :: h in mine ==> h in old(mine) || ClaimedIn(rounds, h)
    {
      var ok;
      ghost var at;
      ok, at := Seed();
      first, rounds := if ok then Some(at) else None, [];
      for n := 0 to iterations
        invariant Valid() && Onward(old(tr), tr, old(mine)) && |rounds| == n && (reliable ==> first.Some?)
        invariant first.Some? ==> SeededAt(tr, |old(tr.steps)|, first.value)
        invariant forall i :: 0 <= i < n ==> RoundHolds(cfg, tr, |old(tr.steps)|, batchSize, reliable, rounds[i])
        invariant InOrder(rounds) && forall h :: h in mine ==> h in old(mine) || ClaimedIn(rounds, h)
      {
        ghost var before := tr;
        var stopped;
        ghost var r;
        stopped, r := RunRound(batchSize);
        OnwardLess(before, tr, before.mine, old(mine));
        OnwardOn(old(tr), before, tr, old(mine));
        RoundsStay(cfg, before, tr, |old(tr.steps)|, batchSize, reliable, rounds, r);
        rounds := rounds + [r];
        if stopped { return; }
      }
    }
  }

  /** One round of the loop: where it claimed, what, how far it came, what it lost and where it seeded. */
  datatype Round = Round(at: nat, ids: seq<int>, handles: seq<int>, reached: nat, lost: set<int>,
      seed: Option<(nat, nat)>)

  predicate Stopped(r: Round) {
    r.reached < |r.handles|
  }

  /** Later rounds claim later. */
  ghost predicate InOrder(rounds: seq<Round>) {
    forall i, j :: 0 <= i < j < |rounds| ==> rounds[i].at + |rounds[i].ids| <= rounds[j].at
  }

  ghost predicate ClaimedIn(rounds: seq<Round>, h: int) {
    exists i :: 0 <= i < |rounds| && h in rounds[i].handles
  }

  ghost predicate RoundHolds(cfg: Config, tr: Trace, from: nat, batchSize: nat, reliable: bool, r: Round) {
    && Worked(cfg, tr, from, batchSize, reliable, r)
    && (r.seed.Some? ==> SeededAt(tr, r.at, r.seed.value) && |r.handles| < batchSize)
    && (reliable && |r.handles| < batchSize ==> r.seed.Some?)
  }

  /** It claimed the batch that was due, if it reached the database, and worked through it. */
  ghost predicate Worked(cfg: Config, tr: Trace, from: nat, batchSize: nat, reliable: bool, r: Round) {
    && from <= r.at && ClaimedAt(cfg, tr, r.at, r.ids, r.handles)
    && (r.ids != [] || reliable ==> IsBatch(cfg, tr.states[r.at], batchSize, r.ids))
    && BatchDone(tr, r.handles, r.reached, r.lost, reliable) && (reliable ==> !Stopped(r))
  }

  lemma RoundStays(cfg: Config, a: Trace, b: Trace, from: nat, batchSize: nat, reliable: bool, r: Round)
    requires RoundHolds(cfg, a, from, batchSize, reliable, r) && Onward(a, b, a.mine) && Attributed(a)
    ensures RoundHolds(cfg, b, from, batchSize, reliable, r)
  {
    WorkedStays(cfg, a, b, from, batchSize, reliable, r);
  }

  lemma WorkedStays(cfg: Config, a: Trace, b: Trace, from: nat, batchSize: nat, reliable: bool, r: Round)
    requires Worked(cfg, a, from, batchSize, reliable, r) && Onward(a, b, a.mine) && Attributed(a)
    ensures Worked(cfg, b, from, batchSize, reliable, r)
  {
    assert a.states[r.at] == b.states[r.at];
    ClaimedAtStays(cfg, a, b, r.at, r.ids, r.handles, a.mine);
    BatchStays(a, b, r.handles, r.reached, r.lost, reliable);
  }

  lemma RoundsStay(cfg: Config, a: Trace, b: Trace, from: nat, batchSize: nat, reliable: bool, rounds: seq<Round>,
      r: Round)
    requires Onward(a, b, a.mine) && Attributed(a) && from <= |a.steps|
    requires RoundHolds(cfg, b, |a.steps|, batchSize, reliable, r)
    requires forall i :: 0 <= i < |rounds| ==> RoundHolds(cfg, a, from, batchSize, reliable, rounds[i])
    ensures forall i :: 0 <= i <= |rounds| ==> RoundHolds(cfg, b, from, batchSize, reliable, (rounds + [r])[i])
    ensures forall h :: ClaimedIn(rounds, h) || h in r.handles ==> ClaimedIn(rounds + [r], h)
    ensures InOrder(rounds) ==> InOrder(rounds + [r])
  {
    forall i | 0 <= i < |rounds| ensures RoundHolds(cfg, b, from, batchSize, reliable, (rounds + [r])[i]) {
      RoundStays(cfg, a, b, from, batchSize, reliable, rounds[i]);
    }
    forall h | ClaimedIn(rounds, h) || h in r.handles ensures ClaimedIn(rounds + [r], h) {
      if ClaimedIn(rounds, h) {
        var i :| 0 <= i < |rounds| && h in rounds[i].handles;
        assert h in (rounds + [r])[i].handles;
      } else {
        assert h in (rounds + [r])[|rounds|].handles;
      }
    }
  }

  lemma ClaimedAtStays(cfg: Config, a: Trace, b: Trace, at: nat, ids: seq<int>, handles: seq<int>, kept: set<int>)
    requires ClaimedAt(cfg, a, at, ids, handles) && Onward(a, b, kept)
    ensures ClaimedAt(cfg, b, at, ids, handles)
  {
    assert a.states[at] == b.states[at];
    forall k | 0 <= k < |ids| ensures b.steps[at + k] == Claim(ids[k]) && at + k in b.own {
      assert a.steps[at + k] == Claim(ids[k]) && b.steps[at + k] == a.steps[at + k];
    }
    forall k | 0 <= k < |ids| ensures handles[k] == b.states[at].nextJob + k && handles[k] in b.mine {
      assert handles[k] in a.mine;
    }
  }

  lemma BatchStays(a: Trace, b: Trace, handles: seq<int>, reached: nat, lost: set<int>, reliable: bool)
    requires BatchDone(a, handles, reached, lost, reliable) && Onward(a, b, a.mine) && Attributed(a)
    requires forall i :: 0 <= i < |handles| ==> handles[i] in a.mine
    ensures BatchDone(b, handles, reached, lost, reliable)
  {
    forall i | 0 <= i < |handles| ensures handles[i] in Last(b).jobs <==> handles[i] in Last(a).jobs {
      assert handles[i] in a.mine && handles[i] < Last(a).nextJob;
    }
    if reliable {
      forall h | h in lost ensures Orphaned(Last(b), h) {
        var i :| 0 <= i < reached && handles[i] == h;
        OrphanedStays(a, b, a.mine, h);
      }
    }
  }

  /** A batch so far: what is still claimed is what has not been reached or could not be recorded. */
  ghost predicate BatchDone(tr: Trace, handles: seq<int>, reached: nat, lost: set<int>, reliable: bool) {
    && |tr.states| == |tr.steps| + 1 && reached <= |handles|
    && (forall h :: h in lost ==> exists i :: 0 <= i < reached && handles[i] == h)
    && (forall i :: 0 <= i < |handles| ==> (handles[i] in Last(tr).jobs <==> i >= reached || handles[i] in lost))
    && (reliable ==> forall h :: h in lost ==> Orphaned(Last(tr), h))
  }

  lemma BatchGoesOn(a: Trace, b: Trace, handles: seq<int>, reached: nat, lost: set<int>, reliable: bool,
      mine: set<int>, written: bool)
    requires BatchDone(a, handles, reached, lost, reliable) && reached < |handles|
    requires Onward(a, b, mine - {handles[reached]})
    requires forall i :: 0 <= i < |handles| ==> handles[i] in mine && handles[i] < Last(a).nextJob
    requires forall i, j :: 0 <= i < j < |handles| ==> handles[i] != handles[j]
    requires var h := handles[reached]; written <==> h !in Last(b).jobs
    requires !written && reliable ==> Orphaned(Last(b), handles[reached])
    ensures BatchDone(b, handles, reached + 1, if written then lost else lost + {handles[reached]}, reliable)
  {
    var h := handles[reached];
    forall x | x in lost ensures x != h && x in mine && (reliable ==> Orphaned(Last(b), x)) {
      var i :| 0 <= i < reached && handles[i] == x;
      if reliable { OrphanedStays(a, b, mine - {h}, x); }
    }
  }

  /** The worker seeded at positions `at.0` and `at.1`, not before `from`. */
  ghost predicate SeededAt(tr: Trace, from: nat, at: (nat, nat)) {
    && from <= at.0 < at.1 < |tr.steps| && at.0 in tr.own && at.1 in tr.own
    && tr.steps[at.0] == SeedNew && tr.steps[at.1] == RequeueStale
  }

  lemma SeedTrace(cfg: Config, tr: Trace, from: nat)
    requires Runs(cfg, tr) && from + 1 < |tr.steps| && tr.steps[from] == SeedNew
    requires tr.steps[|tr.steps| - 1] == RequeueStale
    requires MarkInv(tr.states[from])
    ensures var t := Last(tr);
            && (forall id :: id in tr.states[from].files && id in t.files ==> id in t.queue)
            && (forall id :: id in t.queue && t.queue[id].status == Done ==>
                    id in t.files && t.queue[id].mark == Some(t.files[id]))
  {
    SeedCatchesUp(cfg, tr.states[from..], tr.steps[from..], 0);
  }

  /** The outcome may still be recorded. */
  ghost predicate Writable(base: nat, cap: nat, s: State, step: Step) {
    && (step.Complete? || step.Fail?) && step.job in s.jobs
    && if step.Complete? then s.jobs[step.job].read.Some? else Due(base, cap, s, step)
  }

  lemma StillWritable(base: nat, cap: nat, a: Trace, b: Trace, mine: set<int>, step: Step)
    requires Onward(a, b, mine) && Writable(base, cap, Last(a), step) && step.job in mine
    ensures Writable(base, cap, Last(b), step)
  {
  }

  lemma ClosedSince(a: Trace, b: Trace, c: Trace, mine: set<int>, step: Step)
    requires Onward(a, b, mine) && Closed(b, c, step) && Onward(b, c, mine - {step.job})
    ensures Closed(a, c, step) && Onward(a, c, mine - {step.job})
  {
    OnwardLess(a, b, mine, mine - {step.job});
    OnwardOn(a, b, c, mine - {step.job});
  }

  ghost predicate ClosedBy(from: Trace, tr: Trace, h: int) {
    |tr.steps| > 0 && Closed(from, tr, tr.steps[|tr.steps| - 1]) && Closes(tr.steps[|tr.steps| - 1], h)
  }

  /** `step` is the worker's last step, and the first of `tr` since `from` to close its claim. */
  ghost predicate Closed(from: Trace, tr: Trace, step: Step) {
    && |tr.states| == |tr.steps| + 1 && |tr.steps| > |from.steps| && tr.steps[|tr.steps| - 1] == step
    && |tr.steps| - 1 in tr.own && (step.Complete? || step.Fail?) && step.job !in Last(tr).jobs
  }

  function Elements(handles: seq<int>): set<int> {
    set h | h in handles
  }

  /** The steps from position `at` on are the worker's own claims of `ids`, which gave it `handles`. */
  ghost predicate ClaimedAt(cfg: Config, tr: Trace, at: nat, ids: seq<int>, handles: seq<int>) {
    && |tr.states| == |tr.steps| + 1 && at + |ids| <= |tr.steps| && |handles| == |ids|
    && (forall k :: 0 <= k < |ids| ==> tr.steps[at + k] == Claim(ids[k]) && at + k in tr.own)
    && (forall k :: 0 <= k < |ids| ==> handles[k] == tr.states[at].nextJob + k && handles[k] in tr.mine)
  }

  lemma ClaimedAtMore(cfg: Config, tr: Trace, id: int, at: nat, ids: seq<int>, handles: seq<int>)
    requires Runs(cfg, tr) && Claimable(cfg, Last(tr), id)
    requires |tr.steps| == at + |ids| && ClaimedAt(cfg, tr, at, ids, handles)
    requires Last(tr).nextJob == tr.states[at].nextJob + |ids|
    ensures ClaimedAt(cfg, Extended(cfg, tr, Claim(id), true), at, ids + [id], handles + [Last(tr).nextJob])
  {
    var x, n := Extended(cfg, tr, Claim(id), true), |ids|;
    assert x.states[at] == tr.states[at];
    forall k | 0 <= k <= n
      ensures x.steps[at + k] == Claim((ids + [id])[k]) && at + k in x.own
      ensures (handles + [Last(tr).nextJob])[k] == x.states[at].nextJob + k
      ensures (handles + [Last(tr).nextJob])[k] in x.mine
    {
      if k < n {
        assert tr.steps[at + k] == Claim(ids[k]) && handles[k] == tr.states[at].nextJob + k;
      }
    }
  }

  /** The first `i` rows of `ids` have been claimed since `from`, under `handles`, and nothing else has happened. */
  ghost predicate ClaimProgress(cfg: Config, from: Trace, tr: Trace, ids: seq<int>, handles: seq<int>, i: nat) {
    && i <= |ids| && Onward(from, tr, from.mine) && |tr.steps| == |from.steps| + i
    && ClaimedUpTo(Last(from), Last(tr), ids, i) && ClaimedAt(cfg, tr, |from.steps|, ids[..i], handles)
    && tr.mine == from.mine + Elements(handles)
  }

  lemma ClaimsAreFresh(cfg: Config, from: Trace, tr: Trace, ids: seq<int>, handles: seq<int>)
    requires ClaimProgress(cfg, from, tr, ids, handles, |ids|) && Attributed(from)
    ensures ClaimedAt(cfg, tr, |from.steps|, ids, handles) && Elements(handles) !! from.mine
    ensures forall i :: 0 <= i < |handles| ==> handles[i] in Last(tr).jobs && handles[i] in tr.mine
    ensures forall i, j :: 0 <= i < j < |handles| ==> handles[i] != handles[j]
    ensures tr.states[|from.steps|] == Last(from)
  {
    assert ids[..|ids|] == ids;
  }

  lemma ClaimStart(cfg: Config, tr: Trace, ids: seq<int>)
    requires Runs(cfg, tr)
    ensures ClaimProgress(cfg, tr, tr, ids, [], 0)
  {
    OnwardSelf(tr, tr.mine);
    assert ClaimedRows(Last(tr), ids[..0]) == Last(tr).queue;
  }

  lemma ClaimGoesOn(cfg: Config, from: Trace, tr: Trace, ids: seq<int>, handles: seq<int>, i: nat)
    requires Runs(cfg, tr) && (forall k :: k in tr.own ==> k < |tr.steps|)
    requires ClaimProgress(cfg, from, tr, ids, handles, i)
    requires i < |ids| && ids[i] in Ready(cfg, Last(from)) && forall k :: 0 <= k < i ==> ids[k] != ids[i]
    ensures Claimable(cfg, Last(tr), ids[i])
    ensures ClaimProgress(cfg, from, Extended(cfg, tr, Claim(ids[i]), true), ids, handles + [Last(tr).nextJob], i + 1)
  {
    assert ids[i] !in ids[..i];
    ClaimsOneMore(cfg, Last(from), Last(tr), ids, i);
    ClaimOnward(cfg, from, tr, ids[i]);
    assert ids[..i + 1] == ids[..i] + [ids[i]];
    ClaimedAtMore(cfg, tr, ids[i], |from.steps|, ids[..i], handles);
  }

  lemma ClaimOnward(cfg: Config, from: Trace, tr: Trace, id: int)
    requires Runs(cfg, tr) && (forall k :: k in tr.own ==> k < |tr.steps|) && Onward(from, tr, from.mine)
    requires Claimable(cfg, Last(tr), id)
    ensures Onward(from, Extended(cfg, tr, Claim(id), true), from.mine)
  {
    ExtendOnward(cfg, tr, Claim(id), true, from.mine);
    OnwardOn(from, tr, Extended(cfg, tr, Claim(id), true), from.mine);
  }
}
