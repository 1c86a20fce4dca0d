/**
 * Retry bound and drain of the index queue, when every claim's outcome is recorded by its own
 * claimer before the claim TTL. Two runs at the end show what a lost or late outcome costs.
 */
module QueueDrain {
  import opened Common
  import opened Measures
  import opened IndexQueue

  /** At least one attempt and a positive claim TTL. */
  predicate Sound(cfg: Config) {
    cfg.maxAttempts >= 1 && cfg.ttl > 0
  }

  /** No claim is abandoned, and time never carries one past its TTL. */
  ghost predicate Timely(cfg: Config, s: State, step: Step) {
    && !step.Drop?
    && (step.Tick? ==> forall a :: a in s.jobs ==> s.now + step.dt - s.jobs[a].claimedAt < cfg.ttl)
  }

  ghost predicate TimelyRun(cfg: Config, states: seq<State>, steps: seq<Step>) {
    IsRun(cfg, states, steps) && forall i :: 0 <= i < |steps| ==> Timely(cfg, states[i], steps[i])
  }

  /** A job whose file still has a row is the claim that row records. */
  ghost predicate OwnsRow(s: State, a: int)
    requires a in s.jobs
  {
    var j := s.jobs[a];
    && j.id < s.nextId && (j.id in s.files ==> j.id in s.queue)
    && (j.id in s.queue ==>
          && s.queue[j.id].status == Claimed && s.queue[j.id].attempts == j.attempts
          && s.queue[j.id].claimedAt == Some(j.claimedAt))
  }

  ghost predicate WithinBound(cfg: Config, q: Row) {
    && 0 <= q.attempts <= cfg.maxAttempts
    && (q.status == Pending ==> q.attempts < cfg.maxAttempts)
    && (q.status == Claimed ==> 1 <= q.attempts && q.claimedAt.Some?)
  }

  ghost predicate JobsInv(cfg: Config, s: State) {
    && (forall a :: a in s.jobs ==> a < s.nextJob && OwnsRow(s, a) && s.now - s.jobs[a].claimedAt < cfg.ttl)
    && (forall a, b :: a in s.jobs && b in s.jobs && s.jobs[a].id == s.jobs[b].id ==> a == b)
  }

  ghost predicate RowsInv(cfg: Config, s: State) {
    && (forall id :: id in s.queue ==> WithinBound(cfg, s.queue[id]))
    && (forall id :: id in s.queue && s.queue[id].status == Claimed ==> exists a :: a in s.jobs && s.jobs[a].id == id)
  }

  ghost predicate Inv(cfg: Config, s: State) {
    MarkInv(s) && JobsInv(cfg, s) && RowsInv(cfg, s)
  }

  /** An expired claim cannot exist, so claims take pending rows only. */
  lemma ClaimsTakePending(cfg: Config, s: State, id: int)
    requires Inv(cfg, s) && Claimable(cfg, s, id)
    ensures s.queue[id].status == Pending && forall a :: a in s.jobs ==> s.jobs[a].id != id
  {
    assert forall a :: a in s.jobs ==> OwnsRow(s, a);
  }

  lemma StepKeepsJobs(cfg: Config, s: State, step: Step)
    requires Sound(cfg) && Inv(cfg, s) && Enabled(cfg, s, step) && Timely(cfg, s, step)
    ensures JobsInv(cfg, Apply(cfg, s, step))
  {
    if step.Claim? {
      ClaimsTakePending(cfg, s, step.id);
    }
    var t := Apply(cfg, s, step);
    forall a | a in t.jobs
      ensures a < t.nextJob && OwnsRow(t, a) && t.now - t.jobs[a].claimedAt < cfg.ttl
    {
      if a in s.jobs {
        assert OwnsRow(s, a);
      }
    }
  }

  lemma StepKeepsRows(cfg: Config, s: State, step: Step)
    requires Sound(cfg) && Inv(cfg, s) && Enabled(cfg, s, step) && Timely(cfg, s, step)
    ensures RowsInv(cfg, Apply(cfg, s, step))
  {
    if step.Claim? {
      ClaimsTakePending(cfg, s, step.id);
    }
    var t := Apply(cfg, s, step);
    forall id | id in t.queue
      ensures WithinBound(cfg, t.queue[id])
      ensures t.queue[id].status == Claimed ==> exists a :: a in t.jobs && t.jobs[a].id == id
    {
      if id in s.queue && s.queue[id].status == Claimed {
        var a :| a in s.jobs && s.jobs[a].id == id;
        assert OwnsRow(s, a);
        assert a in t.jobs ==> t.jobs[a].id == id;
      }
      if step.Claim? {
        assert s.nextJob in t.jobs;
      }
      if step.Fail? {
        assert OwnsRow(s, step.job);
      }
    }
  }

  /** Every reachable state of a timely run: pending rows below the bound, claimed rows within it, one worker a row. */
  lemma {:induction false} RunKeepsInv(cfg: Config, states: seq<State>, steps: seq<Step>, i: nat)
    requires Sound(cfg) && TimelyRun(cfg, states, steps) && Inv(cfg, states[0]) && i < |states|
    ensures Inv(cfg, states[i])
  {
    if i > 0 {
      RunKeepsInv(cfg, states, steps, i - 1);
      StepKeepsMarks(cfg, states[i - 1], steps[i - 1]);
      StepKeepsJobs(cfg, states[i - 1], steps[i - 1]);
      StepKeepsRows(cfg, states[i - 1], steps[i - 1]);
    }
  }

  lemma EmptyIsInv(cfg: Config, s: State)
    requires Empty(s)
    ensures Inv(cfg, s)
  {
  }

  // ---- Attempts per file, whatever the workers do ---------------------------------------------

  /** The step puts the row of `id` back to its first attempt. */
  predicate Resets(s: State, step: Step, id: int) {
    step.RequeueStale? && id in s.queue && Stale(s, id)
  }

  ghost predicate NeverReset(states: seq<State>, steps: seq<Step>, id: int)
    requires |states| == |steps| + 1
  {
    forall i :: 0 <= i < |steps| ==> !Resets(states[i], steps[i], id)
  }

  /** The step claims a row of `id` that is still claimed: its claim has expired, or its worker is gone. */
  predicate Reclaims(s: State, step: Step, id: int) {
    step == Claim(id) && id in s.queue && s.queue[id].status == Claimed
  }

  /** The step counts against `id` for nothing: it reclaims, or fails an attempt that is not the row's current one. */
  predicate Overrun(s: State, step: Step, id: int) {
    || Reclaims(s, step, id)
    || (step.Fail? && step.job in s.jobs && s.jobs[step.job].id == id && id in s.queue
        && s.jobs[step.job].attempts != s.queue[id].attempts)
  }

  function Overruns(states: seq<State>, steps: seq<Step>, id: int): nat
    requires |states| == |steps| + 1
  {
    if steps == [] then 0
    else
      var n := |steps| - 1;
      Overruns(states[..n + 1], steps[..n], id) + if Overrun(states[n], steps[n], id) then 1 else 0
  }

  function Claims(steps: seq<Step>, id: int): nat {
    if steps == [] then 0
    else Claims(steps[..|steps| - 1], id) + if steps[|steps| - 1] == Claim(id) then 1 else 0
  }

  function AttemptsOf(s: State, id: int): int {
    if id in s.queue then s.queue[id].attempts else 0
  }

  /** `id` may still be given its first row. */
  predicate Unborn(s: State, id: int) {
    id !in s.queue && (id in s.files || id >= s.nextId)
  }

  /** The row of `id`, if it has one, is within the limit, give or take `slack`; strictly below it while pending. */
  predicate RowWithin(cfg: Config, s: State, id: int, slack: nat) {
    id in s.queue ==>
      && s.queue[id].attempts <= cfg.maxAttempts + slack
      && (s.queue[id].status == Pending ==> s.queue[id].attempts < cfg.maxAttempts + slack)
  }

  lemma RunPrefix(cfg: Config, states: seq<State>, steps: seq<Step>)
    requires IsRun(cfg, states, steps) && |steps| > 0
    ensures IsRun(cfg, states[..|steps|], steps[..|steps| - 1])
  {
  }

  /**
   * In every run that does not reset the row, however many claims are lost, late or expired: a file is claimed as
   * often as its row says, and at most once above the limit for each overrun.
   */
  lemma {:induction false} AttemptsBounded(cfg: Config, states: seq<State>, steps: seq<Step>, id: int)
    requires Sound(cfg) && IsRun(cfg, states, steps) && MarkInv(states[0]) && NeverReset(states, steps, id)
    requires RowWithin(cfg, states[0], id, 0)
    ensures Claims(steps, id) <= cfg.maxAttempts - AttemptsOf(states[0], id) + Overruns(states, steps, id)
    ensures RowWithin(cfg, states[|steps|], id, Overruns(states, steps, id))
    ensures id in states[|steps|].queue ==>
              Claims(steps, id) == AttemptsOf(states[|steps|], id) - AttemptsOf(states[0], id)
    ensures Unborn(states[|steps|], id) ==> Claims(steps, id) == 0 && id !in states[0].queue
    decreases |steps|
  {
    var n := |steps|;
    if n > 0 {
      RunPrefix(cfg, states, steps);
      AttemptsBounded(cfg, states[..n], steps[..n - 1], id);
      RunKeepsMarks(cfg, states, steps, n - 1);
      assert states[..n][n - 1] == states[n - 1];
      assert !Resets(states[n - 1], steps[n - 1], id);
      ClaimIsCounted(cfg, states[n - 1], steps[n - 1], id);
      StaysWithin(cfg, states[n - 1], steps[n - 1], id, Overruns(states[..n], steps[..n - 1], id));
    }
  }

  /** Only a claim of the file changes its count, rows start at zero, and a row that is gone stays gone. */
  lemma ClaimIsCounted(cfg: Config, s: State, step: Step, id: int)
    requires MarkInv(s) && Enabled(cfg, s, step) && !Resets(s, step, id)
    ensures var t := Apply(cfg, s, step);
            && (id in t.queue && id in s.queue ==>
                  t.queue[id].attempts == s.queue[id].attempts + if step == Claim(id) then 1 else 0)
            && (id in t.queue && id !in s.queue ==> t.queue[id].attempts == 0 && Unborn(s, id) && step != Claim(id))
            && (Unborn(t, id) ==> Unborn(s, id) && step != Claim(id))
            && (step == Claim(id) ==> id in t.queue && id in s.queue)
  {
  }

  /** An overrun is the only way to go further above the limit. */
  lemma StaysWithin(cfg: Config, s: State, step: Step, id: int, slack: nat)
    requires Sound(cfg) && MarkInv(s) && Enabled(cfg, s, step) && !Resets(s, step, id) && RowWithin(cfg, s, id, slack)
    ensures RowWithin(cfg, Apply(cfg, s, step), id, if Overrun(s, step, id) then slack + 1 else slack)
  {
  }

  /** The same between any two points of a run. */
  lemma AttemptsBetweenResets(cfg: Config, states: seq<State>, steps: seq<Step>, id: int, i: nat, j: nat)
    requires Sound(cfg) && IsRun(cfg, states, steps) && MarkInv(states[0]) && i <= j <= |steps|
    requires RowWithin(cfg, states[i], id, 0) && forall k :: i <= k < j ==> !Resets(states[k], steps[k], id)
    ensures Claims(steps[i..j], id)
         <= cfg.maxAttempts - AttemptsOf(states[i], id) + Overruns(states[i..j + 1], steps[i..j], id)
  {
    RunKeepsMarks(cfg, states, steps, i);
    AttemptsBounded(cfg, states[i..j + 1], steps[i..j], id);
  }

  // ---- One claim at a time --------------------------------------------------------------------

  /** At most one claim of `id` is open, and it is the one the row records. */
  ghost predicate SoleClaim(s: State, id: int) {
    && HandlesOk(s)
    && (forall a :: a in s.jobs && s.jobs[a].id == id ==> OwnsRow(s, a))
    && (forall a, b :: a in s.jobs && b in s.jobs && s.jobs[a].id == id && s.jobs[b].id == id ==> a == b)
  }

  ghost predicate NeverReclaimed(states: seq<State>, steps: seq<Step>, id: int)
    requires |states| == |steps| + 1
  {
    forall i :: 0 <= i < |steps| ==> !Reclaims(states[i], steps[i], id)
  }

  /** Unless the file is reclaimed, one claim stays one claim, whatever happens to other files. */
  lemma StepKeepsSoleClaim(cfg: Config, s: State, step: Step, id: int)
    requires MarkInv(s) && SoleClaim(s, id) && Enabled(cfg, s, step) && !Reclaims(s, step, id)
    ensures SoleClaim(Apply(cfg, s, step), id) && !Overrun(s, step, id)
  {
    var t := Apply(cfg, s, step);
    forall a | a in t.jobs && t.jobs[a].id == id ensures OwnsRow(t, a) {
      if a in s.jobs {
        assert s.jobs[a].id == id && OwnsRow(s, a);
      }
    }
    if step.Claim? && step.id == id {
      assert forall a :: a in s.jobs && s.jobs[a].id == id ==> OwnsRow(s, a);
    }
  }

  /** Which steps take a row out of done: a requeue that resets it, and the failure of an open claim of its file. */
  lemma LeavesDoneIff(cfg: Config, s: State, step: Step, id: int)
    requires MarkInv(s) && Enabled(cfg, s, step) && id in s.queue && s.queue[id].status == Done
    ensures var t := Apply(cfg, s, step);
            id in t.queue && t.queue[id].status != Done <==>
              Resets(s, step, id) || (step.Fail? && s.jobs[step.job].id == id)
  {
  }

  lemma {:induction false} OneClaimAtATime(cfg: Config, states: seq<State>, steps: seq<Step>, id: int, i: nat)
    requires IsRun(cfg, states, steps) && MarkInv(states[0]) && SoleClaim(states[0], id) && i < |states|
    requires NeverReclaimed(states, steps, id)
    ensures SoleClaim(states[i], id)
  {
    if i > 0 {
      OneClaimAtATime(cfg, states, steps, id, i - 1);
      RunKeepsMarks(cfg, states, steps, i - 1);
      StepKeepsSoleClaim(cfg, states[i - 1], steps[i - 1], id);
    }
  }

  /**
   * In every run in which the file is not reclaimed, whatever becomes of the claims of other files: a row leaves done
   * only by a reset, and nothing overruns.
   */
  lemma DoneStaysDone(cfg: Config, states: seq<State>, steps: seq<Step>, id: int, i: nat)
    requires IsRun(cfg, states, steps) && MarkInv(states[0]) && SoleClaim(states[0], id) && i < |steps|
    requires NeverReclaimed(states, steps, id) && id in states[i].queue && states[i].queue[id].status == Done
    ensures id in states[i + 1].queue && states[i + 1].queue[id].status != Done <==> Resets(states[i], steps[i], id)
  {
    OneClaimAtATime(cfg, states, steps, id, i);
    RunKeepsMarks(cfg, states, steps, i);
    LeavesDoneIff(cfg, states[i], steps[i], id);
    assert forall a :: a in states[i].jobs && states[i].jobs[a].id == id ==> OwnsRow(states[i], a);
  }

  lemma {:induction false} NoOverruns(cfg: Config, states: seq<State>, steps: seq<Step>, id: int)
    requires IsRun(cfg, states, steps) && MarkInv(states[0]) && SoleClaim(states[0], id)
    requires NeverReclaimed(states, steps, id)
    ensures Overruns(states, steps, id) == 0
    decreases |steps|
  {
    var n := |steps|;
    if n > 0 {
      RunPrefix(cfg, states, steps);
      NoOverruns(cfg, states[..n], steps[..n - 1], id);
      OneClaimAtATime(cfg, states, steps, id, n - 1);
      RunKeepsMarks(cfg, states, steps, n - 1);
      StepKeepsSoleClaim(cfg, states[n - 1], steps[n - 1], id);
    }
  }

  /** So a file that is not reclaimed is claimed at most `maxAttempts` times between resets. */
  lemma AttemptsWithoutReclaim(cfg: Config, states: seq<State>, steps: seq<Step>, id: int)
    requires Sound(cfg) && IsRun(cfg, states, steps) && MarkInv(states[0]) && NeverReset(states, steps, id)
    requires RowWithin(cfg, states[0], id, 0) && SoleClaim(states[0], id) && NeverReclaimed(states, steps, id)
    ensures Claims(steps, id) <= cfg.maxAttempts - AttemptsOf(states[0], id)
  {
    NoOverruns(cfg, states, steps, id);
    AttemptsBounded(cfg, states, steps, id);
  }

  /** A timely run reclaims nothing, so all this holds of it for every file. */
  lemma TimelyNeverReclaims(cfg: Config, states: seq<State>, steps: seq<Step>, id: int)
    requires Sound(cfg) && TimelyRun(cfg, states, steps) && Inv(cfg, states[0])
    ensures NeverReclaimed(states, steps, id) && SoleClaim(states[0], id) && RowWithin(cfg, states[0], id, 0)
  {
    forall i | 0 <= i < |steps| ensures !Reclaims(states[i], steps[i], id) {
      RunKeepsInv(cfg, states, steps, i);
      if steps[i] == Claim(id) {
        ClaimsTakePending(cfg, states[i], id);
      }
    }
    assert forall a :: a in states[0].jobs ==> OwnsRow(states[0], a);
    assert id in states[0].queue ==> WithinBound(cfg, states[0].queue[id]);
  }

  /** From the empty tables on, a timely run claims a file at most `maxAttempts` times between resets. */
  lemma TimelyAttempts(cfg: Config, states: seq<State>, steps: seq<Step>, id: int, i: nat, j: nat)
    requires Sound(cfg) && TimelyRun(cfg, states, steps) && Empty(states[0]) && i <= j <= |steps|
    requires forall k :: i <= k < j ==> !Resets(states[k], steps[k], id)
    ensures Claims(steps[i..j], id) <= cfg.maxAttempts - AttemptsOf(states[i], id)
  {
    EmptyIsInv(cfg, states[0]);
    RunKeepsInv(cfg, states, steps, i);
    TimelyNeverReclaims(cfg, states[i..j + 1], steps[i..j], id);
    AttemptsWithoutReclaim(cfg, states[i..j + 1], steps[i..j], id);
  }

  // ---- Retries, one after the other -----------------------------------------------------------

  /** What a worker promises about failures of `id`: the next attempt is at least `wait` of this one after its claim. */
  ghost predicate FailsAfter(states: seq<State>, steps: seq<Step>, id: int, wait: int -> int)
    requires |states| == |steps| + 1
  {
    forall i :: 0 <= i < |steps| ==> FailureWaits(states[i], steps[i], id, wait)
  }

  predicate FailureWaits(s: State, step: Step, id: int, wait: int -> int) {
    step.Fail? && step.job in s.jobs && s.jobs[step.job].id == id ==>
      step.nextAttemptAt >= s.jobs[step.job].claimedAt + wait(s.jobs[step.job].attempts)
  }

  /** Since its `a`-th claim, at `t0`: still claimed, or pending for no earlier than its wait, or at rest, or gone. */
  ghost predicate Spaced(s: State, id: int, t0: int, a: int, wait: int -> int) {
    && SoleClaim(s, id)
    && if id !in s.queue then id !in s.files && id < s.nextId
       else
         && s.queue[id].attempts == a
         && (s.queue[id].status == Claimed ==> s.queue[id].claimedAt == Some(t0))
         && (s.queue[id].status == Pending ==> s.queue[id].nextAttemptAt >= t0 + wait(a))
  }

  lemma StaysSpaced(cfg: Config, s: State, step: Step, id: int, t0: int, a: int, wait: int -> int)
    requires MarkInv(s) && Enabled(cfg, s, step) && Spaced(s, id, t0, a, wait)
    requires step != Claim(id) && !Resets(s, step, id) && FailureWaits(s, step, id, wait)
    ensures Spaced(Apply(cfg, s, step), id, t0, a, wait)
  {
    StepKeepsSoleClaim(cfg, s, step, id);
    assert forall b :: b in s.jobs && s.jobs[b].id == id ==> OwnsRow(s, b);
  }

  lemma StartsSpaced(cfg: Config, s: State, t: State, id: int, wait: int -> int)
    requires Enabled(cfg, s, Claim(id)) && t == Apply(cfg, s, Claim(id)) && SoleClaim(t, id)
    ensures Spaced(t, id, s.now, AttemptsOf(s, id) + 1, wait)
  {
  }

  lemma {:induction false} ClaimIsSpaced(cfg: Config, states: seq<State>, steps: seq<Step>, id: int, i: nat, j: nat,
      wait: int -> int)
    requires IsRun(cfg, states, steps) && MarkInv(states[0]) && SoleClaim(states[0], id) && i < j <= |steps|
    requires NeverReset(states, steps, id) && NeverReclaimed(states, steps, id) && FailsAfter(states, steps, id, wait)
    requires steps[i] == Claim(id) && forall k :: i < k < j ==> steps[k] != Claim(id)
    ensures Spaced(states[j], id, states[i].now, AttemptsOf(states[i], id) + 1, wait)
    decreases j
  {
    if j == i + 1 {
      OneClaimAtATime(cfg, states, steps, id, j);
      StartsSpaced(cfg, states[i], states[j], id, wait);
    } else {
      ClaimIsSpaced(cfg, states, steps, id, i, j - 1, wait);
      RunKeepsMarks(cfg, states, steps, j - 1);
      assert !Resets(states[j - 1], steps[j - 1], id) && FailureWaits(states[j - 1], steps[j - 1], id, wait);
      StaysSpaced(cfg, states[j - 1], steps[j - 1], id, states[i].now, AttemptsOf(states[i], id) + 1, wait);
    }
  }

  /** Two claims in a row, with neither a reset nor a reclaim: the later has waited for the backoff of the earlier. */
  lemma ClaimsWait(cfg: Config, states: seq<State>, steps: seq<Step>, id: int, i: nat, j: nat, wait: int -> int)
    requires IsRun(cfg, states, steps) && MarkInv(states[0]) && SoleClaim(states[0], id) && i < j < |steps|
    requires NeverReset(states, steps, id) && NeverReclaimed(states, steps, id) && FailsAfter(states, steps, id, wait)
    requires steps[i] == Claim(id) && steps[j] == Claim(id) && forall k :: i < k < j ==> steps[k] != Claim(id)
    ensures states[j].now >= states[i].now + wait(AttemptsOf(states[i], id) + 1)
  {
    ClaimIsSpaced(cfg, states, steps, id, i, j, wait);
    assert !Reclaims(states[j], steps[j], id);
  }

  /** The step completes an attempt of `id`. */
  predicate Completes(s: State, step: Step, id: int) {
    step.Complete? && step.job in s.jobs && s.jobs[step.job].id == id
  }

  /** Not done, and parked as an error only after the last attempt. */
  predicate OnlyExhausted(cfg: Config, s: State, id: int) {
    id in s.queue ==>
      s.queue[id].status != Done && (s.queue[id].status == Error ==> s.queue[id].attempts >= cfg.maxAttempts)
  }

  lemma StaysOnlyExhausted(cfg: Config, s: State, step: Step, id: int)
    requires MarkInv(s) && SoleClaim(s, id) && Enabled(cfg, s, step) && OnlyExhausted(cfg, s, id)
    requires !Completes(s, step, id)
    ensures OnlyExhausted(cfg, Apply(cfg, s, step), id)
  {
    assert forall a :: a in s.jobs && s.jobs[a].id == id ==> OwnsRow(s, a);
  }

  /**
   * When every attempt fails, with neither a reset nor a reclaim, the file stays pending or claimed until it has been
   * claimed exactly as often as the limit allows; only then is it parked.
   */
  lemma FailsExactly(cfg: Config, states: seq<State>, steps: seq<Step>, id: int)
    requires Sound(cfg) && IsRun(cfg, states, steps) && MarkInv(states[0]) && NeverReset(states, steps, id)
    requires RowWithin(cfg, states[0], id, 0) && SoleClaim(states[0], id) && NeverReclaimed(states, steps, id)
    requires OnlyExhausted(cfg, states[0], id)
    requires forall k :: 0 <= k < |steps| ==> !Completes(states[k], steps[k], id)
    ensures OnlyExhausted(cfg, states[|steps|], id)
    ensures id in states[|steps|].queue ==>
              || states[|steps|].queue[id].status in {Pending, Claimed}
              || Claims(steps, id) == cfg.maxAttempts - AttemptsOf(states[0], id)
  {
    StayOnlyExhausted(cfg, states, steps, id, |steps|);
    NoOverruns(cfg, states, steps, id);
    AttemptsBounded(cfg, states, steps, id);
  }

  lemma {:induction false} StayOnlyExhausted(cfg: Config, states: seq<State>, steps: seq<Step>, id: int, i: nat)
    requires IsRun(cfg, states, steps) && MarkInv(states[0]) && SoleClaim(states[0], id) && i <= |steps|
    requires NeverReclaimed(states, steps, id) && OnlyExhausted(cfg, states[0], id)
    requires forall k :: 0 <= k < |steps| ==> !Completes(states[k], steps[k], id)
    ensures OnlyExhausted(cfg, states[i], id)
  {
    if i > 0 {
      StayOnlyExhausted(cfg, states, steps, id, i - 1);
      OneClaimAtATime(cfg, states, steps, id, i - 1);
      RunKeepsMarks(cfg, states, steps, i - 1);
      StaysOnlyExhausted(cfg, states[i - 1], steps[i - 1], id);
    }
  }

  /** The state after the `n`-th claim of the only file, at time `now`. */
  predicate InAttempt(s: State, n: int) {
    && s.files == map[1 := 10] && s.queue.Keys == {1} && s.queue[1].status == Claimed && s.queue[1].attempts == n
    && s.queue[1].claimedAt == Some(s.now) && s.queue[1].mark == None
    && s.nextJob > 1 && s.jobs == map[s.nextJob - 1 := Job(1, n, s.now, None)]
  }

  lemma ExtendOnTime(cfg: Config, states: seq<State>, steps: seq<Step>, step: Step)
    returns (longer: seq<State>, more: seq<Step>)
    requires TimelyRun(cfg, states, steps) && Enabled(cfg, states[|steps|], step)
    requires Timely(cfg, states[|steps|], step)
    ensures TimelyRun(cfg, longer, more) && longer == states + [Apply(cfg, states[|steps|], step)]
    ensures more == steps + [step] && longer[0] == states[0]
    ensures Claims(more, 1) == Claims(steps, 1) + if step == Claim(1) then 1 else 0
  {
    longer, more := states + [Apply(cfg, states[|steps|], step)], steps + [step];
    ClaimsMore(steps, step, 1);
  }

  lemma ClaimsMore(steps: seq<Step>, step: Step, id: int)
    ensures Claims(steps + [step], id) == Claims(steps, id) + if step == Claim(id) then 1 else 0
  {
    assert (steps + [step])[..|steps|] == steps;
  }

  /** Fail, wait for the backoff, claim again. */
  lemma NextAttempt(cfg: Config, states: seq<State>, steps: seq<Step>, n: int, wait: nat)
    returns (longer: seq<State>, more: seq<Step>)
    requires TimelyRun(cfg, states, steps) && InAttempt(states[|steps|], n) && n < cfg.maxAttempts
    ensures TimelyRun(cfg, longer, more) && InAttempt(longer[|more|], n + 1) && longer[0] == states[0]
    ensures Claims(more, 1) == Claims(steps, 1) + 1
  {
    var s := states[|steps|];
    var h := s.nextJob - 1;
    longer, more := ExtendOnTime(cfg, states, steps, Fail(h, s.now + wait));
    assert longer[|more|].jobs == map[];
    longer, more := ExtendOnTime(cfg, longer, more, Tick(wait));
    longer, more := ExtendOnTime(cfg, longer, more, Claim(1));
    assert longer[|more|].jobs == map[s.nextJob := Job(1, n + 1, longer[|more|].now, None)];
  }

  lemma {:induction false} ReachAttempt(cfg: Config, n: int, wait: int -> nat)
    returns (states: seq<State>, steps: seq<Step>)
    requires Sound(cfg) && 1 <= n <= cfg.maxAttempts
    ensures TimelyRun(cfg, states, steps) && Empty(states[0])
    ensures InAttempt(states[|steps|], n) && Claims(steps, 1) == n
    decreases n
  {
    if n == 1 {
      states, steps := RunToClaim(cfg);
      ClaimsMore([], AddFile(10), 1);
      ClaimsMore([AddFile(10)], SeedNew, 1);
      ClaimsMore([AddFile(10), SeedNew], Claim(1), 1);
      assert steps == [] + [AddFile(10)] + [SeedNew] + [Claim(1)];
    } else {
      states, steps := ReachAttempt(cfg, n - 1, wait);
      states, steps := NextAttempt(cfg, states, steps, n - 1, wait(n - 1));
    }
  }

  /** And the limit is reached: from the empty tables, a file whose every attempt fails can be claimed that often. */
  lemma LimitIsReached(cfg: Config, wait: int -> nat) returns (states: seq<State>, steps: seq<Step>)
    requires Sound(cfg)
    ensures TimelyRun(cfg, states, steps) && Empty(states[0]) && Claims(steps, 1) == cfg.maxAttempts
    ensures 1 in states[|steps|].queue && states[|steps|].queue[1].status == Error
  {
    states, steps := ReachAttempt(cfg, cfg.maxAttempts, wait);
    states, steps := ExtendOnTime(cfg, states, steps, Fail(states[|steps|].nextJob - 1, 0));
  }

  // ---- Drain ----------------------------------------------------------------------------------

  /** What is still to be done about a row: a claim and a report for every attempt left. */
  function Left(cfg: Config, q: Row): nat {
    if q.attempts > cfg.maxAttempts then 0
    else if q.status == Pending then 2 * (cfg.maxAttempts - q.attempts)
    else if q.status == Claimed then 2 * (cfg.maxAttempts - q.attempts) + 1
    else 0
  }

  ghost function LeftOf(cfg: Config, s: State): map<int, nat> {
    map id | id in s.queue :: Left(cfg, s.queue[id])
  }

  ghost function Work(cfg: Config, s: State): nat {
    Total(LeftOf(cfg, s))
  }

  /** The step claims a row or reports about one. */
  predicate Works(s: State, step: Step) {
    step.Claim? || ((step.Complete? || step.Fail?) && step.job in s.jobs && s.jobs[step.job].id in s.queue)
  }

  /** The rows a step creates or resets. */
  ghost function NewWork(s: State, step: Step): set<int> {
    match step
    case SeedNew => s.files.Keys - s.queue.Keys
    case RequeueStale => set id | id in s.queue && Stale(s, id)
    case _ => {}
  }

  /** A claim and a report reduce the work; only a created or reset row adds to it, and not more than its attempts. */
  lemma StepReducesWork(cfg: Config, s: State, step: Step)
    requires Sound(cfg) && Inv(cfg, s) && Enabled(cfg, s, step) && Timely(cfg, s, step)
    ensures Work(cfg, Apply(cfg, s, step)) <= Work(cfg, s) + 2 * cfg.maxAttempts * |NewWork(s, step)|
    ensures Works(s, step) ==> Work(cfg, Apply(cfg, s, step)) < Work(cfg, s) && NewWork(s, step) == {}
  {
    var t := Apply(cfg, s, step);
    if step.SeedNew? || step.RequeueStale? {
      TotalGrows(LeftOf(cfg, t), LeftOf(cfg, s), NewWork(s, step), 2 * cfg.maxAttempts);
    } else {
      WorkStep(cfg, s, step);
    }
  }

  lemma WorkStep(cfg: Config, s: State, step: Step)
    requires Sound(cfg) && Inv(cfg, s) && Enabled(cfg, s, step) && Timely(cfg, s, step)
    requires !step.SeedNew? && !step.RequeueStale?
    ensures Work(cfg, Apply(cfg, s, step)) <= Work(cfg, s)
    ensures Works(s, step) ==> Work(cfg, Apply(cfg, s, step)) < Work(cfg, s)
  {
    var t := Apply(cfg, s, step);
    StepKeepsRows(cfg, s, step);
    assert forall a :: a in s.jobs ==> OwnsRow(s, a);
    assert forall id :: id in s.queue ==> WithinBound(cfg, s.queue[id]);
    if step.Claim? {
      ClaimsTakePending(cfg, s, step.id);
    }
    if Works(s, step) {
      var id := if step.Claim? then step.id else s.jobs[step.job].id;
      assert id in LeftOf(cfg, t) && LeftOf(cfg, t)[id] < LeftOf(cfg, s)[id];
    }
    TotalBelow(LeftOf(cfg, t), LeftOf(cfg, s));
  }

  ghost function WorkSteps(states: seq<State>, steps: seq<Step>): nat
    requires |states| == |steps| + 1
  {
    if steps == [] then 0
    else WorkSteps(states[..|steps|], steps[..|steps| - 1]) +
         if Works(states[|steps| - 1], steps[|steps| - 1]) then 1 else 0
  }

  /** How many rows a run created or reset. */
  ghost function Renewals(states: seq<State>, steps: seq<Step>): nat
    requires |states| == |steps| + 1
  {
    if steps == [] then 0
    else Renewals(states[..|steps|], steps[..|steps| - 1]) + |NewWork(states[|steps| - 1], steps[|steps| - 1])|
  }

  /** The work those rows may add: a claim and a report for each of their attempts. */
  ghost function Granted(cfg: Config, states: seq<State>, steps: seq<Step>): int
    requires |states| == |steps| + 1
  {
    if steps == [] then 0
    else Granted(cfg, states[..|steps|], steps[..|steps| - 1]) +
         2 * cfg.maxAttempts * |NewWork(states[|steps| - 1], steps[|steps| - 1])|
  }

  lemma {:induction false} GrantedPerRow(cfg: Config, states: seq<State>, steps: seq<Step>)
    requires |states| == |steps| + 1
    ensures Granted(cfg, states, steps) == 2 * cfg.maxAttempts * Renewals(states, steps)
    decreases |steps|
  {
    if steps != [] {
      var n := |steps|;
      GrantedPerRow(cfg, states[..n], steps[..n - 1]);
      Distributes(2 * cfg.maxAttempts, Renewals(states[..n], steps[..n - 1]), |NewWork(states[n - 1], steps[n - 1])|);
    }
  }

  lemma Distributes(c: int, a: int, b: int)
    ensures c * (a + b) == c * a + c * b
  {
  }

  lemma {:induction false} LedgerBalances(cfg: Config, states: seq<State>, steps: seq<Step>)
    requires Sound(cfg) && TimelyRun(cfg, states, steps) && Inv(cfg, states[0])
    ensures WorkSteps(states, steps) + Work(cfg, states[|steps|]) <= Work(cfg, states[0]) + Granted(cfg, states, steps)
    decreases |steps|
  {
    var n := |steps|;
    if n > 0 {
      assert TimelyRun(cfg, states[..n], steps[..n - 1]);
      LedgerBalances(cfg, states[..n], steps[..n - 1]);
      RunKeepsInv(cfg, states, steps, n - 1);
      StepReducesWork(cfg, states[n - 1], steps[n - 1]);
      assert states[..n][n - 1] == states[n - 1];
    }
  }

  /**
   * However the workers interleave, every claim and report is paid for by the work there was at the start
   * or by a row created or reset since; a seed that finds nothing new costs nothing.
   */
  lemma RunsDrain(cfg: Config, states: seq<State>, steps: seq<Step>)
    requires Sound(cfg) && TimelyRun(cfg, states, steps) && Inv(cfg, states[0])
    ensures WorkSteps(states, steps) + Work(cfg, states[|steps|])
         <= Work(cfg, states[0]) + 2 * cfg.maxAttempts * Renewals(states, steps)
  {
    LedgerBalances(cfg, states, steps);
    GrantedPerRow(cfg, states, steps);
  }

  /** Nothing left means every row is done or parked as an error, and conversely. */
  lemma DrainedIff(cfg: Config, s: State)
    requires Sound(cfg) && Inv(cfg, s)
    ensures Work(cfg, s) == 0 <==> forall id :: id in s.queue ==> s.queue[id].status in {Done, Error}
  {
    var m := LeftOf(cfg, s);
    if id :| id in s.queue && s.queue[id].status !in {Done, Error} {
      assert WithinBound(cfg, s.queue[id]);
      TotalRemove(m, id);
    } else {
      TotalZero(m);
    }
  }

  /** Nothing but the clock, claims and failures. */
  predicate OnlyWork(steps: seq<Step>) {
    forall i :: 0 <= i < |steps| ==> steps[i].Tick? || steps[i].Claim? || steps[i].Fail?
  }

  /** From every reachable state the workers can drain the queue, even if every attempt from here on fails. */
  lemma {:induction false} CanDrain(cfg: Config, states: seq<State>, steps: seq<Step>)
    returns (longer: seq<State>, more: seq<Step>)
    requires Sound(cfg) && TimelyRun(cfg, states, steps) && Inv(cfg, states[0])
    ensures TimelyRun(cfg, longer, more) && steps <= more && states <= longer && OnlyWork(more[|steps|..])
    ensures Work(cfg, longer[|more|]) == 0 && forall a :: a !in longer[|more|].jobs
    decreases Work(cfg, states[|steps|]), |states[|steps|].jobs|
  {
    var s := states[|steps|];
    RunKeepsInv(cfg, states, steps, |steps|);
    longer, more := states, steps;
    if a :| a in s.jobs {
      var s1, t1 := ReportOne(cfg, states, steps, a);
      longer, more := CanDrain(cfg, s1, t1);
      assert more[|steps|..] == t1[|steps|..] + more[|t1|..];
    } else if id :| id in s.queue && s.queue[id].status == Pending {
      var s1, t1 := ClaimOne(cfg, states, steps, id);
      longer, more := CanDrain(cfg, s1, t1);
      assert more[|steps|..] == t1[|steps|..] + more[|t1|..];
    } else {
      DrainedIff(cfg, s);
    }
  }

  lemma ReportOne(cfg: Config, states: seq<State>, steps: seq<Step>, a: int)
    returns (longer: seq<State>, more: seq<Step>)
    requires Sound(cfg) && TimelyRun(cfg, states, steps) && Inv(cfg, states[0]) && a in states[|steps|].jobs
    ensures TimelyRun(cfg, longer, more) && steps <= more && states <= longer && longer[0] == states[0]
    ensures OnlyWork(more[|steps|..])
    ensures Work(cfg, longer[|more|]) <= Work(cfg, states[|steps|]) && |longer[|more|].jobs| < |states[|steps|].jobs|
  {
    var s := states[|steps|];
    longer, more := ExtendTimely(cfg, states, steps, Fail(a, s.now));
    assert longer[|more|].jobs == s.jobs - {a} && (s.jobs - {a}).Keys == s.jobs.Keys - {a};
  }

  /** Waits for the retry delay, if any, and claims; with no claim open, waiting is timely. */
  lemma ClaimOne(cfg: Config, states: seq<State>, steps: seq<Step>, id: int)
    returns (longer: seq<State>, more: seq<Step>)
    requires Sound(cfg) && TimelyRun(cfg, states, steps) && Inv(cfg, states[0])
    requires var s := states[|steps|]; id in s.queue && s.queue[id].status == Pending && forall a :: a !in s.jobs
    ensures TimelyRun(cfg, longer, more) && steps <= more && states <= longer && longer[0] == states[0]
    ensures OnlyWork(more[|steps|..])
    ensures Work(cfg, longer[|more|]) < Work(cfg, states[|steps|])
  {
    var s := states[|steps|];
    RunKeepsInv(cfg, states, steps, |steps|);
    assert id in s.files;
    var wait := if s.queue[id].nextAttemptAt <= s.now then 0 else s.queue[id].nextAttemptAt - s.now;
    longer, more := ExtendTimely(cfg, states, steps, Tick(wait));
    longer, more := ExtendTimely(cfg, longer, more, Claim(id));
  }

  lemma ExtendTimely(cfg: Config, states: seq<State>, steps: seq<Step>, step: Step)
    returns (longer: seq<State>, more: seq<Step>)
    requires Sound(cfg) && TimelyRun(cfg, states, steps) && Inv(cfg, states[0])
    requires var s := states[|steps|]; Enabled(cfg, s, step) && Timely(cfg, s, step) && NewWork(s, step) == {}
    ensures TimelyRun(cfg, longer, more) && longer == states + [Apply(cfg, states[|steps|], step)]
    ensures more == steps + [step]
    ensures var s, t := states[|steps|], longer[|more|];
            Work(cfg, t) <= Work(cfg, s) && (Works(s, step) ==> Work(cfg, t) < Work(cfg, s))
  {
    var s := states[|steps|];
    RunKeepsInv(cfg, states, steps, |steps|);
    StepReducesWork(cfg, s, step);
    longer, more := states + [Apply(cfg, s, step)], steps + [step];
  }

  // ---- Lost and late outcomes -----------------------------------------------------------------

  /** With claims left to expire there is no bound: any number of claims of one file, no requeue. */
  lemma {:induction false} ExpiredClaimsAreUnbounded(cfg: Config, n: nat) returns (states: seq<State>, steps: seq<Step>)
    requires Sound(cfg)
    ensures IsRun(cfg, states, steps) && Empty(states[0])
    ensures var t := states[|steps|];
            1 in t.files && 1 in t.queue && t.queue[1].status == Claimed && t.queue[1].attempts == n + 1
            && t.queue[1].claimedAt == Some(t.now)
  {
    if n == 0 {
      states, steps := RunToClaim(cfg);
    } else {
      states, steps := ExpiredClaimsAreUnbounded(cfg, n - 1);
      var s := states[|steps|];
      var t := s.(now := s.now + cfg.ttl);
      states, steps := Extend(cfg, states, steps, Tick(cfg.ttl), t);
      states, steps := Extend(cfg, states, steps, Claim(1), Apply(cfg, t, Claim(1)));
    }
  }

  /** A worker that reports a failure after its claim expired takes a finished row out of `done`. */
  lemma LateFailUndoesDone(cfg: Config) returns (states: seq<State>, steps: seq<Step>)
    requires Sound(cfg)
    ensures IsRun(cfg, states, steps) && Empty(states[0]) && |steps| > 0
    ensures var s, t := states[|steps| - 1], states[|steps|];
            && steps[|steps| - 1].Fail? && 1 in s.queue && s.queue[1].status == Done
            && 1 in t.queue && 1 in t.files && t.queue[1].status != Done && t.queue[1].mark == Some(t.files[1])
  {
    states, steps := RunToClaim(cfg);
    var s := states[|steps|];
    var s1 := s.(now := cfg.ttl);
    states, steps := Extend(cfg, states, steps, Tick(cfg.ttl), s1);
    var s2 := Apply(cfg, s1, Claim(1));
    states, steps := Extend(cfg, states, steps, Claim(1), s2);
    var s3 := Apply(cfg, s2, Read(2));
    states, steps := Extend(cfg, states, steps, Read(2), s3);
    var s4 := Apply(cfg, s3, Complete(2));
    states, steps := Extend(cfg, states, steps, Complete(2), s4);
    states, steps := Extend(cfg, states, steps, Fail(1, 0), Apply(cfg, s4, Fail(1, 0)));
  }
}
