/**
 * The index queue of one index type as a state machine over the files it indexes. Any number of
 * workers claim, process and report; a worker may be slow, stale or gone. One step is one statement.
 */
module IndexQueue {
  import opened Common

  datatype Status = Pending | Claimed | Done | Error

  datatype Row = Row(status: Status, attempts: int, nextAttemptAt: int, claimedAt: Option<int>, mark: Option<int>)

  /** A claim in a worker's hands; `read` is the mark that was current when it read the object. */
  datatype Job = Job(id: int, attempts: int, claimedAt: int, read: Option<int>)

  /** `files` maps ids to `marked_at`, `results` maps ids to the mark their stored result was read at. */
  datatype State = State(
    files: map<int, int>, queue: map<int, Row>, results: map<int, int>,
    jobs: map<int, Job>, now: int, nextId: int, nextJob: int)

  datatype Config = Config(maxAttempts: int, ttl: int)

  datatype Step =
    | Tick(dt: nat)
    | AddFile(mark: int)
    | MarkFile(id: int, mark: int)
    | DeleteFile(id: int)
    | SeedNew
    | RequeueStale
    | Claim(id: int)
    | Read(job: int)
    | Complete(job: int)
    | Fail(job: int, nextAttemptAt: int)
    | Drop(job: int)

  function NewRow(now: int): Row {
    Row(Pending, 0, now, None, None)
  }

  predicate Stale(s: State, id: int)
    requires id in s.queue
  {
    var q := s.queue[id];
    id in s.files && q.status in {Done, Pending} && q.mark.Some? && q.mark.value < s.files[id]
  }

  predicate Claimable(cfg: Config, s: State, id: int) {
    && id in s.queue && id in s.files
    && ((s.queue[id].status == Pending && s.queue[id].nextAttemptAt <= s.now)
        || (s.queue[id].status == Claimed && s.queue[id].claimedAt.Some? &&
            s.now - s.queue[id].claimedAt.value >= cfg.ttl))
  }

  predicate Enabled(cfg: Config, s: State, step: Step) {
    match step
    case Tick(_) => true
    case AddFile(_) => true
    case MarkFile(id, _) => id in s.files
    case DeleteFile(id) => id in s.files
    case SeedNew => true
    case RequeueStale => true
    case Claim(id) => Claimable(cfg, s, id)
    case Read(job) => job in s.jobs && s.jobs[job].id in s.files
    case Complete(job) => job in s.jobs && s.jobs[job].read.Some?
    case Fail(job, _) => job in s.jobs
    case Drop(job) => job in s.jobs
  }

  function Apply(cfg: Config, s: State, step: Step): State
    requires Enabled(cfg, s, step)
  {
    match step
    case Tick(dt) => s.(now := s.now + dt)
    case AddFile(mark) => s.(files := s.files[s.nextId := mark], nextId := s.nextId + 1)
    case MarkFile(id, mark) => s.(files := s.files[id := Max(s.files[id], mark)])
    case DeleteFile(id) => s.(files := s.files - {id}, queue := s.queue - {id}, results := s.results - {id})
    case SeedNew =>
      s.(queue := map id | id in s.queue.Keys + s.files.Keys :: if id in s.queue then s.queue[id] else NewRow(s.now))
    case RequeueStale =>
      s.(queue := map id | id in s.queue ::
           if Stale(s, id) then s.queue[id].(status := Pending, attempts := 0, nextAttemptAt := s.now, mark := None)
           else s.queue[id])
    case Claim(id) =>
      var q := s.queue[id];
      s.(queue := s.queue[id := q.(status := Claimed, attempts := q.attempts + 1, claimedAt := Some(s.now))],
         jobs := s.jobs[s.nextJob := Job(id, q.attempts + 1, s.now, None)], nextJob := s.nextJob + 1)
    case Read(job) =>
      s.(jobs := s.jobs[job := s.jobs[job].(read := Some(s.files[s.jobs[job].id]))])
    case Complete(job) =>
      var j := s.jobs[job];
      var t := s.(jobs := s.jobs - {job});
      if j.id in s.queue && j.id in s.files then
        t.(queue := s.queue[j.id := s.queue[j.id].(status := Done, mark := Some(s.files[j.id]))],
           results := s.results[j.id := j.read.value])
      else t
    case Fail(job, next) =>
      var j := s.jobs[job];
      var t := s.(jobs := s.jobs - {job});
      if j.id in s.queue then
        var status := if j.attempts >= cfg.maxAttempts then Error else Pending;
        t.(queue := s.queue[j.id := s.queue[j.id].(status := status, nextAttemptAt := next)])
      else t
    case Drop(job) => s.(jobs := s.jobs - {job})
  }

  ghost predicate IsRun(cfg: Config, states: seq<State>, steps: seq<Step>) {
    && |states| == |steps| + 1
    && forall i :: 0 <= i < |steps| ==>
         Enabled(cfg, states[i], steps[i]) && states[i + 1] == Apply(cfg, states[i], steps[i])
  }

  ghost predicate Empty(s: State) {
    s.files == map[] && s.queue == map[] && s.results == map[] && s.jobs == map[] && s.nextId == 1
  }

  /** Handles count up. */
  ghost predicate HandlesOk(s: State) {
    forall a :: a in s.jobs ==> a < s.nextJob
  }

  // ---- Freshness ------------------------------------------------------------------------------

  /** A mark never runs ahead of the file, a done row has both a mark and a result, and no result outlives its file. */
  ghost predicate MarkInv(s: State) {
    && (forall id :: id in s.files ==> 0 < id < s.nextId)
    && s.queue.Keys <= s.files.Keys && s.results.Keys <= s.files.Keys && s.nextId > 0
    && (forall id :: id in s.queue && s.queue[id].mark.Some? ==>
            s.queue[id].mark.value <= s.files[id] && id in s.results)
    && (forall id :: id in s.queue && s.queue[id].status == Done ==> s.queue[id].mark.Some?)
  }

  lemma StepKeepsMarks(cfg: Config, s: State, step: Step)
    requires MarkInv(s) && Enabled(cfg, s, step)
    ensures MarkInv(Apply(cfg, s, step))
  {
  }

  lemma {:induction false} RunKeepsMarks(cfg: Config, states: seq<State>, steps: seq<Step>, i: nat)
    requires IsRun(cfg, states, steps) && MarkInv(states[0]) && i < |states|
    ensures MarkInv(states[i])
  {
    if i > 0 {
      RunKeepsMarks(cfg, states, steps, i - 1);
      StepKeepsMarks(cfg, states[i - 1], steps[i - 1]);
    }
  }

  /** A file that has a row keeps it for as long as the file exists. */
  lemma {:induction false} RowsStay(cfg: Config, states: seq<State>, steps: seq<Step>, i: nat, j: nat, id: int)
    requires IsRun(cfg, states, steps) && i <= j < |states| && MarkInv(states[i]) && id in states[i].queue
    ensures MarkInv(states[j]) && id < states[j].nextId && (id in states[j].files ==> id in states[j].queue)
  {
    if i < j {
      RowsStay(cfg, states, steps, i, j - 1, id);
      StepKeepsMarks(cfg, states[j - 1], steps[j - 1]);
      RowStays(cfg, states[j - 1], steps[j - 1], id);
    }
  }

  lemma RowStays(cfg: Config, s: State, step: Step, id: int)
    requires Enabled(cfg, s, step) && id < s.nextId && (id in s.files ==> id in s.queue)
    ensures var t := Apply(cfg, s, step); id < t.nextId && (id in t.files ==> id in t.queue)
  {
  }

  lemma SeededStays(cfg: Config, states: seq<State>, steps: seq<Step>, k: nat, n: nat, id: int)
    requires IsRun(cfg, states, steps) && MarkInv(states[0]) && k < n < |states| && steps[k] == SeedNew
    requires id in states[k].files && id in states[n].files
    ensures id in states[n].queue
  {
    RunKeepsMarks(cfg, states, steps, k + 1);
    SeedQueues(cfg, states[k], id);
    RowsStay(cfg, states, steps, k + 1, n, id);
  }

  lemma SeedQueues(cfg: Config, s: State, id: int)
    requires id in s.files
    ensures id in Apply(cfg, s, SeedNew).queue
  {
  }

  lemma LastRequeue(cfg: Config, s: State, step: Step, t: State)
    requires MarkInv(s) && step == RequeueStale && t == Apply(cfg, s, step)
    ensures forall id :: id in t.queue && t.queue[id].status == Done ==>
                id in t.files && t.queue[id].mark == Some(t.files[id])
  {
  }

  /**
   * Right after a seed, whatever happened between its two statements: every file that was there for the first
   * and still is has a row, and every done row was completed against the current mark.
   */
  lemma SeedCatchesUp(cfg: Config, states: seq<State>, steps: seq<Step>, k: nat)
    requires IsRun(cfg, states, steps) && MarkInv(states[0])
    requires k + 1 < |steps| && steps[k] == SeedNew && steps[|steps| - 1] == RequeueStale
    ensures var t := states[|steps|];
            && (forall id :: id in states[k].files && id in t.files ==> id in t.queue)
            && (forall id :: id in t.queue && t.queue[id].status == Done ==>
                    id in t.files && t.queue[id].mark == Some(t.files[id]))
  {
    var n := |steps|;
    RunKeepsMarks(cfg, states, steps, n - 1);
    LastRequeue(cfg, states[n - 1], steps[n - 1], states[n]);
    forall id | id in states[k].files && id in states[n].files ensures id in states[n].queue {
      SeededStays(cfg, states, steps, k, n, id);
    }
  }

  /** The stored result was read no earlier than the mark it is filed under. */
  ghost predicate FreshInv(s: State) {
    forall id :: id in s.queue && s.queue[id].mark.Some? ==> id in s.results && s.queue[id].mark.value <= s.results[id]
  }

  /** Completing keeps the result as new as its mark iff no edit was registered since the object was read. */
  predicate UneditedSinceRead(s: State, step: Step) {
    step.Complete? && step.job in s.jobs && s.jobs[step.job].read.Some? && s.jobs[step.job].id in s.files ==>
      s.files[s.jobs[step.job].id] <= s.jobs[step.job].read.value
  }

  lemma CompleteIsFreshIff(cfg: Config, s: State, job: int)
    requires MarkInv(s) && FreshInv(s) && Enabled(cfg, s, Complete(job)) && s.jobs[job].id in s.queue
    ensures FreshInv(Apply(cfg, s, Complete(job))) <==> UneditedSinceRead(s, Complete(job))
  {
    var t, id := Apply(cfg, s, Complete(job)), s.jobs[job].id;
    assert id in t.queue && t.queue[id].mark == Some(s.files[id]) && t.results[id] == s.jobs[job].read.value;
  }

  lemma {:induction false} RunKeepsFresh(cfg: Config, states: seq<State>, steps: seq<Step>, i: nat)
    requires IsRun(cfg, states, steps) && MarkInv(states[0]) && FreshInv(states[0]) && i < |states|
    requires forall k :: 0 <= k < |steps| ==> UneditedSinceRead(states[k], steps[k])
    ensures MarkInv(states[i]) && FreshInv(states[i])
  {
    if i > 0 {
      RunKeepsFresh(cfg, states, steps, i - 1);
      StepKeepsMarks(cfg, states[i - 1], steps[i - 1]);
      assert UneditedSinceRead(states[i - 1], steps[i - 1]);
    }
  }

  /**
   * After a seed, whose statements others may act between, in every run without mid-flight edits: a file that
   * was there at its start is queued, and a done row's result is as new as the last registered edit.
   */
  lemma SeededResultsAreCurrent(cfg: Config, states: seq<State>, steps: seq<Step>, k: nat)
    requires IsRun(cfg, states, steps) && MarkInv(states[0]) && FreshInv(states[0])
    requires forall i :: 0 <= i < |steps| ==> UneditedSinceRead(states[i], steps[i])
    requires k + 1 < |steps| && steps[k] == SeedNew && steps[|steps| - 1] == RequeueStale
    ensures var t := states[|steps|];
            && (forall id :: id in states[k].files && id in t.files ==> id in t.queue)
            && (forall id :: id in t.queue && t.queue[id].status == Done ==>
                  id in t.files && id in t.results && t.files[id] <= t.results[id])
  {
    RunKeepsFresh(cfg, states, steps, |steps|);
    SeedCatchesUp(cfg, states, steps, k);
  }

  /**
   * An edit registered between the read and the completion is absorbed: the row is done under the new
   * mark with the old result, and no later seed picks it up.
   */
  lemma MidFlightEditIsAbsorbed(cfg: Config) returns (states: seq<State>, steps: seq<Step>)
    ensures IsRun(cfg, states, steps) && Empty(states[0])
    ensures var t := states[|steps|];
            && t.queue.Keys == {1} && t.files.Keys == {1} && t.results.Keys == {1}
            && t.queue[1].status == Done && t.results[1] < t.files[1]
            && Apply(cfg, Apply(cfg, t, SeedNew), RequeueStale) == t
  {
    states, steps := RunToClaim(cfg);
    var s3 := OneFile(10, 0, Row(Claimed, 1, 0, Some(0), None), map[], map[1 := Job(1, 1, 0, None)], 2);
    var s4 := s3.(jobs := map[1 := Job(1, 1, 0, Some(10))]);
    states, steps := Extend(cfg, states, steps, Read(1), s4);
    var s5 := s4.(files := map[1 := 20]);
    states, steps := Extend(cfg, states, steps, MarkFile(1, 20), s5);
    var s6 := s5.(jobs := map[], queue := map[1 := Row(Done, 1, 0, Some(0), Some(20))], results := map[1 := 10]);
    states, steps := Extend(cfg, states, steps, Complete(1), s6);
    SeedIsIdle(cfg, s6);
  }

  /** The state with one file, marked `mark`, and its row. */
  function OneFile(mark: int, now: int, row: Row, results: map<int, int>, jobs: map<int, Job>, nextJob: int): State {
    State(map[1 := mark], map[1 := row], results, jobs, now, 2, nextJob)
  }

  lemma SeedIsIdle(cfg: Config, s: State)
    requires s.files.Keys == s.queue.Keys && forall id :: id in s.queue ==> !Stale(s, id)
    ensures Apply(cfg, s, SeedNew) == s && Apply(cfg, s, RequeueStale) == s
  {
    assert Apply(cfg, s, SeedNew).queue == s.queue;
    assert Apply(cfg, s, RequeueStale).queue == s.queue;
  }

  /** From the empty tables to the first claim of the first file. */
  lemma RunToClaim(cfg: Config) returns (states: seq<State>, steps: seq<Step>)
    ensures IsRun(cfg, states, steps) && Empty(states[0])
    ensures states[|steps|] == OneFile(10, 0, Row(Claimed, 1, 0, Some(0), None), map[], map[1 := Job(1, 1, 0, None)], 2)
    ensures steps == [AddFile(10), SeedNew, Claim(1)]
  {
    var s0 := State(map[], map[], map[], map[], 0, 1, 1);
    var s1 := s0.(files := map[1 := 10], nextId := 2);
    states, steps := Extend(cfg, [s0], [], AddFile(10), s1);
    var s2 := Seeded(cfg, s1);
    states, steps := Extend(cfg, states, steps, SeedNew, s2);
    var s3 := OneFile(10, 0, Row(Claimed, 1, 0, Some(0), None), map[], map[1 := Job(1, 1, 0, None)], 2);
    assert Apply(cfg, s2, Claim(1)).queue == s3.queue;
    states, steps := Extend(cfg, states, steps, Claim(1), s3);
  }

  /** One more step at the end of a run. */
  lemma Extend(cfg: Config, states: seq<State>, steps: seq<Step>, step: Step, t: State)
    returns (longer: seq<State>, more: seq<Step>)
    requires IsRun(cfg, states, steps) && Enabled(cfg, states[|steps|], step) && t == Apply(cfg, states[|steps|], step)
    ensures IsRun(cfg, longer, more) && longer == states + [t] && more == steps + [step]
  {
    longer, more := states + [t], steps + [step];
  }

  /** The seed of a queue with one new file. */
  lemma Seeded(cfg: Config, s: State) returns (t: State)
    requires s.queue == map[] && s.files.Keys == {1}
    ensures t == Apply(cfg, s, SeedNew) && t == s.(queue := map[1 := NewRow(s.now)])
  {
    t := s.(queue := map[1 := NewRow(s.now)]);
    assert Apply(cfg, s, SeedNew).queue == t.queue;
  }

  // ---- When a row can be claimed --------------------------------------------------------------

  /** After `step` and then `dt` of time, nothing else happening, `id` can be claimed. */
  predicate ClaimableAfter(cfg: Config, s: State, step: Step, dt: nat, id: int)
    requires Enabled(cfg, s, step)
  {
    Claimable(cfg, Apply(cfg, Apply(cfg, s, step), Tick(dt)), id)
  }

  /** A failed attempt below the limit is tried again, from the given time on; the last one never is. */
  lemma RetriedIff(cfg: Config, s: State, job: int, next: int, dt: nat)
    requires job in s.jobs && s.jobs[job].id in s.queue && s.jobs[job].id in s.files
    ensures ClaimableAfter(cfg, s, Fail(job, next), dt, s.jobs[job].id) <==>
              s.jobs[job].attempts < cfg.maxAttempts && s.now + dt >= next
  {
  }

  /** A completed row cannot be claimed, however long one waits. */
  lemma CompletedIsFinal(cfg: Config, s: State, job: int, dt: nat)
    requires Enabled(cfg, s, Complete(job)) && s.jobs[job].id in s.queue && s.jobs[job].id in s.files
    ensures !ClaimableAfter(cfg, s, Complete(job), dt, s.jobs[job].id)
  {
  }

  /** A claim keeps others away until its TTL has passed, and no longer. */
  lemma ClaimedUntilTtl(cfg: Config, s: State, id: int, dt: nat)
    requires Enabled(cfg, s, Claim(id))
    ensures ClaimableAfter(cfg, s, Claim(id), dt, id) <==> dt >= cfg.ttl
  {
  }

  /** A file without a row can be claimed right after a seed, for the first time; other rows are as they were. */
  lemma SeededIsClaimable(cfg: Config, s: State, id: int)
    requires id in s.files
    ensures var t := Apply(cfg, s, SeedNew);
            if id in s.queue then id in t.queue && t.queue[id] == s.queue[id]
            else Claimable(cfg, t, id) && t.queue[id].attempts == 0 && t.queue[id].mark == None
  {
  }

  /**
   * A requeue puts back exactly the rows that are not in flight or parked and whose mark is older than their file:
   * they can be claimed at once, for the first time again. All other rows stay as they were.
   */
  lemma RequeuedIff(cfg: Config, s: State, id: int)
    requires id in s.queue && id in s.files
    ensures var q, t := s.queue[id], Apply(cfg, s, RequeueStale);
            && id in t.queue
            && if q.status != Claimed && q.status != Error && q.mark.Some? && q.mark.value < s.files[id]
               then Claimable(cfg, t, id) && t.queue[id].attempts == 0 && t.queue[id].mark == None
               else t.queue[id] == q
  {
  }

  // ---- Claim exclusivity ----------------------------------------------------------------------

  /** The step reports an outcome for file `id`. */
  predicate Reports(s: State, step: Step, id: int) {
    (step.Complete? || step.Fail?) && step.job in s.jobs && s.jobs[step.job].id == id
  }

  /** Claimed at `t` and not reported since, or gone for good. */
  ghost predicate HeldSince(s: State, id: int, t: int) {
    if id in s.queue then s.queue[id].status == Claimed && s.queue[id].claimedAt == Some(t)
    else id !in s.files && id < s.nextId
  }

  lemma HoldsThroughStep(cfg: Config, s: State, step: Step, id: int, t: int)
    requires MarkInv(s) && Enabled(cfg, s, step) && HeldSince(s, id, t)
    requires !Reports(s, step, id) && step != Claim(id)
    ensures HeldSince(Apply(cfg, s, step), id, t)
  {
  }

  lemma {:induction false} ClaimHolds(cfg: Config, states: seq<State>, steps: seq<Step>, id: int, i: nat, j: nat)
    requires IsRun(cfg, states, steps) && MarkInv(states[0]) && i < j <= |steps|
    requires steps[i] == Claim(id)
    requires forall k :: i < k < j ==> !Reports(states[k], steps[k], id) && steps[k] != Claim(id)
    ensures HeldSince(states[j], id, states[i].now)
    decreases j
  {
    RunKeepsMarks(cfg, states, steps, j - 1);
    if j > i + 1 {
      ClaimHolds(cfg, states, steps, id, i, j - 1);
      HoldsThroughStep(cfg, states[j - 1], steps[j - 1], id, states[i].now);
    }
  }

  /** Two claims of a file with no report between them are at least the claim TTL apart, whatever else runs. */
  lemma ClaimsAreExclusive(cfg: Config, states: seq<State>, steps: seq<Step>, id: int, i: nat, j: nat)
    requires IsRun(cfg, states, steps) && MarkInv(states[0]) && i < j < |steps|
    requires steps[i] == Claim(id) && steps[j] == Claim(id)
    requires forall k :: i < k < j ==> !Reports(states[k], steps[k], id)
    ensures states[j].now - states[i].now >= cfg.ttl
    decreases j - i
  {
    if k :| i < k < j && steps[k] == Claim(id) {
      ClaimsAreExclusive(cfg, states, steps, id, k, j);
      ClockAdvances(cfg, states, steps, i, k);
    } else {
      ClaimHolds(cfg, states, steps, id, i, j);
    }
  }

  lemma {:induction false} ClockAdvances(cfg: Config, states: seq<State>, steps: seq<Step>, i: nat, j: nat)
    requires IsRun(cfg, states, steps) && i <= j < |states|
    ensures states[i].now <= states[j].now
  {
    if i < j {
      ClockAdvances(cfg, states, steps, i, j - 1);
    }
  }
}
