/**
 * Moving files across replicas. Any number of movers interleave at the granularity of one SQL
 * statement or one object-store call; each call may fail, with or without its effect, and a replica
 * may crash anywhere. Advisory locks are identified by a hash of the key.
 */
module MoveProtocol {
  import opened Ordering

  type Content = int
  type Mover = int
  type Hash = string -> int

  /** Where a mover is in `moveFileWithLocks`. `Locking(n)` has taken the first `n` locks. */
  datatype Pc = Locking(n: nat) | Reread | Checked | Copied | Updated | RollingBack | Finished

  /** One call: the key read before waiting, the destination, and the key re-read under the locks. */
  datatype Job = Job(pc: Pc, id: int, oldKey: string, newKey: string, cur: string)

  datatype State = State(
    bucket: map<string, Content>,
    rows: map<int, string>,
    owner: map<int, Mover>,
    jobs: map<Mover, Job>)

  datatype Step =
    | Start(m: Mover, id: int, newKey: string)
    | Acquire(m: Mover)
    | AcquireFails(m: Mover)
    | Reread(m: Mover)
    | CheckDestination(m: Mover)
    | Copy(m: Mover, effect: bool, ok: bool)
    | Update(m: Mover, commits: bool)
    | Rollback(m: Mover, effect: bool)
    | DeleteOld(m: Mover, effect: bool)
    | Release(m: Mover)
    | Crash(m: Mover)

  /** The two endpoints in global byte order. */
  function KeyAt(j: Job, i: nat): string {
    if (i == 0) == Less(j.oldKey, j.newKey) then j.oldKey else j.newKey
  }

  predicate Holds(h: Hash, s: State, m: Mover, k: string) {
    h(k) in s.owner && s.owner[h(k)] == m
  }

  /** A session lock is re-entrant: a mover never waits for itself. */
  predicate Grantable(h: Hash, s: State, m: Mover, k: string) {
    h(k) !in s.owner || s.owner[h(k)] == m
  }

  predicate Free(s: State, k: string) {
    forall id :: id in s.rows ==> s.rows[id] != k
  }

  predicate Enabled(h: Hash, s: State, step: Step) {
    if step.Start? then
      step.m !in s.jobs && step.id in s.rows && step.newKey != "" && step.newKey != s.rows[step.id]
    else
      && step.m in s.jobs
      && var j := s.jobs[step.m];
         match step
         case Start(_, _, _) => true
         case Acquire(m) => j.pc.Locking? && j.pc.n < 2 && Grantable(h, s, m, KeyAt(j, j.pc.n))
         case AcquireFails(_) => j.pc.Locking? && j.pc.n < 2
         case Reread(_) => j.pc == Locking(2)
         case CheckDestination(_) => j.pc == Pc.Reread
         case Copy(_, effect, ok) => j.pc == Checked && (ok ==> effect) && (effect ==> j.cur in s.bucket)
         case Update(_, commits) => j.pc == Copied && (commits ==> j.id in s.rows && Free(s, j.newKey))
         case Rollback(_, _) => j.pc == RollingBack
         case DeleteOld(_, _) => j.pc == Updated
         case Release(_) => j.pc == Finished
         case Crash(_) => true
  }

  function SetPc(s: State, m: Mover, pc: Pc): State
    requires m in s.jobs
  {
    s.(jobs := s.jobs[m := s.jobs[m].(pc := pc)])
  }

  function Unlocked(s: State, m: Mover): State {
    s.(owner := map l | l in s.owner && s.owner[l] != m :: s.owner[l], jobs := s.jobs - {m})
  }

  function Apply(h: Hash, s: State, step: Step): State
    requires Enabled(h, s, step)
  {
    match step
    case Start(m, id, newKey) =>
      s.(jobs := s.jobs[m := Job(Locking(0), id, s.rows[id], newKey, "")])
    case Acquire(m) =>
      var j := s.jobs[m];
      SetPc(s, m, Locking(j.pc.n + 1)).(owner := s.owner[h(KeyAt(j, j.pc.n)) := m])
    case AcquireFails(m) => Unlocked(s, m)
    case Reread(m) =>
      var j := s.jobs[m];
      if j.id in s.rows then s.(jobs := s.jobs[m := j.(pc := Pc.Reread, cur := s.rows[j.id])])
      else SetPc(s, m, Finished)
    case CheckDestination(m) =>
      SetPc(s, m, if Free(s, s.jobs[m].newKey) then Checked else Finished)
    case Copy(m, effect, ok) =>
      var j := s.jobs[m];
      SetPc(if effect then s.(bucket := s.bucket[j.newKey := s.bucket[j.cur]]) else s, m,
            if ok then Copied else Finished)
    case Update(m, commits) =>
      var j := s.jobs[m];
      if commits then SetPc(s.(rows := s.rows[j.id := j.newKey]), m, Updated)
      else SetPc(s, m, if Free(s, j.newKey) then RollingBack else Finished)
    case Rollback(m, effect) =>
      SetPc(if effect then s.(bucket := s.bucket - {s.jobs[m].newKey}) else s, m, Finished)
    case DeleteOld(m, effect) =>
      SetPc(if effect then s.(bucket := s.bucket - {s.jobs[m].cur}) else s, m, Finished)
    case Release(m) => Unlocked(s, m)
    case Crash(m) => Unlocked(s, m)
  }

  /** The hypothesis the code does not check: the key found by the re-read is one of the two locked keys. */
  predicate RereadIsLocked(s: State, step: Step) {
    step.Reread? && step.m in s.jobs && s.jobs[step.m].id in s.rows ==>
      s.rows[s.jobs[step.m].id] in {s.jobs[step.m].oldKey, s.jobs[step.m].newKey}
  }

  /** Every row's key holds an object with that file's original content. */
  ghost predicate Safe(s: State, orig: map<int, Content>) {
    forall id :: id in s.rows ==>
      id in orig && s.rows[id] in s.bucket && s.bucket[s.rows[id]] == orig[id]
  }

  ghost predicate Initial(s: State, orig: map<int, Content>) {
    && s.owner == map[] && s.jobs == map[] && Safe(s, orig)
    && forall i, j :: i in s.rows && j in s.rows && s.rows[i] == s.rows[j] ==> i == j
  }

  // ---- Invariant ------------------------------------------------------------------------------

  ghost predicate JobInv(h: Hash, s: State, orig: map<int, Content>, m: Mover)
    requires m in s.jobs
  {
    var j := s.jobs[m];
    && j.id in s.rows && j.oldKey != j.newKey
    && (j.pc.Locking? ==> j.pc.n <= 2 && forall i :: 0 <= i < j.pc.n ==> Holds(h, s, m, KeyAt(j, i)))
    && (!j.pc.Locking? && !j.pc.Finished? ==>
          Holds(h, s, m, j.oldKey) && Holds(h, s, m, j.newKey) && j.cur in {j.oldKey, j.newKey})
    && (j.pc in {Pc.Reread, Checked, Copied} ==> s.rows[j.id] == j.cur)
    && (j.pc in {Checked, Copied, RollingBack} ==> Free(s, j.newKey))
    && (j.pc == Copied ==> j.id in orig && j.newKey in s.bucket && s.bucket[j.newKey] == orig[j.id])
    && (j.pc == Updated ==> Free(s, j.cur))
  }

  ghost predicate Inv(h: Hash, s: State, orig: map<int, Content>) {
    && Safe(s, orig)
    && (forall i, j :: i in s.rows && j in s.rows && s.rows[i] == s.rows[j] ==> i == j)
    && (forall m :: m in s.jobs ==> JobInv(h, s, orig, m))
  }

  /** A mover that keeps its locks keeps its invariant when another only touches keys it has locked itself. */
  ghost predicate Frame(h: Hash, s: State, s': State, m0: Mover) {
    && s.rows.Keys == s'.rows.Keys
    && (forall m :: m in s'.jobs && m != m0 ==> m in s.jobs && s'.jobs[m] == s.jobs[m])
    && (forall m, k :: m != m0 && Holds(h, s, m, k) ==> Holds(h, s', m, k))
    && (forall k :: !Holds(h, s, m0, k) ==>
          && (k in s.bucket <==> k in s'.bucket)
          && (k in s.bucket ==> s'.bucket[k] == s.bucket[k])
          && (Free(s, k) ==> Free(s', k)))
    && (forall id :: id in s.rows && s'.rows[id] != s.rows[id] ==> Holds(h, s, m0, s.rows[id]))
  }

  lemma OthersKeepInv(h: Hash, s: State, s': State, orig: map<int, Content>, m0: Mover)
    requires Inv(h, s, orig) && Frame(h, s, s', m0)
    ensures forall m :: m in s'.jobs && m != m0 ==> JobInv(h, s', orig, m)
  {
    forall m | m in s'.jobs && m != m0 ensures JobInv(h, s', orig, m) {
      assert JobInv(h, s, orig, m);
      var j := s.jobs[m];
      if !j.pc.Locking? && !j.pc.Finished? {
        assert !Holds(h, s, m0, j.oldKey) && !Holds(h, s, m0, j.newKey);
      }
    }
  }

  lemma StartKeepsInv(h: Hash, s: State, orig: map<int, Content>, step: Step)
    requires Inv(h, s, orig) && Enabled(h, s, step) && step.Start?
    ensures Inv(h, Apply(h, s, step), orig)
  {
    OthersKeepInv(h, s, Apply(h, s, step), orig, step.m);
  }

  lemma LockStepKeepsInv(h: Hash, s: State, orig: map<int, Content>, step: Step)
    requires Inv(h, s, orig) && Enabled(h, s, step)
    requires step.Acquire? || step.AcquireFails? || step.Release? || step.Crash?
    ensures Inv(h, Apply(h, s, step), orig)
  {
    var s' := Apply(h, s, step);
    assert JobInv(h, s, orig, step.m);
    if step.Acquire? {
      var j, j' := s.jobs[step.m], s'.jobs[step.m];
      forall i: nat | i < j'.pc.n ensures Holds(h, s', step.m, KeyAt(j', i)) {
        assert KeyAt(j', i) == KeyAt(j, i);
      }
    }
    OthersKeepInv(h, s, s', orig, step.m);
  }

  lemma ReadStepKeepsInv(h: Hash, s: State, orig: map<int, Content>, step: Step)
    requires Inv(h, s, orig) && Enabled(h, s, step) && RereadIsLocked(s, step)
    requires step.Reread? || step.CheckDestination?
    ensures Inv(h, Apply(h, s, step), orig)
  {
    var j := s.jobs[step.m];
    assert JobInv(h, s, orig, step.m);
    assert step.Reread? ==> Holds(h, s, step.m, KeyAt(j, 0)) && Holds(h, s, step.m, KeyAt(j, 1));
    OthersKeepInv(h, s, Apply(h, s, step), orig, step.m);
  }

  lemma ObjectStepKeepsInv(h: Hash, s: State, orig: map<int, Content>, step: Step)
    requires Inv(h, s, orig) && Enabled(h, s, step)
    requires step.Copy? || step.Rollback? || step.DeleteOld?
    ensures Inv(h, Apply(h, s, step), orig)
  {
    assert JobInv(h, s, orig, step.m);
    OthersKeepInv(h, s, Apply(h, s, step), orig, step.m);
  }

  lemma UpdateKeepsInv(h: Hash, s: State, orig: map<int, Content>, step: Step)
    requires Inv(h, s, orig) && Enabled(h, s, step) && step.Update?
    ensures Inv(h, Apply(h, s, step), orig)
  {
    var j := s.jobs[step.m];
    assert JobInv(h, s, orig, step.m);
    var s' := Apply(h, s, step);
    if step.commits {
      assert forall id :: id in s'.rows && id != j.id ==> s'.rows[id] == s.rows[id];
      assert Free(s', j.cur);
    }
    OthersKeepInv(h, s, s', orig, step.m);
  }

  lemma StepKeepsInv(h: Hash, s: State, orig: map<int, Content>, step: Step)
    requires Inv(h, s, orig) && Enabled(h, s, step) && RereadIsLocked(s, step)
    ensures Inv(h, Apply(h, s, step), orig)
  {
    match step
    case Start(_, _, _) => StartKeepsInv(h, s, orig, step);
    case Acquire(_) => LockStepKeepsInv(h, s, orig, step);
    case AcquireFails(_) => LockStepKeepsInv(h, s, orig, step);
    case Release(_) => LockStepKeepsInv(h, s, orig, step);
    case Crash(_) => LockStepKeepsInv(h, s, orig, step);
    case Reread(_) => ReadStepKeepsInv(h, s, orig, step);
    case CheckDestination(_) => ReadStepKeepsInv(h, s, orig, step);
    case Copy(_, _, _) => ObjectStepKeepsInv(h, s, orig, step);
    case Rollback(_, _) => ObjectStepKeepsInv(h, s, orig, step);
    case DeleteOld(_, _) => ObjectStepKeepsInv(h, s, orig, step);
    case Update(_, _) => UpdateKeepsInv(h, s, orig, step);
  }

  // ---- Runs -----------------------------------------------------------------------------------

  ghost predicate IsRun(h: Hash, states: seq<State>, steps: seq<Step>) {
    && |states| == |steps| + 1
    && forall i :: 0 <= i < |steps| ==>
         Enabled(h, states[i], steps[i]) && states[i + 1] == Apply(h, states[i], steps[i])
  }

  ghost predicate Disciplined(states: seq<State>, steps: seq<Step>)
    requires |states| == |steps| + 1
  {
    forall i :: 0 <= i < |steps| ==> RereadIsLocked(states[i], steps[i])
  }

  /** In every interleaving in which each re-read key is locked, no file ever loses its object, under any hash. */
  lemma {:induction false} MoveSafety(h: Hash, orig: map<int, Content>, states: seq<State>, steps: seq<Step>)
    requires IsRun(h, states, steps) && Disciplined(states, steps) && Initial(states[0], orig)
    ensures forall i :: 0 <= i < |states| ==> Inv(h, states[i], orig) && Safe(states[i], orig)
    decreases |steps|
  {
    if steps != [] {
      var n := |steps| - 1;
      MoveSafety(h, orig, states[..n + 1], steps[..n]);
      assert states[..n + 1][n] == states[n];
      StepKeepsInv(h, states[n], orig, steps[n]);
      forall i | 0 <= i < |states| ensures Inv(h, states[i], orig) {
        if i <= n { assert states[..n + 1][i] == states[i]; }
      }
    }
  }
}
