/** Tier A: the properties of every run of the protocol, whatever the interleaving. */
module AnyRun {
  import opened Rows
  import opened Statements
  import opened Runs
  import opened Protocol
  import opened Effects
  import opened EveryInterleaving

  /** In every reachable state, for every interleaving. */
  lemma EveryReachableState(cfg: Config, job: Job, key: string, now: Time, acts: seq<Action>)
    requires FreshJob(job)
    ensures
      var s := Exec(cfg, Created(job, key, now), acts);
      var c, n := s.cell, |s.cell.executions|;
      // the attempts are 1..n, n <= max_attempts, only n may still be waiting
      && n <= c.job.maxAttempts
      && (forall k :: k in c.executions <==> 1 <= k <= n)
      && (forall k :: k in c.executions && k < n ==>
            !c.executions[k].status.Scheduled? && !c.executions[k].status.Queued?)
      // claims, resets, starts, successes
      && c.tally.claims == c.tally.resets + (if c.record.status.Pending? then 0 else 1)
      && |c.tally.starts| <= c.tally.claims
      && c.tally.successes == (if c.record.status.Done? then 1 else 0)
      && (c.job.status.JobCompleted? ==> c.record.status.Done?)
      && (c.record.status.Done? ==> c.job.status.JobCompleted? || c.job.status.JobFailed?)
      // the final-state metric
      && c.tally.finals == (if c.job.status.Terminal() then 1 else 0)
      // a job not claimed, or cancelled, has left no trace
      && (c.job.status.JobScheduled? || c.job.status.JobCancelled? ==>
            c.executions == map[] && c.outbox == map[] && c.queue == map[] && s.runs == map[])
      // each target was put into the outbox at most once; its row was published as often as it says
      && (forall t :: c.tally.outboxed[t] <= 1)
      && (forall t :: t in c.outbox ==>
            c.tally.published[t] == c.tally.unpublished[t] + (if c.outbox[t].status.OutboxPublished? then 1 else 0))
  {
    CreatedInv(job, key, now);
    ReachableInv(cfg, Created(job, key, now), acts);
    hide Apply, Step;
  }

  // ---- what only ever moves one way

  ghost predicate Onward(c: Cell, c': Cell) {
    && (c'.job.status.JobScheduled? ==> c.job.status.JobScheduled?)
    && (c'.job.status.JobCancelled? ==> c.job.status.JobScheduled? || c.job.status.JobCancelled?)
    && (c'.job.status.JobQueued? ==> c.job.status.JobScheduled? || c.job.status.JobQueued?)
    && (c'.job.status.JobRunning? ==> !c.job.status.Terminal())
    && (c.job.status.Terminal() ==> c'.job.status == c.job.status)
    && (c.record.status.Done? ==> c'.record == c.record)
    && c.record.key == c'.record.key
    && c.job.maxAttempts == c'.job.maxAttempts && c.job.hasHandler == c'.job.hasHandler
    && (forall k :: k in c.executions ==> k in c'.executions)
    && c.tally.finals <= c'.tally.finals
  }

  lemma MovesOnward(c: Cell, c': Cell, k: nat)
    requires Moves(c, c', k)
    ensures Onward(c, c')
  {
    hide LeaseMoves, OutboxMoves;
  }

  /** Job status climbs, terminal is for ever, COMPLETED is absorbing, attempts never vanish. */
  lemma {:induction false} OnlyOnward(cfg: Config, s: System, acts: seq<Action>)
    requires Inv(s)
    ensures Onward(s.cell, Exec(cfg, s, acts).cell)
    decreases |acts|
  {
    hide Inv, Apply, Moves;
    if acts != [] {
      var s' := Apply(cfg, s, acts[0]);
      ApplyKeepsInv(cfg, s, acts[0]);
      assert AllSnapshotsAgree(s) by { SnapshotsOf(s); }
      ApplyMoves(cfg, s, acts[0]);
      MovesOnward(s.cell, s'.cell, Touched(s, acts[0]));
      OnlyOnward(cfg, s', acts[1..]);
    }
  }

  lemma SnapshotsOf(s: System)
    requires Inv(s)
    ensures AllSnapshotsAgree(s)
  {
  }

  // ---- transactions that cannot fail, transactions that fail as a whole

  /** Neither claim transaction ever meets its unique outbox constraint. */
  lemma OutboxNeverCollides(s: System, k: nat)
    requires Inv(s)
    ensures JobTarget in s.cell.outbox ==> !s.cell.job.status.JobScheduled?
    ensures ClaimDueJob(s.cell, s.now).Some? && ClaimDueExecution(s.cell, k, s.now).Some?
  {
  }

  /**
   * A retry transaction commits exactly when the claim is still there and its attempt is the newest;
   * otherwise nothing changes. So a retry that comes late, its successor existing, rolls back whole.
   */
  lemma RetryCommitsIff(cfg: Config, s: System, r: RunId, outcome: Outcome)
    requires Inv(s) && r in s.runs && s.runs[r].point.Handling?
    requires !outcome.Succeeded? && s.runs[r].attempt < s.runs[r].maxAttempts
    ensures
      var k, c, c' := s.runs[r].attempt, s.cell, Apply(cfg, s, Advance(r, outcome)).cell;
      if c.record.status.Processing? && k == |c.executions|
      then
        && k + 1 in c'.executions
        && c'.executions[k + 1] == Execution(Scheduled, Some(s.now + outcome.delay), None, None, s.now)
        && c'.executions == c.executions
             [k := c.executions[k].(status := if outcome.Expired? then TimedOut else Failed,
                                    completedAt := Some(s.now), updatedAt := s.now)]
             [k + 1 := c'.executions[k + 1]]
        && c'.record.status.Pending?
        && c'.job == c.job
      else c' == c
  {
    hide AllSnapshotsAgree, ClaimAccounts, CountedOnce, OutboxedOnce, PublishAccounts, StartsPaid,
         UntouchedBeforeClaim, FinalFailureTransaction, AlreadyCompletedTransaction, SuccessTransaction;
    assert s.runs[r].attempt in s.cell.executions by { SnapshotsOf(s); assert SnapshotsAgree(s.cell, s.runs[r]); }
  }

  /**
   * A success transaction commits exactly when the claim is still there; otherwise nothing changes. So
   * of all the runs of a job, whatever they did, one at most completes it.
   */
  lemma SuccessCommitsIff(cfg: Config, s: System, r: RunId)
    requires Inv(s) && r in s.runs && s.runs[r].point.Handling?
    ensures
      var k, c, c' := s.runs[r].attempt, s.cell, Apply(cfg, s, Advance(r, Succeeded)).cell;
      if c.record.status.Processing?
      then
        && k in c.executions
        && c'.executions == c.executions
             [k := c.executions[k].(status := Completed, completedAt := Some(s.now), updatedAt := s.now)]
        && c'.record == Record(c.record.key, Done, None)
        && c'.tally.successes == 1
        && c'.tally.finals == 1
        && c'.job == if c.job.status.Terminal() then c.job
                     else c.job.(status := JobCompleted, updatedAt := s.now)
      else c' == c
  {
    hide AllSnapshotsAgree, AttemptChain, OutboxedOnce, PublishAccounts, StartsPaid, UntouchedBeforeClaim,
         FinalFailureTransaction, AlreadyCompletedTransaction, RetryTransaction;
    assert s.runs[r].attempt in s.cell.executions by { SnapshotsOf(s); assert SnapshotsAgree(s.cell, s.runs[r]); }
  }

  /** The stale-claim reset never takes the claim of a job with a RUNNING execution. */
  lemma ResetSparesRunning(cfg: Config, s: System)
    ensures HasRunning(s.cell.executions) ==> Apply(cfg, s, ResetStale) == s
    ensures Apply(cfg, s, ResetStale).cell.executions == s.cell.executions
  {
  }

  // ---- terminal executions

  /** Terminal rows may be overwritten, but stay terminal. */
  ghost predicate StaysTerminal(c: Cell, c': Cell) {
    forall k :: k in c.executions && c.executions[k].status.Terminal() ==>
      k in c'.executions && c'.executions[k].status.Terminal()
  }

  lemma FailureStaysTerminal(c: Cell, k: nat, timedOut: bool, now: Time)
    ensures StaysTerminal(c, FinalFailureTransaction(c, k, timedOut, now))
  {
  }

  lemma AlreadyCompletedStaysTerminal(c: Cell, k: nat, now: Time)
    ensures StaysTerminal(c, AlreadyCompletedTransaction(c, k, now))
  {
  }

  lemma SuccessStaysTerminal(c: Cell, k: nat, now: Time)
    ensures StaysTerminal(c, SuccessTransaction(c, k, now).GetOr(c))
  {
  }

  lemma RetryStaysTerminal(c: Cell, k: nat, timedOut: bool, delay: nat, now: Time)
    ensures StaysTerminal(c, RetryTransaction(c, k, timedOut, delay, now).GetOr(c))
  {
  }

  lemma FinishStaysTerminal(c: Cell, k: nat, max: nat, outcome: Outcome, now: Time)
    ensures StaysTerminal(c, Finish(c, k, max, outcome, now))
  {
    hide StaysTerminal, SuccessTransaction, RetryTransaction, FinalFailureTransaction;
    if outcome.Succeeded? {
      SuccessStaysTerminal(c, k, now);
    } else {
      RetryStaysTerminal(c, k, outcome.Expired?, outcome.delay, now);
      FailureStaysTerminal(c, k, outcome.Expired?, now);
    }
  }

  lemma RecoverStaysTerminal(c: Cell, k: nat, delay: nat, now: Time)
    ensures StaysTerminal(c, RecoverExpiredExecution(c, k, delay, now).cell)
  {
  }

  lemma StepStaysTerminal(cfg: Config, c: Cell, run: Run, outcome: Outcome, now: Time)
    requires !run.point.Starting?
    ensures StaysTerminal(c, Step(cfg, c, run, outcome, now).cell)
  {
    hide Finish, FinalFailureTransaction, AlreadyCompletedTransaction;
    FinishStaysTerminal(c, run.attempt, run.maxAttempts, outcome, now);
    FailureStaysTerminal(c, run.attempt, false, now);
    AlreadyCompletedStaysTerminal(c, run.attempt, now);
  }

  /** The one action that takes an execution out of a terminal status: startExecution by a late run. */
  predicate LateStart(s: System, a: Action) {
    && a.Advance? && a.id in s.runs && s.runs[a.id].point.Starting?
    && s.runs[a.id].attempt in s.cell.executions
    && s.cell.executions[s.runs[a.id].attempt].status.Terminal()
  }

  /** Terminal executions stay terminal under an action if and only if it is no late start. */
  lemma TerminalUnlessLateStart(cfg: Config, s: System, a: Action)
    ensures StaysTerminal(s.cell, Apply(cfg, s, a).cell) <==> !LateStart(s, a)
  {
    hide Finish, FinalFailureTransaction, AlreadyCompletedTransaction, RecoverExpiredExecution, Start;
    if a.Advance? && a.id in s.runs && !s.runs[a.id].point.Starting? {
      hide Step;
      StepStaysTerminal(cfg, s.cell, s.runs[a.id], a.outcome, s.now);
    } else if a.Recover? {
      RecoverStaysTerminal(s.cell, a.attempt, a.delay, s.now);
    } else if a.Advance? && a.id in s.runs {
      var k := s.runs[a.id].attempt;
      assert k in s.cell.executions ==> !Apply(cfg, s, a).cell.executions[k].status.Terminal();
    }
  }

  // ---- the status of terminal executions

  /** The status that a run's next step writes to its attempt, whatever the attempt's own status. */
  function WrittenStatus(c: Cell, run: Run, outcome: Outcome): Option<AttemptStatus> {
    if run.point.Starting? then Some(Running)
    else if run.point.ClosingStranded? || run.point.ClosingUnhandled? then Some(Failed)
    else if run.point.ClosingCompleted? then Some(Completed)
    else if !run.point.Handling? then None
    else if outcome.Succeeded? then (if c.record.status.Processing? then Some(Completed) else None)
    else if run.attempt < run.maxAttempts && !(c.record.status.Processing? && run.attempt == |c.executions|) then None
    else Some(if outcome.Expired? then TimedOut else Failed)
  }

  function StatusAfter(c: Cell, run: Run, outcome: Outcome, k: nat): AttemptStatus
    requires k in c.executions
  {
    if run.attempt == k then WrittenStatus(c, run, outcome).GetOr(c.executions[k].status) else c.executions[k].status
  }

  ghost predicate HasStatus(c: Cell, k: nat, status: AttemptStatus) {
    k in c.executions && c.executions[k].status == status
  }

  lemma SuccessWrites(c: Cell, j: nat, now: Time, k: nat)
    requires k in c.executions
    ensures HasStatus(SuccessTransaction(c, j, now).GetOr(c), k,
                      if j == k && c.record.status.Processing? then Completed else c.executions[k].status)
  {
  }

  lemma RetryWrites(c: Cell, j: nat, timedOut: bool, delay: nat, now: Time, k: nat)
    requires AttemptChain(c) && k in c.executions
    ensures HasStatus(RetryTransaction(c, j, timedOut, delay, now).GetOr(c), k,
                      if j == k && c.record.status.Processing? && j == |c.executions|
                      then (if timedOut then TimedOut else Failed) else c.executions[k].status)
  {
  }

  lemma FinalFailureWrites(c: Cell, j: nat, timedOut: bool, now: Time, k: nat)
    requires k in c.executions
    ensures HasStatus(FinalFailureTransaction(c, j, timedOut, now), k,
                      if j == k then (if timedOut then TimedOut else Failed) else c.executions[k].status)
  {
  }

  lemma AlreadyCompletedWrites(c: Cell, j: nat, now: Time, k: nat)
    requires k in c.executions
    ensures HasStatus(AlreadyCompletedTransaction(c, j, now), k,
                      if j == k then Completed else c.executions[k].status)
  {
  }

  lemma FinishWrites(c: Cell, run: Run, outcome: Outcome, now: Time, k: nat)
    requires AttemptChain(c) && k in c.executions && run.point.Handling?
    ensures HasStatus(Finish(c, run.attempt, run.maxAttempts, outcome, now), k, StatusAfter(c, run, outcome, k))
  {
    hide AttemptChain, HasStatus, SuccessTransaction, RetryTransaction, FinalFailureTransaction;
    if outcome.Succeeded? {
      SuccessWrites(c, run.attempt, now, k);
    } else if run.attempt < run.maxAttempts {
      RetryWrites(c, run.attempt, outcome.Expired?, outcome.delay, now, k);
    } else {
      FinalFailureWrites(c, run.attempt, outcome.Expired?, now, k);
    }
  }

  lemma ClosingWrites(cfg: Config, c: Cell, run: Run, outcome: Outcome, now: Time, k: nat)
    requires AttemptChain(c) && k in c.executions
    requires run.point.Handling? || run.point.ClosingUnhandled? || run.point.ClosingCompleted?
    ensures HasStatus(Step(cfg, c, run, outcome, now).cell, k, StatusAfter(c, run, outcome, k))
  {
    hide AttemptChain, HasStatus, Finish, FinalFailureTransaction, AlreadyCompletedTransaction;
    if run.point.Handling? {
      FinishWrites(c, run, outcome, now, k);
    } else {
      FinalFailureWrites(c, run.attempt, false, now, k);
      AlreadyCompletedWrites(c, run.attempt, now, k);
    }
  }

  lemma StepWrites(cfg: Config, c: Cell, run: Run, outcome: Outcome, now: Time, k: nat)
    requires AttemptChain(c) && k in c.executions
    ensures HasStatus(Step(cfg, c, run, outcome, now).cell, k, StatusAfter(c, run, outcome, k))
  {
    if run.point.Handling? || run.point.ClosingUnhandled? || run.point.ClosingCompleted? {
      hide *;
      ClosingWrites(cfg, c, run, outcome, now, k);
    } else {
      assert 1 in c.executions;
      hide AttemptChain, Finish, FinalFailureTransaction, AlreadyCompletedTransaction;
    }
  }

  lemma RecoverySparesTerminal(c: Cell, j: nat, delay: nat, now: Time, k: nat)
    requires k in c.executions && c.executions[k].status.Terminal()
    ensures HasStatus(RecoverExpiredExecution(c, j, delay, now).cell, k, c.executions[k].status)
  {
  }

  /** An action changes the status of a terminal execution if and only if it is the step of a run at that
      attempt that writes another status; then it becomes that status. */
  lemma TerminalStatusChangesIff(cfg: Config, s: System, a: Action, k: nat)
    requires Inv(s) && k in s.cell.executions && s.cell.executions[k].status.Terminal()
    ensures
      var c, c' := s.cell, Apply(cfg, s, a).cell;
      && k in c'.executions
      && (c'.executions[k].status != c.executions[k].status <==>
            && a.Advance? && a.id in s.runs && s.runs[a.id].attempt == k
            && WrittenStatus(c, s.runs[a.id], a.outcome).Some?
            && WrittenStatus(c, s.runs[a.id], a.outcome).value != c.executions[k].status)
      && (c'.executions[k].status != c.executions[k].status ==>
            c'.executions[k].status == WrittenStatus(c, s.runs[a.id], a.outcome).value)
  {
    hide Inv, Step, RecoverExpiredExecution, WrittenStatus, Start, Suspect, Add, RemoveTerminal, AttemptChain;
    ChainOf(s);
    if a.Advance? && a.id in s.runs {
      StepWrites(cfg, s.cell, s.runs[a.id], a.outcome, s.now, k);
    } else if a.Recover? {
      RecoverySparesTerminal(s.cell, a.attempt, a.delay, s.now, k);
    }
  }

  lemma ChainOf(s: System)
    requires Inv(s)
    ensures AttemptChain(s.cell)
  {
  }
}
