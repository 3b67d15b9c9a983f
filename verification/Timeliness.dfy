/**
 * Tier B with T2: when startExecution also follows its claim within the idempotency timeout, the
 * stale-claim reset never takes the claim of an attempt that runs.
 */
module Timeliness {
  import opened Rows
  import opened Statements
  import opened Runs
  import opened Protocol
  import opened Effects
  import opened EveryInterleaving
  import opened LeaseDiscipline

  /** A RUNNING attempt has its claim. */
  ghost predicate RunningIsClaimed(c: Cell) {
    HasRunning(c.executions) ==> c.record.status.Processing?
  }

  /** A current run that has claimed and is still in time has its claim. */
  ghost predicate ClaimInTime(cfg: Config, c: Cell, now: Time, run: Run) {
    run.point.Starting? && Current(c, run) && now <= run.claimedAt + cfg.processingTimeout ==>
      c.record.status.Processing? && c.record.processingStartedAt == Some(run.claimedAt)
  }

  ghost predicate InvT(cfg: Config, s: System) {
    && InvB(s)
    && RunningIsClaimed(s.cell)
    && forall r :: r in s.runs ==> ClaimInTime(cfg, s.cell, s.now, s.runs[r])
  }

  lemma CreatedInvT(cfg: Config, job: Job, key: string, now: Time)
    requires FreshJob(job)
    ensures InvT(cfg, Created(job, key, now))
  {
    CreatedInvB(job, key, now);
  }

  // ---- RunningIsClaimed

  /** The only RUNNING attempt is the newest one. */
  lemma RunningIsNewest(c: Cell, k: nat)
    requires RowsAgree(c) && k in c.executions && c.executions[k].status.Running?
    ensures k == Newest(c)
  {
  }

  lemma NoRunningAfter(c: Cell, c': Cell, k: nat)
    requires RowsAgree(c) && k in c.executions && c.executions[k].status.Running?
    requires k in c'.executions && !c'.executions[k].status.Running?
    requires forall j :: j in c'.executions && j != k ==>
      c'.executions[j].status.Scheduled? || (j in c.executions && c'.executions[j] == c.executions[j])
    ensures !HasRunning(c'.executions)
  {
    if j :| j in c'.executions && c'.executions[j].status.Running? {
      RunningIsNewest(c, j);
      RunningIsNewest(c, k);
    }
  }

  lemma SuccessClaimed(c: Cell, k: nat, now: Time)
    requires RowsAgree(c) && k in c.executions && c.executions[k].status.Running? && RunningIsClaimed(c)
    ensures RunningIsClaimed(SuccessTransaction(c, k, now).GetOr(c))
  {
    NoRunningAfter(c, SuccessTransaction(c, k, now).value, k);
  }

  lemma RetryClaimed(c: Cell, k: nat, timedOut: bool, delay: nat, now: Time)
    requires RowsAgree(c) && k in c.executions && c.executions[k].status.Running? && RunningIsClaimed(c)
    ensures RunningIsClaimed(RetryTransaction(c, k, timedOut, delay, now).GetOr(c))
  {
    if RetryTransaction(c, k, timedOut, delay, now).Some? {
      NoRunningAfter(c, RetryTransaction(c, k, timedOut, delay, now).value, k);
    }
  }

  lemma FinalFailureClaimed(c: Cell, k: nat, timedOut: bool, now: Time)
    requires RowsAgree(c) && k in c.executions && c.executions[k].status.Running? && RunningIsClaimed(c)
    ensures RunningIsClaimed(FinalFailureTransaction(c, k, timedOut, now))
  {
    NoRunningAfter(c, FinalFailureTransaction(c, k, timedOut, now), k);
  }

  lemma RecoverClaimed(c: Cell, k: nat, delay: nat, now: Time)
    requires RowsAgree(c) && RunningIsClaimed(c)
    ensures RunningIsClaimed(RecoverExpiredExecution(c, k, delay, now).cell)
  {
    var recovery := RecoverExpiredExecution(c, k, delay, now);
    if recovery.exit.AttemptsExhausted? || recovery.exit.Replaced? {
      NoRunningAfter(c, recovery.cell, k);
    }
  }

  lemma StartClaimed(c: Cell, k: nat, now: Time)
    requires c.record.status.Processing?
    ensures RunningIsClaimed(StartExecution(c, k, now))
  {
  }

  lemma ClaimDueClaimed(c: Cell, k: nat, now: Time)
    requires RunningIsClaimed(c)
    ensures RunningIsClaimed(ClaimDueExecution(c, k, now).GetOr(c))
  {
    var c' := ClaimDueExecution(c, k, now).GetOr(c);
    if j :| j in c'.executions && c'.executions[j].status.Running? {
      assert j in c.executions && c.executions[j].status.Running?;
    }
  }

  lemma OpenClaimed(c: Cell, now: Time)
    requires RunningIsClaimed(c)
    ensures RunningIsClaimed(GetOrCreateInitialExecution(c, now))
  {
    var c' := GetOrCreateInitialExecution(c, now);
    if j :| j in c'.executions && c'.executions[j].status.Running? {
      assert j in c.executions && c.executions[j].status.Running?;
    }
  }

  /** Neither the execution rows nor a claim is touched. */
  lemma RowsUntouchedClaimed(c: Cell, c': Cell)
    requires RunningIsClaimed(c) && c'.executions == c.executions
    requires c'.record == c.record || c'.record.status.Processing? || !HasRunning(c.executions)
    ensures RunningIsClaimed(c')
  {
  }

  lemma FinishClaimed(c: Cell, k: nat, outcome: Outcome, now: Time)
    requires RowsAgree(c) && k in c.executions && c.executions[k].status.Running? && RunningIsClaimed(c)
    ensures RunningIsClaimed(Finish(c, k, c.job.maxAttempts, outcome, now))
  {
    hide RowsAgree, RunningIsClaimed, SuccessTransaction, RetryTransaction, FinalFailureTransaction;
    if outcome.Succeeded? {
      SuccessClaimed(c, k, now);
    } else if k < c.job.maxAttempts {
      RetryClaimed(c, k, outcome.Expired?, outcome.delay, now);
    } else {
      FinalFailureClaimed(c, k, outcome.Expired?, now);
    }
  }

  lemma TimelyFacts(cfg: Config, s: System)
    requires InvT(cfg, s)
    ensures InvB(s) && RunningIsClaimed(s.cell)
    ensures forall r :: r in s.runs ==> ClaimInTime(cfg, s.cell, s.now, s.runs[r])
  {
  }

  lemma AdvanceClaimed(cfg: Config, s: System, r: RunId, outcome: Outcome)
    requires InvT(cfg, s) && r in s.runs
    requires Disciplined(s, Advance(r, outcome)) && Timely(cfg, s, Advance(r, outcome))
    ensures RunningIsClaimed(Step(cfg, s.cell, s.runs[r], outcome, s.now).cell)
  {
    hide InvT, InvB, RowsAgree, RunningIsClaimed, AlreadyCompletedTransaction, FinalFailureTransaction, Finish,
         GetOrCreateInitialExecution, FailedExecution, StartExecution;
    var c, run := s.cell, s.runs[r];
    var k := run.attempt;
    TimelyFacts(cfg, s);
    RowFacts(s);
    RunFacts(s, r);
    if run.point.LeasedWrite() {
      LegalWriteFindsNewest(s, r);
    }
    if run.point.Creating? {
      OpenClaimed(c, s.now);
    } else if run.point.Starting? {
      StartClaimed(c, k, s.now);
    } else if run.point.ClosingUnhandled? {
      FinalFailureClaimed(c, k, false, s.now);
    } else if run.point.Handling? {
      FinishClaimed(c, k, outcome, s.now);
    } else {
      RowsUntouchedClaimed(c, Step(cfg, c, run, outcome, s.now).cell);
    }
  }

  lemma ApplyKeepsRunningClaimed(cfg: Config, s: System, a: Action)
    requires InvT(cfg, s) && Disciplined(s, a) && Timely(cfg, s, a)
    ensures RunningIsClaimed(Apply(cfg, s, a).cell)
  {
    hide InvT, InvB, RowsAgree, RunningIsClaimed, Disciplined, Timely, Step, ClaimDueExecution,
         RecoverExpiredExecution;
    var c := s.cell;
    TimelyFacts(cfg, s);
    RowFacts(s);
    if OnlyOutboxOrQueue(a) {
      OutboxAndQueueAlone(cfg, s, a);
      RowsUntouchedClaimed(c, Apply(cfg, s, a).cell);
    } else if a.Advance? {
      if a.id in s.runs {
        AdvanceClaimed(cfg, s, a.id, a.outcome);
      }
    } else if a.Recover? {
      RecoverClaimed(c, a.attempt, a.delay, s.now);
    } else if a.ClaimAttempt? {
      ClaimDueClaimed(c, a.attempt, s.now);
    } else {
      RowsUntouchedClaimed(c, Apply(cfg, s, a).cell);
    }
  }

  // ---- ClaimInTime

  lemma StepWithoutLease(cfg: Config, c: Cell, run: Run, outcome: Outcome, now: Time)
    requires !run.point.LeasedWrite()
    ensures Step(cfg, c, run, outcome, now).cell.record == c.record
  {
    hide Finish, FinalFailureTransaction, AlreadyCompletedTransaction;
  }

  /** While a current run is between its claim and startExecution, in time, nobody else moves the record. */
  lemma ClaimLeftAlone(cfg: Config, s: System, a: Action, r: RunId)
    requires InvT(cfg, s) && Disciplined(s, a) && r in s.runs && !(a.Advance? && a.id == r)
    requires s.runs[r].point.Starting? && Current(s.cell, s.runs[r])
    requires s.now <= s.runs[r].claimedAt + cfg.processingTimeout
    ensures Apply(cfg, s, a).cell.record == s.cell.record
  {
    hide InvT, InvB, RowsAgree, Step;
    var c := s.cell;
    TimelyFacts(cfg, s);
    RowFacts(s);
    RunFacts(s, r);
    assert ClaimInTime(cfg, c, s.now, s.runs[r]);
    if OnlyOutboxOrQueue(a) {
      OutboxAndQueueAlone(cfg, s, a);
    } else if a.Advance? && a.id in s.runs {
      if s.runs[a.id].point.LeasedWrite() {
        OtherWriteElsewhere(s, r, a.id);
        QueuedIsNewest(c, s.runs[r].attempt);
      } else {
        StepWithoutLease(cfg, c, s.runs[a.id], a.outcome, s.now);
      }
    } else if a.Recover? {
      QueuedMeansNoRecovery(c, s.runs[r].attempt, a.attempt, a.delay, s.now);
    }
  }

  lemma QueuedIsNewest(c: Cell, k: nat)
    requires RowsAgree(c) && k in c.executions && c.executions[k].status.Queued?
    ensures k == Newest(c)
  {
  }

  lemma QueuedMeansNoRecovery(c: Cell, k: nat, j: nat, delay: nat, now: Time)
    requires RowsAgree(c) && k in c.executions && c.executions[k].status.Queued?
    ensures RecoverExpiredExecution(c, j, delay, now).cell == c
  {
    hide AlreadyCompletedTransaction, CrashLastAttempt, CrashAndReplace;
    QueuedIsNewest(c, k);
    if j in c.executions && c.executions[j].status.Running? {
      RunningIsNewest(c, j);
    }
  }

  lemma ClaimingRunInTime(cfg: Config, c: Cell, run: Run, outcome: Outcome, now: Time)
    ensures
      var next := Step(cfg, c, run, outcome, now);
      next.run.Some? ==> ClaimInTime(cfg, next.cell, now, next.run.value)
  {
    hide Finish, FinalFailureTransaction, AlreadyCompletedTransaction;
  }

  lemma ApplyKeepsClaimInTime(cfg: Config, s: System, a: Action, r: RunId)
    requires InvT(cfg, s) && Disciplined(s, a) && r in Apply(cfg, s, a).runs
    ensures ClaimInTime(cfg, Apply(cfg, s, a).cell, Apply(cfg, s, a).now, Apply(cfg, s, a).runs[r])
  {
    hide InvT, InvB, Apply, Step, Disciplined, AttemptMoves, JobMoves, RecordMoves, OutboxMoves;
    var s' := Apply(cfg, s, a);
    WhereRunsComeFrom(cfg, s, a, r);
    TimelyFacts(cfg, s);
    if a.Advance? && a.id == r {
      ClaimingRunInTime(cfg, s.cell, s.runs[r], a.outcome, s.now);
    } else if && r in s.runs && s'.runs[r] == s.runs[r] && s.runs[r].point.Starting?
              && Current(s'.cell, s.runs[r]) && s'.now <= s.runs[r].claimedAt + cfg.processingTimeout {
      RunFacts(s, r);
      SnapshotFacts(s);
      ApplyMoves(cfg, s, a);
      TimeMovesOn(cfg, s, a);
      ClaimLeftAlone(cfg, s, a, r);
    }
  }

  lemma TimeMovesOn(cfg: Config, s: System, a: Action)
    ensures s.now <= Apply(cfg, s, a).now
  {
    hide Step;
  }

  lemma ApplyKeepsInvT(cfg: Config, s: System, a: Action)
    requires InvT(cfg, s) && Disciplined(s, a) && Timely(cfg, s, a)
    ensures InvT(cfg, Apply(cfg, s, a))
  {
    hide InvB, RunningIsClaimed, ClaimInTime, Apply, Disciplined, Timely;
    ApplyKeepsInvB(cfg, s, a);
    ApplyKeepsRunningClaimed(cfg, s, a);
    forall r | r in Apply(cfg, s, a).runs
      ensures ClaimInTime(cfg, Apply(cfg, s, a).cell, Apply(cfg, s, a).now, Apply(cfg, s, a).runs[r])
    {
      ApplyKeepsClaimInTime(cfg, s, a, r);
    }
  }

  lemma {:induction false} ReachableInvT(cfg: Config, s: System, acts: seq<Action>)
    requires InvT(cfg, s) && AllDisciplined(cfg, s, acts) && AllTimely(cfg, s, acts)
    ensures InvT(cfg, Exec(cfg, s, acts))
    decreases |acts|
  {
    hide InvT, Apply, Disciplined, Timely;
    if acts != [] {
      ApplyKeepsInvT(cfg, s, acts[0]);
      ReachableInvT(cfg, Apply(cfg, s, acts[0]), acts[1..]);
    }
  }

  // ---- outcomes

  /**
   * The outcome of a live run is never lost: its transaction commits. Success completes execution, record
   * and job; a failure schedules the next attempt and releases the claim, or, the attempts being used
   * up, fails the job.
   */
  lemma OutcomeAlwaysCommits(cfg: Config, s: System, r: RunId, outcome: Outcome)
    requires InvT(cfg, s) && r in s.runs && s.runs[r].point.Handling? && Holds(s, r)
    ensures
      var k, c, c' := s.runs[r].attempt, s.cell, Apply(cfg, s, Advance(r, outcome)).cell;
      && k in c.executions && k in c'.executions
      && c'.executions[k] == c.executions[k].(
           status := if outcome.Succeeded? then Completed else if outcome.Expired? then TimedOut else Failed,
           completedAt := Some(s.now), updatedAt := s.now)
      && if outcome.Succeeded?
         then && c'.executions == c.executions[k := c'.executions[k]]
              && c'.record == Record(c.record.key, Done, None)
              && c'.job == c.job.(status := JobCompleted, updatedAt := s.now)
         else if k < c.job.maxAttempts
         then && c'.executions == c.executions[k := c'.executions[k]]
                   [k + 1 := Execution(Scheduled, Some(s.now + outcome.delay), None, None, s.now)]
              && c'.record == Record(c.record.key, Pending, None)
              && c'.job == c.job
         else && c'.executions == c.executions[k := c'.executions[k]]
              && c'.record == c.record
              && c'.job == c.job.(status := JobFailed, updatedAt := s.now)
  {
    hide InvT, InvB, AttemptChain, Holds;
    var c, k := s.cell, s.runs[r].attempt;
    LegalRunFacts(cfg, s, r);
    hide RowsAgree, RunningIsClaimed;
    assert HasRunning(c.executions);
  }

  lemma LegalRunFacts(cfg: Config, s: System, r: RunId)
    requires InvT(cfg, s) && r in s.runs && s.runs[r].point.Handling? && Holds(s, r)
    ensures
      var k, c := s.runs[r].attempt, s.cell;
      && k in c.executions && c.executions[k].status.Running? && k + 1 !in c.executions
      && c.record.status.Processing? && !c.job.status.Terminal()
      && s.runs[r].maxAttempts == c.job.maxAttempts
  {
    TimelyFacts(cfg, s);
    RowFacts(s);
    RunFacts(s, r);
    LegalWriteFindsNewest(s, r);
    hide InvB;
  }

  // ---- recovery

  /**
   * Recovery is never refused: for an expired RUNNING attempt it always ends by replacing the attempt
   * or, the attempts being used up, failing the job.
   */
  lemma RecoveryNeverRefused(cfg: Config, s: System, k: nat, delay: nat)
    requires InvT(cfg, s) && k in s.cell.executions && s.cell.executions[k].status.Running?
    ensures k in s.cell.leases && s.cell.record.status.Processing?
    ensures
      var c, recovery := s.cell, RecoverExpiredExecution(s.cell, k, delay, s.now);
      if c.leases[k].expiresAt > s.now then recovery == Recovery(LeaseMissingOrLive, c)
      else
        && k in recovery.cell.executions
        && recovery.cell.executions[k] ==
             c.executions[k].(status := WorkerCrashed, completedAt := Some(c.leases[k].expiresAt), updatedAt := s.now)
        && if k < c.job.maxAttempts
           then && recovery.exit.Replaced?
                && k + 1 in recovery.cell.executions
                && recovery.cell.executions[k + 1] == Execution(Scheduled, Some(s.now + delay), None, None, s.now)
                && recovery.cell.record.status.Pending?
                && recovery.cell.job == c.job
           else recovery.exit.AttemptsExhausted? && recovery.cell.job.status.JobFailed?
  {
    hide InvB, AlreadyCompletedTransaction;
    TimelyFacts(cfg, s);
    RowFacts(s);
    RunningIsNewest(s.cell, k);
  }
}
