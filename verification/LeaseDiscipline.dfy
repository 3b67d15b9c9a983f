/**
 * Tier B: what holds when every run writes only while its own lease acquisition is current and
 * unexpired.
 */
module LeaseDiscipline {
  import opened Rows
  import opened Statements
  import opened Runs
  import opened Protocol
  import opened Effects
  import opened EveryInterleaving

  // ---- the invariant

  function Newest(c: Cell): nat { |c.executions| }

  /** All attempts below the newest are terminal. */
  ghost predicate OlderTerminal(c: Cell) {
    forall k :: k in c.executions && k < Newest(c) ==> c.executions[k].status.Terminal()
  }

  /** The job is terminal exactly when its newest attempt is, COMPLETED matching COMPLETED. */
  ghost predicate JobFollowsNewest(c: Cell) {
    if Newest(c) == 0 then !c.job.status.JobRunning? && !c.job.status.JobCompleted? && !c.job.status.JobFailed?
    else
      && Newest(c) in c.executions
      && (c.job.status.Terminal() <==> c.executions[Newest(c)].status.Terminal())
      && (c.job.status.JobCompleted? <==> c.executions[Newest(c)].status.Completed?)
  }

  /** The record is COMPLETED exactly when the job is; a SCHEDULED attempt finds it PENDING. */
  ghost predicate RecordFollowsJob(c: Cell) {
    && (c.record.status.Done? <==> c.job.status.JobCompleted?)
    && (Newest(c) in c.executions && c.executions[Newest(c)].status.Scheduled? ==> c.record.status.Pending?)
  }

  ghost predicate RunningIsLeased(c: Cell) {
    forall k :: k in c.executions && c.executions[k].status.Running? ==> k in c.leases
  }

  ghost predicate RowsAgree(c: Cell) {
    AttemptChain(c) && OlderTerminal(c) && JobFollowsNewest(c) && RecordFollowsJob(c) && RunningIsLeased(c)
  }

  /** A run whose acquisition is current: its attempt is where the run left it, or has been crashed. */
  ghost predicate CurrentRunAgrees(c: Cell, now: Time, run: Run) {
    Current(c, run) && run.attempt in c.executions ==>
      && !run.point.ClosingStranded? && !run.point.ClosingCompleted?
      && var status := c.executions[run.attempt].status;
         if run.point.Started()
         then status.Running? || (status.WorkerCrashed? && c.leases[run.attempt].expiresAt <= now)
         else status.Queued?
  }

  ghost predicate RunsAgree(s: System) {
    && (forall r :: r in s.runs ==> CurrentRunAgrees(s.cell, s.now, s.runs[r]))
    && (forall r, q :: r in s.runs && q in s.runs && r != q ==> Apart(s.runs[r], s.runs[q]))
  }

  /** No two runs made the same acquisition. */
  ghost predicate Apart(a: Run, b: Run) {
    a.point.Leased() && b.point.Leased() && a.attempt == b.attempt ==> a.acquisition != b.acquisition
  }

  /** Each attempt's handler has been started at most once, and only after startExecution. */
  ghost predicate StartedRows(c: Cell) {
    && (forall k :: c.tally.starts[k] <= 1)
    && (forall k :: k in c.tally.starts ==>
          k in c.executions && !c.executions[k].status.Scheduled? && !c.executions[k].status.Queued?)
  }

  ghost predicate AboutToStart(c: Cell, run: Run) {
    run.point.StartingJob? && Current(c, run) ==> run.attempt !in c.tally.starts
  }

  ghost predicate StartedOnce(s: System) {
    StartedRows(s.cell) && forall r :: r in s.runs ==> AboutToStart(s.cell, s.runs[r])
  }

  ghost predicate InvB(s: System) {
    Inv(s) && RowsAgree(s.cell) && RunsAgree(s) && StartedOnce(s)
  }

  lemma CreatedInvB(job: Job, key: string, now: Time)
    requires FreshJob(job)
    ensures InvB(Created(job, key, now))
  {
  }

  // ---- each transaction keeps the rows in agreement

  lemma OpenAgrees(c: Cell, now: Time)
    requires RowsAgree(c) && !Unclaimed(c) && c.job.maxAttempts >= 1
    ensures RowsAgree(GetOrCreateInitialExecution(c, now))
  {
    if 1 !in c.executions {
      assert c.executions == map[] by {
        assert |c.executions| == 0;
      }
    }
  }

  lemma AcquireAgrees(c: Cell, k: nat, worker: WorkerId, duration: nat, now: Time)
    requires RowsAgree(c)
    ensures RowsAgree(AcquireExecutionLease(c, k, worker, duration, now).GetOr(c))
  {
  }

  lemma RenewAgrees(c: Cell, k: nat, worker: WorkerId, duration: nat, now: Time)
    requires RowsAgree(c)
    ensures RowsAgree(RenewLease(c, k, worker, duration, now))
  {
  }

  lemma ClaimAgrees(c: Cell, k: nat, now: Time)
    requires RowsAgree(c) && k in c.executions && c.executions[k].status.Queued?
    ensures RowsAgree(ClaimIdempotency(c, now))
  {
  }

  lemma StartAgrees(c: Cell, k: nat, now: Time)
    requires RowsAgree(c) && k in c.executions && c.executions[k].status.Queued? && k in c.leases
    ensures RowsAgree(StartExecution(c, k, now))
  {
  }

  lemma StartJobAgrees(c: Cell, k: nat, now: Time)
    requires RowsAgree(c) && k in c.executions && c.executions[k].status.Running?
    ensures RowsAgree(StartJob(c, now)) && RowsAgree(BeginHandler(StartJob(c, now), k))
  {
  }

  lemma SuccessAgrees(c: Cell, k: nat, now: Time)
    requires RowsAgree(c) && k in c.executions && c.executions[k].status.Running?
    ensures RowsAgree(SuccessTransaction(c, k, now).GetOr(c))
  {
  }

  /** The RUNNING attempt ended, its successor scheduled, the claim released. */
  lemma ReplacedAgrees(c: Cell, c': Cell, k: nat)
    requires RowsAgree(c) && k in c.executions && c.executions[k].status.Running?
    requires Replaces(c.executions, c'.executions, k, c.job.maxAttempts) && !c'.executions[k].status.Completed?
    requires c'.job == c.job && c'.leases == c.leases && c'.record.status.Pending?
    ensures RowsAgree(c')
  {
    assert k == Newest(c) && Newest(c') == k + 1;
  }

  lemma RetryAgrees(c: Cell, k: nat, timedOut: bool, delay: nat, now: Time)
    requires RowsAgree(c) && k in c.executions && c.executions[k].status.Running? && k < c.job.maxAttempts
    ensures RowsAgree(RetryTransaction(c, k, timedOut, delay, now).GetOr(c))
  {
    hide RowsAgree;
    if RetryTransaction(c, k, timedOut, delay, now).Some? {
      ReplacedAgrees(c, RetryTransaction(c, k, timedOut, delay, now).value, k);
    }
  }

  lemma FinalFailureAgrees(c: Cell, k: nat, timedOut: bool, now: Time)
    requires RowsAgree(c) && k in c.executions && c.executions[k].status.Running?
    ensures RowsAgree(FinalFailureTransaction(c, k, timedOut, now))
  {
  }

  lemma CrashLastAgrees(c: Cell, k: nat, now: Time)
    requires RowsAgree(c) && ExpiredLease(c, k, now)
    ensures RowsAgree(CrashLastAttempt(c, k, now))
  {
  }

  lemma CrashAndReplaceAgrees(c: Cell, k: nat, delay: nat, now: Time)
    requires RowsAgree(c) && ExpiredLease(c, k, now) && c.record.status.Processing? && k < c.job.maxAttempts
    ensures RowsAgree(CrashAndReplace(c, k, delay, now).GetOr(c))
  {
    hide RowsAgree;
    if CrashAndReplace(c, k, delay, now).Some? {
      ReplacedAgrees(c, CrashAndReplace(c, k, delay, now).value, k);
    }
  }

  lemma ClaimDueAgrees(c: Cell, k: nat, now: Time)
    requires RowsAgree(c)
    ensures RowsAgree(ClaimDueExecution(c, k, now).GetOr(c))
  {
  }

  lemma UnclaimedAgrees(c: Cell, now: Time)
    requires RowsAgree(c) && (Unclaimed(c) ==> c.executions == map[] && c.record.status.Pending?)
    ensures RowsAgree(ClaimDueJob(c, now).GetOr(c))
    ensures RowsAgree(CancelJobStatus(c, now))
  {
  }

  lemma ResetStaleAgrees(c: Cell, timeout: int, now: Time)
    requires RowsAgree(c)
    ensures RowsAgree(ResetStaleProcessingRecord(c, timeout, now))
  {
  }

  // ---- so every legal action does

  lemma RowFacts(s: System)
    requires InvB(s)
    ensures RowsAgree(s.cell) && s.cell.job.maxAttempts >= 1
    ensures Unclaimed(s.cell) ==>
      s.cell.executions == map[] && s.cell.record.status.Pending? && s.runs == map[]
  {
  }

  lemma RunFacts(s: System, r: RunId)
    requires InvB(s) && r in s.runs
    ensures SnapshotsAgree(s.cell, s.runs[r]) && CurrentRunAgrees(s.cell, s.now, s.runs[r])
    ensures !Unclaimed(s.cell)
  {
    assert s.runs != map[];
  }

  /** A run that may write is at the newest attempt, and finds it as it left it. */
  lemma LegalWriteFindsNewest(s: System, r: RunId)
    requires InvB(s) && r in s.runs && s.runs[r].point.LeasedWrite() && Holds(s, r)
    ensures
      var run := s.runs[r];
      && run.attempt in s.cell.executions
      && run.attempt == Newest(s.cell)
      && !run.point.ClosingStranded? && !run.point.ClosingCompleted?
      && (if run.point.Started() then s.cell.executions[run.attempt].status.Running?
          else s.cell.executions[run.attempt].status.Queued?)
  {
    RunFacts(s, r);
  }

  lemma FinishAgrees(c: Cell, k: nat, outcome: Outcome, now: Time)
    requires RowsAgree(c) && k in c.executions && c.executions[k].status.Running?
    ensures RowsAgree(Finish(c, k, c.job.maxAttempts, outcome, now))
  {
    hide RowsAgree, SuccessTransaction, RetryTransaction, FinalFailureTransaction;
    if outcome.Succeeded? {
      SuccessAgrees(c, k, now);
    } else if k < c.job.maxAttempts {
      RetryAgrees(c, k, outcome.Expired?, outcome.delay, now);
    } else {
      FinalFailureAgrees(c, k, outcome.Expired?, now);
    }
  }

  lemma RecoverAgrees(c: Cell, k: nat, delay: nat, now: Time)
    requires RowsAgree(c)
    ensures RowsAgree(RecoverExpiredExecution(c, k, delay, now).cell)
  {
    hide AlreadyCompletedTransaction, CrashLastAttempt, CrashAndReplace;
    match RecoverExpiredExecution(c, k, delay, now).exit
    case AttemptsExhausted => CrashLastAgrees(c, k, now);
    case Replaced => CrashAndReplaceAgrees(c, k, delay, now);
    case _ =>
  }

  lemma AdvanceAgrees(cfg: Config, s: System, r: RunId, outcome: Outcome)
    requires InvB(s) && r in s.runs && Disciplined(s, Advance(r, outcome))
    ensures RowsAgree(Step(cfg, s.cell, s.runs[r], outcome, s.now).cell)
  {
    hide InvB, RowsAgree, AlreadyCompletedTransaction, FinalFailureTransaction, Finish, StartJob,
         GetOrCreateInitialExecution, FailedExecution, ClaimIdempotency, StartExecution, AcquireExecutionLease;
    var c, run := s.cell, s.runs[r];
    var k := run.attempt;
    RowFacts(s);
    RunFacts(s, r);
    if run.point.LeasedWrite() {
      LegalWriteFindsNewest(s, r);
    }
    match run.point
    case Creating => OpenAgrees(c, s.now);
    case Leasing => AcquireAgrees(c, k, run.worker, cfg.leaseDuration, s.now);
    case Claiming => ClaimAgrees(c, k, s.now);
    case Starting => StartAgrees(c, k, s.now);
    case StartingJob => StartJobAgrees(c, k, s.now);
    case ClosingUnhandled => FinalFailureAgrees(c, k, false, s.now);
    case Handling => FinishAgrees(c, k, outcome, s.now);
    case _ =>
  }

  /** Outbox and queue operations leave the four other tables alone. */
  ghost predicate SameTables(c: Cell, c': Cell) {
    && c'.job == c.job && c'.record == c.record
    && c'.executions == c.executions && c'.leases == c.leases
    && c'.tally.starts == c.tally.starts
  }

  predicate OnlyOutboxOrQueue(a: Action) {
    !a.Advance? && !a.CancelJob? && !a.ClaimJob? && !a.ClaimAttempt? && !a.Renew? && !a.ResetStale? && !a.Recover?
  }

  lemma OutboxAndQueueAlone(cfg: Config, s: System, a: Action)
    requires OnlyOutboxOrQueue(a)
    ensures SameTables(s.cell, Apply(cfg, s, a).cell)
  {
    hide Start;
  }

  lemma SameTablesAgree(c: Cell, c': Cell)
    requires RowsAgree(c) && SameTables(c, c')
    ensures RowsAgree(c')
  {
  }

  lemma ApplyKeepsRowsAgree(cfg: Config, s: System, a: Action)
    requires InvB(s) && Disciplined(s, a)
    ensures RowsAgree(Apply(cfg, s, a).cell)
  {
    hide InvB, RowsAgree, Disciplined, SameTables, Step, ClaimDueJob, ClaimDueExecution, CancelJobStatus,
         RenewLease, ResetStaleProcessingRecord, RecoverExpiredExecution;
    var c := s.cell;
    RowFacts(s);
    if OnlyOutboxOrQueue(a) {
      OutboxAndQueueAlone(cfg, s, a);
      SameTablesAgree(c, Apply(cfg, s, a).cell);
    } else if a.Advance? {
      if a.id in s.runs {
        AdvanceAgrees(cfg, s, a.id, a.outcome);
      }
    } else if a.Recover? {
      RecoverAgrees(c, a.attempt, a.delay, s.now);
    } else if a.ClaimAttempt? {
      ClaimDueAgrees(c, a.attempt, s.now);
    } else if a.Renew? {
      RenewAgrees(c, a.attempt, a.worker, cfg.leaseDuration, s.now);
    } else if a.ResetStale? {
      ResetStaleAgrees(c, cfg.processingTimeout, s.now);
    } else {
      UnclaimedAgrees(c, s.now);
    }
  }

  // ---- runs

  /**
   * What may happen to the attempt and lease of a run whose acquisition is current, at the hands of
   * others: nothing, a renewal, or recovery after expiry.
   */
  ghost predicate OthersLeave(c: Cell, c': Cell, now: Time, now': Time, k: nat) {
    && now <= now'
    && (k in c'.executions ==>
          && k in c.executions
          && (|| c'.executions[k].status == c.executions[k].status
              || (&& c.executions[k].status.Running? && c'.executions[k].status.WorkerCrashed?
                  && k in c.leases && c.leases[k].expiresAt <= now)))
    && (k in c.leases && k in c'.leases ==>
          c.leases[k].expiresAt <= now && c'.leases[k].acquisition == c.leases[k].acquisition ==>
            c'.leases[k].expiresAt == c.leases[k].expiresAt)
  }

  lemma CurrentRunKept(c: Cell, c': Cell, now: Time, now': Time, run: Run)
    requires SnapshotsAgree(c, run) && CurrentRunAgrees(c, now, run)
    requires OthersLeave(c, c', now, now', run.attempt) && LeaseMoves(c, c')
    ensures CurrentRunAgrees(c', now', run)
  {
  }

  /** A current run reads a job that is not over and a record that is not COMPLETED. */
  lemma CurrentReaderSeesUnfinished(s: System, r: RunId)
    requires InvB(s) && r in s.runs && Current(s.cell, s.runs[r])
    requires s.runs[r].point.ReadingJob? || s.runs[r].point.ReadingClaim?
    ensures !s.cell.job.status.Terminal() && !s.cell.record.status.Done?
  {
    RowFacts(s);
    RunFacts(s, r);
  }

  /** The run that steps, when it may. */
  lemma SteppingRunAgrees(cfg: Config, s: System, r: RunId, outcome: Outcome)
    requires InvB(s) && r in s.runs && Disciplined(s, Advance(r, outcome))
    ensures
      var next := Step(cfg, s.cell, s.runs[r], outcome, s.now);
      next.run.Some? ==> CurrentRunAgrees(next.cell, s.now, next.run.value)
  {
    hide InvB, Finish, FinalFailureTransaction, AlreadyCompletedTransaction, GetOrCreateInitialExecution;
    var c, run := s.cell, s.runs[r];
    RunFacts(s, r);
    if run.point.LeasedWrite() {
      LegalWriteFindsNewest(s, r);
    } else if run.point.Leased() && Current(c, run) {
      CurrentReaderSeesUnfinished(s, r);
    }
  }

  /** Another run's legal write is either at another attempt or impossible: this run is the current one. */
  lemma OtherWriteElsewhere(s: System, r: RunId, q: RunId)
    requires InvB(s) && r in s.runs && q in s.runs && q != r
    requires Current(s.cell, s.runs[r])
    requires s.runs[q].point.LeasedWrite() && Holds(s, q)
    ensures s.runs[q].attempt in s.cell.executions
    ensures s.runs[q].attempt == Newest(s.cell) && s.runs[q].attempt != s.runs[r].attempt
  {
    LegalWriteFindsNewest(s, q);
    assert Apart(s.runs[r], s.runs[q]);
  }

  lemma LeasingStep(cfg: Config, c: Cell, run: Run, outcome: Outcome, now: Time)
    requires run.point.Leasing?
    ensures Step(cfg, c, run, outcome, now).cell ==
            AcquireExecutionLease(c, run.attempt, run.worker, cfg.leaseDuration, now).GetOr(c)
  {
    hide Finish, FinalFailureTransaction, AlreadyCompletedTransaction;
  }

  lemma CreatingStep(cfg: Config, c: Cell, run: Run, outcome: Outcome, now: Time)
    requires run.point.Creating?
    ensures Step(cfg, c, run, outcome, now).cell == GetOrCreateInitialExecution(c, now)
  {
    hide Finish, FinalFailureTransaction, AlreadyCompletedTransaction;
  }

  lemma LeasingLeases(c: Cell, k: nat, worker: WorkerId, duration: nat, now: Time)
    ensures
      var c' := AcquireExecutionLease(c, k, worker, duration, now).GetOr(c);
      && c'.executions == c.executions
      && (forall j :: j != k && j in c.leases ==> j in c'.leases && c'.leases[j] == c.leases[j])
      && (k in c.leases && k in c'.leases ==> c'.leases[k].acquisition == c.leases[k].acquisition ==> c' == c)
  {
  }

  lemma ReadsChangeNothing(cfg: Config, c: Cell, run: Run, outcome: Outcome, now: Time)
    requires run.point.Reading? || run.point.ReadingJob? || run.point.ReadingClaim?
    ensures Step(cfg, c, run, outcome, now).cell == c
  {
    hide Finish, FinalFailureTransaction, AlreadyCompletedTransaction;
  }

  lemma OtherStepLeavesAlone(cfg: Config, s: System, q: RunId, outcome: Outcome, r: RunId)
    requires InvB(s) && Disciplined(s, Advance(q, outcome))
    requires r in s.runs && q in s.runs && q != r && Current(s.cell, s.runs[r])
    ensures OthersLeave(s.cell, Step(cfg, s.cell, s.runs[q], outcome, s.now).cell, s.now, s.now, s.runs[r].attempt)
  {
    hide InvB, Step, AcquireExecutionLease, JobMoves, RecordMoves, LeaseMoves, OutboxMoves;
    var c, run, other := s.cell, s.runs[r], s.runs[q];
    RunFacts(s, r);
    RunFacts(s, q);
    if other.point.LeasedWrite() {
      OtherWriteElsewhere(s, r, q);
    }
    if other.point.Leasing? {
      LeasingLeases(c, other.attempt, other.worker, cfg.leaseDuration, s.now);
      assert Step(cfg, c, other, outcome, s.now).cell ==
        AcquireExecutionLease(c, other.attempt, other.worker, cfg.leaseDuration, s.now).GetOr(c) by {
        LeasingStep(cfg, c, other, outcome, s.now);
      }
    } else if other.point.Reading? || other.point.ReadingJob? || other.point.ReadingClaim? {
      ReadsChangeNothing(cfg, c, other, outcome, s.now);
    } else if other.point.Creating? {
      CreatingStep(cfg, c, other, outcome, s.now);
    } else {
      StepMoves(cfg, c, other, outcome, s.now);
    }
  }

  lemma RecoveryLeavesAlone(c: Cell, j: nat, delay: nat, now: Time, k: nat)
    requires RowsAgree(c) && k in c.executions
    ensures OthersLeave(c, RecoverExpiredExecution(c, j, delay, now).cell, now, now, k)
  {
  }

  lemma ClaimDueLeavesAlone(c: Cell, j: nat, now: Time, k: nat)
    requires k in c.executions && !c.executions[k].status.Scheduled?
    ensures OthersLeave(c, ClaimDueExecution(c, j, now).GetOr(c), now, now, k)
  {
  }

  lemma SmallStatementsLeaveAlone(c: Cell, j: nat, worker: WorkerId, duration: nat, timeout: int, now: Time, k: nat)
    requires k in c.executions
    ensures OthersLeave(c, RenewLease(c, j, worker, duration, now), now, now, k)
    ensures OthersLeave(c, ResetStaleProcessingRecord(c, timeout, now), now, now, k)
    ensures OthersLeave(c, ClaimDueJob(c, now).GetOr(c), now, now, k)
    ensures OthersLeave(c, CancelJobStatus(c, now), now, now, k)
  {
  }

  /** Everyone else leaves a current run's attempt and lease alone, but for renewal and recovery. */
  lemma OthersLeaveAlone(cfg: Config, s: System, a: Action, r: RunId)
    requires InvB(s) && Disciplined(s, a) && r in s.runs && Current(s.cell, s.runs[r])
    requires !(a.Advance? && a.id == r)
    ensures OthersLeave(s.cell, Apply(cfg, s, a).cell, s.now, Apply(cfg, s, a).now, s.runs[r].attempt)
  {
    hide InvB, RowsAgree, Disciplined, Step, ClaimDueJob, ClaimDueExecution, CancelJobStatus,
         RenewLease, ResetStaleProcessingRecord, RecoverExpiredExecution, Start, Suspect, ClaimOutbox, ResetOutbox,
         Prune, Add, RemoveTerminal;
    var c, k := s.cell, s.runs[r].attempt;
    RowFacts(s);
    RunFacts(s, r);
    if OnlyOutboxOrQueue(a) {
      OutboxAndQueueAlone(cfg, s, a);
    } else if a.Advance? {
      if a.id in s.runs {
        OtherStepLeavesAlone(cfg, s, a.id, a.outcome, r);
      }
    } else if a.Recover? {
      RecoveryLeavesAlone(c, a.attempt, a.delay, s.now, k);
    } else if a.ClaimAttempt? {
      ClaimDueLeavesAlone(c, a.attempt, s.now, k);
    } else {
      var j, worker := if a.Renew? then a.attempt else 0, if a.Renew? then a.worker else "";
      SmallStatementsLeaveAlone(c, j, worker, cfg.leaseDuration, cfg.processingTimeout, s.now, k);
    }
  }

  lemma SnapshotFacts(s: System)
    requires InvB(s)
    ensures AllSnapshotsAgree(s)
  {
  }

  lemma ApplyKeepsCurrentRun(cfg: Config, s: System, a: Action, r: RunId)
    requires InvB(s) && Disciplined(s, a) && r in Apply(cfg, s, a).runs
    ensures CurrentRunAgrees(Apply(cfg, s, a).cell, Apply(cfg, s, a).now, Apply(cfg, s, a).runs[r])
  {
    hide InvB, Apply, Step, Disciplined, SnapshotsAgree, CurrentRunAgrees, AttemptMoves, JobMoves, RecordMoves,
         OutboxMoves, OthersLeave;
    var s' := Apply(cfg, s, a);
    WhereRunsComeFrom(cfg, s, a, r);
    if a.Advance? && a.id == r {
      SteppingRunAgrees(cfg, s, r, a.outcome);
    } else if r in s.runs && s'.runs[r] == s.runs[r] {
      RunFacts(s, r);
      SnapshotFacts(s);
      ApplyMoves(cfg, s, a);
      if Current(s.cell, s.runs[r]) {
        OthersLeaveAlone(cfg, s, a, r);
        CurrentRunKept(s.cell, s'.cell, s.now, s'.now, s.runs[r]);
      } else {
        NotCurrentKept(s.cell, s'.cell, s'.now, s.runs[r]);
      }
    } else {
      NotLeased(s'.cell, s'.now, s'.runs[r]);
    }
  }

  lemma NotCurrentKept(c: Cell, c': Cell, now': Time, run: Run)
    requires SnapshotsAgree(c, run) && !Current(c, run) && LeaseMoves(c, c')
    ensures CurrentRunAgrees(c', now', run)
  {
  }

  lemma NotLeased(c: Cell, now: Time, run: Run)
    requires !run.point.Leased()
    ensures CurrentRunAgrees(c, now, run)
  {
  }

  /** A step keeps a leased run's acquisition, and gives a newly leased run a fresh one. */
  lemma StepKeepsApart(cfg: Config, c: Cell, run: Run, outcome: Outcome, now: Time, other: Run)
    requires SnapshotsAgree(c, other) && Apart(run, other)
    ensures
      var next := Step(cfg, c, run, outcome, now).run;
      next.Some? ==> Apart(next.value, other) && Apart(other, next.value)
  {
    hide Finish, FinalFailureTransaction, AlreadyCompletedTransaction;
  }

  lemma ApplyKeepsApart(cfg: Config, s: System, a: Action, r: RunId, q: RunId)
    requires InvB(s) && r in Apply(cfg, s, a).runs && q in Apply(cfg, s, a).runs && r != q
    ensures Apart(Apply(cfg, s, a).runs[r], Apply(cfg, s, a).runs[q])
  {
    hide Apply, Step, Disciplined, SnapshotsAgree, CurrentRunAgrees, Inv, RowsAgree, StartedOnce;
    WhereRunsComeFrom(cfg, s, a, r);
    WhereRunsComeFrom(cfg, s, a, q);
    if r in s.runs && q in s.runs && a.Advance? {
      RunFacts(s, r);
      RunFacts(s, q);
      if a.id == r {
        StepKeepsApart(cfg, s.cell, s.runs[r], a.outcome, s.now, s.runs[q]);
      } else if a.id == q {
        StepKeepsApart(cfg, s.cell, s.runs[q], a.outcome, s.now, s.runs[r]);
      }
    }
  }

  lemma ApplyKeepsRunsAgree(cfg: Config, s: System, a: Action)
    requires InvB(s) && Disciplined(s, a)
    ensures RunsAgree(Apply(cfg, s, a))
  {
    hide InvB, Apply, Disciplined, CurrentRunAgrees, Apart;
    var s' := Apply(cfg, s, a);
    forall r | r in s'.runs
      ensures CurrentRunAgrees(s'.cell, s'.now, s'.runs[r])
    {
      ApplyKeepsCurrentRun(cfg, s, a, r);
    }
    forall r, q | r in s'.runs && q in s'.runs && r != q
      ensures Apart(s'.runs[r], s'.runs[q])
    {
      ApplyKeepsApart(cfg, s, a, r, q);
    }
  }

  // ---- handler starts

  lemma StartFacts(s: System, r: RunId)
    requires InvB(s) && r in s.runs
    ensures StartedRows(s.cell) && AboutToStart(s.cell, s.runs[r])
  {
  }

  lemma StartedRowsKept(c: Cell, c': Cell, k: nat)
    requires StartedRows(c) && AttemptMoves(c, c', k) && c'.tally.starts == c.tally.starts
    ensures StartedRows(c')
  {
  }

  lemma AboutToStartKept(c: Cell, c': Cell, run: Run)
    requires SnapshotsAgree(c, run) && AboutToStart(c, run) && LeaseMoves(c, c')
    requires run.attempt in c'.tally.starts ==> run.attempt in c.tally.starts
    ensures AboutToStart(c', run)
  {
  }

  predicate BeginsHandler(c: Cell, run: Run) { run.point.StartingJob? && c.job.hasHandler }

  lemma StepStarts(cfg: Config, c: Cell, run: Run, outcome: Outcome, now: Time)
    ensures Step(cfg, c, run, outcome, now).cell.tally.starts ==
            if BeginsHandler(c, run) then c.tally.starts + multiset{run.attempt} else c.tally.starts
  {
    hide Finish, FinalFailureTransaction, AlreadyCompletedTransaction;
    OutcomesStartNothing(c, run.attempt, run.maxAttempts, outcome, now);
  }

  lemma StartingJobStep(cfg: Config, c: Cell, run: Run, outcome: Outcome, now: Time)
    requires run.point.StartingJob?
    ensures Step(cfg, c, run, outcome, now).cell.executions == c.executions
  {
    hide Finish, FinalFailureTransaction, AlreadyCompletedTransaction;
  }

  lemma StepKeepsStartedRows(cfg: Config, s: System, r: RunId, outcome: Outcome)
    requires InvB(s) && r in s.runs && Disciplined(s, Advance(r, outcome))
    ensures StartedRows(Step(cfg, s.cell, s.runs[r], outcome, s.now).cell)
  {
    hide InvB, Step, AttemptMoves, RowsAgree, JobMoves, RecordMoves, LeaseMoves, OutboxMoves;
    var c, run := s.cell, s.runs[r];
    var c' := Step(cfg, c, run, outcome, s.now).cell;
    RunFacts(s, r);
    StartFacts(s, r);
    StepMoves(cfg, c, run, outcome, s.now);
    StepStarts(cfg, c, run, outcome, s.now);
    if BeginsHandler(c, run) {
      LegalWriteFindsNewest(s, r);
      StartingJobStep(cfg, c, run, outcome, s.now);
    } else {
      StartedRowsKept(c, c', run.attempt);
    }
  }

  lemma SteppingRunAboutToStart(cfg: Config, s: System, r: RunId, outcome: Outcome)
    requires InvB(s) && r in s.runs && Disciplined(s, Advance(r, outcome))
    ensures
      var next := Step(cfg, s.cell, s.runs[r], outcome, s.now);
      next.run.Some? ==> AboutToStart(next.cell, next.run.value)
  {
    hide InvB, Finish, FinalFailureTransaction, AlreadyCompletedTransaction;
    RunFacts(s, r);
    StartFacts(s, r);
    if s.runs[r].point.Starting? {
      LegalWriteFindsNewest(s, r);
    }
  }

  lemma ApplyKeepsAboutToStart(cfg: Config, s: System, a: Action, r: RunId)
    requires InvB(s) && Disciplined(s, a) && r in Apply(cfg, s, a).runs
    ensures AboutToStart(Apply(cfg, s, a).cell, Apply(cfg, s, a).runs[r])
  {
    hide InvB, Apply, Step, Disciplined, SnapshotsAgree, AttemptMoves, JobMoves, RecordMoves, LeaseMoves,
         OutboxMoves;
    var s' := Apply(cfg, s, a);
    WhereRunsComeFrom(cfg, s, a, r);
    if a.Advance? && a.id == r {
      SteppingRunAboutToStart(cfg, s, r, a.outcome);
    } else if r in s.runs && s'.runs[r] == s.runs[r] && s.runs[r].point.StartingJob? && Current(s'.cell, s.runs[r]) {
      RunFacts(s, r);
      StartFacts(s, r);
      SnapshotFacts(s);
      ApplyMoves(cfg, s, a);
      OtherStartsElsewhere(cfg, s, a, r);
      AboutToStartKept(s.cell, s'.cell, s.runs[r]);
    }
  }

  /** Nobody else starts the handler of a current run's attempt. */
  lemma OtherStartsElsewhere(cfg: Config, s: System, a: Action, r: RunId)
    requires InvB(s) && Disciplined(s, a) && r in s.runs && !(a.Advance? && a.id == r)
    requires s.runs[r].point.StartingJob? && Current(Apply(cfg, s, a).cell, s.runs[r])
    ensures s.runs[r].attempt in Apply(cfg, s, a).cell.tally.starts ==> s.runs[r].attempt in s.cell.tally.starts
  {
    hide InvB, Step, AttemptMoves, JobMoves, RecordMoves, OutboxMoves;
    if !a.Advance? {
      OthersStartNothing(cfg, s, a);
    } else if a.id in s.runs {
      StepStarts(cfg, s.cell, s.runs[a.id], a.outcome, s.now);
      if BeginsHandler(s.cell, s.runs[a.id]) {
        RunFacts(s, r);
        SnapshotFacts(s);
        ApplyMoves(cfg, s, a);
        OtherWriteElsewhere(s, r, a.id);
      }
    }
  }

  lemma ApplyKeepsStartedRows(cfg: Config, s: System, a: Action)
    requires InvB(s) && Disciplined(s, a)
    ensures StartedRows(Apply(cfg, s, a).cell)
  {
    if a.Advance? {
      if a.id in s.runs {
        hide InvB, Step, StartedRows;
        StepKeepsStartedRows(cfg, s, a.id, a.outcome);
      }
    } else {
      assert StartedRows(s.cell);
      hide InvB, Apply, AttemptMoves, JobMoves, RecordMoves, OutboxMoves, StartedRows;
      SnapshotFacts(s);
      ApplyMoves(cfg, s, a);
      OthersStartNothing(cfg, s, a);
      StartedRowsKept(s.cell, Apply(cfg, s, a).cell, Touched(s, a));
    }
  }

  lemma ApplyKeepsInvB(cfg: Config, s: System, a: Action)
    requires InvB(s) && Disciplined(s, a)
    ensures InvB(Apply(cfg, s, a))
  {
    hide Apply, Inv, RowsAgree, RunsAgree, StartedRows, AboutToStart, Disciplined;
    ApplyKeepsInv(cfg, s, a);
    ApplyKeepsRowsAgree(cfg, s, a);
    ApplyKeepsRunsAgree(cfg, s, a);
    ApplyKeepsStartedRows(cfg, s, a);
    forall r | r in Apply(cfg, s, a).runs
      ensures AboutToStart(Apply(cfg, s, a).cell, Apply(cfg, s, a).runs[r])
    {
      ApplyKeepsAboutToStart(cfg, s, a, r);
    }
  }

  /** The invariant holds in every state that any disciplined run reaches. */
  lemma {:induction false} ReachableInvB(cfg: Config, s: System, acts: seq<Action>)
    requires InvB(s) && AllDisciplined(cfg, s, acts)
    ensures InvB(Exec(cfg, s, acts))
    decreases |acts|
  {
    hide InvB, Apply, Disciplined;
    if acts != [] {
      ApplyKeepsInvB(cfg, s, acts[0]);
      ReachableInvB(cfg, Apply(cfg, s, acts[0]), acts[1..]);
    }
  }
}
