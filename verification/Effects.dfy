/**
 * The few ways in which any statement or transaction can move the rows of one job. Everything
 * proved about whole runs rests on these shapes instead of on the statements themselves.
 */
module Effects {
  import opened Rows
  import opened Statements
  import opened Runs

  // ---- execution rows

  /** One row changes, not its retry time; it never becomes SCHEDULED, and QUEUED only from SCHEDULED. */
  ghost predicate Rewrites(ex: map<nat, Execution>, ex': map<nat, Execution>, k: nat) {
    && k in ex && k in ex'
    && ex' == ex[k := ex'[k]]
    && ex'[k].retryAt == ex[k].retryAt
    && !ex'[k].status.Scheduled?
    && (ex'[k].status.Queued? ==> ex[k].status.Scheduled?)
  }

  /** Attempt k ends and attempt k + 1 is scheduled. */
  ghost predicate Replaces(ex: map<nat, Execution>, ex': map<nat, Execution>, k: nat, max: nat) {
    && k in ex && k + 1 !in ex && k < max
    && k in ex' && k + 1 in ex'
    && ex' == ex[k := ex'[k]][k + 1 := ex'[k + 1]]
    && ex'[k].status.Terminal() && ex'[k].retryAt == ex[k].retryAt
    && ex'[k + 1].status.Scheduled? && ex'[k + 1].retryAt.Some?
  }

  /** Attempt 1 appears, QUEUED. */
  ghost predicate Opens(ex: map<nat, Execution>, ex': map<nat, Execution>) {
    1 !in ex && 1 in ex' && ex' == ex[1 := ex'[1]] && ex'[1].status.Queued? && ex'[1].retryAt.None?
  }

  ghost predicate AttemptMoves(c: Cell, c': Cell, k: nat) {
    || c'.executions == c.executions
    || Rewrites(c.executions, c'.executions, k)
    || Replaces(c.executions, c'.executions, k, c.job.maxAttempts)
    || Opens(c.executions, c'.executions)
  }

  // ---- the job row and the final-state metric

  ghost predicate JobMoves(c: Cell, c': Cell) {
    && c'.job.maxAttempts == c.job.maxAttempts
    && c'.job.runAt == c.job.runAt
    && c'.job.hasHandler == c.job.hasHandler
    && (|| (c'.job.status == c.job.status && c'.tally.finals == c.tally.finals)
        || (c.job.status.JobScheduled? && c'.job.status.JobQueued? && c'.tally.finals == c.tally.finals)
        || (c.job.status.JobQueued? && c'.job.status.JobRunning? && c'.tally.finals == c.tally.finals)
        || (&& !c.job.status.Terminal() && c'.job.status.Terminal()
            && c'.tally.finals == c.tally.finals + 1
            && (c'.job.status.JobCompleted? ==> c'.record.status.Done?)
            && (c'.job.status.JobCancelled? ==> c.job.status.JobScheduled?)))
  }

  // ---- the idempotency record

  ghost predicate SameClaims(c: Cell, c': Cell) {
    && c'.tally.claims == c.tally.claims
    && c'.tally.resets == c.tally.resets
    && c'.tally.successes == c.tally.successes
  }

  ghost predicate RecordMoves(c: Cell, c': Cell) {
    && c'.record.key == c.record.key
    && (|| (c'.record == c.record && SameClaims(c, c'))
        || (&& c.record.status.Pending? && c'.record.status.Processing?
            && c'.record.processingStartedAt.Some?
            && c'.tally.claims == c.tally.claims + 1
            && c'.tally.resets == c.tally.resets && c'.tally.successes == c.tally.successes)
        || (&& c.record.status.Processing? && c'.record.status.Pending?
            && c'.record.processingStartedAt.None?
            && c'.tally.resets == c.tally.resets + 1
            && c'.tally.claims == c.tally.claims && c'.tally.successes == c.tally.successes)
        || (&& c.record.status.Processing? && c'.record.status.Done?
            && c'.record.processingStartedAt.None?
            && c'.job.status.Terminal()
            && c'.tally.successes == c.tally.successes + 1
            && c'.tally.claims == c.tally.claims && c'.tally.resets == c.tally.resets))
  }

  // ---- leases, outbox

  ghost predicate LeaseMoves(c: Cell, c': Cell) {
    && (forall k :: k in c.leases ==>
          k in c'.leases && c.leases[k].acquisition <= c'.leases[k].acquisition)
    && (forall k :: k in c'.leases && k !in c.leases ==> k in c.executions)
  }

  ghost predicate SamePublishing(c: Cell, c': Cell) {
    && c'.tally.outboxed == c.tally.outboxed
    && c'.tally.published == c.tally.published
    && c'.tally.unpublished == c.tally.unpublished
  }

  /** The row `t` points at leaves SCHEDULED. */
  ghost predicate LeavesScheduled(c: Cell, c': Cell, t: Target) {
    match t
    case JobTarget => c.job.status.JobScheduled? && c'.job.status.JobQueued?
    case AttemptTarget(k) =>
      && k in c.executions && c.executions[k].status.Scheduled?
      && k in c'.executions && c'.executions[k].status.Queued?
  }

  ghost predicate Inserts(c: Cell, c': Cell, t: Target) {
    && t !in c.outbox && LeavesScheduled(c, c', t)
    && c'.outbox == c.outbox[t := OutboxRow(OutboxPending, None)]
    && c'.tally.outboxed == c.tally.outboxed + multiset{t}
    && c'.tally.published == c.tally.published
    && c'.tally.unpublished == c.tally.unpublished
  }

  ghost predicate Publishes(c: Cell, c': Cell, t: Target) {
    && t in c.outbox && c.outbox[t].status.OutboxPending?
    && t in c'.outbox && c'.outbox == c.outbox[t := c'.outbox[t]]
    && c'.outbox[t].status.OutboxPublished? && c'.outbox[t].publishedAt.Some?
    && c'.tally.outboxed == c.tally.outboxed
    && c'.tally.published == c.tally.published + multiset{t}
    && c'.tally.unpublished == c.tally.unpublished
  }

  ghost predicate Unpublishes(c: Cell, c': Cell, t: Target) {
    && t in c.outbox && c.outbox[t].status.OutboxPublished?
    && c'.outbox == c.outbox[t := OutboxRow(OutboxPending, None)]
    && c'.tally.outboxed == c.tally.outboxed
    && c'.tally.published == c.tally.published
    && c'.tally.unpublished == c.tally.unpublished + multiset{t}
  }

  /** Rows go, the others stay as they are. */
  ghost predicate Prunes(c: Cell, c': Cell) {
    && (forall t :: t in c'.outbox ==> t in c.outbox && c'.outbox[t] == c.outbox[t])
    && SamePublishing(c, c')
  }

  ghost predicate OutboxMoves(c: Cell, c': Cell) {
    || (c'.outbox == c.outbox && SamePublishing(c, c'))
    || Prunes(c, c')
    || (exists t :: Inserts(c, c', t))
    || (exists t :: Publishes(c, c', t))
    || (exists t :: Unpublishes(c, c', t))
  }

  ghost predicate Moves(c: Cell, c': Cell, k: nat) {
    && AttemptMoves(c, c', k)
    && JobMoves(c, c')
    && RecordMoves(c, c')
    && LeaseMoves(c, c')
    && OutboxMoves(c, c')
  }

  // ---- each statement and transaction moves the rows in these ways

  lemma ClaimDueJobMoves(c: Cell, now: Time)
    ensures Moves(c, ClaimDueJob(c, now).GetOr(c), 0)
  {
    var c' := ClaimDueJob(c, now).GetOr(c);
    assert c' == c || Inserts(c, c', JobTarget);
  }

  lemma ClaimDueExecutionMoves(c: Cell, k: nat, now: Time)
    ensures Moves(c, ClaimDueExecution(c, k, now).GetOr(c), k)
  {
    var c' := ClaimDueExecution(c, k, now).GetOr(c);
    assert c' == c || Inserts(c, c', AttemptTarget(k));
  }

  lemma CancelMoves(c: Cell, now: Time)
    ensures Moves(c, CancelJobStatus(c, now), 0)
  {
    hide Inserts, Publishes, Unpublishes, Prunes;
  }

  lemma ClaimOutboxMoves(c: Cell, t: Target, now: Time)
    ensures Moves(c, ClaimOutbox(c, t, now), 0)
  {
    assert ClaimOutbox(c, t, now) == c || Publishes(c, ClaimOutbox(c, t, now), t);
  }

  lemma ResetOutboxMoves(c: Cell, t: Target)
    ensures Moves(c, ResetOutbox(c, t), 0)
  {
    assert ResetOutbox(c, t) == c || Unpublishes(c, ResetOutbox(c, t), t);
  }

  lemma PruneMoves(c: Cell, retention: nat, now: Time)
    ensures Moves(c, Prune(c, retention, now), 0)
  {
  }

  lemma RenewMoves(c: Cell, k: nat, worker: WorkerId, duration: nat, now: Time)
    ensures Moves(c, RenewLease(c, k, worker, duration, now), 0)
  {
    hide Inserts, Publishes, Unpublishes, Prunes;
  }

  lemma ResetStaleMoves(c: Cell, timeout: int, now: Time)
    ensures Moves(c, ResetStaleProcessingRecord(c, timeout, now), 0)
  {
    hide Inserts, Publishes, Unpublishes, Prunes;
  }

  lemma FinishJobLeaves(c: Cell, status: JobStatus, now: Time)
    ensures
      var c' := FinishJob(c, status, now);
      && c'.executions == c.executions && c'.leases == c.leases && c'.outbox == c.outbox
      && SamePublishing(c, c')
  {
  }

  lemma SuccessMovesRows(c: Cell, k: nat, now: Time)
    ensures
      var c' := SuccessTransaction(c, k, now).GetOr(c);
      AttemptMoves(c, c', k) && LeaseMoves(c, c') && OutboxMoves(c, c') && c'.leases == c.leases
  {
    hide Inserts, Publishes, Unpublishes, Prunes, Replaces, Opens, FinishJob;
    if c.record.status.Processing? {
      FinishJobLeaves(SuccessExecution(CompleteIdempotency(c).value, k, now), JobCompleted, now);
    }
  }

  lemma SuccessMovesJob(c: Cell, k: nat, now: Time)
    ensures JobMoves(c, SuccessTransaction(c, k, now).GetOr(c))
    ensures RecordMoves(c, SuccessTransaction(c, k, now).GetOr(c))
  {
  }

  lemma SuccessMoves(c: Cell, k: nat, now: Time)
    ensures Moves(c, SuccessTransaction(c, k, now).GetOr(c), k)
    ensures SuccessTransaction(c, k, now).GetOr(c).leases == c.leases
  {
    hide AttemptMoves, JobMoves, RecordMoves, LeaseMoves, OutboxMoves;
    SuccessMovesRows(c, k, now);
    SuccessMovesJob(c, k, now);
  }

  lemma RetryMoves(c: Cell, k: nat, timedOut: bool, delay: nat, now: Time)
    requires k in c.executions && k < c.job.maxAttempts
    ensures Moves(c, RetryTransaction(c, k, timedOut, delay, now).GetOr(c), k)
    ensures RetryTransaction(c, k, timedOut, delay, now).GetOr(c).leases == c.leases
  {
    hide Inserts, Publishes, Unpublishes, Prunes;
  }

  lemma FinalFailureMovesRows(c: Cell, k: nat, timedOut: bool, now: Time)
    ensures
      var c' := FinalFailureTransaction(c, k, timedOut, now);
      AttemptMoves(c, c', k) && LeaseMoves(c, c') && OutboxMoves(c, c') && c'.leases == c.leases
  {
    hide Inserts, Publishes, Unpublishes, Prunes, Replaces, Opens, FinishJob;
    FinishJobLeaves(CloseAttempt(c, k, timedOut, now), JobFailed, now);
  }

  lemma FinalFailureMovesJob(c: Cell, k: nat, timedOut: bool, now: Time)
    ensures JobMoves(c, FinalFailureTransaction(c, k, timedOut, now))
    ensures RecordMoves(c, FinalFailureTransaction(c, k, timedOut, now))
  {
  }

  lemma FinalFailureMoves(c: Cell, k: nat, timedOut: bool, now: Time)
    ensures Moves(c, FinalFailureTransaction(c, k, timedOut, now), k)
    ensures FinalFailureTransaction(c, k, timedOut, now).leases == c.leases
  {
    hide AttemptMoves, JobMoves, RecordMoves, LeaseMoves, OutboxMoves;
    FinalFailureMovesRows(c, k, timedOut, now);
    FinalFailureMovesJob(c, k, timedOut, now);
  }

  lemma AlreadyCompletedMoves(c: Cell, k: nat, now: Time)
    requires c.record.status.Done?
    ensures Moves(c, AlreadyCompletedTransaction(c, k, now), k)
    ensures AlreadyCompletedTransaction(c, k, now).leases == c.leases
  {
    hide Inserts, Publishes, Unpublishes, Prunes;
  }

  lemma CrashLastMoves(c: Cell, k: nat, now: Time)
    requires ExpiredLease(c, k, now)
    ensures Moves(c, CrashLastAttempt(c, k, now), k)
  {
    hide Inserts, Publishes, Unpublishes, Prunes;
  }

  lemma CrashAndReplaceMoves(c: Cell, k: nat, delay: nat, now: Time)
    requires ExpiredLease(c, k, now) && c.record.status.Processing? && k < c.job.maxAttempts
    ensures Moves(c, CrashAndReplace(c, k, delay, now).GetOr(c), k)
  {
    hide Inserts, Publishes, Unpublishes, Prunes;
  }

  lemma RecoverMoves(c: Cell, k: nat, delay: nat, now: Time)
    ensures Moves(c, RecoverExpiredExecution(c, k, delay, now).cell, k)
  {
    hide AlreadyCompletedTransaction, CrashLastAttempt, CrashAndReplace;
    match RecoverExpiredExecution(c, k, delay, now).exit
    case AlreadyDone => AlreadyCompletedMoves(c, k, now);
    case AttemptsExhausted => CrashLastMoves(c, k, now);
    case Replaced => CrashAndReplaceMoves(c, k, delay, now);
    case _ =>
  }

  lemma FinishMoves(c: Cell, k: nat, outcome: Outcome, now: Time)
    requires k in c.executions
    ensures Moves(c, Finish(c, k, c.job.maxAttempts, outcome, now), k)
    ensures Finish(c, k, c.job.maxAttempts, outcome, now).leases == c.leases
  {
    hide SuccessTransaction, RetryTransaction, FinalFailureTransaction, Moves;
    if outcome.Succeeded? {
      SuccessMoves(c, k, now);
    } else if k < c.job.maxAttempts {
      RetryMoves(c, k, outcome.Expired?, outcome.delay, now);
    } else {
      FinalFailureMoves(c, k, outcome.Expired?, now);
    }
  }

  lemma OpenMoves(c: Cell, k: nat, now: Time)
    ensures Moves(c, GetOrCreateInitialExecution(c, now), k)
    ensures GetOrCreateInitialExecution(c, now).leases == c.leases
  {
    hide Inserts, Publishes, Unpublishes, Prunes;
  }

  lemma AcquireMoves(c: Cell, k: nat, worker: WorkerId, duration: nat, now: Time)
    ensures Moves(c, AcquireExecutionLease(c, k, worker, duration, now).GetOr(c), k)
  {
    hide Inserts, Publishes, Unpublishes, Prunes;
  }

  lemma ClaimStartMoves(c: Cell, k: nat, now: Time)
    ensures Moves(c, c, k)
    ensures Moves(c, FailedExecution(c, k, now), k)
    ensures Moves(c, ClaimIdempotency(c, now), k)
    ensures Moves(c, StartExecution(c, k, now), k)
    ensures FailedExecution(c, k, now).leases == c.leases
    ensures ClaimIdempotency(c, now).leases == c.leases
    ensures StartExecution(c, k, now).leases == c.leases
  {
    hide Inserts, Publishes, Unpublishes, Prunes;
  }

  lemma StartJobMoves(c: Cell, k: nat, now: Time)
    ensures Moves(c, StartJob(c, now), k)
    ensures Moves(c, BeginHandler(StartJob(c, now), k), k)
    ensures StartJob(c, now).leases == BeginHandler(StartJob(c, now), k).leases == c.leases
  {
    hide Inserts, Publishes, Unpublishes, Prunes;
  }

  lemma StepMoves(cfg: Config, c: Cell, run: Run, outcome: Outcome, now: Time)
    requires run.point.Handling? ==> run.attempt in c.executions && run.maxAttempts == c.job.maxAttempts
    requires run.point.ClosingCompleted? ==> c.record.status.Done?
    ensures Moves(c, Step(cfg, c, run, outcome, now).cell, run.attempt)
    ensures !run.point.Leasing? ==> Step(cfg, c, run, outcome, now).cell.leases == c.leases
  {
    hide AlreadyCompletedTransaction, FinalFailureTransaction, Finish, Moves, StartJob, BeginHandler,
         GetOrCreateInitialExecution, FailedExecution, ClaimIdempotency, StartExecution, AcquireExecutionLease;
    var k := run.attempt;
    match run.point
    case Creating => OpenMoves(c, k, now);
    case Leasing => AcquireMoves(c, k, run.worker, cfg.leaseDuration, now);
    case ClosingCompleted => AlreadyCompletedMoves(c, k, now);
    case StartingJob => StartJobMoves(c, k, now);
    case ClosingUnhandled => FinalFailureMoves(c, k, false, now);
    case Handling => FinishMoves(c, k, outcome, now);
    case _ => ClaimStartMoves(c, k, now);
  }
}
