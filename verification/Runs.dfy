/** One worker inside createNewExecution / executeExistingExecution, statement by statement. */
module Runs {
  import opened Rows
  import opened Statements

  /** The database statement a run performs next. */
  datatype Point =
    | Creating           // getOrCreateInitialExecution
    | Reading            // getExecutionById
    | Leasing            // acquireExecutionLease
    | ReadingJob         // getJobById
    | ClosingStranded    // failedExecution, the job being FAILED or CANCELLED
    | Claiming           // claimIdempotency, its UPDATE
    | ReadingClaim       // claimIdempotency, its SELECT
    | ClosingCompleted   // successExecution and successJob, the record being COMPLETED
    | Starting           // startExecution
    | StartingJob        // startJob
    | ClosingUnhandled   // failedExecution and failedJob, no handler being registered
    | Handling           // the handler, then its outcome transaction
  {
    /** The run has acquired its lease. */
    predicate Leased() { !Creating? && !Reading? && !Leasing? }

    /** The next statement writes on the strength of the lease. */
    predicate LeasedWrite() { Leased() && !ReadingJob? && !ReadingClaim? }

    /** Between startExecution and the outcome transaction. */
    predicate Started() { StartingJob? || ClosingUnhandled? || Handling? }

    /** Claimed, handler not started yet. */
    predicate Claimed() { Starting? || StartingJob? }
  }

  /** `attempt`, `maxAttempts`: read earlier, used later. `acquisition`: the lease acquisition made. */
  datatype Run = Run(
    point: Point,
    attempt: nat,
    worker: WorkerId,
    acquisition: nat,
    maxAttempts: nat,
    claimedAt: Time)

  /** What the handler did; `delay` is the backoff of a retry. */
  datatype Outcome = Succeeded | Threw(delay: nat) | Expired(delay: nat)

  /** The run's next state; None when it has returned or thrown. */
  datatype StepResult = StepResult(cell: Cell, run: Option<Run>)

  /** worker.ts: what a delivered queue entry starts. None when it ends at once. */
  function Start(c: Cell, t: Target, worker: WorkerId): Option<Run> {
    match t
    case JobTarget =>
      if c.job.status.Terminal() then None else Some(Run(Creating, 0, worker, 0, 0, 0))
    case AttemptTarget(k) => Some(Run(Reading, k, worker, 0, 0, 0))
  }

  function Step(cfg: Config, c: Cell, run: Run, outcome: Outcome, now: Time): StepResult {
    var k := run.attempt;
    match run.point
    case Creating =>
      StepResult(GetOrCreateInitialExecution(c, now), Some(run.(point := Reading, attempt := 1)))
    case Reading =>
      if k in c.executions && c.executions[k].status.Queued?
      then StepResult(c, Some(run.(point := Leasing)))
      else StepResult(c, None)
    case Leasing =>
      (match AcquireExecutionLease(c, k, run.worker, cfg.leaseDuration, now)
       case None => StepResult(c, None)
       case Some(leased) =>
         StepResult(leased, Some(run.(point := ReadingJob, acquisition := leased.leases[k].acquisition))))
    case ReadingJob =>
      if c.job.status.JobFailed? || c.job.status.JobCancelled?
      then StepResult(c, Some(run.(point := ClosingStranded)))
      else StepResult(c, Some(run.(point := Claiming, maxAttempts := c.job.maxAttempts)))
    case ClosingStranded =>
      StepResult(FailedExecution(c, k, now), None)
    case Claiming =>
      StepResult(
        ClaimIdempotency(c, now),
        Some(run.(point := if c.record.status.Pending? then Starting else ReadingClaim, claimedAt := now)))
    case ReadingClaim =>
      StepResult(c, if c.record.status.Done? then Some(run.(point := ClosingCompleted)) else None)
    case ClosingCompleted =>
      StepResult(AlreadyCompletedTransaction(c, k, now), None)
    case Starting =>
      StepResult(StartExecution(c, k, now), Some(run.(point := StartingJob)))
    case StartingJob =>
      if c.job.hasHandler
      then StepResult(BeginHandler(StartJob(c, now), k), Some(run.(point := Handling)))
      else StepResult(StartJob(c, now), Some(run.(point := ClosingUnhandled)))
    case ClosingUnhandled =>
      StepResult(FinalFailureTransaction(c, k, false, now), None)
    case Handling =>
      StepResult(Finish(c, k, run.maxAttempts, outcome, now), None)
  }

  /** History: the handler of attempt k is called. */
  function BeginHandler(c: Cell, k: nat): Cell {
    c.(tally := c.tally.(starts := c.tally.starts + multiset{k}))
  }

  /** The outcome transaction; a rollback leaves the rows as they were. */
  function Finish(c: Cell, k: nat, maxAttempts: nat, outcome: Outcome, now: Time): Cell {
    if outcome.Succeeded? then SuccessTransaction(c, k, now).GetOr(c)
    else if k < maxAttempts then RetryTransaction(c, k, outcome.Expired?, outcome.delay, now).GetOr(c)
    else FinalFailureTransaction(c, k, outcome.Expired?, now)
  }
}
