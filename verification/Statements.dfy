/** What each SQL statement, and each transaction built from them, does to the rows of one job. */
module Statements {
  import opened Rows

  // ---- executions (execution.repository.ts)

  function FailedExecution(c: Cell, k: nat, now: Time): Cell {
    if k !in c.executions then c
    else c.(executions := c.executions[k :=
      c.executions[k].(status := Failed, completedAt := Some(now), updatedAt := now)])
  }

  function SuccessExecution(c: Cell, k: nat, now: Time): Cell {
    if k !in c.executions then c
    else c.(executions := c.executions[k :=
      c.executions[k].(status := Completed, completedAt := Some(now), updatedAt := now)])
  }

  function TimedOutExecution(c: Cell, k: nat, now: Time): Cell {
    if k !in c.executions then c
    else c.(executions := c.executions[k :=
      c.executions[k].(status := TimedOut, completedAt := Some(now), updatedAt := now)])
  }

  function StartExecution(c: Cell, k: nat, now: Time): Cell {
    if k !in c.executions then c
    else c.(executions := c.executions[k :=
      c.executions[k].(status := Running, startedAt := Some(now), updatedAt := now)])
  }

  /** None when no RUNNING row matched. */
  function MarkWorkerCrashed(c: Cell, k: nat, completedAt: Time, now: Time): Option<Cell> {
    if k !in c.executions || !c.executions[k].status.Running? then None
    else Some(c.(executions := c.executions[k :=
      c.executions[k].(status := WorkerCrashed, completedAt := Some(completedAt), updatedAt := now)]))
  }

  /** None when the unique (job_id, attempt) constraint refuses the row. */
  function NewExecution(c: Cell, k: nat, retryAt: Time, now: Time): Option<Cell> {
    if k in c.executions then None
    else Some(c.(executions := c.executions[k := Execution(Scheduled, Some(retryAt), None, None, now)]))
  }

  /** INSERT ... ON CONFLICT (job_id, attempt) DO NOTHING. */
  function GetOrCreateInitialExecution(c: Cell, now: Time): Cell {
    if 1 in c.executions then c
    else c.(executions := c.executions[1 := Execution(Queued, None, None, None, now)])
  }

  // ---- jobs (jobs.repository.ts)

  function FinishJob(c: Cell, status: JobStatus, now: Time): Cell {
    if c.job.status.Terminal() then c
    else c.(job := c.job.(status := status, updatedAt := now),
            tally := c.tally.(finals := c.tally.finals + 1))
  }

  function SuccessJob(c: Cell, now: Time): Cell { FinishJob(c, JobCompleted, now) }

  function FailedJob(c: Cell, now: Time): Cell { FinishJob(c, JobFailed, now) }

  function CancelJobStatus(c: Cell, now: Time): Cell {
    if !c.job.status.JobScheduled? then c else FinishJob(c, JobCancelled, now)
  }

  function StartJob(c: Cell, now: Time): Cell {
    if !c.job.status.JobQueued? then c
    else c.(job := c.job.(status := JobRunning, updatedAt := now))
  }

  // ---- idempotency_records (idempotency.repository.ts)

  /** The claiming UPDATE; it claims exactly when the record was PENDING. */
  function ClaimIdempotency(c: Cell, now: Time): Cell {
    if !c.record.status.Pending? then c
    else c.(record := c.record.(status := Processing, processingStartedAt := Some(now)),
            tally := c.tally.(claims := c.tally.claims + 1))
  }

  /** None when completeIdempotency throws. */
  function CompleteIdempotency(c: Cell): Option<Cell> {
    if !c.record.status.Processing? then None
    else Some(c.(record := c.record.(status := Done, processingStartedAt := None),
                 tally := c.tally.(successes := c.tally.successes + 1)))
  }

  function Unclaim(c: Cell): Cell {
    c.(record := c.record.(status := Pending, processingStartedAt := None),
       tally := c.tally.(resets := c.tally.resets + 1))
  }

  /** None when resetToPending throws. */
  function ResetToPending(c: Cell): Option<Cell> {
    if !c.record.status.Processing? then None else Some(Unclaim(c))
  }

  predicate HasRunning(executions: map<nat, Execution>) {
    exists k :: k in executions && executions[k].status.Running?
  }

  predicate Stale(c: Cell, timeout: int, now: Time) {
    && c.record.status.Processing?
    && c.record.processingStartedAt.Some?
    && c.record.processingStartedAt.value < now - timeout
    && !HasRunning(c.executions)
  }

  function ResetStaleProcessingRecord(c: Cell, timeout: int, now: Time): Cell {
    if Stale(c, timeout, now) then Unclaim(c) else c
  }

  // ---- leases (leases.repository.ts)

  /** None when the execution is not QUEUED or its lease is validly held. */
  function AcquireExecutionLease(c: Cell, k: nat, worker: WorkerId, duration: nat, now: Time): Option<Cell> {
    if k !in c.executions || !c.executions[k].status.Queued? then None
    else if k in c.leases && c.leases[k].expiresAt > now then None
    else
      var acquisition := if k in c.leases then c.leases[k].acquisition + 1 else 1;
      Some(c.(leases := c.leases[k := Lease(worker, now + duration, acquisition)]))
  }

  predicate Renewable(c: Cell, k: nat, worker: WorkerId, now: Time) {
    k in c.leases && c.leases[k].worker == worker && c.leases[k].expiresAt > now
  }

  function RenewLease(c: Cell, k: nat, worker: WorkerId, duration: nat, now: Time): Cell {
    if !Renewable(c, k, worker, now) then c
    else c.(leases := c.leases[k := c.leases[k].(expiresAt := now + duration)])
  }

  predicate ExpiredLease(c: Cell, k: nat, now: Time) {
    k in c.leases && c.leases[k].expiresAt <= now && k in c.executions && c.executions[k].status.Running?
  }

  // ---- outbox (outbox.repository.ts, scheduler.repository.ts)

  predicate JobDue(c: Cell, now: Time) { c.job.status.JobScheduled? && c.job.runAt <= now }

  predicate AttemptDue(c: Cell, k: nat, now: Time) {
    && k in c.executions
    && c.executions[k].status.Scheduled?
    && c.executions[k].retryAt.Some?
    && c.executions[k].retryAt.value <= now
  }

  /** None when a unique outbox constraint refuses the row. */
  function CreateOutbox(c: Cell, t: Target): Option<Cell> {
    if t in c.outbox then None
    else Some(c.(outbox := c.outbox[t := OutboxRow(OutboxPending, None)],
                 tally := c.tally.(outboxed := c.tally.outboxed + multiset{t})))
  }

  function QueueJob(c: Cell, now: Time): Cell {
    c.(job := c.job.(status := JobQueued, updatedAt := now))
  }

  function QueueAttempt(c: Cell, k: nat, now: Time): Cell
    requires k in c.executions
  {
    c.(executions := c.executions[k := c.executions[k].(status := Queued, updatedAt := now)])
  }

  /** One job's part of processJobTransaction; None when the transaction rolls back. */
  function ClaimDueJob(c: Cell, now: Time): Option<Cell> {
    if !JobDue(c, now) then Some(c) else CreateOutbox(QueueJob(c, now), JobTarget)
  }

  /** One execution's part of processExecutionTransactions; None when the transaction rolls back. */
  function ClaimDueExecution(c: Cell, k: nat, now: Time): Option<Cell> {
    if !AttemptDue(c, k, now) then Some(c) else CreateOutbox(QueueAttempt(c, k, now), AttemptTarget(k))
  }

  function ClaimOutbox(c: Cell, t: Target, now: Time): Cell {
    if t !in c.outbox || !c.outbox[t].status.OutboxPending? then c
    else c.(outbox := c.outbox[t := OutboxRow(OutboxPublished, Some(now))],
            tally := c.tally.(published := c.tally.published + multiset{t}))
  }

  function ResetOutbox(c: Cell, t: Target): Cell {
    if t !in c.outbox || !c.outbox[t].status.OutboxPublished? then c
    else c.(outbox := c.outbox[t := OutboxRow(OutboxPending, None)],
            tally := c.tally.(unpublished := c.tally.unpublished + multiset{t}))
  }

  predicate Prunable(row: OutboxRow, retention: nat, now: Time) {
    row.status.OutboxPublished? && row.publishedAt.Some? && row.publishedAt.value < now - retention
  }

  function Prune(c: Cell, retention: nat, now: Time): Cell {
    c.(outbox := map t | t in c.outbox && !Prunable(c.outbox[t], retention, now) :: c.outbox[t])
  }

  // ---- the queue (queue.ts)

  predicate Runnable(state: EntryState) { !state.EntryCompleted? && !state.EntryFailed? }

  predicate RunnableEntry(q: Entries, t: Target) { t in q && Runnable(q[t]) }

  /** Adding an id the queue already holds changes nothing. */
  function Add(q: Entries, t: Target): Entries { if t in q then q else q[t := Waiting] }

  function RemoveTerminal(q: Entries, t: Target): Entries {
    if t in q && !Runnable(q[t]) then q - {t} else q
  }

  /** Rows that queue-reconciliation.repository.ts selects. */
  predicate Suspect(c: Cell, t: Target, minAge: nat, now: Time) {
    match t
    case JobTarget => c.job.status.JobQueued? && c.job.updatedAt < now - minAge
    case AttemptTarget(k) =>
      k in c.executions && c.executions[k].status.Queued? && c.executions[k].updatedAt < now - minAge
  }

  // ---- outcome transactions (execution.service.ts)

  function CloseAttempt(c: Cell, k: nat, timedOut: bool, now: Time): Cell {
    if timedOut then TimedOutExecution(c, k, now) else FailedExecution(c, k, now)
  }

  /** Close the attempt, release the claim, schedule attempt k + 1. None when it rolls back. */
  function RetryTransaction(c: Cell, k: nat, timedOut: bool, delay: nat, now: Time): Option<Cell> {
    match ResetToPending(CloseAttempt(c, k, timedOut, now))
    case None => None
    case Some(released) => NewExecution(released, k + 1, now + delay, now)
  }

  function FinalFailureTransaction(c: Cell, k: nat, timedOut: bool, now: Time): Cell {
    FailedJob(CloseAttempt(c, k, timedOut, now), now)
  }

  /** None when completeIdempotency throws and everything rolls back. */
  function SuccessTransaction(c: Cell, k: nat, now: Time): Option<Cell> {
    match CompleteIdempotency(c)
    case None => None
    case Some(completed) => Some(SuccessJob(SuccessExecution(completed, k, now), now))
  }

  function AlreadyCompletedTransaction(c: Cell, k: nat, now: Time): Cell {
    SuccessJob(SuccessExecution(c, k, now), now)
  }

  // ---- recovery (execution.service.ts)

  /** The way out that recoverExpiredExecution takes. */
  datatype RecoveryExit =
    | NotFound | NotRunning | LeaseMissingOrLive | UnexpectedRecord
    | AlreadyDone | AttemptsExhausted | Replaced | DuplicateAttempt

  datatype Recovery = Recovery(exit: RecoveryExit, cell: Cell)

  /** The crashed attempt was the last one allowed. */
  function CrashLastAttempt(c: Cell, k: nat, now: Time): Cell
    requires ExpiredLease(c, k, now)
  {
    FailedJob(MarkWorkerCrashed(c, k, c.leases[k].expiresAt, now).value, now)
  }

  /** None when the unique (job_id, attempt) constraint makes it roll back. */
  function CrashAndReplace(c: Cell, k: nat, delay: nat, now: Time): Option<Cell>
    requires ExpiredLease(c, k, now)
  {
    match NewExecution(MarkWorkerCrashed(c, k, c.leases[k].expiresAt, now).value, k + 1, now + delay, now)
    case None => None
    case Some(replaced) => Some(Unclaim(replaced))
  }

  function RecoverExpiredExecution(c: Cell, k: nat, delay: nat, now: Time): Recovery {
    if k !in c.executions then Recovery(NotFound, c)
    else if !c.executions[k].status.Running? then Recovery(NotRunning, c)
    else if !ExpiredLease(c, k, now) then Recovery(LeaseMissingOrLive, c)
    else if c.record.status.Done? then Recovery(AlreadyDone, AlreadyCompletedTransaction(c, k, now))
    else if !c.record.status.Processing? then Recovery(UnexpectedRecord, c)
    else if k >= c.job.maxAttempts then Recovery(AttemptsExhausted, CrashLastAttempt(c, k, now))
    else match CrashAndReplace(c, k, delay, now)
      case None => Recovery(DuplicateAttempt, c)
      case Some(replaced) => Recovery(Replaced, replaced)
  }
}
