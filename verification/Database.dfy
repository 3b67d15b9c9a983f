/**
 * The rows of one job, updated in place by the repositories' statements. Every statement of the
 * protocol names the rows of one job in its WHERE clause, so a job's rows are one object.
 */
module Database {
  import opened Rows
  import S = Statements

  /** What a transaction can roll back. */
  datatype Saved = Saved(
    job: Job,
    record: Record,
    executions: map<nat, Execution>,
    leases: map<nat, Lease>,
    outbox: map<Target, OutboxRow>)

  class JobRows {
    var job: Job
    var record: Record
    var executions: map<nat, Execution>
    var leases: map<nat, Lease>
    var outbox: map<Target, OutboxRow>
    var queue: Entries
    ghost var tally: Tally

    ghost function View(): Cell
      reads this
    {
      Cell(job, record, executions, leases, outbox, queue, tally)
    }

    /** The two INSERTs of createJobWithIdempotency. */
    constructor (job: Job, key: string)
      ensures View() == Cell(job, Record(key, Pending, None), map[], map[], map[], map[], NO_HISTORY)
    {
      this.job := job;
      record := Record(key, Pending, None);
      executions, leases, outbox, queue := map[], map[], map[], map[];
      tally := NO_HISTORY;
    }

    // ---- transactions

    /** BEGIN. */
    method Begin() returns (saved: Saved, ghost savedTally: Tally)
      ensures saved == Saved(job, record, executions, leases, outbox) && savedTally == tally
    {
      saved, savedTally := Saved(job, record, executions, leases, outbox), tally;
    }

    /** ROLLBACK; history is rolled back with the rows. */
    method Rollback(saved: Saved, ghost savedTally: Tally)
      modifies this
      ensures Saved(job, record, executions, leases, outbox) == saved && tally == savedTally && queue == old(queue)
    {
      job, record, executions := saved.job, saved.record, saved.executions;
      leases, outbox := saved.leases, saved.outbox;
      tally := savedTally;
    }

    /** Other processes have written to the rows. */
    method Become(c: Cell)
      modifies this
      ensures View() == c
    {
      job, record, executions, leases, outbox, queue := c.job, c.record, c.executions, c.leases, c.outbox, c.queue;
      tally := c.tally;
    }

    // ---- execution.repository.ts

    method FailedExecution(k: nat, now: Time)
      modifies this
      ensures View() == S.FailedExecution(old(View()), k, now)
    {
      if k in executions {
        executions := executions[k := executions[k].(status := Failed, completedAt := Some(now), updatedAt := now)];
      }
    }

    method SuccessExecution(k: nat, now: Time)
      modifies this
      ensures View() == S.SuccessExecution(old(View()), k, now)
    {
      if k in executions {
        executions := executions[k := executions[k].(status := Completed, completedAt := Some(now), updatedAt := now)];
      }
    }

    method TimedOutExecution(k: nat, now: Time)
      modifies this
      ensures View() == S.TimedOutExecution(old(View()), k, now)
    {
      if k in executions {
        executions := executions[k := executions[k].(status := TimedOut, completedAt := Some(now), updatedAt := now)];
      }
    }

    method StartExecution(k: nat, now: Time)
      modifies this
      ensures View() == S.StartExecution(old(View()), k, now)
    {
      if k in executions {
        executions := executions[k := executions[k].(status := Running, startedAt := Some(now), updatedAt := now)];
      }
    }

    method MarkWorkerCrashed(k: nat, completedAt: Time, now: Time) returns (crashed: bool)
      modifies this
      ensures crashed == S.MarkWorkerCrashed(old(View()), k, completedAt, now).Some?
      ensures View() == S.MarkWorkerCrashed(old(View()), k, completedAt, now).GetOr(old(View()))
    {
      crashed := k in executions && executions[k].status.Running?;
      if crashed {
        executions := executions[k :=
          executions[k].(status := WorkerCrashed, completedAt := Some(completedAt), updatedAt := now)];
      }
    }

    /** False when the unique constraint makes the INSERT throw. */
    method NewExecution(k: nat, retryAt: Time, now: Time) returns (inserted: bool)
      modifies this
      ensures inserted == S.NewExecution(old(View()), k, retryAt, now).Some?
      ensures View() == S.NewExecution(old(View()), k, retryAt, now).GetOr(old(View()))
    {
      inserted := k !in executions;
      if inserted {
        executions := executions[k := Execution(Scheduled, Some(retryAt), None, None, now)];
      }
    }

    method GetOrCreateInitialExecution(now: Time) returns (created: bool)
      modifies this
      ensures View() == S.GetOrCreateInitialExecution(old(View()), now)
      ensures created == (1 !in old(executions)) && 1 in executions
    {
      created := 1 !in executions;
      if created {
        executions := executions[1 := Execution(Queued, None, None, None, now)];
      }
    }

    // ---- jobs.repository.ts

    method FinishJob(status: JobStatus, now: Time) returns (changed: bool)
      modifies this
      ensures View() == S.FinishJob(old(View()), status, now)
      ensures changed == !old(job).status.Terminal()
    {
      changed := !job.status.Terminal();
      if changed {
        job := job.(status := status, updatedAt := now);
        tally := tally.(finals := tally.finals + 1);
      }
    }

    method SuccessJob(now: Time) returns (changed: bool)
      modifies this
      ensures View() == S.SuccessJob(old(View()), now)
      ensures changed == !old(job).status.Terminal()
    {
      changed := FinishJob(JobCompleted, now);
    }

    method FailedJob(now: Time) returns (changed: bool)
      modifies this
      ensures View() == S.FailedJob(old(View()), now)
      ensures changed == !old(job).status.Terminal()
    {
      changed := FinishJob(JobFailed, now);
    }

    /** cancelJobService on an existing job: false where it answers 409. */
    method CancelJob(now: Time) returns (cancelled: bool)
      modifies this
      ensures View() == S.CancelJobStatus(old(View()), now)
      ensures cancelled == old(job).status.JobScheduled?
      ensures cancelled ==>
        && job == old(job).(status := JobCancelled, updatedAt := now)
        && tally == old(tally).(finals := old(tally).finals + 1)
      ensures !cancelled ==> View() == old(View())
    {
      if !job.status.JobScheduled? {
        return false;
      }
      cancelled := FinishJob(JobCancelled, now);
    }

    method StartJob(now: Time)
      modifies this
      ensures View() == S.StartJob(old(View()), now)
      ensures job == if old(job).status.JobQueued? then old(job).(status := JobRunning, updatedAt := now) else old(job)
    {
      if job.status.JobQueued? {
        job := job.(status := JobRunning, updatedAt := now);
      }
    }

    /** History: the handler of attempt k is called. */
    ghost method BeginHandler(k: nat)
      modifies this`tally
      ensures View() == old(View()).(tally := old(tally).(starts := old(tally).starts + multiset{k}))
    {
      tally := tally.(starts := tally.starts + multiset{k});
    }

    // ---- idempotency.repository.ts

    method ClaimIdempotency(now: Time) returns (claimed: bool)
      modifies this
      ensures View() == S.ClaimIdempotency(old(View()), now)
      ensures claimed == old(record).status.Pending?
    {
      claimed := record.status.Pending?;
      if claimed {
        record := record.(status := Processing, processingStartedAt := Some(now));
        tally := tally.(claims := tally.claims + 1);
      }
    }

    /** False when it throws. */
    method CompleteIdempotency() returns (completed: bool)
      modifies this
      ensures completed == S.CompleteIdempotency(old(View())).Some?
      ensures View() == S.CompleteIdempotency(old(View())).GetOr(old(View()))
    {
      completed := record.status.Processing?;
      if completed {
        record := record.(status := Done, processingStartedAt := None);
        tally := tally.(successes := tally.successes + 1);
      }
    }

    /** False when it throws. */
    method ResetToPending() returns (reset: bool)
      modifies this
      ensures reset == S.ResetToPending(old(View())).Some?
      ensures View() == S.ResetToPending(old(View())).GetOr(old(View()))
    {
      reset := record.status.Processing?;
      if reset {
        record := record.(status := Pending, processingStartedAt := None);
        tally := tally.(resets := tally.resets + 1);
      }
    }

    method ResetStaleProcessingRecord(timeout: int, now: Time) returns (reset: bool)
      modifies this
      ensures View() == S.ResetStaleProcessingRecord(old(View()), timeout, now)
      ensures reset == (&& old(record).status.Processing? && old(record).processingStartedAt.Some?
                        && old(record).processingStartedAt.value + timeout < now
                        && forall k :: k in old(executions) ==> !old(executions)[k].status.Running?)
    {
      reset :=
        && record.status.Processing?
        && record.processingStartedAt.Some? && record.processingStartedAt.value < now - timeout
        && !S.HasRunning(executions);
      if reset {
        record := record.(status := Pending, processingStartedAt := None);
        tally := tally.(resets := tally.resets + 1);
      }
    }

    // ---- leases.repository.ts

    method AcquireExecutionLease(k: nat, worker: WorkerId, duration: nat, now: Time)
      returns (lease: Option<Lease>)
      modifies this
      ensures lease.Some? == S.AcquireExecutionLease(old(View()), k, worker, duration, now).Some?
      ensures View() == S.AcquireExecutionLease(old(View()), k, worker, duration, now).GetOr(old(View()))
      ensures lease.Some? ==>
        k in leases && lease.value == leases[k] && leases[k].worker == worker && leases[k].expiresAt == now + duration
    {
      if k !in executions || !executions[k].status.Queued? {
        return None;
      }
      if k in leases && leases[k].expiresAt > now {
        return None;
      }
      var acquisition := if k in leases then leases[k].acquisition + 1 else 1;
      lease := Some(Lease(worker, now + duration, acquisition));
      leases := leases[k := lease.value];
    }

    method RenewLease(k: nat, worker: WorkerId, duration: nat, now: Time) returns (renewed: bool)
      modifies this
      ensures View() == S.RenewLease(old(View()), k, worker, duration, now)
      ensures renewed == (k in old(leases) && old(leases)[k].worker == worker && old(leases)[k].expiresAt > now)
      ensures leases == if renewed then old(leases)[k := old(leases)[k].(expiresAt := now + duration)] else old(leases)
    {
      renewed := k in leases && leases[k].worker == worker && leases[k].expiresAt > now;
      if renewed {
        leases := leases[k := leases[k].(expiresAt := now + duration)];
      }
    }

    // ---- outbox.repository.ts, scheduler.repository.ts

    /** False when a unique constraint makes the INSERT throw. */
    method CreateOutbox(t: Target) returns (inserted: bool)
      modifies this
      ensures inserted == S.CreateOutbox(old(View()), t).Some?
      ensures View() == S.CreateOutbox(old(View()), t).GetOr(old(View()))
    {
      inserted := t !in outbox;
      if inserted {
        outbox := outbox[t := OutboxRow(OutboxPending, None)];
        tally := tally.(outboxed := tally.outboxed + multiset{t});
      }
    }

    method QueueJob(now: Time)
      modifies this
      ensures View() == S.QueueJob(old(View()), now)
    {
      job := job.(status := JobQueued, updatedAt := now);
    }

    method QueueAttempt(k: nat, now: Time)
      requires k in executions
      modifies this
      ensures View() == S.QueueAttempt(old(View()), k, now)
    {
      executions := executions[k := executions[k].(status := Queued, updatedAt := now)];
    }

    method ClaimOutboxRow(t: Target, now: Time)
      modifies this
      ensures View() == S.ClaimOutbox(old(View()), t, now)
    {
      if t in outbox && outbox[t].status.OutboxPending? {
        outbox := outbox[t := OutboxRow(OutboxPublished, Some(now))];
        tally := tally.(published := tally.published + multiset{t});
      }
    }

    method ResetOutboxRow(t: Target)
      modifies this
      ensures View() == S.ResetOutbox(old(View()), t)
    {
      if t in outbox && outbox[t].status.OutboxPublished? {
        outbox := outbox[t := OutboxRow(OutboxPending, None)];
        tally := tally.(unpublished := tally.unpublished + multiset{t});
      }
    }

    method DeletePublishedOutboxBefore(retention: nat, now: Time)
      modifies this
      ensures View() == S.Prune(old(View()), retention, now)
    {
      outbox := map t | t in outbox && !S.Prunable(outbox[t], retention, now) :: outbox[t];
    }

    // ---- queue.ts

    method AddEntry(t: Target)
      modifies this
      ensures View() == old(View()).(queue := S.Add(old(queue), t))
    {
      if t !in queue {
        queue := queue[t := Waiting];
      }
    }

    /** `refused`: entry.remove() throws, which is logged and answered with false. */
    method RemoveTerminalQueueEntry(t: Target, refused: bool) returns (removed: bool)
      modifies this
      ensures View() == if refused then old(View()) else old(View()).(queue := S.RemoveTerminal(old(queue), t))
      ensures removed == (!refused && t in old(queue) && (old(queue[t]).EntryCompleted? || old(queue[t]).EntryFailed?))
    {
      removed := !refused && t in queue && !S.Runnable(queue[t]);
      if removed {
        queue := queue - {t};
      }
    }
  }
}
