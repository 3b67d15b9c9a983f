/**
 * What each action does, in every state, in the terms of the statements' own WHERE and SET clauses:
 * when it changes something, what then, and that it changes nothing else.
 */
module Steps {
  import opened Rows
  import opened Runs
  import opened Protocol
  import opened EveryInterleaving
  import AnyRun
  import S = Statements

  // ---- the scheduler's claims

  /** A job is queued exactly when it is SCHEDULED and its run time has come; its outbox row comes with it. */
  lemma ClaimingJob(cfg: Config, s: System)
    requires Inv(s)
    ensures
      var c := s.cell;
      Apply(cfg, s, ClaimJob) ==
      if c.job.status.JobScheduled? && c.job.runAt <= s.now
      then s.(cell := c.(
        job := c.job.(status := JobQueued, updatedAt := s.now),
        outbox := c.outbox[JobTarget := OutboxRow(OutboxPending, None)],
        tally := c.tally.(outboxed := c.tally.outboxed + multiset{JobTarget})))
      else s
  {
    AnyRun.OutboxNeverCollides(s, 0);
    hide Inv;
  }

  /** An attempt is queued exactly when it is SCHEDULED and its retry time has come. */
  lemma ClaimingAttempt(cfg: Config, s: System, k: nat)
    requires Inv(s)
    ensures
      var c := s.cell;
      Apply(cfg, s, ClaimAttempt(k)) ==
      if && k in c.executions && c.executions[k].status.Scheduled?
         && c.executions[k].retryAt.Some? && c.executions[k].retryAt.value <= s.now
      then s.(cell := c.(
        executions := c.executions[k := c.executions[k].(status := Queued, updatedAt := s.now)],
        outbox := c.outbox[AttemptTarget(k) := OutboxRow(OutboxPending, None)],
        tally := c.tally.(outboxed := c.tally.outboxed + multiset{AttemptTarget(k)})))
      else s
  {
    AnyRun.OutboxNeverCollides(s, k);
    hide Inv;
  }

  // ---- cancelling

  /** Cancelling cancels a SCHEDULED job, once and counted, and no other. */
  lemma Cancelling(cfg: Config, s: System)
    ensures
      var c := s.cell;
      Apply(cfg, s, CancelJob) ==
      if c.job.status.JobScheduled?
      then s.(cell := c.(
        job := c.job.(status := JobCancelled, updatedAt := s.now),
        tally := c.tally.(finals := c.tally.finals + 1)))
      else s
  {
  }

  // ---- leases and claims outside a run

  /** A renewal takes an unexpired lease of that very worker to a full duration from now, and no other. */
  lemma Renewing(cfg: Config, s: System, k: nat, worker: WorkerId)
    ensures
      var c := s.cell;
      Apply(cfg, s, Renew(k, worker)) ==
      if k in c.leases && c.leases[k].worker == worker && c.leases[k].expiresAt > s.now
      then s.(cell := c.(leases := c.leases[k := Lease(worker, s.now + cfg.leaseDuration, c.leases[k].acquisition)]))
      else s
  {
  }

  /** A claim is released exactly when it is older than the timeout and no execution is RUNNING. */
  lemma ResettingStale(cfg: Config, s: System)
    ensures
      var c := s.cell;
      Apply(cfg, s, ResetStale) ==
      if && c.record.status.Processing? && c.record.processingStartedAt.Some?
         && c.record.processingStartedAt.value + cfg.processingTimeout < s.now
         && (forall k :: k in c.executions ==> !c.executions[k].status.Running?)
      then s.(cell := c.(
        record := Record(c.record.key, Pending, None),
        tally := c.tally.(resets := c.tally.resets + 1)))
      else s
  {
  }

  // ---- the outbox

  /** A PENDING row is claimed and noted as being published; any other row is left. */
  lemma ClaimingOutbox(cfg: Config, s: System, t: Target)
    ensures
      var c := s.cell;
      Apply(cfg, s, ClaimOutboxRow(t)) ==
      if t in c.outbox && c.outbox[t].status.OutboxPending?
      then s.(cell := c.(
                outbox := c.outbox[t := OutboxRow(OutboxPublished, Some(s.now))],
                tally := c.tally.(published := c.tally.published + multiset{t})),
              publishing := s.publishing + {t})
      else s
  {
  }

  /** An id new to the queue waits there; one that is there already, in whatever state, stays as it is. */
  lemma Enqueueing(cfg: Config, s: System, t: Target)
    ensures
      var c, s' := s.cell, Apply(cfg, s, Enqueue(t));
      if t in s.publishing && t !in c.queue
      then s' == s.(cell := c.(queue := c.queue[t := Waiting]))
      else s' == s
  {
  }

  lemma ResettingOutbox(cfg: Config, s: System, t: Target)
    ensures
      var c, s' := s.cell, Apply(cfg, s, ResetOutboxRow(t));
      && s'.publishing == s.publishing - {t}
      && s'.(publishing := s.publishing) ==
         if t in s.publishing && t in c.outbox && c.outbox[t].status.OutboxPublished?
         then s.(cell := c.(
           outbox := c.outbox[t := OutboxRow(OutboxPending, None)],
           tally := c.tally.(unpublished := c.tally.unpublished + multiset{t})))
         else s
  {
    if t !in s.publishing {
      assert s.publishing - {t} == s.publishing;
    }
  }

  /** Pruning deletes exactly the rows PUBLISHED longer ago than the retention. */
  lemma Pruning(cfg: Config, s: System)
    ensures
      var c, s' := s.cell, Apply(cfg, s, PruneOutbox);
      && s' == s.(cell := c.(outbox := s'.cell.outbox))
      && (forall t :: t in s'.cell.outbox ==> t in c.outbox && s'.cell.outbox[t] == c.outbox[t])
      && (forall t :: t in c.outbox && t !in s'.cell.outbox <==>
            && t in c.outbox && c.outbox[t].status.OutboxPublished? && c.outbox[t].publishedAt.Some?
            && c.outbox[t].publishedAt.value + cfg.retention < s.now)
  {
  }

  // ---- reconciliation

  /** A row is selected exactly when it is QUEUED and has been left alone for longer than the minimum age. */
  lemma Selecting(cfg: Config, s: System, t: Target)
    ensures
      var c := s.cell;
      Apply(cfg, s, SelectSuspect(t)) ==
      if match t
         case JobTarget => c.job.status.JobQueued? && c.job.updatedAt + cfg.minAge < s.now
         case AttemptTarget(k) =>
           && k in c.executions && c.executions[k].status.Queued?
           && c.executions[k].updatedAt + cfg.minAge < s.now
      then s.(suspects := s.suspects + {t})
      else s
  {
  }

  /** Of a suspect's entry only a completed or failed one is removed. */
  lemma RemovingTerminal(cfg: Config, s: System, t: Target)
    ensures
      var c, s' := s.cell, Apply(cfg, s, RemoveTerminalEntry(t));
      if t in s.suspects && t in c.queue && (c.queue[t].EntryCompleted? || c.queue[t].EntryFailed?)
      then s' == s.(cell := c.(queue := c.queue - {t}))
      else s' == s
  {
  }

  /**
   * Removal, then requeueing, of a suspect: a waiting, active, delayed, prioritized or waiting-children
   * entry is as before, an absent, completed or failed one is waiting.
   */
  lemma Requeueing(cfg: Config, s: System, t: Target)
    requires t in s.suspects
    ensures
      var c := s.cell;
      var s' := Apply(cfg, Apply(cfg, s, RemoveTerminalEntry(t)), Requeue(t));
      if && t in c.queue
         && (c.queue[t].Waiting? || c.queue[t].Active? || c.queue[t].Delayed? || c.queue[t].Prioritized?
             || c.queue[t].WaitingChildren?)
      then s' == s
      else s' == s.(cell := c.(queue := c.queue[t := Waiting]))
  {
    assert t in s.cell.queue ==> (s.cell.queue - {t})[t := Waiting] == s.cell.queue[t := Waiting];
  }

  // ---- delivery

  /**
   * An entry neither completed nor failed may be delivered. Delivered for a job, it starts a run unless
   * the job is terminal; delivered for an attempt, it starts one at that attempt's first read.
   */
  lemma Delivering(cfg: Config, s: System, r: RunId, t: Target, worker: WorkerId)
    ensures
      var c := s.cell;
      Apply(cfg, s, Deliver(r, t, worker)) ==
      if || r in s.runs || t !in c.queue || c.queue[t].EntryCompleted? || c.queue[t].EntryFailed?
         || (t.JobTarget?
             && (c.job.status.JobCompleted? || c.job.status.JobFailed? || c.job.status.JobCancelled?))
      then s
      else s.(runs := s.runs[r :=
        if t.JobTarget? then Run(Creating, 0, worker, 0, 0, 0) else Run(Reading, t.attempt, worker, 0, 0, 0)])
  {
    assert r !in s.runs ==> s.runs - {r} == s.runs;
  }

  /** Time, crashes, the queue's own moves, and the ends of a publisher's and a reconciler's work on a target. */
  lemma Otherwise(cfg: Config, s: System, ms: nat, r: RunId, t: Target, state: EntryState)
    ensures Apply(cfg, s, Tick(ms)) == s.(now := s.now + ms)
    ensures Apply(cfg, s, Drop(r)) == s.(runs := s.runs - {r})
    ensures Apply(cfg, s, EndPublish(t)) == s.(publishing := s.publishing - {t})
    ensures Apply(cfg, s, EndReconcile(t)) == s.(suspects := s.suspects - {t})
    ensures Apply(cfg, s, QueueDrop(t)) == s.(cell := s.cell.(queue := s.cell.queue - {t}))
    ensures Apply(cfg, s, QueueMove(t, state)) ==
            if t in s.cell.queue then s.(cell := s.cell.(queue := s.cell.queue[t := state])) else s
  {
  }

  // ---- a run's statements

  lemma StepOf(cfg: Config, s: System, r: RunId, outcome: Outcome)
    requires r in s.runs
    ensures
      var next, s' := Step(cfg, s.cell, s.runs[r], outcome, s.now), Apply(cfg, s, Advance(r, outcome));
      && s' == s.(cell := next.cell, runs := s'.runs)
      && s'.runs == (if next.run.Some? then s.runs[r := next.run.value] else s.runs - {r})
  {
    hide Step;
  }

  /** Attempt 1 is inserted, QUEUED, exactly when it is missing. */
  lemma Opening(cfg: Config, c: Cell, run: Run, outcome: Outcome, now: Time)
    requires run.point.Creating?
    ensures
      var next := Step(cfg, c, run, outcome, now);
      && next.run == Some(run.(point := Reading, attempt := 1))
      && next.cell == c.(executions := next.cell.executions)
      && next.cell.executions ==
         if 1 in c.executions then c.executions else c.executions[1 := Execution(Queued, None, None, None, now)]
  {
    hide Finish, S.FinalFailureTransaction, S.AlreadyCompletedTransaction;
  }

  /** Only a QUEUED execution is gone on with. */
  lemma ReadingAttempt(cfg: Config, c: Cell, run: Run, outcome: Outcome, now: Time)
    requires run.point.Reading?
    ensures
      Step(cfg, c, run, outcome, now) ==
      StepResult(c, if run.attempt in c.executions && c.executions[run.attempt].status.Queued?
                    then Some(run.(point := Leasing)) else None)
  {
    hide Finish, S.FinalFailureTransaction, S.AlreadyCompletedTransaction;
  }

  /**
   * The lease is acquired exactly when the execution is QUEUED and no lease of it is unexpired; then it
   * is the worker's for exactly one lease duration, as a new acquisition.
   */
  lemma Acquiring(cfg: Config, c: Cell, run: Run, outcome: Outcome, now: Time)
    requires run.point.Leasing?
    ensures
      var k, next := run.attempt, Step(cfg, c, run, outcome, now);
      if && k in c.executions && c.executions[k].status.Queued?
         && (k in c.leases ==> c.leases[k].expiresAt <= now)
      then
        var acquisition := if k in c.leases then c.leases[k].acquisition + 1 else 1;
        && next.cell == c.(leases := c.leases[k := Lease(run.worker, now + cfg.leaseDuration, acquisition)])
        && next.run == Some(run.(point := ReadingJob, acquisition := acquisition))
      else next == StepResult(c, None)
  {
    hide Finish, S.FinalFailureTransaction, S.AlreadyCompletedTransaction;
  }

  /** A FAILED or CANCELLED job makes the run close its attempt; otherwise it keeps max_attempts and goes on. */
  lemma ReadingTheJob(cfg: Config, c: Cell, run: Run, outcome: Outcome, now: Time)
    requires run.point.ReadingJob?
    ensures
      Step(cfg, c, run, outcome, now) ==
      StepResult(c, Some(
        if c.job.status.JobFailed? || c.job.status.JobCancelled? then run.(point := ClosingStranded)
        else run.(point := Claiming, maxAttempts := c.job.maxAttempts)))
  {
    hide Finish, S.FinalFailureTransaction, S.AlreadyCompletedTransaction;
  }

  /** Exactly a PENDING record is claimed; any other is read again. */
  lemma ClaimingRecord(cfg: Config, c: Cell, run: Run, outcome: Outcome, now: Time)
    requires run.point.Claiming?
    ensures
      var next := Step(cfg, c, run, outcome, now);
      if c.record.status.Pending?
      then
        && next.cell == c.(record := Record(c.record.key, Processing, Some(now)),
                           tally := c.tally.(claims := c.tally.claims + 1))
        && next.run == Some(run.(point := Starting, claimedAt := now))
      else next == StepResult(c, Some(run.(point := ReadingClaim, claimedAt := now)))
  {
    hide Finish, S.FinalFailureTransaction, S.AlreadyCompletedTransaction;
  }

  lemma ReadingTheClaim(cfg: Config, c: Cell, run: Run, outcome: Outcome, now: Time)
    requires run.point.ReadingClaim?
    ensures
      Step(cfg, c, run, outcome, now) ==
      StepResult(c, if c.record.status.Done? then Some(run.(point := ClosingCompleted)) else None)
  {
    hide Finish, S.FinalFailureTransaction, S.AlreadyCompletedTransaction;
  }

  lemma StartingExecution(cfg: Config, c: Cell, run: Run, outcome: Outcome, now: Time)
    requires run.point.Starting? && run.attempt in c.executions
    ensures
      var k := run.attempt;
      Step(cfg, c, run, outcome, now) ==
      StepResult(
        c.(executions := c.executions[k :=
          c.executions[k].(status := Running, startedAt := Some(now), updatedAt := now)]),
        Some(run.(point := StartingJob)))
  {
    hide Finish, S.FinalFailureTransaction, S.AlreadyCompletedTransaction;
  }

  /** A QUEUED job becomes RUNNING, any other stays; the handler begins exactly when there is one. */
  lemma StartingTheJob(cfg: Config, c: Cell, run: Run, outcome: Outcome, now: Time)
    requires run.point.StartingJob?
    ensures
      var next := Step(cfg, c, run, outcome, now);
      && next.cell == c.(job := next.cell.job, tally := next.cell.tally)
      && next.cell.job ==
         (if c.job.status.JobQueued? then c.job.(status := JobRunning, updatedAt := now) else c.job)
      && next.cell.tally ==
         (if c.job.hasHandler then c.tally.(starts := c.tally.starts + multiset{run.attempt}) else c.tally)
      && next.run == Some(run.(point := if c.job.hasHandler then Handling else ClosingUnhandled))
  {
    hide Finish, S.FinalFailureTransaction, S.AlreadyCompletedTransaction;
  }

  /** The row that an ended attempt has. */
  function Ended(e: Execution, status: AttemptStatus, now: Time): Execution {
    Execution(status, e.retryAt, e.startedAt, Some(now), now)
  }

  /** A job that is not terminal ends, and is counted; a terminal one stays. */
  ghost predicate JobEnds(c: Cell, c': Cell, status: JobStatus, now: Time) {
    if c.job.status.JobCompleted? || c.job.status.JobFailed? || c.job.status.JobCancelled?
    then c'.job == c.job && c'.tally.finals == c.tally.finals
    else c'.job == c.job.(status := status, updatedAt := now) && c'.tally.finals == c.tally.finals + 1
  }

  lemma ClosingAStrandedAttempt(cfg: Config, c: Cell, run: Run, outcome: Outcome, now: Time)
    requires run.point.ClosingStranded? && run.attempt in c.executions
    ensures
      Step(cfg, c, run, outcome, now) ==
      StepResult(
        c.(executions := c.executions[run.attempt := Ended(c.executions[run.attempt], Failed, now)]), None)
  {
    hide Finish, S.FinalFailureTransaction, S.AlreadyCompletedTransaction;
  }

  lemma ClosingACompletedJob(cfg: Config, c: Cell, run: Run, outcome: Outcome, now: Time)
    requires run.point.ClosingCompleted? && run.attempt in c.executions
    ensures
      var k, next := run.attempt, Step(cfg, c, run, outcome, now);
      && next.run == None
      && next.cell == c.(executions := next.cell.executions, job := next.cell.job, tally := next.cell.tally)
      && next.cell.executions == c.executions[k := Ended(c.executions[k], Completed, now)]
      && JobEnds(c, next.cell, JobCompleted, now)
      && next.cell.tally == c.tally.(finals := next.cell.tally.finals)
  {
    hide Finish, S.FinalFailureTransaction;
  }

  lemma ClosingAnUnhandledAttempt(cfg: Config, c: Cell, run: Run, outcome: Outcome, now: Time)
    requires run.point.ClosingUnhandled? && run.attempt in c.executions
    ensures
      var k, next := run.attempt, Step(cfg, c, run, outcome, now);
      && next.run == None
      && next.cell == c.(executions := next.cell.executions, job := next.cell.job, tally := next.cell.tally)
      && next.cell.executions == c.executions[k := Ended(c.executions[k], Failed, now)]
      && JobEnds(c, next.cell, JobFailed, now)
      && next.cell.tally == c.tally.(finals := next.cell.tally.finals)
  {
    hide Finish, S.AlreadyCompletedTransaction;
  }

  /** The last failure allowed, by error or by timeout, ends attempt and job; the claim stays. */
  lemma FailingFinally(cfg: Config, c: Cell, run: Run, outcome: Outcome, now: Time)
    requires run.point.Handling? && run.attempt in c.executions
    requires !outcome.Succeeded? && run.attempt >= run.maxAttempts
    ensures
      var k, next := run.attempt, Step(cfg, c, run, outcome, now);
      && next.run == None
      && next.cell == c.(executions := next.cell.executions, job := next.cell.job, tally := next.cell.tally)
      && next.cell.executions ==
         c.executions[k := Ended(c.executions[k], if outcome.Expired? then TimedOut else Failed, now)]
      && JobEnds(c, next.cell, JobFailed, now)
      && next.cell.tally == c.tally.(finals := next.cell.tally.finals)
  {
    hide S.SuccessTransaction, S.RetryTransaction, S.AlreadyCompletedTransaction;
  }
}
