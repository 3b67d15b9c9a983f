/**
 * The stale-claim pass and the expired-lease pass of one scheduler tick, as they concern one job:
 * which of them goes first does not matter.
 */
module SchedulerOrder {
  import opened Rows
  import opened Statements
  import opened EveryInterleaving
  import LeaseDiscipline
  import Timeliness

  /** processExpiredLeases: recover each listed attempt, in order; `delay` is the backoff drawn for it. */
  function LeasePass(c: Cell, attempts: seq<nat>, delay: nat -> nat, now: Time): Cell
    decreases |attempts|
  {
    if attempts == [] then c
    else LeasePass(RecoverExpiredExecution(c, attempts[0], delay(attempts[0]), now).cell, attempts[1..], delay, now)
  }

  /** processStaleIdempotency. */
  function StalePass(c: Cell, timeout: int, now: Time): Cell {
    ResetStaleProcessingRecord(c, timeout, now)
  }

  lemma {:induction false} NothingToRecover(c: Cell, attempts: seq<nat>, delay: nat -> nat, now: Time)
    requires !HasRunning(c.executions)
    ensures LeasePass(c, attempts, delay, now) == c
    decreases |attempts|
  {
    if attempts != [] {
      NothingToRecover(c, attempts[1..], delay, now);
    }
  }

  /** A recovery that ends the last RUNNING execution leaves a PROCESSING claim only on a terminal job. */
  lemma LastRecovery(c: Cell, k: nat, delay: nat, now: Time)
    requires HasRunning(c.executions)
    ensures
      var c' := RecoverExpiredExecution(c, k, delay, now).cell;
      HasRunning(c'.executions) || !c'.record.status.Processing? || c'.job.status.Terminal()
  {
  }

  lemma {:induction false} LeasePassLeaves(c: Cell, attempts: seq<nat>, delay: nat -> nat, now: Time)
    requires HasRunning(c.executions)
    ensures
      var c' := LeasePass(c, attempts, delay, now);
      HasRunning(c'.executions) || !c'.record.status.Processing? || c'.job.status.Terminal()
    decreases |attempts|
  {
    if attempts != [] {
      var c1 := RecoverExpiredExecution(c, attempts[0], delay(attempts[0]), now).cell;
      hide RecoverExpiredExecution, HasRunning;
      LastRecovery(c, attempts[0], delay(attempts[0]), now);
      if HasRunning(c1.executions) {
        LeasePassLeaves(c1, attempts[1..], delay, now);
      } else {
        NothingToRecover(c1, attempts[1..], delay, now);
      }
    }
  }

  /**
   * At the same instant and with the same jitter, the two orders give the same job, executions and
   * leases; the records may differ only on a job already terminal.
   */
  lemma OrderDoesNotMatter(c: Cell, attempts: seq<nat>, delay: nat -> nat, timeout: int, now: Time)
    ensures
      var staleFirst := LeasePass(StalePass(c, timeout, now), attempts, delay, now);
      var leasesFirst := StalePass(LeasePass(c, attempts, delay, now), timeout, now);
      && staleFirst.job == leasesFirst.job
      && staleFirst.executions == leasesFirst.executions
      && staleFirst.leases == leasesFirst.leases
      && staleFirst.outbox == leasesFirst.outbox && staleFirst.queue == leasesFirst.queue
      && (staleFirst.record != leasesFirst.record ==> staleFirst.job.status.Terminal())
  {
    hide RecoverExpiredExecution;
    if HasRunning(c.executions) {
      LeasePassLeaves(c, attempts, delay, now);
    } else {
      NothingToRecover(c, attempts, delay, now);
      NothingToRecover(StalePass(c, timeout, now), attempts, delay, now);
    }
  }

  // ---- exactly when the records differ

  /** Attempt n is the only RUNNING one, and the newest; the record is not COMPLETED. */
  ghost predicate OnlyRuns(c: Cell, n: nat) {
    && n in c.executions && c.executions[n].status.Running? && n + 1 !in c.executions
    && (forall k :: k in c.executions && c.executions[k].status.Running? ==> k == n)
    && !c.record.status.Done?
  }

  lemma RefusedChangesNothing(c: Cell, n: nat, k: nat, delay: nat, now: Time)
    requires OnlyRuns(c, n) && (k != n || !ExpiredLease(c, n, now) || !c.record.status.Processing?)
    ensures RecoverExpiredExecution(c, k, delay, now).cell == c
  {
  }

  /** A recovery that is not refused leaves nothing RUNNING; it keeps the claim exactly on a last attempt. */
  lemma RecoveryEndsRunning(c: Cell, n: nat, delay: nat, now: Time)
    requires OnlyRuns(c, n) && ExpiredLease(c, n, now) && c.record.status.Processing?
    ensures
      var c' := RecoverExpiredExecution(c, n, delay, now).cell;
      && !HasRunning(c'.executions)
      && (if n >= c.job.maxAttempts then c'.record == c.record else c'.record.status.Pending?)
  {
  }

  /** Whatever the list, the pass is the recovery of that attempt, if it is listed and expired. */
  lemma {:induction false} LeasePassOfOne(c: Cell, attempts: seq<nat>, n: nat, delay: nat -> nat, now: Time)
    requires OnlyRuns(c, n)
    ensures LeasePass(c, attempts, delay, now) ==
            if n in attempts && ExpiredLease(c, n, now) then RecoverExpiredExecution(c, n, delay(n), now).cell else c
    decreases |attempts|
  {
    hide RecoverExpiredExecution, OnlyRuns;
    if attempts != [] {
      var k := attempts[0];
      assert attempts == [k] + attempts[1..];
      if k == n && ExpiredLease(c, n, now) && c.record.status.Processing? {
        RecoveryEndsRunning(c, n, delay(n), now);
        NothingToRecover(RecoverExpiredExecution(c, n, delay(n), now).cell, attempts[1..], delay, now);
      } else {
        RefusedChangesNothing(c, n, k, delay(k), now);
        LeasePassOfOne(c, attempts[1..], n, delay, now);
      }
    }
  }

  /** A RUNNING attempt that has a successor already: recovering it rolls back on the unique constraint. */
  ghost predicate Superseded(c: Cell, j: nat) {
    && j in c.executions && c.executions[j].status.Running? && j + 1 in c.executions
    && j < c.job.maxAttempts && !c.record.status.Done?
  }

  lemma RecoveryKeepsSuperseded(c: Cell, j: nat, k: nat, delay: nat, now: Time)
    requires Superseded(c, j)
    ensures Superseded(RecoverExpiredExecution(c, k, delay, now).cell, j)
  {
  }

  lemma {:induction false} PassKeepsSuperseded(c: Cell, j: nat, attempts: seq<nat>, delay: nat -> nat, now: Time)
    requires Superseded(c, j)
    ensures Superseded(LeasePass(c, attempts, delay, now), j)
    decreases |attempts|
  {
    hide RecoverExpiredExecution, Superseded;
    if attempts != [] {
      RecoveryKeepsSuperseded(c, j, attempts[0], delay(attempts[0]), now);
      PassKeepsSuperseded(
        RecoverExpiredExecution(c, attempts[0], delay(attempts[0]), now).cell, j, attempts[1..], delay, now);
    }
  }

  lemma RecoveryKeepsUnclaimed(c: Cell, k: nat, delay: nat, now: Time)
    requires !c.record.status.Processing?
    ensures RecoverExpiredExecution(c, k, delay, now).cell.record == c.record
  {
  }

  lemma {:induction false} PassKeepsUnclaimed(c: Cell, attempts: seq<nat>, delay: nat -> nat, now: Time)
    requires !c.record.status.Processing?
    ensures LeasePass(c, attempts, delay, now).record == c.record
    decreases |attempts|
  {
    hide RecoverExpiredExecution;
    if attempts != [] {
      RecoveryKeepsUnclaimed(c, attempts[0], delay(attempts[0]), now);
      PassKeepsUnclaimed(
        RecoverExpiredExecution(c, attempts[0], delay(attempts[0]), now).cell, attempts[1..], delay, now);
    }
  }

  ghost predicate OldClaim(c: Cell, timeout: int, now: Time) {
    && c.record.status.Processing?
    && c.record.processingStartedAt.Some? && c.record.processingStartedAt.value < now - timeout
  }

  ghost predicate ExpiredLastAttempt(c: Cell, attempts: seq<nat>, k: nat, now: Time) {
    k in attempts && ExpiredLease(c, k, now) && k >= c.job.maxAttempts
  }

  /** Before the passes: the claim is old, and the lease pass will end the last attempt allowed and all that runs. */
  ghost predicate OldClaimOnLastAttempt(c: Cell, attempts: seq<nat>, timeout: int, now: Time) {
    && OldClaim(c, timeout, now)
    && exists k :: ExpiredLastAttempt(c, attempts, k, now)
         && forall j :: j in c.executions && c.executions[j].status.Running? ==> j == k
  }

  ghost predicate RecordsDiffer(c: Cell, attempts: seq<nat>, delay: nat -> nat, timeout: int, now: Time) {
    LeasePass(StalePass(c, timeout, now), attempts, delay, now).record
      != StalePass(LeasePass(c, attempts, delay, now), timeout, now).record
  }

  lemma DifferIfOneRuns(c: Cell, attempts: seq<nat>, n: nat, delay: nat -> nat, timeout: int, now: Time)
    requires OnlyRuns(c, n) && c.record.status.Processing?
    ensures RecordsDiffer(c, attempts, delay, timeout, now) <==>
            OldClaim(c, timeout, now) && ExpiredLastAttempt(c, attempts, n, now)
  {
    hide RecoverExpiredExecution;
    LeasePassOfOne(c, attempts, n, delay, now);
    if n in attempts && ExpiredLease(c, n, now) {
      RecoveryEndsRunning(c, n, delay(n), now);
    }
  }

  /** In every interleaving, the records depend on the order if and only if an old claim is on such an attempt. */
  lemma RecordsDifferIff(c: Cell, attempts: seq<nat>, delay: nat -> nat, timeout: int, now: Time)
    requires AttemptChain(c)
    ensures RecordsDiffer(c, attempts, delay, timeout, now) <==> OldClaimOnLastAttempt(c, attempts, timeout, now)
  {
    var n := |c.executions|;
    if !HasRunning(c.executions) {
      NothingToRecover(c, attempts, delay, now);
      NothingToRecover(StalePass(c, timeout, now), attempts, delay, now);
    } else if !c.record.status.Processing? {
      PassKeepsUnclaimed(c, attempts, delay, now);
    } else if j :| j in c.executions && c.executions[j].status.Running? && j != n {
      assert Superseded(c, j);
      PassKeepsSuperseded(c, j, attempts, delay, now);
      hide RecoverExpiredExecution;
    } else {
      assert n in c.executions && c.executions[n].status.Running?;
      DifferIfOneRuns(c, attempts, n, delay, timeout, now);
      hide RecordsDiffer, RecoverExpiredExecution;
    }
  }

  /** Under lease discipline nothing but the newest attempt runs. */
  lemma DisciplinedRecordsDifferIff(c: Cell, attempts: seq<nat>, delay: nat -> nat, timeout: int, now: Time)
    requires LeaseDiscipline.RowsAgree(c)
    ensures RecordsDiffer(c, attempts, delay, timeout, now) <==>
            OldClaim(c, timeout, now) && exists k :: ExpiredLastAttempt(c, attempts, k, now)
  {
    RecordsDifferIff(c, attempts, delay, timeout, now);
    hide RecordsDiffer;
    if k :| ExpiredLastAttempt(c, attempts, k, now) {
      forall j | j in c.executions && c.executions[j].status.Running?
        ensures j == k
      {
        Timeliness.RunningIsNewest(c, j);
        Timeliness.RunningIsNewest(c, k);
      }
    }
  }
}
