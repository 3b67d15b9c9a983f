/** Tier A, over whole runs: what a cancellation prevents, and what a started handler shows. */
module JobHistory {
  import opened Rows
  import opened Statements
  import opened Runs
  import opened Protocol
  import opened Effects
  import opened EveryInterleaving
  import opened AnyRun
  import opened OnTime
  import Steps

  // ---- a cancelled job stays out of everything

  lemma CancelledIsUntouched(s: System)
    requires Inv(s) && NothingEarly(s) && s.cell.job.status.JobCancelled?
    ensures s.cell.executions == map[] && s.cell.outbox == map[] && s.cell.queue == map[] && s.runs == map[]
    ensures s.cell.tally.starts == multiset{} && s.cell.tally.finals == 1
  {
    assert forall k :: k in s.cell.tally.starts ==> k in s.cell.executions;
    assert s.cell.tally.starts == multiset{};
  }

  /**
   * Whatever came before and whatever comes after: a cancellation that finds the job SCHEDULED leaves it
   * CANCELLED for ever, counted once, with no execution, outbox row, queue entry, run or handler start.
   */
  lemma CancelledForEver(cfg: Config, job: Job, key: string, now: Time, before: seq<Action>, after: seq<Action>)
    requires FreshJob(job) && Exec(cfg, Created(job, key, now), before).cell.job.status.JobScheduled?
    ensures
      var s := Exec(cfg, Exec(cfg, Created(job, key, now), before), [CancelJob] + after);
      && s.cell.job.status.JobCancelled? && s.cell.tally.finals == 1
      && s.cell.executions == map[] && s.cell.outbox == map[] && s.cell.queue == map[] && s.runs == map[]
      && s.cell.tally.starts == multiset{}
  {
    var s0 := Created(job, key, now);
    var s1 := Exec(cfg, s0, before);
    var s2 := Apply(cfg, s1, CancelJob);
    CreatedInv(job, key, now);
    ReachableInv(cfg, s0, before);
    ReachableOnTime(cfg, s0, before);
    Steps.Cancelling(cfg, s1);
    ApplyKeepsInv(cfg, s1, CancelJob);
    ApplyKeepsOnTime(cfg, s1, CancelJob);
    OnlyOnward(cfg, s2, after);
    ReachableInv(cfg, s2, after);
    ReachableOnTime(cfg, s2, after);
    assert ([CancelJob] + after)[1..] == after;
    hide Inv, NothingEarly, Apply;
    CancelledIsUntouched(Exec(cfg, s2, after));
  }

  // ---- a job whose handler was started is RUNNING or over

  /** RUNNING, COMPLETED or FAILED. */
  predicate Started(c: Cell) { c.job.status.JobRunning? || c.job.status.JobCompleted? || c.job.status.JobFailed? }

  predicate PastStartJob(run: Run) { run.point.ClosingUnhandled? || run.point.Handling? }

  ghost predicate ShowsStarts(s: System) {
    && (s.cell.tally.starts != multiset{} ==> Started(s.cell))
    && (forall r :: r in s.runs && PastStartJob(s.runs[r]) ==> Started(s.cell))
  }

  lemma StartedStays(c: Cell, c': Cell)
    requires Started(c) && JobMoves(c, c')
    ensures Started(c')
  {
  }

  /** The statement before the handler is the one that makes a QUEUED job RUNNING. */
  lemma StepShows(cfg: Config, c: Cell, run: Run, outcome: Outcome, now: Time)
    requires !c.job.status.JobScheduled? && !c.job.status.JobCancelled?
    ensures
      var next := Step(cfg, c, run, outcome, now);
      && (next.run.Some? && PastStartJob(next.run.value) ==> Started(next.cell))
      && (next.cell.tally.starts != c.tally.starts ==> Started(next.cell))
  {
    hide Finish, FinalFailureTransaction, AlreadyCompletedTransaction;
    OutcomesStartNothing(c, run.attempt, run.maxAttempts, outcome, now);
  }

  lemma RunMeansTakenUp(s: System)
    requires Inv(s) && s.runs != map[]
    ensures !s.cell.job.status.JobScheduled? && !s.cell.job.status.JobCancelled?
  {
  }

  lemma ApplyKeepsShown(cfg: Config, s: System, a: Action)
    requires Inv(s) && ShowsStarts(s)
    ensures ShowsStarts(Apply(cfg, s, a))
  {
    SnapshotsOf(s);
    hide Inv, Apply, Step, AttemptMoves, JobMoves, RecordMoves, LeaseMoves, OutboxMoves, Started;
    var s' := Apply(cfg, s, a);
    ApplyMoves(cfg, s, a);
    if Started(s.cell) {
      StartedStays(s.cell, s'.cell);
    } else if a.Advance? && a.id in s.runs {
      RunMeansTakenUp(s);
      StepShows(cfg, s.cell, s.runs[a.id], a.outcome, s.now);
      Steps.StepOf(cfg, s, a.id, a.outcome);
    } else {
      NoNewStart(cfg, s, a);
      forall r | r in s'.runs
        ensures !PastStartJob(s'.runs[r])
      {
        WhereRunsComeFrom(cfg, s, a, r);
      }
    }
  }

  lemma NoNewStart(cfg: Config, s: System, a: Action)
    requires !(a.Advance? && a.id in s.runs)
    ensures Apply(cfg, s, a).cell.tally.starts == s.cell.tally.starts
  {
    hide Step;
    if !a.Advance? {
      OthersStartNothing(cfg, s, a);
    }
  }

  lemma {:induction false} ReachableShown(cfg: Config, s: System, acts: seq<Action>)
    requires Inv(s) && ShowsStarts(s)
    ensures ShowsStarts(Exec(cfg, s, acts))
    decreases |acts|
  {
    hide Inv, ShowsStarts, Apply;
    if acts != [] {
      ApplyKeepsShown(cfg, s, acts[0]);
      ApplyKeepsInv(cfg, s, acts[0]);
      ReachableShown(cfg, Apply(cfg, s, acts[0]), acts[1..]);
    }
  }

  /**
   * In every state that any interleaving reaches: while a run is in its handler, and for ever once a
   * handler has been started, the job is RUNNING, COMPLETED or FAILED, so no reconciliation selects it.
   */
  lemma HandledJobsAreRunning(cfg: Config, job: Job, key: string, now: Time, acts: seq<Action>)
    requires FreshJob(job)
    ensures
      var s := Exec(cfg, Created(job, key, now), acts);
      s.cell.tally.starts != multiset{} || (exists r :: r in s.runs && PastStartJob(s.runs[r])) ==>
        && (s.cell.job.status.JobRunning? || s.cell.job.status.JobCompleted? || s.cell.job.status.JobFailed?)
        && Apply(cfg, s, SelectSuspect(JobTarget)) == s
  {
    var s0 := Created(job, key, now);
    var s := Exec(cfg, s0, acts);
    CreatedInv(job, key, now);
    ReachableShown(cfg, s0, acts);
    Steps.Selecting(cfg, s, JobTarget);
    hide Inv, Apply;
  }

  // ---- leases run out

  /** Until it is renewed, an acquisition keeps its expiry; only its own worker renews it. */
  lemma ApplyKeepsExpiry(cfg: Config, s: System, a: Action, k: nat)
    requires Inv(s) && k in s.cell.leases && a != Renew(k, s.cell.leases[k].worker)
    ensures
      var leases := Apply(cfg, s, a).cell.leases;
      && k in leases
      && (leases[k] == s.cell.leases[k]
          || (leases[k].acquisition > s.cell.leases[k].acquisition && s.cell.leases[k].expiresAt <= s.now))
  {
    hide Inv, Step, RecoverExpiredExecution, ClaimDueJob, ClaimDueExecution, Suspect, Start;
    if a.Advance? && a.id in s.runs {
      StepKeepsExpiry(cfg, s, a.id, a.outcome, k);
    } else if a.Recover? {
      RecoveryKeepsTheLeases(s.cell, a.attempt, a.delay, s.now);
    } else if a.ClaimJob? || a.ClaimAttempt? {
      ClaimsKeepTheLeases(s.cell, if a.ClaimJob? then 0 else a.attempt, s.now);
    }
  }

  lemma StepKeepsExpiry(cfg: Config, s: System, r: RunId, outcome: Outcome, k: nat)
    requires Inv(s) && r in s.runs && k in s.cell.leases
    ensures
      var leases := Step(cfg, s.cell, s.runs[r], outcome, s.now).cell.leases;
      && k in leases
      && (leases[k] == s.cell.leases[k]
          || (leases[k].acquisition > s.cell.leases[k].acquisition && s.cell.leases[k].expiresAt <= s.now))
  {
    SnapshotsOf(s);
    assert SnapshotsAgree(s.cell, s.runs[r]);
    hide Inv, Step, Moves;
    if s.runs[r].point.Leasing? {
      Steps.Acquiring(cfg, s.cell, s.runs[r], outcome, s.now);
    } else {
      StepMoves(cfg, s.cell, s.runs[r], outcome, s.now);
    }
  }

  lemma RecoveryKeepsTheLeases(c: Cell, k: nat, delay: nat, now: Time)
    ensures RecoverExpiredExecution(c, k, delay, now).cell.leases == c.leases
  {
  }

  lemma ClaimsKeepTheLeases(c: Cell, k: nat, now: Time)
    ensures ClaimDueJob(c, now).GetOr(c).leases == c.leases
    ensures ClaimDueExecution(c, k, now).GetOr(c).leases == c.leases
  {
  }

  predicate NoRenewal(acts: seq<Action>, k: nat, worker: WorkerId) { Renew(k, worker) !in acts }

  /**
   * In every interleaving without a renewal of attempt k by the lease's own worker, the lease is as it was or
   * has been acquired anew after it expired. So a lease acquired at time t and never renewed is expired
   * from t + duration on, as long as nobody acquires it anew.
   */
  lemma {:induction false} UnrenewedExpires(cfg: Config, s: System, acts: seq<Action>, k: nat)
    requires Inv(s) && k in s.cell.leases && NoRenewal(acts, k, s.cell.leases[k].worker)
    ensures
      var lease, s' := s.cell.leases[k], Exec(cfg, s, acts);
      && k in s'.cell.leases
      && (s'.cell.leases[k] == lease
          || (s'.cell.leases[k].acquisition > lease.acquisition && lease.expiresAt <= s'.now))
    decreases |acts|
  {
    hide Inv, Apply;
    if acts != [] {
      var s1 := Apply(cfg, s, acts[0]);
      assert acts[0] in acts && forall a :: a in acts[1..] ==> a in acts;
      ApplyKeepsExpiry(cfg, s, acts[0], k);
      ApplyKeepsInv(cfg, s, acts[0]);
      TimeGoesOn(cfg, s, acts[0]);
      if s1.cell.leases[k] == s.cell.leases[k] {
        UnrenewedExpires(cfg, s1, acts[1..], k);
      } else {
        AcquisitionsOnlyGrow(cfg, s1, acts[1..], k);
      }
    }
  }

  lemma {:induction false} AcquisitionsOnlyGrow(cfg: Config, s: System, acts: seq<Action>, k: nat)
    requires Inv(s) && k in s.cell.leases
    ensures
      var s' := Exec(cfg, s, acts);
      k in s'.cell.leases && s'.cell.leases[k].acquisition >= s.cell.leases[k].acquisition && s'.now >= s.now
    decreases |acts|
  {
    if acts != [] {
      SnapshotsOf(s);
      hide Inv, Apply, AttemptMoves, JobMoves, RecordMoves, OutboxMoves;
      ApplyMoves(cfg, s, acts[0]);
      ApplyKeepsInv(cfg, s, acts[0]);
      TimeGoesOn(cfg, s, acts[0]);
      AcquisitionsOnlyGrow(cfg, Apply(cfg, s, acts[0]), acts[1..], k);
    }
  }

  // ---- the outbox keeps what is due

  lemma SuccessKeepsOutbox(c: Cell, k: nat, now: Time)
    ensures SuccessTransaction(c, k, now).GetOr(c).outbox == c.outbox
    ensures AlreadyCompletedTransaction(c, k, now).outbox == c.outbox
  {
  }

  lemma FailureKeepsOutbox(c: Cell, k: nat, timedOut: bool, delay: nat, now: Time)
    ensures RetryTransaction(c, k, timedOut, delay, now).GetOr(c).outbox == c.outbox
    ensures FinalFailureTransaction(c, k, timedOut, now).outbox == c.outbox
  {
  }

  lemma StepKeepsOutbox(cfg: Config, c: Cell, run: Run, outcome: Outcome, now: Time)
    ensures Step(cfg, c, run, outcome, now).cell.outbox == c.outbox
  {
    hide FinalFailureTransaction, AlreadyCompletedTransaction, RetryTransaction, SuccessTransaction;
    SuccessKeepsOutbox(c, run.attempt, now);
    FailureKeepsOutbox(c, run.attempt, false, 0, now);
    if !outcome.Succeeded? {
      FailureKeepsOutbox(c, run.attempt, outcome.Expired?, outcome.delay, now);
    }
  }

  lemma RecoveryKeepsOutbox(c: Cell, k: nat, delay: nat, now: Time)
    ensures RecoverExpiredExecution(c, k, delay, now).cell.outbox == c.outbox
  {
  }

  /** Rows come in, are claimed and are reset, but stay. */
  lemma OthersKeepRows(cfg: Config, s: System, a: Action)
    requires !a.PruneOutbox? && !a.Advance?
    ensures forall t :: t in s.cell.outbox ==> t in Apply(cfg, s, a).cell.outbox
  {
    hide RecoverExpiredExecution, Start, Suspect, Add, RemoveTerminal, RenewLease;
    if a.Recover? {
      RecoveryKeepsOutbox(s.cell, a.attempt, a.delay, s.now);
    } else if a.Renew? {
      RenewalKeepsOutbox(s.cell, a.attempt, a.worker, cfg.leaseDuration, s.now);
    }
  }

  lemma RenewalKeepsOutbox(c: Cell, k: nat, worker: WorkerId, duration: nat, now: Time)
    ensures RenewLease(c, k, worker, duration, now).outbox == c.outbox
  {
  }

  /** A row that an action takes out of the outbox was PUBLISHED longer ago than the retention. */
  lemma OnlyOldRowsGo(cfg: Config, s: System, a: Action, t: Target)
    requires t in s.cell.outbox && t !in Apply(cfg, s, a).cell.outbox
    ensures a.PruneOutbox? && s.cell.outbox[t].status.OutboxPublished?
    ensures s.cell.outbox[t].publishedAt.Some? && s.cell.outbox[t].publishedAt.value + cfg.retention < s.now
  {
    hide Apply, Step;
    if a.PruneOutbox? {
      Steps.Pruning(cfg, s);
    } else if !a.Advance? {
      OthersKeepRows(cfg, s, a);
    } else if a.id in s.runs {
      Steps.StepOf(cfg, s, a.id, a.outcome);
      StepKeepsOutbox(cfg, s.cell, s.runs[a.id], a.outcome, s.now);
    } else {
      NothingAdvances(cfg, s, a);
    }
  }
}
