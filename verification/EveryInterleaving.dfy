/**
 * Tier A: what every interleaving keeps, runs whose lease has expired included.
 */
module EveryInterleaving {
  import opened Rows
  import opened Statements
  import opened Runs
  import opened Protocol
  import opened Effects

  // ---- the invariant

  /**
   * The attempts are exactly 1..n, n <= max_attempts, and only attempt n may be SCHEDULED or QUEUED;
   * a SCHEDULED attempt has its retry time.
   */
  ghost predicate AttemptChain(c: Cell) {
    && |c.executions| <= c.job.maxAttempts
    && (forall k :: k in c.executions <==> 1 <= k <= |c.executions|)
    && (forall k :: k in c.executions && (c.executions[k].status.Scheduled? || c.executions[k].status.Queued?)
          ==> k == |c.executions|)
    && (forall k :: k in c.executions && c.executions[k].status.Scheduled? ==> c.executions[k].retryAt.Some?)
  }

  /** A run's snapshots agree with the tables. */
  ghost predicate SnapshotsAgree(c: Cell, run: Run) {
    && (run.point.Leasing? || run.point.Leased() ==> run.attempt in c.executions)
    && (run.point.Leased() ==>
          run.attempt in c.leases && run.acquisition <= c.leases[run.attempt].acquisition)
    && (run.point.Leased() && !run.point.ReadingJob? && !run.point.ClosingStranded? ==>
          run.maxAttempts == c.job.maxAttempts)
    && (run.point.ClosingStranded? ==> c.job.status.JobFailed?)
    && (run.point.ClosingCompleted? ==> c.record.status.Done?)
  }

  ghost predicate AllSnapshotsAgree(s: System) {
    && (forall r :: r in s.runs ==> SnapshotsAgree(s.cell, s.runs[r]))
    && (forall k :: k in s.cell.leases ==> k in s.cell.executions)
  }

  ghost predicate Unclaimed(c: Cell) { c.job.status.JobScheduled? || c.job.status.JobCancelled? }

  /** Nothing at all exists for a job that no scheduler has claimed. */
  ghost predicate UntouchedBeforeClaim(s: System) {
    Unclaimed(s.cell) ==>
      && s.cell.executions == map[] && s.cell.leases == map[]
      && s.cell.outbox == map[] && s.cell.queue == map[]
      && s.runs == map[] && s.publishing == {} && s.suspects == {}
      && s.cell.record.status.Pending?
      && s.cell.tally.outboxed == multiset{}
  }

  /** Each target got an outbox row at most once, and none while its own row is SCHEDULED. */
  ghost predicate OutboxedOnce(c: Cell) {
    && (forall t :: c.tally.outboxed[t] <= 1)
    && (forall k :: AttemptTarget(k) in c.tally.outboxed ==>
          k in c.executions && !c.executions[k].status.Scheduled?)
    && (forall t :: t in c.outbox ==> t in c.tally.outboxed)
  }

  /** Per outbox row: claims = resets + (1 if PUBLISHED else 0). */
  ghost predicate PublishAccounts(c: Cell) {
    && (forall t :: t in c.outbox ==>
          && c.tally.published[t] == c.tally.unpublished[t] + (if c.outbox[t].status.OutboxPublished? then 1 else 0)
          && (c.outbox[t].status.OutboxPublished? <==> c.outbox[t].publishedAt.Some?))
    && (forall t :: t !in c.tally.outboxed ==> c.tally.published[t] == 0 && c.tally.unpublished[t] == 0)
  }

  /** claims = resets + (0 if PENDING else 1), one success at most, COMPLETED agreement with the job. */
  ghost predicate ClaimAccounts(c: Cell) {
    && c.tally.claims == c.tally.resets + (if c.record.status.Pending? then 0 else 1)
    && c.tally.successes == (if c.record.status.Done? then 1 else 0)
    && (c.record.status.Processing? <==> c.record.processingStartedAt.Some?)
    && (c.job.status.JobCompleted? ==> c.record.status.Done?)
    && (c.record.status.Done? ==> c.job.status.JobCompleted? || c.job.status.JobFailed?)
  }

  /** The final-state metric has counted this job exactly when it is terminal. */
  ghost predicate CountedOnce(c: Cell) {
    c.tally.finals == (if c.job.status.Terminal() then 1 else 0)
  }

  function ClaimedRuns(runs: map<RunId, Run>): set<RunId> {
    set r | r in runs && runs[r].point.Claimed()
  }

  /** Handler starts, and the claims about to start one, are paid for by claims. */
  ghost predicate StartsPaid(s: System) {
    |s.cell.tally.starts| + |ClaimedRuns(s.runs)| <= s.cell.tally.claims
  }

  ghost predicate Inv(s: System) {
    && s.cell.job.maxAttempts >= 1
    && AttemptChain(s.cell)
    && AllSnapshotsAgree(s)
    && UntouchedBeforeClaim(s)
    && OutboxedOnce(s.cell)
    && PublishAccounts(s.cell)
    && ClaimAccounts(s.cell)
    && CountedOnce(s.cell)
    && StartsPaid(s)
  }

  lemma CreatedInv(job: Job, key: string, now: Time)
    requires FreshJob(job)
    ensures Inv(Created(job, key, now))
  {
  }

  // ---- every move of the rows keeps the row part

  lemma ChainKept(c: Cell, c': Cell, k: nat)
    requires AttemptChain(c) && c.job.maxAttempts >= 1
    requires AttemptMoves(c, c', k) && JobMoves(c, c')
    ensures AttemptChain(c')
  {
    if Opens(c.executions, c'.executions) {
      assert c.executions == map[] by {
        assert |c.executions| == 0;
      }
    }
  }

  lemma ClaimAccountsKept(c: Cell, c': Cell)
    requires ClaimAccounts(c) && (Unclaimed(c) ==> c.record.status.Pending?)
    requires JobMoves(c, c') && RecordMoves(c, c')
    ensures ClaimAccounts(c')
  {
  }

  lemma CountKept(c: Cell, c': Cell)
    requires CountedOnce(c) && JobMoves(c, c')
    ensures CountedOnce(c')
  {
  }

  lemma InsertKept(c: Cell, c': Cell, k: nat, t: Target)
    requires OutboxedOnce(c) && (Unclaimed(c) ==> c.tally.outboxed == multiset{})
    requires AttemptMoves(c, c', k) && Inserts(c, c', t)
    ensures OutboxedOnce(c')
  {
    assert t !in c.tally.outboxed;
  }

  lemma OutboxedKept(c: Cell, c': Cell, k: nat)
    requires OutboxedOnce(c) && (Unclaimed(c) ==> c.tally.outboxed == multiset{})
    requires AttemptMoves(c, c', k) && OutboxMoves(c, c')
    ensures OutboxedOnce(c')
  {
    if t :| Inserts(c, c', t) {
      InsertKept(c, c', k, t);
    }
  }

  lemma InsertAccounted(c: Cell, c': Cell, t: Target)
    requires PublishAccounts(c) && OutboxedOnce(c) && (Unclaimed(c) ==> c.tally.outboxed == multiset{})
    requires Inserts(c, c', t)
    ensures PublishAccounts(c')
  {
    assert t !in c.tally.outboxed;
  }

  lemma ClaimAndResetAccounted(c: Cell, c': Cell, t: Target)
    requires PublishAccounts(c) && OutboxedOnce(c)
    requires Publishes(c, c', t) || Unpublishes(c, c', t)
    ensures PublishAccounts(c')
  {
  }

  lemma PublishKept(c: Cell, c': Cell)
    requires PublishAccounts(c) && OutboxedOnce(c) && (Unclaimed(c) ==> c.tally.outboxed == multiset{})
    requires OutboxMoves(c, c')
    ensures PublishAccounts(c')
  {
    hide Inserts, Publishes, Unpublishes, OutboxedOnce;
    if t :| Inserts(c, c', t) {
      InsertAccounted(c, c', t);
    } else if t :| Publishes(c, c', t) || Unpublishes(c, c', t) {
      ClaimAndResetAccounted(c, c', t);
    }
  }

  /** What other runs remember stays right while the rows move. */
  lemma SnapshotKept(c: Cell, c': Cell, k: nat, run: Run)
    requires SnapshotsAgree(c, run)
    requires ClaimAccounts(c) && Moves(c, c', k)
    ensures SnapshotsAgree(c', run)
  {
  }

  // ---- every action moves the rows in one of the known ways

  function Touched(s: System, a: Action): nat {
    match a
    case ClaimAttempt(k) => k
    case Recover(k, _) => k
    case Advance(r, _) => if r in s.runs then s.runs[r].attempt else 0
    case _ => 0
  }

  lemma QueueMoves(c: Cell, q: Entries)
    ensures Moves(c, c.(queue := q), 0)
  {
    hide Inserts, Publishes, Unpublishes, Prunes;
  }

  lemma ApplyMoves(cfg: Config, s: System, a: Action)
    requires AllSnapshotsAgree(s)
    ensures Moves(s.cell, Apply(cfg, s, a).cell, Touched(s, a))
  {
    hide Moves, Step, ClaimDueJob, ClaimDueExecution, CancelJobStatus, ClaimOutbox, ResetOutbox, Prune,
         RenewLease, ResetStaleProcessingRecord, RecoverExpiredExecution, Suspect, Start, Add, RemoveTerminal;
    var c := s.cell;
    match a
    case CancelJob => CancelMoves(c, s.now);
    case ClaimJob => ClaimDueJobMoves(c, s.now);
    case ClaimAttempt(k) => ClaimDueExecutionMoves(c, k, s.now);
    case ClaimOutboxRow(t) => ClaimOutboxMoves(c, t, s.now); QueueMoves(c, c.queue);
    case ResetOutboxRow(t) => ResetOutboxMoves(c, t); QueueMoves(c, c.queue);
    case PruneOutbox => PruneMoves(c, cfg.retention, s.now);
    case Advance(r, outcome) =>
      if r in s.runs {
        StepMoves(cfg, c, s.runs[r], outcome, s.now);
      } else {
        QueueMoves(c, c.queue);
      }
    case Renew(k, worker) => RenewMoves(c, k, worker, cfg.leaseDuration, s.now);
    case ResetStale => ResetStaleMoves(c, cfg.processingTimeout, s.now);
    case Recover(k, delay) => RecoverMoves(c, k, delay, s.now);
    case _ => QueueMoves(c, Apply(cfg, s, a).cell.queue);
  }

  // ---- and so keeps the invariant

  lemma ApplyKeepsRows(cfg: Config, s: System, a: Action)
    requires Inv(s)
    ensures
      var c' := Apply(cfg, s, a).cell;
      AttemptChain(c') && ClaimAccounts(c') && CountedOnce(c') && OutboxedOnce(c') && PublishAccounts(c')
  {
    hide Apply, AttemptMoves, JobMoves, RecordMoves, LeaseMoves, OutboxMoves,
         AttemptChain, ClaimAccounts, CountedOnce, OutboxedOnce, PublishAccounts, AllSnapshotsAgree, StartsPaid;
    var c' := Apply(cfg, s, a).cell;
    ApplyMoves(cfg, s, a);
    ChainKept(s.cell, c', Touched(s, a));
    ClaimAccountsKept(s.cell, c');
    CountKept(s.cell, c');
    OutboxedKept(s.cell, c', Touched(s, a));
    PublishKept(s.cell, c');
  }

  /** The stepping run's own snapshots. */
  lemma StepSnapshots(cfg: Config, c: Cell, run: Run, outcome: Outcome, now: Time)
    requires SnapshotsAgree(c, run) && c.job.maxAttempts >= 1
    requires c.job.status.JobCancelled? ==> c.executions == map[]
    ensures
      var next := Step(cfg, c, run, outcome, now);
      next.run.Some? ==> SnapshotsAgree(next.cell, next.run.value)
  {
    hide AlreadyCompletedTransaction, FinalFailureTransaction, Finish;
  }

  /** A run found afterwards was there before, has just stepped, or has just been delivered. */
  lemma WhereRunsComeFrom(cfg: Config, s: System, a: Action, r: RunId)
    requires r in Apply(cfg, s, a).runs
    ensures
      var s' := Apply(cfg, s, a);
      if a.Advance? && a.id == r then
        && r in s.runs
        && var next := Step(cfg, s.cell, s.runs[r], a.outcome, s.now);
           next.run.Some? && s'.runs[r] == next.run.value && s'.cell == next.cell && s'.now == s.now
      else
        || (r in s.runs && s'.runs[r] == s.runs[r])
        || (s'.cell == s.cell && (s'.runs[r].point.Creating? || s'.runs[r].point.Reading?))
  {
    hide Step;
  }

  lemma ApplyKeepsSnapshots(cfg: Config, s: System, a: Action)
    requires Inv(s)
    ensures AllSnapshotsAgree(Apply(cfg, s, a))
  {
    hide Apply, JobMoves, RecordMoves, OutboxMoves, Step,
         AttemptChain, ClaimAccounts, CountedOnce, OutboxedOnce, PublishAccounts, StartsPaid;
    var s' := Apply(cfg, s, a);
    ApplyMoves(cfg, s, a);
    forall r | r in s'.runs
      ensures SnapshotsAgree(s'.cell, s'.runs[r])
    {
      WhereRunsComeFrom(cfg, s, a, r);
      if a.Advance? && a.id == r {
        StepSnapshots(cfg, s.cell, s.runs[r], a.outcome, s.now);
      } else if r in s.runs && s'.runs[r] == s.runs[r] {
        SnapshotKept(s.cell, s'.cell, Touched(s, a), s.runs[r]);
      }
    }
  }

  /** Before any scheduler claims the job, only time, cancellation and that claim do anything. */
  lemma UnclaimedIsInert(cfg: Config, s: System, a: Action)
    requires Inv(s) && Unclaimed(s.cell)
    ensures a.Tick? || a.CancelJob? || a.ClaimJob? || Apply(cfg, s, a) == s
  {
    hide Step, Start, AttemptChain, ClaimAccounts, CountedOnce, OutboxedOnce, PublishAccounts, StartsPaid;
  }

  lemma ApplyKeepsUntouched(cfg: Config, s: System, a: Action)
    requires Inv(s)
    ensures UntouchedBeforeClaim(Apply(cfg, s, a))
  {
    if Unclaimed(s.cell) {
      UnclaimedIsInert(cfg, s, a);
    } else {
      assert !Unclaimed(Apply(cfg, s, a).cell) by {
        hide Apply, AttemptMoves, RecordMoves, LeaseMoves, OutboxMoves;
        ApplyMoves(cfg, s, a);
      }
    }
  }

  /** A step to or from a claimed point changes the number of claimed runs by one. */
  lemma ClaimedRunsSet(runs: map<RunId, Run>, r: RunId, run: Option<Run>)
    ensures ClaimedRuns(SetRun(runs, r, run)) ==
            ClaimedRuns(runs) - {r} + (if run.Some? && run.value.point.Claimed() then {r} else {})
  {
  }

  function Claims(run: Option<Run>): nat { if run.Some? && run.value.point.Claimed() then 1 else 0 }

  ghost predicate SameStarts(c: Cell, c': Cell) {
    c'.tally.starts == c.tally.starts && c'.tally.claims == c.tally.claims
  }

  lemma OutcomesStartNothing(c: Cell, k: nat, max: nat, outcome: Outcome, now: Time)
    ensures SameStarts(c, Finish(c, k, max, outcome, now))
    ensures SameStarts(c, FinalFailureTransaction(c, k, false, now))
    ensures SameStarts(c, AlreadyCompletedTransaction(c, k, now))
  {
  }

  /** A step that starts a handler gives up its claimed point; one that takes such a point claims. */
  lemma StepPaysForStarts(cfg: Config, c: Cell, run: Run, outcome: Outcome, now: Time)
    ensures
      var next := Step(cfg, c, run, outcome, now);
      |next.cell.tally.starts| + Claims(next.run) + c.tally.claims
        <= |c.tally.starts| + Claims(Some(run)) + next.cell.tally.claims
  {
    hide Finish, FinalFailureTransaction, AlreadyCompletedTransaction;
    OutcomesStartNothing(c, run.attempt, run.maxAttempts, outcome, now);
  }

  lemma OthersStartNothing(cfg: Config, s: System, a: Action)
    requires !a.Advance?
    ensures Apply(cfg, s, a).cell.tally.starts == s.cell.tally.starts
    ensures ClaimedRuns(Apply(cfg, s, a).runs) <= ClaimedRuns(s.runs)
  {
    hide Step;
  }

  lemma SmallerSet(small: set<RunId>, big: set<RunId>)
    requires small <= big
    ensures |small| <= |big|
  {
    assert big == small + (big - small);
  }

  /** Exchanging one run changes the number of claimed runs by that run's part. */
  lemma ClaimedRunsCount(runs: map<RunId, Run>, r: RunId, run: Option<Run>)
    requires r in runs
    ensures |ClaimedRuns(SetRun(runs, r, run))| + Claims(Some(runs[r])) == |ClaimedRuns(runs)| + Claims(run)
  {
    var others := ClaimedRuns(runs) - {r};
    ClaimedRunsSet(runs, r, run);
    hide ClaimedRuns, SetRun;
    assert ClaimedRuns(runs) == others + (if runs[r].point.Claimed() then {r} else {}) by { InClaimedRuns(runs, r); }
  }

  lemma InClaimedRuns(runs: map<RunId, Run>, r: RunId)
    requires r in runs
    ensures r in ClaimedRuns(runs) <==> runs[r].point.Claimed()
  {
  }

  lemma AdvanceKeepsStarts(cfg: Config, s: System, r: RunId, outcome: Outcome)
    requires StartsPaid(s) && r in s.runs
    ensures StartsPaid(Apply(cfg, s, Advance(r, outcome)))
  {
    hide Step, ClaimedRuns, SetRun, Claims;
    var next := Step(cfg, s.cell, s.runs[r], outcome, s.now);
    StepPaysForStarts(cfg, s.cell, s.runs[r], outcome, s.now);
    ClaimedRunsCount(s.runs, r, next.run);
  }

  lemma ClaimsOnlyGrow(cfg: Config, s: System, a: Action)
    requires AllSnapshotsAgree(s)
    ensures s.cell.tally.claims <= Apply(cfg, s, a).cell.tally.claims
  {
    hide Apply, AttemptMoves, JobMoves, LeaseMoves, OutboxMoves, AllSnapshotsAgree;
    ApplyMoves(cfg, s, a);
  }

  lemma NothingAdvances(cfg: Config, s: System, a: Action)
    requires a.Advance? && a.id !in s.runs
    ensures Apply(cfg, s, a) == s
  {
  }

  lemma ApplyKeepsStarts(cfg: Config, s: System, a: Action)
    requires Inv(s)
    ensures StartsPaid(Apply(cfg, s, a))
  {
    hide AttemptChain, ClaimAccounts, CountedOnce, OutboxedOnce, PublishAccounts, AllSnapshotsAgree,
         UntouchedBeforeClaim, Apply, ClaimedRuns;
    var s' := Apply(cfg, s, a);
    if a.Advance? && a.id in s.runs {
      AdvanceKeepsStarts(cfg, s, a.id, a.outcome);
    } else if a.Advance? {
      NothingAdvances(cfg, s, a);
    } else {
      OthersStartNothing(cfg, s, a);
      SmallerSet(ClaimedRuns(s'.runs), ClaimedRuns(s.runs));
      ClaimsOnlyGrow(cfg, s, a);
    }
  }

  lemma ApplyKeepsInv(cfg: Config, s: System, a: Action)
    requires Inv(s)
    ensures Inv(Apply(cfg, s, a))
  {
    hide Apply, AttemptMoves, RecordMoves, LeaseMoves, OutboxMoves,
         AttemptChain, ClaimAccounts, CountedOnce, OutboxedOnce, PublishAccounts, AllSnapshotsAgree,
         UntouchedBeforeClaim, StartsPaid;
    ApplyKeepsRows(cfg, s, a);
    ApplyKeepsSnapshots(cfg, s, a);
    ApplyKeepsUntouched(cfg, s, a);
    ApplyKeepsStarts(cfg, s, a);
    assert Apply(cfg, s, a).cell.job.maxAttempts == s.cell.job.maxAttempts by {
      ApplyMoves(cfg, s, a);
    }
  }

  /** The invariant holds in every state that any interleaving reaches. */
  lemma {:induction false} ReachableInv(cfg: Config, s: System, acts: seq<Action>)
    requires Inv(s)
    ensures Inv(Exec(cfg, s, acts))
    decreases |acts|
  {
    hide Inv, Apply;
    if acts != [] {
      ApplyKeepsInv(cfg, s, acts[0]);
      ReachableInv(cfg, Apply(cfg, s, acts[0]), acts[1..]);
    }
  }
}
