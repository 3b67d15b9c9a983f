/** Tier A, in time: no job is taken up before its run time, and no retry before its backoff is over. */
module OnTime {
  import opened Rows
  import opened Statements
  import opened Runs
  import opened Protocol
  import opened Effects
  import opened EveryInterleaving

  /** A job no longer SCHEDULED, unless it was cancelled, has reached its run time. */
  ghost predicate JobOnTime(c: Cell, now: Time) {
    c.job.status.JobScheduled? || c.job.status.JobCancelled? || c.job.runAt <= now
  }

  /** An attempt with a retry time that is no longer SCHEDULED has reached that time. */
  ghost predicate AttemptsOnTime(c: Cell, now: Time) {
    forall k :: k in c.executions && c.executions[k].retryAt.Some? && !c.executions[k].status.Scheduled? ==>
      c.executions[k].retryAt.value <= now
  }

  /** Runs lease, and handlers start on, attempts that have left SCHEDULED. */
  ghost predicate Underway(c: Cell, k: nat) { k in c.executions && !c.executions[k].status.Scheduled? }

  ghost predicate RunsUnderway(s: System) {
    forall r :: r in s.runs && (s.runs[r].point.Leasing? || s.runs[r].point.Leased()) ==>
      Underway(s.cell, s.runs[r].attempt)
  }

  ghost predicate StartsUnderway(c: Cell) {
    forall k :: k in c.tally.starts ==> Underway(c, k)
  }

  ghost predicate NothingEarly(s: System) {
    && JobOnTime(s.cell, s.now)
    && AttemptsOnTime(s.cell, s.now)
    && RunsUnderway(s)
    && StartsUnderway(s.cell)
  }

  // ---- rows

  /** An attempt that has left SCHEDULED does not go back. */
  lemma UnderwayKept(c: Cell, c': Cell, k: nat, j: nat)
    requires Underway(c, j) && AttemptMoves(c, c', k)
    ensures Underway(c', j) && c'.executions[j].retryAt == c.executions[j].retryAt
  {
  }

  /** The row that an action writes: no longer SCHEDULED already, or due, or not there. */
  ghost predicate MayWrite(c: Cell, k: nat, now: Time) {
    k in c.executions && c.executions[k].status.Scheduled? && c.executions[k].retryAt.Some? ==>
      c.executions[k].retryAt.value <= now
  }

  lemma AttemptsKept(c: Cell, c': Cell, k: nat, now: Time, now': Time)
    requires AttemptsOnTime(c, now) && AttemptMoves(c, c', k) && now <= now'
    requires c'.executions != c.executions ==> MayWrite(c, k, now)
    ensures AttemptsOnTime(c', now')
  {
  }

  lemma JobKept(c: Cell, c': Cell, now: Time, now': Time)
    requires JobOnTime(c, now) && JobMoves(c, c') && now <= now'
    requires c.job.status.JobScheduled? && !c'.job.status.JobScheduled? && !c'.job.status.JobCancelled? ==>
      c.job.runAt <= now
    ensures JobOnTime(c', now')
  {
  }

  // ---- each action is on time

  lemma ClaimedIsDue(c: Cell, k: nat, now: Time)
    ensures ClaimDueExecution(c, k, now).GetOr(c).executions != c.executions ==>
      k in c.executions && c.executions[k].retryAt.Some? && c.executions[k].retryAt.value <= now
  {
  }

  lemma RecoveryWritesRunning(c: Cell, k: nat, delay: nat, now: Time)
    ensures RecoverExpiredExecution(c, k, delay, now).cell.executions != c.executions ==> Underway(c, k)
  {
  }

  lemma RunWritesUnderway(cfg: Config, s: System, r: RunId, outcome: Outcome)
    requires r in s.runs && RunsUnderway(s)
    ensures
      var run, c' := s.runs[r], Step(cfg, s.cell, s.runs[r], outcome, s.now).cell;
      c'.executions == s.cell.executions || Underway(s.cell, run.attempt) || run.point.Creating?
  {
    hide Finish, FinalFailureTransaction, AlreadyCompletedTransaction, GetOrCreateInitialExecution;
  }

  lemma WritesOnTime(cfg: Config, s: System, a: Action)
    requires Inv(s) && NothingEarly(s)
    ensures
      var s' := Apply(cfg, s, a);
      || s'.cell.executions == s.cell.executions
      || MayWrite(s.cell, Touched(s, a), s.now)
      || Opens(s.cell.executions, s'.cell.executions)
  {
    hide Inv, Step, RecoverExpiredExecution, ClaimDueExecution, Start;
    if a.Advance? && a.id in s.runs {
      RunWritesUnderway(cfg, s, a.id, a.outcome);
      if s.runs[a.id].point.Creating? {
        CreatingOpens(cfg, s.cell, s.runs[a.id], a.outcome, s.now);
      }
    } else if a.Recover? {
      RecoveryWritesRunning(s.cell, a.attempt, a.delay, s.now);
    } else if a.ClaimAttempt? {
      ClaimedIsDue(s.cell, a.attempt, s.now);
    }
  }

  lemma CreatingOpens(cfg: Config, c: Cell, run: Run, outcome: Outcome, now: Time)
    requires run.point.Creating?
    ensures
      var c' := Step(cfg, c, run, outcome, now).cell;
      c'.executions == c.executions || Opens(c.executions, c'.executions)
  {
    hide Finish, FinalFailureTransaction, AlreadyCompletedTransaction;
  }

  /** Only the scheduler takes a job out of SCHEDULED, when it is due. */
  lemma JobLeavesOnTime(cfg: Config, s: System, a: Action)
    requires Inv(s)
    ensures
      var job, job' := s.cell.job, Apply(cfg, s, a).cell.job;
      job.status.JobScheduled? && !job'.status.JobScheduled? && !job'.status.JobCancelled? ==> job.runAt <= s.now
  {
    if s.cell.job.status.JobScheduled? {
      UnclaimedIsInert(cfg, s, a);
    }
  }

  lemma OpensOnTime(c: Cell, c': Cell, now: Time, now': Time)
    requires AttemptsOnTime(c, now) && Opens(c.executions, c'.executions) && now <= now'
    ensures AttemptsOnTime(c', now')
  {
  }

  lemma TimeGoesOn(cfg: Config, s: System, a: Action)
    ensures s.now <= Apply(cfg, s, a).now
  {
    hide Step;
  }

  lemma RowsStayOnTime(cfg: Config, s: System, a: Action)
    requires Inv(s) && NothingEarly(s)
    ensures JobOnTime(Apply(cfg, s, a).cell, Apply(cfg, s, a).now)
    ensures AttemptsOnTime(Apply(cfg, s, a).cell, Apply(cfg, s, a).now)
  {
    assert AllSnapshotsAgree(s);
    hide Inv, Apply, AttemptsOnTime, MayWrite, RecordMoves, LeaseMoves, OutboxMoves, Opens;
    var s' := Apply(cfg, s, a);
    ApplyMoves(cfg, s, a);
    TimeGoesOn(cfg, s, a);
    JobLeavesOnTime(cfg, s, a);
    JobKept(s.cell, s'.cell, s.now, s'.now);
    WritesOnTime(cfg, s, a);
    if Opens(s.cell.executions, s'.cell.executions) {
      OpensOnTime(s.cell, s'.cell, s.now, s'.now);
    } else {
      AttemptsKept(s.cell, s'.cell, Touched(s, a), s.now, s'.now);
    }
  }

  // ---- runs and handler starts

  lemma StepUnderway(cfg: Config, c: Cell, run: Run, outcome: Outcome, now: Time)
    ensures
      var next := Step(cfg, c, run, outcome, now);
      next.run.Some? && (next.run.value.point.Leasing? || next.run.value.point.Leased()) ==>
        && next.run.value.attempt == run.attempt
        && (run.point.Leasing? || run.point.Leased() || Underway(c, run.attempt))
  {
    hide Finish, FinalFailureTransaction, AlreadyCompletedTransaction;
  }

  /** A step starts the handler of its own attempt or of none. */
  lemma StepStartsItsOwn(cfg: Config, c: Cell, run: Run, outcome: Outcome, now: Time)
    ensures
      var starts := Step(cfg, c, run, outcome, now).cell.tally.starts;
      starts == c.tally.starts || (run.point.Leased() && starts == c.tally.starts + multiset{run.attempt})
  {
    hide Finish, FinalFailureTransaction, AlreadyCompletedTransaction;
    OutcomesStartNothing(c, run.attempt, run.maxAttempts, outcome, now);
  }

  lemma RunsStayUnderway(cfg: Config, s: System, a: Action)
    requires Inv(s) && NothingEarly(s)
    ensures RunsUnderway(Apply(cfg, s, a)) && StartsUnderway(Apply(cfg, s, a).cell)
  {
    assert AllSnapshotsAgree(s);
    hide Inv, Apply, Step, AttemptMoves, JobMoves, RecordMoves, LeaseMoves, OutboxMoves, Underway;
    var s' := Apply(cfg, s, a);
    ApplyMoves(cfg, s, a);
    forall r | r in s'.runs && (s'.runs[r].point.Leasing? || s'.runs[r].point.Leased())
      ensures Underway(s'.cell, s'.runs[r].attempt)
    {
      WhereRunsComeFrom(cfg, s, a, r);
      if a.Advance? && a.id == r {
        StepUnderway(cfg, s.cell, s.runs[r], a.outcome, s.now);
      }
      UnderwayKept(s.cell, s'.cell, Touched(s, a), s'.runs[r].attempt);
    }
    forall k | k in s'.cell.tally.starts
      ensures Underway(s'.cell, k)
    {
      StartsComeFrom(cfg, s, a, k);
      UnderwayKept(s.cell, s'.cell, Touched(s, a), k);
    }
  }

  lemma StartsComeFrom(cfg: Config, s: System, a: Action, k: nat)
    requires RunsUnderway(s) && StartsUnderway(s.cell) && k in Apply(cfg, s, a).cell.tally.starts
    ensures Underway(s.cell, k)
  {
    hide Step, Underway;
    if a.Advance? {
      if a.id in s.runs {
        StepStartsItsOwn(cfg, s.cell, s.runs[a.id], a.outcome, s.now);
      }
    } else {
      OthersStartNothing(cfg, s, a);
    }
  }

  lemma ApplyKeepsOnTime(cfg: Config, s: System, a: Action)
    requires Inv(s) && NothingEarly(s)
    ensures NothingEarly(Apply(cfg, s, a))
  {
    hide Inv, Apply, JobOnTime, AttemptsOnTime, RunsUnderway, StartsUnderway;
    RowsStayOnTime(cfg, s, a);
    RunsStayUnderway(cfg, s, a);
  }

  lemma {:induction false} ReachableOnTime(cfg: Config, s: System, acts: seq<Action>)
    requires Inv(s) && NothingEarly(s)
    ensures NothingEarly(Exec(cfg, s, acts))
    decreases |acts|
  {
    hide Inv, NothingEarly, Apply;
    if acts != [] {
      ApplyKeepsOnTime(cfg, s, acts[0]);
      ApplyKeepsInv(cfg, s, acts[0]);
      ReachableOnTime(cfg, Apply(cfg, s, acts[0]), acts[1..]);
    }
  }

  // ---- what it means

  /**
   * In every state that any interleaving reaches: a job taken up has reached its run time; a retry or
   * replacement no longer SCHEDULED has reached its time; and both hold for every attempt whose handler
   * has ever been started, which, as this holds at every moment, is to say that none was started early.
   */
  lemma NothingHappensEarly(cfg: Config, job: Job, key: string, now: Time, acts: seq<Action>)
    requires FreshJob(job)
    ensures
      var s := Exec(cfg, Created(job, key, now), acts);
      var c := s.cell;
      && c.job.runAt == job.runAt
      && (c.job.status.JobScheduled? || c.job.status.JobCancelled? || job.runAt <= s.now)
      && (forall k :: k in c.executions && c.executions[k].retryAt.Some? && !c.executions[k].status.Scheduled? ==>
            c.executions[k].retryAt.value <= s.now)
      && (forall k :: k in c.tally.starts ==>
            && job.runAt <= s.now && k in c.executions && !c.executions[k].status.Scheduled?
            && (c.executions[k].retryAt.Some? ==> c.executions[k].retryAt.value <= s.now))
  {
    var s0 := Created(job, key, now);
    CreatedInv(job, key, now);
    ReachableOnTime(cfg, s0, acts);
    ReachableInv(cfg, s0, acts);
    RunTimeStays(cfg, s0, acts);
    var s := Exec(cfg, s0, acts);
    UntouchedFacts(s);
    hide Inv, Apply;
  }

  lemma UntouchedFacts(s: System)
    requires Inv(s)
    ensures s.cell.job.status.JobScheduled? || s.cell.job.status.JobCancelled? ==> s.cell.executions == map[]
  {
  }

  lemma {:induction false} RunTimeStays(cfg: Config, s: System, acts: seq<Action>)
    requires Inv(s)
    ensures Exec(cfg, s, acts).cell.job.runAt == s.cell.job.runAt
    decreases |acts|
  {
    if acts != [] {
      assert AllSnapshotsAgree(s);
      hide Inv, Apply, AttemptMoves, RecordMoves, LeaseMoves, OutboxMoves;
      ApplyMoves(cfg, s, acts[0]);
      ApplyKeepsInv(cfg, s, acts[0]);
      RunTimeStays(cfg, Apply(cfg, s, acts[0]), acts[1..]);
    }
  }
}
