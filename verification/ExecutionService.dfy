/** execution.service.ts over the tables: the transactions, recovery, and a run between its awaits. */
module ExecutionService {
  import opened Rows
  import opened Runs
  import opened Protocol
  import opened EveryInterleaving
  import opened Database
  import opened Heartbeat
  import L = LeaseDiscipline
  import Steps
  import S = Statements

  // ---- transactions; each answers whether it committed

  method SuccessTransaction(rows: JobRows, k: nat, now: Time) returns (committed: bool)
    modifies rows
    ensures committed == S.SuccessTransaction(old(rows.View()), k, now).Some?
    ensures rows.View() == S.SuccessTransaction(old(rows.View()), k, now).GetOr(old(rows.View()))
  {
    var saved, savedTally := rows.Begin();
    committed := rows.CompleteIdempotency();
    if !committed {
      rows.Rollback(saved, savedTally);
      return;
    }
    rows.SuccessExecution(k, now);
    var result := rows.SuccessJob(now);
  }

  method CloseAttempt(rows: JobRows, k: nat, timedOut: bool, now: Time)
    modifies rows
    ensures rows.View() == S.CloseAttempt(old(rows.View()), k, timedOut, now)
  {
    if timedOut {
      rows.TimedOutExecution(k, now);
    } else {
      rows.FailedExecution(k, now);
    }
  }

  method RetryTransaction(rows: JobRows, k: nat, timedOut: bool, delay: nat, now: Time) returns (committed: bool)
    modifies rows
    ensures committed == S.RetryTransaction(old(rows.View()), k, timedOut, delay, now).Some?
    ensures rows.View() == S.RetryTransaction(old(rows.View()), k, timedOut, delay, now).GetOr(old(rows.View()))
  {
    var saved, savedTally := rows.Begin();
    CloseAttempt(rows, k, timedOut, now);
    committed := rows.ResetToPending();
    if committed {
      var nextAttempt := k + 1;
      committed := rows.NewExecution(nextAttempt, now + delay, now);
    }
    if !committed {
      rows.Rollback(saved, savedTally);
    }
  }

  /** Answers whether the job row was there to be changed. */
  method FinalFailureTransaction(rows: JobRows, k: nat, timedOut: bool, now: Time) returns (changed: bool)
    modifies rows
    ensures changed == !old(rows.job).status.Terminal()
    ensures rows.View() == S.FinalFailureTransaction(old(rows.View()), k, timedOut, now)
  {
    CloseAttempt(rows, k, timedOut, now);
    changed := rows.FailedJob(now);
  }

  method AlreadyCompletedTransaction(rows: JobRows, k: nat, now: Time) returns (changed: bool)
    modifies rows
    ensures changed == !old(rows.job).status.Terminal()
    ensures rows.View() == S.AlreadyCompletedTransaction(old(rows.View()), k, now)
  {
    rows.SuccessExecution(k, now);
    changed := rows.SuccessJob(now);
  }

  /** The part of executeExistingExecution after the handler. */
  method FinishHandler(rows: JobRows, k: nat, maxAttempts: nat, outcome: Outcome, now: Time)
    modifies rows
    ensures rows.View() == Runs.Finish(old(rows.View()), k, maxAttempts, outcome, now)
  {
    if outcome.Succeeded? {
      var committed := SuccessTransaction(rows, k, now);
    } else if k < maxAttempts {
      var committed := RetryTransaction(rows, k, outcome.Expired?, outcome.delay, now);
    } else {
      var changed := FinalFailureTransaction(rows, k, outcome.Expired?, now);
    }
  }

  // ---- recovery

  /**
   * None when it throws. After the COMPLETED branch has committed, its log line reads a property of
   * the job row that successJob returned, and there is none if the job was terminal already.
   */
  function Answer(exit: S.RecoveryExit, wasTerminal: bool): Option<bool> {
    match exit
    case NotFound => None
    case DuplicateAttempt => None
    case NotRunning => Some(false)
    case LeaseMissingOrLive => Some(false)
    case UnexpectedRecord => Some(false)
    case AlreadyDone => if wasTerminal then None else Some(true)
    case AttemptsExhausted => Some(true)
    case Replaced => Some(true)
  }

  /** A COMPLETED record means a terminal job, in every interleaving: that branch commits and then always throws. */
  lemma CompletedBranchThrows(s: System, k: nat, delay: nat)
    requires Inv(s)
    ensures
      var recovery := S.RecoverExpiredExecution(s.cell, k, delay, s.now);
      recovery.exit.AlreadyDone? ==>
        && Answer(recovery.exit, s.cell.job.status.Terminal()) == None
        && recovery.cell.job == s.cell.job
        && recovery.cell.executions == s.cell.executions[k :=
             s.cell.executions[k].(status := Completed, completedAt := Some(s.now), updatedAt := s.now)]
  {
    hide S.CrashLastAttempt, S.CrashAndReplace, AttemptChain, AllSnapshotsAgree, UntouchedBeforeClaim, OutboxedOnce,
         PublishAccounts, CountedOnce, StartsPaid;
  }

  /**
   * In every interleaving, what recovery does and answers: None is an exception, Some(true) a recovery. Only an
   * expired RUNNING attempt is touched, and of those with a PROCESSING claim only the newest can be recovered.
   */
  lemma RecoveryAnswers(s: System, k: nat, delay: nat)
    requires Inv(s)
    ensures
      var c, recovery := s.cell, S.RecoverExpiredExecution(s.cell, k, delay, s.now);
      var c', answer := recovery.cell, Answer(recovery.exit, s.cell.job.status.Terminal());
      if k !in c.executions then c' == c && answer == None
      else if !c.executions[k].status.Running? || k !in c.leases || c.leases[k].expiresAt > s.now
      then c' == c && answer == Some(false)
      else if c.record.status.Pending? then c' == c && answer == Some(false)
      else if c.record.status.Done?
      then
        && answer == None
        && c' == c.(executions := c.executions[k := Steps.Ended(c.executions[k], Completed, s.now)])
      else
        var crashed := Execution(WorkerCrashed, c.executions[k].retryAt, c.executions[k].startedAt,
                                 Some(c.leases[k].expiresAt), s.now);
        if k < |c.executions| then c' == c && answer == None
        else if k < c.job.maxAttempts
        then
          && answer == Some(true)
          && c' == c.(executions := c.executions[k := crashed]
                        [k + 1 := Execution(Scheduled, Some(s.now + delay), None, None, s.now)],
                      record := Record(c.record.key, Pending, None),
                      tally := c.tally.(resets := c.tally.resets + 1))
        else
          && answer == Some(true)
          && c' == c.(executions := c.executions[k := crashed], job := c'.job, tally := c'.tally)
          && Steps.JobEnds(c, c', JobFailed, s.now) && c'.tally == c.tally.(finals := c'.tally.finals)
  {
    hide AllSnapshotsAgree, UntouchedBeforeClaim, OutboxedOnce, PublishAccounts, StartsPaid;
  }

  method RecoverExpiredExecution(rows: JobRows, k: nat, delay: nat, now: Time) returns (recovered: Option<bool>)
    modifies rows
    ensures rows.View() == S.RecoverExpiredExecution(old(rows.View()), k, delay, now).cell
    ensures recovered ==
      Answer(S.RecoverExpiredExecution(old(rows.View()), k, delay, now).exit, old(rows.job).status.Terminal())
    ensures rows.queue == old(rows.queue)
  {
    var saved, savedTally := rows.Begin();
    if k !in rows.executions {
      return None;
    }
    if !rows.executions[k].status.Running? {
      return Some(false);
    }
    if k !in rows.leases || rows.leases[k].expiresAt > now {
      return Some(false);
    }
    if rows.record.status.Done? {
      var changed := AlreadyCompletedTransaction(rows, k, now);
      return if changed then Some(true) else None;
    }
    if !rows.record.status.Processing? {
      return Some(false);
    }
    var crashed := rows.MarkWorkerCrashed(k, rows.leases[k].expiresAt, now);
    if k >= rows.job.maxAttempts {
      var failedJob := rows.FailedJob(now);
      return Some(true);
    }
    var nextAttempt := k + 1;
    var inserted := rows.NewExecution(nextAttempt, now + delay, now);
    if !inserted {
      rows.Rollback(saved, savedTally);
      return None;
    }
    var reset := rows.ResetToPending();
    recovered := Some(true);
  }

  // ---- a run

  /**
   * What a step does to the worker's register of active executions. Without a handler, a job found
   * terminal makes the log line after the transaction throw, and the execution stays registered.
   */
  function Registrations(
    active: map<ExecutionId, WorkerId>, id: ExecutionId, worker: WorkerId,
    before: Point, after: Option<Run>, wasTerminal: bool): map<ExecutionId, WorkerId>
  {
    if before.Leasing? && after.Some? then active[id := worker]
    else if before.Leased() && after.None? && !(before.ClosingUnhandled? && wasTerminal) then active - {id}
    else active
  }

  /** The register after a whole call, by the point at which the call ended. */
  function RegisteredAtEnd(
    active: map<ExecutionId, WorkerId>, id: ExecutionId, worker: WorkerId, last: Point, wasTerminal: bool)
    : map<ExecutionId, WorkerId>
  {
    if !last.Leased() then active
    else if last.ClosingUnhandled? && wasTerminal then active[id := worker]
    else active - {id}
  }

  /** Statements a run has at most before it, the next one included. */
  function Remaining(point: Point): nat {
    match point
    case Creating => 8
    case Reading => 7
    case Leasing => 6
    case ReadingJob => 5
    case Claiming => 4
    case Starting => 3
    case ReadingClaim => 2
    case StartingJob => 2
    case _ => 1
  }

  /** The actions of others never move this run. */
  predicate LeavesAlone(acts: seq<Action>, r: RunId) {
    forall a :: a in acts ==> !(a.Advance? && a.id == r) && a != Drop(r)
  }

  lemma OtherActionKeepsRun(cfg: Config, s: System, a: Action, r: RunId)
    requires r in s.runs && !(a.Advance? && a.id == r) && a != Drop(r)
    ensures r in Apply(cfg, s, a).runs && Apply(cfg, s, a).runs[r] == s.runs[r]
  {
    hide Step;
  }

  lemma {:induction false} OthersKeepRun(cfg: Config, s: System, acts: seq<Action>, r: RunId)
    requires r in s.runs && LeavesAlone(acts, r)
    ensures r in Exec(cfg, s, acts).runs && Exec(cfg, s, acts).runs[r] == s.runs[r]
    decreases |acts|
  {
    hide Apply;
    if acts != [] {
      assert acts[0] in acts;
      OtherActionKeepsRun(cfg, s, acts[0], r);
      OthersKeepRun(cfg, Apply(cfg, s, acts[0]), acts[1..], r);
    }
  }

  /** The first n statements of run r, each after what the others do before it. */
  function Interleaved(others: nat -> seq<Action>, r: RunId, outcome: Outcome, n: nat): seq<Action> {
    if n == 0 then [] else Interleaved(others, r, outcome, n - 1) + (others(n - 1) + [Advance(r, outcome)])
  }

  /** Only the outcome transaction depends on what the handler did. */
  lemma OutcomeOnlyAtTheEnd(cfg: Config, c: Cell, run: Run, outcome: Outcome, now: Time)
    requires !run.point.Handling?
    ensures Step(cfg, c, run, outcome, now) == Step(cfg, c, run, Succeeded, now)
  {
    hide Finish, S.FinalFailureTransaction, S.AlreadyCompletedTransaction;
  }

  lemma FewerRemain(cfg: Config, c: Cell, run: Run, outcome: Outcome, now: Time)
    ensures
      var next := Step(cfg, c, run, outcome, now).run;
      next.Some? ==>
        && Remaining(next.value.point) < Remaining(run.point)
        && (next.value.point.Leased() <==> run.point.Leased() || run.point.Leasing?)
        && (run.point.Leased() || run.point.Leasing? ==> next.value.attempt == run.attempt)
        && next.value.worker == run.worker
  {
    hide Finish, S.FinalFailureTransaction, S.AlreadyCompletedTransaction;
  }

  /** One call of createNewExecution or executeExistingExecution; `point` is None once it has ended. */
  class ExecutionRun {
    const jobId: JobId
    const worker: WorkerId
    const rows: JobRows
    const hearts: Heartbeats
    var point: Option<Point>
    var attempt: nat
    var maxAttempts: nat
    var claimedAt: Time
    ghost var acquisition: nat

    ghost function Abs(): Option<Run>
      reads this
    {
      if point.None? then None
      else Some(Run(point.value, attempt, worker, acquisition, maxAttempts, claimedAt))
    }

    /** worker.ts: a queue entry is delivered. */
    constructor (jobId: JobId, worker: WorkerId, rows: JobRows, hearts: Heartbeats, t: Target)
      ensures this.rows == rows && this.hearts == hearts && this.jobId == jobId && this.worker == worker
      ensures Abs() == Start(rows.View(), t, worker)
    {
      this.jobId, this.worker, this.rows, this.hearts := jobId, worker, rows, hearts;
      maxAttempts, acquisition, claimedAt := 0, 0, 0;
      match t
      case JobTarget =>
        attempt := 0;
        point := if rows.job.status.Terminal() then None else Some(Creating);
      case AttemptTarget(k) =>
        attempt := k;
        point := Some(Reading);
    }

    /** Up to and including the read of the job: the statements before the claim. */
    method Prepare(cfg: Config, now: Time)
      requires hearts.Valid()
      requires point.Some? && (point.value.Creating? || point.value.Reading? || point.value.Leasing?)
      modifies this, rows, hearts
      ensures hearts.Valid()
      ensures StepResult(rows.View(), Abs()) == Step(cfg, old(rows.View()), old(Abs()).value, Succeeded, now)
      ensures point.None? ==> attempt == old(attempt)
      ensures hearts.activeExecutions ==
        Registrations(old(hearts.activeExecutions), (jobId, attempt), worker, old(point).value, Abs(),
                      old(rows.job).status.Terminal())
    {
      match point.value
      case Creating =>
        var created := rows.GetOrCreateInitialExecution(now);
        attempt, point := 1, Some(Reading);
      case Reading =>
        var runnable := attempt in rows.executions && rows.executions[attempt].status.Queued?;
        point := if runnable then Some(Leasing) else None;
      case Leasing =>
        var lease := rows.AcquireExecutionLease(attempt, worker, cfg.leaseDuration, now);
        if lease.None? {
          point := None;
          return;
        }
        acquisition := lease.value.acquisition;
        hearts.RegisterExecution((jobId, attempt), worker);
        point := Some(ReadingJob);
    }

    /** The job read, the claim, and the starts. */
    method ClaimAndStart(cfg: Config, now: Time)
      requires hearts.Valid() && point.Some? && point.value.Leased()
      requires !point.value.Handling? && !point.value.ClosingUnhandled?
      requires !point.value.ClosingStranded? && !point.value.ClosingCompleted?
      modifies this, rows, hearts
      ensures hearts.Valid()
      ensures StepResult(rows.View(), Abs()) == Step(cfg, old(rows.View()), old(Abs()).value, Succeeded, now)
      ensures point.None? ==> attempt == old(attempt)
      ensures hearts.activeExecutions ==
        Registrations(old(hearts.activeExecutions), (jobId, attempt), worker, old(point).value, Abs(),
                      old(rows.job).status.Terminal())
    {
      match point.value
      case ReadingJob =>
        if rows.job.status.JobFailed? || rows.job.status.JobCancelled? {
          point := Some(ClosingStranded);
        } else {
          maxAttempts, point := rows.job.maxAttempts, Some(Claiming);
        }
      case Claiming =>
        var claimed := rows.ClaimIdempotency(now);
        claimedAt, point := now, Some(if claimed then Starting else ReadingClaim);
      case ReadingClaim =>
        if rows.record.status.Done? {
          point := Some(ClosingCompleted);
        } else {
          hearts.UnregisterExecution((jobId, attempt));
          point := None;
        }
      case Starting =>
        rows.StartExecution(attempt, now);
        point := Some(StartingJob);
      case StartingJob =>
        rows.StartJob(now);
        if rows.job.hasHandler {
          rows.BeginHandler(attempt);
        }
        point := Some(if rows.job.hasHandler then Handling else ClosingUnhandled);
    }

    /** The ways out that write: close a stranded, completed or unhandled attempt, or finish the handler. */
    method Conclude(cfg: Config, outcome: Outcome, now: Time)
      requires hearts.Valid() && point.Some?
      requires point.value.ClosingStranded? || point.value.ClosingCompleted? || point.value.ClosingUnhandled?
            || point.value.Handling?
      modifies this, rows, hearts
      ensures hearts.Valid()
      ensures StepResult(rows.View(), Abs()) == Step(cfg, old(rows.View()), old(Abs()).value, outcome, now)
      ensures point.None? ==> attempt == old(attempt)
      ensures hearts.activeExecutions ==
        Registrations(old(hearts.activeExecutions), (jobId, attempt), worker, old(point).value, Abs(),
                      old(rows.job).status.Terminal())
    {
      var changed := true;
      match point.value {
        case ClosingStranded => rows.FailedExecution(attempt, now);
        case ClosingCompleted => var completed := AlreadyCompletedTransaction(rows, attempt, now);
        case ClosingUnhandled => changed := FinalFailureTransaction(rows, attempt, false, now);
        case Handling => FinishHandler(rows, attempt, maxAttempts, outcome, now);
      }
      point := None;
      if changed {
        hearts.UnregisterExecution((jobId, attempt));
      }
    }

    /** The next statement, wherever the call is. */
    method TakeStep(cfg: Config, outcome: Outcome, now: Time)
      requires hearts.Valid() && point.Some?
      modifies this, rows, hearts
      ensures hearts.Valid()
      ensures StepResult(rows.View(), Abs()) == Step(cfg, old(rows.View()), old(Abs()).value, outcome, now)
      ensures point.None? ==> attempt == old(attempt)
      ensures hearts.activeExecutions ==
        Registrations(old(hearts.activeExecutions), (jobId, attempt), worker, old(point).value, Abs(),
                      old(rows.job).status.Terminal())
    {
      hide Step;
      if !point.value.Handling? {
        OutcomeOnlyAtTheEnd(cfg, rows.View(), Abs().value, outcome, now);
      }
      if point.value.Creating? || point.value.Reading? || point.value.Leasing? {
        Prepare(cfg, now);
      } else if point.value.ClosingStranded? || point.value.ClosingCompleted? || point.value.ClosingUnhandled?
                || point.value.Handling? {
        Conclude(cfg, outcome, now);
      } else {
        ClaimAndStart(cfg, now);
      }
    }

    /** The rows are those of s, and this call is its run r; it has ended when s has no such run. */
    ghost predicate Follows(s: System, r: RunId)
      reads this, rows
    {
      && rows.View() == s.cell
      && (if point.None? then r !in s.runs else r in s.runs && s.runs[r] == Abs().value)
    }

    /** The others act, then this call's next statement executes. */
    method TakeTurn(cfg: Config, s: System, r: RunId, acts: seq<Action>, outcome: Outcome) returns (s': System)
      requires hearts.Valid() && point.Some? && Follows(s, r) && LeavesAlone(acts, r)
      modifies this, rows, hearts
      ensures hearts.Valid() && Follows(s', r)
      ensures s' == Exec(cfg, s, acts + [Advance(r, outcome)])
      ensures attempt == (if point.Some? then Abs().value else s.runs[r]).attempt
      ensures
        var before := Exec(cfg, s, acts);
        && r in before.runs && before.runs[r] == s.runs[r]
        && Abs() == Step(cfg, before.cell, s.runs[r], outcome, before.now).run
        && hearts.activeExecutions ==
           Registrations(old(hearts.activeExecutions), (jobId, attempt), worker, s.runs[r].point, Abs(),
                         before.cell.job.status.Terminal())
    {
      hide Step, Exec, LeavesAlone, Registrations;
      var before := Exec(cfg, s, acts);
      OthersKeepRun(cfg, s, acts, r);
      rows.Become(before.cell);
      TakeStep(cfg, outcome, before.now);
      s' := Apply(cfg, before, Advance(r, outcome));
      ExecAppend(cfg, s, acts, [Advance(r, outcome)]);
      ExecOne(cfg, before, Advance(r, outcome));
    }

    /**
     * The whole call, `others(i)` being what everyone else does before its statement i: the rows are
     * those of the protocol's run of all these actions, and the execution is unregistered again, unless
     * the call ended where it had no handler and found the job terminal.
     */
    method Execute(cfg: Config, s0: System, r: RunId, others: nat -> seq<Action>, outcome: Outcome)
      returns (s: System, ghost steps: nat)
      requires hearts.Valid() && point.Some? && !point.value.Leased() && Follows(s0, r)
      requires forall i :: LeavesAlone(others(i), r)
      modifies this, rows, hearts
      ensures hearts.Valid() && point.None? && Follows(s, r)
      ensures 1 <= steps <= 8 && s == Exec(cfg, s0, Interleaved(others, r, outcome, steps))
      ensures EndedAs(cfg, s0, r, others, outcome, steps, jobId, worker,
                      old(hearts.activeExecutions), hearts.activeExecutions)
    {
      hide Step, Exec, LeavesAlone, Apply, Underway, Follows, Registrations;
      ghost var active := hearts.activeExecutions;
      s, steps := s0, 0;
      var i := 0;
      NotYetUnderway(cfg, s0, r, others, outcome, jobId, worker, Abs().value, active) by { StandsAt(s0, r); }
      while point.Some?
        invariant hearts.Valid() && Follows(s, r) && i == steps
        invariant Underway(cfg, s0, s, r, others, outcome, steps, jobId, worker, Abs(), active, hearts.activeExecutions)
        decreases if point.Some? then Remaining(point.value) else 0
      {
        ghost var reached, run, registered := s, Abs().value, hearts.activeExecutions;
        StandsAt(s, r);
        s := TakeTurn(cfg, s, r, others(i), outcome);
        OneMoreStatement(cfg, s0, reached, r, others, outcome, steps, jobId, worker, run, active, registered, attempt);
        i, steps := i + 1, steps + 1;
      }
      UnderwayMeans(cfg, s0, s, r, others, outcome, steps, jobId, worker, active, hearts.activeExecutions);
    }

    lemma StandsAt(s: System, r: RunId)
      requires Follows(s, r) && point.Some?
      ensures r in s.runs && s.runs[r] == Abs().value
    {
    }
  }

  // ---- how far a call has come

  ghost predicate EndedAs(
    cfg: Config, s0: System, r: RunId, others: nat -> seq<Action>, outcome: Outcome, steps: nat,
    jobId: JobId, worker: WorkerId, active: map<ExecutionId, WorkerId>, active': map<ExecutionId, WorkerId>)
    requires steps >= 1
  {
    var before := Exec(cfg, s0, Interleaved(others, r, outcome, steps - 1) + others(steps - 1));
    && r in before.runs
    && active' == RegisteredAtEnd(active, (jobId, before.runs[r].attempt), worker,
                                  before.runs[r].point, before.cell.job.status.Terminal())
  }

  ghost predicate Underway(
    cfg: Config, s0: System, s: System, r: RunId, others: nat -> seq<Action>, outcome: Outcome, steps: nat,
    jobId: JobId, worker: WorkerId, run: Option<Run>,
    active: map<ExecutionId, WorkerId>, active': map<ExecutionId, WorkerId>)
  {
    && s == Exec(cfg, s0, Interleaved(others, r, outcome, steps))
    && match run
       case Some(now) =>
         && steps + Remaining(now.point) <= 8
         && active' == if now.point.Leased() then active[(jobId, now.attempt) := worker] else active
       case None => 1 <= steps <= 8 && EndedAs(cfg, s0, r, others, outcome, steps, jobId, worker, active, active')
  }

  lemma NotYetUnderway(
    cfg: Config, s0: System, r: RunId, others: nat -> seq<Action>, outcome: Outcome,
    jobId: JobId, worker: WorkerId, run: Run, active: map<ExecutionId, WorkerId>)
    requires !run.point.Leased()
    ensures Underway(cfg, s0, s0, r, others, outcome, 0, jobId, worker, Some(run), active, active)
  {
    hide Apply;
    ExecNone(cfg, s0);
  }

  lemma UnderwayMeans(
    cfg: Config, s0: System, s: System, r: RunId, others: nat -> seq<Action>, outcome: Outcome, steps: nat,
    jobId: JobId, worker: WorkerId, active: map<ExecutionId, WorkerId>, active': map<ExecutionId, WorkerId>)
    requires Underway(cfg, s0, s, r, others, outcome, steps, jobId, worker, None, active, active')
    ensures 1 <= steps <= 8 && s == Exec(cfg, s0, Interleaved(others, r, outcome, steps))
    ensures EndedAs(cfg, s0, r, others, outcome, steps, jobId, worker, active, active')
  {
    hide Exec, EndedAs;
  }

  /** One more statement, after what the others do. */
  lemma OneMoreStatement(
    cfg: Config, s0: System, s: System, r: RunId, others: nat -> seq<Action>, outcome: Outcome, steps: nat,
    jobId: JobId, worker: WorkerId, run: Run,
    active: map<ExecutionId, WorkerId>, active': map<ExecutionId, WorkerId>, attempt: nat)
    requires Underway(cfg, s0, s, r, others, outcome, steps, jobId, worker, Some(run), active, active')
    requires r in s.runs && s.runs[r] == run && LeavesAlone(others(steps), r)
    requires
      var before := Exec(cfg, s, others(steps));
      var run' := Step(cfg, before.cell, run, outcome, before.now).run;
      attempt == (if run'.Some? then run'.value else run).attempt
    ensures
      var before := Exec(cfg, s, others(steps));
      var run' := Step(cfg, before.cell, run, outcome, before.now).run;
      && (run'.Some? ==> Remaining(run'.value.point) < Remaining(run.point))
      && Underway(cfg, s0, Exec(cfg, s, others(steps) + [Advance(r, outcome)]), r, others, outcome, steps + 1,
                  jobId, worker, run', active,
                  Registrations(active', (jobId, attempt), worker, run.point, run',
                                before.cell.job.status.Terminal()))
  {
    hide Exec, Step, Apply, LeavesAlone;
    var before := Exec(cfg, s, others(steps));
    OthersKeepRun(cfg, s, others(steps), r);
    ExecAppend(cfg, s0, Interleaved(others, r, outcome, steps), others(steps));
    ExecAppend(cfg, s0, Interleaved(others, r, outcome, steps), others(steps) + [Advance(r, outcome)]);
    FewerRemain(cfg, before.cell, run, outcome, before.now);
    var run' := Step(cfg, before.cell, run, outcome, before.now).run;
    if run'.None? {
      AtMostRemaining(run.point);
    }
  }

  lemma AtMostRemaining(point: Point)
    ensures Remaining(point) >= 1
  {
  }

  lemma ExecNone(cfg: Config, s: System)
    ensures Exec(cfg, s, []) == s
  {
  }

  lemma ExecOne(cfg: Config, s: System, a: Action)
    ensures Exec(cfg, s, [a]) == Apply(cfg, s, a)
  {
    hide Apply;
    assert [a][1..] == [];
    ExecNone(cfg, Apply(cfg, s, a));
  }

  /** Under lease discipline a call that acquired its lease always unregisters in the end. */
  lemma DisciplinedCallUnregisters(
    cfg: Config, s0: System, r: RunId, others: nat -> seq<Action>, outcome: Outcome, steps: nat,
    jobId: JobId, worker: WorkerId, active: map<ExecutionId, WorkerId>, active': map<ExecutionId, WorkerId>)
    requires L.InvB(s0) && steps >= 1 && AllDisciplined(cfg, s0, Interleaved(others, r, outcome, steps))
    requires EndedAs(cfg, s0, r, others, outcome, steps, jobId, worker, active, active')
    ensures
      var run := Exec(cfg, s0, Interleaved(others, r, outcome, steps - 1) + others(steps - 1)).runs[r];
      active' == if run.point.Leased() then active - {(jobId, run.attempt)} else active
  {
    hide L.InvB, Exec, Apply, Disciplined;
    var acts := Interleaved(others, r, outcome, steps - 1) + others(steps - 1);
    var before := Exec(cfg, s0, acts);
    assert Interleaved(others, r, outcome, steps) == acts + [Advance(r, outcome)];
    ExecAppend(cfg, s0, acts, [Advance(r, outcome)]);
    L.ReachableInvB(cfg, s0, acts);
    if before.runs[r].point.ClosingUnhandled? {
      FirstIsDisciplined(cfg, before, r, outcome);
      HolderSeesUnfinished(before, r) by { SameDiscipline(before, r, outcome); }
    }
  }

  lemma FirstIsDisciplined(cfg: Config, s: System, r: RunId, outcome: Outcome)
    requires AllDisciplined(cfg, s, [Advance(r, outcome)])
    ensures Disciplined(s, Advance(r, outcome))
  {
    hide Apply;
  }

  lemma SameDiscipline(s: System, r: RunId, outcome: Outcome)
    requires Disciplined(s, Advance(r, outcome))
    ensures Disciplined(s, Advance(r, Succeeded))
  {
  }

  lemma HolderSeesUnfinished(s: System, r: RunId)
    requires L.InvB(s) && r in s.runs && s.runs[r].point.ClosingUnhandled? && Disciplined(s, Advance(r, Succeeded))
    ensures !s.cell.job.status.Terminal()
  {
    L.LegalWriteFindsNewest(s, r);
    L.RowFacts(s);
  }

  /** A queue entry is delivered and its call carried through; a job already over ends it at once. */
  method RunDelivered(
    cfg: Config, jobId: JobId, t: Target, worker: WorkerId, rows: JobRows, hearts: Heartbeats,
    s0: System, r: RunId, others: nat -> seq<Action>, outcome: Outcome)
    returns (s: System, ghost steps: nat)
    requires hearts.Valid() && rows.View() == s0.cell
    requires r !in s0.runs && S.RunnableEntry(s0.cell.queue, t)
    requires forall i :: LeavesAlone(others(i), r)
    modifies rows, hearts
    ensures hearts.Valid() && rows.View() == s.cell && r !in s.runs && steps <= 8
    ensures s == Exec(cfg, s0, [Deliver(r, t, worker)] + Interleaved(others, r, outcome, steps))
    ensures steps == 0 <==> t.JobTarget? && s0.cell.job.status.Terminal()
    ensures
      if steps == 0 then hearts.activeExecutions == old(hearts.activeExecutions)
      else EndedAs(cfg, Apply(cfg, s0, Deliver(r, t, worker)), r, others, outcome, steps, jobId, worker,
                   old(hearts.activeExecutions), hearts.activeExecutions)
  {
    hide Exec, LeavesAlone, Step, S.RunnableEntry, EndedAs;
    var call := new ExecutionRun(jobId, worker, rows, hearts, t);
    s := Apply(cfg, s0, Deliver(r, t, worker));
    steps := 0;
    ExecOne(cfg, s0, Deliver(r, t, worker));
    ExecNone(cfg, s);
    if call.point.Some? {
      s, steps := call.Execute(cfg, s, r, others, outcome);
    }
    ExecAppend(cfg, s0, [Deliver(r, t, worker)], Interleaved(others, r, outcome, steps));
  }
}
