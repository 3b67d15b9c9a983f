/**
 * Tier B, over whole runs: each job goes through a one-line life cycle, and only finitely often
 * changes its execution rows.
 */
module Lifecycle {
  import opened Rows
  import opened Statements
  import opened Runs
  import opened Protocol
  import opened Effects
  import opened EveryInterleaving
  import opened LeaseDiscipline

  // ---- the simple machine

  datatype Life =
    | LifeWaiting
    | LifeCancelled
    | LifeAttempt(attempt: nat)
    | LifeCompleted(attempt: nat)
    | LifeFailed(attempt: nat)

  ghost predicate LifeStep(max: nat, a: Life, b: Life) {
    || (a.LifeWaiting? && b.LifeCancelled?)
    || (a.LifeWaiting? && b == LifeAttempt(1))
    || (a.LifeAttempt? && a.attempt < max && b == LifeAttempt(a.attempt + 1))
    || (a.LifeAttempt? && (b == LifeCompleted(a.attempt) || b == LifeFailed(a.attempt)))
  }

  function LifeOf(c: Cell): Life {
    var n := Newest(c);
    if n == 0 then (if c.job.status.JobCancelled? then LifeCancelled else LifeWaiting)
    else if c.job.status.JobCompleted? then LifeCompleted(n)
    else if c.job.status.JobFailed? then LifeFailed(n)
    else LifeAttempt(n)
  }

  /** What a life says of the rows. */
  lemma LifeMeans(c: Cell)
    requires RowsAgree(c) && (Unclaimed(c) ==> c.executions == map[])
    ensures
      var life, n := LifeOf(c), |c.executions|;
      && (life.LifeWaiting? <==> c.executions == map[] && !c.job.status.JobCancelled?)
      && (life.LifeCancelled? <==> c.job.status.JobCancelled?)
      && (life.LifeCompleted? <==> c.job.status.JobCompleted?)
      && (life.LifeFailed? <==> c.job.status.JobFailed?)
      && (life.LifeAttempt? <==> c.executions != map[] && !c.job.status.Terminal())
      && (!life.LifeWaiting? && !life.LifeCancelled? ==> life.attempt == n)
  {
    assert |c.executions| == 0 ==> c.executions == map[];
  }

  // ---- every concrete step is at most one step of it

  lemma MovesRefine(c: Cell, c': Cell, k: nat)
    requires RowsAgree(c) && RowsAgree(c') && Moves(c, c', k)
    requires Unclaimed(c) ==> c.executions == map[]
    requires Unclaimed(c') ==> c'.executions == map[]
    ensures LifeOf(c') == LifeOf(c) || LifeStep(c.job.maxAttempts, LifeOf(c), LifeOf(c'))
  {
    hide RecordMoves, LeaseMoves, OutboxMoves, RecordFollowsJob, RunningIsLeased;
  }

  /** Refinement: every legal action is a stutter or one step of the simple machine. */
  lemma ApplyRefines(cfg: Config, s: System, a: Action)
    requires InvB(s) && Disciplined(s, a)
    ensures
      var life, life' := LifeOf(s.cell), LifeOf(Apply(cfg, s, a).cell);
      life' == life || LifeStep(s.cell.job.maxAttempts, life, life')
  {
    hide InvB, Apply, Moves, RowsAgree, LifeOf, LifeStep, Disciplined;
    ApplyKeepsInvB(cfg, s, a);
    SnapshotFacts(s);
    ApplyMoves(cfg, s, a);
    RowFacts(s);
    RowFacts(Apply(cfg, s, a));
    MovesRefine(s.cell, Apply(cfg, s, a).cell, Touched(s, a));
  }

  /** The distinct lives a run of actions goes through, the starting one first. */
  function Lives(cfg: Config, s: System, acts: seq<Action>): (lives: seq<Life>)
    ensures |lives| > 0 && lives[0] == LifeOf(s.cell)
    decreases |acts|
  {
    if acts == [] then [LifeOf(s.cell)]
    else
      var rest := Lives(cfg, Apply(cfg, s, acts[0]), acts[1..]);
      if rest[0] == LifeOf(s.cell) then rest else [LifeOf(s.cell)] + rest
  }

  /** Whole runs: the lives are a run of the simple machine, ending at the final state's life. */
  lemma {:induction false} RunsRefine(cfg: Config, s: System, acts: seq<Action>)
    requires InvB(s) && AllDisciplined(cfg, s, acts)
    ensures
      var lives := Lives(cfg, s, acts);
      && lives[|lives| - 1] == LifeOf(Exec(cfg, s, acts).cell)
      && (forall i :: 0 <= i < |lives| - 1 ==> LifeStep(s.cell.job.maxAttempts, lives[i], lives[i + 1]))
    decreases |acts|
  {
    hide InvB, Apply, Disciplined, LifeOf, LifeStep;
    if acts != [] {
      var s' := Apply(cfg, s, acts[0]);
      ApplyRefines(cfg, s, acts[0]);
      ApplyKeepsInvB(cfg, s, acts[0]);
      RunsRefine(cfg, s', acts[1..]);
      assert s'.cell.job.maxAttempts == s.cell.job.maxAttempts by {
        hide AttemptMoves, RecordMoves, LeaseMoves, OutboxMoves;
        SnapshotFacts(s);
        ApplyMoves(cfg, s, acts[0]);
      }
    }
  }

  /** The life of a new job, whatever is delivered, crashes, is aborted or recovered: a run of the simple
      machine from Waiting. */
  lemma NewJobRefines(cfg: Config, job: Job, key: string, now: Time, acts: seq<Action>)
    requires FreshJob(job) && AllDisciplined(cfg, Created(job, key, now), acts)
    ensures
      var lives := Lives(cfg, Created(job, key, now), acts);
      && lives[0] == LifeWaiting
      && lives[|lives| - 1] == LifeOf(Exec(cfg, Created(job, key, now), acts).cell)
      && (lives[|lives| - 1].LifeCompleted? <==>
            Exec(cfg, Created(job, key, now), acts).cell.job.status.JobCompleted?)
      && (lives[|lives| - 1].LifeFailed? <==>
            Exec(cfg, Created(job, key, now), acts).cell.job.status.JobFailed?)
      && (lives[|lives| - 1].LifeCancelled? <==>
            Exec(cfg, Created(job, key, now), acts).cell.job.status.JobCancelled?)
      && (forall i :: 0 <= i < |lives| - 1 ==> LifeStep(job.maxAttempts, lives[i], lives[i + 1]))
  {
    hide InvB, Apply, Disciplined, LifeStep;
    CreatedInvB(job, key, now);
    RunsRefine(cfg, Created(job, key, now), acts);
    ReachableInvB(cfg, Created(job, key, now), acts);
    RowFacts(Exec(cfg, Created(job, key, now), acts));
    LifeMeans(Exec(cfg, Created(job, key, now), acts).cell);
  }

  // ---- a measure on the execution rows

  /** The pair (max_attempts - n, rank of the newest attempt), read lexicographically: ranks are below 4. */
  function Budget(c: Cell): int {
    var n := Newest(c);
    4 * (c.job.maxAttempts - n) + (if n in c.executions then c.executions[n].status.Rank() else 0)
  }

  /** Terminal rows stay; a change of the rows uses up budget. */
  ghost predicate Spends(c: Cell, c': Cell) {
    && (forall k :: k in c.executions && c.executions[k].status.Terminal() ==>
          k in c'.executions && c'.executions[k] == c.executions[k])
    && c'.job.maxAttempts == c.job.maxAttempts
    && (c'.executions == c.executions || Budget(c') < Budget(c))
  }

  lemma OpenSpends(c: Cell, now: Time)
    requires RowsAgree(c)
    ensures Spends(c, GetOrCreateInitialExecution(c, now))
  {
    if 1 !in c.executions {
      assert c.executions == map[] by {
        assert |c.executions| == 0;
      }
    }
  }

  lemma StartSpends(c: Cell, k: nat, now: Time)
    requires RowsAgree(c) && k in c.executions && c.executions[k].status.Queued?
    ensures Spends(c, StartExecution(c, k, now))
  {
  }

  lemma SuccessSpends(c: Cell, k: nat, now: Time)
    requires RowsAgree(c) && k in c.executions && c.executions[k].status.Running?
    ensures Spends(c, SuccessTransaction(c, k, now).GetOr(c))
  {
  }

  lemma RetrySpends(c: Cell, k: nat, timedOut: bool, delay: nat, now: Time)
    requires RowsAgree(c) && k in c.executions && c.executions[k].status.Running?
    ensures Spends(c, RetryTransaction(c, k, timedOut, delay, now).GetOr(c))
  {
  }

  lemma FinalFailureSpends(c: Cell, k: nat, timedOut: bool, now: Time)
    requires RowsAgree(c) && k in c.executions && c.executions[k].status.Running?
    ensures Spends(c, FinalFailureTransaction(c, k, timedOut, now))
  {
  }

  lemma CrashLastSpends(c: Cell, k: nat, now: Time)
    requires RowsAgree(c) && ExpiredLease(c, k, now)
    ensures Spends(c, CrashLastAttempt(c, k, now))
  {
  }

  lemma CrashAndReplaceSpends(c: Cell, k: nat, delay: nat, now: Time)
    requires RowsAgree(c) && ExpiredLease(c, k, now)
    ensures Spends(c, CrashAndReplace(c, k, delay, now).GetOr(c))
  {
  }

  lemma ClaimDueSpends(c: Cell, k: nat, now: Time)
    requires RowsAgree(c)
    ensures Spends(c, ClaimDueExecution(c, k, now).GetOr(c))
  {
  }

  lemma NothingSpent(c: Cell, c': Cell)
    requires c'.executions == c.executions && c'.job.maxAttempts == c.job.maxAttempts
    ensures Spends(c, c')
  {
  }

  lemma RunStatementsSpendNothing(c: Cell, k: nat, worker: WorkerId, duration: nat, now: Time)
    ensures Spends(c, AcquireExecutionLease(c, k, worker, duration, now).GetOr(c))
    ensures Spends(c, ClaimIdempotency(c, now))
    ensures Spends(c, StartJob(c, now)) && Spends(c, BeginHandler(StartJob(c, now), k))
  {
    hide Spends;
    NothingSpent(c, AcquireExecutionLease(c, k, worker, duration, now).GetOr(c));
    NothingSpent(c, ClaimIdempotency(c, now));
    NothingSpent(c, StartJob(c, now));
    NothingSpent(c, BeginHandler(StartJob(c, now), k));
  }

  lemma OtherStatementsSpendNothing(c: Cell, k: nat, worker: WorkerId, duration: nat, timeout: int, now: Time)
    ensures Spends(c, RenewLease(c, k, worker, duration, now))
    ensures Spends(c, ResetStaleProcessingRecord(c, timeout, now))
    ensures Spends(c, ClaimDueJob(c, now).GetOr(c))
    ensures Spends(c, CancelJobStatus(c, now))
  {
    hide Spends;
    NothingSpent(c, RenewLease(c, k, worker, duration, now));
    NothingSpent(c, ResetStaleProcessingRecord(c, timeout, now));
    NothingSpent(c, ClaimDueJob(c, now).GetOr(c));
    NothingSpent(c, CancelJobStatus(c, now));
  }

  lemma RecoverSpends(c: Cell, k: nat, delay: nat, now: Time)
    requires RowsAgree(c)
    ensures Spends(c, RecoverExpiredExecution(c, k, delay, now).cell)
  {
    hide AlreadyCompletedTransaction, CrashLastAttempt, CrashAndReplace, Budget;
    match RecoverExpiredExecution(c, k, delay, now).exit
    case AttemptsExhausted => CrashLastSpends(c, k, now);
    case Replaced => CrashAndReplaceSpends(c, k, delay, now);
    case _ =>
  }

  lemma FinishSpends(c: Cell, k: nat, outcome: Outcome, now: Time)
    requires RowsAgree(c) && k in c.executions && c.executions[k].status.Running?
    ensures Spends(c, Finish(c, k, c.job.maxAttempts, outcome, now))
  {
    hide RowsAgree, Spends, SuccessTransaction, RetryTransaction, FinalFailureTransaction;
    if outcome.Succeeded? {
      SuccessSpends(c, k, now);
    } else if k < c.job.maxAttempts {
      RetrySpends(c, k, outcome.Expired?, outcome.delay, now);
    } else {
      FinalFailureSpends(c, k, outcome.Expired?, now);
    }
  }

  lemma AdvanceSpends(cfg: Config, s: System, r: RunId, outcome: Outcome)
    requires InvB(s) && r in s.runs && Disciplined(s, Advance(r, outcome))
    ensures Spends(s.cell, Step(cfg, s.cell, s.runs[r], outcome, s.now).cell)
  {
    hide InvB, RowsAgree, Spends, AlreadyCompletedTransaction, FinalFailureTransaction, Finish, StartJob,
         BeginHandler, GetOrCreateInitialExecution, FailedExecution, ClaimIdempotency, StartExecution,
         AcquireExecutionLease;
    var c, run := s.cell, s.runs[r];
    var k := run.attempt;
    RowFacts(s);
    RunFacts(s, r);
    if run.point.LeasedWrite() {
      LegalWriteFindsNewest(s, r);
    }
    if run.point.Creating? {
      OpenSpends(c, s.now);
    } else if run.point.Starting? {
      StartSpends(c, k, s.now);
    } else if run.point.ClosingUnhandled? {
      FinalFailureSpends(c, k, false, s.now);
    } else if run.point.Handling? {
      FinishSpends(c, k, outcome, s.now);
    } else {
      RunStatementsSpendNothing(c, k, run.worker, cfg.leaseDuration, s.now);
      NothingSpent(c, c);
    }
  }

  /** Every legal action keeps terminal rows, and changes rows only by using up budget. */
  lemma ApplySpends(cfg: Config, s: System, a: Action)
    requires InvB(s) && Disciplined(s, a)
    ensures Spends(s.cell, Apply(cfg, s, a).cell)
  {
    hide InvB, RowsAgree, Spends, Disciplined, Step, ClaimDueJob, ClaimDueExecution, CancelJobStatus,
         RenewLease, ResetStaleProcessingRecord, RecoverExpiredExecution;
    var c := s.cell;
    RowFacts(s);
    if OnlyOutboxOrQueue(a) {
      OutboxAndQueueAlone(cfg, s, a);
      NothingSpent(c, Apply(cfg, s, a).cell);
    } else if a.Advance? {
      NothingSpent(c, c);
      if a.id in s.runs {
        AdvanceSpends(cfg, s, a.id, a.outcome);
      }
    } else if a.Recover? {
      RecoverSpends(c, a.attempt, a.delay, s.now);
    } else if a.ClaimAttempt? {
      ClaimDueSpends(c, a.attempt, s.now);
    } else {
      var k, worker := if a.Renew? then a.attempt else 0, if a.Renew? then a.worker else "";
      OtherStatementsSpendNothing(c, k, worker, cfg.leaseDuration, cfg.processingTimeout, s.now);
    }
  }

  /** How many actions of a run change an execution row. */
  function RowChanges(cfg: Config, s: System, acts: seq<Action>): nat
    decreases |acts|
  {
    if acts == [] then 0
    else
      (if Apply(cfg, s, acts[0]).cell.executions == s.cell.executions then 0 else 1)
      + RowChanges(cfg, Apply(cfg, s, acts[0]), acts[1..])
  }

  /** After i actions. */
  function RowsAfter(cfg: Config, s: System, acts: seq<Action>, i: nat): map<nat, Execution>
    requires i <= |acts|
  {
    Exec(cfg, s, acts[..i]).cell.executions
  }

  predicate ChangesAt(cfg: Config, s: System, acts: seq<Action>, i: nat)
    requires i < |acts|
  {
    RowsAfter(cfg, s, acts, i) != RowsAfter(cfg, s, acts, i + 1)
  }

  function Changing(cfg: Config, s: System, acts: seq<Action>): set<nat> {
    set i: nat | i < |acts| && ChangesAt(cfg, s, acts, i)
  }

  lemma {:induction false} RowChangesSnoc(cfg: Config, s: System, acts: seq<Action>, a: Action)
    ensures RowChanges(cfg, s, acts + [a]) == RowChanges(cfg, s, acts)
      + if Apply(cfg, Exec(cfg, s, acts), a).cell.executions == Exec(cfg, s, acts).cell.executions then 0 else 1
    decreases |acts|
  {
    hide Apply;
    if acts == [] {
      assert ([] + [a])[1..] == [] && ([] + [a])[0] == a;
      assert RowChanges(cfg, Apply(cfg, s, a), []) == 0;
    } else {
      assert (acts + [a])[1..] == acts[1..] + [a];
      RowChangesSnoc(cfg, Apply(cfg, s, acts[0]), acts[1..], a);
    }
  }

  lemma ExecSnoc(cfg: Config, s: System, acts: seq<Action>, a: Action)
    ensures Exec(cfg, s, acts + [a]) == Apply(cfg, Exec(cfg, s, acts), a)
  {
    hide Apply;
    ExecAppend(cfg, s, acts, [a]);
    var s' := Exec(cfg, s, acts);
    assert [a][1..] == [];
    assert Exec(cfg, Apply(cfg, s', a), []) == Apply(cfg, s', a);
  }

  lemma ChangingSnoc(cfg: Config, s: System, acts: seq<Action>, a: Action)
    ensures
      var changes := Apply(cfg, Exec(cfg, s, acts), a).cell.executions != Exec(cfg, s, acts).cell.executions;
      Changing(cfg, s, acts + [a]) == Changing(cfg, s, acts) + if changes then {|acts|} else {}
  {
    hide Apply, Exec;
    forall i: nat | i < |acts|
      ensures ChangesAt(cfg, s, acts + [a], i) == ChangesAt(cfg, s, acts, i)
    {
      assert (acts + [a])[..i] == acts[..i] && (acts + [a])[..i + 1] == acts[..i + 1];
    }
    assert (acts + [a])[..|acts|] == acts;
    ExecSnoc(cfg, s, acts, a);
    assert (acts + [a])[..|acts| + 1] == acts + [a] && acts[..|acts|] == acts;
  }

  /** The count is the number of places in the run where the execution rows before and after differ. */
  lemma {:induction false} RowChangesCount(cfg: Config, s: System, acts: seq<Action>)
    ensures RowChanges(cfg, s, acts) == |Changing(cfg, s, acts)|
    decreases |acts|
  {
    hide Apply, Exec, RowsAfter, ChangesAt;
    if acts == [] {
      assert Changing(cfg, s, acts) == {};
    } else {
      var front, last := acts[..|acts| - 1], acts[|acts| - 1];
      assert acts == front + [last];
      RowChangesCount(cfg, s, front);
      RowChangesSnoc(cfg, s, front, last);
      ChangingSnoc(cfg, s, front, last);
      assert |front| !in Changing(cfg, s, front);
    }
  }

  lemma BudgetIsNat(c: Cell)
    requires RowsAgree(c)
    ensures 0 <= Budget(c) <= 4 * c.job.maxAttempts
  {
  }

  /** Whole runs: row changes are paid from the budget, terminal rows stay for ever. */
  lemma {:induction false} RunsSpend(cfg: Config, s: System, acts: seq<Action>)
    requires InvB(s) && AllDisciplined(cfg, s, acts)
    ensures RowChanges(cfg, s, acts) + Budget(Exec(cfg, s, acts).cell) <= Budget(s.cell)
    ensures forall k :: k in s.cell.executions && s.cell.executions[k].status.Terminal() ==>
      && k in Exec(cfg, s, acts).cell.executions
      && Exec(cfg, s, acts).cell.executions[k] == s.cell.executions[k]
    decreases |acts|
  {
    hide InvB, Apply, Disciplined;
    if acts != [] {
      var s' := Apply(cfg, s, acts[0]);
      ApplySpends(cfg, s, acts[0]);
      ApplyKeepsInvB(cfg, s, acts[0]);
      RunsSpend(cfg, s', acts[1..]);
    }
  }

  /** A job sees at most 4 * max_attempts changes of its execution rows, whatever is delivered or crashes. */
  lemma RowChangesBounded(cfg: Config, job: Job, key: string, now: Time, acts: seq<Action>)
    requires FreshJob(job) && AllDisciplined(cfg, Created(job, key, now), acts)
    ensures RowChanges(cfg, Created(job, key, now), acts) <= 4 * job.maxAttempts
    ensures |Changing(cfg, Created(job, key, now), acts)| <= 4 * job.maxAttempts
  {
    RowChangesCount(cfg, Created(job, key, now), acts);
    hide InvB, Apply, Disciplined;
    var s := Created(job, key, now);
    CreatedInvB(job, key, now);
    RunsSpend(cfg, s, acts);
    ReachableInvB(cfg, s, acts);
    RowFacts(Exec(cfg, s, acts));
    BudgetIsNat(Exec(cfg, s, acts).cell);
  }
}
