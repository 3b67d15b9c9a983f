/**
 * Tier B with T2: from every state a legal run reaches, the protocol's own steps can still bring
 * the job to a terminal status. The runs that do it are built step by step.
 */
module NeverStuck {
  import opened Rows
  import opened Statements
  import opened Runs
  import opened Protocol
  import opened EveryInterleaving
  import opened LeaseDiscipline
  import opened Timeliness
  import Backoff

  // ---- legal paths

  ghost predicate LegalPath(cfg: Config, s: System, acts: seq<Action>, s': System) {
    && AllDisciplined(cfg, s, acts) && AllTimely(cfg, s, acts) && AllDrawn(cfg, s, acts)
    && Exec(cfg, s, acts) == s'
  }

  lemma PathAppend(cfg: Config, s: System, xs: seq<Action>, s': System, ys: seq<Action>, s'': System)
    requires LegalPath(cfg, s, xs, s') && LegalPath(cfg, s', ys, s'')
    ensures LegalPath(cfg, s, xs + ys, s'')
  {
    ExecAppend(cfg, s, xs, ys);
  }

  lemma PathOne(cfg: Config, s: System, a: Action)
    requires Disciplined(s, a) && Timely(cfg, s, a) && Drawn(s, a)
    ensures LegalPath(cfg, s, [a], Apply(cfg, s, a))
  {
    hide Apply, Disciplined, Timely, Drawn;
    var s' := Apply(cfg, s, a);
    assert [a][1..] == [];
    assert Exec(cfg, s', []) == s' && AllDisciplined(cfg, s', []) && AllTimely(cfg, s', []) && AllDrawn(cfg, s', []);
  }

  /** Extend a path by one action. */
  lemma PathSnoc(cfg: Config, s: System, xs: seq<Action>, s': System, a: Action)
    requires LegalPath(cfg, s, xs, s') && Disciplined(s', a) && Timely(cfg, s', a) && Drawn(s', a)
    ensures LegalPath(cfg, s, xs + [a], Apply(cfg, s', a))
  {
    hide LegalPath, Apply, Disciplined, Timely, Drawn;
    PathOne(cfg, s', a);
    PathAppend(cfg, s, xs, s', [a], Apply(cfg, s', a));
  }

  lemma PathKeepsInvT(cfg: Config, s: System, acts: seq<Action>, s': System)
    requires InvT(cfg, s) && LegalPath(cfg, s, acts, s')
    ensures InvT(cfg, s')
  {
    ReachableInvT(cfg, s, acts);
  }

  // ---- an unused run id

  lemma {:induction false} Above(ids: set<nat>) returns (top: nat)
    ensures forall id :: id in ids ==> id < top
  {
    if ids == {} {
      top := 0;
    } else {
      var id :| id in ids;
      assert ids == {id} + (ids - {id});
      var rest := Above(ids - {id});
      top := if id < rest then rest else id + 1;
    }
  }

  function Distance(a: int, b: int): nat { if a < b then b - a else a - b }

  // ---- a run that nobody disturbs

  predicate At(s: System, r: RunId, point: Point, k: nat) {
    && r in s.runs && s.runs[r].point == point && s.runs[r].attempt == k
    && k in s.cell.executions
  }

  const GO: Outcome := Succeeded

  /** The runs other than r are as they were. */
  ghost predicate OthersSame(s: System, s': System, r: RunId) {
    s'.runs - {r} == s.runs - {r}
  }

  /** The runs there were are as they were. */
  ghost predicate KeepsRuns(s: System, s': System) {
    forall q :: q in s.runs ==> q in s'.runs && s'.runs[q] == s.runs[q]
  }

  lemma OnlyThatRunMoves(cfg: Config, s: System, r: RunId)
    ensures OthersSame(s, Apply(cfg, s, Advance(r, GO)), r)
  {
    hide Step;
  }

  lemma DeliverAttempt(cfg: Config, s: System, k: nat, r: RunId)
    requires r !in s.runs && RunnableEntry(s.cell.queue, AttemptTarget(k)) && k in s.cell.executions
    ensures
      var s' := Apply(cfg, s, Deliver(r, AttemptTarget(k), "worker"));
      At(s', r, Reading, k) && s'.cell == s.cell && s'.now == s.now && OthersSame(s, s', r)
  {
  }

  lemma FromReading(cfg: Config, s: System, k: nat, r: RunId)
    requires At(s, r, Reading, k) && s.cell.executions[k].status.Queued?
    ensures
      var s' := Apply(cfg, s, Advance(r, GO));
      At(s', r, Leasing, k) && s'.cell == s.cell && s'.now == s.now
  {
    hide Finish, FinalFailureTransaction, AlreadyCompletedTransaction;
  }

  lemma FromLeasing(cfg: Config, s: System, k: nat, r: RunId)
    requires At(s, r, Leasing, k) && s.cell.executions[k].status.Queued? && cfg.leaseDuration > 0
    requires k in s.cell.leases ==> s.cell.leases[k].expiresAt <= s.now
    ensures
      var s' := Apply(cfg, s, Advance(r, GO));
      At(s', r, ReadingJob, k) && Holds(s', r) && s'.cell == s.cell.(leases := s'.cell.leases) && s'.now == s.now
  {
    hide Finish, FinalFailureTransaction, AlreadyCompletedTransaction;
  }

  lemma FromReadingJob(cfg: Config, s: System, k: nat, r: RunId)
    requires At(s, r, ReadingJob, k) && Holds(s, r) && !s.cell.job.status.Terminal()
    ensures
      var s' := Apply(cfg, s, Advance(r, GO));
      At(s', r, Claiming, k) && Holds(s', r) && s'.cell == s.cell && s'.now == s.now
  {
    hide Finish, FinalFailureTransaction, AlreadyCompletedTransaction;
  }

  lemma FromClaiming(cfg: Config, s: System, k: nat, r: RunId)
    requires At(s, r, Claiming, k) && Holds(s, r) && s.cell.record.status.Pending?
    ensures
      var s' := Apply(cfg, s, Advance(r, GO));
      && At(s', r, Starting, k) && Holds(s', r) && s'.runs[r].claimedAt == s'.now == s.now
      && s'.cell.record.status.Processing? && s'.cell.job == s.cell.job
  {
    hide Finish, FinalFailureTransaction, AlreadyCompletedTransaction;
  }

  lemma FromStarting(cfg: Config, s: System, k: nat, r: RunId)
    requires At(s, r, Starting, k) && Holds(s, r)
    ensures
      var s' := Apply(cfg, s, Advance(r, GO));
      At(s', r, StartingJob, k) && Holds(s', r) && s'.cell.record == s.cell.record && s'.cell.job == s.cell.job
  {
    hide Finish, FinalFailureTransaction, AlreadyCompletedTransaction;
  }

  lemma FromStartingJob(cfg: Config, s: System, k: nat, r: RunId)
    requires At(s, r, StartingJob, k) && Holds(s, r)
    ensures
      var s' := Apply(cfg, s, Advance(r, GO));
      && At(s', r, if s.cell.job.hasHandler then Handling else ClosingUnhandled, k) && Holds(s', r)
      && s'.cell.record == s.cell.record
      && (s.cell.job.status.Terminal() <==> s'.cell.job.status.Terminal())
  {
    hide Finish, FinalFailureTransaction, AlreadyCompletedTransaction;
  }

  /** Deliver the entry of a QUEUED attempt whose lease is free; go up to the claim. */
  lemma DriveToClaim(cfg: Config, s: System, k: nat, r: RunId) returns (acts: seq<Action>, s': System)
    requires r !in s.runs && RunnableEntry(s.cell.queue, AttemptTarget(k))
    requires k in s.cell.executions && s.cell.executions[k].status.Queued?
    requires k in s.cell.leases ==> s.cell.leases[k].expiresAt <= s.now
    requires !s.cell.job.status.Terminal() && cfg.leaseDuration > 0
    ensures LegalPath(cfg, s, acts, s') && OthersSame(s, s', r)
    ensures At(s', r, Claiming, k) && Holds(s', r)
    ensures s'.cell == s.cell.(leases := s'.cell.leases)
  {
    hide LegalPath, Apply, Holds;
    var d := Deliver(r, AttemptTarget(k), "worker");
    DeliverAttempt(cfg, s, k, r);
    PathOne(cfg, s, d);
    acts, s' := [d], Apply(cfg, s, d);
    FromReading(cfg, s', k, r);
    OnlyThatRunMoves(cfg, s', r);
    PathSnoc(cfg, s, acts, s', Advance(r, GO));
    acts, s' := acts + [Advance(r, GO)], Apply(cfg, s', Advance(r, GO));
    FromLeasing(cfg, s', k, r);
    OnlyThatRunMoves(cfg, s', r);
    PathSnoc(cfg, s, acts, s', Advance(r, GO));
    acts, s' := acts + [Advance(r, GO)], Apply(cfg, s', Advance(r, GO));
    FromReadingJob(cfg, s', k, r);
    OnlyThatRunMoves(cfg, s', r);
    PathSnoc(cfg, s, acts, s', Advance(r, GO));
    acts, s' := acts + [Advance(r, GO)], Apply(cfg, s', Advance(r, GO));
  }

  /** Claim, start the execution, start the job. */
  lemma DriveToHandler(cfg: Config, s: System, k: nat, r: RunId) returns (acts: seq<Action>, s': System)
    requires At(s, r, Claiming, k) && Holds(s, r) && s.cell.record.status.Pending?
    requires cfg.processingTimeout >= 0
    ensures LegalPath(cfg, s, acts, s') && OthersSame(s, s', r)
    ensures s.cell.job.status.Terminal() <==> s'.cell.job.status.Terminal()
    ensures At(s', r, if s.cell.job.hasHandler then Handling else ClosingUnhandled, k) && Holds(s', r)
    ensures s'.cell.record.status.Processing?
  {
    hide LegalPath, Apply, Holds;
    FromClaiming(cfg, s, k, r);
    OnlyThatRunMoves(cfg, s, r);
    PathOne(cfg, s, Advance(r, GO));
    acts, s' := [Advance(r, GO)], Apply(cfg, s, Advance(r, GO));
    FromStarting(cfg, s', k, r);
    OnlyThatRunMoves(cfg, s', r);
    PathSnoc(cfg, s, acts, s', Advance(r, GO));
    acts, s' := acts + [Advance(r, GO)], Apply(cfg, s', Advance(r, GO));
    FromStartingJob(cfg, s', k, r);
    OnlyThatRunMoves(cfg, s', r);
    PathSnoc(cfg, s, acts, s', Advance(r, GO));
    acts, s' := acts + [Advance(r, GO)], Apply(cfg, s', Advance(r, GO));
  }

  /** The handler succeeds, or there is none: either way the job is over. */
  lemma DriveToEnd(cfg: Config, s: System, k: nat, r: RunId) returns (acts: seq<Action>, s': System)
    requires At(s, r, Handling, k) || At(s, r, ClosingUnhandled, k)
    requires Holds(s, r) && s.cell.record.status.Processing? && !s.cell.job.status.Terminal()
    ensures LegalPath(cfg, s, acts, s') && OthersSame(s, s', r)
    ensures if s.runs[r].point.Handling? then s'.cell.job.status.JobCompleted? else s'.cell.job.status.JobFailed?
  {
    hide LegalPath;
    OnlyThatRunMoves(cfg, s, r);
    PathOne(cfg, s, Advance(r, GO));
    acts, s' := [Advance(r, GO)], Apply(cfg, s, Advance(r, GO));
  }

  // ---- getting there

  /** A QUEUED attempt with a free lease, a PENDING record and a runnable entry. */
  lemma FinishReadyAttempt(cfg: Config, s: System, k: nat) returns (acts: seq<Action>, s': System)
    requires InvT(cfg, s) && cfg.leaseDuration > 0 && cfg.processingTimeout >= 0
    requires Ready(s, k)
    ensures LegalPath(cfg, s, acts, s') && KeepsRuns(s, s')
    ensures if s.cell.job.hasHandler then s'.cell.job.status.JobCompleted? else s'.cell.job.status.JobFailed?
  {
    hide InvT, LegalPath, Holds;
    var r := Above(s.runs.Keys);
    var acts1, s1 := DriveToClaim(cfg, s, k, r);
    var acts2, s2 := DriveToHandler(cfg, s1, k, r);
    var acts3, s3 := DriveToEnd(cfg, s2, k, r);
    PathAppend(cfg, s, acts1, s1, acts2, s2);
    PathAppend(cfg, s, acts1 + acts2, s2, acts3, s3);
    acts, s' := acts1 + acts2 + acts3, s3;
    forall q | q in s.runs
      ensures q in s'.runs && s'.runs[q] == s.runs[q]
    {
      assert q in s.runs - {r};
      assert q in s'.runs - {r};
    }
  }

  lemma Wait(cfg: Config, s: System, ms: nat)
    ensures LegalPath(cfg, s, [Tick(ms)], s.(now := s.now + ms))
  {
    hide LegalPath;
    PathOne(cfg, s, Tick(ms));
  }

  /** A reconciliation pass that selects t leaves a runnable entry for it. */
  lemma Reconcile(cfg: Config, s: System, t: Target) returns (acts: seq<Action>, s': System)
    requires Suspect(s.cell, t, cfg.minAge, s.now)
    ensures LegalPath(cfg, s, acts, s') && RunnableEntry(s'.cell.queue, t)
    ensures s'.cell == s.cell.(queue := s'.cell.queue) && s'.now == s.now && s'.runs == s.runs
  {
    hide LegalPath;
    PathOne(cfg, s, SelectSuspect(t));
    acts, s' := [SelectSuspect(t)], Apply(cfg, s, SelectSuspect(t));
    assert t in s'.suspects;
    PathSnoc(cfg, s, acts, s', RemoveTerminalEntry(t));
    acts, s' := acts + [RemoveTerminalEntry(t)], Apply(cfg, s', RemoveTerminalEntry(t));
    PathSnoc(cfg, s, acts, s', Requeue(t));
    acts, s' := acts + [Requeue(t)], Apply(cfg, s', Requeue(t));
  }

  lemma NewestQueuedFacts(cfg: Config, s: System, k: nat)
    requires InvT(cfg, s) && k in s.cell.executions && s.cell.executions[k].status.Queued?
    ensures !s.cell.job.status.Terminal() && !s.cell.record.status.Done? && !HasRunning(s.cell.executions)
    ensures s.cell.record.status.Processing? ==> s.cell.record.processingStartedAt.Some?
  {
    hide RunsAgree, StartedOnce, AllSnapshotsAgree, UntouchedBeforeClaim, OutboxedOnce, PublishAccounts, StartsPaid;
    QueuedIsNewest(s.cell, k);
    if j :| j in s.cell.executions && s.cell.executions[j].status.Running? {
      RunningIsNewest(s.cell, j);
    }
  }

  /** The stale-claim pass frees the claim of an attempt that is not running. */
  lemma FreeClaim(cfg: Config, s: System, k: nat) returns (acts: seq<Action>, s': System)
    requires InvT(cfg, s) && k in s.cell.executions && s.cell.executions[k].status.Queued?
    requires s.cell.record.status.Processing? ==>
      s.cell.record.processingStartedAt.Some?
      && s.cell.record.processingStartedAt.value < s.now - cfg.processingTimeout
    ensures LegalPath(cfg, s, acts, s') && s'.cell.record.status.Pending?
    ensures s'.now == s.now && s'.cell == s.cell.(record := s'.cell.record, tally := s'.cell.tally)
    ensures s'.runs == s.runs
  {
    hide LegalPath, InvT;
    NewestQueuedFacts(cfg, s, k);
    PathOne(cfg, s, ResetStale);
    acts, s' := [ResetStale], Apply(cfg, s, ResetStale);
  }

  /** How long to wait until lease, claim and row of attempt k are all old enough. */
  function Patience(cfg: Config, s: System, k: nat): nat
    requires k in s.cell.executions
  {
    1 + (if k in s.cell.leases then Distance(s.cell.leases[k].expiresAt, s.now) else 0)
    + (if s.cell.record.processingStartedAt.Some?
       then Distance(s.cell.record.processingStartedAt.value + cfg.processingTimeout, s.now) else 0)
    + Distance(s.cell.executions[k].updatedAt + cfg.minAge, s.now)
  }

  ghost predicate Ready(s: System, k: nat) {
    && RunnableEntry(s.cell.queue, AttemptTarget(k))
    && k in s.cell.executions && s.cell.executions[k].status.Queued?
    && (k in s.cell.leases ==> s.cell.leases[k].expiresAt <= s.now)
    && !s.cell.job.status.Terminal() && s.cell.record.status.Pending?
  }

  /** Wait for lease and claim to lapse, free the claim, requeue the attempt. */
  lemma MakeReady(cfg: Config, s: System, k: nat) returns (acts: seq<Action>, s': System)
    requires InvT(cfg, s)
    requires k in s.cell.executions && s.cell.executions[k].status.Queued?
    ensures LegalPath(cfg, s, acts, s') && Ready(s', k) && KeepsRuns(s, s')
    ensures s'.cell.executions == s.cell.executions && s'.runs == s.runs && s'.cell.job == s.cell.job
  {
    hide InvT, LegalPath;
    var ms := Patience(cfg, s, k);
    NewestQueuedFacts(cfg, s, k);
    Wait(cfg, s, ms);
    var s1 := s.(now := s.now + ms);
    PathKeepsInvT(cfg, s, [Tick(ms)], s1);
    var acts2, s2 := FreeClaim(cfg, s1, k);
    var acts3, s3 := Reconcile(cfg, s2, AttemptTarget(k));
    PathAppend(cfg, s, [Tick(ms)], s1, acts2, s2);
    PathAppend(cfg, s, [Tick(ms)] + acts2, s2, acts3, s3);
    acts, s' := [Tick(ms)] + acts2 + acts3, s3;
  }

  lemma FinishQueuedAttempt(cfg: Config, s: System, k: nat) returns (acts: seq<Action>, s': System)
    requires InvT(cfg, s) && cfg.leaseDuration > 0 && cfg.processingTimeout >= 0
    requires k in s.cell.executions && s.cell.executions[k].status.Queued?
    ensures LegalPath(cfg, s, acts, s') && KeepsRuns(s, s')
    ensures if s.cell.job.hasHandler then s'.cell.job.status.JobCompleted? else s'.cell.job.status.JobFailed?
  {
    hide InvT, LegalPath;
    var xs, s1 := MakeReady(cfg, s, k);
    PathKeepsInvT(cfg, s, xs, s1);
    var ys, s2 := FinishReadyAttempt(cfg, s1, k);
    PathAppend(cfg, s, xs, s1, ys, s2);
    acts, s' := xs + ys, s2;
  }

  /** Prefix a finishing run with a path. */
  lemma ThenFinishQueued(cfg: Config, s: System, xs: seq<Action>, s1: System, k: nat)
    returns (acts: seq<Action>, s': System)
    requires InvT(cfg, s) && cfg.leaseDuration > 0 && cfg.processingTimeout >= 0
    requires LegalPath(cfg, s, xs, s1) && KeepsRuns(s, s1)
    requires k in s1.cell.executions && s1.cell.executions[k].status.Queued?
    ensures LegalPath(cfg, s, acts, s') && s'.cell.job.status.Terminal() && KeepsRuns(s, s')
  {
    hide InvT, LegalPath;
    PathKeepsInvT(cfg, s, xs, s1);
    var ys, s2 := FinishQueuedAttempt(cfg, s1, k);
    PathAppend(cfg, s, xs, s1, ys, s2);
    acts, s' := xs + ys, s2;
  }

  lemma ScheduledFacts(cfg: Config, s: System, k: nat)
    requires InvT(cfg, s) && k in s.cell.executions && s.cell.executions[k].status.Scheduled?
    ensures AttemptTarget(k) !in s.cell.outbox && s.cell.executions[k].retryAt.Some?
  {
  }

  /** A SCHEDULED attempt: wait for its retry time and claim it. */
  lemma FinishScheduledAttempt(cfg: Config, s: System, k: nat) returns (acts: seq<Action>, s': System)
    requires InvT(cfg, s) && cfg.leaseDuration > 0 && cfg.processingTimeout >= 0
    requires k in s.cell.executions && s.cell.executions[k].status.Scheduled?
    ensures LegalPath(cfg, s, acts, s') && s'.cell.job.status.Terminal() && KeepsRuns(s, s')
  {
    hide InvT, LegalPath;
    ScheduledFacts(cfg, s, k);
    var ms := Distance(s.cell.executions[k].retryAt.value, s.now);
    Wait(cfg, s, ms);
    var s1 := s.(now := s.now + ms);
    PathSnoc(cfg, s, [Tick(ms)], s1, ClaimAttempt(k));
    acts, s' := ThenFinishQueued(cfg, s, [Tick(ms)] + [ClaimAttempt(k)], Apply(cfg, s1, ClaimAttempt(k)), k);
  }

  /** Attempts count from 1; without jitter the delay is the capped one. */
  lemma LeastDelayDrawn(cfg: Config, s: System, k: nat)
    requires InvT(cfg, s) && k in s.cell.executions
    ensures k >= 1 && Backoff.CappedDelay(k) >= 0 && Backoff.Drawn(k, Backoff.CappedDelay(k))
  {
    hide RowsAgree, RunsAgree, StartedOnce;
    Backoff.CappedDelays(k);
  }

  /** A RUNNING attempt: let its lease expire and recover it. */
  lemma FinishRunningAttempt(cfg: Config, s: System, k: nat) returns (acts: seq<Action>, s': System)
    requires InvT(cfg, s) && cfg.leaseDuration > 0 && cfg.processingTimeout >= 0
    requires k in s.cell.executions && s.cell.executions[k].status.Running?
    ensures LegalPath(cfg, s, acts, s') && s'.cell.job.status.Terminal() && KeepsRuns(s, s')
  {
    hide InvT, LegalPath, RecoverExpiredExecution;
    LeastDelayDrawn(cfg, s, k);
    var delay := Backoff.CappedDelay(k);
    RecoveryNeverRefused(cfg, s, k, delay);
    var ms := Distance(s.cell.leases[k].expiresAt, s.now);
    Wait(cfg, s, ms);
    var s1 := s.(now := s.now + ms);
    PathKeepsInvT(cfg, s, [Tick(ms)], s1);
    RecoveryNeverRefused(cfg, s1, k, delay);
    PathSnoc(cfg, s, [Tick(ms)], s1, Recover(k, delay));
    acts, s' := [Tick(ms)] + [Recover(k, delay)], Apply(cfg, s1, Recover(k, delay));
    if k < s.cell.job.maxAttempts {
      PathKeepsInvT(cfg, s, acts, s');
      var ys, s2 := FinishScheduledAttempt(cfg, s', k + 1);
      PathAppend(cfg, s, acts, s', ys, s2);
      acts, s' := acts + ys, s2;
    }
  }

  /** A QUEUED job without an attempt: requeue it, deliver it, let a run create attempt 1. */
  lemma OpenAttempt(cfg: Config, s: System) returns (acts: seq<Action>, s': System)
    requires s.cell.job.status.JobQueued? && 1 !in s.cell.executions
    ensures LegalPath(cfg, s, acts, s') && KeepsRuns(s, s')
    ensures s'.cell.executions == s.cell.executions[1 := Execution(Queued, None, None, None, s'.now)]
    ensures forall q :: q in s'.runs && q !in s.runs ==> s'.runs[q].point.Reading?
  {
    hide LegalPath;
    var ms := 1 + Distance(s.cell.job.updatedAt + cfg.minAge, s.now);
    Wait(cfg, s, ms);
    var s1 := s.(now := s.now + ms);
    var ys, s2 := Reconcile(cfg, s1, JobTarget);
    PathAppend(cfg, s, [Tick(ms)], s1, ys, s2);
    var r := Above(s2.runs.Keys);
    var d := Deliver(r, JobTarget, "worker");
    PathSnoc(cfg, s, [Tick(ms)] + ys, s2, d);
    var s3 := Apply(cfg, s2, d);
    PathSnoc(cfg, s, [Tick(ms)] + ys + [d], s3, Advance(r, GO));
    acts, s' := [Tick(ms)] + ys + [d] + [Advance(r, GO)], Apply(cfg, s3, Advance(r, GO));
  }

  lemma FinishQueuedJob(cfg: Config, s: System) returns (acts: seq<Action>, s': System)
    requires InvT(cfg, s) && cfg.leaseDuration > 0 && cfg.processingTimeout >= 0
    requires s.cell.job.status.JobQueued? && 1 !in s.cell.executions
    ensures LegalPath(cfg, s, acts, s') && s'.cell.job.status.Terminal() && KeepsRuns(s, s')
  {
    hide InvT, LegalPath;
    var xs, s1 := OpenAttempt(cfg, s);
    acts, s' := ThenFinishQueued(cfg, s, xs, s1, 1);
  }

  lemma UnclaimedFacts(cfg: Config, s: System)
    requires InvT(cfg, s) && s.cell.job.status.JobScheduled?
    ensures s.cell.executions == map[] && s.cell.outbox == map[]
  {
  }

  /** A SCHEDULED job: wait for its time and claim it. */
  lemma ClaimTheJob(cfg: Config, s: System) returns (acts: seq<Action>, s': System)
    requires InvT(cfg, s) && s.cell.job.status.JobScheduled?
    ensures LegalPath(cfg, s, acts, s') && s'.cell.job.status.JobQueued?
    ensures s'.cell.executions == map[] && s'.runs == s.runs
  {
    hide InvT, LegalPath;
    UnclaimedFacts(cfg, s);
    var ms := Distance(s.cell.job.runAt, s.now);
    Wait(cfg, s, ms);
    var s1 := s.(now := s.now + ms);
    PathSnoc(cfg, s, [Tick(ms)], s1, ClaimJob);
    acts, s' := [Tick(ms)] + [ClaimJob], Apply(cfg, s1, ClaimJob);
  }

  lemma FinishScheduledJob(cfg: Config, s: System) returns (acts: seq<Action>, s': System)
    requires InvT(cfg, s) && cfg.leaseDuration > 0 && cfg.processingTimeout >= 0
    requires s.cell.job.status.JobScheduled?
    ensures LegalPath(cfg, s, acts, s') && s'.cell.job.status.Terminal() && KeepsRuns(s, s')
  {
    hide InvT, LegalPath;
    var xs, s2 := ClaimTheJob(cfg, s);
    PathKeepsInvT(cfg, s, xs, s2);
    var ys, s3 := FinishQueuedJob(cfg, s2);
    PathAppend(cfg, s, xs, s2, ys, s3);
    acts, s' := xs + ys, s3;
  }

  /** Where a job that is not over can be. */
  lemma WhereUnfinished(cfg: Config, s: System)
    requires InvT(cfg, s) && !s.cell.job.status.Terminal() && !s.cell.job.status.JobScheduled?
    ensures
      || (s.cell.job.status.JobQueued? && 1 !in s.cell.executions)
      || (Newest(s.cell) in s.cell.executions && !s.cell.executions[Newest(s.cell)].status.Terminal())
  {
    RowFacts(s);
  }

  /** From every legal state, some legal continuation ends the job. */
  lemma FinishJobSomehow(cfg: Config, s: System) returns (acts: seq<Action>, s': System)
    requires InvT(cfg, s) && cfg.leaseDuration > 0 && cfg.processingTimeout >= 0
    ensures LegalPath(cfg, s, acts, s') && s'.cell.job.status.Terminal() && KeepsRuns(s, s')
  {
    var c := s.cell;
    if c.job.status.Terminal() {
      acts, s' := [], s;
    } else if c.job.status.JobScheduled? {
      acts, s' := FinishScheduledJob(cfg, s);
    } else {
      hide InvT, LegalPath;
      WhereUnfinished(cfg, s);
      var n := Newest(c);
      if 1 !in c.executions && c.job.status.JobQueued? {
        acts, s' := FinishQueuedJob(cfg, s);
      } else if c.executions[n].status.Scheduled? {
        acts, s' := FinishScheduledAttempt(cfg, s, n);
      } else if c.executions[n].status.Queued? {
        acts, s' := FinishQueuedAttempt(cfg, s, n);
      } else {
        acts, s' := FinishRunningAttempt(cfg, s, n);
      }
    }
  }

  /** Never stuck: whatever legal steps came before, legal steps with backoffs that are drawn end the job. */
  lemma NeverStuck(cfg: Config, job: Job, key: string, now: Time, before: seq<Action>)
    requires FreshJob(job) && cfg.leaseDuration > 0 && cfg.processingTimeout >= 0
    requires AllDisciplined(cfg, Created(job, key, now), before)
    requires AllTimely(cfg, Created(job, key, now), before)
    ensures exists after ::
      && AllDisciplined(cfg, Created(job, key, now), before + after)
      && AllTimely(cfg, Created(job, key, now), before + after)
      && AllDrawn(cfg, Exec(cfg, Created(job, key, now), before), after)
      && Exec(cfg, Created(job, key, now), before + after).cell.job.status.Terminal()
  {
    hide InvT, Apply, Disciplined, Timely, Drawn;
    var s := Created(job, key, now);
    CreatedInvT(cfg, job, key, now);
    ReachableInvT(cfg, s, before);
    var after, s' := FinishJobSomehow(cfg, Exec(cfg, s, before));
    ExecAppend(cfg, s, before, after);
  }
}
