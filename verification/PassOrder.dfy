/** A run in which the order of the two scheduler passes shows: crash after crash, up to the last attempt. */
module PassOrder {
  import opened Rows
  import opened Statements
  import opened Runs
  import opened Protocol
  import opened LeaseDiscipline
  import opened Timeliness
  import opened NeverStuck
  import opened LateRuns
  import opened SchedulerOrder
  import Backoff

  /** The attempt starts, its worker dies, lease and claim run out. */
  lemma CrashAttempt(cfg: Config, s: System, k: nat) returns (acts: seq<Action>, s': System)
    requires InvT(cfg, s) && cfg.leaseDuration > 0 && cfg.processingTimeout >= 0
    requires k in s.cell.executions && s.cell.executions[k].status.Queued?
    ensures LegalPath(cfg, s, acts, s') && InvT(cfg, s')
    ensures ExpiredLease(s'.cell, k, s'.now) && OldClaim(s'.cell, cfg.processingTimeout, s'.now)
  {
    hide InvT, LegalPath, Holds;
    var acts1, s1 := MakeReady(cfg, s, k);
    var r := Above(s1.runs.Keys);
    var acts2, s2 := DriveToClaim(cfg, s1, k, r);
    var acts3, s3 := DriveToHandler(cfg, s2, k, r);
    PathAppend(cfg, s, acts1, s1, acts2, s2);
    PathAppend(cfg, s, acts1 + acts2, s2, acts3, s3);
    PathKeepsInvT(cfg, s, acts1 + acts2 + acts3, s3);
    StartedFacts(cfg, s3, k, r);
    var ms := 1 + Distance(s3.cell.leases[k].expiresAt, s3.now)
      + Distance(s3.cell.record.processingStartedAt.value + cfg.processingTimeout, s3.now);
    Wait(cfg, s3, ms);
    s' := s3.(now := s3.now + ms);
    PathAppend(cfg, s, acts1 + acts2 + acts3, s3, [Tick(ms)], s');
    acts := acts1 + acts2 + acts3 + [Tick(ms)];
    PathKeepsInvT(cfg, s, acts, s');
  }

  lemma StartedFacts(cfg: Config, s: System, k: nat, r: RunId)
    requires InvT(cfg, s) && (At(s, r, Handling, k) || At(s, r, ClosingUnhandled, k)) && Holds(s, r)
    ensures s.cell.executions[k].status.Running? && k in s.cell.leases
    ensures s.cell.record.status.Processing? ==> s.cell.record.processingStartedAt.Some?
  {
    LegalWriteFindsNewest(s, r);
  }

  /** Recovery replaces the crashed attempt, and the replacement is claimed when it is due. */
  lemma ReplaceAttempt(cfg: Config, s: System, k: nat) returns (acts: seq<Action>, s': System)
    requires InvT(cfg, s) && ExpiredLease(s.cell, k, s.now) && k < s.cell.job.maxAttempts
    ensures LegalPath(cfg, s, acts, s') && InvT(cfg, s')
    ensures k + 1 in s'.cell.executions && s'.cell.executions[k + 1].status.Queued? && s'.runs == s.runs
    ensures k in s'.cell.executions && s'.cell.executions[k].status.WorkerCrashed?
  {
    hide InvT, LegalPath, RecoverExpiredExecution;
    LeastDelayDrawn(cfg, s, k);
    var delay := Backoff.CappedDelay(k);
    RecoveryNeverRefused(cfg, s, k, delay);
    var s1 := Apply(cfg, s, Recover(k, delay));
    PathOne(cfg, s, Recover(k, delay));
    PathKeepsInvT(cfg, s, [Recover(k, delay)], s1);
    ScheduledFacts(cfg, s1, k + 1);
    var ms := Distance(s1.cell.executions[k + 1].retryAt.value, s1.now);
    Wait(cfg, s1, ms);
    var s2 := s1.(now := s1.now + ms);
    PathAppend(cfg, s, [Recover(k, delay)], s1, [Tick(ms)], s2);
    PathSnoc(cfg, s, [Recover(k, delay)] + [Tick(ms)], s2, ClaimAttempt(k + 1));
    acts, s' := [Recover(k, delay)] + [Tick(ms)] + [ClaimAttempt(k + 1)], Apply(cfg, s2, ClaimAttempt(k + 1));
    PathKeepsInvT(cfg, s, acts, s');
  }

  lemma InChain(cfg: Config, s: System, k: nat)
    requires InvT(cfg, s) && k in s.cell.executions
    ensures k <= s.cell.job.maxAttempts
  {
  }

  /** Crash after crash, up to the last attempt allowed. */
  lemma {:induction false} CrashToTheLast(cfg: Config, s: System, k: nat) returns (acts: seq<Action>, s': System, n: nat)
    requires InvT(cfg, s) && cfg.leaseDuration > 0 && cfg.processingTimeout >= 0
    requires k in s.cell.executions && s.cell.executions[k].status.Queued?
    ensures LegalPath(cfg, s, acts, s') && InvT(cfg, s')
    ensures n >= s'.cell.job.maxAttempts && ExpiredLease(s'.cell, n, s'.now)
    ensures OldClaim(s'.cell, cfg.processingTimeout, s'.now)
    decreases s.cell.job.maxAttempts - k
  {
    hide InvT, LegalPath;
    InChain(cfg, s, k);
    acts, s' := CrashAttempt(cfg, s, k);
    n := k;
    SameMaximum(cfg, s, acts, s');
    if k < s.cell.job.maxAttempts {
      var acts2, s2 := ReplaceAttempt(cfg, s', k);
      SameMaximum(cfg, s', acts2, s2);
      PathAppend(cfg, s, acts, s', acts2, s2);
      var rest;
      rest, s', n := CrashToTheLast(cfg, s2, k + 1);
      PathAppend(cfg, s, acts + acts2, s2, rest, s');
      acts := acts + acts2 + rest;
    }
  }

  /** When attempt n is the expired one, the order of the passes shows in the record, whatever the jitter. */
  ghost predicate OrderShows(cfg: Config, s: System, n: nat) {
    forall delay :: RecordsDiffer(s.cell, [n], delay, cfg.processingTimeout, s.now)
  }

  /** For every job there is a legal run after which the order of the two passes decides over the record. */
  lemma RecordsDifferReachable(cfg: Config, job: Job, key: string, now: Time)
    requires FreshJob(job) && cfg.leaseDuration > 0 && cfg.processingTimeout >= 0
    ensures exists acts, n ::
      && AllDisciplined(cfg, Created(job, key, now), acts)
      && AllTimely(cfg, Created(job, key, now), acts)
      && AllDrawn(cfg, Created(job, key, now), acts)
      && OrderShows(cfg, Exec(cfg, Created(job, key, now), acts), n)
  {
    hide InvT, LegalPath, RecordsDiffer;
    var s0 := Created(job, key, now);
    CreatedInvT(cfg, job, key, now);
    var acts1, s1 := ClaimTheJob(cfg, s0);
    var acts2, s2 := OpenAttempt(cfg, s1);
    PathAppend(cfg, s0, acts1, s1, acts2, s2);
    PathKeepsInvT(cfg, s0, acts1 + acts2, s2);
    var acts3, s3, n := CrashToTheLast(cfg, s2, 1);
    PathAppend(cfg, s0, acts1 + acts2, s2, acts3, s3);
    var acts := acts1 + acts2 + acts3;
    PathMeans(cfg, s0, acts, s3);
    forall delay
      ensures RecordsDiffer(s3.cell, [n], delay, cfg.processingTimeout, s3.now)
    {
      LastCrashDiffers(cfg, s3, n, delay);
    }
    assert OrderShows(cfg, Exec(cfg, s0, acts), n);
  }

  lemma LastCrashDiffers(cfg: Config, s: System, n: nat, delay: nat -> nat)
    requires InvT(cfg, s) && ExpiredLease(s.cell, n, s.now) && n >= s.cell.job.maxAttempts
    requires OldClaim(s.cell, cfg.processingTimeout, s.now)
    ensures RecordsDiffer(s.cell, [n], delay, cfg.processingTimeout, s.now)
  {
    TimelyFacts(cfg, s);
    RowFacts(s);
    hide InvT, InvB, RowsAgree, RecordsDiffer;
    assert ExpiredLastAttempt(s.cell, [n], n, s.now);
    DisciplinedRecordsDifferIff(s.cell, [n], delay, cfg.processingTimeout, s.now);
  }
}
