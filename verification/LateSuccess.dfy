/** A run in which a success that comes late completes an attempt that was crashed, on its successor's claim. */
module LateSuccess {
  import opened Rows
  import opened Statements
  import opened Runs
  import opened Protocol
  import opened LeaseDiscipline
  import opened Timeliness
  import opened NeverStuck
  import opened LateRuns
  import opened PassOrder
  import opened Lifecycle
  import opened AnyRun

  /** Run r is in the handler of attempt 1, which has been crashed, and another run holds the claim. */
  ghost predicate SuccessTooLate(s: System, r: RunId) {
    && At(s, r, Handling, 1) && s.cell.executions[1].status.WorkerCrashed?
    && s.cell.record.status.Processing? && 2 in s.cell.executions && !s.cell.job.status.Terminal()
  }

  /** A run at the claim is left alone until its handler is on, and then until its lease runs out. */
  lemma HandlerOutlivesLease(cfg: Config, job: Job, key: string, now: Time)
    returns (acts: seq<Action>, s: System, r: RunId)
    requires FreshJob(job) && job.hasHandler && cfg.leaseDuration > 0 && cfg.processingTimeout >= 0
    ensures LegalPath(cfg, Created(job, key, now), acts, s) && InvT(cfg, s)
    ensures At(s, r, Handling, 1) && ExpiredLease(s.cell, 1, s.now)
    ensures s.cell.job.maxAttempts == job.maxAttempts
  {
    hide InvT, LegalPath, Holds;
    var s0 := Created(job, key, now);
    CreatedInvT(cfg, job, key, now);
    var xs, s1;
    xs, s1, r := ReachClaim(cfg, job, key, now);
    SameMaximum(cfg, s0, xs, s1);
    var ys, s2 := DriveToHandler(cfg, s1, 1, r);
    PathAppend(cfg, s0, xs, s1, ys, s2);
    PathKeepsInvT(cfg, s0, xs + ys, s2);
    StartedFacts(cfg, s2, 1, r);
    var ms := Distance(s2.cell.leases[1].expiresAt, s2.now);
    Wait(cfg, s2, ms);
    s := s2.(now := s2.now + ms);
    acts := xs + ys + [Tick(ms)];
    PathAppend(cfg, s0, xs + ys, s2, [Tick(ms)], s);
    PathKeepsInvT(cfg, s0, acts, s);
    SameMaximum(cfg, s0, acts, s);
  }

  lemma TerminalRowStays(cfg: Config, s: System, acts: seq<Action>, s': System, k: nat)
    requires InvT(cfg, s) && LegalPath(cfg, s, acts, s')
    requires k in s.cell.executions && s.cell.executions[k].status.Terminal()
    ensures k in s'.cell.executions && s'.cell.executions[k] == s.cell.executions[k]
  {
    TimelyFacts(cfg, s);
    hide InvT, InvB;
    RunsSpend(cfg, s, acts);
  }

  lemma AttemptStays(cfg: Config, s: System, acts: seq<Action>, s': System, k: nat)
    requires InvT(cfg, s) && LegalPath(cfg, s, acts, s') && k in s.cell.executions
    ensures k in s'.cell.executions
  {
    OnlyOnward(cfg, s, acts);
  }

  /** Another worker takes the next attempt up to its claim. */
  lemma SuccessorClaims(cfg: Config, s: System, r: RunId) returns (acts: seq<Action>, s': System)
    requires InvT(cfg, s) && cfg.leaseDuration > 0
    requires At(s, r, Handling, 1) && s.cell.executions[1].status.WorkerCrashed?
    requires 2 in s.cell.executions && s.cell.executions[2].status.Queued?
    ensures LegalPath(cfg, s, acts, s') && SuccessTooLate(s', r)
  {
    hide InvT, LegalPath, Holds, Apply;
    var acts1, s1 := MakeReady(cfg, s, 2);
    var q := Above(s1.runs.Keys);
    var acts2, s2 := DriveToClaim(cfg, s1, 2, q);
    FromClaiming(cfg, s2, 2, q);
    OnlyThatRunMoves(cfg, s2, q);
    s' := Apply(cfg, s2, Advance(q, GO));
    acts := acts1 + acts2 + [Advance(q, GO)];
    PathAppend(cfg, s, acts1, s1, acts2, s2);
    PathSnoc(cfg, s, acts1 + acts2, s2, Advance(q, GO)) by { DisciplineOfHolder(cfg, s2, q); }
    TerminalRowStays(cfg, s, acts, s', 1);
    AttemptStays(cfg, s, acts, s', 2);
    assert r in s1.runs - {q} && r in s2.runs - {q} && r in s'.runs - {q};
  }

  /** The crashed attempt replaced: run r of it goes on. */
  lemma CrashedAndReplaced(cfg: Config, s: System, r: RunId) returns (acts: seq<Action>, s': System)
    requires InvT(cfg, s) && At(s, r, Handling, 1) && ExpiredLease(s.cell, 1, s.now) && s.cell.job.maxAttempts >= 2
    ensures LegalPath(cfg, s, acts, s') && InvT(cfg, s')
    ensures At(s', r, Handling, 1) && s'.cell.executions[1].status.WorkerCrashed?
    ensures 2 in s'.cell.executions && s'.cell.executions[2].status.Queued?
  {
    hide InvT, LegalPath;
    acts, s' := ReplaceAttempt(cfg, s, 1);
  }

  /** For every job with a handler and two attempts there is a legal run after which a success is too late. */
  lemma LateSuccessReachable(cfg: Config, job: Job, key: string, now: Time)
    requires FreshJob(job) && job.hasHandler && job.maxAttempts >= 2
    requires cfg.leaseDuration > 0 && cfg.processingTimeout >= 0
    ensures exists acts, r ::
      && AllDisciplined(cfg, Created(job, key, now), acts)
      && AllTimely(cfg, Created(job, key, now), acts)
      && AllDrawn(cfg, Created(job, key, now), acts)
      && SuccessTooLate(Exec(cfg, Created(job, key, now), acts), r)
  {
    hide InvT, LegalPath, SuccessTooLate;
    var s0 := Created(job, key, now);
    var acts1, s1, r := HandlerOutlivesLease(cfg, job, key, now);
    var acts2, s2 := CrashedAndReplaced(cfg, s1, r);
    var acts3, s3 := SuccessorClaims(cfg, s2, r);
    PathAppend(cfg, s0, acts1, s1, acts2, s2);
    PathAppend(cfg, s0, acts1 + acts2, s2, acts3, s3);
    PathMeans(cfg, s0, acts1 + acts2 + acts3, s3);
  }

  /** The late success completes the crashed attempt, the record and the job, whatever attempt 2 is doing. */
  lemma LateSuccessCommits(cfg: Config, s: System, r: RunId)
    requires SuccessTooLate(s, r)
    ensures
      var c' := Apply(cfg, s, Advance(r, Succeeded)).cell;
      && 1 in c'.executions && c'.executions[1].status.Completed?
      && c'.record.status.Done? && c'.job.status.JobCompleted?
      && 2 in c'.executions && c'.executions[2] == s.cell.executions[2]
  {
  }
}
