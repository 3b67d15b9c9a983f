/** Why the two assumptions are needed: what a run that outlives its lease, or dawdles, can do. */
module LateRuns {
  import opened Rows
  import opened Statements
  import opened Runs
  import opened Protocol
  import opened EveryInterleaving
  import opened LeaseDiscipline
  import opened Timeliness
  import opened NeverStuck
  import opened AnyRun

  /** Any new job can be brought to where a run is about to claim for attempt 1. */
  lemma ReachClaim(cfg: Config, job: Job, key: string, now: Time)
    returns (acts: seq<Action>, s: System, r: RunId)
    requires FreshJob(job) && cfg.leaseDuration > 0
    ensures LegalPath(cfg, Created(job, key, now), acts, s)
    ensures At(s, r, Claiming, 1) && Holds(s, r) && s.cell.record.status.Pending?
    ensures s.cell.executions.Keys == {1} && s.cell.executions[1].status.Queued? && !s.cell.job.status.Terminal()
    ensures forall q :: q in s.runs && q != r ==> s.runs[q].point.Reading?
  {
    hide InvT, LegalPath, Holds;
    var s0 := Created(job, key, now);
    CreatedInvT(cfg, job, key, now);
    var acts1, s1 := ClaimTheJob(cfg, s0);
    var acts2, s2 := OpenAttempt(cfg, s1);
    PathAppend(cfg, s0, acts1, s1, acts2, s2);
    PathKeepsInvT(cfg, s0, acts1 + acts2, s2);
    var acts3, s3 := MakeReady(cfg, s2, 1);
    PathAppend(cfg, s0, acts1 + acts2, s2, acts3, s3);
    r := Above(s3.runs.Keys);
    var acts4, s4 := DriveToClaim(cfg, s3, 1, r);
    PathAppend(cfg, s0, acts1 + acts2 + acts3, s3, acts4, s4);
    acts, s := acts1 + acts2 + acts3 + acts4, s4;
    forall q | q in s.runs && q != r
      ensures s.runs[q].point.Reading?
    {
      assert q in s.runs - {r};
      assert q in s3.runs && s3.runs[q] == s.runs[q];
    }
  }

  lemma SameMaximum(cfg: Config, s: System, acts: seq<Action>, s': System)
    requires InvT(cfg, s) && LegalPath(cfg, s, acts, s')
    ensures s'.cell.job.maxAttempts == s.cell.job.maxAttempts && s'.cell.job.hasHandler == s.cell.job.hasHandler
  {
    OnlyOnward(cfg, s, acts);
  }

  lemma PathMeans(cfg: Config, s: System, acts: seq<Action>, s': System)
    requires LegalPath(cfg, s, acts, s')
    ensures AllDisciplined(cfg, s, acts) && AllTimely(cfg, s, acts) && AllDrawn(cfg, s, acts)
    ensures Exec(cfg, s, acts) == s'
  {
  }

  // ---- without lease discipline, terminal executions do not stay terminal

  lemma OverMeansAllOver(s: System)
    requires InvB(s) && s.cell.job.status.Terminal() && 1 in s.cell.executions
    ensures s.cell.executions[1].status.Terminal()
  {
    RowFacts(s);
  }

  /** For every job there is a legal run that ends it while a run without its lease is still about to start. */
  lemma LateRun(cfg: Config, job: Job, key: string, now: Time)
    returns (acts: seq<Action>, s: System, r: RunId)
    requires FreshJob(job) && cfg.leaseDuration > 0 && cfg.processingTimeout >= 0
    ensures LegalPath(cfg, Created(job, key, now), acts, s) && InvT(cfg, s)
    ensures r in s.runs && s.runs[r].point.Starting? && s.runs[r].attempt == 1
    ensures if job.hasHandler then s.cell.job.status.JobCompleted? else s.cell.job.status.JobFailed?
    ensures s.cell.job.hasHandler == job.hasHandler
  {
    hide InvT, LegalPath, Holds, Apply;
    var s0 := Created(job, key, now);
    CreatedInvT(cfg, job, key, now);
    var xs, s1;
    xs, s1, r := ReachClaim(cfg, job, key, now);
    FromClaiming(cfg, s1, 1, r);
    PathSnoc(cfg, s0, xs, s1, Advance(r, GO)) by { DisciplineOfHolder(cfg, s1, r); }
    var s2 := Apply(cfg, s1, Advance(r, GO));
    PathKeepsInvT(cfg, s0, xs + [Advance(r, GO)], s2);
    SameMaximum(cfg, s0, xs + [Advance(r, GO)], s2);
    assert s2.cell.executions == s1.cell.executions by { ClaimingStep(cfg, s1, r); }
    var ys, s3 := FinishQueuedAttempt(cfg, s2, 1);
    PathAppend(cfg, s0, xs + [Advance(r, GO)], s2, ys, s3);
    acts, s := xs + [Advance(r, GO)] + ys, s3;
    PathKeepsInvT(cfg, s0, acts, s3);
    SameMaximum(cfg, s0, acts, s3);
  }

  /**
   * For every job there is a run, legal to the last action, after which one write by a run that has
   * lost its lease takes a terminal execution back to RUNNING.
   */
  lemma LateStartReachable(cfg: Config, job: Job, key: string, now: Time)
    requires FreshJob(job) && cfg.leaseDuration > 0 && cfg.processingTimeout >= 0
    ensures exists acts, a ::
      && AllDisciplined(cfg, Created(job, key, now), acts)
      && AllTimely(cfg, Created(job, key, now), acts)
      && AllDrawn(cfg, Created(job, key, now), acts)
      && LateStart(Exec(cfg, Created(job, key, now), acts), a)
  {
    hide InvT, LegalPath, Holds, Apply;
    var acts, s, r := LateRun(cfg, job, key, now);
    FinishedIsLate(cfg, Created(job, key, now), acts, s, r);
  }

  // ---- what the late start leads to

  /** The late start revives attempt 1, and nothing of the record or of the job. */
  lemma Revived(cfg: Config, s: System, r: RunId)
    requires InvT(cfg, s) && s.cell.job.status.Terminal()
    requires r in s.runs && s.runs[r].point.Starting? && s.runs[r].attempt == 1
    ensures Drawn(s, Advance(r, GO))
    ensures
      var s' := Apply(cfg, s, Advance(r, GO));
      && 1 in s'.cell.executions && s'.cell.executions[1].status.Running? && 1 in s'.cell.leases
      && s'.cell.record == s.cell.record && s'.cell.job == s.cell.job
      && r in s'.runs && s'.runs[r].point.StartingJob?
    ensures s.cell.job.status.JobCompleted? ==> s.cell.record.status.Done?
  {
    TimelyFacts(cfg, s);
    RunFacts(s, r);
    RowFacts(s);
    hide InvT, InvB, AttemptChain, Finish, FinalFailureTransaction, AlreadyCompletedTransaction;
  }

  lemma PathThen(cfg: Config, s: System, acts: seq<Action>, s': System, a: Action)
    requires Exec(cfg, s, acts) == s' && AllDrawn(cfg, s, acts) && Drawn(s', a)
    ensures Exec(cfg, s, acts + [a]) == Apply(cfg, s', a) && AllDrawn(cfg, s, acts + [a])
  {
    hide Apply, Drawn;
    assert [a][1..] == [];
    var s'' := Apply(cfg, s', a);
    assert Exec(cfg, s'', []) == s'' && AllDrawn(cfg, s'', []);
    assert Exec(cfg, s', [a]) == s'' && AllDrawn(cfg, s', [a]);
    ExecAppend(cfg, s, acts, [a]);
  }

  /** For every job with a handler there is a run after which recovery takes its COMPLETED branch. */
  lemma CompletedBranchReachable(cfg: Config, job: Job, key: string, now: Time, delay: nat)
    requires FreshJob(job) && job.hasHandler && cfg.leaseDuration > 0 && cfg.processingTimeout >= 0
    ensures exists acts ::
      && AllDrawn(cfg, Created(job, key, now), acts)
      && var s := Exec(cfg, Created(job, key, now), acts);
         RecoverExpiredExecution(s.cell, 1, delay, s.now).exit.AlreadyDone?
  {
    hide InvT, LegalPath, Apply, RecoverExpiredExecution;
    var s0 := Created(job, key, now);
    var acts, s, r := LateRun(cfg, job, key, now);
    PathMeans(cfg, s0, acts, s);
    Revived(cfg, s, r);
    PathThen(cfg, s0, acts, s, Advance(r, GO));
    var s1 := Apply(cfg, s, Advance(r, GO));
    var ms := Distance(s1.cell.leases[1].expiresAt, s1.now);
    PathThen(cfg, s0, acts + [Advance(r, GO)], s1, Tick(ms));
    var s2 := Apply(cfg, s1, Tick(ms));
    assert s2 == s1.(now := s1.now + ms) by { Later(cfg, s1, ms); }
    ExpiredAndDone(s2.cell, 1, delay, s2.now);
    assert RecoverExpiredExecution(s2.cell, 1, delay, s2.now).exit.AlreadyDone?;
  }

  lemma Later(cfg: Config, s: System, ms: nat)
    ensures Apply(cfg, s, Tick(ms)) == s.(now := s.now + ms)
  {
  }

  lemma ExpiredAndDone(c: Cell, k: nat, delay: nat, now: Time)
    requires ExpiredLease(c, k, now) && c.record.status.Done?
    ensures RecoverExpiredExecution(c, k, delay, now).exit.AlreadyDone?
  {
  }

  /** For every job without a handler there is a run after which a run is about to close it as unhandled, too late. */
  lemma UnhandledTooLateReachable(cfg: Config, job: Job, key: string, now: Time)
    requires FreshJob(job) && !job.hasHandler && cfg.leaseDuration > 0 && cfg.processingTimeout >= 0
    ensures exists acts, r ::
      && AllDrawn(cfg, Created(job, key, now), acts)
      && var s := Exec(cfg, Created(job, key, now), acts);
         r in s.runs && s.runs[r].point.ClosingUnhandled? && s.cell.job.status.Terminal()
  {
    hide InvT, LegalPath, Apply;
    var s0 := Created(job, key, now);
    var acts, s, r := LateRun(cfg, job, key, now);
    PathMeans(cfg, s0, acts, s);
    Revived(cfg, s, r);
    PathThen(cfg, s0, acts, s, Advance(r, GO));
    var s1 := Apply(cfg, s, Advance(r, GO));
    ToUnhandled(cfg, s1, r);
    PathThen(cfg, s0, acts + [Advance(r, GO)], s1, Advance(r, GO));
  }

  lemma ToUnhandled(cfg: Config, s: System, r: RunId)
    requires r in s.runs && s.runs[r].point.StartingJob? && !s.cell.job.hasHandler && s.cell.job.status.Terminal()
    ensures
      var s' := Apply(cfg, s, Advance(r, GO));
      r in s'.runs && s'.runs[r].point.ClosingUnhandled? && s'.cell.job.status.Terminal()
    ensures Drawn(s, Advance(r, GO))
  {
    hide Finish, FinalFailureTransaction, AlreadyCompletedTransaction;
  }

  lemma DisciplineOfHolder(cfg: Config, s: System, r: RunId)
    requires r in s.runs && Holds(s, r) && !s.runs[r].point.Starting?
    ensures Disciplined(s, Advance(r, GO)) && Timely(cfg, s, Advance(r, GO))
  {
  }

  lemma ClaimingStep(cfg: Config, s: System, r: RunId)
    requires r in s.runs && s.runs[r].point.Claiming?
    ensures
      var s' := Apply(cfg, s, Advance(r, GO));
      && s'.cell.executions == s.cell.executions && s'.cell.leases == s.cell.leases && s'.cell.job == s.cell.job
      && s'.runs - {r} == s.runs - {r}
      && (s.cell.record.status.Pending? ==>
            s'.cell.record.status.Processing? && s'.cell.record.processingStartedAt == Some(s.now))
  {
    hide Finish, FinalFailureTransaction, AlreadyCompletedTransaction;
  }

  lemma FinishedIsLate(cfg: Config, s0: System, acts: seq<Action>, s: System, r: RunId)
    requires LegalPath(cfg, s0, acts, s) && InvT(cfg, s)
    requires s.cell.job.status.Terminal() && r in s.runs && s.runs[r].point.Starting? && s.runs[r].attempt == 1
    ensures AllDisciplined(cfg, s0, acts) && AllTimely(cfg, s0, acts) && AllDrawn(cfg, s0, acts)
    ensures LateStart(Exec(cfg, s0, acts), Advance(r, GO))
  {
    TimelyFacts(cfg, s);
    RunFacts(s, r);
    OverMeansAllOver(s);
  }

  // ---- without timeliness, a job can get stuck for ever

  /**
   * The newest attempt is RUNNING although its claim is gone, and nobody is left to end it. Recovery
   * refuses such an attempt, and nothing else touches it.
   */
  ghost predicate Stuck(s: System) {
    && 1 in s.cell.executions
    && (forall k :: k in s.cell.executions ==>
          !s.cell.executions[k].status.Scheduled? && !s.cell.executions[k].status.Queued?)
    && HasRunning(s.cell.executions)
    && s.cell.record.status.Pending?
    && (s.cell.job.status.JobQueued? || s.cell.job.status.JobRunning?)
    && (forall r :: r in s.runs ==> s.runs[r].point.Creating? || s.runs[r].point.Reading?)
  }

  lemma StuckStepsInVain(cfg: Config, s: System, r: RunId, outcome: Outcome)
    requires Stuck(s) && r in s.runs
    ensures
      var next := Step(cfg, s.cell, s.runs[r], outcome, s.now);
      next.cell == s.cell && (next.run.Some? ==> next.run.value.point.Reading?)
  {
    hide Finish, FinalFailureTransaction, AlreadyCompletedTransaction;
  }

  lemma StuckRecoversInVain(c: Cell, k: nat, delay: nat, now: Time)
    requires c.record.status.Pending?
    ensures RecoverExpiredExecution(c, k, delay, now).cell == c
  {
    hide AlreadyCompletedTransaction, CrashLastAttempt, CrashAndReplace;
  }

  lemma StuckRows(cfg: Config, s: System, a: Action)
    requires Stuck(s)
    ensures
      var c' := Apply(cfg, s, a).cell;
      c'.executions == s.cell.executions && c'.record == s.cell.record && c'.job == s.cell.job
  {
    hide Stuck, Step, RecoverExpiredExecution;
    if a.Advance? && a.id in s.runs {
      StuckStepsInVain(cfg, s, a.id, a.outcome);
    } else if a.Recover? {
      assert s.cell.record.status.Pending? by { StuckFacts(s); }
      StuckRecoversInVain(s.cell, a.attempt, a.delay, s.now);
    } else if OnlyOutboxOrQueue(a) {
      OutboxAndQueueAlone(cfg, s, a);
    } else {
      StuckFacts(s);
    }
  }

  lemma StuckFacts(s: System)
    requires Stuck(s)
    ensures s.cell.record.status.Pending? && !s.cell.job.status.JobScheduled?
    ensures forall k :: k in s.cell.executions ==> !s.cell.executions[k].status.Scheduled?
  {
  }

  lemma ApplyKeepsStuck(cfg: Config, s: System, a: Action)
    requires Stuck(s)
    ensures Stuck(Apply(cfg, s, a))
  {
    hide Apply, Step;
    var s' := Apply(cfg, s, a);
    StuckRows(cfg, s, a);
    forall r | r in s'.runs
      ensures s'.runs[r].point.Creating? || s'.runs[r].point.Reading?
    {
      WhereRunsComeFrom(cfg, s, a, r);
      if a.Advance? && a.id == r {
        StuckStepsInVain(cfg, s, r, a.outcome);
      }
    }
  }

  /** Stuck is for ever: no interleaving of any actions, disciplined or not, ends the job. */
  lemma {:induction false} StuckForEver(cfg: Config, s: System, acts: seq<Action>)
    requires Stuck(s)
    ensures Stuck(Exec(cfg, s, acts)) && !Exec(cfg, s, acts).cell.job.status.Terminal()
    decreases |acts|
  {
    if acts != [] {
      hide Stuck, Apply;
      ApplyKeepsStuck(cfg, s, acts[0]);
      StuckForEver(cfg, Apply(cfg, s, acts[0]), acts[1..]);
    }
  }

  /** The heartbeat keeps a lease alive for as long as it likes. */
  lemma {:induction false} KeepAlive(cfg: Config, s: System, r: RunId, k: nat, ms: nat)
    returns (acts: seq<Action>, s': System)
    requires At(s, r, Starting, k) && Holds(s, r) && cfg.leaseDuration >= 2
    ensures LegalPath(cfg, s, acts, s')
    ensures s'.runs == s.runs && s'.now == s.now + ms && s'.cell == s.cell.(leases := s'.cell.leases)
    ensures Holds(s', r)
    decreases ms
  {
    if ms == 0 {
      acts, s' := [], s;
    } else {
      hide LegalPath;
      var renew := Renew(k, s.cell.leases[k].worker);
      PathOne(cfg, s, renew);
      var s1 := Apply(cfg, s, renew);
      PathSnoc(cfg, s, [renew], s1, Tick(1));
      var s2 := Apply(cfg, s1, Tick(1));
      var rest;
      rest, s' := KeepAlive(cfg, s2, r, k, ms - 1);
      PathAppend(cfg, s, [renew] + [Tick(1)], s2, rest, s');
      acts := [renew] + [Tick(1)] + rest;
    }
  }

  lemma TwoActions(cfg: Config, s: System, a: Action, b: Action)
    requires Disciplined(s, a) && Disciplined(Apply(cfg, s, a), b) && Drawn(s, a) && Drawn(Apply(cfg, s, a), b)
    ensures AllDisciplined(cfg, s, [a, b]) && AllDrawn(cfg, s, [a, b])
    ensures Exec(cfg, s, [a, b]) == Apply(cfg, Apply(cfg, s, a), b)
  {
    hide Apply, Disciplined, Drawn;
    var s1 := Apply(cfg, s, a);
    var s2 := Apply(cfg, s1, b);
    assert [a, b][1..] == [b] && [b][1..] == [];
    assert Exec(cfg, s2, []) == s2 && AllDisciplined(cfg, s2, []) && AllDrawn(cfg, s2, []);
    assert Exec(cfg, s1, [b]) == s2 && AllDisciplined(cfg, s1, [b]) && AllDrawn(cfg, s1, [b]);
  }

  lemma OnlyQueuedNotRunning(c: Cell)
    requires c.executions.Keys == {1} && c.executions[1].status.Queued?
    ensures !HasRunning(c.executions)
  {
    forall j | j in c.executions
      ensures !c.executions[j].status.Running?
    {
      assert j in c.executions.Keys;
    }
  }

  lemma StartsWithoutClaim(cfg: Config, s: System, r: RunId)
    requires At(s, r, Starting, 1) && s.cell.record.status.Pending?
    ensures
      var s' := Apply(cfg, s, Advance(r, GO));
      && s'.cell.executions.Keys == s.cell.executions.Keys && s'.cell.executions[1].status.Running?
      && s'.cell.record == s.cell.record && s'.cell.job == s.cell.job && s'.runs - {r} == s.runs - {r}
  {
    hide Finish, FinalFailureTransaction, AlreadyCompletedTransaction;
  }

  /** Starts late, though under the lease, and crashes. */
  lemma StartTooLate(cfg: Config, s: System, r: RunId)
    requires At(s, r, Starting, 1) && Holds(s, r) && s.cell.executions.Keys == {1}
    requires s.cell.job.status.JobQueued? || s.cell.job.status.JobRunning?
    requires s.cell.record.status.Pending?
    requires forall q :: q in s.runs && q != r ==> s.runs[q].point.Reading?
    ensures
      var acts := [Advance(r, GO), Drop(r)];
      AllDisciplined(cfg, s, acts) && AllDrawn(cfg, s, acts) && Stuck(Exec(cfg, s, acts))
  {
    var s1 := Apply(cfg, s, Advance(r, GO));
    StartsWithoutClaim(cfg, s, r);
    TwoActions(cfg, s, Advance(r, GO), Drop(r));
    hide Step;
    var s2 := s1.(runs := s1.runs - {r});
    forall q | q in s2.runs
      ensures s2.runs[q].point.Reading?
    {
      assert q in s.runs - {r};
    }
    assert s2.cell.executions[1].status.Running? && 1 in s2.cell.executions;
  }

  /**
   * For every job there is a disciplined run, untimely in one startExecution, that gets the job stuck
   * for ever. So T2 cannot be dropped from NeverStuck and RecoveryNeverRefused.
   */
  lemma StuckReachable(cfg: Config, job: Job, key: string, now: Time)
    requires FreshJob(job) && cfg.leaseDuration >= 2 && cfg.processingTimeout >= 0
    ensures exists acts ::
      && AllDisciplined(cfg, Created(job, key, now), acts) && AllDrawn(cfg, Created(job, key, now), acts)
      && Stuck(Exec(cfg, Created(job, key, now), acts))
  {
    hide InvT, LegalPath, Holds, Apply, Stuck;
    var s0 := Created(job, key, now);
    CreatedInvT(cfg, job, key, now);
    var xs, s1, r := ReachClaim(cfg, job, key, now);
    PathKeepsInvT(cfg, s0, xs, s1);
    JobIsQueued(cfg, s1);
    FromClaiming(cfg, s1, 1, r);
    ClaimingStep(cfg, s1, r);
    PathSnoc(cfg, s0, xs, s1, Advance(r, GO)) by { DisciplineOfHolder(cfg, s1, r); }
    var s2 := Apply(cfg, s1, Advance(r, GO));
    var ys, s3 := KeepAlive(cfg, s2, r, 1, cfg.processingTimeout + 1);
    PathAppend(cfg, s0, xs + [Advance(r, GO)], s2, ys, s3);
    OnlyQueuedNotRunning(s3.cell);
    ResetLateClaim(cfg, s0, xs + [Advance(r, GO)] + ys, s3, r);
    var s4 := s3.(cell := Unclaim(s3.cell));
    forall q | q in s4.runs && q != r
      ensures s4.runs[q].point.Reading?
    {
      assert q in s2.runs - {r};
      assert q in s1.runs - {r};
    }
    StartTooLate(cfg, s4, r);
    var acts := xs + [Advance(r, GO)] + ys + [ResetStale];
    ThenStuck(cfg, s0, acts, s4, [Advance(r, GO), Drop(r)]);
  }

  lemma JobIsQueued(cfg: Config, s: System)
    requires InvT(cfg, s) && s.runs != map[] && !s.cell.job.status.Terminal()
    ensures s.cell.job.status.JobQueued? || s.cell.job.status.JobRunning?
  {
  }

  lemma ResetLateClaim(cfg: Config, s0: System, xs: seq<Action>, s: System, r: RunId)
    requires LegalPath(cfg, s0, xs, s) && r in s.runs && Holds(s, r)
    requires s.cell.record.status.Processing? && s.cell.record.processingStartedAt.Some?
    requires s.cell.record.processingStartedAt.value < s.now - cfg.processingTimeout
    requires !HasRunning(s.cell.executions)
    ensures
      var s' := s.(cell := Unclaim(s.cell));
      LegalPath(cfg, s0, xs + [ResetStale], s') && Holds(s', r)
  {
    hide LegalPath;
    PathSnoc(cfg, s0, xs, s, ResetStale);
  }

  lemma ThenStuck(cfg: Config, s0: System, xs: seq<Action>, s: System, ys: seq<Action>)
    requires LegalPath(cfg, s0, xs, s) && Stuck(Exec(cfg, s, ys))
    requires AllDisciplined(cfg, s, ys) && AllDrawn(cfg, s, ys)
    ensures AllDisciplined(cfg, s0, xs + ys) && AllDrawn(cfg, s0, xs + ys) && Stuck(Exec(cfg, s0, xs + ys))
  {
    hide Stuck, Apply, Disciplined, Timely, Drawn;
    ExecAppend(cfg, s0, xs, ys);
  }

  /** The exact condition: startExecution keeps RUNNING attempts claimed if and only if the claim is still there. */
  lemma StartKeepsClaimIff(cfg: Config, s: System, r: RunId)
    requires InvB(s) && r in s.runs && s.runs[r].point.Starting?
    ensures RunningIsClaimed(Apply(cfg, s, Advance(r, GO)).cell) <==> s.cell.record.status.Processing?
  {
    hide Finish, FinalFailureTransaction, AlreadyCompletedTransaction, InvB;
    RunFacts(s, r);
    var c' := Apply(cfg, s, Advance(r, GO)).cell;
    assert s.runs[r].attempt in c'.executions && c'.executions[s.runs[r].attempt].status.Running?;
  }

  /** Without T2 recovery of an expired RUNNING attempt is refused if and only if its claim is gone. */
  lemma RecoveryRefusedIff(s: System, k: nat, delay: nat)
    requires InvB(s) && ExpiredLease(s.cell, k, s.now)
    ensures
      var exit := RecoverExpiredExecution(s.cell, k, delay, s.now).exit;
      if s.cell.record.status.Processing? then exit.Replaced? || exit.AttemptsExhausted?
      else exit.UnexpectedRecord?
  {
    RowFacts(s);
    RunningIsNewest(s.cell, k);
    hide InvB;
  }
}
