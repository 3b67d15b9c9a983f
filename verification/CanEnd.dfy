/**
 * Tier B without T2: from exactly which states a job can still be brought to a terminal status.
 */
module CanEnd {
  import opened Rows
  import opened Statements
  import opened Runs
  import opened Protocol
  import opened EveryInterleaving
  import opened LeaseDiscipline
  import opened Timeliness
  import opened NeverStuck
  import opened LateRuns
  import Backoff

  /** A run whose way out ends the job, whatever the record says. */
  predicate EndsJob(c: Cell, run: Run) {
    && run.point.Started()
    && (|| run.point.ClosingUnhandled?
        || (run.point.StartingJob? && !c.job.hasHandler)
        || run.attempt >= c.job.maxAttempts)
  }

  /** An attempt runs without its claim, and no run that holds its lease is on such a way out. */
  ghost predicate Hopeless(s: System) {
    && HasRunning(s.cell.executions)
    && s.cell.record.status.Pending?
    && forall r :: r in s.runs && Holds(s, r) ==> !EndsJob(s.cell, s.runs[r])
  }

  // ---- hopeless is for ever

  lemma HopelessFacts(s: System)
    requires InvB(s) && HasRunning(s.cell.executions)
    ensures 1 in s.cell.executions && !s.cell.job.status.Terminal() && !s.cell.job.status.JobScheduled?
    ensures forall k :: k in s.cell.executions ==>
      !s.cell.executions[k].status.Scheduled? && !s.cell.executions[k].status.Queued?
  {
    RowFacts(s);
    var k :| k in s.cell.executions && s.cell.executions[k].status.Running?;
    RunningIsNewest(s.cell, k);
    hide InvB;
  }

  lemma HopelessOutcome(c: Cell, k: nat, outcome: Outcome, now: Time)
    requires c.record.status.Pending? && k < c.job.maxAttempts
    ensures Finish(c, k, c.job.maxAttempts, outcome, now) == c
  {
  }

  /** Nothing that a hopeless state depends on, and no status of the job that ends it. */
  ghost predicate Barren(c: Cell, c': Cell) {
    && c'.executions == c.executions && c'.record == c.record
    && c'.job == c.job.(status := c'.job.status, updatedAt := c'.job.updatedAt)
    && (!c.job.status.Terminal() && !c.job.status.JobScheduled? ==>
          !c'.job.status.Terminal() && !c'.job.status.JobScheduled?)
  }

  lemma HopelessStep(cfg: Config, s: System, r: RunId, outcome: Outcome)
    requires InvB(s) && Hopeless(s) && r in s.runs && Disciplined(s, Advance(r, outcome))
    ensures
      var next := Step(cfg, s.cell, s.runs[r], outcome, s.now);
      && Barren(s.cell, next.cell) && next.cell.leases == s.cell.leases
      && (next.run.Some? ==> !EndsJob(next.cell, next.run.value))
  {
    hide InvB, Finish, FinalFailureTransaction, AlreadyCompletedTransaction, Holds;
    var c, run := s.cell, s.runs[r];
    HopelessFacts(s);
    RunFacts(s, r);
    if run.point.LeasedWrite() {
      LegalWriteFindsNewest(s, r);
      if run.point.Handling? {
        HopelessOutcome(c, run.attempt, outcome, s.now);
      }
    }
  }

  /** A lease unexpired afterwards was so before, under the same acquisition. */
  ghost predicate NoNewLease(c: Cell, c': Cell, now: Time, now': Time) {
    forall k :: k in c'.leases ==>
      && k in c.leases && c.leases[k].acquisition == c'.leases[k].acquisition
      && (c'.leases[k].expiresAt > now' ==> c.leases[k].expiresAt > now)
  }

  lemma HopelessApply(cfg: Config, s: System, a: Action)
    requires InvB(s) && Hopeless(s) && Disciplined(s, a)
    ensures
      var s' := Apply(cfg, s, a);
      Barren(s.cell, s'.cell) && NoNewLease(s.cell, s'.cell, s.now, s'.now)
  {
    hide InvB, Step, RecoverExpiredExecution, HasRunning, Suspect, Start, ClaimOutbox, ResetOutbox, Prune;
    HopelessFacts(s);
    if a.Advance? && a.id in s.runs {
      HopelessStep(cfg, s, a.id, a.outcome);
    } else if a.Recover? {
      StuckRecoversInVain(s.cell, a.attempt, a.delay, s.now);
    } else if OnlyOutboxOrQueue(a) {
      OutboxAndQueueAlone(cfg, s, a);
      TimeMovesOn(cfg, s, a);
    }
  }

  lemma ApplyKeepsHopeless(cfg: Config, s: System, a: Action)
    requires InvB(s) && Hopeless(s) && Disciplined(s, a)
    ensures Hopeless(Apply(cfg, s, a))
  {
    hide InvB, Apply, Step, HasRunning, Disciplined;
    var s' := Apply(cfg, s, a);
    HopelessApply(cfg, s, a);
    forall r | r in s'.runs && Holds(s', r)
      ensures !EndsJob(s'.cell, s'.runs[r])
    {
      WhereRunsComeFrom(cfg, s, a, r);
      if a.Advance? && a.id == r {
        HopelessStep(cfg, s, r, a.outcome);
      }
    }
  }

  lemma {:induction false} HopelessForEver(cfg: Config, s: System, acts: seq<Action>)
    requires InvB(s) && Hopeless(s) && AllDisciplined(cfg, s, acts)
    ensures !Exec(cfg, s, acts).cell.job.status.Terminal()
    decreases |acts|
  {
    HopelessFacts(s);
    hide InvB, Hopeless, Apply, Disciplined;
    if acts != [] {
      ApplyKeepsHopeless(cfg, s, acts[0]);
      ApplyKeepsInvB(cfg, s, acts[0]);
      HopelessForEver(cfg, Apply(cfg, s, acts[0]), acts[1..]);
    }
  }

  // ---- from every other state the job can be ended

  /** Long enough for every claim of a run in flight to be out of time. */
  lemma {:induction false} LongAfter(runs: map<RunId, Run>, timeout: int, now: Time) returns (ms: nat)
    ensures forall r :: r in runs ==> runs[r].claimedAt + timeout < now + ms
    decreases runs.Keys
  {
    if runs == map[] {
      ms := 0;
    } else {
      var r :| r in runs;
      var rest := runs - {r};
      var least := LongAfter(rest, timeout, now);
      assert forall q :: q in runs && q != r ==> q in rest && rest[q] == runs[q];
      ms := least + Distance(runs[r].claimedAt + timeout, now) + 1;
    }
  }

  /** Once all claims in flight are out of time, an attempt that has its claim is all T2 asks for. */
  lemma LateButClaimed(cfg: Config, s: System)
    requires InvB(s) && RunningIsClaimed(s.cell)
    requires forall r :: r in s.runs ==> s.runs[r].claimedAt + cfg.processingTimeout < s.now
    ensures InvT(cfg, s)
  {
    hide InvB;
  }

  lemma EndClaimed(cfg: Config, s: System) returns (acts: seq<Action>)
    requires InvB(s) && RunningIsClaimed(s.cell) && cfg.leaseDuration > 0 && cfg.processingTimeout >= 0
    ensures AllDisciplined(cfg, s, acts) && AllDrawn(cfg, s, acts) && Exec(cfg, s, acts).cell.job.status.Terminal()
  {
    hide InvB, InvT, RunningIsClaimed;
    var ms := LongAfter(s.runs, cfg.processingTimeout, s.now);
    Wait(cfg, s, ms);
    var s1 := s.(now := s.now + ms);
    ApplyKeepsInvB(cfg, s, Tick(ms));
    LateButClaimed(cfg, s1) by { SameCellClaimed(s, s1); }
    var rest, s2 := FinishJobSomehow(cfg, s1);
    PathAppend(cfg, s, [Tick(ms)], s1, rest, s2);
    acts := [Tick(ms)] + rest;
  }

  lemma SameCellClaimed(s: System, s': System)
    requires RunningIsClaimed(s.cell) && s'.cell == s.cell
    ensures RunningIsClaimed(s'.cell)
  {
  }

  /** The way out taken: the outcome is a failure with a delay that is drawn. */
  lemma WayOut(cfg: Config, s: System, r: RunId) returns (outcome: Outcome)
    requires InvB(s) && r in s.runs && Holds(s, r) && EndsJob(s.cell, s.runs[r]) && !s.runs[r].point.StartingJob?
    ensures Drawn(s, Advance(r, outcome)) && Apply(cfg, s, Advance(r, outcome)).cell.job.status.Terminal()
  {
    hide InvB, SuccessTransaction, RetryTransaction, AlreadyCompletedTransaction;
    var k := s.runs[r].attempt;
    RunFacts(s, r);
    LegalWriteFindsNewest(s, r);
    RowFacts(s);
    RunningFirst(s.cell, k);
    hide RowsAgree;
    Backoff.CappedDelays(k);
    outcome := Threw(Backoff.CappedDelay(k));
  }

  lemma RunningFirst(c: Cell, k: nat)
    requires RowsAgree(c) && k in c.executions && c.executions[k].status.Running?
    ensures k >= 1 && !c.job.status.Terminal()
  {
    RunningIsNewest(c, k);
  }

  lemma NextIsWayOut(cfg: Config, s: System, r: RunId)
    requires InvB(s) && r in s.runs && Holds(s, r) && EndsJob(s.cell, s.runs[r]) && s.runs[r].point.StartingJob?
    ensures
      var s' := Apply(cfg, s, Advance(r, GO));
      r in s'.runs && Holds(s', r) && EndsJob(s'.cell, s'.runs[r]) && !s'.runs[r].point.StartingJob?
  {
    hide InvB, Finish, FinalFailureTransaction, AlreadyCompletedTransaction;
  }

  lemma OneAction(cfg: Config, s: System, a: Action)
    requires Disciplined(s, a) && Drawn(s, a)
    ensures AllDisciplined(cfg, s, [a]) && AllDrawn(cfg, s, [a]) && Exec(cfg, s, [a]) == Apply(cfg, s, a)
  {
    hide Apply, Disciplined, Drawn;
    assert [a][1..] == [];
    var s' := Apply(cfg, s, a);
    assert Exec(cfg, s', []) == s' && AllDisciplined(cfg, s', []) && AllDrawn(cfg, s', []);
  }

  lemma EndByRun(cfg: Config, s: System, r: RunId) returns (acts: seq<Action>)
    requires InvB(s) && r in s.runs && Holds(s, r) && EndsJob(s.cell, s.runs[r])
    ensures AllDisciplined(cfg, s, acts) && AllDrawn(cfg, s, acts) && Exec(cfg, s, acts).cell.job.status.Terminal()
  {
    hide InvB, Apply, Holds;
    if s.runs[r].point.StartingJob? {
      var s1 := Apply(cfg, s, Advance(r, GO));
      NextIsWayOut(cfg, s, r);
      ApplyKeepsInvB(cfg, s, Advance(r, GO));
      var outcome := WayOut(cfg, s1, r);
      OneAction(cfg, s, Advance(r, GO));
      OneAction(cfg, s1, Advance(r, outcome));
      ExecAppend(cfg, s, [Advance(r, GO)], [Advance(r, outcome)]);
      acts := [Advance(r, GO)] + [Advance(r, outcome)];
    } else {
      var outcome := WayOut(cfg, s, r);
      OneAction(cfg, s, Advance(r, outcome));
      acts := [Advance(r, outcome)];
    }
  }

  lemma UnclaimedMeansPending(s: System)
    requires InvB(s) && !RunningIsClaimed(s.cell)
    ensures HasRunning(s.cell.executions) && s.cell.record.status.Pending?
  {
    HopelessFacts(s);
    RowFacts(s);
    hide InvB;
  }

  /** The exact condition: under lease discipline the job can be ended if and only if it is not hopeless. */
  lemma CanEndIff(cfg: Config, s: System)
    requires InvB(s) && cfg.leaseDuration > 0 && cfg.processingTimeout >= 0
    ensures (exists acts :: AllDisciplined(cfg, s, acts) && Exec(cfg, s, acts).cell.job.status.Terminal())
            <==> !Hopeless(s)
    ensures !Hopeless(s) ==>
      exists acts ::
        AllDisciplined(cfg, s, acts) && AllDrawn(cfg, s, acts) && Exec(cfg, s, acts).cell.job.status.Terminal()
  {
    if Hopeless(s) {
      forall acts | AllDisciplined(cfg, s, acts)
        ensures !Exec(cfg, s, acts).cell.job.status.Terminal()
      {
        HopelessForEver(cfg, s, acts);
      }
    } else {
      hide InvB, Holds, EndsJob, Apply, Disciplined, Drawn;
      if RunningIsClaimed(s.cell) {
        var acts := EndClaimed(cfg, s);
      } else {
        UnclaimedMeansPending(s);
        var r :| r in s.runs && Holds(s, r) && EndsJob(s.cell, s.runs[r]);
        var acts := EndByRun(cfg, s, r);
      }
    }
  }

  /** A stuck state, which discipline does not help either, is one of the hopeless ones. */
  lemma StuckIsHopeless(s: System)
    requires Stuck(s)
    ensures Hopeless(s)
  {
  }

  /** Over whole runs: after any disciplined run of a new job. */
  lemma NewJobCanEndIff(cfg: Config, job: Job, key: string, now: Time, before: seq<Action>)
    requires FreshJob(job) && cfg.leaseDuration > 0 && cfg.processingTimeout >= 0
    requires AllDisciplined(cfg, Created(job, key, now), before)
    ensures
      (exists after ::
        && AllDisciplined(cfg, Created(job, key, now), before + after)
        && Exec(cfg, Created(job, key, now), before + after).cell.job.status.Terminal())
      <==> !Hopeless(Exec(cfg, Created(job, key, now), before))
  {
    hide InvB, Hopeless, Apply, Disciplined;
    var s0 := Created(job, key, now);
    var s := Exec(cfg, s0, before);
    CreatedInvB(job, key, now);
    ReachableInvB(cfg, s0, before);
    CanEndIff(cfg, s);
    if Hopeless(s) {
      forall after | AllDisciplined(cfg, s0, before + after)
        ensures !Exec(cfg, s0, before + after).cell.job.status.Terminal()
      {
        ExecAppend(cfg, s0, before, after);
      }
    } else {
      var after :| AllDisciplined(cfg, s, after) && Exec(cfg, s, after).cell.job.status.Terminal();
      ExecAppend(cfg, s0, before, after);
    }
  }
}
