/** Tier B: the properties of every run in which runs write only while they hold their lease. */
module DisciplinedRun {
  import opened Rows
  import opened Runs
  import opened Protocol
  import opened EveryInterleaving
  import opened LeaseDiscipline

  // ---- handler exclusion

  /** Holding its lease, between startExecution and the outcome transaction. */
  predicate InHandler(s: System, r: RunId) {
    r in s.runs && s.runs[r].point.Started() && Holds(s, r)
  }

  /** At most one run of a job is in its handler. */
  lemma HandlerExclusion(s: System, r: RunId, q: RunId)
    requires InvB(s) && InHandler(s, r) && InHandler(s, q)
    ensures r == q
  {
    LegalWriteFindsNewest(s, r);
    LegalWriteFindsNewest(s, q);
    assert r != q ==> Apart(s.runs[r], s.runs[q]);
  }

  /**
   * What a run may meet when it writes: it is at the newest attempt, on a job that is not over and a
   * record that is not COMPLETED; startExecution finds its row QUEUED; the branches for a terminal job
   * and for a COMPLETED record are out of reach.
   */
  lemma LegalWriteMeets(s: System, r: RunId)
    requires InvB(s) && r in s.runs && s.runs[r].point.LeasedWrite() && Holds(s, r)
    ensures
      var run, c := s.runs[r], s.cell;
      && run.attempt == |c.executions| && run.attempt in c.executions
      && (if run.point.Started() then c.executions[run.attempt].status.Running?
          else c.executions[run.attempt].status.Queued?)
      && !c.job.status.Terminal() && !c.record.status.Done?
      && !run.point.ClosingStranded? && !run.point.ClosingCompleted?
  {
    LegalWriteFindsNewest(s, r);
    RowFacts(s);
  }

  lemma {:induction false} FewerThanKeys(m: multiset<nat>, keys: set<nat>)
    requires forall k :: m[k] <= 1
    requires forall k :: k in m ==> k in keys
    ensures |m| <= |keys|
  {
    if keys == {} {
      assert m == multiset{};
    } else {
      var k :| k in keys;
      assert m == m[k := 0] + multiset{k}[k := m[k]];
      FewerThanKeys(m[k := 0], keys - {k});
    }
  }

  /** In every disciplined run: each attempt's handler starts at most once, so max_attempts bounds all starts. */
  lemma HandlerStartsBounded(cfg: Config, job: Job, key: string, now: Time, acts: seq<Action>)
    requires FreshJob(job) && AllDisciplined(cfg, Created(job, key, now), acts)
    ensures
      var c := Exec(cfg, Created(job, key, now), acts).cell;
      && (forall k :: c.tally.starts[k] <= 1)
      && |c.tally.starts| <= |c.executions| <= c.job.maxAttempts
  {
    var s := Created(job, key, now);
    CreatedInvB(job, key, now);
    ReachableInvB(cfg, s, acts);
    var c := Exec(cfg, s, acts).cell;
    assert StartedRows(c) && AttemptChain(c);
    hide InvB, Apply, Step;
    FewerThanKeys(c.tally.starts, c.executions.Keys);
    assert |c.executions.Keys| == |c.executions|;
  }

  /** In every disciplined run: job, record and newest attempt agree, older attempts are over. */
  lemma JobAttemptAgreement(cfg: Config, job: Job, key: string, now: Time, acts: seq<Action>)
    requires FreshJob(job) && AllDisciplined(cfg, Created(job, key, now), acts)
    ensures
      var c := Exec(cfg, Created(job, key, now), acts).cell;
      var n := |c.executions|;
      && (forall k :: k in c.executions && k < n ==> c.executions[k].status.Terminal())
      && (n > 0 ==>
            && n in c.executions
            && (c.job.status.Terminal() <==> c.executions[n].status.Terminal())
            && (c.job.status.JobCompleted? <==> c.executions[n].status.Completed?))
      && (c.record.status.Done? <==> c.job.status.JobCompleted?)
      && (forall k :: k in c.executions && c.executions[k].status.Running? ==> k in c.leases)
  {
    var s := Created(job, key, now);
    CreatedInvB(job, key, now);
    ReachableInvB(cfg, s, acts);
    RowFacts(Exec(cfg, s, acts));
    hide InvB, Apply, Step;
  }
}
