/** One job under any number of schedulers and workers: states, atomic steps, runs of steps. */
module Protocol {
  import opened Rows
  import opened Statements
  import opened Runs
  import Backoff

  type RunId = nat

  /**
   * `runs`: workers in flight. `publishing`: targets some scheduler has claimed from the outbox and
   * not finished with. `suspects`: targets some reconciliation pass has selected.
   */
  datatype System = System(
    now: Time,
    cell: Cell,
    runs: map<RunId, Run>,
    publishing: set<Target>,
    suspects: set<Target>)

  /** One standalone SQL statement, one transaction, or one queue operation. */
  datatype Action =
    | Tick(ms: nat)
    | CancelJob
    | ClaimJob
    | ClaimAttempt(attempt: nat)
    | ClaimOutboxRow(target: Target)
    | Enqueue(target: Target)
    | ResetOutboxRow(target: Target)
    | EndPublish(target: Target)
    | PruneOutbox
    | QueueMove(target: Target, state: EntryState)
    | QueueDrop(target: Target)
    | SelectSuspect(target: Target)
    | RemoveTerminalEntry(target: Target)
    | Requeue(target: Target)
    | EndReconcile(target: Target)
    | Deliver(id: RunId, target: Target, worker: WorkerId)
    | Advance(id: RunId, outcome: Outcome)
    | Drop(id: RunId)
    | Renew(attempt: nat, worker: WorkerId)
    | ResetStale
    | Recover(attempt: nat, delay: nat)

  function SetRun(runs: map<RunId, Run>, r: RunId, run: Option<Run>): map<RunId, Run> {
    if run.Some? then runs[r := run.value] else runs - {r}
  }

  /** Every action is possible in every state; one whose guard fails changes nothing. */
  function Apply(cfg: Config, s: System, a: Action): System {
    var c := s.cell;
    match a
    case Tick(ms) => s.(now := s.now + ms)
    case CancelJob => s.(cell := CancelJobStatus(c, s.now))
    case ClaimJob => s.(cell := ClaimDueJob(c, s.now).GetOr(c))
    case ClaimAttempt(k) => s.(cell := ClaimDueExecution(c, k, s.now).GetOr(c))
    case ClaimOutboxRow(t) =>
      if t in c.outbox && c.outbox[t].status.OutboxPending?
      then s.(cell := ClaimOutbox(c, t, s.now), publishing := s.publishing + {t})
      else s
    case Enqueue(t) => if t in s.publishing then s.(cell := c.(queue := Add(c.queue, t))) else s
    case ResetOutboxRow(t) =>
      if t in s.publishing then s.(cell := ResetOutbox(c, t), publishing := s.publishing - {t}) else s
    case EndPublish(t) => s.(publishing := s.publishing - {t})
    case PruneOutbox => s.(cell := Prune(c, cfg.retention, s.now))
    case QueueMove(t, state) => if t in c.queue then s.(cell := c.(queue := c.queue[t := state])) else s
    case QueueDrop(t) => s.(cell := c.(queue := c.queue - {t}))
    case SelectSuspect(t) =>
      if Suspect(c, t, cfg.minAge, s.now) then s.(suspects := s.suspects + {t}) else s
    case RemoveTerminalEntry(t) =>
      if t in s.suspects then s.(cell := c.(queue := RemoveTerminal(c.queue, t))) else s
    case Requeue(t) => if t in s.suspects then s.(cell := c.(queue := Add(c.queue, t))) else s
    case EndReconcile(t) => s.(suspects := s.suspects - {t})
    case Deliver(r, t, worker) =>
      if r !in s.runs && RunnableEntry(c.queue, t) then s.(runs := SetRun(s.runs, r, Start(c, t, worker))) else s
    case Advance(r, outcome) =>
      if r in s.runs then
        var next := Step(cfg, c, s.runs[r], outcome, s.now);
        s.(cell := next.cell, runs := SetRun(s.runs, r, next.run))
      else s
    case Drop(r) => s.(runs := s.runs - {r})
    case Renew(k, worker) => s.(cell := RenewLease(c, k, worker, cfg.leaseDuration, s.now))
    case ResetStale => s.(cell := ResetStaleProcessingRecord(c, cfg.processingTimeout, s.now))
    case Recover(k, delay) => s.(cell := RecoverExpiredExecution(c, k, delay, s.now).cell)
  }

  /** The job right after createJobWithIdempotency. */
  function Created(job: Job, key: string, now: Time): System {
    System(now, Cell(job, Record(key, Pending, None), map[], map[], map[], map[], NO_HISTORY), map[], {}, {})
  }

  predicate FreshJob(job: Job) { job.status.JobScheduled? && job.maxAttempts >= 1 }

  /** The run's own lease acquisition is the current one and has not expired. */
  predicate Holds(s: System, r: RunId)
    requires r in s.runs
  {
    var run := s.runs[r];
    Current(s.cell, run) && s.cell.leases[run.attempt].expiresAt > s.now
  }

  predicate Current(c: Cell, run: Run) {
    run.point.Leased() && run.attempt in c.leases && c.leases[run.attempt].acquisition == run.acquisition
  }

  /** Tier B: a run writes only while it holds its lease. */
  predicate Disciplined(s: System, a: Action) {
    a.Advance? && a.id in s.runs && s.runs[a.id].point.LeasedWrite() ==> Holds(s, a.id)
  }

  /** T2: startExecution follows the claim within the idempotency timeout. */
  predicate Timely(cfg: Config, s: System, a: Action) {
    a.Advance? && a.id in s.runs && s.runs[a.id].point.Starting? ==>
      s.now <= s.runs[a.id].claimedAt + cfg.processingTimeout
  }

  /** The delay of a retry, or of a replacement, is one that the backoff draws. */
  predicate Drawn(s: System, a: Action) {
    && (a.Recover? ==> Backoff.Drawn(a.attempt, a.delay))
    && (a.Advance? && !a.outcome.Succeeded? && a.id in s.runs ==>
          Backoff.Drawn(s.runs[a.id].attempt, a.outcome.delay))
  }

  function Exec(cfg: Config, s: System, acts: seq<Action>): System
    decreases |acts|
  {
    if acts == [] then s else Exec(cfg, Apply(cfg, s, acts[0]), acts[1..])
  }

  predicate AllDisciplined(cfg: Config, s: System, acts: seq<Action>)
    decreases |acts|
  {
    acts == [] || (Disciplined(s, acts[0]) && AllDisciplined(cfg, Apply(cfg, s, acts[0]), acts[1..]))
  }

  predicate AllTimely(cfg: Config, s: System, acts: seq<Action>)
    decreases |acts|
  {
    acts == [] || (Timely(cfg, s, acts[0]) && AllTimely(cfg, Apply(cfg, s, acts[0]), acts[1..]))
  }

  predicate AllDrawn(cfg: Config, s: System, acts: seq<Action>)
    decreases |acts|
  {
    acts == [] || (Drawn(s, acts[0]) && AllDrawn(cfg, Apply(cfg, s, acts[0]), acts[1..]))
  }

  lemma {:induction false} ExecAppend(cfg: Config, s: System, xs: seq<Action>, ys: seq<Action>)
    ensures Exec(cfg, s, xs + ys) == Exec(cfg, Exec(cfg, s, xs), ys)
    ensures AllDisciplined(cfg, s, xs + ys) ==
            (AllDisciplined(cfg, s, xs) && AllDisciplined(cfg, Exec(cfg, s, xs), ys))
    ensures AllTimely(cfg, s, xs + ys) ==
            (AllTimely(cfg, s, xs) && AllTimely(cfg, Exec(cfg, s, xs), ys))
    ensures AllDrawn(cfg, s, xs + ys) ==
            (AllDrawn(cfg, s, xs) && AllDrawn(cfg, Exec(cfg, s, xs), ys))
    decreases |xs|
  {
    if xs == [] {
      assert xs + ys == ys;
    } else {
      assert (xs + ys)[1..] == xs[1..] + ys;
      ExecAppend(cfg, Apply(cfg, s, xs[0]), xs[1..], ys);
    }
  }
}
