/** The rows of the five tables, and of the queue, as far as they concern one job. */
module Rows {
  /** Milliseconds. One clock serves the database and every process. */
  type Time = int
  type WorkerId = string
  type JobId = string

  /** An execution row, by its unique (job_id, attempt). */
  type ExecutionId = (JobId, nat)

  datatype Option<+T> = None | Some(value: T)
  {
    function GetOr(default: T): T { if Some? then value else default }
  }

  datatype JobStatus = JobScheduled | JobQueued | JobRunning | JobCompleted | JobFailed | JobCancelled
  {
    predicate Terminal() { JobCompleted? || JobFailed? || JobCancelled? }
  }

  datatype AttemptStatus = Scheduled | Queued | Running | Completed | Failed | TimedOut | WorkerCrashed
  {
    predicate Terminal() { Completed? || Failed? || TimedOut? || WorkerCrashed? }

    /** Row changes still ahead of an attempt in this status. */
    function Rank(): nat {
      if Scheduled? then 3 else if Queued? then 2 else if Running? then 1 else 0
    }
  }

  datatype RecordStatus = Pending | Processing | Done

  /** `hasHandler`: the job's type is registered. It never changes, like `maxAttempts` and `runAt`. */
  datatype Job = Job(status: JobStatus, maxAttempts: nat, runAt: Time, hasHandler: bool, updatedAt: Time)

  datatype Execution = Execution(
    status: AttemptStatus,
    retryAt: Option<Time>,
    startedAt: Option<Time>,
    completedAt: Option<Time>,
    updatedAt: Time)

  datatype Record = Record(key: string, status: RecordStatus, processingStartedAt: Option<Time>)

  /** `acquisition` is a history counter: which acquisition of this lease the row stands for. */
  datatype Lease = Lease(worker: WorkerId, expiresAt: Time, acquisition: nat)

  /** What an outbox row or a queue entry points at: the job itself or one of its attempts. */
  datatype Target = JobTarget | AttemptTarget(attempt: nat)

  datatype OutboxStatus = OutboxPending | OutboxPublished

  datatype OutboxRow = OutboxRow(status: OutboxStatus, publishedAt: Option<Time>)

  datatype EntryState =
    | Waiting | Active | Delayed | Prioritized | WaitingChildren
    | EntryCompleted | EntryFailed

  /** Everything a job has in the queue: deterministic id to entry. */
  type Entries = map<Target, EntryState>

  /** History: what has happened to one job so far. `finals` is the final-state metric. */
  datatype Tally = Tally(
    claims: nat,
    resets: nat,
    successes: nat,
    finals: nat,
    starts: multiset<nat>,
    outboxed: multiset<Target>,
    published: multiset<Target>,
    unpublished: multiset<Target>)

  const NO_HISTORY := Tally(0, 0, 0, 0, multiset{}, multiset{}, multiset{}, multiset{})

  /** The rows of one job in every table, its queue entries and its history. */
  datatype Cell = Cell(
    job: Job,
    record: Record,
    executions: map<nat, Execution>,
    leases: map<nat, Lease>,
    outbox: map<Target, OutboxRow>,
    queue: Entries,
    tally: Tally)

  datatype Config = Config(leaseDuration: nat, processingTimeout: int, minAge: nat, retention: nat)
}
