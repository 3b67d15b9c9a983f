# Zolt's job and execution protocol, verified

Zolt schedules jobs over five Postgres tables (jobs, executions, idempotency_records, leases, outbox)
and a BullMQ queue. API calls, several schedulers and several workers change them concurrently, and any
of them may crash between two statements. Correctness rests on four mechanisms that overlap: row-guarded
updates, the unique (job_id, attempt) constraint, the idempotency claim, and leases with recovery. This
project models the protocol statement by statement and proves what the mechanisms guarantee together.

`dafny verify dfyconfig.toml` checks everything.

## How the model is laid out

- `Rows`, `Statements`: the rows that belong to one job (a `Cell`), and what each SQL statement, and each
  transaction made of them, does to them. A statement of the protocol names rows of one job only, so a
  cell is the unit of state. Executions are identified by their unique (job, attempt) pair, queue entries
  by what they point at, which is what the deterministic queue ids encode. `Lease.acquisition` and `Tally`
  are history: which acquisition a lease row stands for, and how often things have happened.
- `Runs`, `Protocol`: a worker's call between its awaits (twelve points, with the snapshots it carries), and
  the state machine of one job: 21 actions, each one statement, one transaction or one queue operation.
  Any action may come at any time; a run may be dropped at any point, which stands for a crash, for an
  aborted transaction and for an error. `Exec` runs any sequence of actions.
- `Steps`: what each action, and each statement of a run, does in every state, spelled out in the terms of the
  source's WHERE and SET clauses: when it changes something, what then, and that it changes nothing else.
- `Effects`: the few ways in which any statement can move the rows. Whole-run proofs rest on these.
- **Tier A, every interleaving** (`EveryInterleaving`, `AnyRun`, `OnTime`, `JobHistory`, `SchedulerOrder`): runs may go on writing
  after their lease has expired.
- **Tier B, lease discipline** (`LeaseDiscipline`, `DisciplinedRun`, `Lifecycle`): a run writes only while the
  lease acquisition it made is the current one and unexpired (`Disciplined`).
- **T2** (`Timeliness`, `NeverStuck`): besides, startExecution follows the claim within the idempotency
  timeout (`Timely`).
- `LateRuns` shows with runs of every new job that neither assumption can be dropped; `LateSuccess` adds a
  success that comes too late; `CanEnd` gives the exact condition under which a job can still be ended without
  T2, and `PassOrder` a run that shows the order of the scheduler's passes. `Heartbeat` shows that renewing in
  time discharges the lease assumption.
- `World`, `EveryJobEnds`: any number of jobs under one clock; each goes through a run of its own state machine,
  and all of them can be ended.
- `Database`, `ExecutionService`, `SchedulerService`, `QueueReconciliation`, `Renewals`, `Submission`, and the
  class in `Heartbeat`: the imperative code over mutable rows, proved equal to the functions above;
  `Batches` and `DueBatches` say what the loops over many jobs' rows come to.
- `Backoff`: the retry arithmetic. `Drawn` says that the delay of a retry or a replacement is one it yields, and
  every run that is constructed here keeps to that.

## What was found

- failedExecution, successExecution, startExecution and timedOutExecution have no status guard. Without lease
  discipline a terminal execution can go back to RUNNING (`LateStartReachable`), by that one statement only
  (`TerminalUnlessLateStart`), and a late run can replace one terminal status by another. `TerminalStatusChangesIff`
  says exactly when. A success that comes late, for instance, makes a crashed attempt COMPLETED on the claim of its
  successor, and the job with it (`LateSuccessReachable`, `LateSuccessCommits`). With lease discipline, terminal
  rows never change (`RunsSpend`).
- A run that keeps its lease by heartbeat but starts its execution after the stale-claim reset leaves a
  RUNNING attempt without a claim (`StuckReachable`). The job can then be ended if and only if a run that holds its
  lease is on a way out that does not need the claim: at its last attempt, or without a handler (`CanEndIff`). A live
  handler of an earlier attempt does not help: none of its outcomes can commit, and recovery refuses the attempt.
- Recovery's COMPLETED branch, whenever it is taken, commits and then throws, because its log line reads a
  property of a row that successJob did not return (`CompletedBranchThrows`). A late start leads there
  (`CompletedBranchReachable`). In the same way a run without a handler that finds the job terminal throws before it
  unregisters (`ExecutionRun.Conclude`, `UnhandledTooLateReachable`). Under lease discipline neither happens
  (`RecoveryRefusedIff`, `DisciplinedCallUnregisters`).
- A claim that is already stale on an expired last attempt stays PROCESSING if the stale-claim pass goes before the
  expired-lease pass, and becomes PENDING otherwise. In every other state the order of the passes shows nowhere
  (`RecordsDifferIff`); every job can get into this one (`RecordsDifferReachable`).
- The comment in retry.utils.ts speaks of full jitter between 0 and the cap. The code adds up to half the
  capped delay on top of it; the model follows the code. The repository's README describes an earlier version
  without leases, retries or RUNNING; the model follows the code there too.

## Assumptions

Every statement and every transaction is atomic; FOR UPDATE and SKIP LOCKED serialise claims, and which rows
a LIMIT picks is left open; there is one clock; re-adding an id the queue holds changes nothing and addBulk
is all or nothing; deliveries may repeat; entries of the queue may change state or vanish at any moment;
max_attempts is at least 1; job ids and generated keys are fresh. `NeverStuck` needs a positive lease duration
and a timeout that is not negative, and a process that stops renewing the lease of a run that has died: an
error thrown outside the try blocks of executeExistingExecution leaves the execution registered, so its
lease lives as long as that process keeps its heartbeat.

## Model

| member | source | states |
|---|---|---|
| `AnyRun.EveryReachableState` | src/modules/executions/execution.repository.ts:5-64 | In every state any interleaving reaches: the attempts are exactly 1..n with n <= max_attempts and only n may be SCHEDULED or QUEUED; claims = resets + (0 if PENDING else 1); handler starts <= claims; one success exactly when the record is COMPLETED; job COMPLETED implies record COMPLETED, which implies job COMPLETED or FAILED; the final-state count is 1 exactly when the job is terminal; a SCHEDULED or CANCELLED job has no execution, outbox row, queue entry or run; per outbox row publications = resets + (1 if PUBLISHED else 0), and each target is outboxed at most once |
| `EveryInterleaving.ApplyKeepsInv` | src/modules/executions/execution.service.ts:46-912 | Each of the 21 actions, taken in any state that has the Tier A invariant, keeps it: attempt chain, snapshots of all runs in flight, nothing before the claim, outbox and publishing accounts, claim accounts, final-state count, starts paid for by claims |
| `EveryInterleaving.ReachableInv` | src/modules/executions/execution.service.ts:46-912 | So every sequence of actions keeps it |
| `AnyRun.OnlyOnward` | src/modules/jobs/jobs.repository.ts:210-281 | Over any run no job goes back from a later status to SCHEDULED, QUEUED or RUNNING, none but a SCHEDULED one becomes CANCELLED, a terminal status and a COMPLETED record never change, no attempt disappears |
| `OnTime.NothingHappensEarly` | src/modules/scheduler/scheduler.repository.ts:34-108 | In every state any interleaving reaches: a job neither SCHEDULED nor CANCELLED has reached its run time; an attempt with a retry time that is not SCHEDULED has reached that time; both hold for every attempt whose handler was ever started |
| `OnTime.ApplyKeepsOnTime` | src/modules/scheduler/scheduler.repository.ts:34-108 | Every action keeps the invariant behind that: also that runs lease, and handlers start on, attempts that have left SCHEDULED |
| `Steps.ClaimingJob` | src/modules/scheduler/scheduler.repository.ts:34-69 | A job is queued, with updated_at now and its PENDING outbox row, exactly when it is SCHEDULED and run_at <= now; otherwise nothing changes |
| `Steps.ClaimingAttempt` | src/modules/scheduler/scheduler.repository.ts:72-108 | An execution is queued, likewise, exactly when it is SCHEDULED and retry_at <= now; otherwise nothing changes |
| `Steps.Cancelling` | src/modules/jobs/jobs.repository.ts:210-225 | A SCHEDULED job becomes CANCELLED, with updated_at now and one more final state counted; any other job stays as it is |
| `JobHistory.CancelledForEver` | src/modules/jobs/jobs.service.ts:99-119 | After a cancellation that finds the job SCHEDULED, whatever came before, every continuation leaves it CANCELLED, counted once, without execution, outbox row, queue entry, run or handler start |
| `Steps.StartingTheJob` | src/modules/executions/execution.service.ts:245-249 | startJob makes a QUEUED job RUNNING with updated_at now and leaves any other; then the handler begins, counted, exactly if there is one |
| `JobHistory.HandledJobsAreRunning` | src/modules/jobs/jobs.repository.ts:264-281 | In every state any interleaving reaches, while a run is in its handler, and for ever once a handler was started, the job is RUNNING, COMPLETED or FAILED; so reconciliation never selects it |
| `Steps.Acquiring` | src/modules/leases/leases.repository.ts:6-92 | A run acquires the lease exactly when its execution is QUEUED and no lease of it is unexpired; the lease is then its worker's and expires exactly one duration from now |
| `Steps.Renewing` | src/modules/leases/leases.repository.ts:124-144 | A renewal takes exactly an unexpired lease of that very worker to one duration from now; by any other worker, or too late, it changes nothing |
| `JobHistory.UnrenewedExpires` | src/modules/leases/leases.repository.ts:45-48 | In every interleaving without a renewal by its worker a lease row keeps its expiry, until it is acquired anew after that expiry |
| `Steps.ResettingStale` | src/modules/idempotency/idempotency.repository.ts:145-159 | The claim is released exactly when it is PROCESSING, older than the timeout, and no execution is RUNNING |
| `Steps.Pruning` | src/modules/outbox/outbox.repository.ts:79-91 | Pruning deletes exactly the rows PUBLISHED longer ago than the retention |
| `JobHistory.OnlyOldRowsGo` | src/modules/outbox/outbox.repository.ts:79-91 | In every state a row leaves the outbox under no other action, and only if it is that old |
| `Steps.Selecting` | src/modules/queue-reconciliation/queue-reconciliation.repository.ts:5-36 | A row is a suspect exactly when it is QUEUED and was updated longer ago than the minimum age |
| `Steps.Requeueing` | src/infrastructure/queue/queue.ts:120-157 | Removal and requeueing leave a suspect's waiting, active, delayed, prioritized or waiting-children entry as it is, and make an absent, completed or failed one waiting |
| `Steps.Delivering` | src/workers/worker.ts:29-104 | An entry delivered for a job starts a run unless the job is terminal; one delivered for an execution always does |
| `Steps.FailingFinally` | src/modules/executions/execution.service.ts:404-610 | The last failure allowed makes the execution FAILED or TIMED_OUT and fails the job unless it is terminal, in every state; the claim stays |
| `Steps.ClosingAStrandedAttempt` | src/modules/executions/execution.service.ts:143-178 | The execution, and nothing else, becomes FAILED |
| `AnyRun.RetryCommitsIff` | src/modules/executions/execution.service.ts:329-358 | A retry transaction commits exactly when the claim is still PROCESSING and its attempt is the newest; then it closes k, schedules k + 1 at the backoff time and releases the claim; otherwise it changes nothing at all, so a late retry rolls back whole on the unique constraint |
| `AnyRun.SuccessCommitsIff` | src/modules/executions/execution.service.ts:615-671 | A success transaction commits exactly when the claim is still PROCESSING; then execution and record are COMPLETED, the job too unless it is terminal, and successes and final states so far are one each; otherwise it changes nothing at all |
| `AnyRun.OutboxNeverCollides` | src/modules/scheduler/scheduler.repository.ts:34-108 | In every reachable state a SCHEDULED job has no outbox row and both claim steps satisfy the unique outbox constraints |
| `AnyRun.ResetSparesRunning` | src/modules/idempotency/idempotency.repository.ts:112-159 | The stale-claim reset does nothing to a job with a RUNNING execution, and never touches executions |
| `AnyRun.TerminalUnlessLateStart` | src/modules/executions/execution.repository.ts:67-185 | Terminal executions stay terminal under an action if and only if the action is not startExecution by a run whose attempt is terminal already |
| `LateRuns.LateStartReachable` | src/modules/executions/execution.repository.ts:152-167 | For every new job there is a legal run after which such a late start is the next write: the property is false without lease discipline |
| `AnyRun.TerminalStatusChangesIff` | src/modules/executions/execution.repository.ts:67-212 | In every interleaving an action changes the status of a terminal execution if and only if it is the step of a run at that attempt which writes another status; which one it writes depends on point, outcome, whether the claim is PROCESSING, and whether the attempt is the newest |
| `LateSuccess.LateSuccessReachable` | src/modules/executions/execution.service.ts:615-671 | Every new job with a handler and at least two attempts has a legal run after which the first attempt is WORKER_CRASHED with its handler still on, while the second one holds the claim |
| `LateSuccess.LateSuccessCommits` | src/modules/executions/execution.service.ts:615-671 | The success of that handler then completes the crashed attempt, the record and the job, and leaves the second attempt as it is |
| `LateRuns.CompletedBranchReachable` | src/modules/executions/execution.service.ts:719-762 | Every new job with a handler has a run after which recovery takes its COMPLETED branch |
| `LateRuns.UnhandledTooLateReachable` | src/modules/executions/execution.service.ts:249-312 | Every new job without a handler has a run after which a run is about to close its attempt as unhandled, the job being terminal |
| `LeaseDiscipline.ApplyKeepsInvB` | src/modules/leases/leases.repository.ts:6-92 | Under lease discipline every action keeps: older attempts terminal, job and record following the newest attempt, RUNNING attempts leased, each run holding a current acquisition where it left its attempt (or found crashed after expiry), no acquisition shared, each handler started at most once |
| `LeaseDiscipline.ReachableInvB` | src/modules/leases/leases.repository.ts:6-92 | So every disciplined run keeps it |
| `DisciplinedRun.HandlerExclusion` | src/modules/executions/execution.service.ts:231-324 | Two runs that hold their leases between startExecution and the outcome transaction are the same run |
| `DisciplinedRun.LegalWriteMeets` | src/modules/executions/execution.service.ts:133-245 | A run that may write is at the newest attempt of an unfinished job; startExecution finds its row QUEUED, later writes find it RUNNING; the terminal-job branch and the ALREADY_COMPLETED branch are out of reach |
| `DisciplinedRun.HandlerStartsBounded` | src/modules/executions/execution.service.ts:324 | In every disciplined run each attempt's handler starts at most once and all starts together are at most max_attempts |
| `DisciplinedRun.JobAttemptAgreement` | src/modules/executions/execution.service.ts:615-626 | In every disciplined run attempts below the newest are terminal, the job is terminal exactly when its newest attempt is, COMPLETED matches COMPLETED, the record is COMPLETED exactly when the job is, RUNNING executions have lease rows |
| `Lifecycle.ApplyRefines` | src/modules/executions/execution.service.ts:88-672 | Refinement: each legal action is a stutter or one step of Waiting to Cancelled or Attempt(1), Attempt(k) to Attempt(k+1) if k < max_attempts, Attempt(k) to Completed(k) or Failed(k) |
| `Lifecycle.RunsRefine` | src/modules/executions/execution.service.ts:677-912 | The lives a disciplined run goes through form a run of that machine and end at the life of the final rows, through crashes, aborts, repeated deliveries and recovery |
| `Lifecycle.NewJobRefines` | src/modules/executions/execution.service.ts:46-912 | For every new job and every disciplined run, the lives are a run of the simple machine that starts at Waiting and ends as COMPLETED, FAILED or CANCELLED exactly when the job does |
| `Lifecycle.LifeMeans` | src/modules/executions/execution.service.ts:615-626 | Completed, Failed and Cancelled lives are jobs of that status; Waiting is no execution yet; otherwise the life names the newest attempt |
| `Lifecycle.ApplySpends` | src/modules/executions/execution.repository.ts:67-212 | Every legal action keeps terminal rows as they are, and lowers the lexicographic budget (max_attempts - n, rank of the newest status) if it changes any execution row |
| `Lifecycle.RunsSpend` | src/modules/executions/execution.repository.ts:67-212 | Over a run, row changes plus remaining budget never exceed the budget at the start; terminal rows never change |
| `Lifecycle.RowChangesBounded` | src/modules/executions/execution.repository.ts:5-212 | A job sees at most 4 * max_attempts changes of its execution rows, counted as the places in the run where the rows before and after an action differ, whatever is delivered, ticked or crashed |
| `Timeliness.ApplyKeepsInvT` | src/modules/idempotency/idempotency.repository.ts:112-159 | With T2 every legal action keeps: a RUNNING attempt has its PROCESSING claim, and a current run between claim and start, still in time, has its own claim |
| `Timeliness.ReachableInvT` | src/modules/idempotency/idempotency.repository.ts:112-159 | So every disciplined and timely run keeps it |
| `Timeliness.RecoveryNeverRefused` | src/modules/executions/execution.service.ts:694-868 | A RUNNING execution has a lease row and a PROCESSING claim; if the lease is live nothing happens, otherwise it is crashed with the lease expiry as completion time and either attempt k + 1 is scheduled with the claim released, or, at max_attempts, the job fails: neither invariant-failure branch nor the COMPLETED branch is taken |
| `Timeliness.OutcomeAlwaysCommits` | src/modules/executions/execution.service.ts:325-671 | The outcome of a run that holds its lease is never lost: its transaction commits, and success, retry or final failure leaves execution, successor, record and job exactly as stated, with max_attempts deciding between the last two |
| `LateRuns.RecoveryRefusedIff` | src/modules/executions/execution.service.ts:764-779 | Without T2, recovery of an expired RUNNING attempt is refused if and only if the record is not PROCESSING |
| `LateRuns.StartKeepsClaimIff` | src/modules/executions/execution.service.ts:189-231 | startExecution leaves RUNNING attempts claimed if and only if the record is still PROCESSING when it executes |
| `LateRuns.StuckReachable` | src/modules/idempotency/idempotency.repository.ts:145-159 | For every new job there is a disciplined run, late in one startExecution, that reaches a RUNNING attempt without claim and without run |
| `LateRuns.StuckForEver` | src/modules/executions/execution.service.ts:764-779 | From there no sequence of actions whatever, disciplined or not, ends the job |
| `CanEnd.CanEndIff` | src/modules/executions/execution.service.ts:764-779 | Under lease discipline, without T2: actions exist that end the job if and only if it is not the case that an attempt is RUNNING, the record is PENDING, and no run that holds its lease is at its last attempt or without handler after startExecution; such actions then exist with delays the backoff yields |
| `CanEnd.NewJobCanEndIff` | src/modules/executions/execution.service.ts:88-912 | The same for the continuations of any disciplined run of a new job |
| `CanEnd.HopelessForEver` | src/modules/executions/execution.service.ts:458-546 | In such a state no disciplined actions end the job, live handlers included |
| `NeverStuck.NeverStuck` | src/modules/scheduler/scheduler.service.ts:396-436 | After any legal run, legal actions exist, with delays the backoff yields, that bring the job to a terminal status |
| `EveryJobEnds.EveryJobCanEnd` | src/modules/scheduler/scheduler.service.ts:396-436 | After any legal events, with any number of jobs under one clock, legal events without submissions exist after which every job is terminal |
| `NeverStuck.FinishJobSomehow` | src/modules/queue-reconciliation/queue-reconciliation.service.ts:15-139 | That continuation, constructed: wait, free the claim or recover after a backoff that is drawn, claim what is due, reconcile, deliver, run; runs already in flight are left where they are |
| `NeverStuck.FinishRunningAttempt` | src/modules/executions/execution.service.ts:677-912 | From a RUNNING attempt: let the lease expire, recover, and finish the replacement if there is one |
| `NeverStuck.MakeReady` | src/modules/queue-reconciliation/queue-reconciliation.repository.ts:5-36 | From a QUEUED attempt: after a wait that its lease, its claim and the suspect age determine, it is deliverable, free of a live lease, and its record is PENDING |
| `SchedulerOrder.OrderDoesNotMatter` | src/modules/scheduler/scheduler.service.ts:422-428 | Stale pass then lease pass, or the other way round, at one instant with the same jitter: same job, executions, leases, outbox and queue; the records differ only on a terminal job |
| `SchedulerOrder.RecordsDifferIff` | src/modules/executions/execution.service.ts:764-868 | In every interleaving the records differ if and only if, before the passes, the claim is PROCESSING and older than the timeout, and the only RUNNING attempt is listed, expired and the last one allowed |
| `SchedulerOrder.DisciplinedRecordsDifferIff` | src/modules/executions/execution.service.ts:764-868 | Under lease discipline: if and only if the claim is old and a listed expired attempt is the last one allowed |
| `PassOrder.RecordsDifferReachable` | src/modules/executions/execution.service.ts:797-841 | Every new job has a legal run, through as many crashes as it has attempts, after which they differ, whatever the jitter |
| `Batches.PassOrderDoesNotMatter` | src/modules/scheduler/scheduler.service.ts:233-352 | Both for the two loops over the rows of any number of jobs, each pass with its own selection: same rows, and the record differs exactly on those jobs |
| `Batches.StalePassesMean` | src/modules/idempotency/idempotency.repository.ts:129-142 | Resetting the selected records one by one is applying the reset to every job |
| `Batches.LeasePassesMean` | src/modules/leases/leases.repository.ts:149-167 | Recovering expired leases of many jobs in expiry order is recovering each job's own leases in that order |
| `Batches.PublishPassMeans` | src/modules/scheduler/scheduler.service.ts:171-230 | Conservation, for any batch and any division of it into added and failed rows: each claimed row ends PUBLISHED with its id in the queue, or PENDING with null published_at; rows go only if they were PUBLISHED before the retention; entries already there stay |
| `DueBatches.BatchIsItsSteps` | src/modules/scheduler/scheduler.repository.ts:34-108 | Updating all due rows and then inserting all outbox rows equals the protocol's claim steps, one row after another |
| `DueBatches.ClaimsAlwaysCommit` | src/modules/outbox/outbox.repository.ts:5-28 | Whatever happened before to any number of jobs, no due row has an outbox row, so both claim transactions commit |
| `World.JobsAreIndependent` | src/modules/scheduler/scheduler.service.ts:396-436 | After any events each job is where its own actions alone bring it |
| `World.WorldReachable` | src/modules/jobs/jobs.repository.ts:40-118 | After any events every job has the Tier A invariant and exactly one record, and the key index and the records agree |
| `World.FirstSubmissionWins` | src/modules/jobs/jobs.repository.ts:77-101 | Over any events the known keys are exactly those known before and those submitted, and a known key keeps its first job |
| `World.RepeatChangesNothing` | src/modules/jobs/jobs.repository.ts:88-102 | A submission with a known key leaves the whole state as it was |
| `World.JobsAreDistinctKeys` | src/modules/jobs/jobs.repository.ts:40-118 | There are as many jobs as distinct submitted keys, whatever else happens in between |
| `Submission.TrimIsTheOnlySplit` | src/modules/jobs/jobs.service.ts:18 | Trimming finds the one way to split a key into spaces, a key without outer spaces, and spaces |
| `Submission.SpacesListed` | src/modules/jobs/jobs.service.ts:18 | Trimming removes exactly the 25 ECMAScript white space and line terminator characters |
| `Submission.LengthCounts` | src/modules/jobs/jobs.service.ts:20 | A key's length is its characters, those beyond the basic plane counted twice |
| `Submission.SameKeyIff` | src/modules/jobs/jobs.service.ts:15-25 | A client key resolves like another acceptable one if and only if it is that one's trimmed form within spaces |
| `Submission.JobTables.CreateJobWithIdempotency` | src/modules/jobs/jobs.repository.ts:40-118 | Deduplicates exactly when the key is indexed; then the tables are as before and the first job is returned; otherwise exactly the new job with its PENDING record is added; index and records keep agreeing |
| `Submission.CreateJobService` | src/modules/jobs/jobs.service.ts:28-78 | 400 exactly for a missing run time or a key that is not 1 to 200 code units after trimming; refused requests change nothing; a new job is SCHEDULED with the requested maximum and run time, or now if immediate; an accepted request returns the first job of its resolved key, and does to the tables what a submission does to the world |
| `Submission.OneJobPerKey` | src/modules/jobs/jobs.repository.ts:77-87 | As many jobs as indexed keys |
| `Heartbeat.BeatingKeepsLease` | src/modules/leases/leases.repository.ts:124-144 | In every interleaving, an execution renewed within G of its acquisition and of each renewal, G below the lease duration, keeps that acquisition unexpired at every instant, and no worker can acquire it |
| `Heartbeat.HeartbeatsSuffice` | src/workers/heartbeat.ts:34-73 | If at every instant every run that has its lease has acquired or renewed it within G, G below the lease duration, then every sequence of actions from a new job is disciplined: heartbeats discharge the lease assumption |
| `Heartbeat.Heartbeats.RegisterExecution` | src/workers/heartbeat.ts:13-24 | Registers the execution for that worker and keeps gauge = number of registered executions |
| `Heartbeat.Heartbeats.UnregisterExecution` | src/workers/heartbeat.ts:27-31 | Removes the execution if it is there and keeps gauge = number of registered executions |
| `Heartbeat.PlayBeats` | src/workers/heartbeat.ts:8-73 | After any sequence of registrations, unregistrations and renewal answers the gauge equals the size of the map they leave |
| `Heartbeat.RegisteredMeans` | src/workers/heartbeat.ts:8-73 | An execution is registered after such a sequence exactly when it was registered, first or later, and nothing since has unregistered it or failed to renew it |
| `Renewals.RenewActiveLeases` | src/workers/heartbeat.ts:34-73 | One round, each renewal at its own instant, renews exactly the renewable leases of registered executions whose renewal does not throw, touches no other lease, and unregisters exactly those that answered without renewing; the gauge stays right |
| `Backoff.DelayBounds` | src/utils/retry.utils.ts:4-17 | The delay after attempt k lies in [c_k, 1.5 c_k) |
| `Backoff.DrawnIff` | src/utils/retry.utils.ts:4-17 | The delays of whole milliseconds in that interval are exactly those that some random number yields |
| `Backoff.CappedDelays` | src/config/retry.config.ts:1-6 | c_k is 2, 4, 8, 16 seconds and then 30 for ever |
| `Backoff.DelaysGrow` | src/utils/retry.utils.ts:4-17 | Realised delays strictly increase up to the fifth attempt, for any jitter |
| `Backoff.TotalBounds` | src/utils/retry.utils.ts:4-17 | m retries wait at least S and less than 1.5 S in all, with S = 2000 (2^m - 1) up to m = 4 and 30000 (m - 3) from there |
| `ExecutionService.SuccessTransaction` | src/modules/executions/execution.service.ts:615-671 | Commits exactly when the record is PROCESSING, completing record, execution and job; otherwise the rows are as before |
| `ExecutionService.RetryTransaction` | src/modules/executions/execution.service.ts:458-546 | Equals the retry step: all of closing, releasing and scheduling, or none of it |
| `ExecutionService.FinalFailureTransaction` | src/modules/executions/execution.service.ts:548-610 | Closes the attempt and fails the job unless that is terminal, and answers whether it was not |
| `ExecutionService.AlreadyCompletedTransaction` | src/modules/executions/execution.service.ts:191-224 | Completes the execution, and the job unless that is terminal |
| `ExecutionService.FinishHandler` | src/modules/executions/execution.service.ts:323-671 | Success, failure or timeout of the handler leads to exactly the outcome step that the attempt number and max_attempts call for |
| `ExecutionService.RecoverExpiredExecution` | src/modules/executions/execution.service.ts:677-912 | Leaves the rows as the recovery step says for each of its eight exits, and answers true, false or throws accordingly |
| `ExecutionService.RecoveryAnswers` | src/modules/executions/execution.service.ts:677-912 | In every state any interleaving reaches, the rows recovery leaves and its answer, case by case: throws for a missing execution, false for one that is not RUNNING or not expired and for a PENDING record, true after replacing the newest attempt or failing the job, and a rollback that throws for an older attempt |
| `ExecutionService.CompletedBranchThrows` | src/modules/executions/execution.service.ts:719-762 | In every reachable state, if recovery takes its COMPLETED branch, it has marked the execution COMPLETED, left the job alone, and throws |
| `ExecutionService.ExecutionRun.constructor` | src/workers/worker.ts:29-104 | A delivered entry starts a run as the protocol's delivery does: none for a terminal job |
| `ExecutionService.ExecutionRun.Prepare` | src/modules/executions/execution.service.ts:64-131 | Creation, first read and lease acquisition: rows and run move as the protocol's step says, and the execution is registered exactly when its lease was acquired |
| `ExecutionService.ExecutionRun.ClaimAndStart` | src/modules/executions/execution.service.ts:133-247 | Job read, claim, startExecution, startJob: as the protocol's step, unregistering exactly when the run ends there |
| `ExecutionService.ExecutionRun.Conclude` | src/modules/executions/execution.service.ts:143-312 | The writing ways out: as the protocol's step; the execution is unregistered unless there is no handler and the job was terminal |
| `ExecutionService.ExecutionRun.Execute` | src/modules/executions/execution.service.ts:46-672 | The whole call, with any actions of others before each of its statements: at most eight statements, the rows are those of the protocol's run of all these actions, and the execution is registered afterwards exactly as before, less this one, unless the call ended without handler on a terminal job |
| `ExecutionService.RunDelivered` | src/workers/worker.ts:29-104 | From the delivery of a queue entry on: the same, as one run of the protocol that begins with the delivery; a job already terminal ends it at once |
| `ExecutionService.DisciplinedCallUnregisters` | src/modules/executions/execution.service.ts:131-312 | Under lease discipline every call that acquired its lease has unregistered its execution when it ends |
| `SchedulerService.Tables.ClaimDueRows` | src/modules/scheduler/scheduler.repository.ts:34-108 | Commits if and only if no due row has an outbox row; then the tables are as after the protocol's claim steps one by one, otherwise exactly as before, however far the inserts had come |
| `SchedulerService.Tables.ProcessStaleIdempotency` | src/modules/scheduler/scheduler.service.ts:233-291 | Every job ends as the stale-claim reset leaves it |
| `SchedulerService.Tables.ProcessExpiredLeases` | src/modules/scheduler/scheduler.service.ts:295-352 | Every job ends as recovering its listed attempts in their order leaves it; a recovery that throws does not stop the others |
| `SchedulerService.Tables.ProcessPendingOutbox` | src/modules/scheduler/scheduler.service.ts:171-230 | For any batch and either bulk failing: each claimed row is PUBLISHED with its id queued, or back to PENDING; a failed job bulk returns the execution rows too; pruning takes neither PENDING nor just-published rows; otherwise a failed execution bulk returns exactly the execution rows; returned rows add no id; the answer is 0 if a bulk fails and else the batch size |
| `SchedulerService.Tables.ClaimPendingOutbox` | src/modules/outbox/outbox.repository.ts:31-57 | Exactly the listed rows are claimed |
| `SchedulerService.Tables.ResetOutboxToPending` | src/modules/outbox/outbox.repository.ts:94-115 | Exactly the listed PUBLISHED rows go back to PENDING |
| `SchedulerService.Tables.DeletePublishedOutboxBefore` | src/modules/outbox/outbox.repository.ts:79-91 | Deletes exactly the rows PUBLISHED before the retention, of every job |
| `SchedulerService.Tables.EnqueueBulk` | src/infrastructure/queue/queue.ts:36-95 | Adds exactly the ids the queue does not hold |
| `QueueReconciliation.ProcessQueueReconciliation` | src/modules/queue-reconciliation/queue-reconciliation.service.ts:15-139 | After one pass each suspect whose entry was absent, completed or failed has a waiting one (or none, if its bulk was refused); waiting, active, delayed, prioritized and waiting-children entries, and all entries of others, are unchanged; the result counts exactly the former |
| `QueueReconciliation.LookUp` | src/modules/queue-reconciliation/queue-reconciliation.service.ts:27-63 | One loop: notes exactly the suspects whose entry is absent, completed or failed, in order, and removes exactly their retained terminal entries |
| `QueueReconciliation.SuspectsBecomeRunnable` | src/infrastructure/queue/queue.ts:120-157 | A suspect whose bulk was accepted has an entry afterwards that is neither completed nor failed |
| `QueueReconciliation.NextPassMakesGood` | src/modules/queue-reconciliation/queue-reconciliation.service.ts:98-124 | A pass after a refused one ends as an undisturbed pass would have; a second pass after an undisturbed one changes nothing |
| `QueueReconciliation.MissingCounts` | src/modules/queue-reconciliation/queue-reconciliation.service.ts:126 | The number noted is that of the distinct suspects whose entry is absent, completed or failed |

The methods of `Database.JobRows` are the repositories' single statements (src/modules/executions/execution.repository.ts,
idempotency.repository.ts, leases.repository.ts, jobs.repository.ts, outbox.repository.ts, and the queue's add and
remove). Each is proved equal to the function of the same name in `Statements`; they are what the transactions and
loops above are made of.

## Left out

- HTTP layer, request schemas (but for max_attempts >= 1), getJobs and its pagination, metrics other than the final-state count and the active-execution gauge, logging (but for log lines that throw), health checks, start and stop of processes, migrations' DDL (their constraints are assumed): plumbing.
- Handlers and AbortController: a handler's outcome (success, error, timeout) is left open.
- Postgres and BullMQ internals: assumed as above. The branch of enqueueJobs and enqueueExecutions that swallows an error whose text mentions a duplicate is assumed away, and so are Redis errors while reconciliation looks an entry up.
- The error text of an execution and its 255-character column: an overflow is an aborted transaction, that is, a dropped run.
- Branches for a missing job or record row: those rows are never deleted. A missing execution is modelled in recovery only.
- runSchedulerTick's tickInFlight flag and the reconciliation throttle: they only make the scheduler do less, and every interleaving of its steps is covered already.
- Database.JobRows.CancelJob: the 404 answer for an unknown job is not modelled; the read and the update are one step, which answers 409 in the same cases.
- Renewals.RenewActiveLeases: nothing is registered while a round goes on; rounds interleaved with registrations are covered by Heartbeat.PlayBeats and Heartbeat.BeatingKeepsLease.
- SchedulerService.Tables.ProcessPendingOutbox: the batch is published without other schedulers in between; interleaved publishers are covered by AnyRun.EveryReachableState.
- QueueReconciliation.ProcessQueueReconciliation: likewise one pass without others in between, in which entry.remove() never throws (Database.JobRows.RemoveTerminalQueueEntry models that answer); interleaved passes, and entries that stay, are covered by the protocol's actions.
- Submission.CreateJobService: the counter of submitted jobs, the payload and the title are not modelled.
