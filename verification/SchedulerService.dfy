/** The scheduler's batch operations: loops over rows of many jobs, some of them transactions. */
module SchedulerService {
  import opened Rows
  import opened Database
  import opened SchedulerOrder
  import opened Batches
  import opened DueBatches
  import ExecutionService
  import S = Statements

  class Tables {
    const rows: map<JobId, JobRows>

    /** Different jobs have different rows. */
    ghost predicate Valid() {
      forall i, j :: i in rows && j in rows && i != j ==> rows[i] != rows[j]
    }

    ghost function Repr(): set<object> {
      set j | j in rows :: rows[j]
    }

    ghost function Views(): (views: Views)
      reads Repr()
      ensures views.Keys == rows.Keys
    {
      map j | j in rows :: rows[j].View()
    }

    constructor (rows: map<JobId, JobRows>)
      ensures this.rows == rows
    {
      this.rows := rows;
    }

    // ---- processJobTransaction and processExecutionTransactions

    method QueueItem(x: Item, now: Time)
      requires Valid() && x.0 in rows
      modifies rows[x.0]
      ensures Views() == old(Views())[x.0 := QueueRow(old(Views())[x.0], x.1, now)]
    {
      match x.1
      case JobTarget => rows[x.0].QueueJob(now);
      case AttemptTarget(k) =>
        if k in rows[x.0].executions {
          rows[x.0].QueueAttempt(k, now);
        }
    }

    method InsertItem(x: Item) returns (inserted: bool)
      requires Valid() && x.0 in rows
      modifies rows[x.0]
      ensures inserted == (x.1 !in old(Views())[x.0].outbox)
      ensures Views() == old(Views())[x.0 := InsertRow(old(Views())[x.0], x.1)]
    {
      inserted := rows[x.0].CreateOutbox(x.1);
    }

    method QueueItems(items: seq<Item>, now: Time)
      requires Valid() && forall x :: x in items ==> x.0 in rows
      modifies Repr()
      ensures Views() == Each(old(Views()), items, QueuedRow(now))
    {
      hide Each, QueueRow;
      ghost var was := Views();
      EachNone(was, QueuedRow(now));
      for i := 0 to |items|
        invariant Views() == Each(was, items[..i], QueuedRow(now))
      {
        var x := items[i];
        assert x in items && items[..i + 1] == items[..i] + [x];
        EachSnoc(was, items[..i], x, QueuedRow(now));
        QueueItem(x, now);
      }
      assert items[..|items|] == items;
    }

    /** Inserts until one is refused. */
    method InsertItems(items: seq<Item>) returns (all: bool)
      requires Valid() && Distinct(items) && forall x :: x in items ==> x.0 in rows
      modifies Repr()
      ensures all <==> forall x :: x in items ==> x.1 !in old(Views())[x.0].outbox
      ensures all ==> Views() == Each(old(Views()), items, InsertedRow())
      ensures forall j :: j in rows ==> Views()[j].queue == old(Views())[j].queue
    {
      hide Each, InsertRow, Distinct;
      ghost var was := Views();
      all := true;
      EachNone(was, InsertedRow());
      for i := 0 to |items|
        invariant all && Views() == Each(was, items[..i], InsertedRow())
        invariant forall x :: x in items[..i] ==> x.1 !in was[x.0].outbox
      {
        var x := items[i];
        NextItem(items, i);
        EachSnoc(was, items[..i], x, InsertedRow());
        InsertsMean(was, items[..i], x.0);
        all := InsertItem(x);
        if !all {
          AllInsertsMean(was, items[..i + 1]);
          return;
        }
      }
      assert items[..|items|] == items;
      AllInsertsMean(was, items);
    }

    /** BEGIN. */
    method Begin() returns (saved: map<JobId, Saved>, ghost tallies: map<JobId, Tally>)
      ensures SavedAll(saved, tallies, Views())
    {
      saved := map j | j in rows ::
        Saved(rows[j].job, rows[j].record, rows[j].executions, rows[j].leases, rows[j].outbox);
      tallies := map j | j in rows :: rows[j].tally;
    }

    method RollbackRows(j: JobId, saved: Saved, ghost tally: Tally)
      requires Valid() && j in rows
      modifies rows[j]
      ensures Views() == old(Views())[j := SavedView(saved, old(Views())[j].queue, tally)]
    {
      rows[j].Rollback(saved, tally);
    }

    /** ROLLBACK: everything but the queue, which is not part of a transaction. */
    method Rollback(saved: map<JobId, Saved>, ghost tallies: map<JobId, Tally>, ghost was: Views)
      requires Valid() && was.Keys == rows.Keys && SavedAll(saved, tallies, was)
      modifies Repr()
      ensures Views() == RolledBackBut(old(Views()), was, {})
    {
      ghost var reached := Views();
      var left := rows.Keys;
      while left != {}
        invariant left <= rows.Keys && Views() == RolledBackBut(reached, was, left)
        decreases left
      {
        hide RolledBackBut, SavedView, SavedAll;
        var j :| j in left;
        RollbackOneMore(reached, was, left, j, saved, tallies);
        RollbackRows(j, saved[j], tallies[j]);
        left := left - {j};
      }
    }

    /**
     * `items` are the jobs, or the executions, that the UPDATE found due. One refused outbox row takes
     * the whole batch back; otherwise the batch is the protocol's claim steps, one after another.
     */
    method ClaimDueRows(items: seq<Item>, now: Time) returns (committed: bool)
      requires Valid() && DueItems(Views(), items, now)
      modifies Repr()
      ensures committed <==> forall x :: x in items ==> x.1 !in old(Views())[x.0].outbox
      ensures Views() == if committed then Each(old(Views()), items, ClaimedDueRow(now)) else old(Views())
    {
      hide Each, Due, SavedAll, RolledBackBut;
      ghost var was := Views();
      var saved, tallies := Begin();
      QueueItems(items, now);
      QueueBatchMeans(was, items, now);
      committed := InsertItems(items);
      if committed {
        BatchIsItsSteps(was, items, now);
      } else {
        RollbackMeans(Views(), was);
        Rollback(saved, tallies, was);
      }
    }

    // ---- processStaleIdempotency and processExpiredLeases

    method ResetStale(j: JobId, timeout: int, now: Time)
      requires Valid() && j in rows
      modifies rows[j]
      ensures Views() == old(Views())[j := StalePass(old(Views())[j], timeout, now)]
    {
      var reset := rows[j].ResetStaleProcessingRecord(timeout, now);
    }

    /** `stale` is what getStaleProcessingRecords selected. */
    method ProcessStaleIdempotency(stale: seq<JobId>, timeout: int, now: Time)
      requires Valid() && forall j :: j in stale <==> j in rows && S.Stale(Views()[j], timeout, now)
      modifies Repr()
      ensures Views() == map j | j in old(Views()) :: StalePass(old(Views())[j], timeout, now)
    {
      ghost var was := Views();
      for i := 0 to |stale|
        invariant Views() == StalePasses(was, stale[..i], timeout, now)
      {
        hide StalePass;
        assert stale[i] in stale && stale[..i + 1] == stale[..i] + [stale[i]];
        ResetStale(stale[i], timeout, now);
        StalePassesSnoc(was, stale[..i], stale[i], timeout, now);
      }
      assert stale[..|stale|] == stale;
      StalePassesMean(was, stale, timeout, now);
    }

    /** One turn of the loop; a recovery that throws leaves everything as it was. */
    method RecoverLease(x: ExecutionId, delay: nat, now: Time)
      requires Valid() && x.0 in rows
      modifies rows[x.0]
      ensures Views() == old(Views())[x.0 := S.RecoverExpiredExecution(old(Views())[x.0], x.1, delay, now).cell]
    {
      var recovered := ExecutionService.RecoverExpiredExecution(rows[x.0], x.1, delay, now);
    }

    /** `expired` is what findExpiredLeases selected; one recovery's error does not stop the others. */
    method ProcessExpiredLeases(expired: seq<ExecutionId>, delay: JobId -> nat -> nat, now: Time)
      requires Valid() && forall x :: x in expired ==> x.0 in rows
      modifies Repr()
      ensures Views() == map j | j in old(Views()) ::
        LeasePass(old(Views())[j], AttemptsOf(expired, j), delay(j), now)
    {
      ghost var was := Views();
      for i := 0 to |expired|
        invariant Views() == LeasePasses(was, expired[..i], delay, now)
      {
        hide S.RecoverExpiredExecution;
        assert expired[i] in expired && expired[..i + 1] == expired[..i] + [expired[i]];
        RecoverLease(expired[i], delay(expired[i].0)(expired[i].1), now);
        LeasePassesSnoc(was, expired[..i], expired[i], delay, now);
      }
      assert expired[..|expired|] == expired;
      LeasePassesMean(was, expired, delay, now);
    }

    // ---- processPendingOutbox

    method ClaimOutboxRow(x: Item, now: Time)
      requires Valid() && x.0 in rows
      modifies rows[x.0]
      ensures Views() == old(Views())[x.0 := Claimed(now)(old(Views())[x.0], x.1)]
    {
      rows[x.0].ClaimOutboxRow(x.1, now);
    }

    method ResetOutboxRow(x: Item)
      requires Valid() && x.0 in rows
      modifies rows[x.0]
      ensures Views() == old(Views())[x.0 := Unclaimed()(old(Views())[x.0], x.1)]
    {
      rows[x.0].ResetOutboxRow(x.1);
    }

    method AddEntry(x: Item)
      requires Valid() && x.0 in rows
      modifies rows[x.0]
      ensures Views() == old(Views())[x.0 := Enqueued()(old(Views())[x.0], x.1)]
    {
      rows[x.0].AddEntry(x.1);
    }

    /** getQueueJob or getQueueExecution, isQueueEntryRunnable, and removeTerminalQueueEntry if it is not. */
    method LookUpEntry(x: Item) returns (runnable: bool)
      requires Valid() && x.0 in rows
      modifies rows[x.0]
      ensures runnable ==
        var queue := old(Views())[x.0].queue;
        x.1 in queue && !queue[x.1].EntryCompleted? && !queue[x.1].EntryFailed?
      ensures Views() == old(Views())[x.0 :=
        old(Views())[x.0].(queue := S.RemoveTerminal(old(Views())[x.0].queue, x.1))]
    {
      runnable := x.1 in rows[x.0].queue && S.Runnable(rows[x.0].queue[x.1]);
      if !runnable {
        var removed := rows[x.0].RemoveTerminalQueueEntry(x.1, false);
      }
    }

    method PruneOutbox(j: JobId, retention: nat, now: Time)
      requires Valid() && j in rows
      modifies rows[j]
      ensures Views() == old(Views())[j := S.Prune(old(Views())[j], retention, now)]
    {
      hide S.Prune;
      rows[j].DeletePublishedOutboxBefore(retention, now);
    }

    method ClaimPendingOutbox(batch: seq<Item>, now: Time)
      requires Valid() && forall x :: x in batch ==> x.0 in rows
      modifies Repr()
      ensures Views() == Each(old(Views()), batch, Claimed(now))
    {
      hide Each, Claimed;
      ghost var was := Views();
      EachNone(was, Claimed(now));
      for i := 0 to |batch|
        invariant Views() == Each(was, batch[..i], Claimed(now))
      {
        var x := batch[i];
        assert x in batch && batch[..i + 1] == batch[..i] + [x];
        EachSnoc(was, batch[..i], x, Claimed(now));
        ClaimOutboxRow(x, now);
      }
      assert batch[..|batch|] == batch;
    }

    method ResetOutboxToPending(items: seq<Item>)
      requires Valid() && forall x :: x in items ==> x.0 in rows
      modifies Repr()
      ensures Views() == Each(old(Views()), items, Unclaimed())
    {
      hide Each, Unclaimed;
      ghost var was := Views();
      EachNone(was, Unclaimed());
      for i := 0 to |items|
        invariant Views() == Each(was, items[..i], Unclaimed())
      {
        var x := items[i];
        assert x in items && items[..i + 1] == items[..i] + [x];
        EachSnoc(was, items[..i], x, Unclaimed());
        ResetOutboxRow(x);
      }
      assert items[..|items|] == items;
    }

    /** enqueueJobs and enqueueExecutions: one addBulk, all or nothing. */
    method EnqueueBulk(items: seq<Item>)
      requires Valid() && forall x :: x in items ==> x.0 in rows
      modifies Repr()
      ensures Views() == Each(old(Views()), items, Enqueued())
    {
      hide Each, Enqueued;
      ghost var was := Views();
      EachNone(was, Enqueued());
      for i := 0 to |items|
        invariant Views() == Each(was, items[..i], Enqueued())
      {
        var x := items[i];
        assert x in items && items[..i + 1] == items[..i] + [x];
        EachSnoc(was, items[..i], x, Enqueued());
        AddEntry(x);
      }
      assert items[..|items|] == items;
    }

    method DeletePublishedOutboxBefore(retention: nat, now: Time)
      requires Valid()
      modifies Repr()
      ensures Views() == PrunedBut(old(Views()), {}, retention, now)
    {
      ghost var was := Views();
      var left := rows.Keys;
      while left != {}
        invariant left <= rows.Keys && Views() == PrunedBut(was, left, retention, now)
        decreases left
      {
        hide PrunedBut, S.Prune;
        var j :| j in left;
        PruneOneMore(was, left, j, retention, now);
        PruneOutbox(j, retention, now);
        left := left - {j};
      }
    }

    /** The bulks of a claimed batch; what Redis refuses, and what comes after, is reset. */
    method HandOver(batch: seq<Item>, jobsFail: bool, attemptsFail: bool) returns (failed: seq<Item>)
      requires Valid() && forall x :: x in batch ==> x.0 in rows
      modifies Repr()
      ensures failed == FailedItems(batch, jobsFail, attemptsFail)
      ensures Views() == Handover(old(Views()), AddedJobs(batch, jobsFail),
                                  AddedAttempts(batch, jobsFail, attemptsFail), failed)
    {
      hide Claimed, Unclaimed, Enqueued, Divides;
      var jobOutboxes, executionOutboxes := JobItems(batch), AttemptItems(batch);
      if jobsFail && jobOutboxes != [] {
        failed := batch;
      } else {
        EnqueueBulk(jobOutboxes);
        if attemptsFail && executionOutboxes != [] {
          failed := executionOutboxes;
        } else {
          EnqueueBulk(executionOutboxes);
          failed := [];
        }
      }
      ResetOutboxToPending(failed);
    }

    /** One publisher pass; `jobsFail` and `attemptsFail` say whether Redis refuses the bulk. */
    method ProcessPendingOutbox(
      batch: seq<Item>, jobsFail: bool, attemptsFail: bool, retention: nat, now: Time)
      returns (published: nat)
      requires Valid() && forall x :: x in batch ==>
        x.0 in rows && x.1 in Views()[x.0].outbox && Views()[x.0].outbox[x.1].status.OutboxPending?
      modifies Repr()
      ensures published ==
        if JobsRefused(batch, jobsFail) || AttemptsRefused(batch, attemptsFail) then 0 else |batch|
      ensures forall j :: j in rows ==>
        PassDone(old(Views())[j], Views()[j], batch, jobsFail, attemptsFail, j, retention, now)
    {
      hide Each, Claimed, Handover, PrunedBut, Published, FailedItems, AddedJobs, AddedAttempts, Divides, PassDone,
           JobsRefused, AttemptsRefused;
      ghost var was := Views();
      ClaimPendingOutbox(batch, now);
      BatchDivides(batch, jobsFail, attemptsFail);
      var failed := HandOver(batch, jobsFail, attemptsFail);
      published := if failed == [] then |batch| else 0;
      DeletePublishedOutboxBefore(retention, now);
      PublishPassMeans(was, batch, AddedJobs(batch, jobsFail), AddedAttempts(batch, jobsFail, attemptsFail),
                       failed, retention, now);
      WhoFails(batch, jobsFail, attemptsFail);
      PassesAreDone(was, Views(), batch, jobsFail, attemptsFail, retention, now);
    }
  }
}
