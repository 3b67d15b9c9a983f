/** Batch statements on values: what they do to the rows of all jobs. */
module Batches {
  import opened Rows
  import opened SchedulerOrder
  import EveryInterleaving
  import S = Statements

  type Views = map<JobId, Cell>

  // ---- the stale-claim pass

  function StalePasses(views: Views, stale: seq<JobId>, timeout: int, now: Time): (after: Views)
    requires forall j :: j in stale ==> j in views
    ensures after.Keys == views.Keys
    decreases |stale|
  {
    if stale == [] then views
    else
      var before := StalePasses(views, stale[..|stale| - 1], timeout, now);
      var j := stale[|stale| - 1];
      before[j := StalePass(before[j], timeout, now)]
  }

  lemma StalePassesSnoc(views: Views, stale: seq<JobId>, j: JobId, timeout: int, now: Time)
    requires forall i :: i in stale + [j] ==> i in views
    ensures forall i :: i in stale ==> i in views
    ensures
      var before := StalePasses(views, stale, timeout, now);
      StalePasses(views, stale + [j], timeout, now) == before[j := StalePass(before[j], timeout, now)]
  {
    assert forall i :: i in stale ==> i in stale + [j];
    assert (stale + [j])[..|stale|] == stale;
  }

  lemma {:induction false} StalePassesAt(views: Views, stale: seq<JobId>, timeout: int, now: Time, j: JobId)
    requires (forall i :: i in stale ==> i in views) && j in views
    ensures StalePasses(views, stale, timeout, now)[j] ==
            if j in stale then StalePass(views[j], timeout, now) else views[j]
    decreases |stale|
  {
    if stale != [] {
      assert stale == stale[..|stale| - 1] + [stale[|stale| - 1]];
      StalePassesAt(views, stale[..|stale| - 1], timeout, now, j);
    }
  }

  /** Visiting the selected records is visiting all of them. */
  lemma StalePassesMean(views: Views, stale: seq<JobId>, timeout: int, now: Time)
    requires forall j :: j in stale <==> j in views && S.Stale(views[j], timeout, now)
    ensures StalePasses(views, stale, timeout, now) == map j | j in views :: StalePass(views[j], timeout, now)
  {
    forall j | j in views
      ensures StalePasses(views, stale, timeout, now)[j] == StalePass(views[j], timeout, now)
    {
      StalePassesAt(views, stale, timeout, now, j);
    }
  }

  // ---- the expired-lease pass

  function AttemptsOf(expired: seq<ExecutionId>, j: JobId): (attempts: seq<nat>)
    ensures forall k :: k in attempts <==> (j, k) in expired
    decreases |expired|
  {
    if expired == [] then []
    else
      var last := expired[|expired| - 1];
      AttemptsOf(expired[..|expired| - 1], j) + (if last.0 == j then [last.1] else [])
  }

  function LeasePasses(views: Views, expired: seq<ExecutionId>, delay: JobId -> nat -> nat, now: Time): (after: Views)
    requires forall x :: x in expired ==> x.0 in views
    ensures after.Keys == views.Keys
    decreases |expired|
  {
    if expired == [] then views
    else
      var before := LeasePasses(views, expired[..|expired| - 1], delay, now);
      var (j, k) := expired[|expired| - 1];
      assert (j, k) in expired;
      before[j := S.RecoverExpiredExecution(before[j], k, delay(j)(k), now).cell]
  }

  lemma LeasePassesSnoc(
    views: Views, expired: seq<ExecutionId>, x: ExecutionId, delay: JobId -> nat -> nat, now: Time)
    requires forall y :: y in expired + [x] ==> y.0 in views
    ensures forall y :: y in expired ==> y.0 in views
    ensures x.0 in views
    ensures
      var before := LeasePasses(views, expired, delay, now);
      LeasePasses(views, expired + [x], delay, now) ==
      before[x.0 := S.RecoverExpiredExecution(before[x.0], x.1, delay(x.0)(x.1), now).cell]
  {
    hide S.RecoverExpiredExecution;
    assert x in expired + [x] && forall y :: y in expired ==> y in expired + [x];
    assert (expired + [x])[..|expired|] == expired;
  }

  lemma {:induction false} LeasePassSnoc(c: Cell, attempts: seq<nat>, k: nat, delay: nat -> nat, now: Time)
    ensures LeasePass(c, attempts + [k], delay, now) ==
            S.RecoverExpiredExecution(LeasePass(c, attempts, delay, now), k, delay(k), now).cell
    decreases |attempts|
  {
    hide S.RecoverExpiredExecution;
    if attempts == [] {
      assert ([] + [k])[1..] == [];
      assert LeasePass(c, [k], delay, now) ==
        LeasePass(S.RecoverExpiredExecution(c, k, delay(k), now).cell, [], delay, now);
    } else {
      assert (attempts + [k])[1..] == attempts[1..] + [k];
      LeasePassSnoc(S.RecoverExpiredExecution(c, attempts[0], delay(attempts[0]), now).cell,
                    attempts[1..], k, delay, now);
    }
  }

  lemma {:induction false} LeasePassesAt(
    views: Views, expired: seq<ExecutionId>, delay: JobId -> nat -> nat, now: Time, j: JobId)
    requires (forall x :: x in expired ==> x.0 in views) && j in views
    ensures LeasePasses(views, expired, delay, now)[j] == LeasePass(views[j], AttemptsOf(expired, j), delay(j), now)
    decreases |expired|
  {
    hide S.RecoverExpiredExecution;
    if expired != [] {
      var front, last := expired[..|expired| - 1], expired[|expired| - 1];
      assert expired == front + [last];
      LeasePassesAt(views, front, delay, now, j);
      LeasePassSnoc(views[j], AttemptsOf(front, j), last.1, delay(j), now);
      assert AttemptsOf(front, j) + [] == AttemptsOf(front, j);
    }
  }

  /** Interleaving the jobs' leases is doing each job's leases in their order. */
  lemma LeasePassesMean(views: Views, expired: seq<ExecutionId>, delay: JobId -> nat -> nat, now: Time)
    requires forall x :: x in expired ==> x.0 in views
    ensures LeasePasses(views, expired, delay, now) ==
            map j | j in views :: LeasePass(views[j], AttemptsOf(expired, j), delay(j), now)
  {
    forall j | j in views
      ensures LeasePasses(views, expired, delay, now)[j] ==
              LeasePass(views[j], AttemptsOf(expired, j), delay(j), now)
    {
      LeasePassesAt(views, expired, delay, now, j);
    }
  }

  /** Same rows but for the record; the record differs only on a terminal job, and exactly on an old claim on an
      expired last attempt, the only one that runs. */
  ghost predicate OrderOnlyShowsInRecord(
    c: Cell, staleFirst: Cell, leasesFirst: Cell, attempts: seq<nat>, timeout: int, now: Time)
  {
    && staleFirst.job == leasesFirst.job
    && staleFirst.executions == leasesFirst.executions
    && staleFirst.leases == leasesFirst.leases
    && staleFirst.outbox == leasesFirst.outbox && staleFirst.queue == leasesFirst.queue
    && (staleFirst.record != leasesFirst.record ==> staleFirst.job.status.Terminal())
    && (EveryInterleaving.AttemptChain(c) ==>
          (staleFirst.record != leasesFirst.record <==> OldClaimOnLastAttempt(c, attempts, timeout, now)))
  }

  lemma OneJobsOrder(c: Cell, attempts: seq<nat>, delay: nat -> nat, timeout: int, now: Time)
    ensures OrderOnlyShowsInRecord(c, LeasePass(StalePass(c, timeout, now), attempts, delay, now),
                                   StalePass(LeasePass(c, attempts, delay, now), timeout, now), attempts, timeout, now)
  {
    hide StalePass, LeasePass, EveryInterleaving.AttemptChain, OldClaimOnLastAttempt;
    OrderDoesNotMatter(c, attempts, delay, timeout, now);
    if EveryInterleaving.AttemptChain(c) {
      RecordsDifferIff(c, attempts, delay, timeout, now);
    }
  }

  /** With any number of jobs, the two passes may go in either order, as for one job. */
  lemma PassOrderDoesNotMatter(
    views: Views, stale: seq<JobId>, staleLater: seq<JobId>, expired: seq<ExecutionId>,
    delay: JobId -> nat -> nat, timeout: int, now: Time)
    requires forall x :: x in expired ==> x.0 in views
    requires forall j :: j in stale <==> j in views && S.Stale(views[j], timeout, now)
    requires
      var later := LeasePasses(views, expired, delay, now);
      forall j :: j in staleLater <==> j in later && S.Stale(later[j], timeout, now)
    ensures
      var staleFirst := LeasePasses(StalePasses(views, stale, timeout, now), expired, delay, now);
      var leasesFirst := StalePasses(LeasePasses(views, expired, delay, now), staleLater, timeout, now);
      forall j :: j in views ==>
        OrderOnlyShowsInRecord(views[j], staleFirst[j], leasesFirst[j], AttemptsOf(expired, j), timeout, now)
  {
    hide S.RecoverExpiredExecution, S.Stale, StalePass, LeasePass, StalePasses, LeasePasses,
         OrderOnlyShowsInRecord;
    StalePassesMean(views, stale, timeout, now);
    LeasePassesMean(views, expired, delay, now);
    StalePassesMean(LeasePasses(views, expired, delay, now), staleLater, timeout, now);
    LeasePassesMean(StalePasses(views, stale, timeout, now), expired, delay, now);
    var staleFirst := LeasePasses(StalePasses(views, stale, timeout, now), expired, delay, now);
    var leasesFirst := StalePasses(LeasePasses(views, expired, delay, now), staleLater, timeout, now);
    forall j | j in views
      ensures OrderOnlyShowsInRecord(
        views[j], staleFirst[j], leasesFirst[j], AttemptsOf(expired, j), timeout, now)
    {
      OneJobsOrder(views[j], AttemptsOf(expired, j), delay(j), timeout, now);
    }
  }

  // ---- one operation on each listed item

  /** An outbox row or queue entry of some job. */
  type Item = (JobId, Target)

  function Each(views: Views, items: seq<Item>, f: (Cell, Target) -> Cell): (after: Views)
    requires forall x :: x in items ==> x.0 in views
    ensures after.Keys == views.Keys
    decreases |items|
  {
    if items == [] then views
    else
      var before, last := Each(views, items[..|items| - 1], f), items[|items| - 1];
      assert last in items;
      before[last.0 := f(before[last.0], last.1)]
  }

  lemma EachNone(views: Views, f: (Cell, Target) -> Cell)
    ensures Each(views, [], f) == views
  {
  }

  lemma EachSnoc(views: Views, items: seq<Item>, x: Item, f: (Cell, Target) -> Cell)
    requires forall y :: y in items + [x] ==> y.0 in views
    ensures x.0 in views && forall y :: y in items ==> y.0 in views
    ensures
      var before := Each(views, items, f);
      Each(views, items + [x], f) == before[x.0 := f(before[x.0], x.1)]
  {
    assert x in items + [x] && forall y :: y in items ==> y in items + [x];
    assert (items + [x])[..|items|] == items;
  }

  function JobItems(items: seq<Item>): (part: seq<Item>)
    ensures forall x :: x in part <==> x in items && x.1.JobTarget?
  {
    if items == [] then []
    else (if items[0].1.JobTarget? then [items[0]] else []) + JobItems(items[1..])
  }

  function AttemptItems(items: seq<Item>): (part: seq<Item>)
    ensures forall x :: x in part <==> x in items && x.1.AttemptTarget?
  {
    if items == [] then []
    else (if items[0].1.AttemptTarget? then [items[0]] else []) + AttemptItems(items[1..])
  }

  // ---- publishing

  ghost predicate SameButOutbox(c: Cell, c': Cell) {
    c' == c.(outbox := c'.outbox, tally := c'.tally)
  }

  /** The listed rows, all PENDING or all PUBLISHED before, become `row`; the others stay. */
  ghost predicate RowsBecome(c: Cell, c': Cell, items: seq<Item>, j: JobId, row: OutboxRow) {
    && SameButOutbox(c, c')
    && c'.outbox.Keys == c.outbox.Keys
    && forall t :: t in c.outbox ==> c'.outbox[t] == if (j, t) in items then row else c.outbox[t]
  }

  function Claimed(now: Time): (Cell, Target) -> Cell { (c: Cell, t: Target) => S.ClaimOutbox(c, t, now) }

  function Unclaimed(): (Cell, Target) -> Cell { (c: Cell, t: Target) => S.ResetOutbox(c, t) }

  function Enqueued(): (Cell, Target) -> Cell { (c: Cell, t: Target) => c.(queue := S.Add(c.queue, t)) }

  lemma {:induction false} ClaimMeans(views: Views, items: seq<Item>, now: Time, j: JobId)
    requires forall x :: x in items ==>
      x.0 in views && x.1 in views[x.0].outbox && views[x.0].outbox[x.1].status.OutboxPending?
    requires j in views
    ensures RowsBecome(views[j], Each(views, items, Claimed(now))[j], items, j, OutboxRow(OutboxPublished, Some(now)))
    decreases |items|
  {
    if items != [] {
      var front, last := items[..|items| - 1], items[|items| - 1];
      assert items == front + [last] && last in items;
      ClaimMeans(views, front, now, j);
    }
  }

  lemma {:induction false} ResetMeans(views: Views, items: seq<Item>, j: JobId)
    requires forall x :: x in items ==>
      x.0 in views && x.1 in views[x.0].outbox && views[x.0].outbox[x.1].status.OutboxPublished?
    requires j in views
    ensures RowsBecome(views[j], Each(views, items, Unclaimed())[j], items, j, OutboxRow(OutboxPending, None))
    decreases |items|
  {
    if items != [] {
      var front, last := items[..|items| - 1], items[|items| - 1];
      assert items == front + [last] && last in items;
      ResetMeans(views, front, j);
    }
  }

  /** addBulk: listed ids wait in the queue unless they were there already; nothing else changes. */
  ghost predicate EntriesAdded(queue: Entries, queue': Entries, items: seq<Item>, j: JobId) {
    && (forall t :: t in queue' <==> t in queue || (j, t) in items)
    && (forall t :: t in queue ==> queue'[t] == queue[t])
    && (forall t :: t in queue' && t !in queue ==> queue'[t] == Waiting)
  }

  lemma {:induction false} EnqueueMeans(views: Views, items: seq<Item>, j: JobId)
    requires (forall x :: x in items ==> x.0 in views) && j in views
    ensures
      var c' := Each(views, items, Enqueued())[j];
      c' == views[j].(queue := c'.queue) && EntriesAdded(views[j].queue, c'.queue, items, j)
    decreases |items|
  {
    if items != [] {
      var front, last := items[..|items| - 1], items[|items| - 1];
      assert items == front + [last] && last in items;
      EnqueueMeans(views, front, j);
    }
  }

  /** Which claimed rows go back to PENDING: those of a failed addBulk, and those never attempted. */
  function FailedItems(batch: seq<Item>, jobsFail: bool, attemptsFail: bool): (failed: seq<Item>)
    ensures forall x :: x in failed ==> x in batch
    ensures forall x :: x in failed ==>
      if x.1.JobTarget? then jobsFail else attemptsFail || jobsFail
  {
    if jobsFail && JobItems(batch) != [] then batch
    else if attemptsFail && AttemptItems(batch) != [] then AttemptItems(batch)
    else []
  }

  function AddedJobs(batch: seq<Item>, jobsFail: bool): (added: seq<Item>)
    ensures forall x :: x in added ==> x in batch
  {
    if jobsFail && JobItems(batch) != [] then [] else JobItems(batch)
  }

  function AddedAttempts(batch: seq<Item>, jobsFail: bool, attemptsFail: bool): (added: seq<Item>)
    ensures forall x :: x in added ==> x in batch
  {
    if FailedItems(batch, jobsFail, attemptsFail) != [] then [] else AttemptItems(batch)
  }

  function RowAfter(c: Cell, batch: seq<Item>, failed: seq<Item>, j: JobId, t: Target, now: Time): OutboxRow
    requires t in c.outbox
  {
    if (j, t) in failed then OutboxRow(OutboxPending, None)
    else if (j, t) in batch then OutboxRow(OutboxPublished, Some(now))
    else c.outbox[t]
  }

  /** What publishing a claimed batch comes to, for one job. */
  ghost predicate Published(
    c: Cell, c': Cell, batch: seq<Item>, failed: seq<Item>, j: JobId, retention: nat, now: Time)
  {
    && c' == c.(outbox := c'.outbox, queue := c'.queue, tally := c'.tally)
    // a row goes only if it was PUBLISHED longer ago than the retention
    && (forall t :: t in c'.outbox <==>
          t in c.outbox && ((j, t) in batch || !S.Prunable(c.outbox[t], retention, now)))
    // a claimed row is PUBLISHED and its id is in the queue, or it is PENDING again
    && (forall t :: t in c'.outbox ==> c'.outbox[t] == RowAfter(c, batch, failed, j, t, now))
    && (forall t :: t in c'.queue <==> t in c.queue || ((j, t) in batch && (j, t) !in failed))
    // no other entry is touched
    && (forall t :: t in c'.queue ==> c'.queue[t] == if t in c.queue then c.queue[t] else Waiting)
  }

  /** Redis refuses a bulk only if there is one to add. */
  ghost predicate JobsRefused(batch: seq<Item>, jobsFail: bool) {
    jobsFail && exists x :: x in batch && x.1.JobTarget?
  }

  ghost predicate AttemptsRefused(batch: seq<Item>, attemptsFail: bool) {
    attemptsFail && exists x :: x in batch && x.1.AttemptTarget?
  }

  /**
   * One job's part of a pass: if the bulk of jobs is refused, every claimed row goes back, executions too,
   * and no id is added; if only that of executions is refused, the execution rows go back and the jobs are
   * queued; otherwise everything is PUBLISHED and queued.
   */
  ghost predicate PassDone(
    c: Cell, c': Cell, batch: seq<Item>, jobsFail: bool, attemptsFail: bool, j: JobId, retention: nat, now: Time)
  {
    && c' == c.(outbox := c'.outbox, queue := c'.queue, tally := c'.tally)
    && (forall t :: (j, t) in batch ==>
          && t in c'.outbox
          && if JobsRefused(batch, jobsFail) || (t.AttemptTarget? && AttemptsRefused(batch, attemptsFail))
             then c'.outbox[t] == OutboxRow(OutboxPending, None) && (t in c'.queue <==> t in c.queue)
             else c'.outbox[t] == OutboxRow(OutboxPublished, Some(now)) && t in c'.queue)
    // of the other rows those PUBLISHED longer ago than the retention are deleted
    && (forall t :: (j, t) !in batch ==>
          && (t in c'.outbox <==>
                && t in c.outbox
                && !(&& c.outbox[t].status.OutboxPublished? && c.outbox[t].publishedAt.Some?
                     && c.outbox[t].publishedAt.value + retention < now))
          && (t in c'.outbox ==> c'.outbox[t] == c.outbox[t])
          && (t in c'.queue <==> t in c.queue))
    // no entry that was there is touched
    && (forall t :: t in c'.queue ==> c'.queue[t] == if t in c.queue then c.queue[t] else Waiting)
  }

  lemma WhoFails(batch: seq<Item>, jobsFail: bool, attemptsFail: bool)
    ensures
      var failed := FailedItems(batch, jobsFail, attemptsFail);
      && (failed == [] <==> !JobsRefused(batch, jobsFail) && !AttemptsRefused(batch, attemptsFail))
      && forall x :: x in failed <==>
           && x in batch
           && (JobsRefused(batch, jobsFail) || (x.1.AttemptTarget? && AttemptsRefused(batch, attemptsFail)))
  {
    assert JobItems(batch) != [] ==> JobItems(batch)[0] in JobItems(batch);
    assert AttemptItems(batch) != [] ==> AttemptItems(batch)[0] in AttemptItems(batch);
    if x :| x in batch && x.1.JobTarget? {
      assert x in JobItems(batch);
    }
    if x :| x in batch && x.1.AttemptTarget? {
      assert x in AttemptItems(batch);
    }
  }

  lemma PassIsDone(
    c: Cell, c': Cell, batch: seq<Item>, jobsFail: bool, attemptsFail: bool, j: JobId, retention: nat, now: Time)
    requires forall t :: (j, t) in batch ==> t in c.outbox
    requires Published(c, c', batch, FailedItems(batch, jobsFail, attemptsFail), j, retention, now)
    ensures PassDone(c, c', batch, jobsFail, attemptsFail, j, retention, now)
  {
    hide FailedItems, JobsRefused, AttemptsRefused;
    WhoFails(batch, jobsFail, attemptsFail);
  }

  lemma PassesAreDone(
    was: Views, views: Views, batch: seq<Item>, jobsFail: bool, attemptsFail: bool, retention: nat, now: Time)
    requires views.Keys == was.Keys
    requires forall x :: x in batch ==> x.0 in was && x.1 in was[x.0].outbox
    requires forall j :: j in was ==>
      Published(was[j], views[j], batch, FailedItems(batch, jobsFail, attemptsFail), j, retention, now)
    ensures forall j :: j in was ==> PassDone(was[j], views[j], batch, jobsFail, attemptsFail, j, retention, now)
  {
    hide FailedItems, Published, PassDone;
    forall j | j in was
      ensures PassDone(was[j], views[j], batch, jobsFail, attemptsFail, j, retention, now)
    {
      PassIsDone(was[j], views[j], batch, jobsFail, attemptsFail, j, retention, now);
    }
  }

  /** The DELETE, as far as it has come: the jobs in `left` are still to be visited. */
  function PrunedBut(views: Views, left: set<JobId>, retention: nat, now: Time): (after: Views)
    ensures after.Keys == views.Keys
  {
    map j | j in views :: if j in left then views[j] else S.Prune(views[j], retention, now)
  }

  lemma PruneOneMore(views: Views, left: set<JobId>, j: JobId, retention: nat, now: Time)
    requires j in left && j in views
    ensures
      var before := PrunedBut(views, left, retention, now);
      PrunedBut(views, left - {j}, retention, now) == before[j := S.Prune(before[j], retention, now)]
  {
    hide S.Prune;
  }

  /** Claim, add two bulks, reset, prune: the steps of processPendingOutbox put together. */
  lemma PublishingMeans(
    c0: Cell, c1: Cell, c2: Cell, c3: Cell, c4: Cell,
    batch: seq<Item>, added: seq<Item>, addedToo: seq<Item>, failed: seq<Item>, j: JobId, retention: nat, now: Time)
    requires RowsBecome(c0, c1, batch, j, OutboxRow(OutboxPublished, Some(now)))
    requires c2 == c1.(queue := c2.queue) && EntriesAdded(c1.queue, c2.queue, added, j)
    requires c3 == c2.(queue := c3.queue) && EntriesAdded(c2.queue, c3.queue, addedToo, j)
    requires RowsBecome(c3, c4, failed, j, OutboxRow(OutboxPending, None))
    requires forall x :: x in batch <==> x in failed || x in added || x in addedToo
    requires forall x :: x in failed ==> x !in added && x !in addedToo
    ensures Published(c0, S.Prune(c4, retention, now), batch, failed, j, retention, now)
  {
  }

  /** Enqueue two bulks, then reset. */
  function Handover(views: Views, added: seq<Item>, addedToo: seq<Item>, failed: seq<Item>): (after: Views)
    requires forall x :: x in added + addedToo + failed ==> x.0 in views
    ensures after.Keys == views.Keys
  {
    assert forall x :: x in added || x in addedToo || x in failed ==> x in added + addedToo + failed;
    Each(Each(Each(views, added, Enqueued()), addedToo, Enqueued()), failed, Unclaimed())
  }

  /** The items of a batch are added or fail, not both. */
  ghost predicate Divides(batch: seq<Item>, added: seq<Item>, addedToo: seq<Item>, failed: seq<Item>) {
    && (forall x :: x in batch <==> x in added + addedToo + failed)
    && (forall x :: x in failed ==> x !in added && x !in addedToo)
  }

  lemma BatchDivides(batch: seq<Item>, jobsFail: bool, attemptsFail: bool)
    ensures Divides(batch, AddedJobs(batch, jobsFail), AddedAttempts(batch, jobsFail, attemptsFail),
                    FailedItems(batch, jobsFail, attemptsFail))
  {
    forall x
      ensures x in batch <==> x in AddedJobs(batch, jobsFail) + AddedAttempts(batch, jobsFail, attemptsFail)
                                     + FailedItems(batch, jobsFail, attemptsFail)
    {
      assert x in batch <==> x in JobItems(batch) || x in AttemptItems(batch);
    }
  }

  lemma PublishPassMeans(
    v0: Views, batch: seq<Item>, added: seq<Item>, addedToo: seq<Item>, failed: seq<Item>, retention: nat, now: Time)
    requires forall x :: x in batch ==>
      x.0 in v0 && x.1 in v0[x.0].outbox && v0[x.0].outbox[x.1].status.OutboxPending?
    requires Divides(batch, added, addedToo, failed)
    ensures
      var v := PrunedBut(Handover(Each(v0, batch, Claimed(now)), added, addedToo, failed), {}, retention, now);
      forall j :: j in v0 ==> Published(v0[j], v[j], batch, failed, j, retention, now)
  {
    hide Each, Claimed, Unclaimed, Enqueued, S.Prune, Published;
    assert forall x :: x in added || x in addedToo || x in failed ==> x in added + addedToo + failed;
    var v1 := Each(v0, batch, Claimed(now));
    var v2 := Each(v1, added, Enqueued());
    var v3 := Each(v2, addedToo, Enqueued());
    forall x | x in failed
      ensures x.1 in v3[x.0].outbox && v3[x.0].outbox[x.1].status.OutboxPublished?
    {
      ClaimMeans(v0, batch, now, x.0);
      EnqueueMeans(v1, added, x.0);
      EnqueueMeans(v2, addedToo, x.0);
    }
    var v4 := Each(v3, failed, Unclaimed());
    forall j | j in v0
      ensures Published(v0[j], S.Prune(v4[j], retention, now), batch, failed, j, retention, now)
    {
      ClaimMeans(v0, batch, now, j);
      EnqueueMeans(v1, added, j);
      EnqueueMeans(v2, addedToo, j);
      ResetMeans(v3, failed, j);
      PublishingMeans(v0[j], v1[j], v2[j], v3[j], v4[j], batch, added, addedToo, failed, j, retention, now);
    }
  }
}
