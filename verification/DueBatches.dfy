/** The claim transactions on values: update every claimed row, then insert every outbox row. */
module DueBatches {
  import opened Rows
  import opened Batches
  import opened Database
  import W = World
  import AnyRun
  import opened EveryInterleaving
  import opened Protocol
  import S = Statements

  predicate Due(c: Cell, t: Target, now: Time) {
    if t.JobTarget? then S.JobDue(c, now) else S.AttemptDue(c, t.attempt, now)
  }

  /** The part of the UPDATE that concerns one row. */
  function QueueRow(c: Cell, t: Target, now: Time): Cell {
    if t.JobTarget? then S.QueueJob(c, now)
    else if t.attempt in c.executions then S.QueueAttempt(c, t.attempt, now)
    else c
  }

  function InsertRow(c: Cell, t: Target): Cell { S.CreateOutbox(c, t).GetOr(c) }

  /** The protocol's step for one row. */
  function ClaimDueRow(c: Cell, t: Target, now: Time): Cell {
    if t.JobTarget? then S.ClaimDueJob(c, now).GetOr(c) else S.ClaimDueExecution(c, t.attempt, now).GetOr(c)
  }

  function QueuedRow(now: Time): (Cell, Target) -> Cell { (c: Cell, t: Target) => QueueRow(c, t, now) }

  function InsertedRow(): (Cell, Target) -> Cell { (c: Cell, t: Target) => InsertRow(c, t) }

  function ClaimedDueRow(now: Time): (Cell, Target) -> Cell { (c: Cell, t: Target) => ClaimDueRow(c, t, now) }

  ghost predicate Distinct(items: seq<Item>) {
    forall i, k :: 0 <= i < k < |items| ==> items[i] != items[k]
  }

  lemma NextItem(items: seq<Item>, i: nat)
    requires Distinct(items) && i < |items|
    ensures items[i] in items && items[i] !in items[..i] && items[..i + 1] == items[..i] + [items[i]]
  {
  }

  /** UPDATE ... RETURNING hands out each due row once. */
  ghost predicate DueItems(views: Views, items: seq<Item>, now: Time) {
    Distinct(items) && forall x :: x in items ==> x.0 in views && Due(views[x.0], x.1, now)
  }

  // ---- the inserts

  /** Inserting touches the outbox only, and puts exactly the listed rows there. */
  lemma {:induction false} InsertsMean(views: Views, items: seq<Item>, j: JobId)
    requires (forall x :: x in items ==> x.0 in views) && j in views
    ensures
      var c' := Each(views, items, InsertedRow())[j];
      && c' == views[j].(outbox := c'.outbox, tally := c'.tally)
      && forall t :: t in c'.outbox <==> t in views[j].outbox || (j, t) in items
    decreases |items|
  {
    if items != [] {
      var front, last := items[..|items| - 1], items[|items| - 1];
      assert items == front + [last] && last in items;
      InsertsMean(views, front, j);
    }
  }

  lemma AllInsertsMean(views: Views, items: seq<Item>)
    requires forall x :: x in items ==> x.0 in views
    ensures forall j :: j in views ==> Each(views, items, InsertedRow())[j].queue == views[j].queue
  {
    hide Each;
    forall j | j in views
      ensures Each(views, items, InsertedRow())[j].queue == views[j].queue
    {
      InsertsMean(views, items, j);
    }
  }

  lemma QueueKeepsOutbox(c: Cell, t: Target, now: Time)
    ensures QueueRow(c, t, now).outbox == c.outbox && QueueRow(c, t, now).queue == c.queue
  {
  }

  lemma {:induction false} QueuesKeepOutbox(views: Views, items: seq<Item>, now: Time, j: JobId)
    requires (forall x :: x in items ==> x.0 in views) && j in views
    ensures
      var c' := Each(views, items, QueuedRow(now))[j];
      c'.outbox == views[j].outbox && c'.queue == views[j].queue
    decreases |items|
  {
    hide QueueRow;
    if items != [] {
      var front, last := items[..|items| - 1], items[|items| - 1];
      assert items == front + [last] && last in items;
      QueuesKeepOutbox(views, front, now, j);
      QueueKeepsOutbox(Each(views, front, QueuedRow(now))[last.0], last.1, now);
    }
  }

  lemma QueueBatchMeans(views: Views, items: seq<Item>, now: Time)
    requires forall x :: x in items ==> x.0 in views
    ensures forall j :: j in views ==>
      var c' := Each(views, items, QueuedRow(now))[j];
      c'.outbox == views[j].outbox && c'.queue == views[j].queue
  {
    hide Each;
    forall j | j in views
      ensures
        var c' := Each(views, items, QueuedRow(now))[j];
        c'.outbox == views[j].outbox && c'.queue == views[j].queue
    {
      QueuesKeepOutbox(views, items, now, j);
    }
  }

  // ---- the batch is its rows' steps, one after another

  lemma QueueThenInsert(c: Cell, t: Target, u: Target, now: Time)
    ensures InsertRow(QueueRow(c, t, now), u) == QueueRow(InsertRow(c, u), t, now)
  {
  }

  lemma StepIsQueueThenInsert(c: Cell, t: Target, now: Time)
    requires Due(c, t, now)
    ensures ClaimDueRow(c, t, now) == if t in c.outbox then c else InsertRow(QueueRow(c, t, now), t)
  {
  }

  /** One row queued earlier or later than other rows' inserts. */
  lemma {:induction false} QueueLater(views: Views, items: seq<Item>, x: Item, now: Time)
    requires (forall y :: y in items ==> y.0 in views) && x.0 in views
    ensures
      var w := Each(views, items, InsertedRow());
      Each(views[x.0 := QueuedRow(now)(views[x.0], x.1)], items, InsertedRow()) ==
      w[x.0 := QueuedRow(now)(w[x.0], x.1)]
    decreases |items|
  {
    hide QueueRow, InsertRow;
    if items != [] {
      var front, last := items[..|items| - 1], items[|items| - 1];
      assert items == front + [last] && last in items;
      QueueLater(views, front, x, now);
      QueueThenInsert(Each(views, front, InsertedRow())[x.0], x.1, last.1, now);
    }
  }

  lemma StepKeepsDue(c: Cell, t: Target, u: Target, now: Time)
    requires Due(c, t, now) && u != t
    ensures Due(ClaimDueRow(c, u, now), t, now)
  {
  }

  lemma {:induction false} StepsKeepDue(views: Views, items: seq<Item>, x: Item, now: Time)
    requires (forall y :: y in items ==> y.0 in views) && x !in items && x.0 in views
    requires Due(views[x.0], x.1, now)
    ensures Due(Each(views, items, ClaimedDueRow(now))[x.0], x.1, now)
    decreases |items|
  {
    hide ClaimDueRow, Due;
    if items != [] {
      var front, last := items[..|items| - 1], items[|items| - 1];
      assert items == front + [last] && last in items;
      StepsKeepDue(views, front, x, now);
      if last.0 == x.0 {
        StepKeepsDue(Each(views, front, ClaimedDueRow(now))[x.0], x.1, last.1, now);
      }
    }
  }

  lemma DueFront(views: Views, front: seq<Item>, last: Item, now: Time)
    requires DueItems(views, front + [last], now)
    ensures DueItems(views, front, now) && last !in front && last.0 in views && Due(views[last.0], last.1, now)
  {
    var items := front + [last];
    assert forall i :: 0 <= i < |front| ==> items[i] == front[i];
    assert items[|front|] == last && last in items;
    assert forall x :: x in front ==> x in items;
  }

  /** A batch that meets no unique constraint does to every job what its rows' own steps do. */
  lemma {:induction false} BatchIsItsSteps(views: Views, items: seq<Item>, now: Time)
    requires DueItems(views, items, now) && forall x :: x in items ==> x.1 !in views[x.0].outbox
    ensures Each(Each(views, items, QueuedRow(now)), items, InsertedRow()) == Each(views, items, ClaimedDueRow(now))
    decreases |items|
  {
    if items != [] {
      var front, last := items[..|items| - 1], items[|items| - 1];
      assert items == front + [last] && last in items;
      DueFront(views, front, last, now);
      BatchIsItsSteps(views, front, now);
      LastStep(views, front, last, now);
    }
  }

  lemma LastStep(views: Views, front: seq<Item>, last: Item, now: Time)
    requires DueItems(views, front, now) && last !in front && last.0 in views
    requires Due(views[last.0], last.1, now) && last.1 !in views[last.0].outbox
    requires forall x :: x in front + [last] ==> x.0 in views
    requires Each(Each(views, front, QueuedRow(now)), front, InsertedRow()) == Each(views, front, ClaimedDueRow(now))
    ensures Each(Each(views, front + [last], QueuedRow(now)), front + [last], InsertedRow()) ==
            Each(views, front + [last], ClaimedDueRow(now))
  {
    hide Each, QueueRow, InsertRow, ClaimDueRow, Due;
    var queued := Each(views, front, QueuedRow(now));
    var before := Each(views, front, ClaimedDueRow(now));
    EachSnoc(views, front, last, QueuedRow(now));
    EachSnoc(views, front, last, ClaimedDueRow(now));
    EachSnoc(Each(views, front + [last], QueuedRow(now)), front, last, InsertedRow());
    QueueLater(queued, front, last, now);
    StepsKeepDue(views, front, last, now);
    QueuesKeepOutbox(views, front, now, last.0);
    InsertsMean(queued, front, last.0);
    StepIsQueueThenInsert(before[last.0], last.1, now);
  }

  // ---- the unique constraints are never met

  lemma DueIsNotOutboxed(s: System, t: Target)
    requires Inv(s) && Due(s.cell, t, s.now)
    ensures t !in s.cell.outbox
  {
    AnyRun.OutboxNeverCollides(s, if t.AttemptTarget? then t.attempt else 0);
    hide Inv;
  }

  /** Whatever happened before, with any number of jobs, a claim transaction commits. */
  lemma ClaimsAlwaysCommit(cfg: Config, events: seq<W.Event>, items: seq<Item>)
    requires forall i :: 0 <= i < |events| ==> W.Acceptable(events[i])
    requires
      var w := W.Unfold(cfg, W.EMPTY, events);
      DueItems(W.CellsOf(w), items, w.now)
    ensures forall x :: x in items ==> x.1 !in W.CellsOf(W.Unfold(cfg, W.EMPTY, events))[x.0].outbox
  {
    hide Inv, W.Happen;
    var w := W.Unfold(cfg, W.EMPTY, events);
    W.WorldReachable(cfg, W.EMPTY, events);
    forall x | x in items
      ensures x.1 !in W.CellsOf(w)[x.0].outbox
    {
      DueIsNotOutboxed(w.systems[x.0], x.1);
    }
  }

  // ---- rolling back

  /** The rows a transaction saved, with what it does not cover. */
  ghost function SavedView(saved: Saved, queue: Entries, tally: Tally): Cell {
    Cell(saved.job, saved.record, saved.executions, saved.leases, saved.outbox, queue, tally)
  }

  ghost predicate SavedAll(saved: map<JobId, Saved>, tallies: map<JobId, Tally>, was: Views) {
    && saved.Keys == tallies.Keys == was.Keys
    && forall j :: j in was ==> SavedView(saved[j], was[j].queue, tallies[j]) == was[j]
  }

  /** The ROLLBACK, as far as it has come: the jobs in `left` are still to be visited. */
  ghost function RolledBackBut(reached: Views, was: Views, left: set<JobId>): (after: Views)
    requires reached.Keys == was.Keys
    ensures after.Keys == reached.Keys
  {
    map j | j in reached :: if j in left then reached[j] else was[j].(queue := reached[j].queue)
  }

  lemma RollbackOneMore(
    reached: Views, was: Views, left: set<JobId>, j: JobId,
    saved: map<JobId, Saved>, tallies: map<JobId, Tally>)
    requires reached.Keys == was.Keys && j in left && j in reached && SavedAll(saved, tallies, was)
    ensures
      var before := RolledBackBut(reached, was, left);
      && j in saved && j in tallies
      && RolledBackBut(reached, was, left - {j}) == before[j := SavedView(saved[j], before[j].queue, tallies[j])]
  {
  }

  lemma RollbackMeans(reached: Views, was: Views)
    requires reached.Keys == was.Keys
    requires forall j :: j in was ==> reached[j].queue == was[j].queue
    ensures RolledBackBut(reached, was, {}) == was
  {
  }
}
