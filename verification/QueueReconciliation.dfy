/** queue-reconciliation.service.ts: put the entries of QUEUED rows that the queue has lost back. */
module QueueReconciliation {
  import opened Rows
  import opened Batches
  import opened DueBatches
  import opened SchedulerService
  import S = Statements

  // ---- what a pass comes to

  /** Which of the two addBulk calls Redis refuses. */
  datatype Refusal = Refusal(jobs: bool, executions: bool)
  {
    predicate Of(t: Target) { if t.JobTarget? then jobs else executions }
  }

  /**
   * A suspect whose entry is absent, completed or failed gets a new waiting one, or none if its bulk is refused.
   * Waiting, active, delayed, prioritized and waiting-children entries, and entries of others, stay as they are.
   */
  ghost predicate Repaired(c: Cell, c': Cell, suspects: seq<Item>, refusal: Refusal, j: JobId) {
    && c' == c.(queue := c'.queue)
    && forall t ::
         if (j, t) in suspects && (t !in c.queue || c.queue[t].EntryCompleted? || c.queue[t].EntryFailed?)
         then (t in c'.queue <==> !refusal.Of(t)) && (t in c'.queue ==> c'.queue[t] == Waiting)
         else (t in c'.queue <==> t in c.queue) && (t in c'.queue ==> c'.queue[t] == c.queue[t])
  }

  /** Unless Redis refuses, every suspect is runnable afterwards. */
  lemma SuspectsBecomeRunnable(c: Cell, c': Cell, suspects: seq<Item>, refusal: Refusal, j: JobId, t: Target)
    requires Repaired(c, c', suspects, refusal, j) && (j, t) in suspects && !refusal.Of(t)
    ensures t in c'.queue && !c'.queue[t].EntryCompleted? && !c'.queue[t].EntryFailed?
  {
  }

  /** What Redis refused, the next pass over the same rows makes good; an undisturbed pass needs no other. */
  lemma NextPassMakesGood(c: Cell, c1: Cell, c2: Cell, suspects: seq<Item>, refusal: Refusal, j: JobId)
    requires Repaired(c, c1, suspects, refusal, j) && Repaired(c1, c2, suspects, Refusal(false, false), j)
    ensures Repaired(c, c2, suspects, Refusal(false, false), j)
    ensures refusal == Refusal(false, false) ==> c2 == c1
  {
    if refusal == Refusal(false, false) {
      forall t
        ensures t in c2.queue <==> t in c1.queue
        ensures t in c2.queue ==> c2.queue[t] == c1.queue[t]
      {
        assert (j, t) in suspects ==> t in c1.queue && !c1.queue[t].EntryCompleted? && !c1.queue[t].EntryFailed?;
      }
      assert c2.queue == c1.queue;
    }
  }

  /** Nothing that BullMQ would still hand to a worker. */
  predicate Lost(queue: Entries, t: Target) {
    t !in queue || queue[t].EntryCompleted? || queue[t].EntryFailed?
  }

  // ---- looking the suspects up

  function Removed(): (Cell, Target) -> Cell { (c: Cell, t: Target) => c.(queue := S.RemoveTerminal(c.queue, t)) }

  /** The suspects without a runnable entry, in their order. */
  function Missing(views: Views, suspects: seq<Item>): (missing: seq<Item>)
    requires forall x :: x in suspects ==> x.0 in views
    ensures forall x :: x in missing <==>
      && x in suspects
      && var queue := views[x.0].queue;
         x.1 !in queue || queue[x.1].EntryCompleted? || queue[x.1].EntryFailed?
    decreases |suspects|
  {
    if suspects == [] then []
    else
      var front, last := suspects[..|suspects| - 1], suspects[|suspects| - 1];
      assert suspects == front + [last] && last in suspects;
      Missing(views, front) + (if S.RunnableEntry(views[last.0].queue, last.1) then [] else [last])
  }

  /** Of the suspects, only entries that are not runnable go. */
  lemma {:induction false} RemovalsMean(views: Views, suspects: seq<Item>, j: JobId)
    requires (forall x :: x in suspects ==> x.0 in views) && j in views
    ensures
      var c, c' := views[j], Each(views, suspects, Removed())[j];
      && c' == c.(queue := c'.queue)
      && (forall t :: t in c'.queue <==> t in c.queue && ((j, t) in suspects ==> S.Runnable(c.queue[t])))
      && (forall t :: t in c'.queue ==> c'.queue[t] == c.queue[t])
    decreases |suspects|
  {
    hide S.Runnable;
    if suspects != [] {
      var front, last := suspects[..|suspects| - 1], suspects[|suspects| - 1];
      assert suspects == front + [last] && last in suspects;
      RemovalsMean(views, front, j);
    }
  }

  lemma LookupsGrow(views: Views, front: seq<Item>, x: Item)
    requires forall y :: y in front + [x] ==> y.0 in views
    ensures x.0 in views && forall y :: y in front ==> y.0 in views
    ensures
      var before, runnable := Each(views, front, Removed()), S.RunnableEntry(views[x.0].queue, x.1);
      && S.RunnableEntry(before[x.0].queue, x.1) == runnable
      && Missing(views, front + [x]) == Missing(views, front) + (if runnable then [] else [x])
      && Each(views, front + [x], Removed()) ==
         before[x.0 := before[x.0].(queue := S.RemoveTerminal(before[x.0].queue, x.1))]
  {
    assert x in front + [x] && forall y :: y in front ==> y in front + [x];
    assert (front + [x])[..|front|] == front;
    RemovalsMean(views, front, x.0);
    EachSnoc(views, front, x, Removed());
  }

  /** One of the two loops: look every suspect up, remove a retained entry, note it as missing. */
  method LookUp(tables: Tables, suspects: seq<Item>) returns (missing: seq<Item>)
    requires tables.Valid() && forall x :: x in suspects ==> x.0 in tables.rows
    modifies tables.Repr()
    ensures missing == Missing(old(tables.Views()), suspects)
    ensures tables.Views() == Each(old(tables.Views()), suspects, Removed())
  {
    ghost var was := tables.Views();
    missing := [];
    for i := 0 to |suspects|
      invariant missing == Missing(was, suspects[..i])
      invariant tables.Views() == Each(was, suspects[..i], Removed())
    {
      hide S.RunnableEntry, S.RemoveTerminal;
      var x := suspects[i];
      assert x in suspects && suspects[..i + 1] == suspects[..i] + [x];
      LookupsGrow(was, suspects[..i], x);
      var runnable := tables.LookUpEntry(x);
      if !runnable {
        missing := missing + [x];
      }
    }
    assert suspects[..|suspects|] == suspects;
  }

  // ---- the pass

  /** Removals do not change who is missing. */
  lemma {:induction false} StillMissing(views: Views, removed: seq<Item>, suspects: seq<Item>)
    requires forall x :: x in removed || x in suspects ==> x.0 in views
    ensures Missing(Each(views, removed, Removed()), suspects) == Missing(views, suspects)
    decreases |suspects|
  {
    hide S.Runnable;
    if suspects != [] {
      var front, last := suspects[..|suspects| - 1], suspects[|suspects| - 1];
      assert suspects == front + [last] && last in suspects;
      StillMissing(views, removed, front);
      RemovalsMean(views, removed, last.0);
    }
  }

  /** Two rounds of removals, then two bulks, one job's part. */
  lemma PassMeans(
    c0: Cell, c1: Cell, c2: Cell, c3: Cell, c4: Cell, jobs: seq<Item>, executions: seq<Item>,
    added: seq<Item>, addedToo: seq<Item>, refusal: Refusal, j: JobId)
    requires c1 == c0.(queue := c1.queue) && c2 == c1.(queue := c2.queue)
    requires forall t :: t in c1.queue <==> t in c0.queue && ((j, t) in jobs ==> S.Runnable(c0.queue[t]))
    requires forall t :: t in c1.queue ==> c1.queue[t] == c0.queue[t]
    requires forall t :: t in c2.queue <==> t in c1.queue && ((j, t) in executions ==> S.Runnable(c1.queue[t]))
    requires forall t :: t in c2.queue ==> c2.queue[t] == c1.queue[t]
    requires c3 == c2.(queue := c3.queue) && EntriesAdded(c2.queue, c3.queue, added, j)
    requires c4 == c3.(queue := c4.queue) && EntriesAdded(c3.queue, c4.queue, addedToo, j)
    requires forall t :: (j, t) in jobs ==> t.JobTarget?
    requires forall t :: (j, t) in executions ==> t.AttemptTarget?
    requires forall t :: (j, t) in added <==>
      (j, t) in jobs && Lost(c0.queue, t) && !refusal.jobs
    requires forall t :: (j, t) in addedToo <==>
      (j, t) in executions && Lost(c0.queue, t) && !refusal.executions
    ensures Repaired(c0, c4, jobs + executions, refusal, j)
  {
  }

  /** The rows after both rounds of lookups. */
  ghost function AfterLookups(v0: Views, jobs: seq<Item>, executions: seq<Item>): (after: Views)
    requires forall x :: x in jobs + executions ==> x.0 in v0
    ensures after.Keys == v0.Keys
  {
    assert forall x :: x in jobs || x in executions ==> x in jobs + executions;
    Each(Each(v0, jobs, Removed()), executions, Removed())
  }

  lemma PassRepairs(
    v0: Views, jobs: seq<Item>, executions: seq<Item>, added: seq<Item>, addedToo: seq<Item>, refusal: Refusal)
    requires forall x :: x in jobs + executions ==> x.0 in v0
    requires forall x :: x in jobs ==> x.1.JobTarget?
    requires forall x :: x in executions ==> x.1.AttemptTarget?
    requires forall x :: x in added <==>
      x in jobs && Lost(v0[x.0].queue, x.1) && !refusal.jobs
    requires forall x :: x in addedToo <==>
      x in executions && Lost(v0[x.0].queue, x.1) && !refusal.executions
    ensures forall x :: x in added || x in addedToo ==> x in jobs + executions
    ensures
      var v4 := Each(Each(AfterLookups(v0, jobs, executions), added, Enqueued()), addedToo, Enqueued());
      forall j :: j in v0 ==> Repaired(v0[j], v4[j], jobs + executions, refusal, j)
  {
    hide Each, Repaired, S.Runnable;
    assert forall x :: x in jobs || x in executions ==> x in jobs + executions;
    var v1 := Each(v0, jobs, Removed());
    var v2 := Each(v1, executions, Removed());
    var v3 := Each(v2, added, Enqueued());
    var v4 := Each(v3, addedToo, Enqueued());
    forall j | j in v0
      ensures Repaired(v0[j], v4[j], jobs + executions, refusal, j)
    {
      RemovalsMean(v0, jobs, j);
      RemovalsMean(v1, executions, j);
      EnqueueMeans(v2, added, j);
      EnqueueMeans(v3, addedToo, j);
      PassMeans(v0[j], v1[j], v2[j], v3[j], v4[j], jobs, executions, added, addedToo, refusal, j);
    }
  }

  /** `jobs` and `executions` are the suspects that the two queries selected. */
  method ProcessQueueReconciliation(tables: Tables, jobs: seq<Item>, executions: seq<Item>, refusal: Refusal)
    returns (requeued: nat)
    requires tables.Valid()
    requires forall x :: x in jobs ==> x.0 in tables.rows && x.1.JobTarget?
    requires forall x :: x in executions ==> x.0 in tables.rows && x.1.AttemptTarget?
    modifies tables.Repr()
    ensures requeued == |Missing(old(tables.Views()), jobs)| + |Missing(old(tables.Views()), executions)|
    ensures Distinct(jobs) && Distinct(executions) ==>
      requeued == |set x | x in jobs && Lost(old(tables.Views())[x.0].queue, x.1)|
                  + |set x | x in executions && Lost(old(tables.Views())[x.0].queue, x.1)|
    ensures forall j :: j in tables.rows ==>
      Repaired(old(tables.Views())[j], tables.Views()[j], jobs + executions, refusal, j)
  {
    hide Each, S.RunnableEntry, Repaired, Distinct;
    ghost var was := tables.Views();
    var missingJobs := LookUp(tables, jobs);
    var missingExecutions := LookUp(tables, executions);
    StillMissing(was, jobs, executions);
    ghost var added := if refusal.jobs then [] else missingJobs;
    ghost var addedToo := if refusal.executions then [] else missingExecutions;
    EachNone(tables.Views(), Enqueued());
    PassRepairs(was, jobs, executions, added, addedToo, refusal);
    if !refusal.jobs {
      tables.EnqueueBulk(missingJobs);
    }
    EachNone(tables.Views(), Enqueued());
    if !refusal.executions {
      tables.EnqueueBulk(missingExecutions);
    }
    requeued := |missingJobs| + |missingExecutions|;
    LostCounted(was, jobs, executions);
  }

  lemma {:induction false} DistinctSize(items: seq<Item>)
    requires Distinct(items)
    ensures |set x | x in items| == |items|
    decreases |items|
  {
    if items != [] {
      var front, last := items[..|items| - 1], items[|items| - 1];
      DistinctSize(front);
      assert last !in front;
      assert items == front + [last];
      assert (set x | x in items) == (set x | x in front) + {last};
    }
  }

  lemma {:induction false} MissingDistinct(views: Views, suspects: seq<Item>)
    requires Distinct(suspects) && forall x :: x in suspects ==> x.0 in views
    ensures Distinct(Missing(views, suspects))
    decreases |suspects|
  {
    hide S.RunnableEntry;
    if suspects != [] {
      var front, last := suspects[..|suspects| - 1], suspects[|suspects| - 1];
      assert suspects == front + [last] && last !in front;
      MissingDistinct(views, front);
    }
  }

  /** The number returned: how many suspects, each counted once, had no runnable entry. */
  lemma MissingCounts(views: Views, suspects: seq<Item>)
    requires Distinct(suspects) && forall x :: x in suspects ==> x.0 in views
    ensures |Missing(views, suspects)| ==
            |set x | x in suspects && Lost(views[x.0].queue, x.1)|
  {
    hide Distinct;
    var missing := Missing(views, suspects);
    MissingDistinct(views, suspects);
    DistinctSize(missing);
    assert (set x | x in missing) == set x | x in suspects && Lost(views[x.0].queue, x.1);
  }

  lemma LostCounted(views: Views, jobs: seq<Item>, executions: seq<Item>)
    requires forall x :: x in jobs || x in executions ==> x.0 in views
    ensures Distinct(jobs) && Distinct(executions) ==>
      |Missing(views, jobs)| + |Missing(views, executions)|
      == |set x | x in jobs && Lost(views[x.0].queue, x.1)| + |set x | x in executions && Lost(views[x.0].queue, x.1)|
  {
    hide Missing, Distinct, Lost;
    if Distinct(jobs) && Distinct(executions) {
      MissingCounts(views, jobs);
      MissingCounts(views, executions);
    }
  }
}
