/** heartbeat.ts, renewActiveLeases: one round over the registered executions. */
module Renewals {
  import opened Rows
  import opened Batches
  import opened Heartbeat
  import opened SchedulerService
  import S = Statements

  type Registry = map<ExecutionId, WorkerId>

  /** renewLease answers for this registered execution, and finds its lease still good. */
  predicate Renews(c: Cell, active: Registry, throws: set<ExecutionId>, j: JobId, k: nat, now: Time) {
    (j, k) in active && (j, k) !in throws && S.Renewable(c, k, active[(j, k)], now)
  }

  /** Of the executions in `visited`, the renewable leases run anew; no other lease is touched. */
  ghost predicate RenewedRows(
    c: Cell, c': Cell, active: Registry, visited: seq<ExecutionId>, throws: set<ExecutionId>,
    j: JobId, duration: nat, clock: ExecutionId -> Time)
  {
    && c' == c.(leases := c'.leases)
    && c'.leases.Keys == c.leases.Keys
    && forall k :: k in c.leases ==>
         c'.leases[k] ==
         if (j, k) in visited && Renews(c, active, throws, j, k, clock((j, k)))
         then c.leases[k].(expiresAt := clock((j, k)) + duration)
         else c.leases[k]
  }

  /** Whoever was visited, answered for and not renewed is no longer registered. */
  ghost predicate KeptRegistered(
    was: Views, active: Registry, active': Registry, visited: seq<ExecutionId>, throws: set<ExecutionId>,
    clock: ExecutionId -> Time)
    requires forall id :: id in active ==> id.0 in was
  {
    && (forall id :: id in active' ==> id in active && active'[id] == active[id])
    && (forall id :: id in active ==>
          (id in active' <==>
             id in visited ==> id in throws || S.Renewable(was[id.0], id.1, active[id], clock(id))))
  }

  lemma OneMoreRenewed(
    c0: Cell, c: Cell, active: Registry, visited: seq<ExecutionId>, throws: set<ExecutionId>,
    id: ExecutionId, duration: nat, clock: ExecutionId -> Time)
    requires RenewedRows(c0, c, active, visited, throws, id.0, duration, clock) && id !in visited && id in active
    ensures S.Renewable(c, id.1, active[id], clock(id)) == S.Renewable(c0, id.1, active[id], clock(id))
    ensures
      var c' := if id in throws then c else S.RenewLease(c, id.1, active[id], duration, clock(id));
      RenewedRows(c0, c', active, visited + [id], throws, id.0, duration, clock)
  {
  }

  lemma OtherJobRenewed(
    c0: Cell, c: Cell, active: Registry, visited: seq<ExecutionId>, throws: set<ExecutionId>,
    id: ExecutionId, j: JobId, duration: nat, clock: ExecutionId -> Time)
    requires RenewedRows(c0, c, active, visited, throws, j, duration, clock) && j != id.0
    ensures RenewedRows(c0, c, active, visited + [id], throws, j, duration, clock)
  {
  }

  ghost predicate AllRenewed(
    was: Views, views: Views, active: Registry, visited: seq<ExecutionId>, throws: set<ExecutionId>,
    duration: nat, clock: ExecutionId -> Time)
  {
    && views.Keys == was.Keys
    && forall j :: j in was ==> RenewedRows(was[j], views[j], active, visited, throws, j, duration, clock)
  }

  /** What a round that has visited `visited` has made of the rows and of the registry. */
  ghost predicate RoundSoFar(
    was: Views, views: Views, active: Registry, active': Registry, visited: seq<ExecutionId>,
    throws: set<ExecutionId>, duration: nat, clock: ExecutionId -> Time)
  {
    && (forall id :: id in active ==> id.0 in was)
    && KeptRegistered(was, active, active', visited, throws, clock)
    && AllRenewed(was, views, active, visited, throws, duration, clock)
  }

  /** The rows after one turn of the loop. */
  function Turn(views: Views, worker: WorkerId, throws: set<ExecutionId>, id: ExecutionId, duration: nat, now: Time):
    Views
    requires id.0 in views
  {
    if id in throws then views
    else views[id.0 := S.RenewLease(views[id.0], id.1, worker, duration, now)]
  }

  lemma OneTurn(
    was: Views, views: Views, active: Registry, visited: seq<ExecutionId>, throws: set<ExecutionId>,
    id: ExecutionId, duration: nat, clock: ExecutionId -> Time)
    requires AllRenewed(was, views, active, visited, throws, duration, clock)
    requires id in active && id !in visited && id.0 in was
    ensures S.Renewable(views[id.0], id.1, active[id], clock(id)) == S.Renewable(was[id.0], id.1, active[id], clock(id))
    ensures AllRenewed(was, Turn(views, active[id], throws, id, duration, clock(id)), active, visited + [id], throws,
                       duration, clock)
  {
    hide RenewedRows, S.RenewLease, S.Renewable;
    OneMoreRenewed(was[id.0], views[id.0], active, visited, throws, id, duration, clock);
    forall j | j in was && j != id.0
      ensures RenewedRows(was[j], views[j], active, visited + [id], throws, j, duration, clock)
    {
      OtherJobRenewed(was[j], views[j], active, visited, throws, id, j, duration, clock);
    }
  }

  lemma OneMore(
    was: Views, views: Views, active: Registry, active': Registry, visited: seq<ExecutionId>,
    throws: set<ExecutionId>, id: ExecutionId, duration: nat, clock: ExecutionId -> Time)
    requires RoundSoFar(was, views, active, active', visited, throws, duration, clock)
    requires id in active && id !in visited && id.0 in views
    ensures id in active' && active'[id] == active[id]
    ensures
      var keep := id in throws || S.Renewable(views[id.0], id.1, active[id], clock(id));
      RoundSoFar(was, Turn(views, active[id], throws, id, duration, clock(id)), active,
                 if keep then active' else active' - {id}, visited + [id], throws, duration, clock)
  {
    hide S.Renewable, AllRenewed;
    assert views.Keys == was.Keys by { SameJobs(was, views, active, visited, throws, duration, clock); }
    OneTurn(was, views, active, visited, throws, id, duration, clock);
  }

  lemma SameJobs(
    was: Views, views: Views, active: Registry, visited: seq<ExecutionId>, throws: set<ExecutionId>,
    duration: nat, clock: ExecutionId -> Time)
    requires AllRenewed(was, views, active, visited, throws, duration, clock)
    ensures views.Keys == was.Keys
  {
  }

  method RenewRow(tables: Tables, id: ExecutionId, worker: WorkerId, duration: nat, now: Time)
    returns (renewed: bool)
    requires tables.Valid() && id.0 in tables.rows
    modifies tables.rows[id.0]
    ensures renewed == S.Renewable(old(tables.Views())[id.0], id.1, worker, now)
    ensures tables.Views() ==
            old(tables.Views())[id.0 := S.RenewLease(old(tables.Views())[id.0], id.1, worker, duration, now)]
  {
    renewed := tables.rows[id.0].RenewLease(id.1, worker, duration, now);
  }

  /** The body of the loop. */
  method RenewOne(
    hearts: Heartbeats, tables: Tables, id: ExecutionId, worker: WorkerId, throws: set<ExecutionId>,
    duration: nat, now: Time)
    requires hearts.Valid() && tables.Valid() && id.0 in tables.rows
    modifies hearts, tables.rows[id.0]
    ensures hearts.Valid()
    ensures tables.Views() == Turn(old(tables.Views()), worker, throws, id, duration, now)
    ensures hearts.activeExecutions ==
            if id in throws || S.Renewable(old(tables.Views())[id.0], id.1, worker, now)
            then old(hearts.activeExecutions)
            else old(hearts.activeExecutions) - {id}
  {
    hide S.RenewLease, S.Renewable;
    var answer := None;
    if id !in throws {
      var renewed := RenewRow(tables, id, worker, duration, now);
      answer := Some(renewed);
    }
    hearts.AfterRenewal(id, answer);
  }

  /** The map hands out each of its keys once. */
  ghost predicate Enumerates(order: seq<ExecutionId>, active: Registry) {
    && (forall i, k :: 0 <= i < k < |order| ==> order[i] != order[k])
    && (forall id :: id in order <==> id in active)
  }

  lemma NextOf(order: seq<ExecutionId>, active: Registry, i: nat)
    requires Enumerates(order, active) && i < |order|
    ensures order[i] in active && order[i] !in order[..i] && order[..i + 1] == order[..i] + [order[i]]
  {
    assert order[i] in order;
  }

  lemma NoneYet(
    was: Views, active: Registry, order: seq<ExecutionId>, throws: set<ExecutionId>, duration: nat,
    clock: ExecutionId -> Time)
    requires forall id :: id in active ==> id.0 in was
    ensures RoundSoFar(was, was, active, active, order[..0], throws, duration, clock)
  {
  }

  /**
   * `order` is the order in which the map hands out its keys; `throws` are the executions whose
   * renewLease throws, which leaves their lease and their registration alone; `clock` is when each is renewed.
   */
  method RenewActiveLeases(
    hearts: Heartbeats, tables: Tables, order: seq<ExecutionId>, throws: set<ExecutionId>, duration: nat,
    clock: ExecutionId -> Time)
    requires hearts.Valid() && tables.Valid()
    requires Enumerates(order, hearts.activeExecutions)
    requires forall id :: id in hearts.activeExecutions ==> id.0 in tables.rows
    modifies hearts, tables.Repr()
    ensures hearts.Valid()
    ensures RoundSoFar(old(tables.Views()), tables.Views(), old(hearts.activeExecutions), hearts.activeExecutions,
                       order, throws, duration, clock)
  {
    hide Enumerates, RoundSoFar, Turn, S.Renewable;
    ghost var was := tables.Views();
    var active := hearts.activeExecutions;
    NoneYet(was, active, order, throws, duration, clock);
    for i := 0 to |order|
      invariant hearts.Valid()
      invariant RoundSoFar(was, tables.Views(), active, hearts.activeExecutions, order[..i], throws, duration, clock)
    {
      var id := order[i];
      NextOf(order, active, i);
      OneMore(was, tables.Views(), active, hearts.activeExecutions, order[..i], throws, id, duration, clock);
      RenewOne(hearts, tables, id, active[id], throws, duration, clock(id));
    }
    assert order[..|order|] == order;
  }
}
