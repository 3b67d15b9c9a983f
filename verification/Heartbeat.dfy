/** heartbeat.ts: what keeps a lease alive, and the book-keeping of who is kept alive. */
module Heartbeat {
  import opened Rows
  import opened Statements
  import opened Runs
  import opened Protocol
  import opened Effects
  import opened EveryInterleaving
  import LeaseDiscipline

  // ---- renewals at short intervals discharge the lease assumption

  /**
   * No instant of the run is more than `gap` after the latest renewal of attempt k's lease by its
   * worker; `last` is the time of the latest one before the run (or of the acquisition).
   */
  predicate Beats(cfg: Config, s: System, acts: seq<Action>, k: nat, worker: WorkerId, last: Time, gap: nat)
    decreases |acts|
  {
    s.now <= last + gap
    && (acts == []
        || Beats(cfg, Apply(cfg, s, acts[0]), acts[1..], k, worker,
                 if acts[0] == Renew(k, worker) then s.now else last, gap))
  }

  /** The lease of attempt k, good for a full lease duration from `last`. */
  ghost predicate GoodFrom(cfg: Config, c: Cell, k: nat, lease: Lease, last: Time) {
    && k in c.leases
    && c.leases[k].worker == lease.worker && c.leases[k].acquisition == lease.acquisition
    && c.leases[k].expiresAt >= last + cfg.leaseDuration
  }

  lemma StepKeepsGood(cfg: Config, s: System, r: RunId, outcome: Outcome, k: nat, lease: Lease, last: Time)
    requires Inv(s) && r in s.runs && GoodFrom(cfg, s.cell, k, lease, last)
    requires s.now < last + cfg.leaseDuration
    ensures GoodFrom(cfg, Step(cfg, s.cell, s.runs[r], outcome, s.now).cell, k, lease, last)
  {
    assert SnapshotsAgree(s.cell, s.runs[r]);
    hide Inv, Step, Moves;
    if s.runs[r].point.Leasing? {
      LeaseDiscipline.LeasingStep(cfg, s.cell, s.runs[r], outcome, s.now);
    } else {
      StepMoves(cfg, s.cell, s.runs[r], outcome, s.now);
    }
  }

  lemma ApplyKeepsGood(cfg: Config, s: System, a: Action, k: nat, lease: Lease, last: Time)
    requires Inv(s) && GoodFrom(cfg, s.cell, k, lease, last) && s.now < last + cfg.leaseDuration
    ensures GoodFrom(cfg, Apply(cfg, s, a).cell, k, lease, if a == Renew(k, lease.worker) then s.now else last)
  {
    hide Inv, Step;
    if a.Advance? {
      if a.id in s.runs {
        StepKeepsGood(cfg, s, a.id, a.outcome, k, lease, last);
      }
    } else if a.Recover? {
      RecoveryKeepsLeases(s.cell, a.attempt, a.delay, s.now);
    } else if LeaseDiscipline.OnlyOutboxOrQueue(a) {
      LeaseDiscipline.OutboxAndQueueAlone(cfg, s, a);
    }
  }

  lemma RecoveryKeepsLeases(c: Cell, k: nat, delay: nat, now: Time)
    ensures RecoverExpiredExecution(c, k, delay, now).cell.leases == c.leases
  {
  }

  /**
   * In every interleaving: an execution whose lease is renewed within `gap` of its acquisition and of
   * each renewal, `gap` being below the lease duration, keeps that acquisition unexpired, and no
   * worker can acquire it.
   */
  lemma {:induction false} BeatingKeepsLease(
    cfg: Config, s: System, acts: seq<Action>, k: nat, lease: Lease, last: Time, gap: nat)
    requires Inv(s) && gap < cfg.leaseDuration
    requires GoodFrom(cfg, s.cell, k, lease, last) && Beats(cfg, s, acts, k, lease.worker, last, gap)
    ensures
      var s' := Exec(cfg, s, acts);
      && k in s'.cell.leases
      && s'.cell.leases[k].acquisition == lease.acquisition && s'.cell.leases[k].worker == lease.worker
      && s'.cell.leases[k].expiresAt > s'.now
      && forall worker :: AcquireExecutionLease(s'.cell, k, worker, cfg.leaseDuration, s'.now) == None
    decreases |acts|
  {
    hide Inv, Apply;
    if acts != [] {
      ApplyKeepsGood(cfg, s, acts[0], k, lease, last);
      ApplyKeepsInv(cfg, s, acts[0]);
      BeatingKeepsLease(cfg, Apply(cfg, s, acts[0]), acts[1..], k, lease,
                        if acts[0] == Renew(k, lease.worker) then s.now else last, gap);
    }
  }

  // ---- so heartbeats make every run disciplined

  /** `last`: for each run that has its lease, when it acquired it or its worker last renewed it. */
  function Beaten(cfg: Config, s: System, a: Action, last: map<RunId, Time>): map<RunId, Time> {
    var runs := Apply(cfg, s, a).runs;
    map r | r in runs && runs[r].point.Leased() ::
      if r in last && r in s.runs && s.runs[r].point.Leased() && a != Renew(runs[r].attempt, runs[r].worker)
      then last[r] else s.now
  }

  predicate InTime(s: System, last: map<RunId, Time>, gap: nat) {
    forall r :: r in s.runs && s.runs[r].point.Leased() ==> r in last && s.now <= last[r] + gap
  }

  /** At every instant, every run that has its lease has acquired or renewed it within `gap`. */
  predicate AllBeat(cfg: Config, s: System, acts: seq<Action>, last: map<RunId, Time>, gap: nat)
    decreases |acts|
  {
    && InTime(s, last, gap)
    && (acts == [] || AllBeat(cfg, Apply(cfg, s, acts[0]), acts[1..], Beaten(cfg, s, acts[0], last), gap))
  }

  ghost predicate GoodLease(cfg: Config, c: Cell, run: Run, last: Time) {
    GoodFrom(cfg, c, run.attempt, Lease(run.worker, 0, run.acquisition), last)
  }

  ghost predicate AllGood(cfg: Config, s: System, last: map<RunId, Time>) {
    forall r :: r in s.runs && s.runs[r].point.Leased() ==>
      r in last && GoodLease(cfg, s.cell, s.runs[r], last[r])
  }

  /** A run keeps attempt, worker and acquisition from the acquisition on, which is good from then. */
  lemma StepKeepsLease(cfg: Config, c: Cell, run: Run, outcome: Outcome, now: Time)
    ensures
      var next := Step(cfg, c, run, outcome, now);
      next.run.Some? && next.run.value.point.Leased() ==>
        if run.point.Leased()
        then && next.run.value.attempt == run.attempt && next.run.value.worker == run.worker
             && next.run.value.acquisition == run.acquisition
        else GoodLease(cfg, next.cell, next.run.value, now)
  {
    hide Finish, FinalFailureTransaction, AlreadyCompletedTransaction;
  }

  lemma ApplyKeepsGoodLeases(cfg: Config, s: System, a: Action, last: map<RunId, Time>, gap: nat)
    requires Inv(s) && gap < cfg.leaseDuration && AllGood(cfg, s, last) && InTime(s, last, gap)
    ensures AllGood(cfg, Apply(cfg, s, a), Beaten(cfg, s, a, last))
  {
    hide Inv, Apply, Step, GoodFrom;
    var s' := Apply(cfg, s, a);
    forall r | r in s'.runs && s'.runs[r].point.Leased()
      ensures GoodLease(cfg, s'.cell, s'.runs[r], Beaten(cfg, s, a, last)[r])
    {
      WhereRunsComeFrom(cfg, s, a, r);
      if a.Advance? && a.id == r {
        StepKeepsLease(cfg, s.cell, s.runs[r], a.outcome, s.now);
      }
      if r in s.runs && s.runs[r].point.Leased() {
        var run := s.runs[r];
        ApplyKeepsGood(cfg, s, a, run.attempt, Lease(run.worker, 0, run.acquisition), last[r]);
      }
    }
  }

  lemma GoodIsDisciplined(cfg: Config, s: System, a: Action, last: map<RunId, Time>, gap: nat)
    requires gap < cfg.leaseDuration && AllGood(cfg, s, last) && InTime(s, last, gap)
    ensures Disciplined(s, a)
  {
  }

  /** If every run that has its lease keeps renewing it in time, every run writes under its lease only. */
  lemma {:induction false} BeatingDisciplines(
    cfg: Config, s: System, acts: seq<Action>, last: map<RunId, Time>, gap: nat)
    requires Inv(s) && gap < cfg.leaseDuration && AllGood(cfg, s, last) && AllBeat(cfg, s, acts, last, gap)
    ensures AllDisciplined(cfg, s, acts)
    decreases |acts|
  {
    hide Inv, Apply, Disciplined, AllGood, InTime, Beaten;
    if acts != [] {
      GoodIsDisciplined(cfg, s, acts[0], last, gap);
      ApplyKeepsGoodLeases(cfg, s, acts[0], last, gap);
      ApplyKeepsInv(cfg, s, acts[0]);
      BeatingDisciplines(cfg, Apply(cfg, s, acts[0]), acts[1..], Beaten(cfg, s, acts[0], last), gap);
    }
  }

  /** So heartbeats discharge the lease assumption: for a new job, from its creation on. */
  lemma HeartbeatsSuffice(cfg: Config, job: Job, key: string, now: Time, acts: seq<Action>, gap: nat)
    requires FreshJob(job) && gap < cfg.leaseDuration && AllBeat(cfg, Created(job, key, now), acts, map[], gap)
    ensures AllDisciplined(cfg, Created(job, key, now), acts)
  {
    CreatedInv(job, key, now);
    BeatingDisciplines(cfg, Created(job, key, now), acts, map[], gap);
  }

  // ---- registered executions and the gauge

  class Heartbeats {
    var activeExecutions: map<ExecutionId, WorkerId>
    var gauge: int

    /** The gauge shows how many executions are registered. */
    ghost predicate Valid()
      reads this
    {
      gauge == |activeExecutions|
    }

    constructor ()
      ensures Valid() && activeExecutions == map[]
    {
      activeExecutions, gauge := map[], 0;
    }

    method RegisterExecution(id: ExecutionId, worker: WorkerId)
      requires Valid()
      modifies this
      ensures Valid() && activeExecutions == old(activeExecutions)[id := worker]
    {
      var alreadyTracked := id in activeExecutions;
      activeExecutions := activeExecutions[id := worker];
      if !alreadyTracked {
        gauge := gauge + 1;
      }
    }

    method UnregisterExecution(id: ExecutionId)
      requires Valid()
      modifies this
      ensures Valid() && activeExecutions == old(activeExecutions) - {id}
    {
      if id in activeExecutions {
        assert activeExecutions == (activeExecutions - {id})[id := activeExecutions[id]];
        activeExecutions := activeExecutions - {id};
        gauge := gauge - 1;
      }
    }

    /** One turn of the renewal loop, given what renewLease answered; a thrown error is `None`. */
    method AfterRenewal(id: ExecutionId, renewed: Option<bool>)
      requires Valid()
      modifies this
      ensures Valid()
      ensures activeExecutions == if renewed == Some(false) then old(activeExecutions) - {id} else old(activeExecutions)
    {
      if renewed.Some? && !renewed.value {
        UnregisterExecution(id);
      }
    }
  }

  // ---- any interleaving of registrations, unregistrations and renewals

  datatype Beat =
    | Registered(id: ExecutionId, worker: WorkerId)
    | Unregistered(id: ExecutionId)
    | RenewalAnswered(id: ExecutionId, renewed: Option<bool>)

  function AfterBeat(active: map<ExecutionId, WorkerId>, beat: Beat): map<ExecutionId, WorkerId> {
    match beat
    case Registered(id, worker) => active[id := worker]
    case Unregistered(id) => active - {id}
    case RenewalAnswered(id, renewed) => if renewed == Some(false) then active - {id} else active
  }

  function AfterBeats(active: map<ExecutionId, WorkerId>, beats: seq<Beat>): map<ExecutionId, WorkerId>
    decreases |beats|
  {
    if beats == [] then active else AfterBeats(AfterBeat(active, beats[0]), beats[1..])
  }

  lemma {:induction false} AfterBeatsSnoc(active: map<ExecutionId, WorkerId>, beats: seq<Beat>, beat: Beat)
    ensures AfterBeats(active, beats + [beat]) == AfterBeat(AfterBeats(active, beats), beat)
    decreases |beats|
  {
    if beats == [] {
      assert ([] + [beat])[1..] == [];
      assert AfterBeats(AfterBeat(active, beat), []) == AfterBeat(active, beat);
    } else {
      assert (beats + [beat])[1..] == beats[1..] + [beat];
      AfterBeatsSnoc(AfterBeat(active, beats[0]), beats[1..], beat);
    }
  }

  /** After any sequence of them the gauge equals the number of registered executions. */
  method PlayBeats(hearts: Heartbeats, beats: seq<Beat>)
    requires hearts.Valid()
    modifies hearts
    ensures hearts.activeExecutions == AfterBeats(old(hearts.activeExecutions), beats)
    ensures hearts.gauge == |AfterBeats(old(hearts.activeExecutions), beats)|
  {
    for i := 0 to |beats|
      invariant hearts.Valid() && hearts.activeExecutions == AfterBeats(old(hearts.activeExecutions), beats[..i])
    {
      AfterBeatsSnoc(old(hearts.activeExecutions), beats[..i], beats[i]);
      assert beats[..i + 1] == beats[..i] + [beats[i]];
      match beats[i]
      case Registered(id, worker) => hearts.RegisterExecution(id, worker);
      case Unregistered(id) => hearts.UnregisterExecution(id);
      case RenewalAnswered(id, renewed) => hearts.AfterRenewal(id, renewed);
    }
    assert beats[..|beats|] == beats;
  }

  /** What is registered in the end: an execution whose last decisive beat registered it. */
  predicate Forgets(beat: Beat, id: ExecutionId) {
    beat == Unregistered(id) || beat == RenewalAnswered(id, Some(false))
  }

  lemma {:induction false} RegisteredMeans(active: map<ExecutionId, WorkerId>, beats: seq<Beat>, id: ExecutionId)
    ensures id in AfterBeats(active, beats) <==>
      || (id in active && forall i :: 0 <= i < |beats| ==> !Forgets(beats[i], id))
      || (exists i :: 0 <= i < |beats| && beats[i].Registered? && beats[i].id == id
            && forall j :: i < j < |beats| ==> !Forgets(beats[j], id))
    decreases |beats|
  {
    if beats != [] {
      var rest := beats[1..];
      RegisteredMeans(AfterBeat(active, beats[0]), rest, id);
      assert forall i :: 1 <= i < |beats| ==> beats[i] == rest[i - 1];
      if i :| 0 <= i < |beats| && beats[i].Registered? && beats[i].id == id
              && forall j :: i < j < |beats| ==> !Forgets(beats[j], id) {
        if i > 0 {
          assert rest[i - 1].Registered? && rest[i - 1].id == id;
          forall j | i - 1 < j < |rest|
            ensures !Forgets(rest[j], id)
          {
            assert rest[j] == beats[j + 1];
          }
        }
      }
      if i :| 0 <= i < |rest| && rest[i].Registered? && rest[i].id == id
              && forall j :: i < j < |rest| ==> !Forgets(rest[j], id) {
        assert beats[i + 1].Registered? && beats[i + 1].id == id;
        forall j | i + 1 < j < |beats|
          ensures !Forgets(beats[j], id)
        {
          assert beats[j] == rest[j - 1];
        }
      }
    }
  }
}
