/** All jobs together: submissions, and the steps of every job interleaved under one clock. */
module World {
  import opened Rows
  import opened Runs
  import opened Protocol
  import opened EveryInterleaving

  /** `first`: the unique index on idempotency_key, from key to job. */
  datatype World = World(now: Time, systems: map<JobId, System>, first: map<string, JobId>)

  /** `Submit`: createJobWithIdempotency with a fresh job id. */
  datatype Event =
    | Pass(ms: nat)
    | Submit(id: JobId, job: Job, key: string)
    | On(id: JobId, action: Action)

  function SubmitTo(w: World, j: JobId, job: Job, key: string): World {
    if key in w.first || j in w.systems then w
    else w.(systems := w.systems[j := Created(job, key, w.now)], first := w.first[key := j])
  }

  function Happen(cfg: Config, w: World, e: Event): World {
    match e
    case Pass(ms) =>
      w.(now := w.now + ms, systems := map j | j in w.systems :: Apply(cfg, w.systems[j], Tick(ms)))
    case Submit(j, job, key) => SubmitTo(w, j, job, key)
    case On(j, a) =>
      if j in w.systems && !a.Tick? then w.(systems := w.systems[j := Apply(cfg, w.systems[j], a)]) else w
  }

  function Unfold(cfg: Config, w: World, events: seq<Event>): World
    decreases |events|
  {
    if events == [] then w else Unfold(cfg, Happen(cfg, w, events[0]), events[1..])
  }

  const EMPTY := World(0, map[], map[])

  function CellsOf(w: World): map<JobId, Cell> { map j | j in w.systems :: w.systems[j].cell }

  // ---- every job's part of the world is a run of the protocol

  /** What an event does to a job that exists. */
  function ActionsOn(e: Event, j: JobId): seq<Action> {
    match e
    case Pass(ms) => [Tick(ms)]
    case Submit(_, _, _) => []
    case On(i, a) => if i == j && !a.Tick? then [a] else []
  }

  function AllActionsOn(events: seq<Event>, j: JobId): seq<Action>
    decreases |events|
  {
    if events == [] then [] else ActionsOn(events[0], j) + AllActionsOn(events[1..], j)
  }

  lemma EventOnJob(cfg: Config, w: World, e: Event, j: JobId)
    requires j in w.systems
    ensures j in Happen(cfg, w, e).systems
    ensures Happen(cfg, w, e).systems[j] == Exec(cfg, w.systems[j], ActionsOn(e, j))
  {
    hide Apply;
    var acts := ActionsOn(e, j);
    if acts != [] {
      assert acts[1..] == [];
      assert Exec(cfg, Apply(cfg, w.systems[j], acts[0]), []) == Apply(cfg, w.systems[j], acts[0]);
    }
  }

  /** An event touches one job: the others go on as if it had not happened. So everything proved of
      one job's runs holds of every job of the world. */
  lemma {:induction false} JobsAreIndependent(cfg: Config, w: World, events: seq<Event>, j: JobId)
    requires j in w.systems
    ensures j in Unfold(cfg, w, events).systems
    ensures Unfold(cfg, w, events).systems[j] == Exec(cfg, w.systems[j], AllActionsOn(events, j))
    decreases |events|
  {
    hide Apply;
    if events != [] {
      EventOnJob(cfg, w, events[0], j);
      JobsAreIndependent(cfg, Happen(cfg, w, events[0]), events[1..], j);
      ExecAppend(cfg, w.systems[j], ActionsOn(events[0], j), AllActionsOn(events[1..], j));
    }
  }

  // ---- submission idempotency

  /** The key index and the records agree: one job per key, one record with its own key per job. */
  ghost predicate KeysIndexJobs(w: World) {
    && (forall key :: key in w.first ==>
          w.first[key] in w.systems && w.systems[w.first[key]].cell.record.key == key)
    && (forall j :: j in w.systems ==>
          w.systems[j].cell.record.key in w.first && w.first[w.systems[j].cell.record.key] == j)
  }

  ghost predicate WorldInv(w: World) {
    KeysIndexJobs(w) && forall j :: j in w.systems ==> Inv(w.systems[j]) && w.systems[j].now == w.now
  }

  predicate Acceptable(e: Event) { e.Submit? ==> FreshJob(e.job) }

  lemma ApplyKeepsKeyAndClock(cfg: Config, s: System, a: Action)
    requires Inv(s) && !a.Tick?
    ensures Apply(cfg, s, a).cell.record.key == s.cell.record.key && Apply(cfg, s, a).now == s.now
  {
    assert AllSnapshotsAgree(s);
    hide Inv, Step;
    ApplyMoves(cfg, s, a);
  }

  lemma PassKeepsInv(cfg: Config, w: World, ms: nat)
    requires WorldInv(w)
    ensures WorldInv(Happen(cfg, w, Pass(ms)))
  {
    hide Inv, Apply;
    forall j | j in w.systems
      ensures Inv(Apply(cfg, w.systems[j], Tick(ms)))
      ensures Apply(cfg, w.systems[j], Tick(ms)).now == w.now + ms
      ensures Apply(cfg, w.systems[j], Tick(ms)).cell == w.systems[j].cell
    {
      ApplyKeepsInv(cfg, w.systems[j], Tick(ms));
      Ticking(cfg, w.systems[j], ms);
    }
  }

  lemma NewKeyIndexed(w: World, j: JobId, s: System)
    requires KeysIndexJobs(w) && j !in w.systems && s.cell.record.key !in w.first
    ensures KeysIndexJobs(w.(systems := w.systems[j := s], first := w.first[s.cell.record.key := j]))
  {
  }

  lemma SubmitKeepsInv(w: World, j: JobId, job: Job, key: string)
    requires WorldInv(w) && FreshJob(job)
    ensures WorldInv(SubmitTo(w, j, job, key))
  {
    hide Inv, KeysIndexJobs;
    if key !in w.first && j !in w.systems {
      CreatedInv(job, key, w.now);
      NewKeyIndexed(w, j, Created(job, key, w.now));
    }
  }

  /** One job's system is exchanged for one with the same key and clock. */
  lemma ExchangeKeepsInv(w: World, j: JobId, s: System)
    requires WorldInv(w) && j in w.systems
    requires Inv(s) && s.cell.record.key == w.systems[j].cell.record.key && s.now == w.now
    ensures WorldInv(w.(systems := w.systems[j := s]))
  {
    hide Inv;
  }

  lemma HappenKeepsInv(cfg: Config, w: World, e: Event)
    requires WorldInv(w) && Acceptable(e)
    ensures WorldInv(Happen(cfg, w, e))
  {
    hide Inv, Apply, KeysIndexJobs, SubmitTo;
    if e.Pass? {
      PassKeepsInv(cfg, w, e.ms);
    } else if e.Submit? {
      SubmitKeepsInv(w, e.id, e.job, e.key);
    } else if e.id in w.systems && !e.action.Tick? {
      ApplyKeepsInv(cfg, w.systems[e.id], e.action);
      ApplyKeepsKeyAndClock(cfg, w.systems[e.id], e.action);
      ExchangeKeepsInv(w, e.id, Apply(cfg, w.systems[e.id], e.action));
    }
  }

  lemma Ticking(cfg: Config, s: System, ms: nat)
    ensures Apply(cfg, s, Tick(ms)) == s.(now := s.now + ms)
  {
  }

  lemma {:induction false} WorldReachable(cfg: Config, w: World, events: seq<Event>)
    requires WorldInv(w) && forall i :: 0 <= i < |events| ==> Acceptable(events[i])
    ensures WorldInv(Unfold(cfg, w, events))
    decreases |events|
  {
    hide WorldInv, Happen;
    if events != [] {
      HappenKeepsInv(cfg, w, events[0]);
      WorldReachable(cfg, Happen(cfg, w, events[0]), events[1..]);
    }
  }

  lemma {:induction false} SameSize(first: map<string, JobId>, jobs: set<JobId>, keyOf: map<JobId, string>)
    requires keyOf.Keys == jobs
    requires forall key :: key in first ==> first[key] in jobs && keyOf[first[key]] == key
    requires forall j :: j in jobs ==> keyOf[j] in first && first[keyOf[j]] == j
    ensures |first| == |jobs|
    decreases jobs
  {
    if jobs == {} {
      assert first == map[];
    } else {
      var j :| j in jobs;
      var key := keyOf[j];
      var smaller := first - {key};
      assert first == smaller[key := j];
      SameSize(smaller, jobs - {j}, keyOf - {j});
    }
  }

  /** The keys submitted so far. */
  function KeysOf(events: seq<Event>): set<string>
    decreases |events|
  {
    if events == [] then {}
    else (if events[0].Submit? then {events[0].key} else {}) + KeysOf(events[1..])
  }

  /** Each job id is submitted once: ids are generated. */
  ghost predicate FreshIds(w: World, events: seq<Event>) {
    && (forall i :: 0 <= i < |events| && events[i].Submit? ==> events[i].id !in w.systems)
    && (forall i, k :: 0 <= i < k < |events| && events[i].Submit? && events[k].Submit? ==>
          events[i].id != events[k].id)
  }

  /** A key once known keeps its first job, and exactly the submitted keys become known. */
  lemma {:induction false} FirstSubmissionWins(cfg: Config, w: World, events: seq<Event>)
    requires FreshIds(w, events)
    ensures Unfold(cfg, w, events).first.Keys == w.first.Keys + KeysOf(events)
    ensures forall key :: key in w.first ==> Unfold(cfg, w, events).first[key] == w.first[key]
    decreases |events|
  {
    hide Apply;
    if events != [] {
      var w' := Happen(cfg, w, events[0]);
      assert forall i :: 0 <= i < |events[1..]| ==> events[1..][i] == events[i + 1];
      FirstSubmissionWins(cfg, w', events[1..]);
    }
  }

  /** A repeated key changes nothing at all. */
  lemma RepeatChangesNothing(cfg: Config, w: World, j: JobId, job: Job, key: string)
    requires key in w.first
    ensures Happen(cfg, w, Submit(j, job, key)) == w
  {
    hide Apply;
  }

  /** As many jobs as distinct submitted keys, whatever else happens in between. */
  lemma JobsAreDistinctKeys(cfg: Config, events: seq<Event>)
    requires FreshIds(EMPTY, events) && forall i :: 0 <= i < |events| ==> Acceptable(events[i])
    ensures |Unfold(cfg, EMPTY, events).systems| == |KeysOf(events)|
    ensures forall j :: j in Unfold(cfg, EMPTY, events).systems ==>
      Unfold(cfg, EMPTY, events).systems[j].cell.record.key in KeysOf(events)
  {
    hide Inv, Happen;
    WorldReachable(cfg, EMPTY, events);
    FirstSubmissionWins(cfg, EMPTY, events);
    var w := Unfold(cfg, EMPTY, events);
    SameSize(w.first, w.systems.Keys, map j | j in w.systems :: w.systems[j].cell.record.key);
    assert w.first.Keys == KeysOf(events);
    assert |w.first.Keys| == |w.first| && |w.systems.Keys| == |w.systems|;
  }
}
