/** Never stuck, for all jobs at once: under one clock, events exist that end every one of them. */
module EveryJobEnds {
  import opened Rows
  import opened Protocol
  import opened Timeliness
  import opened NeverStuck
  import opened World

  // ---- legal events

  /** Lease discipline and T2, for the job that the event concerns. */
  predicate EventLegal(cfg: Config, w: World, e: Event) {
    e.On? && e.id in w.systems && !e.action.Tick? ==>
      Disciplined(w.systems[e.id], e.action) && Timely(cfg, w.systems[e.id], e.action)
  }

  /** Delays are drawn, and nothing new is submitted. */
  predicate EventDrawn(w: World, e: Event) {
    !e.Submit? && (e.On? && e.id in w.systems && !e.action.Tick? ==> Drawn(w.systems[e.id], e.action))
  }

  predicate AllLegal(cfg: Config, w: World, events: seq<Event>)
    decreases |events|
  {
    events == [] || (EventLegal(cfg, w, events[0]) && AllLegal(cfg, Happen(cfg, w, events[0]), events[1..]))
  }

  predicate AllEventsDrawn(cfg: Config, w: World, events: seq<Event>)
    decreases |events|
  {
    events == [] || (EventDrawn(w, events[0]) && AllEventsDrawn(cfg, Happen(cfg, w, events[0]), events[1..]))
  }

  lemma {:induction false} UnfoldAppend(cfg: Config, w: World, xs: seq<Event>, ys: seq<Event>)
    ensures Unfold(cfg, w, xs + ys) == Unfold(cfg, Unfold(cfg, w, xs), ys)
    ensures AllLegal(cfg, w, xs + ys) == (AllLegal(cfg, w, xs) && AllLegal(cfg, Unfold(cfg, w, xs), ys))
    ensures AllEventsDrawn(cfg, w, xs + ys) ==
            (AllEventsDrawn(cfg, w, xs) && AllEventsDrawn(cfg, Unfold(cfg, w, xs), ys))
    decreases |xs|
  {
    hide Happen, EventLegal, EventDrawn;
    if xs == [] {
      assert xs + ys == ys;
    } else {
      assert (xs + ys)[1..] == xs[1..] + ys;
      UnfoldAppend(cfg, Happen(cfg, w, xs[0]), xs[1..], ys);
    }
  }

  // ---- every job stays where legal events can bring it

  ghost predicate Live(cfg: Config, w: World) {
    forall j :: j in w.systems ==> InvT(cfg, w.systems[j])
  }

  lemma PassKeepsLive(cfg: Config, w: World, ms: nat)
    requires Live(cfg, w)
    ensures Live(cfg, Happen(cfg, w, Pass(ms)))
  {
    hide InvT, Apply;
    forall j | j in w.systems
      ensures InvT(cfg, Apply(cfg, w.systems[j], Tick(ms)))
    {
      ApplyKeepsInvT(cfg, w.systems[j], Tick(ms));
    }
  }

  lemma HappenKeepsLive(cfg: Config, w: World, e: Event)
    requires Live(cfg, w) && EventLegal(cfg, w, e) && Acceptable(e)
    ensures Live(cfg, Happen(cfg, w, e))
  {
    hide InvT, Apply, Disciplined, Timely;
    match e
    case Pass(ms) => PassKeepsLive(cfg, w, ms);
    case Submit(j, job, key) => CreatedInvT(cfg, job, key, w.now);
    case On(j, a) =>
      if j in w.systems && !a.Tick? {
        ApplyKeepsInvT(cfg, w.systems[j], a);
      }
  }

  lemma {:induction false} LegalKeepsLive(cfg: Config, w: World, events: seq<Event>)
    requires Live(cfg, w) && AllLegal(cfg, w, events)
    requires forall i :: 0 <= i < |events| ==> Acceptable(events[i])
    ensures Live(cfg, Unfold(cfg, w, events))
    decreases |events|
  {
    hide Live, Happen, EventLegal;
    if events != [] {
      HappenKeepsLive(cfg, w, events[0]);
      LegalKeepsLive(cfg, Happen(cfg, w, events[0]), events[1..]);
    }
  }

  // ---- one job's run, played in the world

  function EventOf(j: JobId, a: Action): Event { if a.Tick? then Pass(a.ms) else On(j, a) }

  function EventsOf(j: JobId, acts: seq<Action>): seq<Event>
    decreases |acts|
  {
    if acts == [] then [] else [EventOf(j, acts[0])] + EventsOf(j, acts[1..])
  }

  /** The other jobs only grow older. */
  ghost predicate OnlyMoves(w: World, w': World, j: JobId) {
    && w'.systems.Keys == w.systems.Keys
    && forall i :: i in w.systems && i != j ==> w'.systems[i].cell == w.systems[i].cell
  }

  lemma OneEvent(cfg: Config, w: World, j: JobId, a: Action)
    requires j in w.systems && Disciplined(w.systems[j], a) && Timely(cfg, w.systems[j], a) && Drawn(w.systems[j], a)
    ensures
      var e := EventOf(j, a);
      && EventLegal(cfg, w, e) && EventDrawn(w, e) && Acceptable(e)
      && OnlyMoves(w, Happen(cfg, w, e), j)
      && Happen(cfg, w, e).systems[j] == Apply(cfg, w.systems[j], a)
  {
    hide Disciplined, Timely, Drawn;
    if a.Tick? {
      forall i | i in w.systems
        ensures Apply(cfg, w.systems[i], a).cell == w.systems[i].cell
      {
        Ticking(cfg, w.systems[i], a.ms);
      }
    }
    hide Apply;
  }

  lemma {:induction false} PlayRun(cfg: Config, w: World, j: JobId, acts: seq<Action>)
    requires j in w.systems
    requires AllDisciplined(cfg, w.systems[j], acts) && AllTimely(cfg, w.systems[j], acts)
    requires AllDrawn(cfg, w.systems[j], acts)
    ensures
      var events := EventsOf(j, acts);
      && AllLegal(cfg, w, events) && AllEventsDrawn(cfg, w, events)
      && OnlyMoves(w, Unfold(cfg, w, events), j)
      && Unfold(cfg, w, events).systems[j] == Exec(cfg, w.systems[j], acts)
    ensures forall i :: 0 <= i < |EventsOf(j, acts)| ==> Acceptable(EventsOf(j, acts)[i])
    decreases |acts|
  {
    hide Apply, Disciplined, Timely, Drawn, Happen, EventLegal, EventDrawn, EventOf, Acceptable;
    if acts != [] {
      var e := EventOf(j, acts[0]);
      OneEvent(cfg, w, j, acts[0]);
      PlayRun(cfg, Happen(cfg, w, e), j, acts[1..]);
      assert EventsOf(j, acts)[1..] == EventsOf(j, acts[1..]);
    }
  }

  // ---- one job after the other

  lemma EndOne(cfg: Config, w: World, j: JobId) returns (events: seq<Event>)
    requires Live(cfg, w) && j in w.systems && cfg.leaseDuration > 0 && cfg.processingTimeout >= 0
    ensures AllLegal(cfg, w, events) && AllEventsDrawn(cfg, w, events)
    ensures Live(cfg, Unfold(cfg, w, events)) && OnlyMoves(w, Unfold(cfg, w, events), j)
    ensures Unfold(cfg, w, events).systems[j].cell.job.status.Terminal()
  {
    hide InvT, Apply, Happen, OnlyMoves;
    var acts, s := FinishJobSomehow(cfg, w.systems[j]);
    events := EventsOf(j, acts);
    PlayRun(cfg, w, j, acts);
    LegalKeepsLive(cfg, w, events);
    hide Live;
    assert j in Unfold(cfg, w, events).systems by { SameJobs(w, Unfold(cfg, w, events), j); }
  }

  lemma SameJobs(w: World, w': World, j: JobId)
    requires OnlyMoves(w, w', j)
    ensures w'.systems.Keys == w.systems.Keys
  {
  }

  ghost predicate EndedBut(w: World, todo: set<JobId>) {
    forall j :: j in w.systems && j !in todo ==> w.systems[j].cell.job.status.Terminal()
  }

  lemma OneLess(w: World, w': World, todo: set<JobId>, j: JobId)
    requires EndedBut(w, todo) && OnlyMoves(w, w', j)
    requires j in w'.systems && w'.systems[j].cell.job.status.Terminal()
    ensures w'.systems.Keys == w.systems.Keys && EndedBut(w', todo - {j})
  {
  }

  lemma NoEvents(cfg: Config, w: World)
    ensures AllLegal(cfg, w, []) && AllEventsDrawn(cfg, w, []) && Unfold(cfg, w, []) == w
  {
  }

  lemma {:induction false} EndAll(cfg: Config, w: World, todo: set<JobId>) returns (events: seq<Event>)
    requires Live(cfg, w) && EndedBut(w, todo) && todo <= w.systems.Keys
    requires cfg.leaseDuration > 0 && cfg.processingTimeout >= 0
    ensures AllLegal(cfg, w, events) && AllEventsDrawn(cfg, w, events)
    ensures Unfold(cfg, w, events).systems.Keys == w.systems.Keys && EndedBut(Unfold(cfg, w, events), {})
    decreases todo
  {
    hide Live, Happen, AllLegal, AllEventsDrawn, Unfold, EndedBut, OnlyMoves;
    if todo == {} {
      events := [];
      NoEvents(cfg, w);
    } else {
      var j :| j in todo;
      var first := EndOne(cfg, w, j);
      var w1 := Unfold(cfg, w, first);
      SameJobs(w, w1, j);
      OneLess(w, w1, todo, j);
      var rest := EndAll(cfg, w1, todo - {j});
      UnfoldAppend(cfg, w, first, rest);
      events := first + rest;
    }
  }

  /** After any legal events, with any number of jobs, legal events exist after which every job is terminal. */
  lemma EveryJobCanEnd(cfg: Config, before: seq<Event>)
    requires cfg.leaseDuration > 0 && cfg.processingTimeout >= 0
    requires AllLegal(cfg, EMPTY, before) && forall i :: 0 <= i < |before| ==> Acceptable(before[i])
    ensures exists after ::
      && AllLegal(cfg, EMPTY, before + after)
      && AllEventsDrawn(cfg, Unfold(cfg, EMPTY, before), after)
      && Unfold(cfg, EMPTY, before + after).systems.Keys == Unfold(cfg, EMPTY, before).systems.Keys
      && EndedBut(Unfold(cfg, EMPTY, before + after), {})
  {
    assert Live(cfg, EMPTY);
    hide Live, Happen, AllLegal, AllEventsDrawn, Unfold;
    var w := Unfold(cfg, EMPTY, before);
    LegalKeepsLive(cfg, EMPTY, before);
    var after := EndAll(cfg, w, w.systems.Keys);
    UnfoldAppend(cfg, EMPTY, before, after);
  }
}
