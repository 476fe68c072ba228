/**
 From the router to the stats task: what the router offers on the stats channel over a
 whole run of the system, and what the stats task makes of the messages that arrive.  The
 router never waits for the channel, so any message may be lost (src/router/mod.rs).
 */
module StatsFeed {
  import opened Frame
  import opened Deduplication
  import opened Routing
  import opened Protocol
  import Stats

  /** What the router tells the stats task about an event. */
  ghost function Notice(e: Event): StatsEvent {
    match e
    case EndpointAdded(id, leaf) => Register(id, leaf.Some?)
    case PeerAdded(_, id, _) => Register(id, true)
    case PeerRemoved(_, id, _) => Finalize(id)
  }

  /** One message per processed event, in order. */
  ghost predicate Noticed(s: Sys) {
    && |s.router.stats| == |s.handled|
    && forall i :: 0 <= i < |s.handled| ==> s.router.stats[i] == Notice(s.handled[i])
  }

  lemma EventNoticed(s: State, e: Event)
    ensures OnEvent(s, e).stats == s.stats + [Notice(e)]
  {
    hide Join, Leave;
  }

  lemma FrameUnnoticed(hash: Bytes -> Hash, s: State, src: Id, frame: Bytes, header: ParsedHeader, now: nat)
    ensures OnFrame(hash, s, src, frame, header, now).stats == s.stats
  {
    hide CheckAndInsert, PushedAfter, DropsAfter;
  }

  lemma NoticedOne(s: Sys, s': Sys, e: Event)
    requires Noticed(s) && s'.router.stats == s.router.stats + [Notice(e)] && s'.handled == s.handled + [e]
    ensures Noticed(s')
  {
    hide Notice;
  }

  lemma SameNotices(s: Sys, s': Sys)
    requires Noticed(s) && s'.router.stats == s.router.stats && s'.handled == s.handled
    ensures Noticed(s')
  {}

  lemma StepNoticed(hash: Bytes -> Hash, s: Sys, a: Action)
    requires Noticed(s) && Enabled(s, a)
    ensures Noticed(Do(hash, s, a))
  {
    hide Noticed, OnEvent, OnFrame;
    var s' := Do(hash, s, a);
    if a.RouterEvent? {
      EventNoticed(s.router, s.events[0]);
      NoticedOne(s, s', s.events[0]);
    } else if a.RouterFrame? {
      var f := s.frames[0];
      FrameUnnoticed(hash, s.router, f.src, f.frame, f.header, a.now);
      SameNotices(s, s');
    } else {
      TasksLeaveRouter(hash, s, a);
      SameNotices(s, s');
    }
  }

  lemma {:induction false} RunNoticed(hash: Bytes -> Hash, s: Sys, actions: seq<Action>)
    requires Noticed(s) && IsRun(hash, s, actions)
    ensures Noticed(After(hash, s, actions))
    decreases actions
  {
    hide Noticed, Do;
    if actions != [] {
      StepNoticed(hash, s, actions[0]);
      RunNoticed(hash, Do(hash, s, actions[0]), actions[1..]);
    }
  }

  /** Over every interleaving the router registers no id twice with the stats task. */
  lemma RegistersOnce(hash: Bytes -> Hash, dedupTtl: nat, dedupCapacity: nat, actions: seq<Action>)
    requires IsRun(hash, Start(dedupTtl, dedupCapacity), actions)
    ensures Stats.RegisteredOnce(After(hash, Start(dedupTtl, dedupCapacity), actions).router.stats)
  {
    hide IsRun, After;
    var s := After(hash, Start(dedupTtl, dedupCapacity), actions);
    RunNoticed(hash, Start(dedupTtl, dedupCapacity), actions);
    assert LogOk(Sent(s), s.nextId) by {
      ReachableOk(hash, dedupTtl, dedupCapacity, actions);
      LogIsOk(s);
    }
    assert forall i :: 0 <= i < |s.handled| ==> Sent(s)[i] == s.handled[i];
  }

  lemma LogIsOk(s: Sys)
    requires Ok(s)
    ensures LogOk(Sent(s), s.nextId)
  {
    hide LogOk, SessionsOk, FramesOk, UdpsOk, OwnersOk, Registry, Registered, Removed;
  }

  // ---------- The lossy channel ----------

  /** The messages that get through. */
  ghost function Through(events: seq<StatsEvent>, kept: seq<bool>): seq<StatsEvent>
    requires |kept| == |events|
  {
    if events == [] then []
    else
      var n := |events| - 1;
      var before := Through(events[..n], kept[..n]);
      if kept[n] then before + [events[n]] else before
  }

  lemma {:induction false} ThroughOnce(events: seq<StatsEvent>, kept: seq<bool>)
    requires |kept| == |events| && Stats.RegisteredOnce(events)
    ensures Stats.RegisteredOnce(Through(events, kept))
    ensures Stats.RegisteredIds(Through(events, kept)) <= Stats.RegisteredIds(events)
  {
    hide Stats.RegisteredOnce, Stats.RegisteredIds;
    if events == [] {
      assert Through(events, kept) == events;
    } else {
      var n := |events| - 1;
      assert events == events[..n] + [events[n]];
      Stats.OnceSnoc(events[..n], events[n]);
      ThroughOnce(events[..n], kept[..n]);
      Stats.OnceSnoc(Through(events[..n], kept[..n]), events[n]);
    }
  }

  /** The sweep at shutdown only finalizes. */
  lemma SweepOnce(events: seq<StatsEvent>, sweep: seq<StatsEvent>)
    requires Stats.RegisteredOnce(events)
    requires forall i :: 0 <= i < |sweep| ==> sweep[i].Finalize?
    ensures Stats.RegisteredOnce(events + sweep)
  {}

  /**
   End to end.  Whatever the endpoint tasks, the listeners and the router do, whichever of
   the router's messages are lost, and however the stats task's ticks fall between those
   that arrive, no line for an endpoint is offered after its final line.
   */
  lemma FinalLineIsLast(
    hash: Bytes -> Hash, dedupTtl: nat, dedupCapacity: nat, actions: seq<Action>,
    sweep: seq<StatsEvent>, kept: seq<bool>,
    capacity: nat, enabled: bool, inputs: seq<Stats.Input>, late: seq<StatsEvent>, i: nat, j: nat)
    requires IsRun(hash, Start(dedupTtl, dedupCapacity), actions)
    requires forall k :: 0 <= k < |sweep| ==> sweep[k].Finalize?
    requires
      var sent := After(hash, Start(dedupTtl, dedupCapacity), actions).router.stats + sweep;
      |kept| == |sent| && Stats.Messages(inputs) + late == Through(sent, kept)
    requires Stats.TicksMatch(Stats.NewTask(capacity, enabled), inputs)
    requires
      var t := Stats.FullRun(capacity, enabled, inputs, late);
      i < j < |t.offered| && t.offered[i].final
    ensures
      var t := Stats.FullRun(capacity, enabled, inputs, late);
      t.offered[i].id != t.offered[j].id
  {
    hide *;
    var sent := After(hash, Start(dedupTtl, dedupCapacity), actions).router.stats;
    RegistersOnce(hash, dedupTtl, dedupCapacity, actions);
    SweepOnce(sent, sweep);
    ThroughOnce(sent + sweep, kept);
    Stats.NoLineAfterFinal(capacity, enabled, inputs, late, i, j);
  }

  /**
   Over the lossy channel too: with output enabled, an endpoint gets exactly one final line
   if its registration and, later, its end got through, and none otherwise.
   */
  lemma OneFinalLineThrough(
    hash: Bytes -> Hash, dedupTtl: nat, dedupCapacity: nat, actions: seq<Action>,
    sweep: seq<StatsEvent>, kept: seq<bool>,
    capacity: nat, inputs: seq<Stats.Input>, late: seq<StatsEvent>, id: Id)
    requires IsRun(hash, Start(dedupTtl, dedupCapacity), actions) && 0 < capacity
    requires forall k :: 0 <= k < |sweep| ==> sweep[k].Finalize?
    requires
      var sent := After(hash, Start(dedupTtl, dedupCapacity), actions).router.stats + sweep;
      |kept| == |sent| && Stats.Messages(inputs) + late == Through(sent, kept)
    ensures
      var sent := After(hash, Start(dedupTtl, dedupCapacity), actions).router.stats + sweep;
      var t1 := Stats.Loop(Stats.NewTask(capacity, true), inputs);
      var t2 := Stats.FullRun(capacity, true, inputs, late);
      var lines := if Stats.StageAfter(Through(sent, kept), id) == Stats.Gone then 1 else 0;
      && multiset(t2.offered)[Stats.Line(id, true)] == lines
      && (|t2.offered| - |t1.offered| <= capacity ==> multiset(t2.dequeued)[Stats.Line(id, true)] == lines)
  {
    hide *;
    var sent := After(hash, Start(dedupTtl, dedupCapacity), actions).router.stats;
    RegistersOnce(hash, dedupTtl, dedupCapacity, actions);
    SweepOnce(sent, sweep);
    ThroughOnce(sent + sweep, kept);
    Stats.OneFinalLineEach(capacity, inputs, late, id);
  }

  // ---------- When nothing is lost ----------

  /** An id announced and not registered any more was removed in between. */
  lemma {:induction false} RemovedLater(log: seq<Event>, id: Id, k: nat) returns (m: nat)
    requires k < |log| && !log[k].PeerRemoved? && log[k].id == id && id !in Registered(log)
    ensures k < m < |log| && log[m].PeerRemoved? && log[m].id == id
  {
    var n := |log| - 1;
    if log[n].id == id {
      m := n;
    } else {
      m := RemovedLater(log[..n], id, k);
    }
  }

  /** Every registration is followed by its end, at the latest in the sweep. */
  lemma EndFollows(s: Sys, sweep: seq<StatsEvent>, k: nat) returns (m: nat)
    requires Noticed(s) && Registry(s.router) == Registered(s.handled)
    requires k < |s.handled| && !s.handled[k].PeerRemoved?
    requires forall id :: id in s.router.routing ==> Finalize(id) in sweep
    ensures
      var sent := s.router.stats + sweep;
      k < m < |sent| && sent[m] == Finalize(s.handled[k].id) && sent[k].Register? && sent[k].id == s.handled[k].id
  {
    hide Registered;
    var sent, id := s.router.stats + sweep, s.handled[k].id;
    assert sent[k] == s.router.stats[k];
    if id in s.router.routing {
      var i :| 0 <= i < |sweep| && sweep[i] == Finalize(id);
      m := |s.router.stats| + i;
    } else {
      assert id !in Registry(s.router);
      m := RemovedLater(s.handled, id, k);
      assert sent[m] == s.router.stats[m];
    }
  }

  /**
   When no message is lost and the sweep at shutdown ends every endpoint still registered,
   every endpoint the router ever registered gets exactly one final line, and it is
   dequeued unless more of them than the queue holds arrive after cancel.
   */
  lemma EveryEndpointReported(
    hash: Bytes -> Hash, dedupTtl: nat, dedupCapacity: nat, actions: seq<Action>, sweep: seq<StatsEvent>,
    capacity: nat, inputs: seq<Stats.Input>, late: seq<StatsEvent>, k: nat)
    requires IsRun(hash, Start(dedupTtl, dedupCapacity), actions) && 0 < capacity
    requires
      var s := After(hash, Start(dedupTtl, dedupCapacity), actions);
      && (forall i :: 0 <= i < |sweep| ==> sweep[i].Finalize?)
      && (forall id :: id in s.router.routing ==> Finalize(id) in sweep)
      && Stats.Messages(inputs) + late == s.router.stats + sweep
      && k < |s.handled| && !s.handled[k].PeerRemoved?
    ensures
      var line := Stats.Line(After(hash, Start(dedupTtl, dedupCapacity), actions).handled[k].id, true);
      var t1 := Stats.Loop(Stats.NewTask(capacity, true), inputs);
      var t2 := Stats.FullRun(capacity, true, inputs, late);
      && multiset(t2.offered)[line] == 1
      && (|t2.offered| - |t1.offered| <= capacity ==> multiset(t2.dequeued)[line] == 1)
  {
    hide IsRun, After, Stats.Loop, Stats.FullRun, Stats.Messages, Stats.StageAfter, Stats.RegisteredOnce, Noticed,
         Registered;
    var s := After(hash, Start(dedupTtl, dedupCapacity), actions);
    var sent, id := s.router.stats + sweep, s.handled[k].id;
    RegistersOnce(hash, dedupTtl, dedupCapacity, actions);
    SweepOnce(s.router.stats, sweep);
    assert Noticed(s) by {
      StartNoticed(dedupTtl, dedupCapacity);
      RunNoticed(hash, Start(dedupTtl, dedupCapacity), actions);
    }
    assert Registry(s.router) == Registered(s.handled) by {
      ReachableOk(hash, dedupTtl, dedupCapacity, actions);
      RegistryIsLog(s);
    }
    var m := EndFollows(s, sweep, k);
    Stats.FinalizedIsGone(sent, id, k, m);
    Stats.OneFinalLineEach(capacity, inputs, late, id);
  }

  lemma StartNoticed(dedupTtl: nat, dedupCapacity: nat)
    ensures Noticed(Start(dedupTtl, dedupCapacity))
  {}

  lemma RegistryIsLog(s: Sys)
    requires Ok(s)
    ensures Registry(s.router) == Registered(s.handled)
  {
    hide LogOk, SessionsOk, FramesOk, UdpsOk, OwnersOk, Registry, Registered, Removed, ReservedOk;
  }
}
