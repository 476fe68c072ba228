/**
 The router against its history.  Everything the router consults to decide on a frame, its
 registry, its learn tables and its duplicate window, is a function of the inputs taken so
 far; here those functions are written down without the router's state, and the delivery
 rule with them.
 */
module RouterHistory {
  import opened Frame
  import opened Learning
  import opened LearnTies
  import opened Deduplication
  import opened Deciding
  import opened Routing
  import opened RouterSafety
  import opened RouterDelivery
  import opened RouterReplies
  import opened RouterRules

  // ---------- Who is registered ----------

  /** What the lifecycle events say of an id: its payload while it is registered and routes. */
  ghost function Registration(inputs: seq<Input>, id: Id): Option<Routable> {
    if inputs == [] then None
    else
      var input := inputs[|inputs| - 1];
      if input.Lifecycle? && input.event.id == id then
        match input.event
        case EndpointAdded(_, leaf) => leaf
        case PeerAdded(_, _, routable) => Some(routable)
        case PeerRemoved(_, _, _) => None
      else Registration(inputs[..|inputs| - 1], id)
  }

  ghost predicate RegisteredAs(s: State, id: Id, r: Option<Routable>) {
    if r.None? then !IsRoutable(s, id)
    else IsRoutable(s, id) && s.routing[id].value.identity == r.value.identity
         && s.routing[id].value.endpointName == r.value.endpointName
  }

  lemma EventRegisters(s: State, e: Event, id: Id, r: Option<Routable>)
    requires RegisteredAs(s, id, r) && e.id != id
    ensures RegisteredAs(OnEvent(s, e), id, r)
  {
    hide Join, Leave;
  }

  lemma OwnEventRegisters(s: State, e: Event)
    ensures RegisteredAs(OnEvent(s, e), e.id,
                         match e
                         case EndpointAdded(_, leaf) => leaf
                         case PeerAdded(_, _, routable) => Some(routable)
                         case PeerRemoved(_, _, _) => None)
  {
    hide Join, Leave;
  }

  lemma FrameRegisters(
    hash: Bytes -> Hash, s: State, src: Id, frame: Bytes, header: ParsedHeader, now: nat, id: Id, r: Option<Routable>)
    requires RegisteredAs(s, id, r)
    ensures RegisteredAs(OnFrame(hash, s, src, frame, header, now), id, r)
  {
    hide CheckAndInsert, Touched, PushedAfter, DropsAfter;
  }

  /** The registry holds exactly the registrations of the history. */
  lemma {:induction false} RegistryIs(
    hash: Bytes -> Hash, dedupTtl: nat, dedupCapacity: nat, inputs: seq<Input>, id: Id)
    ensures RegisteredAs(Run(hash, NewState(dedupTtl, dedupCapacity), inputs), id, Registration(inputs, id))
  {
    hide RegisteredAs, OnEvent, OnFrame;
    if inputs == [] {
      NobodyRegistered(dedupTtl, dedupCapacity, id);
    } else {
      var n := |inputs| - 1;
      var s := Run(hash, NewState(dedupTtl, dedupCapacity), inputs[..n]);
      RegistryIs(hash, dedupTtl, dedupCapacity, inputs[..n], id);
      match inputs[n] {
        case Lifecycle(e) =>
          if e.id == id {
            OwnEventRegisters(s, e);
          } else {
            EventRegisters(s, e, id, Registration(inputs[..n], id));
          }
        case Inbound(src, frame, header, now) =>
          FrameRegisters(hash, s, src, frame, header, now, id, Registration(inputs[..n], id));
      }
    }
  }

  lemma NobodyRegistered(dedupTtl: nat, dedupCapacity: nat, id: Id)
    ensures RegisteredAs(NewState(dedupTtl, dedupCapacity), id, None)
  {}

  // ---------- The duplicate window ----------

  /** The lookups made: one for every frame of an endpoint registered at the time. */
  ghost function Lookups(hash: Bytes -> Hash, inputs: seq<Input>): seq<Query> {
    if inputs == [] then []
    else
      var n := |inputs| - 1;
      var before := Lookups(hash, inputs[..n]);
      if inputs[n].Inbound? && Registration(inputs[..n], inputs[n].src).Some?
      then before + [Query(hash(inputs[n].frame), inputs[n].now)] else before
  }

  lemma EventWindow(s: State, e: Event)
    ensures OnEvent(s, e).dedup == s.dedup
  {
    hide Join, Leave;
  }

  lemma IngestWindow(hash: Bytes -> Hash, s: State, src: Id, frame: Bytes, header: ParsedHeader, now: nat)
    ensures Ingest(hash, s, src, frame, header, now).state.dedup
         == if IsRoutable(s, src) then CheckAndInsert(s.dedup, hash(frame), now).0 else s.dedup
  {
    hide CheckAndInsert, Touched;
  }

  lemma StepWindow(hash: Bytes -> Hash, s: State, input: Input)
    ensures Step(hash, s, input).dedup
         == if input.Inbound? && IsRoutable(s, input.src)
            then CheckAndInsert(s.dedup, hash(input.frame), input.now).0 else s.dedup
  {
    hide CheckAndInsert, OnEvent, Ingest, PushedAfter, DropsAfter, IsRoutable;
    match input {
      case Lifecycle(e) => EventWindow(s, e);
      case Inbound(src, frame, header, now) => IngestWindow(hash, s, src, frame, header, now);
    }
  }

  lemma WindowOneMore(w: Window, run: seq<Query>, q: Query)
    ensures RunWindow(w, run + [q]) == CheckAndInsert(RunWindow(w, run), q.hash, q.at).0
  {
    hide CheckAndInsert;
    assert (run + [q])[..|run|] == run;
  }

  /** The window is the one that these lookups leave behind. */
  lemma {:induction false} WindowIs(hash: Bytes -> Hash, dedupTtl: nat, dedupCapacity: nat, inputs: seq<Input>)
    ensures Run(hash, NewState(dedupTtl, dedupCapacity), inputs).dedup
         == RunWindow(NewWindow(dedupTtl, dedupCapacity), Lookups(hash, inputs))
  {
    hide Step, CheckAndInsert, Registration, IsRoutable;
    if inputs == [] {
      EmptyWindow(NewWindow(dedupTtl, dedupCapacity));
    } else {
      hide RunWindow;
      var n := |inputs| - 1;
      var s := Run(hash, NewState(dedupTtl, dedupCapacity), inputs[..n]);
      WindowIs(hash, dedupTtl, dedupCapacity, inputs[..n]);
      StepWindow(hash, s, inputs[n]);
      if inputs[n].Inbound? {
        RegistryIs(hash, dedupTtl, dedupCapacity, inputs[..n], inputs[n].src);
        WindowOneMore(NewWindow(dedupTtl, dedupCapacity), Lookups(hash, inputs[..n]),
                      Query(hash(inputs[n].frame), inputs[n].now));
      }
    }
  }

  lemma EmptyWindow(w: Window)
    ensures RunWindow(w, []) == w
  {}

  /** The clock of the lookups is that of the run. */
  lemma {:induction false} LookupsForward(hash: Bytes -> Hash, inputs: seq<Input>)
    requires ForwardClock(0, inputs)
    ensures Forward(Lookups(hash, inputs)) && Clock(Lookups(hash, inputs)) <= RunClock(0, inputs)
  {
    hide Registration, ForwardClock;
    if inputs != [] {
      var n := |inputs| - 1;
      ForwardPrefix(0, inputs, n);
      LookupsForward(hash, inputs[..n]);
      assert inputs[n].Inbound? ==> RunClock(0, inputs[..n]) <= inputs[n].now by { ForwardLast(0, inputs); }
      var frame := if inputs[n].Inbound? then inputs[n].frame else [];
      ForwardOneMore(Lookups(hash, inputs[..n]), Query(hash(frame), RunClock(0, inputs)));
    }
  }

  lemma ForwardLast(from: nat, inputs: seq<Input>)
    requires ForwardClock(from, inputs) && inputs != []
    ensures inputs[|inputs| - 1].Inbound? ==> RunClock(from, inputs[..|inputs| - 1]) <= inputs[|inputs| - 1].now
  {
    hide RunClock;
  }

  lemma ForwardOneMore(run: seq<Query>, q: Query)
    requires Forward(run) && Clock(run) <= q.at
    ensures Forward(run + [q])
  {
    forall i | 0 <= i < |run|
      ensures run[i].at <= q.at
    {
      assert run[i].at <= run[|run| - 1].at;
    }
  }

  /** The frame repeats one that was admitted recently enough. */
  ghost predicate Repeats(
    hash: Bytes -> Hash, dedupTtl: nat, dedupCapacity: nat, inputs: seq<Input>, frame: Bytes, now: nat)
  {
    var capacity := if dedupCapacity == 0 then 1 else dedupCapacity;
    0 < dedupTtl
    && Live(Deduplication.Admitted(capacity, dedupTtl, Lookups(hash, inputs)), capacity, dedupTtl, hash(frame), now)
  }

  /** A frame is accepted from a registered endpoint unless it repeats an earlier one. */
  ghost predicate AcceptedAfter(
    hash: Bytes -> Hash, dedupTtl: nat, dedupCapacity: nat, inputs: seq<Input>, input: Input)
    requires input.Inbound?
  {
    && Registration(inputs, input.src).Some?
    && !Repeats(hash, dedupTtl, dedupCapacity, inputs, input.frame, input.now)
  }

  lemma AcceptedIs(hash: Bytes -> Hash, dedupTtl: nat, dedupCapacity: nat, inputs: seq<Input>, input: Input)
    requires LegalRun(hash, NewState(dedupTtl, dedupCapacity), 0, inputs)
    requires input.Inbound? && RunClock(0, inputs) <= input.now
    ensures Accepted(hash, Run(hash, NewState(dedupTtl, dedupCapacity), inputs), input)
       <==> AcceptedAfter(hash, dedupTtl, dedupCapacity, inputs, input)
  {
    hide Run, RunWindow, CheckAndInsert, Lookups, Registration, Live, Deduplication.Admitted, RunClock, IsRoutable,
         FreshRun, ForwardClock;
    RegistryIs(hash, dedupTtl, dedupCapacity, inputs, input.src);
    WindowIs(hash, dedupTtl, dedupCapacity, inputs);
    LookupsForward(hash, inputs);
    var q := Query(hash(input.frame), input.now);
    if dedupTtl == 0 {
      DisabledAdmitsAll(dedupCapacity, Lookups(hash, inputs), q);
    } else {
      VerdictIsDeclarative(dedupTtl, dedupCapacity, Lookups(hash, inputs), q);
    }
  }

  // ---------- The learn tables ----------

  /** Some registered endpoint names the group. */
  ghost predicate Alive(inputs: seq<Input>, g: string) {
    exists id :: InGroup(inputs, id, g)
  }

  ghost predicate InGroup(inputs: seq<Input>, id: Id, g: string) {
    Registration(inputs, id).Some? && Registration(inputs, id).value.identity.group == Some(g)
  }

  /** The sources accepted from members of a group since it last came to life. */
  ghost function GroupSightings(hash: Bytes -> Hash, dedupTtl: nat, dedupCapacity: nat, inputs: seq<Input>, g: string)
    : seq<Sighting>
  {
    if inputs == [] || !Alive(inputs[..|inputs| - 1], g) then []
    else
      var init, input := inputs[..|inputs| - 1], inputs[|inputs| - 1];
      var before := GroupSightings(hash, dedupTtl, dedupCapacity, init, g);
      if input.Inbound? && AcceptedAfter(hash, dedupTtl, dedupCapacity, init, input) && InGroup(init, input.src, g)
      then before + [Sighting(input.header.source, input.now)] else before
  }

  /** The sources accepted from an endpoint since it was registered. */
  ghost function OwnSightings(hash: Bytes -> Hash, dedupTtl: nat, dedupCapacity: nat, inputs: seq<Input>, id: Id)
    : seq<Sighting>
  {
    if inputs == [] then []
    else
      var init, input := inputs[..|inputs| - 1], inputs[|inputs| - 1];
      if input.Lifecycle? && input.event.id == id then []
      else
        var before := OwnSightings(hash, dedupTtl, dedupCapacity, init, id);
        if input.Inbound? && input.src == id && AcceptedAfter(hash, dedupTtl, dedupCapacity, init, input)
        then before + [Sighting(input.header.source, input.now)] else before
  }

  /** The sightings behind the table that is consulted for an endpoint. */
  ghost function Sightings(hash: Bytes -> Hash, dedupTtl: nat, dedupCapacity: nat, inputs: seq<Input>, id: Id)
    : seq<Sighting>
    requires Registration(inputs, id).Some?
  {
    match Registration(inputs, id).value.identity.group
    case Some(g) => GroupSightings(hash, dedupTtl, dedupCapacity, inputs, g)
    case None => OwnSightings(hash, dedupTtl, dedupCapacity, inputs, id)
  }

  /** A group has a table exactly while it is alive. */
  lemma GroupExists(hash: Bytes -> Hash, dedupTtl: nat, dedupCapacity: nat, inputs: seq<Input>, g: string)
    requires LegalRun(hash, NewState(dedupTtl, dedupCapacity), 0, inputs)
    ensures g in Run(hash, NewState(dedupTtl, dedupCapacity), inputs).groups <==> Alive(inputs, g)
  {
    hide Run, LegalRun, Registration, RunClock, TablesGood;
    var s := Run(hash, NewState(dedupTtl, dedupCapacity), inputs);
    ReachableInv(hash, dedupTtl, dedupCapacity, inputs);
    if g in s.groups {
      assert |Members(s.routing, g)| > 0;
      var id :| id in Members(s.routing, g);
      RegistryIs(hash, dedupTtl, dedupCapacity, inputs, id);
      assert InGroup(inputs, id, g);
    }
    if Alive(inputs, g) {
      var id :| InGroup(inputs, id, g);
      RegistryIs(hash, dedupTtl, dedupCapacity, inputs, id);
      assert GroupOf(s.routing[id]) == Some(g);
    }
  }

  /** An event creates group tables empty and leaves existing ones alone. */
  lemma EventGroups(s: State, e: Event, g: string)
    ensures
      var s' := OnEvent(s, e);
      g in s'.groups ==> s'.groups[g].learn == if g in s.groups then s.groups[g].learn else NewTable(32)
  {
    hide NewTable;
  }

  /** An event creates the endpoint's own table empty and leaves those of others alone. */
  lemma EventSlots(s: State, e: Event, id: Id)
    ensures
      var s' := OnEvent(s, e);
      IsRoutable(s', id) ==>
        if e.id == id then s'.routing[id].value.learn == NewTable(32)
        else IsRoutable(s, id) && s'.routing[id] == s.routing[id]
  {
    hide NewTable, Join, Leave;
  }

  function TouchedIf(heard: bool, t: Table, node: NodeId, now: nat): Table {
    if heard then Touched(t, node, now) else t
  }

  /** The table of `g`, and that of `id` when it has its own, after `node` was or was not heard from `src`. */
  ghost predicate TablesMove(s: State, s': State, heard: bool, src: Id, node: NodeId, now: nat, g: string, id: Id) {
    && s'.groups.Keys == s.groups.Keys
    && (IsRoutable(s', id) <==> IsRoutable(s, id))
    && (g in s.groups ==>
          s'.groups[g].learn
            == TouchedIf(heard && src in s.routing && GroupOf(s.routing[src]) == Some(g), s.groups[g].learn, node, now))
    && (IsRoutable(s, id) && GroupOf(s.routing[id]).None? ==>
          s'.routing[id].value.learn == TouchedIf(heard && src == id, s.routing[id].value.learn, node, now))
  }

  /** A frame touches its sender's table, if it is admitted, and no other. */
  lemma FrameTables(hash: Bytes -> Hash, s: State, input: Input, g: string, id: Id)
    requires input.Inbound? && Inv(s, input.now)
    ensures TablesMove(s, Step(hash, s, input), Accepted(hash, s, input),
                       input.src, input.header.source, input.now, g, id)
  {
    hide CheckAndInsert, TouchedIf, Inv, Dispatch, Learn, AdmittedIn;
    AcceptedIsAdmitted(hash, s, input);
    IngestOutcome(hash, s, input.src, input.frame, input.header, input.now);
    if Accepted(hash, s, input) {
      var s1 := s.(dedup := CheckAndInsert(s.dedup, hash(input.frame), input.now).0);
      var r := Ingest(hash, s, input.src, input.frame, input.header, input.now);
      LearnTables(s1, input.src, input.header.source, input.now, g, id);
      DispatchKeepsTables(r.state, input.src, input.frame, input.header, r.srcName);
    } else {
      Unheard(s.routing, s.groups, input.header.source, input.now, g, id);
    }
  }

  lemma Unheard(routing: map<Id, Slot>, groups: Groups, node: NodeId, now: nat, g: string, id: Id)
    ensures g in groups ==> TouchedIf(false, groups[g].learn, node, now) == groups[g].learn
    ensures id in routing && routing[id].Some? ==>
              TouchedIf(false, routing[id].value.learn, node, now) == routing[id].value.learn
  {}

  lemma LearnTables(s: State, src: Id, node: NodeId, now: nat, g: string, id: Id)
    requires IsRoutable(s, src) && Learn(s, src, node, now).Some?
    ensures TablesMove(s, Learn(s, src, node, now).value, true, src, node, now, g, id)
  {
    hide Touched;
  }

  /** The tables of a state are those of two series of sightings. */
  ghost predicate TablesAre(s: State, g: string, ofGroup: seq<Sighting>, id: Id, own: seq<Sighting>) {
    && (g in s.groups ==> s.groups[g].learn == TouchAll(32, ofGroup))
    && (IsRoutable(s, id) && GroupOf(s.routing[id]).None? ==>
          s.routing[id].value.learn == TouchAll(32, own))
  }

  /**
   Over every legal run a group's table is the one its sightings leave since the group came
   to life, and an ungrouped endpoint's table the one its own sightings leave.
   */
  lemma {:induction false} LearnTablesAre(
    hash: Bytes -> Hash, dedupTtl: nat, dedupCapacity: nat, inputs: seq<Input>, g: string, id: Id)
    requires LegalRun(hash, NewState(dedupTtl, dedupCapacity), 0, inputs)
    ensures TablesAre(Run(hash, NewState(dedupTtl, dedupCapacity), inputs),
                      g, GroupSightings(hash, dedupTtl, dedupCapacity, inputs, g),
                      id, OwnSightings(hash, dedupTtl, dedupCapacity, inputs, id))
  {
    hide *;
    if inputs == [] {
      NoTables(hash, dedupTtl, dedupCapacity, g, id);
    } else {
      var n := |inputs| - 1;
      LegalPrefix(hash, NewState(dedupTtl, dedupCapacity), 0, inputs, n);
      LearnTablesAre(hash, dedupTtl, dedupCapacity, inputs[..n], g, id);
      if inputs[n].Lifecycle? {
        TablesAfterEvent(hash, dedupTtl, dedupCapacity, inputs, g, id);
      } else {
        TablesAfterFrame(hash, dedupTtl, dedupCapacity, inputs, g, id);
      }
    }
  }

  lemma NoTables(hash: Bytes -> Hash, dedupTtl: nat, dedupCapacity: nat, g: string, id: Id)
    ensures TablesAre(Run(hash, NewState(dedupTtl, dedupCapacity), []),
                      g, GroupSightings(hash, dedupTtl, dedupCapacity, [], g),
                      id, OwnSightings(hash, dedupTtl, dedupCapacity, [], id))
  {}

  lemma TablesAfterEvent(hash: Bytes -> Hash, dedupTtl: nat, dedupCapacity: nat, inputs: seq<Input>, g: string, id: Id)
    requires LegalRun(hash, NewState(dedupTtl, dedupCapacity), 0, inputs)
    requires inputs != [] && inputs[|inputs| - 1].Lifecycle?
    requires
      var init := inputs[..|inputs| - 1];
      TablesAre(Run(hash, NewState(dedupTtl, dedupCapacity), init),
                g, GroupSightings(hash, dedupTtl, dedupCapacity, init, g),
                id, OwnSightings(hash, dedupTtl, dedupCapacity, init, id))
    ensures TablesAre(Run(hash, NewState(dedupTtl, dedupCapacity), inputs),
                      g, GroupSightings(hash, dedupTtl, dedupCapacity, inputs, g),
                      id, OwnSightings(hash, dedupTtl, dedupCapacity, inputs, id))
  {
    hide OnEvent, Alive, LegalRun, NewTable, TouchAll, AcceptedAfter, InGroup;
    var n := |inputs| - 1;
    var s := Run(hash, NewState(dedupTtl, dedupCapacity), inputs[..n]);
    LegalPrefix(hash, NewState(dedupTtl, dedupCapacity), 0, inputs, n);
    GroupExists(hash, dedupTtl, dedupCapacity, inputs[..n], g);
    EventGroups(s, inputs[n].event, g);
    EventSlots(s, inputs[n].event, id);
    NothingSeen(32);
  }

  lemma TablesAfterFrame(hash: Bytes -> Hash, dedupTtl: nat, dedupCapacity: nat, inputs: seq<Input>, g: string, id: Id)
    requires LegalRun(hash, NewState(dedupTtl, dedupCapacity), 0, inputs)
    requires inputs != [] && inputs[|inputs| - 1].Inbound?
    requires
      var init := inputs[..|inputs| - 1];
      TablesAre(Run(hash, NewState(dedupTtl, dedupCapacity), init),
                g, GroupSightings(hash, dedupTtl, dedupCapacity, init, g),
                id, OwnSightings(hash, dedupTtl, dedupCapacity, init, id))
    ensures TablesAre(Run(hash, NewState(dedupTtl, dedupCapacity), inputs),
                      g, GroupSightings(hash, dedupTtl, dedupCapacity, inputs, g),
                      id, OwnSightings(hash, dedupTtl, dedupCapacity, inputs, id))
  {
    hide Step, Alive, LegalRun, NewTable, TouchAll, Touched, Accepted, Registration, Inv, RunClock, Repeats;
    var s0 := NewState(dedupTtl, dedupCapacity);
    var n := |inputs| - 1;
    var init, input := inputs[..n], inputs[n];
    var s := Run(hash, s0, init);
    LegalPrefix(hash, s0, 0, inputs, n);
    LegalStep(hash, s0, 0, inputs, n);
    ReachableInv(hash, dedupTtl, dedupCapacity, init);
    InvLater(s, RunClock(0, init), input.now);
    GroupExists(hash, dedupTtl, dedupCapacity, init, g);
    AcceptedIs(hash, dedupTtl, dedupCapacity, init, input);
    RegistryIs(hash, dedupTtl, dedupCapacity, init, input.src);
    FrameTables(hash, s, input, g, id);
    if IsRoutable(s, id) {
      SameGroups(hash, s, input, id);
    }
    var seen := Sighting(input.header.source, input.now);
    TouchAllSnoc(32, GroupSightings(hash, dedupTtl, dedupCapacity, init, g), seen);
    TouchAllSnoc(32, OwnSightings(hash, dedupTtl, dedupCapacity, init, id), seen);
  }

  lemma SameGroups(hash: Bytes -> Hash, s: State, input: Input, id: Id)
    requires input.Inbound? && IsRoutable(s, id)
    ensures IsRoutable(Step(hash, s, input), id)
    ensures GroupOf(Step(hash, s, input).routing[id]) == GroupOf(s.routing[id])
  {
    var r := Some(Routable(s.routing[id].value.identity, s.routing[id].value.endpointName));
    FrameRegisters(hash, s, input.src, input.frame, input.header, input.now, id, r);
    hide OnFrame;
  }

  /** So the table consulted for an endpoint is the one its sightings leave. */
  lemma EffectiveTableIs(hash: Bytes -> Hash, dedupTtl: nat, dedupCapacity: nat, inputs: seq<Input>, id: Id)
    requires LegalRun(hash, NewState(dedupTtl, dedupCapacity), 0, inputs) && Registration(inputs, id).Some?
    ensures
      var s := Run(hash, NewState(dedupTtl, dedupCapacity), inputs);
      && IsRoutable(s, id)
      && EffectiveLearn(s.groups, s.routing[id].value)
           == Some(TouchAll(32, Sightings(hash, dedupTtl, dedupCapacity, inputs, id)))
  {
    hide Run, LegalRun, Registration, TouchAll, GroupSightings, OwnSightings, Alive;
    RegistryIs(hash, dedupTtl, dedupCapacity, inputs, id);
    match Registration(inputs, id).value.identity.group {
      case Some(g) =>
        GroupExists(hash, dedupTtl, dedupCapacity, inputs, g);
        assert InGroup(inputs, id, g);
        assert Alive(inputs, g) by { OneMember(inputs, id, g); }
        LearnTablesAre(hash, dedupTtl, dedupCapacity, inputs, g, id);
      case None =>
        LearnTablesAre(hash, dedupTtl, dedupCapacity, inputs, "", id);
    }
  }

  lemma OneMember(inputs: seq<Input>, id: Id, g: string)
    requires InGroup(inputs, id, g)
    ensures Alive(inputs, g)
  {}

  // ---------- The times of sightings ----------

  ghost predicate TimesUpTo(h: seq<Sighting>, clock: nat) {
    Nondecreasing(h) && forall i :: 0 <= i < |h| ==> h[i].at <= clock
  }

  lemma TimesOneMore(h: seq<Sighting>, clock: nat, s: Sighting)
    requires TimesUpTo(h, clock) && clock <= s.at
    ensures TimesUpTo(h, s.at) && TimesUpTo(h + [s], s.at)
  {}

  /** Sightings are in order of time, up to the clock of the run. */
  lemma {:induction false} SightingTimes(
    hash: Bytes -> Hash, dedupTtl: nat, dedupCapacity: nat, inputs: seq<Input>, g: string, id: Id)
    requires ForwardClock(0, inputs)
    ensures TimesUpTo(GroupSightings(hash, dedupTtl, dedupCapacity, inputs, g), RunClock(0, inputs))
    ensures TimesUpTo(OwnSightings(hash, dedupTtl, dedupCapacity, inputs, id), RunClock(0, inputs))
  {
    hide ForwardClock, AcceptedAfter, Alive, InGroup;
    if inputs != [] {
      var n := |inputs| - 1;
      var init, input := inputs[..n], inputs[n];
      ForwardPrefix(0, inputs, n);
      ForwardLast(0, inputs);
      SightingTimes(hash, dedupTtl, dedupCapacity, init, g, id);
      if input.Inbound? {
        var seen := Sighting(input.header.source, input.now);
        TimesOneMore(GroupSightings(hash, dedupTtl, dedupCapacity, init, g), RunClock(0, init), seen);
        TimesOneMore(OwnSightings(hash, dedupTtl, dedupCapacity, init, id), RunClock(0, init), seen);
      }
    }
  }

  lemma SightingsForward(hash: Bytes -> Hash, dedupTtl: nat, dedupCapacity: nat, inputs: seq<Input>, id: Id)
    requires LegalRun(hash, NewState(dedupTtl, dedupCapacity), 0, inputs) && Registration(inputs, id).Some?
    ensures Nondecreasing(Sightings(hash, dedupTtl, dedupCapacity, inputs, id))
  {
    hide Registration, GroupSightings, OwnSightings, FreshRun;
    var group := Registration(inputs, id).value.identity.group;
    SightingTimes(hash, dedupTtl, dedupCapacity, inputs, if group.Some? then group.value else "", id);
  }

  // ---------- The delivery rule ----------

  /** The table of an endpoint holds `n`. */
  ghost predicate Knows(hash: Bytes -> Hash, dedupTtl: nat, dedupCapacity: nat, inputs: seq<Input>, id: Id, n: NodeId)
    requires Registration(inputs, id).Some?
  {
    Contains(TouchAll(32, Sightings(hash, dedupTtl, dedupCapacity, inputs, id)), n)
  }

  ghost predicate SameGroup(inputs: seq<Input>, a: Id, b: Id)
    requires Registration(inputs, a).Some? && Registration(inputs, b).Some?
  {
    var g := Registration(inputs, a).value.identity.group;
    g.Some? && Registration(inputs, b).value.identity.group == g
  }

  /** Some node the frame is addressed to is known behind `dest`, or it is addressed to none. */
  ghost predicate TargetKnown(
    hash: Bytes -> Hash, dedupTtl: nat, dedupCapacity: nat, inputs: seq<Input>, header: ParsedHeader, dest: Id)
    requires Registration(inputs, dest).Some?
  {
    || header.targetSystem.None? || header.targetSystem.value == 0
    || exists n :: Knows(hash, dedupTtl, dedupCapacity, inputs, dest, n) && Addresses(header, n)
  }

  /** The delivery rule in terms of the history alone. */
  ghost predicate DeliveredAfter(
    hash: Bytes -> Hash, dedupTtl: nat, dedupCapacity: nat, inputs: seq<Input>, input: Input, dest: Id)
  {
    && input.Inbound? && AcceptedAfter(hash, dedupTtl, dedupCapacity, inputs, input)
    && dest != input.src && Registration(inputs, dest).Some?
    && var d := Registration(inputs, dest).value.identity;
       || d.sniffer
       || (&& !SameGroup(inputs, input.src, dest)
           && !Knows(hash, dedupTtl, dedupCapacity, inputs, dest, input.header.source)
           && OutListed(d.filters, input.header.msgid, input.header.source,
                        Registration(inputs, input.src).value.endpointName)
           && TargetKnown(hash, dedupTtl, dedupCapacity, inputs, input.header, dest))
  }

  lemma TargetKnownIs(
    hash: Bytes -> Hash, dedupTtl: nat, dedupCapacity: nat, inputs: seq<Input>, header: ParsedHeader, dest: Id)
    requires Registration(inputs, dest).Some?
    ensures TargetKnown(hash, dedupTtl, dedupCapacity, inputs, header, dest)
       <==> TargetMatch(header, TouchAll(32, Sightings(hash, dedupTtl, dedupCapacity, inputs, dest)))
  {
    hide TouchAll, Contains, TargetMatch, Sightings, Registration, Addresses;
    var learn := TouchAll(32, Sightings(hash, dedupTtl, dedupCapacity, inputs, dest));
    TargetRule(header, learn);
    assert forall n :: Knows(hash, dedupTtl, dedupCapacity, inputs, dest, n) <==> Contains(learn, n);
  }

  lemma SharesIs(hash: Bytes -> Hash, dedupTtl: nat, dedupCapacity: nat, inputs: seq<Input>, a: Id, b: Id)
    requires a != b && Registration(inputs, a).Some? && Registration(inputs, b).Some?
    ensures SharesTable(Run(hash, NewState(dedupTtl, dedupCapacity), inputs), a, b) <==> SameGroup(inputs, a, b)
  {
    hide Run, Registration;
    RegistryIs(hash, dedupTtl, dedupCapacity, inputs, a);
    RegistryIs(hash, dedupTtl, dedupCapacity, inputs, b);
  }

  /** Over every legal run the router delivers by this rule. */
  lemma DeliveryByHistory(
    hash: Bytes -> Hash, dedupTtl: nat, dedupCapacity: nat, inputs: seq<Input>, input: Input, dest: Id)
    requires LegalRun(hash, NewState(dedupTtl, dedupCapacity), 0, inputs)
    requires input.Inbound? ==> RunClock(0, inputs) <= input.now
    ensures DeliveredIn(hash, Run(hash, NewState(dedupTtl, dedupCapacity), inputs), input, dest)
       <==> DeliveredAfter(hash, dedupTtl, dedupCapacity, inputs, input, dest)
  {
    hide Run, LegalRun, RunClock, Registration, Accepted, AcceptedAfter, TargetMatch, TargetKnown, OutListed,
         Contains, TouchAll, Sightings, SharesTable, SameGroup, Inv, IsRoutable;
    if input.Inbound? {
      hide DeliveredIn;
      var s := Run(hash, NewState(dedupTtl, dedupCapacity), inputs);
      ReachableInv(hash, dedupTtl, dedupCapacity, inputs);
      InvLater(s, RunClock(0, inputs), input.now);
      DeliveryRule(hash, s, input, dest);
      AcceptedIs(hash, dedupTtl, dedupCapacity, inputs, input);
      RegistryIs(hash, dedupTtl, dedupCapacity, inputs, dest);
      RegistryIs(hash, dedupTtl, dedupCapacity, inputs, input.src);
      if && AcceptedAfter(hash, dedupTtl, dedupCapacity, inputs, input)
         && dest != input.src && Registration(inputs, dest).Some? {
        AcceptedIsRegistered(hash, dedupTtl, dedupCapacity, inputs, input);
        EffectiveTableIs(hash, dedupTtl, dedupCapacity, inputs, dest);
        SharesIs(hash, dedupTtl, dedupCapacity, inputs, input.src, dest);
        TargetKnownIs(hash, dedupTtl, dedupCapacity, inputs, input.header, dest);
      }
    }
  }

  lemma AcceptedIsRegistered(hash: Bytes -> Hash, dedupTtl: nat, dedupCapacity: nat, inputs: seq<Input>, input: Input)
    requires input.Inbound? && AcceptedAfter(hash, dedupTtl, dedupCapacity, inputs, input)
    ensures Registration(inputs, input.src).Some?
  {}

  /** The frames that the rule sends to an endpoint, in order. */
  ghost function Owed(hash: Bytes -> Hash, dedupTtl: nat, dedupCapacity: nat, inputs: seq<Input>, dest: Id)
    : seq<Bytes>
  {
    if inputs == [] then []
    else
      var n := |inputs| - 1;
      Owed(hash, dedupTtl, dedupCapacity, inputs[..n], dest) +
      if DeliveredAfter(hash, dedupTtl, dedupCapacity, inputs[..n], inputs[n], dest) then [inputs[n].frame] else []
  }

  /**
   The whole router in one statement: over every legal run each endpoint's queue received
   exactly the frames the rule sends it, once each, in order.
   */
  lemma {:induction false} PushesByHistory(
    hash: Bytes -> Hash, dedupTtl: nat, dedupCapacity: nat, inputs: seq<Input>, dest: Id)
    requires LegalRun(hash, NewState(dedupTtl, dedupCapacity), 0, inputs)
    ensures PushedTo(Run(hash, NewState(dedupTtl, dedupCapacity), inputs), dest)
         == Owed(hash, dedupTtl, dedupCapacity, inputs, dest)
  {
    hide LegalRun, Step, DeliveredIn, DeliveredAfter;
    if inputs != [] {
      var s0, n := NewState(dedupTtl, dedupCapacity), |inputs| - 1;
      LegalPrefix(hash, s0, 0, inputs, n);
      LegalStep(hash, s0, 0, inputs, n);
      PushesByHistory(hash, dedupTtl, dedupCapacity, inputs[..n], dest);
      StepPushes(hash, Run(hash, s0, inputs[..n]), inputs[n], dest);
      DeliveryByHistory(hash, dedupTtl, dedupCapacity, inputs[..n], inputs[n], dest);
    }
  }

  // ---------- The drop counters ----------

  /** The out-filter of `dest` refuses the frame, in terms of the history alone. */
  ghost predicate RefusedAfter(
    hash: Bytes -> Hash, dedupTtl: nat, dedupCapacity: nat, inputs: seq<Input>, input: Input, dest: Id)
  {
    && input.Inbound? && AcceptedAfter(hash, dedupTtl, dedupCapacity, inputs, input)
    && dest != input.src && Registration(inputs, dest).Some?
    && var d := Registration(inputs, dest).value.identity;
       && !d.sniffer
       && !SameGroup(inputs, input.src, dest)
       && !Knows(hash, dedupTtl, dedupCapacity, inputs, dest, input.header.source)
       && !OutListed(d.filters, input.header.msgid, input.header.source,
                     Registration(inputs, input.src).value.endpointName)
  }

  /** All that delivery to a destination other than a sniffer takes, its out-filter apart. */
  ghost predicate ReachesFilter(
    hash: Bytes -> Hash, dedupTtl: nat, dedupCapacity: nat, inputs: seq<Input>, input: Input, dest: Id)
  {
    && input.Inbound? && AcceptedAfter(hash, dedupTtl, dedupCapacity, inputs, input)
    && dest != input.src && Registration(inputs, dest).Some?
    && !Registration(inputs, dest).value.identity.sniffer
    && !SameGroup(inputs, input.src, dest)
    && !Knows(hash, dedupTtl, dedupCapacity, inputs, dest, input.header.source)
    && TargetKnown(hash, dedupTtl, dedupCapacity, inputs, input.header, dest)
  }

  /**
   What the filters decide, over every legal run: with everything else in favour of it, a
   frame is delivered exactly when on each of the four axes some allow entry covers it, or
   there is none, and no block entry does; otherwise it is counted as refused.
   */
  lemma ListsDecide(
    hash: Bytes -> Hash, dedupTtl: nat, dedupCapacity: nat, inputs: seq<Input>, input: Input, dest: Id)
    requires LegalRun(hash, NewState(dedupTtl, dedupCapacity), 0, inputs)
    requires input.Inbound? && RunClock(0, inputs) <= input.now
    requires ReachesFilter(hash, dedupTtl, dedupCapacity, inputs, input, dest)
    ensures
      var s := Run(hash, NewState(dedupTtl, dedupCapacity), inputs);
      var f, h := Registration(inputs, dest).value.identity.filters, input.header;
      var name := Registration(inputs, input.src).value.endpointName;
      var listed :=
        && MsgidListed(h.msgid, f.allowMsgidOut, f.blockMsgidOut)
        && U8Listed(h.source.sys, f.allowSrcSysOut, f.blockSrcSysOut)
        && U8Listed(h.source.comp, f.allowSrcCompOut, f.blockSrcCompOut)
        && NameListed(name, f.allowSrcEndpointOut, f.blockSrcEndpointOut);
      && (DeliveredIn(hash, s, input, dest) <==> listed)
      && (RefusedIn(hash, s, input, dest) <==> !listed)
  {
    hide Run, LegalRun, RunClock, Registration, AcceptedAfter, TargetKnown, MsgidListed, U8Listed, NameListed,
         SameGroup, Knows, DeliveredIn, RefusedIn;
    DeliveryByHistory(hash, dedupTtl, dedupCapacity, inputs, input, dest);
    RefusalByHistory(hash, dedupTtl, dedupCapacity, inputs, input, dest);
  }

  /** The frame is a repetition, charged to its sender. */
  ghost predicate RepeatedAfter(
    hash: Bytes -> Hash, dedupTtl: nat, dedupCapacity: nat, inputs: seq<Input>, input: Input, src: Id)
  {
    && input.Inbound? && input.src == src && Registration(inputs, src).Some?
    && Repeats(hash, dedupTtl, dedupCapacity, inputs, input.frame, input.now)
  }

  lemma RefusalByHistory(
    hash: Bytes -> Hash, dedupTtl: nat, dedupCapacity: nat, inputs: seq<Input>, input: Input, dest: Id)
    requires LegalRun(hash, NewState(dedupTtl, dedupCapacity), 0, inputs)
    requires input.Inbound? ==> RunClock(0, inputs) <= input.now
    ensures RefusedIn(hash, Run(hash, NewState(dedupTtl, dedupCapacity), inputs), input, dest)
       <==> RefusedAfter(hash, dedupTtl, dedupCapacity, inputs, input, dest)
  {
    hide Run, LegalRun, RunClock, Registration, Accepted, AcceptedAfter, OutListed,
         Contains, TouchAll, Sightings, SharesTable, SameGroup, Inv, IsRoutable;
    if input.Inbound? {
      hide RefusedIn;
      var s := Run(hash, NewState(dedupTtl, dedupCapacity), inputs);
      ReachableInv(hash, dedupTtl, dedupCapacity, inputs);
      InvLater(s, RunClock(0, inputs), input.now);
      RefusalRule(hash, s, input, dest);
      AcceptedIs(hash, dedupTtl, dedupCapacity, inputs, input);
      RegistryIs(hash, dedupTtl, dedupCapacity, inputs, dest);
      RegistryIs(hash, dedupTtl, dedupCapacity, inputs, input.src);
      if && AcceptedAfter(hash, dedupTtl, dedupCapacity, inputs, input)
         && dest != input.src && Registration(inputs, dest).Some? {
        AcceptedIsRegistered(hash, dedupTtl, dedupCapacity, inputs, input);
        EffectiveTableIs(hash, dedupTtl, dedupCapacity, inputs, dest);
        SharesIs(hash, dedupTtl, dedupCapacity, inputs, input.src, dest);
      }
    }
  }

  lemma RepetitionByHistory(
    hash: Bytes -> Hash, dedupTtl: nat, dedupCapacity: nat, inputs: seq<Input>, input: Input, src: Id)
    requires LegalRun(hash, NewState(dedupTtl, dedupCapacity), 0, inputs)
    requires input.Inbound? ==> RunClock(0, inputs) <= input.now
    ensures DuplicateIn(hash, Run(hash, NewState(dedupTtl, dedupCapacity), inputs), input, src)
       <==> RepeatedAfter(hash, dedupTtl, dedupCapacity, inputs, input, src)
  {
    hide Run, LegalRun, RunClock, Registration, CheckAndInsert, Repeats, IsRoutable;
    if input.Inbound? {
      AcceptedIs(hash, dedupTtl, dedupCapacity, inputs, input);
      RegistryIs(hash, dedupTtl, dedupCapacity, inputs, input.src);
    }
  }

  ghost function RefusedTotal(hash: Bytes -> Hash, dedupTtl: nat, dedupCapacity: nat, inputs: seq<Input>, id: Id): nat {
    if inputs == [] then 0
    else
      var n := |inputs| - 1;
      RefusedTotal(hash, dedupTtl, dedupCapacity, inputs[..n], id) +
      if RefusedAfter(hash, dedupTtl, dedupCapacity, inputs[..n], inputs[n], id) then 1 else 0
  }

  ghost function RepeatedTotal(hash: Bytes -> Hash, dedupTtl: nat, dedupCapacity: nat, inputs: seq<Input>, id: Id)
    : nat
  {
    if inputs == [] then 0
    else
      var n := |inputs| - 1;
      RepeatedTotal(hash, dedupTtl, dedupCapacity, inputs[..n], id) +
      if RepeatedAfter(hash, dedupTtl, dedupCapacity, inputs[..n], inputs[n], id) then 1 else 0
  }

  /** Over every legal run the drop counters of an endpoint are these totals. */
  lemma {:induction false} DropsByHistory(
    hash: Bytes -> Hash, dedupTtl: nat, dedupCapacity: nat, inputs: seq<Input>, id: Id)
    requires LegalRun(hash, NewState(dedupTtl, dedupCapacity), 0, inputs)
    ensures
      var s := Run(hash, NewState(dedupTtl, dedupCapacity), inputs);
      && Count(s.outFilterDrops, id) == RefusedTotal(hash, dedupTtl, dedupCapacity, inputs, id)
      && Count(s.dedupDrops, id) == RepeatedTotal(hash, dedupTtl, dedupCapacity, inputs, id)
  {
    hide LegalRun, Step, RefusedIn, RefusedAfter, DuplicateIn, RepeatedAfter;
    if inputs != [] {
      var s0, n := NewState(dedupTtl, dedupCapacity), |inputs| - 1;
      LegalPrefix(hash, s0, 0, inputs, n);
      LegalStep(hash, s0, 0, inputs, n);
      DropsByHistory(hash, dedupTtl, dedupCapacity, inputs[..n], id);
      StepCounts(hash, Run(hash, s0, inputs[..n]), inputs[n], id);
      RefusalByHistory(hash, dedupTtl, dedupCapacity, inputs[..n], inputs[n], id);
      RepetitionByHistory(hash, dedupTtl, dedupCapacity, inputs[..n], inputs[n], id);
    }
  }

  // ---------- What an endpoint knows ----------

  /** `n` was accepted from the endpoint, or from its group, since the table was created. */
  ghost predicate HeardBehind(
    hash: Bytes -> Hash, dedupTtl: nat, dedupCapacity: nat, inputs: seq<Input>, id: Id, n: NodeId)
    requires Registration(inputs, id).Some?
  {
    n in Latest(Sightings(hash, dedupTtl, dedupCapacity, inputs, id))
  }

  /**
   A frame addressed to a system goes to an endpoint, sniffers apart, only if one of its
   addressees was heard behind it in the lifetime of its table.
   */
  lemma DeliveryHasProvenance(
    hash: Bytes -> Hash, dedupTtl: nat, dedupCapacity: nat, inputs: seq<Input>, input: Input, dest: Id)
    returns (n: NodeId)
    requires LegalRun(hash, NewState(dedupTtl, dedupCapacity), 0, inputs)
    requires input.Inbound? && RunClock(0, inputs) <= input.now
    requires DeliveredIn(hash, Run(hash, NewState(dedupTtl, dedupCapacity), inputs), input, dest)
    requires Registration(inputs, dest).Some? && !Registration(inputs, dest).value.identity.sniffer
    requires input.header.targetSystem.Some? && input.header.targetSystem.value != 0
    ensures Addresses(input.header, n) && HeardBehind(hash, dedupTtl, dedupCapacity, inputs, dest, n)
  {
    hide Run, LegalRun, RunClock, Registration, AcceptedAfter, Contains, TouchAll, Sightings, SameGroup, DeliveredIn,
         Latest, OutListed;
    DeliveryByHistory(hash, dedupTtl, dedupCapacity, inputs, input, dest);
    n :| Knows(hash, dedupTtl, dedupCapacity, inputs, dest, n) && Addresses(input.header, n);
    SightingsForward(hash, dedupTtl, dedupCapacity, inputs, dest);
    var h := Sightings(hash, dedupTtl, dedupCapacity, inputs, dest);
    if n !in Latest(h) {
      NobodyUnseen(32, h, n);
    }
  }

  /** Frames come at strictly increasing times. */
  ghost predicate StrictTimes(inputs: seq<Input>) {
    forall i, j :: 0 <= i < j < |inputs| && inputs[i].Inbound? && inputs[j].Inbound? ==> inputs[i].now < inputs[j].now
  }

  ghost predicate FrameAt(inputs: seq<Input>, at: nat) {
    exists k :: 0 <= k < |inputs| && inputs[k].Inbound? && inputs[k].now == at
  }

  ghost predicate StrictUpTo(h: seq<Sighting>, inputs: seq<Input>) {
    && (forall i, j :: 0 <= i < j < |h| ==> h[i].at < h[j].at)
    && (forall i :: 0 <= i < |h| ==> FrameAt(inputs, h[i].at))
  }

  lemma FrameWasAt(inputs: seq<Input>, at: nat)
    requires inputs != [] && StrictTimes(inputs) && FrameAt(inputs[..|inputs| - 1], at)
    ensures FrameAt(inputs, at)
    ensures inputs[|inputs| - 1].Inbound? ==> at < inputs[|inputs| - 1].now
  {
    var init := inputs[..|inputs| - 1];
    var k :| 0 <= k < |init| && init[k].Inbound? && init[k].now == at;
    assert inputs[k] == init[k];
  }

  lemma StrictOneMore(h: seq<Sighting>, inputs: seq<Input>, seen: Option<Sighting>)
    requires inputs != [] && StrictTimes(inputs) && StrictUpTo(h, inputs[..|inputs| - 1])
    requires seen.Some? ==> inputs[|inputs| - 1].Inbound? && seen.value.at == inputs[|inputs| - 1].now
    ensures StrictUpTo(h + if seen.Some? then [seen.value] else [], inputs)
  {
    hide FrameAt, StrictTimes;
    var h' := h + if seen.Some? then [seen.value] else [];
    forall i | 0 <= i < |h|
      ensures FrameAt(inputs, h[i].at)
      ensures seen.Some? ==> h[i].at < seen.value.at
    {
      FrameWasAt(inputs, h[i].at);
    }
    if seen.Some? {
      FrameNow(inputs);
    }
    assert forall i :: 0 <= i < |h| ==> h'[i] == h[i];
  }

  lemma FrameNow(inputs: seq<Input>)
    requires inputs != [] && inputs[|inputs| - 1].Inbound?
    ensures FrameAt(inputs, inputs[|inputs| - 1].now)
  {}

  lemma {:induction false} StrictSightings(
    hash: Bytes -> Hash, dedupTtl: nat, dedupCapacity: nat, inputs: seq<Input>, g: string, id: Id)
    requires StrictTimes(inputs)
    ensures StrictUpTo(GroupSightings(hash, dedupTtl, dedupCapacity, inputs, g), inputs)
    ensures StrictUpTo(OwnSightings(hash, dedupTtl, dedupCapacity, inputs, id), inputs)
  {
    hide AcceptedAfter, Alive, InGroup, StrictUpTo;
    NothingYet(inputs);
    if inputs != [] {
      var n := |inputs| - 1;
      var init, input := inputs[..n], inputs[n];
      StrictSightings(hash, dedupTtl, dedupCapacity, init, g, id);
      var seen := if input.Inbound? then Some(Sighting(input.header.source, input.now)) else None;
      var group := GroupSightings(hash, dedupTtl, dedupCapacity, init, g);
      var own := OwnSightings(hash, dedupTtl, dedupCapacity, init, id);
      StrictOneMore(group, inputs, seen);
      StrictOneMore(group, inputs, None);
      StrictOneMore(own, inputs, seen);
      StrictOneMore(own, inputs, None);
      assert group + [] == group && own + [] == own;
    }
  }

  lemma NothingYet(inputs: seq<Input>)
    ensures StrictUpTo([], inputs)
  {}

  /**
   When no two frames share a reading of the clock, an endpoint knows exactly the nodes
   heard behind it that fewer than 32 others were heard after.
   */
  lemma KnownIsRecent(hash: Bytes -> Hash, dedupTtl: nat, dedupCapacity: nat, inputs: seq<Input>, id: Id, n: NodeId)
    requires StrictTimes(inputs) && Registration(inputs, id).Some?
    ensures Knows(hash, dedupTtl, dedupCapacity, inputs, id, n)
       <==> ArrivedRecently(32, Sightings(hash, dedupTtl, dedupCapacity, inputs, id), n)
  {
    hide Registration, GroupSightings, OwnSightings, ArrivedRecently, TouchAll, Contains;
    var group := Registration(inputs, id).value.identity.group;
    StrictSightings(hash, dedupTtl, dedupCapacity, inputs, if group.Some? then group.value else "", id);
    var h := Sightings(hash, dedupTtl, dedupCapacity, inputs, id);
    StrictClock(32, h);
  }

  /**
   Whatever readings frames share, a node with fewer than 32 others heard no earlier is
   known, and one with 32 others heard strictly later is not.
   */
  lemma KnownUpToTies(hash: Bytes -> Hash, dedupTtl: nat, dedupCapacity: nat, inputs: seq<Input>, id: Id, n: NodeId)
    requires LegalRun(hash, NewState(dedupTtl, dedupCapacity), 0, inputs) && Registration(inputs, id).Some?
    requires HeardBehind(hash, dedupTtl, dedupCapacity, inputs, id, n)
    ensures
      var latest := Latest(Sightings(hash, dedupTtl, dedupCapacity, inputs, id));
      && (|Newer(latest, n, true)| < 32 ==> Knows(hash, dedupTtl, dedupCapacity, inputs, id, n))
      && (|Newer(latest, n, false)| >= 32 ==> !Knows(hash, dedupTtl, dedupCapacity, inputs, id, n))
  {
    hide Registration, Sightings, TouchAll, Contains, LegalRun, Newer, Latest;
    SightingsForward(hash, dedupTtl, dedupCapacity, inputs, id);
    HeldUpToTies(32, Sightings(hash, dedupTtl, dedupCapacity, inputs, id), n);
  }
}
