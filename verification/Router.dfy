/**
 The router's state machine (src/router/mod.rs, src/router/group.rs).

 One task owns the registry, the shared learn tables of groups and the duplicate window.
 Its state is a value here, since every table in it has exactly one owner; an input is a
 lifecycle event or a frame, and a run is a sequence of inputs.  The duplicate window
 sees frames only through `hash`, which is left uninterpreted.
 */
module Routing {
  import opened Frame
  import opened Learning
  import opened Deduplication
  import opened Deciding

  const LEARN_CAPACITY: nat := 32

  type Id = nat

  // ---------- Inputs ----------

  datatype Routable = Routable(identity: Identity, endpointName: string)

  datatype RemovalReason = Idle | LruEvicted | Disconnected | ListenerShutdown

  datatype Event =
    | EndpointAdded(id: Id, leaf: Option<Routable>)
    | PeerAdded(parent: Id, id: Id, routable: Routable)
    | PeerRemoved(parent: Id, id: Id, reason: RemovalReason)

  datatype Input =
    | Lifecycle(event: Event)
    | Inbound(src: Id, frame: Bytes, header: ParsedHeader, now: nat)

  // ---------- State ----------

  datatype RoutableState = RoutableState(identity: Identity, endpointName: string, learn: Table)

  /** A registry slot; parent listeners are registered but not routable. */
  type Slot = Option<RoutableState>

  datatype GroupLearn = GroupLearn(learn: Table, members: nat)

  type Groups = map<string, GroupLearn>

  datatype StatsEvent = Register(id: Id, routable: bool) | Finalize(id: Id)

  datatype State = State(
    routing: map<Id, Slot>,
    groups: Groups,
    dedup: Window,
    /** every frame ever pushed to an endpoint's queue, in order */
    pushed: map<Id, seq<Bytes>>,
    outFilterDrops: map<Id, nat>,
    dedupDrops: map<Id, nat>,
    /** lifecycle messages offered to the stats task */
    stats: seq<StatsEvent>)

  function NewState(dedupTtl: nat, dedupCapacity: nat): State {
    State(map[], map[], NewWindow(dedupTtl, dedupCapacity), map[], map[], map[], [])
  }

  function PushedTo(s: State, id: Id): seq<Bytes> {
    if id in s.pushed then s.pushed[id] else []
  }

  function Count(m: map<Id, nat>, id: Id): nat {
    if id in m then m[id] else 0
  }

  // ---------- Groups ----------

  function Join(groups: Groups, name: string, capacity: nat): Groups {
    if name in groups then groups[name := groups[name].(members := groups[name].members + 1)]
    else groups[name := GroupLearn(NewTable(capacity), 1)]
  }

  /** The last member to leave takes the table with it. */
  function Leave(groups: Groups, name: string): Groups {
    if name !in groups then groups
    else if groups[name].members <= 1 then groups - {name}
    else groups[name := groups[name].(members := groups[name].members - 1)]
  }

  // ---------- Lifecycle events ----------

  function AddEndpoint(s: State, id: Id, r: Option<Routable>): State {
    match r
    case None =>
      s.(routing := s.routing[id := None], stats := s.stats + [Register(id, false)])
    case Some(payload) =>
      var groups :=
        match payload.identity.group
        case Some(name) => Join(s.groups, name, LEARN_CAPACITY)
        case None => s.groups;
      var slot := RoutableState(payload.identity, payload.endpointName, NewTable(LEARN_CAPACITY));
      s.(groups := groups, routing := s.routing[id := Some(slot)], stats := s.stats + [Register(id, true)])
  }

  function GroupOf(slot: Slot): Option<string> {
    if slot.Some? then slot.value.identity.group else None
  }

  function RemoveEndpoint(s: State, id: Id): State {
    var stats := s.stats + [Finalize(id)];
    if id !in s.routing then s.(stats := stats)
    else
      var groups :=
        match GroupOf(s.routing[id])
        case Some(name) => Leave(s.groups, name)
        case None => s.groups;
      s.(routing := s.routing - {id}, groups := groups, stats := stats)
  }

  function OnEvent(s: State, e: Event): State {
    match e
    case EndpointAdded(id, leaf) => AddEndpoint(s, id, leaf)
    case PeerAdded(_, id, routable) => AddEndpoint(s, id, Some(routable))
    case PeerRemoved(_, id, _) => RemoveEndpoint(s, id)
  }

  // ---------- Frames ----------

  /** The table consulted for an endpoint: its group's, or its own. */
  function EffectiveLearn(groups: Groups, r: RoutableState): Option<Table> {
    match r.identity.group
    case Some(name) => if name in groups then Some(groups[name].learn) else None
    case None => Some(r.learn)
  }

  predicate IsRoutable(s: State, id: Id) {
    id in s.routing && s.routing[id].Some?
  }

  /** Record the source of an admitted frame in the sender's effective table. */
  function Learn(s: State, src: Id, node: NodeId, now: nat): Option<State>
    requires IsRoutable(s, src)
  {
    var slot := s.routing[src].value;
    match slot.identity.group
    case Some(name) =>
      if name !in s.groups then None
      else
        var g := s.groups[name];
        Some(s.(groups := s.groups[name := g.(learn := Touched(g.learn, node, now))]))
    case None =>
      Some(s.(routing := s.routing[src := Some(slot.(learn := Touched(slot.learn, node, now)))]))
  }

  datatype SourceAdmission = Admitted(state: State, srcName: string) | Suppressed(state: State)

  /** Source-side admission: registered and routable, not a duplicate, then learned. */
  function Ingest(hash: Bytes -> Hash, s: State, src: Id, frame: Bytes, header: ParsedHeader, now: nat)
    : SourceAdmission
  {
    if !IsRoutable(s, src) then Suppressed(s)
    else
      var (dedup, dup) := CheckAndInsert(s.dedup, hash(frame), now);
      var s1 := s.(dedup := dedup);
      if dup then Suppressed(s1.(dedupDrops := s1.dedupDrops[src := Count(s1.dedupDrops, src) + 1]))
      else match Learn(s1, src, header.source, now)
        case None => Suppressed(s1)
        case Some(s2) => Admitted(s2, s.routing[src].value.endpointName)
  }

  /** The decision for one registered endpoint; none for the source and for listeners. */
  function DecisionFor(s: State, src: Id, dest: Id, header: ParsedHeader, srcName: string): Option<Decision> {
    if dest == src || !IsRoutable(s, dest) then None
    else
      var slot := s.routing[dest].value;
      match EffectiveLearn(s.groups, slot)
      case None => None
      case Some(learn) => Some(Decide(header, learn, slot.identity, srcName))
  }

  predicate Admits(s: State, src: Id, dest: Id, header: ParsedHeader, srcName: string) {
    DecisionFor(s, src, dest, header, srcName) == Some(Admit)
  }

  predicate Filtered(s: State, src: Id, dest: Id, header: ParsedHeader, srcName: string) {
    DecisionFor(s, src, dest, header, srcName) == Some(OutFilterBlocked)
  }

  /** The push log once the frame has been offered to `dests`. */
  function PushedAfter(s: State, src: Id, frame: Bytes, header: ParsedHeader, srcName: string, dests: set<Id>)
    : map<Id, seq<Bytes>>
  {
    map id | id in s.pushed.Keys + dests && (id in s.pushed || Admits(s, src, id, header, srcName)) ::
      if id in dests && Admits(s, src, id, header, srcName) then PushedTo(s, id) + [frame] else PushedTo(s, id)
  }

  function DropsAfter(s: State, src: Id, header: ParsedHeader, srcName: string, dests: set<Id>): map<Id, nat> {
    map id | id in s.outFilterDrops.Keys + dests && (id in s.outFilterDrops || Filtered(s, src, id, header, srcName)) ::
      if id in dests && Filtered(s, src, id, header, srcName)
      then Count(s.outFilterDrops, id) + 1 else Count(s.outFilterDrops, id)
  }

  /** Offer the frame to every registered endpoint, whatever the order of the registry. */
  function Dispatch(s: State, src: Id, frame: Bytes, header: ParsedHeader, srcName: string): State {
    s.(pushed := PushedAfter(s, src, frame, header, srcName, s.routing.Keys),
       outFilterDrops := DropsAfter(s, src, header, srcName, s.routing.Keys))
  }

  lemma PushedAfterNone(s: State, src: Id, frame: Bytes, header: ParsedHeader, srcName: string)
    ensures PushedAfter(s, src, frame, header, srcName, {}) == s.pushed
    ensures DropsAfter(s, src, header, srcName, {}) == s.outFilterDrops
  {
    hide Admits, Filtered;
  }

  lemma PushedAfterOne(s: State, src: Id, frame: Bytes, header: ParsedHeader, srcName: string, dests: set<Id>, d: Id)
    requires d !in dests
    ensures
      var before := PushedAfter(s, src, frame, header, srcName, dests);
      PushedAfter(s, src, frame, header, srcName, dests + {d})
        == if Admits(s, src, d, header, srcName)
           then before[d := (if d in before then before[d] else []) + [frame]] else before
  {
    hide Admits;
    var before := PushedAfter(s, src, frame, header, srcName, dests);
    var after := PushedAfter(s, src, frame, header, srcName, dests + {d});
    assert after.Keys == before.Keys + if Admits(s, src, d, header, srcName) then {d} else {};
  }

  lemma DropsAfterOne(s: State, src: Id, header: ParsedHeader, srcName: string, dests: set<Id>, d: Id)
    requires d !in dests
    ensures
      var before := DropsAfter(s, src, header, srcName, dests);
      DropsAfter(s, src, header, srcName, dests + {d})
        == if Filtered(s, src, d, header, srcName) then before[d := Count(before, d) + 1] else before
  {
    hide Filtered;
    var before := DropsAfter(s, src, header, srcName, dests);
    var after := DropsAfter(s, src, header, srcName, dests + {d});
    assert after.Keys == before.Keys + if Filtered(s, src, d, header, srcName) then {d} else {};
  }

  function OnFrame(hash: Bytes -> Hash, s: State, src: Id, frame: Bytes, header: ParsedHeader, now: nat): State {
    match Ingest(hash, s, src, frame, header, now)
    case Suppressed(s1) => s1
    case Admitted(s1, srcName) => Dispatch(s1, src, frame, header, srcName)
  }

  // ---------- Runs ----------

  function Step(hash: Bytes -> Hash, s: State, input: Input): State {
    match input
    case Lifecycle(e) => OnEvent(s, e)
    case Inbound(src, frame, header, now) => OnFrame(hash, s, src, frame, header, now)
  }

  function Run(hash: Bytes -> Hash, s: State, inputs: seq<Input>): State {
    if inputs == [] then s
    else Step(hash, Run(hash, s, inputs[..|inputs| - 1]), inputs[|inputs| - 1])
  }

  /** Ids are never reused: an endpoint is added only under an id not in the registry. */
  predicate FreshInput(s: State, input: Input) {
    input.Lifecycle? && !input.event.PeerRemoved? ==> input.event.id !in s.routing
  }

  ghost predicate FreshRun(hash: Bytes -> Hash, s: State, inputs: seq<Input>) {
    forall i :: 0 <= i < |inputs| ==> FreshInput(Run(hash, s, inputs[..i]), inputs[i])
  }

  lemma {:induction false} FreshPrefix(hash: Bytes -> Hash, s: State, inputs: seq<Input>, n: nat)
    requires FreshRun(hash, s, inputs) && n <= |inputs|
    ensures FreshRun(hash, s, inputs[..n])
  {
    hide Run, FreshInput;
    forall i | 0 <= i < n
      ensures FreshInput(Run(hash, s, inputs[..n][..i]), inputs[..n][i])
    {
      assert inputs[..n][..i] == inputs[..i];
    }
  }
}
