/**
 The registration protocol between endpoint tasks and the router
 (src/endpoint/spawn.rs, src/endpoint/tcp/server.rs, src/endpoint/udp/server.rs,
 src/router/mod.rs).

 Endpoint tasks and the router are interleaved step by step; they share two FIFO queues,
 one of lifecycle events and one of frames.  One `select!` of the router is one atomic
 step: it takes a frame only when the event queue is empty at that step.  A task that
 awaits a send can be interrupted there, so ids are allocated in one step and announced in
 a later one, and a listener that announces a peer, evicts another and tells the router
 about both does so in several steps.
 */
module Protocol {
  import opened Frame
  import opened Deduplication
  import opened Routing
  import opened RouterSafety

  type Addr = nat

  // ---------- State ----------

  datatype QueuedFrame = QueuedFrame(src: Id, frame: Bytes, header: ParsedHeader)

  /** A leaf task or an accepted TCP client, from its announcement to its removal. */
  datatype Phase = Starting | Live | Ending
  datatype Session = Session(phase: Phase, parent: Option<Id>)

  /** What an id was allocated for, until it is announced. */
  datatype Pending =
    | NewLeaf(r: Routable)
    | NewTcps
    | NewUdps(capacity: nat, idle: nat, r: Routable)
    | NewClient(listener: Id, r: Routable)

  datatype Peer = Peer(child: Id, lastSeen: nat)

  /** Where a UDP listener stands between two awaits. */
  datatype Pc =
    | Waiting
    | Allocated(addr: Addr, child: Id)
    | Announced(addr: Addr, child: Id)
    | Evicting(addr: Addr, child: Id, victim: Id)
    | Inserting(addr: Addr, child: Id)
    | Forwarding(addr: Addr)
    | Sweeping(todo: seq<Addr>, reason: RemovalReason)
    | SweepSending(victim: Id, todo: seq<Addr>, reason: RemovalReason)
    | Stopped

  datatype Udps = Udps(peers: map<Addr, Peer>, capacity: nat, idle: nat, routable: Routable, pc: Pc)

  datatype Sys = Sys(
    router: State,
    clock: nat,
    /** events the router has processed, in order */
    handled: seq<Event>,
    /** everything the router has processed, in order */
    log: seq<Input>,
    events: seq<Event>,
    frames: seq<QueuedFrame>,
    nextId: Id,
    /** ids allocated and not announced yet */
    pending: map<Id, Pending>,
    sessions: map<Id, Session>,
    tcps: set<Id>,
    udps: map<Id, Udps>,
    /** the UDP listener that admitted a peer */
    owner: map<Id, Id>)

  function Start(dedupTtl: nat, dedupCapacity: nat): Sys {
    Sys(NewState(dedupTtl, dedupCapacity), 0, [], [], [], [], 0, map[], map[], {}, map[], map[])
  }

  // ---------- Steps ----------

  datatype Action =
    | Allocate(purpose: Pending)
    | AnnounceId(id: Id)
    | Begin(id: Id)
    | Forward(id: Id, frame: Bytes, header: ParsedHeader)
    | End(id: Id)
    | Retire(id: Id, reason: RemovalReason)
    | KnownPacket(listener: Id, addr: Addr, at: nat)
    | Admit(listener: Id, addr: Addr)
    | AnnouncePeer(listener: Id)
    | MakeRoom(listener: Id, victim: Addr)
    | HasRoom(listener: Id)
    | SendEvicted(listener: Id)
    | Insert(listener: Id, at: nat)
    | Deliver(listener: Id, frame: Bytes, header: ParsedHeader)
    | Finish(listener: Id)
    | ReapTick(listener: Id, expired: seq<Addr>, at: nat)
    | Shutdown(listener: Id, all: seq<Addr>)
    | SweepNext(listener: Id)
    | SendSwept(listener: Id)
    | RouterEvent
    | RouterFrame(now: nat)

  predicate At(s: Sys, l: Id, pc: Pc) {
    l in s.udps && s.udps[l].pc == pc
  }

  ghost predicate Enabled(s: Sys, a: Action) {
    match a
    case Allocate(p) => p.NewClient? ==> p.listener in s.tcps
    case AnnounceId(id) => id in s.pending
    case Begin(id) => id in s.sessions && s.sessions[id].phase == Starting
    case Forward(id, _, _) => id in s.sessions && s.sessions[id].phase == Live
    case End(id) => id in s.sessions && s.sessions[id].phase == Live && s.sessions[id].parent.Some?
    case Retire(id, _) => id in s.sessions && s.sessions[id].phase == Ending && s.sessions[id].parent.Some?
    case KnownPacket(l, addr, _) => At(s, l, Waiting) && addr in s.udps[l].peers
    case Admit(l, addr) => At(s, l, Waiting) && addr !in s.udps[l].peers
    case AnnouncePeer(l) => l in s.udps && s.udps[l].pc.Allocated?
    case MakeRoom(l, v) =>
      && l in s.udps && s.udps[l].pc.Announced?
      && |s.udps[l].peers| >= s.udps[l].capacity
      && v in s.udps[l].peers
      && forall x :: x in s.udps[l].peers ==> s.udps[l].peers[v].lastSeen <= s.udps[l].peers[x].lastSeen
    case HasRoom(l) =>
      && l in s.udps && s.udps[l].pc.Announced?
      && (|s.udps[l].peers| < s.udps[l].capacity || s.udps[l].peers == map[])
    case SendEvicted(l) => l in s.udps && s.udps[l].pc.Evicting?
    case Insert(l, _) => l in s.udps && s.udps[l].pc.Inserting?
    case Deliver(l, _, _) => l in s.udps && s.udps[l].pc.Forwarding? && s.udps[l].pc.addr in s.udps[l].peers
    case Finish(l) =>
      l in s.udps && (s.udps[l].pc.Forwarding? || (s.udps[l].pc.Sweeping? && s.udps[l].pc.todo == []))
    case ReapTick(l, expired, at) =>
      && At(s, l, Waiting)
      && forall x :: x in expired <==> x in s.udps[l].peers && s.udps[l].peers[x].lastSeen + s.udps[l].idle <= at
    case Shutdown(l, all) => At(s, l, Waiting) && forall x :: x in all <==> x in s.udps[l].peers
    case SweepNext(l) => l in s.udps && s.udps[l].pc.Sweeping? && s.udps[l].pc.todo != []
    case SendSwept(l) => l in s.udps && s.udps[l].pc.SweepSending?
    case RouterEvent => s.events != []
    case RouterFrame(now) => s.events == [] && s.frames != [] && s.clock <= now
  }

  function SetUdps(s: Sys, l: Id, u: Udps): Sys {
    s.(udps := s.udps[l := u])
  }

  /** Enqueue the announcement of an id. */
  function Announce(s: Sys, e: Event): Sys {
    s.(events := s.events + [e])
  }

  /** How an id is announced. */
  function Announcement(id: Id, p: Pending): Event {
    match p
    case NewLeaf(r) => EndpointAdded(id, Some(r))
    case NewTcps => EndpointAdded(id, None)
    case NewUdps(_, _, _) => EndpointAdded(id, None)
    case NewClient(l, r) => PeerAdded(l, id, r)
  }

  /** The task that starts once the id is announced. */
  function Started(s: Sys, id: Id, p: Pending): Sys {
    match p
    case NewLeaf(_) => s.(sessions := s.sessions[id := Session(Starting, None)])
    case NewTcps => s.(tcps := s.tcps + {id})
    case NewUdps(capacity, idle, r) => s.(udps := s.udps[id := Udps(map[], capacity, idle, r, Waiting)])
    case NewClient(l, _) => s.(sessions := s.sessions[id := Session(Starting, Some(l))])
  }

  /** Enqueue the removal of an id. */
  function Withdraw(s: Sys, parent: Id, id: Id, reason: RemovalReason): Sys {
    s.(events := s.events + [PeerRemoved(parent, id, reason)])
  }

  function Push(s: Sys, f: QueuedFrame): Sys {
    s.(frames := s.frames + [f])
  }

  ghost function Do(hash: Bytes -> Hash, s: Sys, a: Action): Sys
    requires Enabled(s, a)
  {
    match a
    case Allocate(p) => s.(pending := s.pending[s.nextId := p], nextId := s.nextId + 1)
    case AnnounceId(id) =>
      Started(Announce(s, Announcement(id, s.pending[id])), id, s.pending[id]).(pending := s.pending - {id})
    case Begin(id) => s.(sessions := s.sessions[id := s.sessions[id].(phase := Live)])
    case Forward(id, frame, header) => Push(s, QueuedFrame(id, frame, header))
    case End(id) => s.(sessions := s.sessions[id := s.sessions[id].(phase := Ending)])
    case Retire(id, reason) =>
      Withdraw(s, s.sessions[id].parent.value, id, reason).(sessions := s.sessions - {id})
    case KnownPacket(l, addr, at) =>
      var u := s.udps[l];
      SetUdps(s, l, u.(peers := u.peers[addr := u.peers[addr].(lastSeen := at)], pc := Forwarding(addr)))
    case Admit(l, addr) =>
      SetUdps(s, l, s.udps[l].(pc := Allocated(addr, s.nextId))).(nextId := s.nextId + 1)
    case AnnouncePeer(l) =>
      var u := s.udps[l];
      SetUdps(Announce(s, PeerAdded(l, u.pc.child, u.routable)), l, u.(pc := Announced(u.pc.addr, u.pc.child)))
        .(owner := s.owner[u.pc.child := l])
    case MakeRoom(l, v) =>
      var u := s.udps[l];
      SetUdps(s, l, u.(peers := u.peers - {v}, pc := Evicting(u.pc.addr, u.pc.child, u.peers[v].child)))
    case HasRoom(l) =>
      var u := s.udps[l];
      SetUdps(s, l, u.(pc := Inserting(u.pc.addr, u.pc.child)))
    case SendEvicted(l) =>
      var u := s.udps[l];
      SetUdps(Withdraw(s, l, u.pc.victim, LruEvicted), l, u.(pc := Inserting(u.pc.addr, u.pc.child)))
    case Insert(l, at) =>
      var u := s.udps[l];
      SetUdps(s, l, u.(peers := u.peers[u.pc.addr := Peer(u.pc.child, at)], pc := Forwarding(u.pc.addr)))
    case Deliver(l, frame, header) =>
      Push(s, QueuedFrame(s.udps[l].peers[s.udps[l].pc.addr].child, frame, header))
    case Finish(l) =>
      var u := s.udps[l];
      var stop := u.pc.Sweeping? && u.pc.reason == ListenerShutdown;
      SetUdps(s, l, u.(pc := if stop then Stopped else Waiting))
    case ReapTick(l, expired, _) => SetUdps(s, l, s.udps[l].(pc := Sweeping(expired, Idle)))
    case Shutdown(l, all) => SetUdps(s, l, s.udps[l].(pc := Sweeping(all, ListenerShutdown)))
    case SweepNext(l) =>
      var u := s.udps[l];
      var x, rest := u.pc.todo[0], u.pc.todo[1..];
      if x in u.peers
      then SetUdps(s, l, u.(peers := u.peers - {x}, pc := SweepSending(u.peers[x].child, rest, u.pc.reason)))
      else SetUdps(s, l, u.(pc := Sweeping(rest, u.pc.reason)))
    case SendSwept(l) =>
      var u := s.udps[l];
      SetUdps(Withdraw(s, l, u.pc.victim, u.pc.reason), l, u.(pc := Sweeping(u.pc.todo, u.pc.reason)))
    case RouterEvent =>
      s.(router := OnEvent(s.router, s.events[0]), events := s.events[1..], handled := s.handled + [s.events[0]],
         log := s.log + [Lifecycle(s.events[0])])
    case RouterFrame(now) =>
      var f := s.frames[0];
      s.(router := OnFrame(hash, s.router, f.src, f.frame, f.header, now), frames := s.frames[1..], clock := now,
         log := s.log + [Inbound(f.src, f.frame, f.header, now)])
  }

  // ---------- Runs ----------

  ghost predicate IsRun(hash: Bytes -> Hash, s: Sys, actions: seq<Action>)
    decreases actions
  {
    if actions == [] then true
    else Enabled(s, actions[0]) && IsRun(hash, Do(hash, s, actions[0]), actions[1..])
  }

  ghost function After(hash: Bytes -> Hash, s: Sys, actions: seq<Action>): Sys
    requires IsRun(hash, s, actions)
    decreases actions
  {
    if actions == [] then s else After(hash, Do(hash, s, actions[0]), actions[1..])
  }

  // ---------- What the event log says ----------

  /** The ids registered once a log of events has been processed, and whether they route. */
  ghost function Registered(log: seq<Event>): map<Id, bool> {
    if log == [] then map[] else Registering(Registered(log[..|log| - 1]), log[|log| - 1])
  }

  ghost function Registering(reg: map<Id, bool>, e: Event): map<Id, bool> {
    match e
    case EndpointAdded(id, leaf) => reg[id := leaf.Some?]
    case PeerAdded(_, id, _) => reg[id := true]
    case PeerRemoved(_, id, _) => reg - {id}
  }

  /** The ids whose removal is in the log. */
  ghost function Removed(log: seq<Event>): set<Id> {
    set i | 0 <= i < |log| && log[i].PeerRemoved? :: log[i].id
  }

  ghost function Sent(s: Sys): seq<Event> {
    s.handled + s.events
  }

  /** The registry of the router, reduced to which ids route. */
  ghost function Registry(s: State): map<Id, bool> {
    map id | id in s.routing :: s.routing[id].Some?
  }

  /** Ids are announced once. */
  ghost predicate LogOk(log: seq<Event>, nextId: Id) {
    && (forall i :: 0 <= i < |log| ==> log[i].id < nextId)
    && (forall i, j :: 0 <= i < j < |log| && !log[i].PeerRemoved? && !log[j].PeerRemoved? ==> log[i].id != log[j].id)
  }

  // ---------- The invariant ----------

  ghost predicate SessionsOk(reg: map<Id, bool>, s: Sys) {
    forall id :: id in s.sessions ==> id in reg && reg[id] && id !in s.owner
  }

  /** A queued frame's sender is registered once the events sent so far are processed, or withdrawn. */
  ghost predicate FramesOk(reg: map<Id, bool>, removed: set<Id>, frames: seq<QueuedFrame>) {
    forall i :: 0 <= i < |frames| ==> (frames[i].src in reg && reg[frames[i].src]) || frames[i].src in removed
  }

  /** The ids a listener still answers for outside its peer table. */
  ghost function InHand(pc: Pc): set<Id> {
    match pc
    case Announced(_, c) => {c}
    case Evicting(_, c, v) => {c, v}
    case Inserting(_, c) => {c}
    case SweepSending(v, _, _) => {v}
    case _ => {}
  }

  ghost function PeerIds(u: Udps): set<Id> {
    set x | x in u.peers :: u.peers[x].child
  }

  ghost predicate DistinctPeers(u: Udps) {
    && (forall x, y :: x in u.peers && y in u.peers && x != y ==> u.peers[x].child != u.peers[y].child)
    && PeerIds(u) !! InHand(u.pc)
    && (u.pc.Evicting? ==> u.pc.child != u.pc.victim)
  }

  ghost function Bound(u: Udps): nat {
    if u.capacity == 0 then 1 else u.capacity
  }

  /** The peer table stays within its bound, with a place kept for a peer being admitted. */
  ghost predicate CapacityOk(u: Udps) {
    && |u.peers| <= Bound(u)
    && (u.pc.Evicting? || u.pc.Inserting? ==> |u.peers| < Bound(u))
    && (u.pc.Allocated? || u.pc.Announced? || u.pc.Evicting? || u.pc.Inserting? ==> u.pc.addr !in u.peers)
    && (u.pc.Forwarding? ==> u.pc.addr in u.peers)
  }

  /** A listener's peers, and the ids in its hands, are exactly its children still registered. */
  ghost predicate ListenerOk(reg: map<Id, bool>, owner: map<Id, Id>, l: Id, u: Udps) {
    && DistinctPeers(u)
    && CapacityOk(u)
    && (forall id :: id in PeerIds(u) + InHand(u.pc) <==> id in reg && id in owner && owner[id] == l)
    && (forall id :: id in PeerIds(u) + InHand(u.pc) ==> id in reg && reg[id])
  }

  ghost predicate UdpsOk(reg: map<Id, bool>, s: Sys) {
    forall l :: l in s.udps ==> ListenerOk(reg, s.owner, l, s.udps[l])
  }

  ghost predicate Mentioned(log: seq<Event>, id: Id) {
    exists i :: 0 <= i < |log| && log[i].id == id
  }

  /** Listeners, and the peers they own, have been announced. */
  ghost predicate OwnersOk(log: seq<Event>, s: Sys) {
    && (forall id :: id in s.owner ==> Mentioned(log, id) && Mentioned(log, s.owner[id]))
    && (forall l :: l in s.udps ==> Mentioned(log, l))
  }

  /** The id a listener has allocated and not announced yet. */
  ghost predicate Reserves(s: Sys, l: Id, id: Id) {
    l in s.udps && s.udps[l].pc.Allocated? && s.udps[l].pc.child == id
  }

  /** Ids not announced yet have not been mentioned, and are reserved once. */
  ghost predicate ReservedOk(log: seq<Event>, s: Sys) {
    && (forall id :: id in s.pending ==> id < s.nextId && !Mentioned(log, id))
    && (forall l: Id, id: Id :: Reserves(s, l, id) ==> id < s.nextId && !Mentioned(log, id) && id !in s.pending)
    && (forall l: Id, k: Id, id: Id :: Reserves(s, l, id) && Reserves(s, k, id) ==> l == k)
  }

  /** The invariant, reservations apart. */
  ghost predicate Core(s: Sys) {
    && LogOk(Sent(s), s.nextId)
    && Registry(s.router) == Registered(s.handled)
    && Inv(s.router, s.clock)
    && SessionsOk(Registered(Sent(s)), s)
    && FramesOk(Registered(Sent(s)), Removed(Sent(s)), s.frames)
    && UdpsOk(Registered(Sent(s)), s)
    && OwnersOk(Sent(s), s)
  }

  ghost predicate Ok(s: Sys) {
    Core(s) && ReservedOk(Sent(s), s)
  }

  // ---------- Logs ----------

  lemma SentSnoc(s: Sys, e: Event)
    ensures s.handled + (s.events + [e]) == Sent(s) + [e]
  {}

  lemma RegisteredSnoc(log: seq<Event>, e: Event)
    ensures Registered(log + [e]) == Registering(Registered(log), e)
  {
    assert (log + [e])[..|log|] == log;
  }

  lemma RemovedSnoc(log: seq<Event>, e: Event)
    ensures Removed(log + [e]) == Removed(log) + if e.PeerRemoved? then {e.id} else {}
  {
    var next := log + [e];
    assert forall i :: 0 <= i < |log| ==> next[i] == log[i];
    forall id | id in Removed(log)
      ensures id in Removed(next)
    {
      var i :| 0 <= i < |log| && log[i].PeerRemoved? && log[i].id == id;
      assert next[i].PeerRemoved?;
    }
    if e.PeerRemoved? {
      assert next[|log|].PeerRemoved?;
    }
  }

  /** Registered ids were announced. */
  lemma {:induction false} RegisteredAnnounced(log: seq<Event>, id: Id)
    requires id in Registered(log)
    ensures exists i :: 0 <= i < |log| && !log[i].PeerRemoved? && log[i].id == id
  {
    var n := |log| - 1;
    if id in Registered(log[..n]) {
      RegisteredAnnounced(log[..n], id);
      var i :| 0 <= i < n && !log[..n][i].PeerRemoved? && log[..n][i].id == id;
      assert log[i] == log[..n][i];
    } else {
      assert !log[n].PeerRemoved? && log[n].id == id;
    }
  }

  lemma RegisteredMentioned(log: seq<Event>, id: Id)
    requires id in Registered(log)
    ensures Mentioned(log, id)
  {
    hide Registered;
    RegisteredAnnounced(log, id);
  }

  lemma MentionedBelow(log: seq<Event>, nextId: Id, id: Id)
    requires LogOk(log, nextId) && Mentioned(log, id)
    ensures id < nextId
  {}

  lemma MentionedSnoc(log: seq<Event>, e: Event, id: Id)
    ensures Mentioned(log + [e], id) <==> Mentioned(log, id) || id == e.id
  {
    var next := log + [e];
    assert forall i :: 0 <= i < |log| ==> next[i] == log[i];
    assert next[|log|] == e;
  }

  lemma LogOkSnoc(log: seq<Event>, nextId: Id, e: Event)
    requires LogOk(log, nextId) && e.id < nextId
    requires !e.PeerRemoved? ==> !Mentioned(log, e.id)
    ensures LogOk(log + [e], nextId)
  {}

  lemma OwnersGrow(log: seq<Event>, e: Event, s: Sys, s': Sys)
    requires OwnersOk(log, s) && s'.owner == s.owner && s'.udps.Keys == s.udps.Keys
    ensures OwnersOk(log + [e], s')
  {
    hide Mentioned;
    forall id | Mentioned(log, id)
      ensures Mentioned(log + [e], id)
    {
      MentionedSnoc(log, e, id);
    }
  }

  lemma SameOwners(log: seq<Event>, s: Sys, s': Sys)
    requires OwnersOk(log, s) && s'.owner == s.owner && s'.udps.Keys == s.udps.Keys
    ensures OwnersOk(log, s')
  {
    hide Mentioned;
  }

  // ---------- What sending does to the parts of the invariant ----------

  lemma AnnounceKeeps(reg: map<Id, bool>, s: Sys, n: Id, routes: bool)
    requires n !in reg && n !in s.owner
    requires SessionsOk(reg, s) && UdpsOk(reg, s)
    ensures SessionsOk(reg[n := routes], s) && UdpsOk(reg[n := routes], s)
  {
    hide DistinctPeers, CapacityOk, InHand, PeerIds;
  }

  lemma AnnounceKeepsFrames(reg: map<Id, bool>, removed: set<Id>, frames: seq<QueuedFrame>, n: Id, routes: bool)
    requires n !in reg && FramesOk(reg, removed, frames)
    ensures FramesOk(reg[n := routes], removed, frames)
  {}

  lemma WithdrawKeepsFrames(reg: map<Id, bool>, removed: set<Id>, frames: seq<QueuedFrame>, id: Id)
    requires FramesOk(reg, removed, frames)
    ensures FramesOk(reg - {id}, removed + {id}, frames)
  {}

  // ---------- Tasks keep the invariant ----------

  lemma AnnouncedLog(s: Sys, e: Event)
    requires LogOk(Sent(s), s.nextId) && !e.PeerRemoved? && e.id < s.nextId && !Mentioned(Sent(s), e.id)
    ensures LogOk(Sent(Announce(s, e)), s.nextId)
    ensures e.id !in Registered(Sent(s))
    ensures Registered(Sent(Announce(s, e)))
         == Registered(Sent(s))[e.id := if e.EndpointAdded? then e.leaf.Some? else true]
    ensures Removed(Sent(Announce(s, e))) == Removed(Sent(s))
    ensures Sent(Announce(s, e)) == Sent(s) + [e]
  {
    hide Registered, Removed, LogOk, Mentioned;
    SentSnoc(s, e);
    LogOkSnoc(Sent(s), s.nextId, e);
    RegisteredSnoc(Sent(s), e);
    RemovedSnoc(Sent(s), e);
    if e.id in Registered(Sent(s)) {
      RegisteredMentioned(Sent(s), e.id);
    }
  }

  lemma WithdrawnLog(s: Sys, parent: Id, id: Id, reason: RemovalReason)
    requires LogOk(Sent(s), s.nextId) && id in Registered(Sent(s))
    ensures LogOk(Sent(Withdraw(s, parent, id, reason)), s.nextId)
    ensures Registered(Sent(Withdraw(s, parent, id, reason))) == Registered(Sent(s)) - {id}
    ensures Removed(Sent(Withdraw(s, parent, id, reason))) == Removed(Sent(s)) + {id}
    ensures Sent(Withdraw(s, parent, id, reason)) == Sent(s) + [PeerRemoved(parent, id, reason)]
  {
    hide Registered, Removed, LogOk, Mentioned;
    var e := PeerRemoved(parent, id, reason);
    SentSnoc(s, e);
    RegisteredMentioned(Sent(s), id);
    MentionedBelow(Sent(s), s.nextId, id);
    LogOkSnoc(Sent(s), s.nextId, e);
    RegisteredSnoc(Sent(s), e);
    RemovedSnoc(Sent(s), e);
  }

  /** An id never mentioned belongs to nobody. */
  lemma UnmentionedIsFree(s: Sys, id: Id)
    requires Core(s) && !Mentioned(Sent(s), id)
    ensures id !in s.owner && id !in s.udps && id !in s.sessions
    ensures forall x :: x in s.owner ==> s.owner[x] != id
  {
    hide Registered, Removed, LogOk, FramesOk, ListenerOk, Inv, Registry, Sent, Mentioned;
    if id in s.sessions {
      RegisteredMentioned(Sent(s), id);
    }
  }

  /** Announcing an id that was never mentioned. */
  lemma AnnounceOk(s: Sys, e: Event)
    requires Core(s) && !e.PeerRemoved? && e.id < s.nextId && !Mentioned(Sent(s), e.id)
    ensures Core(Announce(s, e))
    ensures Registered(Sent(Announce(s, e)))
         == Registered(Sent(s))[e.id := if e.EndpointAdded? then e.leaf.Some? else true]
    ensures Mentioned(Sent(Announce(s, e)), e.id)
  {
    hide Registered, Removed, LogOk, SessionsOk, FramesOk, UdpsOk, OwnersOk, Inv, Registry, Sent, Mentioned;
    AnnouncedLog(s, e);
    UnmentionedIsFree(s, e.id);
    var routes := if e.EndpointAdded? then e.leaf.Some? else true;
    var s' := Announce(s, e);
    AnnounceKeeps(Registered(Sent(s)), s, e.id, routes);
    AnnounceKeepsFrames(Registered(Sent(s)), Removed(Sent(s)), s.frames, e.id, routes);
    SameParts(Registered(Sent(s')), s, s');
    OwnersGrow(Sent(s), e, s, s');
    MentionedSnoc(Sent(s), e, e.id);
  }

  lemma SameParts(reg: map<Id, bool>, s: Sys, s': Sys)
    requires s'.sessions == s.sessions && s'.owner == s.owner && s'.udps == s.udps
    requires SessionsOk(reg, s) && UdpsOk(reg, s)
    ensures SessionsOk(reg, s') && UdpsOk(reg, s')
  {
    hide ListenerOk;
  }

  /** Adding a session for an id that is registered, routes and has no owner. */
  lemma AddSessionOk(s: Sys, id: Id, session: Session)
    requires Core(s) && id !in s.owner
    requires id in Registered(Sent(s)) && Registered(Sent(s))[id]
    ensures Core(s.(sessions := s.sessions[id := session]))
  {
    hide Registered, Removed, LogOk, FramesOk, ListenerOk, Inv, Registry, Sent, OwnersOk;
    var s' := s.(sessions := s.sessions[id := session]);
    SameSent(s, s');
    SameOwners(Sent(s), s, s');
  }

  lemma SessionStepOk(s: Sys, id: Id, session: Session)
    requires Core(s) && id in s.sessions
    ensures Core(s.(sessions := s.sessions[id := session]))
  {
    hide Core, Registered;
    SessionRegistered(s, id);
    AddSessionOk(s, id, session);
  }

  lemma SessionRegistered(s: Sys, id: Id)
    requires Core(s) && id in s.sessions
    ensures id in Registered(Sent(s)) && Registered(Sent(s))[id] && id !in s.owner
  {
    hide Registered, Removed, LogOk, FramesOk, ListenerOk, Inv, Registry, Sent, OwnersOk;
  }

  lemma SameSent(s: Sys, s': Sys)
    requires s'.handled == s.handled && s'.events == s.events
    ensures Sent(s') == Sent(s)
  {}

  lemma PushOk(s: Sys, f: QueuedFrame)
    requires Core(s) && f.src in Registered(Sent(s)) && Registered(Sent(s))[f.src]
    ensures Core(Push(s, f))
  {
    hide Registered, Removed, LogOk, ListenerOk, Inv, Registry, Sent, OwnersOk;
    SameSent(s, Push(s, f));
    SameOwners(Sent(s), s, Push(s, f));
  }

  lemma RetireOk(s: Sys, id: Id, parent: Id, reason: RemovalReason)
    requires Core(s) && id in s.sessions
    ensures Core(Withdraw(s, parent, id, reason).(sessions := s.sessions - {id}))
  {
    hide Registered, Removed, LogOk, FramesOk, Inv, Registry, DistinctPeers, CapacityOk, InHand, PeerIds, Sent,
         OwnersOk;
    var reg := Registered(Sent(s));
    var s1 := Withdraw(s, parent, id, reason);
    var s' := s1.(sessions := s.sessions - {id});
    WithdrawnLog(s, parent, id, reason);
    WithdrawKeepsFrames(reg, Removed(Sent(s)), s.frames, id);
    SameSent(s1, s');
    OwnersGrow(Sent(s), PeerRemoved(parent, id, reason), s, s');
  }

  lemma NewListener(reg: map<Id, bool>, owner: map<Id, Id>, l: Id, u: Udps)
    requires u.peers == map[] && u.pc == Waiting
    requires forall id :: id in owner ==> owner[id] != l
    ensures ListenerOk(reg, owner, l, u)
  {}

  lemma NewListenerOk(s: Sys, l: Id, u: Udps)
    requires Core(s) && l !in s.udps && Mentioned(Sent(s), l)
    requires u.peers == map[] && u.pc == Waiting
    requires forall id :: id in s.owner ==> s.owner[id] != l
    ensures Core(s.(udps := s.udps[l := u]))
  {
    hide Registered, Removed, LogOk, FramesOk, Inv, Registry, Sent, ListenerOk, Mentioned;
    SameSent(s, s.(udps := s.udps[l := u]));
    NewListener(Registered(Sent(s)), s.owner, l, u);
  }

  // ---------- UDP listeners keep the invariant ----------

  /** A listener step that sends nothing and keeps the ids it answers for. */
  lemma LocalOk(s: Sys, l: Id, u: Udps)
    requires Core(s) && l in s.udps
    requires DistinctPeers(u) && CapacityOk(u)
    requires PeerIds(u) + InHand(u.pc) == PeerIds(s.udps[l]) + InHand(s.udps[l].pc)
    ensures Core(SetUdps(s, l, u))
  {
    hide Registered, Removed, LogOk, FramesOk, Inv, Registry, Sent, DistinctPeers, CapacityOk, InHand, PeerIds,
         OwnersOk;
    SameSent(s, SetUdps(s, l, u));
    assert ListenerOk(Registered(Sent(s)), s.owner, l, s.udps[l]);
    SameOwners(Sent(s), s, SetUdps(s, l, u));
  }

  /** A listener withdraws an id in its hands. */
  lemma WithdrawChildOk(s: Sys, l: Id, id: Id, reason: RemovalReason, u: Udps)
    requires Core(s) && l in s.udps && id in InHand(s.udps[l].pc)
    requires DistinctPeers(u) && CapacityOk(u)
    requires PeerIds(u) + InHand(u.pc) == (PeerIds(s.udps[l]) + InHand(s.udps[l].pc)) - {id}
    ensures Core(SetUdps(Withdraw(s, l, id, reason), l, u))
  {
    hide Registered, Removed, LogOk, FramesOk, Inv, Registry, Sent, DistinctPeers, CapacityOk, InHand, PeerIds,
         OwnersOk;
    var reg := Registered(Sent(s));
    assert ListenerOk(reg, s.owner, l, s.udps[l]);
    assert id in PeerIds(s.udps[l]) + InHand(s.udps[l].pc);
    var s1 := Withdraw(s, l, id, reason);
    WithdrawnLog(s, l, id, reason);
    WithdrawKeepsFrames(reg, Removed(Sent(s)), s.frames, id);
    SameSent(s1, SetUdps(s1, l, u));
    OwnersGrow(Sent(s), PeerRemoved(l, id, reason), s, SetUdps(s1, l, u));
  }

  /** A fresh owned id belongs to its listener and to no other. */
  lemma OwnedElsewhere(reg: map<Id, bool>, owner: map<Id, Id>, n: Id, l: Id, k: Id, u: Udps)
    requires ListenerOk(reg, owner, k, u) && n !in owner && k != l
    ensures ListenerOk(reg, owner[n := l], k, u)
  {
    hide DistinctPeers, CapacityOk, InHand, PeerIds;
  }

  /** A listener's ids, as one set. */
  lemma ListenerIds(reg: map<Id, bool>, owner: map<Id, Id>, l: Id, u: Udps)
    requires ListenerOk(reg, owner, l, u) && InHand(u.pc) == {}
    ensures DistinctPeers(u) && CapacityOk(u)
    ensures forall id :: id in PeerIds(u) <==> id in reg && id in owner && owner[id] == l
    ensures forall id :: id in PeerIds(u) ==> id in reg && reg[id]
  {
    hide DistinctPeers, CapacityOk, PeerIds, InHand;
    assert PeerIds(u) + InHand(u.pc) == PeerIds(u);
  }

  lemma ListenerFrom(reg: map<Id, bool>, owner: map<Id, Id>, l: Id, u: Udps, ids: set<Id>)
    requires DistinctPeers(u) && CapacityOk(u) && PeerIds(u) + InHand(u.pc) == ids
    requires forall id :: id in ids <==> id in reg && id in owner && owner[id] == l
    requires forall id :: id in ids ==> id in reg && reg[id]
    ensures ListenerOk(reg, owner, l, u)
  {
    hide DistinctPeers, CapacityOk, PeerIds, InHand;
  }

  /** A listener with nothing in hand takes an announced id in hand. */
  lemma OwnedHere(reg: map<Id, bool>, owner: map<Id, Id>, n: Id, l: Id, u: Udps, addr: Addr)
    requires ListenerOk(reg, owner, l, u) && n !in owner && n in reg && reg[n]
    requires InHand(u.pc) == {} && addr !in u.peers
    ensures ListenerOk(reg, owner[n := l], l, u.(pc := Announced(addr, n)))
  {
    hide ListenerOk, DistinctPeers, CapacityOk, PeerIds;
    var u' := u.(pc := Announced(addr, n));
    ListenerIds(reg, owner, l, u);
    AnnouncedParts(u, addr, n);
    assert InHand(u'.pc) == {n};
    assert PeerIds(u') == PeerIds(u) by { SamePeerIds(u, u'); }
    OwnedIds(reg, owner, n, l, PeerIds(u));
    hide InHand;
    ListenerFrom(reg, owner[n := l], l, u', PeerIds(u) + {n});
  }

  /** The ids of a listener that gains one. */
  lemma OwnedIds(reg: map<Id, bool>, owner: map<Id, Id>, n: Id, l: Id, ids: set<Id>)
    requires n !in owner && n in reg
    requires forall id :: id in ids <==> id in reg && id in owner && owner[id] == l
    ensures forall id :: id in ids + {n} <==> id in reg && id in owner[n := l] && owner[n := l][id] == l
  {}

  /** A listener announces the id it has allocated and takes it in hand. */
  lemma PeerAnnouncedOk(s: Sys, l: Id)
    requires Core(s) && l in s.udps && s.udps[l].pc.Allocated?
    requires s.udps[l].pc.child < s.nextId && !Mentioned(Sent(s), s.udps[l].pc.child)
    ensures
      var u := s.udps[l];
      Core(SetUdps(Announce(s, PeerAdded(l, u.pc.child, u.routable)), l, u.(pc := Announced(u.pc.addr, u.pc.child)))
             .(owner := s.owner[u.pc.child := l]))
  {
    hide Registered, Removed, LogOk, FramesOk, Inv, Registry, Sent, ListenerOk, Mentioned;
    var u := s.udps[l];
    var id := u.pc.child;
    var e := PeerAdded(l, id, u.routable);
    var s1 := Announce(s, e);
    UnmentionedIsFree(s, id);
    AnnounceOk(s, e);
    var s' := SetUdps(s1, l, u.(pc := Announced(u.pc.addr, id))).(owner := s.owner[id := l]);
    SameSent(s1, s');
    var reg := Registered(Sent(s1));
    PartsOf(s1, l);
    forall k | k in s'.udps
      ensures ListenerOk(reg, s'.owner, k, s'.udps[k])
    {
      if k == l {
        OwnedHere(reg, s.owner, id, l, u, u.pc.addr);
      } else {
        OwnedElsewhere(reg, s.owner, id, l, k, s.udps[k]);
      }
    }
  }

  lemma AnnouncedParts(u: Udps, addr: Addr, id: Id)
    requires DistinctPeers(u) && CapacityOk(u) && addr !in u.peers && id !in PeerIds(u)
    ensures DistinctPeers(u.(pc := Announced(addr, id))) && CapacityOk(u.(pc := Announced(addr, id)))
  {}

  lemma PeerIdsUpdate(u: Udps, addr: Addr, at: nat)
    requires addr in u.peers && DistinctPeers(u) && CapacityOk(u) && u.pc == Waiting
    ensures
      var u' := u.(peers := u.peers[addr := u.peers[addr].(lastSeen := at)], pc := Forwarding(addr));
      DistinctPeers(u') && CapacityOk(u') && PeerIds(u') + InHand(u'.pc) == PeerIds(u) + InHand(u.pc)
  {
    var u' := u.(peers := u.peers[addr := u.peers[addr].(lastSeen := at)], pc := Forwarding(addr));
    assert u'.peers.Keys == u.peers.Keys;
    assert forall x :: x in u.peers ==> u'.peers[x].child == u.peers[x].child;
    assert PeerIds(u') == PeerIds(u) by { SamePeerIds(u, u'); }
  }

  lemma SamePeerIds(u: Udps, u': Udps)
    requires u'.peers.Keys == u.peers.Keys
    requires forall x :: x in u.peers ==> u'.peers[x].child == u.peers[x].child
    ensures PeerIds(u') == PeerIds(u)
  {
    forall id | id in PeerIds(u)
      ensures id in PeerIds(u')
    {
      var x :| x in u.peers && u.peers[x].child == id;
      assert u'.peers[x].child == id;
    }
    forall id | id in PeerIds(u')
      ensures id in PeerIds(u)
    {
      var x :| x in u'.peers && u'.peers[x].child == id;
      assert u.peers[x].child == id;
    }
  }

  /** Taking a peer out of the table. */
  lemma PeerIdsRemove(u: Udps, v: Addr, u': Udps)
    requires v in u.peers && u'.peers == u.peers - {v}
    requires forall x, y :: x in u.peers && y in u.peers && x != y ==> u.peers[x].child != u.peers[y].child
    ensures PeerIds(u') == PeerIds(u) - {u.peers[v].child}
    ensures u.peers[v].child in PeerIds(u)
    ensures |u'.peers| == |u.peers| - 1
  {
    assert u'.peers.Keys == u.peers.Keys - {v};
    forall id | id in PeerIds(u) - {u.peers[v].child}
      ensures id in PeerIds(u')
    {
      var x :| x in u.peers && u.peers[x].child == id;
      assert u'.peers[x].child == id;
    }
  }

  lemma PeerIdsInsert(u: Udps, addr: Addr, p: Peer, u': Udps)
    requires addr !in u.peers && u'.peers == u.peers[addr := p]
    ensures PeerIds(u') == PeerIds(u) + {p.child}
    ensures |u'.peers| == |u.peers| + 1
  {
    assert u'.peers.Keys == u.peers.Keys + {addr};
    assert u'.peers[addr].child == p.child;
    forall id | id in PeerIds(u)
      ensures id in PeerIds(u')
    {
      var x :| x in u.peers && u.peers[x].child == id;
      assert u'.peers[x].child == id;
    }
  }

  lemma MakeRoomParts(u: Udps, v: Addr)
    requires DistinctPeers(u) && CapacityOk(u) && u.pc.Announced? && v in u.peers
    ensures
      var u' := u.(peers := u.peers - {v}, pc := Evicting(u.pc.addr, u.pc.child, u.peers[v].child));
      DistinctPeers(u') && CapacityOk(u') && PeerIds(u') + InHand(u'.pc) == PeerIds(u) + InHand(u.pc)
  {
    hide PeerIds;
    PeerIdsRemove(u, v, u.(peers := u.peers - {v}, pc := Evicting(u.pc.addr, u.pc.child, u.peers[v].child)));
  }

  lemma SweepParts(u: Udps, x: Addr, rest: seq<Addr>)
    requires DistinctPeers(u) && CapacityOk(u) && u.pc.Sweeping? && x in u.peers
    ensures
      var u' := u.(peers := u.peers - {x}, pc := SweepSending(u.peers[x].child, rest, u.pc.reason));
      DistinctPeers(u') && CapacityOk(u') && PeerIds(u') + InHand(u'.pc) == PeerIds(u) + InHand(u.pc)
  {
    hide PeerIds;
    PeerIdsRemove(u, x, u.(peers := u.peers - {x}, pc := SweepSending(u.peers[x].child, rest, u.pc.reason)));
  }

  lemma InsertDistinct(u: Udps, addr: Addr, p: Peer, u': Udps)
    requires addr !in u.peers && u'.peers == u.peers[addr := p] && p.child !in PeerIds(u)
    requires forall x, y :: x in u.peers && y in u.peers && x != y ==> u.peers[x].child != u.peers[y].child
    ensures forall x, y :: x in u'.peers && y in u'.peers && x != y ==> u'.peers[x].child != u'.peers[y].child
  {
    assert forall x :: x in u.peers ==> u.peers[x].child in PeerIds(u);
  }

  lemma InsertParts(u: Udps, at: nat)
    requires DistinctPeers(u) && CapacityOk(u) && u.pc.Inserting?
    ensures
      var u' := u.(peers := u.peers[u.pc.addr := Peer(u.pc.child, at)], pc := Forwarding(u.pc.addr));
      DistinctPeers(u') && CapacityOk(u') && PeerIds(u') + InHand(u'.pc) == PeerIds(u) + InHand(u.pc)
  {
    hide PeerIds;
    var p := Peer(u.pc.child, at);
    var u' := u.(peers := u.peers[u.pc.addr := p], pc := Forwarding(u.pc.addr));
    PeerIdsInsert(u, u.pc.addr, p, u');
    InsertDistinct(u, u.pc.addr, p, u');
    assert InHand(u.pc) == {u.pc.child} && InHand(u'.pc) == {};
  }

  /** Steps that move the listener on without touching its table. */
  lemma PcParts(u: Udps, pc: Pc)
    requires DistinctPeers(u) && CapacityOk(u)
    requires InHand(pc) == InHand(u.pc) && !pc.Evicting?
    requires pc.Allocated? || pc.Announced? || pc.Inserting? ==> pc.addr !in u.peers
    requires pc.Inserting? ==> |u.peers| < Bound(u)
    requires pc.Forwarding? ==> pc.addr in u.peers
    ensures DistinctPeers(u.(pc := pc)) && CapacityOk(u.(pc := pc))
    ensures PeerIds(u.(pc := pc)) + InHand(pc) == PeerIds(u) + InHand(u.pc)
  {
    assert PeerIds(u.(pc := pc)) == PeerIds(u);
  }

  lemma DropParts(u: Udps, v: Id, pc: Pc)
    requires DistinctPeers(u) && CapacityOk(u)
    requires (u.pc.Evicting? && v == u.pc.victim && pc == Inserting(u.pc.addr, u.pc.child))
          || (u.pc.SweepSending? && v == u.pc.victim && pc == Sweeping(u.pc.todo, u.pc.reason))
    ensures DistinctPeers(u.(pc := pc)) && CapacityOk(u.(pc := pc))
    ensures v in InHand(u.pc)
    ensures PeerIds(u.(pc := pc)) + InHand(pc) == (PeerIds(u) + InHand(u.pc)) - {v}
  {
    assert PeerIds(u.(pc := pc)) == PeerIds(u);
  }

  lemma PartsOf(s: Sys, l: Id)
    requires Core(s) && l in s.udps
    ensures DistinctPeers(s.udps[l]) && CapacityOk(s.udps[l])
    ensures ListenerOk(Registered(Sent(s)), s.owner, l, s.udps[l])
  {
    hide Registered, Removed, FramesOk, Inv, Registry, Sent, PeerIds, InHand, DistinctPeers, CapacityOk, LogOk,
         OwnersOk;
  }

  // Listener steps that change the peer table and send nothing.

  lemma KnownPacketOk(s: Sys, l: Id, addr: Addr, at: nat)
    requires Core(s) && At(s, l, Waiting) && addr in s.udps[l].peers
    ensures
      var u := s.udps[l];
      Core(SetUdps(s, l, u.(peers := u.peers[addr := u.peers[addr].(lastSeen := at)], pc := Forwarding(addr))))
  {
    hide Core, DistinctPeers, CapacityOk, PeerIds, InHand;
    var u := s.udps[l];
    PartsOf(s, l);
    PeerIdsUpdate(u, addr, at);
    LocalOk(s, l, u.(peers := u.peers[addr := u.peers[addr].(lastSeen := at)], pc := Forwarding(addr)));
  }

  lemma MakeRoomOk(s: Sys, l: Id, v: Addr)
    requires Core(s) && l in s.udps && s.udps[l].pc.Announced? && v in s.udps[l].peers
    ensures
      var u := s.udps[l];
      Core(SetUdps(s, l, u.(peers := u.peers - {v}, pc := Evicting(u.pc.addr, u.pc.child, u.peers[v].child))))
  {
    hide Core, DistinctPeers, CapacityOk, PeerIds, InHand;
    var u := s.udps[l];
    PartsOf(s, l);
    MakeRoomParts(u, v);
    LocalOk(s, l, u.(peers := u.peers - {v}, pc := Evicting(u.pc.addr, u.pc.child, u.peers[v].child)));
  }

  lemma InsertOk(s: Sys, l: Id, at: nat)
    requires Core(s) && l in s.udps && s.udps[l].pc.Inserting?
    ensures
      var u := s.udps[l];
      Core(SetUdps(s, l, u.(peers := u.peers[u.pc.addr := Peer(u.pc.child, at)], pc := Forwarding(u.pc.addr))))
  {
    hide Core, DistinctPeers, CapacityOk, PeerIds, InHand;
    var u := s.udps[l];
    PartsOf(s, l);
    InsertParts(u, at);
    LocalOk(s, l, u.(peers := u.peers[u.pc.addr := Peer(u.pc.child, at)], pc := Forwarding(u.pc.addr)));
  }

  lemma SweepOk(s: Sys, l: Id, x: Addr, rest: seq<Addr>)
    requires Core(s) && l in s.udps && s.udps[l].pc.Sweeping? && x in s.udps[l].peers
    ensures
      var u := s.udps[l];
      Core(SetUdps(s, l, u.(peers := u.peers - {x}, pc := SweepSending(u.peers[x].child, rest, u.pc.reason))))
  {
    hide Core, DistinctPeers, CapacityOk, PeerIds, InHand;
    var u := s.udps[l];
    PartsOf(s, l);
    SweepParts(u, x, rest);
    LocalOk(s, l, u.(peers := u.peers - {x}, pc := SweepSending(u.peers[x].child, rest, u.pc.reason)));
  }

  ghost predicate ChangesTable(s: Sys, a: Action)
    requires Enabled(s, a)
  {
    a.KnownPacket? || a.MakeRoom? || a.Insert? ||
    (a.SweepNext? && s.udps[a.listener].pc.todo[0] in s.udps[a.listener].peers)
  }

  lemma TableStepOk(hash: Bytes -> Hash, s: Sys, a: Action)
    requires Core(s) && Enabled(s, a) && ChangesTable(s, a)
    ensures Core(Do(hash, s, a))
  {
    hide Core, OnEvent, OnFrame, SetUdps, Started, Announcement;
    match a {
      case KnownPacket(l, addr, at) => KnownPacketOk(s, l, addr, at);
      case MakeRoom(l, v) => MakeRoomOk(s, l, v);
      case Insert(l, at) => InsertOk(s, l, at);
      case SweepNext(l) => SweepOk(s, l, s.udps[l].pc.todo[0], s.udps[l].pc.todo[1..]);
    }
  }

  ghost predicate OnlyMoves(s: Sys, a: Action)
    requires Enabled(s, a)
  {
    a.HasRoom? || a.Finish? || a.ReapTick? || a.Shutdown? ||
    (a.SweepNext? && s.udps[a.listener].pc.todo[0] !in s.udps[a.listener].peers)
  }

  lemma PcStepIs(hash: Bytes -> Hash, s: Sys, a: Action)
    requires Enabled(s, a) && OnlyMoves(s, a)
    ensures
      var u := s.udps[a.listener];
      var s' := Do(hash, s, a);
      && a.listener in s'.udps
      && s' == SetUdps(s, a.listener, u.(pc := s'.udps[a.listener].pc))
      && (var pc := s'.udps[a.listener].pc;
          && InHand(pc) == InHand(u.pc)
          && !pc.Evicting? && !pc.Allocated? && !pc.Announced? && !pc.Forwarding?
          && (pc.Inserting? ==>
                u.pc.Announced? && pc.addr == u.pc.addr && (|u.peers| < u.capacity || u.peers == map[])))
  {
    hide OnEvent, OnFrame, Started, Announcement;
  }

  /** Listener steps that only move the listener on. */
  lemma PcStepOk(hash: Bytes -> Hash, s: Sys, a: Action)
    requires Core(s) && Enabled(s, a) && OnlyMoves(s, a)
    ensures Core(Do(hash, s, a))
  {
    hide Core, Do, DistinctPeers, CapacityOk, PeerIds, InHand, Bound;
    var l := a.listener;
    var u := s.udps[l];
    PartsOf(s, l);
    PcStepIs(hash, s, a);
    var pc := Do(hash, s, a).udps[l].pc;
    if pc.Inserting? {
      RoomLeft(u);
    }
    PcParts(u, pc);
    LocalOk(s, l, u.(pc := pc));
  }

  /** A listener allocates an id for a new peer. */
  lemma AdmitOk(s: Sys, l: Id, addr: Addr)
    requires Core(s) && At(s, l, Waiting) && addr !in s.udps[l].peers
    ensures Core(SetUdps(s, l, s.udps[l].(pc := Allocated(addr, s.nextId))).(nextId := s.nextId + 1))
  {
    hide Core, DistinctPeers, CapacityOk, PeerIds, Bound;
    var u := s.udps[l];
    PartsOf(s, l);
    PcParts(u, Allocated(addr, s.nextId));
    LocalOk(s, l, u.(pc := Allocated(addr, s.nextId)));
    NextIdOk(SetUdps(s, l, u.(pc := Allocated(addr, s.nextId))), s.pending);
  }

  lemma NextIdOk(s: Sys, pending: map<Id, Pending>)
    requires Core(s)
    ensures Core(s.(nextId := s.nextId + 1, pending := pending))
  {
    hide Registered, Removed, FramesOk, ListenerOk, Inv, Registry, Sent, OwnersOk;
    var s' := s.(nextId := s.nextId + 1, pending := pending);
    SameSent(s, s');
    SameOwners(Sent(s), s, s');
  }

  lemma PendingOk(s: Sys, pending: map<Id, Pending>)
    requires Core(s)
    ensures Core(s.(pending := pending))
  {
    hide Registered, Removed, FramesOk, ListenerOk, Inv, Registry, Sent, OwnersOk, LogOk;
    var s' := s.(pending := pending);
    SameSent(s, s');
    SameOwners(Sent(s), s, s');
  }

  lemma WithdrawHandOk(s: Sys, l: Id, reason: RemovalReason, pc: Pc)
    requires Core(s) && l in s.udps
    requires
      var u := s.udps[l];
      || (u.pc.Evicting? && pc == Inserting(u.pc.addr, u.pc.child))
      || (u.pc.SweepSending? && pc == Sweeping(u.pc.todo, u.pc.reason))
    ensures
      var u := s.udps[l];
      Core(SetUdps(Withdraw(s, l, u.pc.victim, reason), l, u.(pc := pc)))
  {
    hide Core, DistinctPeers, CapacityOk, PeerIds, InHand;
    var u := s.udps[l];
    PartsOf(s, l);
    DropParts(u, u.pc.victim, pc);
    WithdrawChildOk(s, l, u.pc.victim, reason, u.(pc := pc));
  }

  /** Listener steps that tell the router something. */
  lemma TellingStepOk(hash: Bytes -> Hash, s: Sys, a: Action)
    requires Ok(s) && Enabled(s, a)
    requires a.AnnouncePeer? || a.SendEvicted? || a.SendSwept?
    ensures Core(Do(hash, s, a))
  {
    hide Core, OnEvent, OnFrame, SetUdps, Mentioned, Started, Announcement;
    var l := a.listener;
    match a {
      case AnnouncePeer(_) =>
        assert Reserves(s, l, s.udps[l].pc.child);
        PeerAnnouncedOk(s, l);
      case SendEvicted(_) => WithdrawHandOk(s, l, LruEvicted, Inserting(s.udps[l].pc.addr, s.udps[l].pc.child));
      case SendSwept(_) => WithdrawHandOk(s, l, s.udps[l].pc.reason, Sweeping(s.udps[l].pc.todo, s.udps[l].pc.reason));
    }
  }

  lemma RoomLeft(u: Udps)
    requires CapacityOk(u) && u.pc.Announced?
    requires |u.peers| < u.capacity || u.peers == map[]
    ensures |u.peers| < Bound(u) && u.pc.addr !in u.peers
  {}

  // ---------- Sessions, deliveries and announcements ----------

  /** A pending id is announced and its task starts. */
  lemma StartedOk(s: Sys, id: Id, p: Pending)
    requires Core(s) && id < s.nextId && !Mentioned(Sent(s), id)
    ensures Core(Started(Announce(s, Announcement(id, p)), id, p))
  {
    hide Core, Registered, Mentioned;
    var e := Announcement(id, p);
    UnmentionedIsFree(s, id);
    AnnounceOk(s, e);
    var s1 := Announce(s, e);
    match p {
      case NewLeaf(_) => AddSessionOk(s1, id, Session(Starting, None));
      case NewTcps => TcpsOk(s1, s1.tcps + {id});
      case NewUdps(capacity, idle, r) => NewListenerOk(s1, id, Udps(map[], capacity, idle, r, Waiting));
      case NewClient(l, _) => AddSessionOk(s1, id, Session(Starting, Some(l)));
    }
  }

  lemma TaskStepOk(hash: Bytes -> Hash, s: Sys, a: Action)
    requires Ok(s) && Enabled(s, a)
    requires a.Allocate? || a.AnnounceId? || a.Begin? || a.End? || a.Retire? || a.Admit?
    ensures Core(Do(hash, s, a))
  {
    hide Core, OnEvent, OnFrame, Started, Announcement, SetUdps, Mentioned;
    match a {
      case Allocate(p) => NextIdOk(s, s.pending[s.nextId := p]);
      case AnnounceId(id) =>
        StartedOk(s, id, s.pending[id]);
        PendingOk(Started(Announce(s, Announcement(id, s.pending[id])), id, s.pending[id]), s.pending - {id});
      case Begin(id) => SessionStepOk(s, id, s.sessions[id].(phase := Live));
      case End(id) => SessionStepOk(s, id, s.sessions[id].(phase := Ending));
      case Retire(id, reason) => RetireOk(s, id, s.sessions[id].parent.value, reason);
      case Admit(l, addr) => AdmitOk(s, l, addr);
    }
  }

  lemma TcpsOk(s: Sys, tcps: set<Id>)
    requires Core(s)
    ensures Core(s.(tcps := tcps))
  {
    hide Registered, Removed, LogOk, FramesOk, ListenerOk, Inv, Registry, Sent, OwnersOk;
    SameSent(s, s.(tcps := tcps));
    SameOwners(Sent(s), s, s.(tcps := tcps));
  }

  lemma ForwardStepOk(hash: Bytes -> Hash, s: Sys, a: Action)
    requires Core(s) && Enabled(s, a) && (a.Forward? || a.Deliver?)
    ensures Core(Do(hash, s, a))
  {
    hide Core, OnEvent, OnFrame, Registered, DistinctPeers, CapacityOk, InHand;
    match a {
      case Forward(id, frame, header) =>
        SessionRegistered(s, id);
        PushOk(s, QueuedFrame(id, frame, header));
      case Deliver(l, frame, header) =>
        var u := s.udps[l];
        PartsOf(s, l);
        var id := u.peers[u.pc.addr].child;
        assert id in PeerIds(u) + InHand(u.pc);
        PushOk(s, QueuedFrame(id, frame, header));
    }
  }

  // ---------- The router keeps the invariant ----------

  lemma EventRegisters(s: State, e: Event)
    ensures Registry(OnEvent(s, e)) == Registering(Registry(s), e)
  {
    hide Registry, AddEndpoint, RemoveEndpoint;
    match e {
      case EndpointAdded(id, leaf) => AddRegisters(s, id, leaf);
      case PeerAdded(_, id, routable) => AddRegisters(s, id, Some(routable));
      case PeerRemoved(_, id, _) => RemoveUnregisters(s, id);
    }
  }

  lemma AddRegisters(s: State, id: Id, r: Option<Routable>)
    ensures Registry(AddEndpoint(s, id, r)) == Registry(s)[id := r.Some?]
  {
    hide Join;
  }

  lemma RemoveUnregisters(s: State, id: Id)
    ensures Registry(RemoveEndpoint(s, id)) == Registry(s) - {id}
  {
    hide Leave;
  }

  lemma FrameKeepsRegistry(hash: Bytes -> Hash, s: State, src: Id, frame: Bytes, header: ParsedHeader, now: nat)
    ensures Registry(OnFrame(hash, s, src, frame, header, now)) == Registry(s)
  {
    hide CheckAndInsert, PushedAfter, DropsAfter;
  }

  /** The next event to be processed announces an id that is not registered. */
  lemma NextEventIsFresh(s: Sys)
    requires Core(s) && s.events != []
    ensures FreshInput(s.router, Lifecycle(s.events[0]))
  {
    hide Removed, FramesOk, ListenerOk, Inv, Registered, SessionsOk, UdpsOk, OwnersOk;
    var e := s.events[0];
    if !e.PeerRemoved? && e.id in s.router.routing {
      assert e.id in Registry(s.router);
      RegisteredAnnounced(s.handled, e.id);
      var i :| 0 <= i < |s.handled| && !s.handled[i].PeerRemoved? && s.handled[i].id == e.id;
      AnnouncedOnce(s.handled, s.events, s.nextId, i);
    }
  }

  lemma AnnouncedOnce(handled: seq<Event>, events: seq<Event>, nextId: Id, i: nat)
    requires LogOk(handled + events, nextId) && events != [] && i < |handled|
    requires !handled[i].PeerRemoved? && !events[0].PeerRemoved?
    ensures handled[i].id != events[0].id
  {
    assert (handled + events)[i] == handled[i] && (handled + events)[|handled|] == events[0];
  }

  lemma RouterEventOk(hash: Bytes -> Hash, s: Sys)
    requires Core(s) && s.events != []
    ensures Core(Do(hash, s, RouterEvent))
  {
    hide Removed, FramesOk, ListenerOk, Inv, Registered, SessionsOk, UdpsOk, OnEvent, Registry, LogOk, OwnersOk;
    var e := s.events[0];
    var s' := Do(hash, s, RouterEvent);
    assert Sent(s') == Sent(s);
    NextEventIsFresh(s);
    EventKeepsInv(s.router, e, s.clock);
    EventRegisters(s.router, e);
    RegisteredSnoc(s.handled, e);
    SameParts(Registered(Sent(s)), s, s');
    SameOwners(Sent(s), s, s');
  }

  lemma RouterFrameOk(hash: Bytes -> Hash, s: Sys, now: nat)
    requires Core(s) && Enabled(s, RouterFrame(now))
    ensures Core(Do(hash, s, RouterFrame(now)))
  {
    hide Removed, ListenerOk, Inv, Registered, SessionsOk, UdpsOk, OnFrame, Registry, LogOk, Sent, OwnersOk;
    var f := s.frames[0];
    var s' := Do(hash, s, RouterFrame(now));
    SameSent(s, s');
    InvLater(s.router, s.clock, now);
    FrameKeepsInv(hash, s.router, f.src, f.frame, f.header, now);
    FrameKeepsRegistry(hash, s.router, f.src, f.frame, f.header, now);
    SameParts(Registered(Sent(s)), s, s');
    SameOwners(Sent(s), s, s');
  }

  lemma StepCore(hash: Bytes -> Hash, s: Sys, a: Action)
    requires Ok(s) && Enabled(s, a)
    ensures Core(Do(hash, s, a))
  {
    hide Core, Do, ReservedOk;
    match a {
      case RouterEvent => RouterEventOk(hash, s);
      case RouterFrame(now) => RouterFrameOk(hash, s, now);
      case Forward(_, _, _) => ForwardStepOk(hash, s, a);
      case Deliver(_, _, _) => ForwardStepOk(hash, s, a);
      case AnnouncePeer(_) => TellingStepOk(hash, s, a);
      case SendEvicted(_) => TellingStepOk(hash, s, a);
      case SendSwept(_) => TellingStepOk(hash, s, a);
      case KnownPacket(_, _, _) => TableStepOk(hash, s, a);
      case MakeRoom(_, _) => TableStepOk(hash, s, a);
      case HasRoom(_) => PcStepOk(hash, s, a);
      case Insert(_, _) => TableStepOk(hash, s, a);
      case Finish(_) => PcStepOk(hash, s, a);
      case ReapTick(_, _, _) => PcStepOk(hash, s, a);
      case Shutdown(_, _) => PcStepOk(hash, s, a);
      case SweepNext(l) =>
        if s.udps[l].pc.todo[0] in s.udps[l].peers {
          TableStepOk(hash, s, a);
        } else {
          PcStepOk(hash, s, a);
        }
      case _ => TaskStepOk(hash, s, a);
    }
  }

  // ---------- Reservations ----------

  /** Fewer reservations, and no reserved id newly mentioned. */
  lemma ReservedShrinks(log: seq<Event>, s: Sys, log': seq<Event>, s': Sys)
    requires ReservedOk(log, s) && s.nextId <= s'.nextId
    requires s'.pending.Keys <= s.pending.Keys
    requires forall l: Id, id: Id :: Reserves(s', l, id) ==> Reserves(s, l, id)
    requires forall id :: id in s'.pending ==> Mentioned(log', id) ==> Mentioned(log, id)
    requires forall l: Id, id: Id :: Reserves(s', l, id) ==> Mentioned(log', id) ==> Mentioned(log, id)
    ensures ReservedOk(log', s')
  {
    hide Mentioned, Reserves;
    assert forall id :: id in s'.pending ==> id in s'.pending.Keys && id in s.pending;
  }

  /** A step that tells the router nothing. */
  lemma QuietReserved(s: Sys, s': Sys)
    requires ReservedOk(Sent(s), s) && Sent(s') == Sent(s) && s.nextId <= s'.nextId
    requires s'.pending == s.pending
    requires forall l: Id, id: Id :: Reserves(s', l, id) ==> Reserves(s, l, id)
    ensures ReservedOk(Sent(s'), s')
  {
    hide Mentioned, Reserves, Sent;
    ReservedShrinks(Sent(s), s, Sent(s'), s');
  }

  /** A step that announces `id`, reserved before and no longer, or tells of an id mentioned before. */
  lemma ToldReserved(s: Sys, s': Sys, e: Event)
    requires ReservedOk(Sent(s), s) && Sent(s') == Sent(s) + [e] && s.nextId <= s'.nextId
    requires s'.pending.Keys <= s.pending.Keys
    requires forall l: Id, id: Id :: Reserves(s', l, id) ==> Reserves(s, l, id)
    requires Mentioned(Sent(s), e.id) || (e.id !in s'.pending && forall l :: !Reserves(s', l, e.id))
    ensures ReservedOk(Sent(s'), s')
  {
    hide Mentioned, Reserves, Sent;
    forall id | id == e.id ==> Mentioned(Sent(s), id)
      ensures Mentioned(Sent(s'), id) ==> Mentioned(Sent(s), id)
    {
      MentionedSnoc(Sent(s), e, id);
    }
    ReservedShrinks(Sent(s), s, Sent(s'), s');
  }

  lemma AllocateReserved(hash: Bytes -> Hash, s: Sys, p: Pending)
    requires Ok(s) && Enabled(s, Allocate(p))
    ensures
      var s' := Do(hash, s, Allocate(p));
      ReservedOk(Sent(s'), s')
  {
    hide OnEvent, OnFrame, Registered, Removed, FramesOk, ListenerOk, Inv, Registry, OwnersOk, SessionsOk, UdpsOk;
    var s' := s.(pending := s.pending[s.nextId := p], nextId := s.nextId + 1);
    assert forall l: Id, id: Id :: Reserves(s', l, id) <==> Reserves(s, l, id);
    NextIsUnmentioned(Sent(s), s.nextId);
    hide Mentioned, LogOk;
  }

  lemma NextIsUnmentioned(log: seq<Event>, nextId: Id)
    requires LogOk(log, nextId)
    ensures !Mentioned(log, nextId)
  {}

  lemma AdmitReserved(hash: Bytes -> Hash, s: Sys, l: Id, addr: Addr)
    requires Ok(s) && Enabled(s, Admit(l, addr))
    ensures
      var s' := Do(hash, s, Admit(l, addr));
      ReservedOk(Sent(s'), s')
  {
    hide OnEvent, OnFrame, Registered, Removed, FramesOk, ListenerOk, Inv, Registry, OwnersOk, SessionsOk, UdpsOk;
    var s' := SetUdps(s, l, s.udps[l].(pc := Allocated(addr, s.nextId))).(nextId := s.nextId + 1);
    assert forall k: Id, id: Id :: Reserves(s', k, id) <==> (k == l && id == s.nextId) || Reserves(s, k, id);
    NextIsUnmentioned(Sent(s), s.nextId);
    hide Mentioned, LogOk, Reserves;
  }

  lemma AnnounceIdReserved(hash: Bytes -> Hash, s: Sys, id: Id)
    requires Ok(s) && Enabled(s, AnnounceId(id))
    ensures
      var s' := Do(hash, s, AnnounceId(id));
      ReservedOk(Sent(s'), s')
  {
    hide Core, OnEvent, OnFrame, Mentioned, Announcement;
    var s' := Do(hash, s, AnnounceId(id));
    var e := Announcement(id, s.pending[id]);
    assert e.id == id by { AnnouncementId(id, s.pending[id]); }
    SentSnoc(s, e);
    UnmentionedIsFree(s, id);
    assert forall l: Id, x: Id :: Reserves(s', l, x) ==> Reserves(s, l, x);
    ToldReserved(s, s', e);
  }

  lemma AnnouncementId(id: Id, p: Pending)
    ensures Announcement(id, p).id == id && !Announcement(id, p).PeerRemoved?
  {}

  lemma AnnouncePeerReserved(hash: Bytes -> Hash, s: Sys, l: Id)
    requires Ok(s) && Enabled(s, AnnouncePeer(l))
    ensures
      var s' := Do(hash, s, AnnouncePeer(l));
      ReservedOk(Sent(s'), s')
  {
    hide Core, OnEvent, OnFrame, Mentioned;
    var s' := Do(hash, s, AnnouncePeer(l));
    var id := s.udps[l].pc.child;
    SentSnoc(s, PeerAdded(l, id, s.udps[l].routable));
    assert Reserves(s, l, id);
    assert forall k: Id, x: Id :: Reserves(s', k, x) ==> k != l && Reserves(s, k, x);
    ToldReserved(s, s', PeerAdded(l, id, s.udps[l].routable));
  }

  lemma WithdrawReserved(s: Sys, s': Sys, e: Event)
    requires Ok(s) && e.id in Registered(Sent(s)) && Sent(s') == Sent(s) + [e]
    requires s'.nextId == s.nextId && s'.pending == s.pending
    requires forall l: Id, id: Id :: Reserves(s', l, id) ==> Reserves(s, l, id)
    ensures ReservedOk(Sent(s'), s')
  {
    hide Core, Registered, Mentioned, Reserves, Sent;
    RegisteredMentioned(Sent(s), e.id);
    ToldReserved(s, s', e);
  }

  lemma RetireReserved(hash: Bytes -> Hash, s: Sys, id: Id, reason: RemovalReason)
    requires Ok(s) && Enabled(s, Retire(id, reason))
    ensures
      var s' := Do(hash, s, Retire(id, reason));
      ReservedOk(Sent(s'), s')
  {
    hide Core, OnEvent, OnFrame, Registered, Mentioned;
    var s' := Do(hash, s, Retire(id, reason));
    var e := PeerRemoved(s.sessions[id].parent.value, id, reason);
    SentSnoc(s, e);
    SessionRegistered(s, id);
    assert forall l: Id, x: Id :: Reserves(s', l, x) ==> Reserves(s, l, x);
    WithdrawReserved(s, s', e);
  }

  lemma SendReserved(hash: Bytes -> Hash, s: Sys, a: Action)
    requires Ok(s) && Enabled(s, a) && (a.SendEvicted? || a.SendSwept?)
    ensures
      var s' := Do(hash, s, a);
      ReservedOk(Sent(s'), s')
  {
    hide Core, OnEvent, OnFrame, Registered, Mentioned, PeerIds, DistinctPeers, CapacityOk;
    var s', l := Do(hash, s, a), a.listener;
    var u := s.udps[l];
    var e := PeerRemoved(l, u.pc.victim, if a.SendEvicted? then LruEvicted else u.pc.reason);
    SentSnoc(s, e);
    PartsOf(s, l);
    assert u.pc.victim in InHand(u.pc);
    assert forall k: Id, x: Id :: Reserves(s', k, x) ==> Reserves(s, k, x);
    WithdrawReserved(s, s', e);
  }

  /** The steps that neither allocate nor tell the router anything. */
  ghost predicate Quiet(a: Action) {
    !a.Allocate? && !a.AnnounceId? && !a.Admit? && !a.AnnouncePeer? && !a.Retire? && !a.SendEvicted? && !a.SendSwept?
  }

  /** Quiet steps of sessions and frames leave listeners and events alone. */
  lemma QuietElsewhere(hash: Bytes -> Hash, s: Sys, a: Action)
    requires Enabled(s, a)
    requires a.Begin? || a.Forward? || a.End? || a.Deliver? || a.RouterFrame?
    ensures
      var s' := Do(hash, s, a);
      && s'.handled == s.handled && s'.events == s.events
      && s'.nextId == s.nextId && s'.pending == s.pending && s'.udps == s.udps
  {
    hide OnEvent, OnFrame;
  }

  lemma QuietEvent(hash: Bytes -> Hash, s: Sys)
    requires s.events != []
    ensures
      var s' := Do(hash, s, RouterEvent);
      && Sent(s') == Sent(s)
      && s'.nextId == s.nextId && s'.pending == s.pending && s'.udps == s.udps
  {
    hide OnEvent, OnFrame;
    assert s.events == [s.events[0]] + s.events[1..];
  }

  /** Quiet steps of a listener change that listener, which reserves nothing then. */
  lemma QuietListener(hash: Bytes -> Hash, s: Sys, a: Action)
    requires Enabled(s, a) && Quiet(a)
    requires !(a.Begin? || a.Forward? || a.End? || a.Deliver? || a.RouterEvent? || a.RouterFrame?)
    ensures
      var s' := Do(hash, s, a);
      && a.listener in s'.udps && !s'.udps[a.listener].pc.Allocated?
      && s' == SetUdps(s, a.listener, s'.udps[a.listener])
  {
    hide OnEvent, OnFrame, Started, Announcement;
  }

  lemma SetReserves(s: Sys, l: Id, u: Udps)
    requires !u.pc.Allocated?
    ensures forall k: Id, id: Id :: Reserves(SetUdps(s, l, u), k, id) ==> Reserves(s, k, id)
  {}

  lemma SameReserves(s: Sys, s': Sys)
    requires s'.udps == s.udps
    ensures forall k: Id, id: Id :: Reserves(s', k, id) ==> Reserves(s, k, id)
  {}

  lemma EventEnabled(s: Sys)
    requires Enabled(s, RouterEvent)
    ensures s.events != []
  {}

  lemma QuietStep(hash: Bytes -> Hash, s: Sys, a: Action)
    requires Enabled(s, a) && Quiet(a)
    ensures
      var s' := Do(hash, s, a);
      && Sent(s') == Sent(s)
      && s'.nextId == s.nextId && s'.pending == s.pending
      && (forall l: Id, id: Id :: Reserves(s', l, id) ==> Reserves(s, l, id))
  {
    hide Do, Enabled, Reserves;
    var s' := Do(hash, s, a);
    if a.RouterEvent? {
      assert s.events != [] by { EventEnabled(s); }
      QuietEvent(hash, s);
      SameReserves(s, s');
    } else if a.Begin? || a.Forward? || a.End? || a.Deliver? || a.RouterFrame? {
      QuietElsewhere(hash, s, a);
      SameReserves(s, s');
    } else {
      QuietListener(hash, s, a);
      SetReserves(s, a.listener, s'.udps[a.listener]);
    }
  }

  lemma StepReserved(hash: Bytes -> Hash, s: Sys, a: Action)
    requires Ok(s) && Enabled(s, a)
    ensures
      var s' := Do(hash, s, a);
      ReservedOk(Sent(s'), s')
  {
    if Quiet(a) {
      hide Core, Do, Enabled;
      QuietStep(hash, s, a);
      QuietReserved(s, Do(hash, s, a));
    } else {
      hide Ok, ReservedOk, Do, Enabled, Sent;
      match a {
        case Allocate(p) => AllocateReserved(hash, s, p);
        case AnnounceId(id) => AnnounceIdReserved(hash, s, id);
        case Admit(l, addr) => AdmitReserved(hash, s, l, addr);
        case AnnouncePeer(l) => AnnouncePeerReserved(hash, s, l);
        case Retire(id, reason) => RetireReserved(hash, s, id, reason);
        case _ => SendReserved(hash, s, a);
      }
    }
  }

  lemma StepOk(hash: Bytes -> Hash, s: Sys, a: Action)
    requires Ok(s) && Enabled(s, a)
    ensures Ok(Do(hash, s, a))
  {
    hide Core, Do, Enabled, ReservedOk;
    StepCore(hash, s, a);
    StepReserved(hash, s, a);
  }

  lemma StartOk(dedupTtl: nat, dedupCapacity: nat)
    ensures Ok(Start(dedupTtl, dedupCapacity))
  {}

  lemma {:induction false} RunOk(hash: Bytes -> Hash, s: Sys, actions: seq<Action>)
    requires Ok(s) && IsRun(hash, s, actions)
    ensures Ok(After(hash, s, actions))
    decreases actions
  {
    hide Ok, Do;
    if actions != [] {
      StepOk(hash, s, actions[0]);
      RunOk(hash, Do(hash, s, actions[0]), actions[1..]);
    }
  }

  // ---------- What every run guarantees ----------

  /** Every interleaving of tasks, listeners and router keeps the invariant. */
  lemma ReachableOk(hash: Bytes -> Hash, dedupTtl: nat, dedupCapacity: nat, actions: seq<Action>)
    requires IsRun(hash, Start(dedupTtl, dedupCapacity), actions)
    ensures Ok(After(hash, Start(dedupTtl, dedupCapacity), actions))
  {
    hide Ok, Do;
    StartOk(dedupTtl, dedupCapacity);
    RunOk(hash, Start(dedupTtl, dedupCapacity), actions);
  }

  /**
   Registration before frames.  When the router takes a frame, its sender is registered
   and routable, unless the removal of the sender has already been processed; in that
   case the frame leaves the whole router state as it was.
   */
  lemma RegisteredBeforeFrame(hash: Bytes -> Hash, s: Sys, now: nat)
    requires Ok(s) && Enabled(s, RouterFrame(now))
    ensures
      var src := s.frames[0].src;
      && (IsRoutable(s.router, src) || src in Removed(s.handled))
      && (!IsRoutable(s.router, src) ==>
            OnFrame(hash, s.router, src, s.frames[0].frame, s.frames[0].header, now) == s.router)
  {
    hide Removed, ListenerOk, Inv, Registered, LogOk, OnFrame;
    assert Sent(s) == s.handled;
    assert FramesOk(Registered(s.handled), Removed(s.handled), s.frames);
    var f := s.frames[0];
    assert Registry(s.router) == Registered(s.handled);
    if !IsRoutable(s.router, f.src) {
      UnknownSourceIsInert(hash, s.router, f.src, f.frame, f.header, now);
    }
  }

  /** A listener that is not in the middle of announcing, evicting or sweeping. */
  ghost predicate AtRest(pc: Pc) {
    InHand(pc) == {}
  }

  /**
   Whenever no event is in flight and a listener is at rest, the registered children of
   that listener are exactly the peers in its table, all of them routable.
   */
  lemma RegistryMatchesPeers(s: Sys, l: Id)
    requires Ok(s) && s.events == [] && l in s.udps && AtRest(s.udps[l].pc)
    ensures forall id :: id in PeerIds(s.udps[l]) <==> id in s.router.routing && id in s.owner && s.owner[id] == l
    ensures forall id :: id in PeerIds(s.udps[l]) ==> IsRoutable(s.router, id)
  {
    hide Removed, Inv, LogOk, FramesOk, SessionsOk, PeerIds, DistinctPeers, CapacityOk;
    assert Sent(s) == s.handled;
    assert ListenerOk(Registered(s.handled), s.owner, l, s.udps[l]);
    assert PeerIds(s.udps[l]) + InHand(s.udps[l].pc) == PeerIds(s.udps[l]);
    assert Registry(s.router).Keys == s.router.routing.Keys;
    forall id | id in PeerIds(s.udps[l])
      ensures IsRoutable(s.router, id)
    {
      assert id in Registered(s.handled) && Registered(s.handled)[id];
    }
  }

  // ---------- The router's own runs ----------

  /** The router is where its own state machine gets on the inputs it took, and they are legal. */
  ghost predicate RouterRan(hash: Bytes -> Hash, s0: State, s: Sys) {
    && s.router == Run(hash, s0, s.log)
    && s.clock == RunClock(0, s.log)
    && LegalRun(hash, s0, 0, s.log)
  }

  lemma LegalSnoc(hash: Bytes -> Hash, s0: State, log: seq<Input>, input: Input)
    requires LegalRun(hash, s0, 0, log) && FreshInput(Run(hash, s0, log), input)
    requires input.Inbound? ==> RunClock(0, log) <= input.now
    ensures LegalRun(hash, s0, 0, log + [input])
    ensures Run(hash, s0, log + [input]) == Step(hash, Run(hash, s0, log), input)
    ensures RunClock(0, log + [input]) == if input.Inbound? then input.now else RunClock(0, log)
  {
    hide Step, FreshInput;
    var next := log + [input];
    assert next[..|log|] == log;
    forall i | 0 <= i < |next|
      ensures FreshInput(Run(hash, s0, next[..i]), next[i])
      ensures next[i].Inbound? ==> RunClock(0, next[..i]) <= next[i].now
    {
      hide Run, RunClock;
      if i < |log| {
        assert next[..i] == log[..i] && next[i] == log[i];
      }
    }
  }

  /** Only the router's own steps touch the router. */
  lemma TasksLeaveRouter(hash: Bytes -> Hash, s: Sys, a: Action)
    requires Enabled(s, a) && !a.RouterEvent? && !a.RouterFrame?
    ensures
      var s' := Do(hash, s, a);
      s'.router == s.router && s'.handled == s.handled && s'.log == s.log && s'.clock == s.clock
  {
    hide OnEvent, OnFrame, Started, Announcement;
    if a.AnnounceId? {
      StartedLeavesRouter(Announce(s, Announcement(a.id, s.pending[a.id])), a.id, s.pending[a.id]);
    }
  }

  lemma StartedLeavesRouter(s: Sys, id: Id, p: Pending)
    ensures
      var s' := Started(s, id, p);
      s'.router == s.router && s'.handled == s.handled && s'.log == s.log && s'.clock == s.clock
  {}

  lemma EventRan(hash: Bytes -> Hash, s0: State, s: Sys)
    requires Ok(s) && RouterRan(hash, s0, s) && s.events != []
    ensures RouterRan(hash, s0, Do(hash, s, RouterEvent))
  {
    hide Core, Run, RunClock, LegalRun, OnEvent;
    NextEventIsFresh(s);
    LegalSnoc(hash, s0, s.log, Lifecycle(s.events[0]));
  }

  lemma FrameRan(hash: Bytes -> Hash, s0: State, s: Sys, now: nat)
    requires RouterRan(hash, s0, s) && Enabled(s, RouterFrame(now))
    ensures RouterRan(hash, s0, Do(hash, s, RouterFrame(now)))
  {
    hide Run, RunClock, LegalRun, OnFrame;
    var f := s.frames[0];
    LegalSnoc(hash, s0, s.log, Inbound(f.src, f.frame, f.header, now));
  }

  lemma StepRan(hash: Bytes -> Hash, s0: State, s: Sys, a: Action)
    requires Ok(s) && RouterRan(hash, s0, s) && Enabled(s, a)
    ensures RouterRan(hash, s0, Do(hash, s, a))
  {
    hide Ok, Do, Run, RunClock, LegalRun;
    if a.RouterEvent? {
      EventRan(hash, s0, s);
    } else if a.RouterFrame? {
      FrameRan(hash, s0, s, a.now);
    } else {
      TasksLeaveRouter(hash, s, a);
    }
  }

  lemma {:induction false} RunRan(hash: Bytes -> Hash, s0: State, s: Sys, actions: seq<Action>)
    requires Ok(s) && RouterRan(hash, s0, s) && IsRun(hash, s, actions)
    ensures RouterRan(hash, s0, After(hash, s, actions))
    decreases actions
  {
    hide Ok, Do, RouterRan;
    if actions != [] {
      StepOk(hash, s, actions[0]);
      StepRan(hash, s0, s, actions[0]);
      RunRan(hash, s0, Do(hash, s, actions[0]), actions[1..]);
    }
  }

  /**
   The protocol delivers what the router relies on: over every interleaving, the inputs
   the router takes form a legal run, with ids never reused, and the router's state is the
   outcome of that run.  So everything proved of legal runs holds of the running system.
   */
  lemma RouterRunsLegally(hash: Bytes -> Hash, dedupTtl: nat, dedupCapacity: nat, actions: seq<Action>)
    requires IsRun(hash, Start(dedupTtl, dedupCapacity), actions)
    ensures
      var s0 := NewState(dedupTtl, dedupCapacity);
      var s := After(hash, Start(dedupTtl, dedupCapacity), actions);
      LegalRun(hash, s0, 0, s.log) && s.router == Run(hash, s0, s.log)
  {
    hide Ok, Do, IsRun, After;
    StartOk(dedupTtl, dedupCapacity);
    RunRan(hash, NewState(dedupTtl, dedupCapacity), Start(dedupTtl, dedupCapacity), actions);
  }

  /** A listener's peer table never exceeds its capacity, taken as at least one. */
  lemma PeersWithinCapacity(s: Sys, l: Id)
    requires Ok(s) && l in s.udps
    ensures |s.udps[l].peers| <= Bound(s.udps[l])
  {
    hide Registered, Removed, LogOk, FramesOk, Inv, Registry, Sent, PeerIds, InHand;
    PartsOf(s, l);
  }

  /** The guarantees of the protocol, in every state that any interleaving can reach. */
  lemma EveryRunIsSafe(hash: Bytes -> Hash, dedupTtl: nat, dedupCapacity: nat, actions: seq<Action>)
    requires IsRun(hash, Start(dedupTtl, dedupCapacity), actions)
    ensures
      var s := After(hash, Start(dedupTtl, dedupCapacity), actions);
      && Inv(s.router, s.clock)
      && (forall now :: Enabled(s, RouterFrame(now)) ==>
            IsRoutable(s.router, s.frames[0].src) || s.frames[0].src in Removed(s.handled))
      && (forall l :: l in s.udps ==> |s.udps[l].peers| <= Bound(s.udps[l]))
      && (forall l, id :: s.events == [] && l in s.udps && AtRest(s.udps[l].pc) ==>
            (id in PeerIds(s.udps[l]) <==> id in s.router.routing && id in s.owner && s.owner[id] == l))
  {
    hide IsRun, After, Do, PeerIds, Bound, Removed, AtRest, IsRoutable, Inv;
    ReachableOk(hash, dedupTtl, dedupCapacity, actions);
    var s := After(hash, Start(dedupTtl, dedupCapacity), actions);
    assert Inv(s.router, s.clock);
    hide Ok;
    forall now | Enabled(s, RouterFrame(now))
      ensures IsRoutable(s.router, s.frames[0].src) || s.frames[0].src in Removed(s.handled)
    {
      RegisteredBeforeFrame(hash, s, now);
    }
    forall l | l in s.udps
      ensures |s.udps[l].peers| <= Bound(s.udps[l])
    {
      PeersWithinCapacity(s, l);
    }
    forall l, id | s.events == [] && l in s.udps && AtRest(s.udps[l].pc)
      ensures id in PeerIds(s.udps[l]) <==> id in s.router.routing && id in s.owner && s.owner[id] == l
    {
      RegistryMatchesPeers(s, l);
    }
  }
}
