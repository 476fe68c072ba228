/**
 The endpoint tasks against their history (src/endpoint/udp/server.rs, src/endpoint/spawn.rs,
 src/endpoint/tcp/server.rs).  Which peers a UDP listener holds, when it last heard them,
 whom it evicts and reaps, and everything the tasks tell the router are functions of the
 steps taken so far; here those functions are written down without the state of the tasks.
 */
module ProtocolHistory {
  import opened Frame
  import opened Deduplication
  import opened Routing
  import opened Protocol

  // ---------- What the steps say ----------

  /** How many ids have been allocated. */
  ghost function Ids(actions: seq<Action>): nat {
    if actions == [] then 0
    else
      var a := actions[|actions| - 1];
      Ids(actions[..|actions| - 1]) + if a.Allocate? || a.Admit? then 1 else 0
  }

  /** What an id was allocated for; ids of UDP peers are for no task of their own. */
  ghost function PurposeOf(actions: seq<Action>, id: Id): Option<Pending> {
    if actions == [] then None
    else
      var init, a := actions[..|actions| - 1], actions[|actions| - 1];
      if a.Allocate? && Ids(init) == id then Some(a.purpose) else PurposeOf(init, id)
  }

  /** The address whose packet a listener took up last. */
  ghost function Current(actions: seq<Action>, l: Id): Option<Addr> {
    if actions == [] then None
    else
      var init, a := actions[..|actions| - 1], actions[|actions| - 1];
      if (a.KnownPacket? || a.Admit?) && a.listener == l then Some(a.addr) else Current(init, l)
  }

  /** The id that an address was last admitted under. */
  ghost function ChildOf(actions: seq<Action>, l: Id, x: Addr): Option<Id> {
    if actions == [] then None
    else
      var init, a := actions[..|actions| - 1], actions[|actions| - 1];
      if a == Admit(l, x) then Some(Ids(init)) else ChildOf(init, l, x)
  }

  /** When the last packet of an address was taken up. */
  ghost function LastPacket(actions: seq<Action>, l: Id, x: Addr): nat {
    if actions == [] then 0
    else
      var init, a := actions[..|actions| - 1], actions[|actions| - 1];
      if a.KnownPacket? && a.listener == l && a.addr == x then a.at
      else if a.Insert? && a.listener == l && Current(init, l) == Some(x) then a.at
      else LastPacket(init, l, x)
  }

  /** The address evicted last. */
  ghost function Evicted(actions: seq<Action>, l: Id): Option<Addr> {
    if actions == [] then None
    else
      var init, a := actions[..|actions| - 1], actions[|actions| - 1];
      if a.MakeRoom? && a.listener == l then Some(a.victim) else Evicted(init, l)
  }

  /** What is left of the list that the last tick or shutdown set out to sweep. */
  ghost function ToSweep(actions: seq<Action>, l: Id): seq<Addr> {
    if actions == [] then []
    else
      var init, a := actions[..|actions| - 1], actions[|actions| - 1];
      if a.ReapTick? && a.listener == l then a.expired
      else if a.Shutdown? && a.listener == l then a.all
      else if a == SweepNext(l) && ToSweep(init, l) != [] then ToSweep(init, l)[1..]
      else ToSweep(init, l)
  }

  /** The address swept last. */
  ghost function Swept(actions: seq<Action>, l: Id): Option<Addr> {
    if actions == [] then None
    else
      var init, a := actions[..|actions| - 1], actions[|actions| - 1];
      if a == SweepNext(l) && ToSweep(init, l) != [] then Some(ToSweep(init, l)[0]) else Swept(init, l)
  }

  ghost function SweepReason(actions: seq<Action>, l: Id): RemovalReason {
    if actions == [] then Idle
    else
      var init, a := actions[..|actions| - 1], actions[|actions| - 1];
      if a.ReapTick? && a.listener == l then Idle
      else if a.Shutdown? && a.listener == l then ListenerShutdown
      else SweepReason(init, l)
  }

  /** The reading of the clock at the last tick. */
  ghost function LastTick(actions: seq<Action>, l: Id): nat {
    if actions == [] then 0
    else
      var init, a := actions[..|actions| - 1], actions[|actions| - 1];
      if a.ReapTick? && a.listener == l then a.at else LastTick(init, l)
  }

  /** The address was admitted, and neither evicted nor swept since. */
  ghost predicate Present(actions: seq<Action>, l: Id, x: Addr) {
    if actions == [] then false
    else
      var init, a := actions[..|actions| - 1], actions[|actions| - 1];
      if a.Insert? && a.listener == l && Current(init, l) == Some(x) then true
      else if a == MakeRoom(l, x) then false
      else if a == SweepNext(l) && ToSweep(init, l) != [] && ToSweep(init, l)[0] == x then false
      else Present(init, l, x)
  }

  /** The address had been silent for the idle time of its listener at the last tick. */
  ghost predicate Silent(actions: seq<Action>, l: Id, x: Addr, idle: nat) {
    LastPacket(actions, l, x) + idle <= LastTick(actions, l)
  }

  // ---------- What the tasks tell the router ----------

  ghost function ParentOf(p: Option<Pending>): Option<Id> {
    if p.Some? && p.value.NewClient? then Some(p.value.listener) else None
  }

  /** How a task makes itself known. */
  ghost function Introduction(id: Id, p: Pending): Event {
    match p
    case NewLeaf(r) => EndpointAdded(id, Some(r))
    case NewTcps => EndpointAdded(id, None)
    case NewUdps(_, _, _) => EndpointAdded(id, None)
    case NewClient(l, r) => PeerAdded(l, id, r)
  }

  ghost function Chosen<T>(o: Option<T>, default: T): T {
    if o.Some? then o.value else default
  }

  ghost function ChildAt(actions: seq<Action>, l: Id, x: Option<Addr>): Id {
    if x.Some? then Chosen(ChildOf(actions, l, x.value), 0) else 0
  }

  /** The event that a step sends, given the steps before it. */
  ghost function EventOf(init: seq<Action>, a: Action): seq<Event> {
    match a
    case AnnounceId(id) =>
      if PurposeOf(init, id).Some? then [Introduction(id, PurposeOf(init, id).value)] else []
    case Retire(id, reason) =>
      [PeerRemoved(Chosen(ParentOf(PurposeOf(init, id)), 0), id, reason)]
    case AnnouncePeer(l) =>
      if PurposeOf(init, l).Some? && PurposeOf(init, l).value.NewUdps?
      then [PeerAdded(l, ChildAt(init, l, Current(init, l)), PurposeOf(init, l).value.r)] else []
    case SendEvicted(l) => [PeerRemoved(l, ChildAt(init, l, Evicted(init, l)), LruEvicted)]
    case SendSwept(l) => [PeerRemoved(l, ChildAt(init, l, Swept(init, l)), SweepReason(init, l))]
    case _ => []
  }

  ghost function EventsOf(actions: seq<Action>): seq<Event> {
    if actions == [] then []
    else EventsOf(actions[..|actions| - 1]) + EventOf(actions[..|actions| - 1], actions[|actions| - 1])
  }

  /** The frame that a step forwards; a listener's under the id of the address it came from. */
  ghost function FrameOf(init: seq<Action>, a: Action): seq<QueuedFrame> {
    match a
    case Forward(id, frame, header) => [QueuedFrame(id, frame, header)]
    case Deliver(l, frame, header) => [QueuedFrame(ChildAt(init, l, Current(init, l)), frame, header)]
    case _ => []
  }

  ghost function FramesOf(actions: seq<Action>): seq<QueuedFrame> {
    if actions == [] then []
    else FramesOf(actions[..|actions| - 1]) + FrameOf(actions[..|actions| - 1], actions[|actions| - 1])
  }

  // ---------- One more step ----------

  lemma {:induction false} RunSnoc(hash: Bytes -> Hash, s: Sys, actions: seq<Action>)
    requires IsRun(hash, s, actions) && actions != []
    ensures
      var n := |actions| - 1;
      && IsRun(hash, s, actions[..n]) && Enabled(After(hash, s, actions[..n]), actions[n])
      && After(hash, s, actions) == Do(hash, After(hash, s, actions[..n]), actions[n])
    decreases actions
  {
    hide Enabled, Do;
    var n := |actions| - 1;
    if n > 0 {
      RunSnoc(hash, Do(hash, s, actions[0]), actions[1..]);
      assert actions[..n][1..] == actions[1..][..n - 1];
    }
  }

  /** A step of listener `l`. */
  predicate Concerns(a: Action, l: Id) {
    match a
    case KnownPacket(k, _, _) => k == l
    case Admit(k, _) => k == l
    case AnnouncePeer(k) => k == l
    case MakeRoom(k, _) => k == l
    case HasRoom(k) => k == l
    case SendEvicted(k) => k == l
    case Insert(k, _) => k == l
    case Deliver(k, _, _) => k == l
    case Finish(k) => k == l
    case ReapTick(k, _, _) => k == l
    case Shutdown(k, _) => k == l
    case SweepNext(k) => k == l
    case SendSwept(k) => k == l
    case _ => false
  }

  /** The part of the history that a listener's state reflects. */
  datatype View = View(
    ids: nat, purpose: Option<Pending>, current: Option<Addr>, evicted: Option<Addr>,
    toSweep: seq<Addr>, swept: Option<Addr>, reason: RemovalReason, tick: nat)

  ghost function ViewOf(actions: seq<Action>, l: Id): View {
    View(Ids(actions), PurposeOf(actions, l), Current(actions, l), Evicted(actions, l),
         ToSweep(actions, l), Swept(actions, l), SweepReason(actions, l), LastTick(actions, l))
  }

  lemma ViewSnoc(init: seq<Action>, a: Action, l: Id)
    ensures
      var v, v' := ViewOf(init, l), ViewOf(init + [a], l);
      && v'.ids == v.ids + (if a.Allocate? || a.Admit? then 1 else 0)
      && v'.purpose == (if a.Allocate? && v.ids == l then Some(a.purpose) else v.purpose)
      && v'.current == (if (a.KnownPacket? || a.Admit?) && a.listener == l then Some(a.addr) else v.current)
      && v'.evicted == (if a.MakeRoom? && a.listener == l then Some(a.victim) else v.evicted)
      && v'.toSweep == (if a.ReapTick? && a.listener == l then a.expired
                        else if a.Shutdown? && a.listener == l then a.all
                        else if a == SweepNext(l) && v.toSweep != [] then v.toSweep[1..] else v.toSweep)
      && v'.swept == (if a == SweepNext(l) && v.toSweep != [] then Some(v.toSweep[0]) else v.swept)
      && v'.reason == (if a.ReapTick? && a.listener == l then Idle
                       else if a.Shutdown? && a.listener == l then ListenerShutdown else v.reason)
      && v'.tick == (if a.ReapTick? && a.listener == l then a.at else v.tick)
  {
    assert (init + [a])[..|init|] == init;
  }

  lemma AddrSnoc(init: seq<Action>, a: Action, l: Id, x: Addr)
    ensures
      var actions := init + [a];
      && ChildOf(actions, l, x) == (if a == Admit(l, x) then Some(Ids(init)) else ChildOf(init, l, x))
      && LastPacket(actions, l, x)
           == (if a.KnownPacket? && a.listener == l && a.addr == x then a.at
               else if a.Insert? && a.listener == l && Current(init, l) == Some(x) then a.at
               else LastPacket(init, l, x))
      && Present(actions, l, x)
           == (if a.Insert? && a.listener == l && Current(init, l) == Some(x) then true
               else if a == MakeRoom(l, x) then false
               else if a == SweepNext(l) && ToSweep(init, l) != [] && ToSweep(init, l)[0] == x then false
               else Present(init, l, x))
  {
    assert (init + [a])[..|init|] == init;
  }

  // ---------- A listener as its history says ----------

  /** The peers are those present, under their ids, with the times of their last packets. */
  ghost predicate TableIs(actions: seq<Action>, l: Id, u: Udps) {
    && (forall x :: x in u.peers <==> Present(actions, l, x))
    && (forall x :: x in u.peers ==>
          ChildOf(actions, l, x) == Some(u.peers[x].child) && LastPacket(actions, l, x) == u.peers[x].lastSeen)
  }

  /** An idle sweep goes for the silent peers, a shutdown for all. */
  ghost predicate SweepIs(actions: seq<Action>, l: Id, u: Udps, todo: seq<Addr>, reason: RemovalReason) {
    && ToSweep(actions, l) == todo && SweepReason(actions, l) == reason
    && (reason == Idle ==> forall x :: x in todo ==> Silent(actions, l, x, u.idle))
    && (reason == Idle ==> forall x :: x in u.peers && Silent(actions, l, x, u.idle) ==> x in todo)
    && (reason == ListenerShutdown ==> forall x :: x in u.peers ==> x in todo)
  }

  ghost predicate Admitting(actions: seq<Action>, l: Id, addr: Addr, child: Id) {
    Current(actions, l) == Some(addr) && ChildOf(actions, l, addr) == Some(child)
  }

  /** The victim of an eviction is an address heard no later than any peer that stays. */
  ghost predicate EvictionIs(actions: seq<Action>, l: Id, u: Udps, victim: Id) {
    && Evicted(actions, l).Some?
    && ChildOf(actions, l, Evicted(actions, l).value) == Some(victim)
    && forall x :: x in u.peers ==> LastPacket(actions, l, Evicted(actions, l).value) <= LastPacket(actions, l, x)
  }

  ghost predicate SweptIs(actions: seq<Action>, l: Id, u: Udps, victim: Id, reason: RemovalReason) {
    && Swept(actions, l).Some?
    && ChildOf(actions, l, Swept(actions, l).value) == Some(victim)
    && (reason == Idle ==> Silent(actions, l, Swept(actions, l).value, u.idle))
  }

  ghost predicate PcIs(actions: seq<Action>, l: Id, u: Udps) {
    match u.pc
    case Waiting => true
    case Allocated(addr, child) => Admitting(actions, l, addr, child)
    case Announced(addr, child) => Admitting(actions, l, addr, child)
    case Evicting(addr, child, victim) => Admitting(actions, l, addr, child) && EvictionIs(actions, l, u, victim)
    case Inserting(addr, child) => Admitting(actions, l, addr, child)
    case Forwarding(addr) => Current(actions, l) == Some(addr)
    case Sweeping(todo, reason) => SweepIs(actions, l, u, todo, reason)
    case SweepSending(victim, todo, reason) =>
      SweepIs(actions, l, u, todo, reason) && SweptIs(actions, l, u, victim, reason)
    case Stopped => u.peers == map[]
  }

  ghost predicate ListenerIs(actions: seq<Action>, l: Id, u: Udps) {
    && PurposeOf(actions, l) == Some(NewUdps(u.capacity, u.idle, u.routable))
    && TableIs(actions, l, u)
    && PcIs(actions, l, u)
  }

  // ---------- Steps that leave a listener alone ----------

  /** Two histories say the same of the addresses of a listener. */
  ghost predicate SameAddrs(init: seq<Action>, actions: seq<Action>, l: Id) {
    && (forall x :: ChildOf(actions, l, x) == ChildOf(init, l, x))
    && (forall x :: LastPacket(actions, l, x) == LastPacket(init, l, x))
    && (forall x :: Present(actions, l, x) == Present(init, l, x))
  }

  /** And of its progress. */
  ghost predicate SameProgress(init: seq<Action>, actions: seq<Action>, l: Id) {
    && Current(actions, l) == Current(init, l) && Evicted(actions, l) == Evicted(init, l)
    && ToSweep(actions, l) == ToSweep(init, l) && Swept(actions, l) == Swept(init, l)
    && SweepReason(actions, l) == SweepReason(init, l) && LastTick(actions, l) == LastTick(init, l)
  }

  /** A step that only moves a listener on. */
  predicate MovesOnly(a: Action) {
    a.AnnouncePeer? || a.HasRoom? || a.SendEvicted? || a.Deliver? || a.Finish? || a.SendSwept?
  }

  predicate Passive(a: Action, l: Id) {
    !Concerns(a, l) || MovesOnly(a)
  }

  lemma PassiveKeeps(init: seq<Action>, a: Action, l: Id)
    requires Passive(a, l)
    ensures SameAddrs(init, init + [a], l) && SameProgress(init, init + [a], l)
    ensures l < Ids(init) ==> PurposeOf(init + [a], l) == PurposeOf(init, l)
  {
    hide ChildOf, LastPacket, Present, PurposeOf, Current, Evicted, ToSweep, Swept, SweepReason, LastTick, Ids;
    ViewSnoc(init, a, l);
    forall x
      ensures ChildOf(init + [a], l, x) == ChildOf(init, l, x)
      ensures LastPacket(init + [a], l, x) == LastPacket(init, l, x)
      ensures Present(init + [a], l, x) == Present(init, l, x)
    {
      AddrSnoc(init, a, l, x);
    }
  }

  lemma SameTable(init: seq<Action>, actions: seq<Action>, l: Id, u: Udps)
    requires TableIs(init, l, u) && SameAddrs(init, actions, l)
    ensures TableIs(actions, l, u)
  {
    hide ChildOf, LastPacket, Present;
  }

  lemma SameSweep(init: seq<Action>, actions: seq<Action>, l: Id, u: Udps, todo: seq<Addr>, reason: RemovalReason)
    requires SweepIs(init, l, u, todo, reason) && SameAddrs(init, actions, l) && SameProgress(init, actions, l)
    ensures SweepIs(actions, l, u, todo, reason)
  {
    hide ChildOf, LastPacket, Present, Current, Evicted, ToSweep, Swept, SweepReason, LastTick;
  }

  lemma SamePc(init: seq<Action>, actions: seq<Action>, l: Id, u: Udps)
    requires PcIs(init, l, u) && SameAddrs(init, actions, l) && SameProgress(init, actions, l)
    ensures PcIs(actions, l, u)
  {
    hide ChildOf, LastPacket, Present, Current, Evicted, ToSweep, Swept, SweepReason, LastTick, SweepIs;
    match u.pc {
      case Sweeping(todo, reason) => SameSweep(init, actions, l, u, todo, reason);
      case SweepSending(_, todo, reason) => SameSweep(init, actions, l, u, todo, reason);
      case _ =>
    }
  }

  lemma SameListener(init: seq<Action>, a: Action, l: Id, u: Udps)
    requires ListenerIs(init, l, u) && l < Ids(init) && Passive(a, l)
    ensures ListenerIs(init + [a], l, u)
  {
    hide PurposeOf, TableIs, PcIs, SameAddrs, SameProgress, Passive, Ids;
    PassiveKeeps(init, a, l);
    SameTable(init, init + [a], l, u);
    SamePc(init, init + [a], l, u);
  }

  // ---------- Steps of a listener ----------

  /** Where a listener gets by a step that leaves its peers alone. */
  predicate MovesOn(u: Udps, pc: Pc) {
    match u.pc
    case Allocated(addr, child) => pc == Announced(addr, child)
    case Announced(addr, child) => pc == Inserting(addr, child)
    case Evicting(addr, child, _) => pc == Inserting(addr, child)
    case Forwarding(addr) => pc == Forwarding(addr) || pc == Waiting
    case Sweeping(todo, reason) => todo == [] && pc == if reason == ListenerShutdown then Stopped else Waiting
    case SweepSending(_, todo, reason) => pc == Sweeping(todo, reason)
    case _ => false
  }

  lemma MovedPc(init: seq<Action>, l: Id, u: Udps, pc: Pc)
    requires PcIs(init, l, u) && MovesOn(u, pc)
    ensures PcIs(init, l, u.(pc := pc))
  {
    hide ChildOf, LastPacket, Present, Current, Evicted, ToSweep, Swept, SweepReason, LastTick;
    if pc.Stopped? {
      assert u.peers.Keys == {};
    }
  }

  lemma PassiveStep(init: seq<Action>, a: Action, l: Id, u: Udps, pc: Pc)
    requires ListenerIs(init, l, u) && l < Ids(init) && Passive(a, l) && MovesOn(u, pc)
    ensures ListenerIs(init + [a], l, u.(pc := pc))
  {
    hide PurposeOf, PcIs, Passive, Ids, ChildOf, LastPacket, Present, MovesOn;
    MovedPc(init, l, u, pc);
    SameListener(init, a, l, u.(pc := pc));
  }

  lemma KnownPacketIs(init: seq<Action>, l: Id, u: Udps, addr: Addr, at: nat)
    requires ListenerIs(init, l, u) && addr in u.peers
    ensures ListenerIs(init + [KnownPacket(l, addr, at)], l,
                       u.(peers := u.peers[addr := u.peers[addr].(lastSeen := at)], pc := Forwarding(addr)))
  {
    hide ChildOf, LastPacket, Present, PurposeOf, Current, Evicted, ToSweep, Swept, SweepReason, LastTick, Ids;
    var a := KnownPacket(l, addr, at);
    ViewSnoc(init, a, l);
    forall x
      ensures ChildOf(init + [a], l, x) == ChildOf(init, l, x)
      ensures LastPacket(init + [a], l, x) == if x == addr then at else LastPacket(init, l, x)
      ensures Present(init + [a], l, x) == Present(init, l, x)
    {
      AddrSnoc(init, a, l, x);
    }
  }

  lemma AdmitIs(init: seq<Action>, l: Id, u: Udps, addr: Addr)
    requires ListenerIs(init, l, u) && addr !in u.peers
    ensures ListenerIs(init + [Admit(l, addr)], l, u.(pc := Allocated(addr, Ids(init))))
  {
    hide ChildOf, LastPacket, Present, PurposeOf, Current, Evicted, ToSweep, Swept, SweepReason, LastTick, Ids;
    var a := Admit(l, addr);
    ViewSnoc(init, a, l);
    forall x
      ensures ChildOf(init + [a], l, x) == if x == addr then Some(Ids(init)) else ChildOf(init, l, x)
      ensures LastPacket(init + [a], l, x) == LastPacket(init, l, x)
      ensures Present(init + [a], l, x) == Present(init, l, x)
    {
      AddrSnoc(init, a, l, x);
    }
  }

  lemma MakeRoomIs(init: seq<Action>, l: Id, u: Udps, v: Addr)
    requires ListenerIs(init, l, u) && u.pc.Announced? && v in u.peers
    requires forall x :: x in u.peers ==> u.peers[v].lastSeen <= u.peers[x].lastSeen
    ensures ListenerIs(init + [MakeRoom(l, v)], l,
                       u.(peers := u.peers - {v}, pc := Evicting(u.pc.addr, u.pc.child, u.peers[v].child)))
  {
    hide ChildOf, LastPacket, Present, PurposeOf, Current, Evicted, ToSweep, Swept, SweepReason, LastTick, Ids;
    var a := MakeRoom(l, v);
    ViewSnoc(init, a, l);
    forall x
      ensures ChildOf(init + [a], l, x) == ChildOf(init, l, x)
      ensures LastPacket(init + [a], l, x) == LastPacket(init, l, x)
      ensures Present(init + [a], l, x) == (x != v && Present(init, l, x))
    {
      AddrSnoc(init, a, l, x);
    }
  }

  lemma InsertIs(init: seq<Action>, l: Id, u: Udps, at: nat)
    requires ListenerIs(init, l, u) && u.pc.Inserting?
    ensures ListenerIs(init + [Insert(l, at)], l,
                       u.(peers := u.peers[u.pc.addr := Peer(u.pc.child, at)], pc := Forwarding(u.pc.addr)))
  {
    hide ChildOf, LastPacket, Present, PurposeOf, Current, Evicted, ToSweep, Swept, SweepReason, LastTick, Ids;
    var a := Insert(l, at);
    ViewSnoc(init, a, l);
    forall x
      ensures ChildOf(init + [a], l, x) == ChildOf(init, l, x)
      ensures LastPacket(init + [a], l, x) == if x == u.pc.addr then at else LastPacket(init, l, x)
      ensures Present(init + [a], l, x) == (x == u.pc.addr || Present(init, l, x))
    {
      AddrSnoc(init, a, l, x);
    }
  }

  lemma ReapTickIs(init: seq<Action>, l: Id, u: Udps, expired: seq<Addr>, at: nat)
    requires ListenerIs(init, l, u)
    requires forall x :: x in expired <==> x in u.peers && u.peers[x].lastSeen + u.idle <= at
    ensures ListenerIs(init + [ReapTick(l, expired, at)], l, u.(pc := Sweeping(expired, Idle)))
  {
    hide ChildOf, LastPacket, Present, PurposeOf, Current, Evicted, ToSweep, Swept, SweepReason, LastTick, Ids;
    var a := ReapTick(l, expired, at);
    ViewSnoc(init, a, l);
    forall x
      ensures ChildOf(init + [a], l, x) == ChildOf(init, l, x)
      ensures LastPacket(init + [a], l, x) == LastPacket(init, l, x)
      ensures Present(init + [a], l, x) == Present(init, l, x)
    {
      AddrSnoc(init, a, l, x);
    }
  }

  lemma ShutdownIs(init: seq<Action>, l: Id, u: Udps, all: seq<Addr>)
    requires ListenerIs(init, l, u) && forall x :: x in all <==> x in u.peers
    ensures ListenerIs(init + [Shutdown(l, all)], l, u.(pc := Sweeping(all, ListenerShutdown)))
  {
    hide ChildOf, LastPacket, Present, PurposeOf, Current, Evicted, ToSweep, Swept, SweepReason, LastTick, Ids;
    var a := Shutdown(l, all);
    ViewSnoc(init, a, l);
    forall x
      ensures ChildOf(init + [a], l, x) == ChildOf(init, l, x)
      ensures LastPacket(init + [a], l, x) == LastPacket(init, l, x)
      ensures Present(init + [a], l, x) == Present(init, l, x)
    {
      AddrSnoc(init, a, l, x);
    }
  }

  lemma SweepNextIs(init: seq<Action>, l: Id, u: Udps)
    requires ListenerIs(init, l, u) && u.pc.Sweeping? && u.pc.todo != []
    ensures
      var x, rest := u.pc.todo[0], u.pc.todo[1..];
      ListenerIs(init + [SweepNext(l)], l,
                 if x in u.peers
                 then u.(peers := u.peers - {x}, pc := SweepSending(u.peers[x].child, rest, u.pc.reason))
                 else u.(pc := Sweeping(rest, u.pc.reason)))
  {
    hide ChildOf, LastPacket, Present, PurposeOf, Current, Evicted, ToSweep, Swept, SweepReason, LastTick, Ids;
    var a := SweepNext(l);
    var y, rest := u.pc.todo[0], u.pc.todo[1..];
    assert forall x :: x in u.pc.todo <==> x == y || x in rest;
    ViewSnoc(init, a, l);
    forall x
      ensures ChildOf(init + [a], l, x) == ChildOf(init, l, x)
      ensures LastPacket(init + [a], l, x) == LastPacket(init, l, x)
      ensures Present(init + [a], l, x) == (x != y && Present(init, l, x))
    {
      AddrSnoc(init, a, l, x);
    }
  }

  // ---------- The system as its history says ----------

  ghost predicate UdpsAre(actions: seq<Action>, s: Sys) {
    && (forall l :: l in s.udps ==> l < Ids(actions) && ListenerIs(actions, l, s.udps[l]))
    && (forall l, x :: Present(actions, l, x) ==> l in s.udps)
  }

  /** Ids are numbered as allocated, and remembered with what they were allocated for. */
  ghost predicate TasksAre(actions: seq<Action>, s: Sys) {
    && s.nextId == Ids(actions)
    && (forall id :: id in s.pending ==> PurposeOf(actions, id) == Some(s.pending[id]))
    && (forall id :: id in s.sessions ==> s.sessions[id].parent == ParentOf(PurposeOf(actions, id)))
    && (forall id :: id in s.sessions ==> id < Ids(actions))
  }

  lemma {:induction false} PurposeBelow(actions: seq<Action>, id: Id)
    requires PurposeOf(actions, id).Some?
    ensures id < Ids(actions)
  {
    var init := actions[..|actions| - 1];
    if PurposeOf(init, id).Some? {
      PurposeBelow(init, id);
    }
  }

  lemma PurposeKept(init: seq<Action>, a: Action, id: Id)
    requires id < Ids(init)
    ensures PurposeOf(init + [a], id) == PurposeOf(init, id)
  {
    hide PurposeOf, Ids;
    ViewSnoc(init, a, id);
  }

  // What a step does to a listener.

  lemma PassiveMoves(hash: Bytes -> Hash, s: Sys, a: Action, l: Id)
    requires Enabled(s, a) && Concerns(a, l) && MovesOnly(a)
    ensures l in s.udps && l in Do(hash, s, a).udps
    ensures
      var u, u' := s.udps[l], Do(hash, s, a).udps[l];
      u' == u.(pc := u'.pc) && MovesOn(u, u'.pc)
  {
    hide OnEvent, OnFrame, Started, Announcement;
  }

  lemma ListenerStep(hash: Bytes -> Hash, s: Sys, init: seq<Action>, a: Action, l: Id)
    requires Enabled(s, a) && Concerns(a, l) && s.nextId == Ids(init)
    requires l in s.udps && l < Ids(init) && ListenerIs(init, l, s.udps[l])
    ensures l in Do(hash, s, a).udps && ListenerIs(init + [a], l, Do(hash, s, a).udps[l])
  {
    hide ListenerIs, Ids, OnEvent, OnFrame, Started, Announcement;
    var u := s.udps[l];
    if MovesOnly(a) {
      PassiveMoves(hash, s, a, l);
      PassiveStep(init, a, l, u, Do(hash, s, a).udps[l].pc);
    } else {
      match a {
        case KnownPacket(_, addr, at) => KnownPacketIs(init, l, u, addr, at);
        case Admit(_, addr) => AdmitIs(init, l, u, addr);
        case MakeRoom(_, v) => MakeRoomIs(init, l, u, v);
        case Insert(_, at) => InsertIs(init, l, u, at);
        case ReapTick(_, expired, at) => ReapTickIs(init, l, u, expired, at);
        case Shutdown(_, all) => ShutdownIs(init, l, u, all);
        case SweepNext(_) => SweepNextIs(init, l, u);
        case _ =>
      }
    }
  }

  lemma OtherListeners(hash: Bytes -> Hash, s: Sys, a: Action, l: Id)
    requires Enabled(s, a) && !Concerns(a, l) && !(a.AnnounceId? && a.id == l)
    ensures l in Do(hash, s, a).udps <==> l in s.udps
    ensures l in s.udps ==> Do(hash, s, a).udps[l] == s.udps[l]
  {
    if OfTasks(a) {
      TasksLeaveListeners(hash, s, a, l);
    } else {
      ListenersLeaveOthers(hash, s, a, l);
    }
  }

  predicate OfTasks(a: Action) {
    a.Allocate? || a.AnnounceId? || a.Begin? || a.Forward? || a.End? || a.Retire? || a.RouterEvent? || a.RouterFrame?
  }

  lemma TasksLeaveListeners(hash: Bytes -> Hash, s: Sys, a: Action, l: Id)
    requires Enabled(s, a) && OfTasks(a) && !(a.AnnounceId? && a.id == l)
    ensures l in Do(hash, s, a).udps <==> l in s.udps
    ensures l in s.udps ==> Do(hash, s, a).udps[l] == s.udps[l]
  {
    hide OnEvent, OnFrame, Announcement, Started;
    if a.AnnounceId? {
      StartedElsewhere(Announce(s, Announcement(a.id, s.pending[a.id])), a.id, s.pending[a.id], l);
    }
  }

  lemma StartedElsewhere(s: Sys, id: Id, p: Pending, l: Id)
    requires l != id
    ensures l in Started(s, id, p).udps <==> l in s.udps
    ensures l in s.udps ==> Started(s, id, p).udps[l] == s.udps[l]
  {}

  lemma ListenersLeaveOthers(hash: Bytes -> Hash, s: Sys, a: Action, l: Id)
    requires Enabled(s, a) && !OfTasks(a) && a.listener != l
    ensures l in Do(hash, s, a).udps <==> l in s.udps
    ensures l in s.udps ==> Do(hash, s, a).udps[l] == s.udps[l]
  {
    hide OnEvent, OnFrame, Announcement, Started;
  }

  /** A listener starts with no peers and what it was allocated for. */
  lemma NewListenerIs(hash: Bytes -> Hash, s: Sys, init: seq<Action>, id: Id)
    requires Enabled(s, AnnounceId(id)) && id !in s.udps
    requires UdpsAre(init, s) && TasksAre(init, s)
    requires id in Do(hash, s, AnnounceId(id)).udps
    ensures id < Ids(init) && ListenerIs(init + [AnnounceId(id)], id, Do(hash, s, AnnounceId(id)).udps[id])
  {
    hide ChildOf, LastPacket, Present, PurposeOf, Ids, ListenerIs, Announcement, OnEvent, OnFrame;
    PurposeBelow(init, id);
    var u := Do(hash, s, AnnounceId(id)).udps[id];
    assert PurposeOf(init, id) == Some(NewUdps(u.capacity, u.idle, u.routable)) && u.peers == map[] && u.pc == Waiting;
    FreshListener(init, id, u);
    SameListener(init, AnnounceId(id), id, u);
  }

  lemma FreshListener(init: seq<Action>, id: Id, u: Udps)
    requires PurposeOf(init, id) == Some(NewUdps(u.capacity, u.idle, u.routable)) && u.peers == map[] && u.pc == Waiting
    requires forall x :: !Present(init, id, x)
    ensures ListenerIs(init, id, u)
  {
    hide PurposeOf, Present;
  }

  lemma ListenersStep(hash: Bytes -> Hash, s: Sys, init: seq<Action>, a: Action)
    requires Ok(s) && Enabled(s, a) && UdpsAre(init, s) && TasksAre(init, s)
    ensures forall l :: l in Do(hash, s, a).udps ==>
              l < Ids(init + [a]) && ListenerIs(init + [a], l, Do(hash, s, a).udps[l])
  {
    hide Ok, Do, Enabled, ListenerIs, Ids, PurposeOf, Present, Concerns;
    ViewSnoc(init, a, 0);
    forall l | l in Do(hash, s, a).udps
      ensures l < Ids(init + [a]) && ListenerIs(init + [a], l, Do(hash, s, a).udps[l])
    {
      if Concerns(a, l) {
        assert l in s.udps by { ConcernedIsThere(s, a, l); }
        ListenerStep(hash, s, init, a, l);
      } else if a.AnnounceId? && a.id == l {
        assert l !in s.udps by { PendingIsNew(s, l); }
        NewListenerIs(hash, s, init, l);
      } else {
        OtherListeners(hash, s, a, l);
        assert Passive(a, l) by { OthersArePassive(a, l); }
        SameListener(init, a, l, s.udps[l]);
      }
    }
  }

  lemma ConcernedIsThere(s: Sys, a: Action, l: Id)
    requires Enabled(s, a) && Concerns(a, l)
    ensures l in s.udps
  {}

  lemma OthersArePassive(a: Action, l: Id)
    requires !Concerns(a, l)
    ensures Passive(a, l)
  {}

  lemma PendingIsNew(s: Sys, id: Id)
    requires Ok(s) && Enabled(s, AnnounceId(id))
    ensures id !in s.udps
  {
    hide Core, Mentioned;
    UnmentionedIsFree(s, id);
  }

  lemma PresentStep(hash: Bytes -> Hash, s: Sys, init: seq<Action>, a: Action)
    requires Enabled(s, a) && UdpsAre(init, s)
    ensures forall l, x :: Present(init + [a], l, x) ==> l in Do(hash, s, a).udps
  {
    hide Do, Enabled, ListenerIs, Ids, Present, Current, ToSweep;
    forall l, x | Present(init + [a], l, x)
      ensures l in Do(hash, s, a).udps
    {
      AddrSnoc(init, a, l, x);
      assert l in s.udps by {
        if a.Insert? && a.listener == l {
          ConcernedIsThere(s, a, l);
        }
      }
      ListenersStay(hash, s, a, l);
    }
  }

  lemma ListenersStay(hash: Bytes -> Hash, s: Sys, a: Action, l: Id)
    requires Enabled(s, a) && l in s.udps
    ensures l in Do(hash, s, a).udps
  {
    hide OnEvent, OnFrame, Announcement, Started;
    if a.AnnounceId? {
      StartedKeeps(Announce(s, Announcement(a.id, s.pending[a.id])), a.id, s.pending[a.id], l);
    }
  }

  lemma StartedKeeps(s: Sys, id: Id, p: Pending, l: Id)
    requires l in s.udps
    ensures l in Started(s, id, p).udps
  {}

  // What a step does to ids and sessions.

  lemma RouterLeavesTasks(hash: Bytes -> Hash, s: Sys, a: Action)
    requires Enabled(s, a) && (a.Forward? || a.RouterEvent? || a.RouterFrame?)
    ensures
      var s' := Do(hash, s, a);
      s'.nextId == s.nextId && s'.pending == s.pending && s'.sessions == s.sessions
  {
    hide OnEvent, OnFrame, Announcement, Started;
  }

  lemma ListenersLeaveTasks(hash: Bytes -> Hash, s: Sys, a: Action)
    requires Enabled(s, a) && !OfTasks(a)
    ensures
      var s' := Do(hash, s, a);
      && s'.nextId == s.nextId + (if a.Admit? then 1 else 0)
      && s'.pending == s.pending && s'.sessions == s.sessions
  {
    hide OnEvent, OnFrame, Announcement, Started;
  }

  lemma TasksMove(hash: Bytes -> Hash, s: Sys, a: Action)
    requires Enabled(s, a) && (a.Allocate? || a.Begin? || a.End? || a.Retire?)
    ensures
      var s' := Do(hash, s, a);
      && s'.nextId == s.nextId + (if a.Allocate? then 1 else 0)
      && s'.pending == (if a.Allocate? then s.pending[s.nextId := a.purpose] else s.pending)
      && (forall id :: id in s'.sessions ==> id in s.sessions && s'.sessions[id].parent == s.sessions[id].parent)
  {
    hide OnEvent, OnFrame, Announcement, Started;
  }

  lemma AnnouncedTask(hash: Bytes -> Hash, s: Sys, id: Id)
    requires Enabled(s, AnnounceId(id))
    ensures
      var s' := Do(hash, s, AnnounceId(id));
      && s'.nextId == s.nextId && s'.pending == s.pending - {id}
      && (forall x :: x in s'.sessions ==>
            if x == id && (s.pending[id].NewLeaf? || s.pending[id].NewClient?)
            then s'.sessions[x].parent == ParentOf(Some(s.pending[id]))
            else x in s.sessions && s'.sessions[x] == s.sessions[x])
  {
    hide OnEvent, OnFrame, Announcement;
  }

  lemma TasksStep(hash: Bytes -> Hash, s: Sys, init: seq<Action>, a: Action)
    requires Enabled(s, a) && TasksAre(init, s)
    ensures TasksAre(init + [a], Do(hash, s, a))
  {
    hide Do, Enabled, PurposeOf, Ids, ParentOf;
    var s' := Do(hash, s, a);
    ViewSnoc(init, a, Ids(init));
    forall id: Id | id < Ids(init)
      ensures PurposeOf(init + [a], id) == PurposeOf(init, id)
    {
      PurposeKept(init, a, id);
    }
    forall id | id in s.pending
      ensures id < Ids(init)
    {
      PurposeBelow(init, id);
    }
    if a.AnnounceId? {
      assert a.id in s.pending by { AnnouncedIsPending(s, a.id); }
      AnnouncedTask(hash, s, a.id);
    } else if a.Allocate? || a.Begin? || a.End? || a.Retire? {
      TasksMove(hash, s, a);
    } else if a.Forward? || a.RouterEvent? || a.RouterFrame? {
      RouterLeavesTasks(hash, s, a);
    } else {
      ListenersLeaveTasks(hash, s, a);
    }
  }

  lemma AnnouncedIsPending(s: Sys, id: Id)
    requires Enabled(s, AnnounceId(id))
    ensures id in s.pending
  {}

  // ---------- What has been sent ----------

  ghost function TakenEvents(log: seq<Input>): seq<Event> {
    if log == [] then []
    else
      var last := log[|log| - 1];
      TakenEvents(log[..|log| - 1]) + if last.Lifecycle? then [last.event] else []
  }

  ghost function TakenFrames(log: seq<Input>): seq<QueuedFrame> {
    if log == [] then []
    else
      var last := log[|log| - 1];
      TakenFrames(log[..|log| - 1]) +
      if last.Inbound? then [QueuedFrame(last.src, last.frame, last.header)] else []
  }

  lemma TakenSnoc(log: seq<Input>, input: Input)
    ensures TakenEvents(log + [input]) == TakenEvents(log) + if input.Lifecycle? then [input.event] else []
    ensures TakenFrames(log + [input])
         == TakenFrames(log) + if input.Inbound? then [QueuedFrame(input.src, input.frame, input.header)] else []
  {
    assert (log + [input])[..|log|] == log;
  }

  /** Everything sent, whether or not the router has taken it. */
  ghost function SentFrames(s: Sys): seq<QueuedFrame> {
    TakenFrames(s.log) + s.frames
  }

  lemma ListenerSends(hash: Bytes -> Hash, s: Sys, init: seq<Action>, a: Action, l: Id)
    requires Enabled(s, a) && (a.AnnouncePeer? || a.SendEvicted? || a.SendSwept?) && a.listener == l
    requires l in s.udps && ListenerIs(init, l, s.udps[l])
    ensures Do(hash, s, a).events == s.events + EventOf(init, a)
  {
    hide ChildOf, LastPacket, Present, PurposeOf, Current, Evicted, ToSweep, Swept, SweepReason, LastTick, Ids,
         TableIs, OnEvent, OnFrame, Started, Announcement;
  }

  lemma TaskSends(hash: Bytes -> Hash, s: Sys, init: seq<Action>, a: Action)
    requires Enabled(s, a) && (a.AnnounceId? || a.Retire?) && TasksAre(init, s)
    ensures Do(hash, s, a).events == s.events + EventOf(init, a)
  {
    hide PurposeOf, Ids, OnEvent, OnFrame;
  }

  lemma NothingSent(hash: Bytes -> Hash, s: Sys, init: seq<Action>, a: Action)
    requires Enabled(s, a) && !a.RouterEvent?
    requires !(a.AnnounceId? || a.Retire? || a.AnnouncePeer? || a.SendEvicted? || a.SendSwept?)
    ensures Do(hash, s, a).events == s.events && EventOf(init, a) == []
  {
    hide OnEvent, OnFrame;
  }

  lemma EventsStep(hash: Bytes -> Hash, s: Sys, init: seq<Action>, a: Action)
    requires Enabled(s, a) && UdpsAre(init, s) && TasksAre(init, s) && Sent(s) == EventsOf(init)
    ensures Sent(Do(hash, s, a)) == EventsOf(init + [a])
  {
    hide Do, Enabled, ListenerIs, PurposeOf, Ids, Present, EventOf;
    var s' := Do(hash, s, a);
    assert (init + [a])[..|init|] == init;
    if a.RouterEvent? {
      assert s.events != [] by { EventEnabled(s); }
      QuietEvent(hash, s);
      assert EventOf(init, a) == [] by { RouterSendsNothing(init, a); }
    } else if a.RouterFrame? {
      QuietElsewhere(hash, s, a);
      assert EventOf(init, a) == [] by { RouterSendsNothing(init, a); }
    } else {
      TasksLeaveRouter(hash, s, a);
      if a.AnnounceId? || a.Retire? {
        TaskSends(hash, s, init, a);
      } else if a.AnnouncePeer? || a.SendEvicted? || a.SendSwept? {
        assert a.listener in s.udps by { SenderIsThere(s, a); }
        ListenerSends(hash, s, init, a, a.listener);
      } else {
        NothingSent(hash, s, init, a);
      }
      assert s.handled + (s.events + EventOf(init, a)) == s.handled + s.events + EventOf(init, a);
    }
  }

  lemma RouterSendsNothing(init: seq<Action>, a: Action)
    requires a.RouterEvent? || a.RouterFrame?
    ensures EventOf(init, a) == []
  {}

  lemma SenderIsThere(s: Sys, a: Action)
    requires Enabled(s, a) && (a.AnnouncePeer? || a.SendEvicted? || a.SendSwept? || a.Deliver?)
    ensures a.listener in s.udps
  {}

  lemma NothingForwarded(hash: Bytes -> Hash, s: Sys, init: seq<Action>, a: Action)
    requires Enabled(s, a) && !a.Forward? && !a.Deliver? && !a.RouterEvent? && !a.RouterFrame?
    ensures Do(hash, s, a).frames == s.frames && FrameOf(init, a) == []
  {
    hide OnEvent, OnFrame, Announcement, Started;
    if a.AnnounceId? {
      StartedForwardsNothing(Announce(s, Announcement(a.id, s.pending[a.id])), a.id, s.pending[a.id]);
    }
  }

  lemma StartedForwardsNothing(s: Sys, id: Id, p: Pending)
    ensures Started(s, id, p).frames == s.frames
  {}

  lemma FrameForwarded(hash: Bytes -> Hash, s: Sys, init: seq<Action>, a: Action)
    requires Enabled(s, a) && (a.Forward? || a.Deliver?) && UdpsAre(init, s)
    ensures Do(hash, s, a).frames == s.frames + FrameOf(init, a)
  {
    hide ChildOf, LastPacket, Present, PurposeOf, Current, Evicted, ToSweep, Swept, SweepReason, LastTick, Ids,
         OnEvent, OnFrame, Started, Announcement, SweepIs, SweptIs, EvictionIs;
    if a.Deliver? {
      var u := s.udps[a.listener];
      assert ListenerIs(init, a.listener, u);
    }
  }

  lemma RouterTakesEvent(hash: Bytes -> Hash, s: Sys)
    requires s.events != [] && TakenEvents(s.log) == s.handled
    ensures
      var s' := Do(hash, s, RouterEvent);
      SentFrames(s') == SentFrames(s) && TakenEvents(s'.log) == s'.handled
  {
    hide OnEvent, OnFrame, TakenEvents, TakenFrames;
    TakenSnoc(s.log, Lifecycle(s.events[0]));
  }

  lemma RouterTakesFrame(hash: Bytes -> Hash, s: Sys, now: nat)
    requires Enabled(s, RouterFrame(now)) && TakenEvents(s.log) == s.handled
    ensures
      var s' := Do(hash, s, RouterFrame(now));
      SentFrames(s') == SentFrames(s) && TakenEvents(s'.log) == s'.handled
  {
    hide OnEvent, OnFrame, TakenEvents, TakenFrames;
    var f := s.frames[0];
    TakenSnoc(s.log, Inbound(f.src, f.frame, f.header, now));
    assert s.frames == [f] + s.frames[1..];
  }

  lemma FramesStep(hash: Bytes -> Hash, s: Sys, init: seq<Action>, a: Action)
    requires Enabled(s, a) && UdpsAre(init, s)
    requires SentFrames(s) == FramesOf(init) && TakenEvents(s.log) == s.handled
    ensures SentFrames(Do(hash, s, a)) == FramesOf(init + [a])
    ensures TakenEvents(Do(hash, s, a).log) == Do(hash, s, a).handled
  {
    hide Do, Enabled, UdpsAre, FrameOf, TakenEvents, TakenFrames;
    assert (init + [a])[..|init|] == init;
    if a.RouterEvent? {
      assert s.events != [] by { EventEnabled(s); }
      RouterTakesEvent(hash, s);
      assert FrameOf(init, a) == [] by { RouterForwardsNothing(init, a); }
    } else if a.RouterFrame? {
      RouterTakesFrame(hash, s, a.now);
      assert FrameOf(init, a) == [] by { RouterForwardsNothing(init, a); }
    } else {
      TasksLeaveRouter(hash, s, a);
      if a.Forward? || a.Deliver? {
        FrameForwarded(hash, s, init, a);
      } else {
        NothingForwarded(hash, s, init, a);
      }
      assert TakenFrames(s.log) + (s.frames + FrameOf(init, a)) == SentFrames(s) + FrameOf(init, a);
    }
  }

  lemma RouterForwardsNothing(init: seq<Action>, a: Action)
    requires a.RouterEvent? || a.RouterFrame?
    ensures FrameOf(init, a) == []
  {}

  // ---------- Every run ----------

  ghost predicate ByHistory(actions: seq<Action>, s: Sys) {
    && UdpsAre(actions, s) && TasksAre(actions, s)
    && Sent(s) == EventsOf(actions)
    && SentFrames(s) == FramesOf(actions) && TakenEvents(s.log) == s.handled
  }

  lemma StartIs(dedupTtl: nat, dedupCapacity: nat)
    ensures ByHistory([], Start(dedupTtl, dedupCapacity))
  {}

  lemma StepIs(hash: Bytes -> Hash, s: Sys, init: seq<Action>, a: Action)
    requires Ok(s) && Enabled(s, a) && ByHistory(init, s)
    ensures ByHistory(init + [a], Do(hash, s, a))
  {
    hide Ok, Do, Enabled, ListenerIs, Present, TasksAre, Sent, SentFrames, EventsOf, FramesOf, TakenEvents, Ids;
    ListenersStep(hash, s, init, a);
    PresentStep(hash, s, init, a);
    TasksStep(hash, s, init, a);
    EventsStep(hash, s, init, a);
    FramesStep(hash, s, init, a);
  }

  lemma {:induction false} RunIs(hash: Bytes -> Hash, dedupTtl: nat, dedupCapacity: nat, actions: seq<Action>)
    requires IsRun(hash, Start(dedupTtl, dedupCapacity), actions)
    ensures ByHistory(actions, After(hash, Start(dedupTtl, dedupCapacity), actions))
  {
    hide Do, Enabled, ByHistory, Ok, IsRun, After;
    if actions == [] {
      NoSteps(hash, Start(dedupTtl, dedupCapacity));
      StartIs(dedupTtl, dedupCapacity);
    } else {
      var n := |actions| - 1;
      RunSnoc(hash, Start(dedupTtl, dedupCapacity), actions);
      RunIs(hash, dedupTtl, dedupCapacity, actions[..n]);
      ReachableOk(hash, dedupTtl, dedupCapacity, actions[..n]);
      StepIs(hash, After(hash, Start(dedupTtl, dedupCapacity), actions[..n]), actions[..n], actions[n]);
      assert actions == actions[..n] + [actions[n]];
    }
  }

  lemma NoSteps(hash: Bytes -> Hash, s: Sys)
    ensures IsRun(hash, s, []) && After(hash, s, []) == s
  {}

  /**
   What the router is fed, over every run: the events and the frames that the tasks have sent
   are exactly those their steps call for, and the router takes both in the order sent.
   */
  lemma RouterFed(hash: Bytes -> Hash, dedupTtl: nat, dedupCapacity: nat, actions: seq<Action>)
    requires IsRun(hash, Start(dedupTtl, dedupCapacity), actions)
    ensures
      var s := After(hash, Start(dedupTtl, dedupCapacity), actions);
      && TakenEvents(s.log) + s.events == EventsOf(actions)
      && TakenFrames(s.log) + s.frames == FramesOf(actions)
  {
    hide IsRun, After, UdpsAre, TasksAre, EventsOf, FramesOf, TakenEvents, TakenFrames;
    RunIs(hash, dedupTtl, dedupCapacity, actions);
  }
}
