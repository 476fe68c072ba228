/**
 No step of the protocol waits for ever (src/endpoint/udp/server.rs, src/router/mod.rs): in
 every reachable state each listener that has not stopped can go on, a waiting one takes up a
 packet of any address, a tick at any time and the shutdown, and the router takes what is
 queued.
 */
module ProtocolProgress {
  import opened Frame
  import opened Deduplication
  import opened Routing
  import opened Protocol
  import opened ProtocolHistory

  /** Some listing of a finite set. */
  lemma Listed<T>(xs: set<T>) returns (list: seq<T>)
    ensures forall x :: x in list <==> x in xs
    decreases xs
  {
    if xs == {} {
      list := [];
    } else {
      var x :| x in xs;
      var rest := Listed(xs - {x});
      list := [x] + rest;
    }
  }

  /** Some peer heard no later than any other. */
  lemma Stalest(peers: map<Addr, Peer>, among: set<Addr>) returns (v: Addr)
    requires among != {} && forall x :: x in among ==> x in peers
    ensures v in among && forall x :: x in among ==> peers[v].lastSeen <= peers[x].lastSeen
    decreases among
  {
    v :| v in among;
    if among != {v} {
      var w := Stalest(peers, among - {v});
      if peers[w].lastSeen < peers[v].lastSeen {
        v := w;
      }
    }
  }

  /** A waiting listener takes up whatever comes. */
  lemma WaitingTakes(s: Sys, l: Id, addr: Addr, at: nat) returns (expired: seq<Addr>, all: seq<Addr>)
    requires At(s, l, Waiting)
    ensures Enabled(s, KnownPacket(l, addr, at)) <==> addr in s.udps[l].peers
    ensures Enabled(s, Admit(l, addr)) <==> addr !in s.udps[l].peers
    ensures Enabled(s, ReapTick(l, expired, at)) && Enabled(s, Shutdown(l, all))
  {
    var u := s.udps[l];
    expired := Listed(set x | x in u.peers && u.peers[x].lastSeen + u.idle <= at);
    all := Listed(u.peers.Keys);
  }

  /** A listener that has announced a peer makes room, if it has to, and inserts it. */
  lemma AnnouncedGoesOn(s: Sys, l: Id) returns (a: Action)
    requires l in s.udps && s.udps[l].pc.Announced?
    ensures Enabled(s, a) && (a == HasRoom(l) || (a.MakeRoom? && a.listener == l))
  {
    var u := s.udps[l];
    if |u.peers| < u.capacity || u.peers == map[] {
      a := HasRoom(l);
    } else {
      assert u.peers.Keys != {};
      var v := Stalest(u.peers, u.peers.Keys);
      a := MakeRoom(l, v);
    }
  }

  /** Every other listener that has not stopped has its next step. */
  lemma BusyGoesOn(s: Sys, l: Id, at: nat)
    requires l in s.udps
    ensures s.udps[l].pc.Allocated? ==> Enabled(s, AnnouncePeer(l))
    ensures s.udps[l].pc.Evicting? ==> Enabled(s, SendEvicted(l))
    ensures s.udps[l].pc.Inserting? ==> Enabled(s, Insert(l, at))
    ensures s.udps[l].pc.Forwarding? ==> Enabled(s, Finish(l))
    ensures s.udps[l].pc.Sweeping? ==> Enabled(s, if s.udps[l].pc.todo == [] then Finish(l) else SweepNext(l))
    ensures s.udps[l].pc.SweepSending? ==> Enabled(s, SendSwept(l))
  {}

  /** A listener that has taken up a packet delivers every frame in it. */
  lemma PacketIsDelivered(s: Sys, l: Id, frame: Bytes, header: ParsedHeader)
    requires Ok(s) && l in s.udps && s.udps[l].pc.Forwarding?
    ensures Enabled(s, Deliver(l, frame, header))
  {
    hide Core, ReservedOk, DistinctPeers, ListenerOk;
    PartsOf(s, l);
  }

  /** The tasks of sessions and the router go on as well. */
  lemma OthersGoOn(s: Sys, id: Id, p: Pending, frame: Bytes, header: ParsedHeader, reason: RemovalReason, now: nat)
    ensures (p.NewClient? ==> p.listener in s.tcps) ==> Enabled(s, Allocate(p))
    ensures id in s.pending ==> Enabled(s, AnnounceId(id))
    ensures id in s.sessions && s.sessions[id].phase == Starting ==> Enabled(s, Begin(id))
    ensures id in s.sessions && s.sessions[id].phase == Live ==> Enabled(s, Forward(id, frame, header))
    ensures id in s.sessions && s.sessions[id].phase == Live && s.sessions[id].parent.Some? ==> Enabled(s, End(id))
    ensures id in s.sessions && s.sessions[id].phase == Ending && s.sessions[id].parent.Some? ==>
              Enabled(s, Retire(id, reason))
    ensures s.events != [] ==> Enabled(s, RouterEvent)
    ensures s.events == [] && s.frames != [] && s.clock <= now ==> Enabled(s, RouterFrame(now))
  {}

  /** In every state that a run can reach, a listener that has not stopped has a step to take. */
  lemma NeverStuck(
    hash: Bytes -> Hash, dedupTtl: nat, dedupCapacity: nat, actions: seq<Action>, l: Id, at: nat)
    returns (a: Action)
    requires IsRun(hash, Start(dedupTtl, dedupCapacity), actions)
    requires
      var s := After(hash, Start(dedupTtl, dedupCapacity), actions);
      l in s.udps && !s.udps[l].pc.Stopped?
    ensures Concerns(a, l) && IsRun(hash, Start(dedupTtl, dedupCapacity), actions + [a])
  {
    hide IsRun, After, Ok, Do;
    var s := After(hash, Start(dedupTtl, dedupCapacity), actions);
    ReachableOk(hash, dedupTtl, dedupCapacity, actions);
    BusyGoesOn(s, l, at);
    match s.udps[l].pc {
      case Waiting =>
        var expired, _ := WaitingTakes(s, l, 0, at);
        a := ReapTick(l, expired, at);
      case Allocated(_, _) => a := AnnouncePeer(l);
      case Announced(_, _) => a := AnnouncedGoesOn(s, l);
      case Evicting(_, _, _) => a := SendEvicted(l);
      case Inserting(_, _) => a := Insert(l, at);
      case Forwarding(_) => a := Finish(l);
      case Sweeping(todo, _) => a := if todo == [] then Finish(l) else SweepNext(l);
      case SweepSending(_, _, _) => a := SendSwept(l);
    }
    hide Enabled;
    RunOneMore(hash, Start(dedupTtl, dedupCapacity), actions, a);
  }

  lemma {:induction false} RunOneMore(hash: Bytes -> Hash, s: Sys, actions: seq<Action>, a: Action)
    requires IsRun(hash, s, actions) && Enabled(After(hash, s, actions), a)
    ensures IsRun(hash, s, actions + [a])
    decreases actions
  {
    hide Enabled, Do;
    if actions == [] {
      assert [] + [a] == [a];
      assert [a][1..] == [];
    } else {
      RunOneMore(hash, Do(hash, s, actions[0]), actions[1..], a);
      assert (actions + [a])[1..] == actions[1..] + [a];
    }
  }
}
