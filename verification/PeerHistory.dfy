/**
 The peers of a UDP listener over whole runs (src/endpoint/udp/server.rs): which it holds and
 when it last heard them, whom it gives up when it is full, and what a sweep for idle peers
 withdraws, all in terms of the steps taken so far.
 */
module PeerHistory {
  import opened Frame
  import opened Deduplication
  import opened Routing
  import opened Protocol
  import opened ProtocolHistory

  // ---------- Which peers ----------

  /** The state of a listener after a run. */
  ghost function ListenerAt(hash: Bytes -> Hash, dedupTtl: nat, dedupCapacity: nat, actions: seq<Action>, l: Id)
    : Option<Udps>
    requires IsRun(hash, Start(dedupTtl, dedupCapacity), actions)
  {
    var s := After(hash, Start(dedupTtl, dedupCapacity), actions);
    if l in s.udps then Some(s.udps[l]) else None
  }

  lemma ListenerAtIs(hash: Bytes -> Hash, dedupTtl: nat, dedupCapacity: nat, actions: seq<Action>, l: Id)
    requires IsRun(hash, Start(dedupTtl, dedupCapacity), actions)
    ensures
      var u := ListenerAt(hash, dedupTtl, dedupCapacity, actions, l);
      u.Some? ==> ListenerIs(actions, l, u.value)
  {
    hide IsRun, After, ListenerIs, Sent, SentFrames, EventsOf, FramesOf, TasksAre, Present, Ids;
    RunIs(hash, dedupTtl, dedupCapacity, actions);
  }

  /**
   Over every run a listener holds exactly the addresses that the history leaves present,
   each under the id of its last admission and with the time of its last packet, at most as
   many as it was set up for, and none once it has stopped.
   */
  lemma PeersByHistory(hash: Bytes -> Hash, dedupTtl: nat, dedupCapacity: nat, actions: seq<Action>, l: Id)
    requires IsRun(hash, Start(dedupTtl, dedupCapacity), actions)
    requires ListenerAt(hash, dedupTtl, dedupCapacity, actions, l).Some?
    ensures
      var u := ListenerAt(hash, dedupTtl, dedupCapacity, actions, l).value;
      && (forall x :: x in u.peers <==> Present(actions, l, x))
      && (forall x :: x in u.peers ==>
            u.peers[x].lastSeen == LastPacket(actions, l, x) && ChildOf(actions, l, x) == Some(u.peers[x].child))
      && PurposeOf(actions, l).Some? && PurposeOf(actions, l).value.NewUdps?
      && (var capacity := PurposeOf(actions, l).value.capacity;
          |u.peers| <= if capacity == 0 then 1 else capacity)
      && (u.pc.Stopped? ==> forall x :: !Present(actions, l, x))
  {
    hide IsRun, After, ChildOf, LastPacket, Present, PurposeOf, Ok;
    ListenerAtIs(hash, dedupTtl, dedupCapacity, actions, l);
    ReachableOk(hash, dedupTtl, dedupCapacity, actions);
    PeersWithinCapacity(After(hash, Start(dedupTtl, dedupCapacity), actions), l);
  }

  lemma RunLast(hash: Bytes -> Hash, dedupTtl: nat, dedupCapacity: nat, init: seq<Action>, a: Action)
    requires IsRun(hash, Start(dedupTtl, dedupCapacity), init + [a])
    ensures IsRun(hash, Start(dedupTtl, dedupCapacity), init)
    ensures Enabled(After(hash, Start(dedupTtl, dedupCapacity), init), a)
    ensures EventsOf(init + [a]) == EventsOf(init) + EventOf(init, a)
  {
    hide IsRun, After, Enabled, EventOf;
    RunSnoc(hash, Start(dedupTtl, dedupCapacity), init + [a]);
    assert (init + [a])[..|init|] == init;
  }

  /**
   Whom a full listener gives up: the peer withdrawn as evicted is one whose last packet came
   no later than that of any peer it keeps.
   */
  lemma EvictedIsStalest(hash: Bytes -> Hash, dedupTtl: nat, dedupCapacity: nat, init: seq<Action>, l: Id)
    requires IsRun(hash, Start(dedupTtl, dedupCapacity), init + [SendEvicted(l)])
    ensures Evicted(init, l).Some?
    ensures
      var v := Evicted(init, l).value;
      && ChildOf(init, l, v).Some?
      && EventsOf(init + [SendEvicted(l)]) == EventsOf(init) + [PeerRemoved(l, ChildOf(init, l, v).value, LruEvicted)]
      && forall x :: Present(init, l, x) ==> LastPacket(init, l, v) <= LastPacket(init, l, x)
  {
    hide IsRun, After, ChildOf, LastPacket, Present, PurposeOf, Evicted, Current, EventsOf;
    RunLast(hash, dedupTtl, dedupCapacity, init, SendEvicted(l));
    ListenerAtIs(hash, dedupTtl, dedupCapacity, init, l);
  }

  lemma RoomTaken(s: Sys, a: Action)
    requires Enabled(s, a) && (a.MakeRoom? || a.HasRoom?)
    ensures a.listener in s.udps
    ensures
      var u := s.udps[a.listener];
      if a.MakeRoom? then |u.peers| >= u.capacity && u.peers != map[] else |u.peers| < u.capacity || u.peers == map[]
  {}

  lemma FullIs(u: Udps, full: bool)
    requires |u.peers| <= if u.capacity == 0 then 1 else u.capacity
    requires if full then |u.peers| >= u.capacity && u.peers != map[] else |u.peers| < u.capacity || u.peers == map[]
    ensures full <==> |u.peers| == if u.capacity == 0 then 1 else u.capacity
  {
    assert u.peers == map[] || |u.peers.Keys| > 0;
  }

  /** It gives one up exactly when it is full. */
  lemma EvictsIffFull(hash: Bytes -> Hash, dedupTtl: nat, dedupCapacity: nat, init: seq<Action>, a: Action)
    requires IsRun(hash, Start(dedupTtl, dedupCapacity), init + [a]) && (a.MakeRoom? || a.HasRoom?)
    ensures IsRun(hash, Start(dedupTtl, dedupCapacity), init)
    ensures
      var u := ListenerAt(hash, dedupTtl, dedupCapacity, init, a.listener);
      && u.Some? && PurposeOf(init, a.listener).Some? && PurposeOf(init, a.listener).value.NewUdps?
      && (var capacity := PurposeOf(init, a.listener).value.capacity;
          a.MakeRoom? <==> |u.value.peers| == if capacity == 0 then 1 else capacity)
  {
    hide IsRun, After, Present, PurposeOf, Enabled, TableIs, PcIs;
    RunLast(hash, dedupTtl, dedupCapacity, init, a);
    RoomTaken(After(hash, Start(dedupTtl, dedupCapacity), init), a);
    PeersByHistory(hash, dedupTtl, dedupCapacity, init, a.listener);
    ListenerAtIs(hash, dedupTtl, dedupCapacity, init, a.listener);
    FullIs(ListenerAt(hash, dedupTtl, dedupCapacity, init, a.listener).value, a.MakeRoom?);
  }

  /** The peer withdrawn as idle had been silent for the listener's idle time at its last tick. */
  lemma IdleIsSilent(hash: Bytes -> Hash, dedupTtl: nat, dedupCapacity: nat, init: seq<Action>, l: Id)
    requires IsRun(hash, Start(dedupTtl, dedupCapacity), init + [SendSwept(l)]) && SweepReason(init, l) == Idle
    ensures PurposeOf(init, l).Some? && PurposeOf(init, l).value.NewUdps? && Swept(init, l).Some?
    ensures
      var x := Swept(init, l).value;
      && ChildOf(init, l, x).Some?
      && EventsOf(init + [SendSwept(l)]) == EventsOf(init) + [PeerRemoved(l, ChildOf(init, l, x).value, Idle)]
      && LastPacket(init, l, x) + PurposeOf(init, l).value.idle <= LastTick(init, l)
  {
    hide IsRun, After, ChildOf, LastPacket, Present, PurposeOf, Swept, SweepReason, ToSweep, EventsOf;
    RunLast(hash, dedupTtl, dedupCapacity, init, SendSwept(l));
    ListenerAtIs(hash, dedupTtl, dedupCapacity, init, l);
  }

  // ---------- A whole sweep ----------

  lemma {:induction false} RunPrefix(hash: Bytes -> Hash, s: Sys, actions: seq<Action>, n: nat)
    requires IsRun(hash, s, actions) && n <= |actions|
    ensures IsRun(hash, s, actions[..n])
    decreases |actions|
  {
    hide IsRun, After;
    if n == |actions| {
      assert actions[..n] == actions;
    } else {
      RunSnoc(hash, s, actions);
      RunPrefix(hash, s, actions[..|actions| - 1], n);
      assert actions[..|actions| - 1][..n] == actions[..n];
    }
  }

  /** The removal of a peer as idle is among the events sent by the steps from `i` up to `k`. */
  ghost predicate WithdrawnIdle(actions: seq<Action>, i: nat, k: nat, l: Id, child: Id)
    requires i <= k <= |actions|
  {
    exists m :: i <= m < k && EventOf(actions[..m], actions[m]) == [PeerRemoved(l, child, Idle)]
  }

  /** A sweep that began with the tick at `i` is still under way at `k`. */
  ghost predicate UnderWay(actions: seq<Action>, i: nat, k: nat, l: Id)
    requires i < k <= |actions|
  {
    && actions[i].ReapTick? && actions[i].listener == l
    && forall m :: i < m < k ==> actions[m] != Finish(l)
  }

  /** What has become of an address in the course of a sweep. */
  ghost predicate MidSweep(actions: seq<Action>, i: nat, k: nat, l: Id, u: Udps, x: Addr)
    requires i < k <= |actions| && actions[i].ReapTick?
  {
    var before, now := actions[..i], actions[..k];
    var silent := LastPacket(before, l, x) + u.idle <= actions[i].at;
    && ((u.pc.Sweeping? || u.pc.SweepSending?) && u.pc.reason == Idle)
    && LastTick(now, l) == actions[i].at
    && LastPacket(now, l, x) == LastPacket(before, l, x) && ChildOf(now, l, x) == ChildOf(before, l, x)
    && ChildOf(now, l, x).Some?
    && (!silent ==> Present(now, l, x))
    && (silent && !Present(now, l, x) ==>
          (u.pc.SweepSending? && Swept(now, l) == Some(x)) || WithdrawnIdle(actions, i, k, l, ChildOf(now, l, x).value))
  }

  lemma PrefixSnoc(actions: seq<Action>, k: nat)
    requires k < |actions|
    ensures actions[..k + 1] == actions[..k] + [actions[k]]
  {}

  lemma WithdrawnLater(actions: seq<Action>, i: nat, k: nat, l: Id, child: Id)
    requires i <= k < |actions|
    ensures WithdrawnIdle(actions, i, k, l, child) ==> WithdrawnIdle(actions, i, k + 1, l, child)
  {
    hide EventOf;
  }

  /** The tick begins the sweep. */
  lemma SweepBegins(actions: seq<Action>, i: nat, l: Id, u: Udps, x: Addr)
    requires i < |actions| && actions[i].ReapTick? && actions[i].listener == l
    requires ListenerIs(actions[..i], l, u) && Present(actions[..i], l, x)
    ensures MidSweep(actions, i, i + 1, l, u.(pc := Sweeping(actions[i].expired, Idle)), x)
  {
    hide ChildOf, LastPacket, Present, PurposeOf, Current, Evicted, ToSweep, Swept, SweepReason, LastTick, PcIs,
         EventOf;
    PrefixSnoc(actions, i);
    ViewSnoc(actions[..i], actions[i], l);
    AddrSnoc(actions[..i], actions[i], l, x);
  }

  lemma PassiveMid(actions: seq<Action>, i: nat, k: nat, l: Id, u: Udps, x: Addr)
    requires i < k < |actions| && actions[i].ReapTick? && MidSweep(actions, i, k, l, u, x)
    requires !Concerns(actions[k], l)
    ensures MidSweep(actions, i, k + 1, l, u, x)
  {
    hide ChildOf, LastPacket, Present, PurposeOf, Current, Evicted, ToSweep, Swept, SweepReason, LastTick, EventOf,
         WithdrawnIdle, Ids;
    PrefixSnoc(actions, k);
    PassiveKeeps(actions[..k], actions[k], l);
    WithdrawnLater(actions, i, k, l, ChildOf(actions[..k], l, x).value);
  }

  /** Sending the removal of the address in hand. */
  lemma SentMid(actions: seq<Action>, i: nat, k: nat, l: Id, u: Udps, x: Addr)
    requires i < k < |actions| && actions[i].ReapTick? && MidSweep(actions, i, k, l, u, x)
    requires actions[k] == SendSwept(l) && u.pc.SweepSending? && ListenerIs(actions[..k], l, u)
    ensures MidSweep(actions, i, k + 1, l, u.(pc := Sweeping(u.pc.todo, u.pc.reason)), x)
  {
    hide ChildOf, LastPacket, Present, PurposeOf, Current, Evicted, ToSweep, Swept, SweepReason, LastTick, Ids, TableIs;
    PrefixSnoc(actions, k);
    PassiveKeeps(actions[..k], actions[k], l);
    var child := ChildOf(actions[..k], l, x).value;
    WithdrawnLater(actions, i, k, l, child);
    if Swept(actions[..k], l) == Some(x) {
      assert EventOf(actions[..k], actions[k]) == [PeerRemoved(l, child, Idle)];
      assert WithdrawnIdle(actions, i, k + 1, l, child);
    }
  }

  /** Taking up the next address of the list. */
  lemma NextMid(actions: seq<Action>, i: nat, k: nat, l: Id, u: Udps, x: Addr)
    requires i < k < |actions| && actions[i].ReapTick? && MidSweep(actions, i, k, l, u, x)
    requires actions[k] == SweepNext(l) && u.pc.Sweeping? && u.pc.todo != [] && ListenerIs(actions[..k], l, u)
    ensures
      var y, rest := u.pc.todo[0], u.pc.todo[1..];
      MidSweep(actions, i, k + 1, l,
               if y in u.peers
               then u.(peers := u.peers - {y}, pc := SweepSending(u.peers[y].child, rest, u.pc.reason))
               else u.(pc := Sweeping(rest, u.pc.reason)), x)
  {
    hide ChildOf, LastPacket, Present, PurposeOf, Current, Evicted, ToSweep, Swept, SweepReason, LastTick, Ids, EventOf,
         WithdrawnIdle;
    PrefixSnoc(actions, k);
    ViewSnoc(actions[..k], actions[k], l);
    AddrSnoc(actions[..k], actions[k], l, x);
    WithdrawnLater(actions, i, k, l, ChildOf(actions[..k], l, x).value);
  }

  /** All that a listener can do in the course of a sweep. */
  lemma SweepMoves(hash: Bytes -> Hash, s: Sys, a: Action, l: Id)
    requires Enabled(s, a) && Concerns(a, l) && l in s.udps
    requires s.udps[l].pc.Sweeping? || s.udps[l].pc.SweepSending?
    ensures a == Finish(l) || (a == SweepNext(l) && s.udps[l].pc.Sweeping? && s.udps[l].pc.todo != [])
         || (a == SendSwept(l) && s.udps[l].pc.SweepSending?)
    ensures a == Finish(l) ==> s.udps[l].pc.Sweeping? && s.udps[l].pc.todo == []
    ensures l in Do(hash, s, a).udps
    ensures
      var u := s.udps[l];
      a == SendSwept(l) ==> Do(hash, s, a).udps[l] == u.(pc := Sweeping(u.pc.todo, u.pc.reason))
    ensures
      var u := s.udps[l];
      a == SweepNext(l) ==>
        var y, rest := u.pc.todo[0], u.pc.todo[1..];
        Do(hash, s, a).udps[l]
          == if y in u.peers
             then u.(peers := u.peers - {y}, pc := SweepSending(u.peers[y].child, rest, u.pc.reason))
             else u.(pc := Sweeping(rest, u.pc.reason))
  {
    hide OnEvent, OnFrame, Started, Announcement;
  }

  lemma TickMoves(hash: Bytes -> Hash, s: Sys, a: Action)
    requires Enabled(s, a) && a.ReapTick?
    ensures a.listener in s.udps && a.listener in Do(hash, s, a).udps
    ensures Do(hash, s, a).udps[a.listener] == s.udps[a.listener].(pc := Sweeping(a.expired, Idle))
  {
    hide OnEvent, OnFrame, Started, Announcement;
  }

  /** A listener after the first `k` steps of a run, and the step that comes next. */
  lemma RunAt(hash: Bytes -> Hash, dedupTtl: nat, dedupCapacity: nat, actions: seq<Action>, k: nat)
    requires IsRun(hash, Start(dedupTtl, dedupCapacity), actions) && k < |actions|
    ensures IsRun(hash, Start(dedupTtl, dedupCapacity), actions[..k])
    ensures IsRun(hash, Start(dedupTtl, dedupCapacity), actions[..k + 1])
    ensures
      var s := After(hash, Start(dedupTtl, dedupCapacity), actions[..k]);
      && Enabled(s, actions[k])
      && After(hash, Start(dedupTtl, dedupCapacity), actions[..k + 1]) == Do(hash, s, actions[k])
      && Ok(s) && UdpsAre(actions[..k], s)
  {
    hide IsRun, After, Enabled, Do, Ok, UdpsAre, TasksAre, Sent, SentFrames, EventsOf, FramesOf;
    RunPrefix(hash, Start(dedupTtl, dedupCapacity), actions, k + 1);
    RunSnoc(hash, Start(dedupTtl, dedupCapacity), actions[..k + 1]);
    assert actions[..k + 1][..k] == actions[..k];
    ReachableOk(hash, dedupTtl, dedupCapacity, actions[..k]);
    RunIs(hash, dedupTtl, dedupCapacity, actions[..k]);
  }

  /** Until it finishes, every address is kept, in hand or withdrawn as its silence calls for. */
  lemma {:induction false} SweepGoesOn(
    hash: Bytes -> Hash, dedupTtl: nat, dedupCapacity: nat, actions: seq<Action>, i: nat, k: nat, l: Id, x: Addr)
    requires IsRun(hash, Start(dedupTtl, dedupCapacity), actions)
    requires i < k <= |actions| && UnderWay(actions, i, k, l) && Present(actions[..i], l, x)
    ensures IsRun(hash, Start(dedupTtl, dedupCapacity), actions[..k])
    ensures
      var s := After(hash, Start(dedupTtl, dedupCapacity), actions[..k]);
      l in s.udps && MidSweep(actions, i, k, l, s.udps[l], x)
    decreases k
  {
    hide IsRun, After, Enabled, Do, Ok, Present, MidSweep, ListenerIs, Ids, Concerns;
    var n := k - 1;
    RunAt(hash, dedupTtl, dedupCapacity, actions, n);
    var s := After(hash, Start(dedupTtl, dedupCapacity), actions[..n]);
    if n == i {
      TickMoves(hash, s, actions[i]);
      SweepBegins(actions, i, l, s.udps[l], x);
    } else {
      SweepGoesOn(hash, dedupTtl, dedupCapacity, actions, i, n, l, x);
      var u := s.udps[l];
      if Concerns(actions[n], l) {
        MidIsSweeping(actions, i, n, l, u, x);
        SweepMoves(hash, s, actions[n], l);
        if actions[n] == SendSwept(l) {
          SentMid(actions, i, n, l, u, x);
        } else {
          NextMid(actions, i, n, l, u, x);
        }
      } else {
        StaysSame(hash, s, actions[n], l);
        PassiveMid(actions, i, n, l, u, x);
      }
    }
  }

  lemma MidIsSweeping(actions: seq<Action>, i: nat, k: nat, l: Id, u: Udps, x: Addr)
    requires i < k <= |actions| && actions[i].ReapTick? && MidSweep(actions, i, k, l, u, x)
    ensures u.pc.Sweeping? || u.pc.SweepSending?
  {}

  lemma StaysSame(hash: Bytes -> Hash, s: Sys, a: Action, l: Id)
    requires Ok(s) && Enabled(s, a) && l in s.udps && !Concerns(a, l)
    ensures l in Do(hash, s, a).udps && Do(hash, s, a).udps[l] == s.udps[l]
  {
    hide Ok, Do, Enabled, Concerns;
    if a.AnnounceId? && a.id == l {
      PendingIsNew(s, l);
    } else {
      OtherListeners(hash, s, a, l);
    }
  }

  lemma {:induction false} SamePurpose(actions: seq<Action>, i: nat, j: nat, id: Id)
    requires i <= j <= |actions| && id < Ids(actions[..i])
    ensures PurposeOf(actions[..j], id) == PurposeOf(actions[..i], id) && id < Ids(actions[..j])
    decreases j
  {
    hide PurposeOf, Ids;
    if i < j {
      SamePurpose(actions, i, j - 1, id);
      PrefixSnoc(actions, j - 1);
      ViewSnoc(actions[..j - 1], actions[j - 1], id);
    }
  }

  /**
   A whole sweep, from the tick to its end: of the peers held at the tick exactly those that
   had been silent for the idle time are withdrawn as idle, and the others are still held.
   */
  lemma SweepWithdrawsSilent(
    hash: Bytes -> Hash, dedupTtl: nat, dedupCapacity: nat, actions: seq<Action>, i: nat, j: nat, l: Id, x: Addr)
    requires IsRun(hash, Start(dedupTtl, dedupCapacity), actions) && i < j < |actions|
    requires UnderWay(actions, i, j, l) && actions[j] == Finish(l) && Present(actions[..i], l, x)
    ensures PurposeOf(actions[..i], l).Some? && PurposeOf(actions[..i], l).value.NewUdps?
    ensures ChildOf(actions[..i], l, x).Some?
    ensures
      var silent := LastPacket(actions[..i], l, x) + PurposeOf(actions[..i], l).value.idle <= actions[i].at;
      && (silent ==> WithdrawnIdle(actions, i, j, l, ChildOf(actions[..i], l, x).value))
      && (Present(actions[..j], l, x) <==> !silent)
  {
    hide IsRun, After, Do, Ok, Present, Ids, PurposeOf, ChildOf, LastPacket, LastTick, ToSweep, SweepReason,
         Swept, WithdrawnIdle, Enabled, Current, Evicted;
    SweepGoesOn(hash, dedupTtl, dedupCapacity, actions, i, j, l, x);
    RunAt(hash, dedupTtl, dedupCapacity, actions, i);
    RunAt(hash, dedupTtl, dedupCapacity, actions, j);
    var s0 := After(hash, Start(dedupTtl, dedupCapacity), actions[..i]);
    var s := After(hash, Start(dedupTtl, dedupCapacity), actions[..j]);
    TickMoves(hash, s0, actions[i]);
    SweepMoves(hash, s, actions[j], l);
    SamePurpose(actions, i, j, l);
  }
}
