/**
 The router task as it runs (src/router/mod.rs, src/router/group.rs): methods that update
 the registry, the groups and the window in place, each proved to take the step of the
 state machine that the router's theorems are about.
 */
module RouterTask {
  import opened Frame
  import opened Learning
  import opened Deduplication
  import opened Deciding
  import opened Routing

  class GroupRegistry {
    var groups: Groups

    constructor ()
      ensures groups == map[]
    {
      groups := map[];
    }

    /** Register one more member; the first to join creates the table. */
    method JoinGroup(name: string, capacity: nat) returns (members: nat)
      modifies this
      ensures groups == Join(old(groups), name, capacity)
      ensures name in groups && members == groups[name].members
    {
      if name !in groups {
        groups := groups[name := GroupLearn(NewTable(capacity), 0)];
      }
      var entry := groups[name];
      members := entry.members + 1;
      groups := groups[name := entry.(members := members)];
    }

    method LeaveGroup(name: string)
      modifies this
      ensures groups == Leave(old(groups), name)
    {
      if name !in groups {
        return;
      }
      var entry := groups[name];
      var left := if entry.members == 0 then 0 else entry.members - 1;
      groups := groups[name := entry.(members := left)];
      if left == 0 {
        groups := groups - {name};
      }
    }

    method TouchGroup(name: string, node: NodeId, now: nat) returns (found: bool)
      modifies this
      ensures found == (name in old(groups))
      ensures groups == if name !in old(groups) then old(groups)
                        else
                          var g := old(groups)[name];
                          old(groups)[name := g.(learn := Touched(g.learn, node, now))]
    {
      found := name in groups;
      if found {
        var entry := groups[name];
        groups := groups[name := entry.(learn := Touched(entry.learn, node, now))];
      }
    }
  }

  class Router {
    const hash: Bytes -> Hash
    const groups: GroupRegistry
    const dedup: DedupWindow
    var routing: map<Id, Slot>
    var pushed: map<Id, seq<Bytes>>
    var outFilterDrops: map<Id, nat>
    var dedupDrops: map<Id, nat>
    var stats: seq<StatsEvent>

    ghost function Value(): State
      reads this, groups, dedup
    {
      State(routing, groups.groups, dedup.Value(), pushed, outFilterDrops, dedupDrops, stats)
    }

    ghost predicate Valid()
      reads this, dedup
    {
      dedup.Valid()
    }

    constructor (hash: Bytes -> Hash, dedupTtl: nat, dedupCapacity: nat)
      ensures Valid() && fresh(groups) && fresh(dedup)
      ensures this.hash == hash && Value() == NewState(dedupTtl, dedupCapacity) && dedup.clock == 0
    {
      this.hash := hash;
      groups := new GroupRegistry();
      dedup := new DedupWindow(dedupTtl, dedupCapacity);
      routing, pushed, outFilterDrops, dedupDrops, stats := map[], map[], map[], map[], [];
    }

    method Register(id: Id, r: Option<Routable>)
      requires Valid()
      modifies this, groups
      ensures Valid() && Value() == AddEndpoint(old(Value()), id, r)
    {
      var slot: Slot := None;
      match r {
        case None =>
        case Some(payload) =>
          match payload.identity.group {
            case Some(name) => var _ := groups.JoinGroup(name, LEARN_CAPACITY);
            case None =>
          }
          slot := Some(RoutableState(payload.identity, payload.endpointName, NewTable(LEARN_CAPACITY)));
      }
      routing := routing[id := slot];
      stats := stats + [StatsEvent.Register(id, slot.Some?)];
    }

    method Unregister(id: Id)
      requires Valid()
      modifies this, groups
      ensures Valid() && Value() == RemoveEndpoint(old(Value()), id)
    {
      if id in routing {
        match GroupOf(routing[id]) {
          case Some(name) => groups.LeaveGroup(name);
          case None =>
        }
        routing := routing - {id};
      }
      stats := stats + [Finalize(id)];
    }

    method HandleEvent(e: Event)
      requires Valid()
      modifies this, groups
      ensures Valid() && Value() == OnEvent(old(Value()), e)
    {
      match e {
        case EndpointAdded(id, leaf) => Register(id, leaf);
        case PeerAdded(_, id, routable) => Register(id, Some(routable));
        case PeerRemoved(_, id, _) => Unregister(id);
      }
    }

    /** Validate the source, run the duplicate window, then learn; none when suppressed. */
    method IngestSourceFrame(src: Id, frame: Bytes, header: ParsedHeader, now: nat) returns (srcName: Option<string>)
      requires Valid() && dedup.clock <= now
      modifies this, groups, dedup
      ensures Valid() && old(dedup.clock) <= dedup.clock <= now
      ensures
        var r := Ingest(hash, old(Value()), src, frame, header, now);
        && Value() == r.state
        && srcName == if r.Admitted? then Some(r.srcName) else None
    {
      hide CheckAndInsert, Touched, Refines, Live;
      if src !in routing || routing[src].None? {
        return None;
      }
      var slot := routing[src].value;
      var dup := dedup.CheckAndEnter(hash(frame), now);
      if dup {
        dedupDrops := dedupDrops[src := Count(dedupDrops, src) + 1];
        return None;
      }
      match slot.identity.group {
        case Some(name) =>
          var found := groups.TouchGroup(name, header.source, now);
          if !found {
            return None;
          }
        case None =>
          routing := routing[src := Some(slot.(learn := Touched(slot.learn, header.source, now)))];
      }
      return Some(slot.endpointName);
    }

    method DecideFor(src: Id, dest: Id, header: ParsedHeader, srcName: string) returns (d: Option<Decision>)
      requires dest in routing
      ensures d == DecisionFor(Value(), src, dest, header, srcName)
    {
      hide Decide;
      if dest == src || routing[dest].None? {
        return None;
      }
      var slot := routing[dest].value;
      var learn := slot.learn;
      match slot.identity.group {
        case Some(name) =>
          if name !in groups.groups {
            return None;
          }
          learn := groups.groups[name].learn;
        case None =>
      }
      var decision := TakeDecision(header, learn, slot.identity, srcName);
      return Some(decision);
    }

    /** Decide one destination: push the frame, count an out-filter drop, or do nothing. */
    method OfferTo(src: Id, dest: Id, frame: Bytes, header: ParsedHeader, srcName: string, ghost s: State)
      requires dest in routing && s.routing == routing && s.groups == groups.groups
      modifies this`pushed, this`outFilterDrops
      ensures pushed == if Admits(s, src, dest, header, srcName)
                        then old(pushed)[dest := (if dest in old(pushed) then old(pushed)[dest] else []) + [frame]]
                        else old(pushed)
      ensures outFilterDrops == if Filtered(s, src, dest, header, srcName)
                                then old(outFilterDrops)[dest := Count(old(outFilterDrops), dest) + 1]
                                else old(outFilterDrops)
    {
      SameDecision(s, Value(), src, dest, header, srcName);
      hide DecisionFor;
      var decision := DecideFor(src, dest, header, srcName);
      match decision {
        case Some(Admit) =>
          pushed := pushed[dest := (if dest in pushed then pushed[dest] else []) + [frame]];
        case Some(OutFilterBlocked) =>
          outFilterDrops := outFilterDrops[dest := Count(outFilterDrops, dest) + 1];
        case _ =>
      }
    }

    /**
     Offer the frame to every registered endpoint, in whatever order the registry yields
     them; the outcome does not depend on it.
     */
    method DispatchToDestinations(src: Id, frame: Bytes, header: ParsedHeader, srcName: string)
      modifies this`pushed, this`outFilterDrops
      ensures Value() == Dispatch(old(Value()), src, frame, header, srcName)
    {
      hide Admits, Filtered, PushedAfter, DropsAfter, Count;
      ghost var s := Value();
      var pending := routing.Keys;
      ghost var done: set<Id> := {};
      PushedAfterNone(s, src, frame, header, srcName);
      while pending != {}
        invariant done == routing.Keys - pending && pending <= routing.Keys
        invariant pushed == PushedAfter(s, src, frame, header, srcName, done)
        invariant outFilterDrops == DropsAfter(s, src, header, srcName, done)
        decreases |pending|
      {
        var dest :| dest in pending;
        PushedAfterOne(s, src, frame, header, srcName, done, dest);
        DropsAfterOne(s, src, header, srcName, done, dest);
        OfferTo(src, dest, frame, header, srcName, s);
        done, pending := done + {dest}, pending - {dest};
      }
      assert done == routing.Keys;
    }

    static lemma SameDecision(s: State, s': State, src: Id, dest: Id, header: ParsedHeader, srcName: string)
      requires s'.routing == s.routing && s'.groups == s.groups
      ensures Admits(s', src, dest, header, srcName) == Admits(s, src, dest, header, srcName)
      ensures Filtered(s', src, dest, header, srcName) == Filtered(s, src, dest, header, srcName)
    {
      hide Decide;
    }

    method HandleFrame(src: Id, frame: Bytes, header: ParsedHeader, now: nat)
      requires Valid() && dedup.clock <= now
      modifies this, groups, dedup
      ensures Valid() && old(dedup.clock) <= dedup.clock <= now
      ensures Value() == OnFrame(hash, old(Value()), src, frame, header, now)
    {
      hide Ingest, Dispatch, Refines;
      var srcName := IngestSourceFrame(src, frame, header, now);
      if srcName.Some? {
        DispatchToDestinations(src, frame, header, srcName.value);
      }
    }

    /** The messages that finalize a set of endpoints, once each. */
    static ghost function Finalizing(ids: set<Id>): multiset<StatsEvent> {
      multiset(set id | id in ids :: Finalize(id))
    }

    static lemma FinalizingOne(ids: set<Id>, id: Id)
      requires id !in ids
      ensures Finalizing(ids + {id}) == Finalizing(ids) + multiset{Finalize(id)}
    {
      assert (set x | x in ids + {id} :: Finalize(x)) == (set x | x in ids :: Finalize(x)) + {Finalize(id)};
    }

    /** Finalize every endpoint still registered, once each. */
    method ShutdownSweep()
      modifies this`routing, this`stats
      ensures routing == map[]
      ensures old(stats) <= stats
      ensures multiset(stats[|old(stats)|..]) == Finalizing(old(routing).Keys)
    {
      hide Finalizing;
      var pending := routing.Keys;
      ghost var done: set<Id> := {};
      ghost var sent: seq<StatsEvent> := [];
      NoneToFinalize();
      while pending != {}
        invariant pending + done == routing.Keys && pending !! done
        invariant routing == old(routing)
        invariant stats == old(stats) + sent
        invariant multiset(sent) == Finalizing(done)
        decreases |pending|
      {
        var id :| id in pending;
        pending := pending - {id};
        FinalizingOne(done, id);
        done := done + {id};
        sent := sent + [Finalize(id)];
        stats := stats + [Finalize(id)];
      }
      assert done == routing.Keys;
      assert stats[|old(stats)|..] == sent;
      routing := map[];
    }

    static lemma NoneToFinalize()
      ensures Finalizing({}) == multiset{}
    {}
  }
}
