/**
 What holds in every state the router can reach: group reference counts are exact, every
 learn table holds distinct nodes within its capacity and at times up to now, and no frame
 is sent back into the group it came from.  What the tables hold is the subject of
 RouterHistory.
 */
module RouterSafety {
  import opened Frame
  import Recency
  import opened Sequences
  import opened Learning
  import opened Deduplication
  import opened Deciding
  import opened Routing

  // ---------- The invariant ----------

  /** A learn table of the router at a time no later than `clock`. */
  ghost predicate GoodTable(t: Table, clock: nat) {
    && ValidTable(t)
    && t.capacity == LEARN_CAPACITY
    && forall i :: 0 <= i < |t.entries| ==> t.entries[i].lastSeen <= clock
  }

  ghost predicate TablesGood(s: State, clock: nat) {
    && (forall id :: IsRoutable(s, id) ==> GoodTable(s.routing[id].value.learn, clock))
    && (forall g :: g in s.groups ==> GoodTable(s.groups[g].learn, clock))
  }

  /** The registered endpoints that name a group. */
  ghost function Members(routing: map<Id, Slot>, g: string): set<Id> {
    set id | id in routing && GroupOf(routing[id]) == Some(g)
  }

  /** A group exists exactly while it has members, and counts them. */
  ghost predicate CountsGood(routing: map<Id, Slot>, groups: Groups) {
    && (forall g :: g in groups ==> groups[g].members == |Members(routing, g)| > 0)
    && (forall id :: id in routing && GroupOf(routing[id]).Some? ==> GroupOf(routing[id]).value in groups)
  }

  ghost predicate Inv(s: State, clock: nat) {
    TablesGood(s, clock) && CountsGood(s.routing, s.groups)
  }

  // ---------- Lifecycle events keep it ----------

  lemma FreshTable(clock: nat)
    ensures GoodTable(NewTable(LEARN_CAPACITY), clock)
  {}

  lemma MembersAdded(routing: map<Id, Slot>, id: Id, slot: Slot, g: string)
    requires id !in routing
    ensures Members(routing[id := slot], g)
         == if GroupOf(slot) == Some(g) then Members(routing, g) + {id} else Members(routing, g)
  {}

  lemma MembersRemoved(routing: map<Id, Slot>, id: Id, g: string)
    requires id in routing
    ensures Members(routing - {id}, g)
         == if GroupOf(routing[id]) == Some(g) then Members(routing, g) - {id} else Members(routing, g)
  {}

  lemma MembersUpdated(routing: map<Id, Slot>, id: Id, slot: Slot, g: string)
    requires id in routing && GroupOf(slot) == GroupOf(routing[id])
    ensures Members(routing[id := slot], g) == Members(routing, g)
  {}

  lemma NoMembersOutside(routing: map<Id, Slot>, groups: Groups, g: string)
    requires CountsGood(routing, groups) && g !in groups
    ensures Members(routing, g) == {}
  {}

  lemma AddKeepsCounts(s: State, id: Id, r: Option<Routable>)
    requires CountsGood(s.routing, s.groups) && id !in s.routing
    ensures CountsGood(AddEndpoint(s, id, r).routing, AddEndpoint(s, id, r).groups)
  {
    hide Members;
    var s' := AddEndpoint(s, id, r);
    forall g | g in s'.groups
      ensures s'.groups[g].members == |Members(s'.routing, g)| > 0
    {
      MembersAdded(s.routing, id, s'.routing[id], g);
      if g !in s.groups {
        NoMembersOutside(s.routing, s.groups, g);
      }
      assert id !in Members(s.routing, g) by { NotMember(s.routing, id, g); }
    }
  }

  lemma NotMember(routing: map<Id, Slot>, id: Id, g: string)
    requires id !in routing
    ensures id !in Members(routing, g)
  {}

  lemma RemoveKeepsCounts(s: State, id: Id)
    requires CountsGood(s.routing, s.groups)
    ensures CountsGood(RemoveEndpoint(s, id).routing, RemoveEndpoint(s, id).groups)
  {
    if id in s.routing {
      var s' := RemoveEndpoint(s, id);
      forall g | g in s'.groups
        ensures s'.groups[g].members == |Members(s'.routing, g)| > 0
      {
        MembersRemoved(s.routing, id, g);
      }
      forall x | x in s'.routing && GroupOf(s'.routing[x]).Some?
        ensures GroupOf(s'.routing[x]).value in s'.groups
      {
        GroupStays(s, id, x);
      }
    }
  }

  /** The group of a remaining endpoint keeps its table. */
  lemma GroupStays(s: State, id: Id, x: Id)
    requires CountsGood(s.routing, s.groups) && id in s.routing && x in s.routing && x != id
    requires GroupOf(s.routing[x]).Some?
    ensures GroupOf(s.routing[x]).value in RemoveEndpoint(s, id).groups
  {
    var g := GroupOf(s.routing[x]).value;
    if GroupOf(s.routing[id]) == Some(g) {
      assert id in Members(s.routing, g) && x in Members(s.routing, g);
      TwoMembers(Members(s.routing, g), id, x);
    }
  }

  lemma TwoMembers(m: set<Id>, a: Id, b: Id)
    requires a in m && b in m && a != b
    ensures |m| > 1
  {
    assert {a, b} <= m;
    SubsetSize({a, b}, m);
  }

  lemma EventKeepsInv(s: State, e: Event, clock: nat)
    requires Inv(s, clock) && FreshInput(s, Lifecycle(e))
    ensures Inv(OnEvent(s, e), clock)
  {
    hide CountsGood, GoodTable;
    FreshTable(clock);
    match e {
      case EndpointAdded(id, leaf) => AddKeepsCounts(s, id, leaf);
      case PeerAdded(_, id, routable) => AddKeepsCounts(s, id, Some(routable));
      case PeerRemoved(_, id, _) => RemoveKeepsCounts(s, id);
    }
  }

  // ---------- Frames keep it ----------

  lemma TouchedIsGood(t: Table, node: NodeId, now: nat)
    requires GoodTable(t, now)
    ensures GoodTable(Touched(t, node, now), now)
    ensures Contains(Touched(t, node, now), node)
  {
    TouchedView(t, node, now);
    ContainsIffView(Touched(t, node, now), node);
    TouchedTimes(t, node, now);
  }

  lemma TouchedTimes(t: Table, node: NodeId, now: nat)
    requires forall i :: 0 <= i < |t.entries| ==> t.entries[i].lastSeen <= now
    ensures forall i :: 0 <= i < |Touched(t, node, now).entries| ==> Touched(t, node, now).entries[i].lastSeen <= now
  {
    hide Recency.IndexOf, Recency.OldestIndex;
  }

  lemma InvLater(s: State, clock: nat, now: nat)
    requires Inv(s, clock) && clock <= now
    ensures Inv(s, now)
  {}

  lemma TouchGroupKeepsInv(s: State, g: string, node: NodeId, now: nat)
    requires Inv(s, now) && g in s.groups
    ensures Inv(s.(groups := s.groups[g := s.groups[g].(learn := Touched(s.groups[g].learn, node, now))]), now)
  {
    hide GoodTable, Touched, Members;
    TouchedIsGood(s.groups[g].learn, node, now);
  }

  lemma TouchOwnKeepsInv(s: State, src: Id, node: NodeId, now: nat)
    requires Inv(s, now) && IsRoutable(s, src)
    ensures
      var slot := s.routing[src].value;
      Inv(s.(routing := s.routing[src := Some(slot.(learn := Touched(slot.learn, node, now)))]), now)
  {
    hide GoodTable, Touched, Members;
    var slot := s.routing[src].value;
    TouchedIsGood(slot.learn, node, now);
    var next: Slot := Some(slot.(learn := Touched(slot.learn, node, now)));
    forall g | g in s.groups
      ensures Members(s.routing[src := next], g) == Members(s.routing, g)
    {
      MembersUpdated(s.routing, src, next, g);
    }
  }

  lemma LearnKeepsInv(s: State, src: Id, node: NodeId, now: nat)
    requires Inv(s, now) && IsRoutable(s, src)
    ensures Learn(s, src, node, now).Some?
    ensures Inv(Learn(s, src, node, now).value, now)
    ensures Learn(s, src, node, now).value.routing.Keys == s.routing.Keys
  {
    hide Touched, Inv;
    EffectiveTableExists(s, now, src);
    match s.routing[src].value.identity.group {
      case Some(g) => TouchGroupKeepsInv(s, g, node, now);
      case None => TouchOwnKeepsInv(s, src, node, now);
    }
  }

  lemma DispatchKeepsInv(s: State, src: Id, frame: Bytes, header: ParsedHeader, srcName: string, now: nat)
    requires Inv(s, now)
    ensures Inv(Dispatch(s, src, frame, header, srcName), now)
    ensures Dispatch(s, src, frame, header, srcName).routing == s.routing
    ensures Dispatch(s, src, frame, header, srcName).groups == s.groups
  {}

  /**
   The outcome of ingest in a state that satisfies the invariant: the branch for a missing
   source group is never taken, so a frame is suppressed only when its sender is not
   registered or it is a duplicate.
   */
  lemma IngestOutcome(hash: Bytes -> Hash, s: State, src: Id, frame: Bytes, header: ParsedHeader, now: nat)
    requires Inv(s, now)
    ensures
      var r := Ingest(hash, s, src, frame, header, now);
      && (r.Suppressed? <==> !IsRoutable(s, src) || CheckAndInsert(s.dedup, hash(frame), now).1)
      && Inv(r.state, now)
      && r.state.routing.Keys == s.routing.Keys
      && r.state.pushed == s.pushed
      && (r.Admitted? ==>
            Learn(s.(dedup := CheckAndInsert(s.dedup, hash(frame), now).0), src, header.source, now) == Some(r.state))
  {
    hide CheckAndInsert, Learn, TablesGood, CountsGood;
    if IsRoutable(s, src) {
      var s1 := s.(dedup := CheckAndInsert(s.dedup, hash(frame), now).0);
      SameTables(s, s1, now);
      var s2 := s1.(dedupDrops := s1.dedupDrops[src := Count(s1.dedupDrops, src) + 1]);
      SameTables(s, s2, now);
      if !CheckAndInsert(s.dedup, hash(frame), now).1 {
        LearnKeepsInv(s1, src, header.source, now);
        LearnKeepsLogs(s1, src, header.source, now);
      }
    }
  }

  lemma SameTables(s: State, s': State, now: nat)
    requires Inv(s, now) && s'.routing == s.routing && s'.groups == s.groups
    ensures Inv(s', now)
  {}

  lemma LearnKeepsLogs(s: State, src: Id, node: NodeId, now: nat)
    requires IsRoutable(s, src) && Learn(s, src, node, now).Some?
    ensures
      var s' := Learn(s, src, node, now).value;
      s'.pushed == s.pushed && s'.dedup == s.dedup && s'.outFilterDrops == s.outFilterDrops && s'.stats == s.stats
  {}

  lemma FrameKeepsInv(hash: Bytes -> Hash, s: State, src: Id, frame: Bytes, header: ParsedHeader, now: nat)
    requires Inv(s, now)
    ensures Inv(OnFrame(hash, s, src, frame, header, now), now)
    ensures OnFrame(hash, s, src, frame, header, now).routing.Keys == s.routing.Keys
  {
    hide Inv, Ingest, Dispatch;
    IngestOutcome(hash, s, src, frame, header, now);
    match Ingest(hash, s, src, frame, header, now) {
      case Suppressed(_) =>
      case Admitted(s1, srcName) => DispatchKeepsInv(s1, src, frame, header, srcName, now);
    }
  }

  // ---------- Every reachable state ----------

  /** The time of the last frame of a run that starts at `from`. */
  ghost function RunClock(from: nat, inputs: seq<Input>): nat {
    if inputs == [] then from
    else
      var input := inputs[|inputs| - 1];
      if input.Inbound? then input.now else RunClock(from, inputs[..|inputs| - 1])
  }

  /** The clock never goes back. */
  ghost predicate ForwardClock(from: nat, inputs: seq<Input>) {
    forall i :: 0 <= i < |inputs| && inputs[i].Inbound? ==> RunClock(from, inputs[..i]) <= inputs[i].now
  }

  lemma ForwardPrefix(from: nat, inputs: seq<Input>, n: nat)
    requires ForwardClock(from, inputs) && n <= |inputs|
    ensures ForwardClock(from, inputs[..n])
  {
    hide RunClock;
    forall i | 0 <= i < n && inputs[..n][i].Inbound?
      ensures RunClock(from, inputs[..n][..i]) <= inputs[..n][i].now
    {
      assert inputs[..n][..i] == inputs[..i];
    }
  }

  /** Runs the program can make: fresh ids, and a monotonic clock. */
  ghost predicate LegalRun(hash: Bytes -> Hash, s: State, from: nat, inputs: seq<Input>) {
    FreshRun(hash, s, inputs) && ForwardClock(from, inputs)
  }

  lemma LegalPrefix(hash: Bytes -> Hash, s: State, from: nat, inputs: seq<Input>, n: nat)
    requires LegalRun(hash, s, from, inputs) && n <= |inputs|
    ensures LegalRun(hash, s, from, inputs[..n])
  {
    FreshPrefix(hash, s, inputs, n);
    ForwardPrefix(from, inputs, n);
  }

  lemma LegalStep(hash: Bytes -> Hash, s: State, from: nat, inputs: seq<Input>, n: nat)
    requires LegalRun(hash, s, from, inputs) && n < |inputs|
    ensures FreshInput(Run(hash, s, inputs[..n]), inputs[n])
    ensures inputs[n].Inbound? ==> RunClock(from, inputs[..n]) <= inputs[n].now
  {}

  lemma StepKeepsInv(hash: Bytes -> Hash, s: State, input: Input, clock: nat, clock': nat)
    requires Inv(s, clock) && FreshInput(s, input)
    requires clock' == if input.Inbound? then input.now else clock
    requires clock <= clock'
    ensures Inv(Step(hash, s, input), clock')
  {
    hide Inv, OnEvent, OnFrame;
    match input {
      case Lifecycle(e) => EventKeepsInv(s, e, clock);
      case Inbound(src, frame, header, now) =>
        InvLater(s, clock, now);
        FrameKeepsInv(hash, s, src, frame, header, now);
    }
  }

  lemma {:induction false} RunKeepsInv(hash: Bytes -> Hash, s: State, from: nat, inputs: seq<Input>)
    requires Inv(s, from) && LegalRun(hash, s, from, inputs)
    ensures Inv(Run(hash, s, inputs), RunClock(from, inputs))
  {
    hide Inv, Step, LegalRun;
    if inputs != [] {
      var n := |inputs| - 1;
      LegalPrefix(hash, s, from, inputs, n);
      LegalStep(hash, s, from, inputs, n);
      RunKeepsInv(hash, s, from, inputs[..n]);
      StepKeepsInv(hash, Run(hash, s, inputs[..n]), inputs[n], RunClock(from, inputs[..n]), RunClock(from, inputs));
    }
  }

  /**
   In every reachable state each group counts exactly the registered endpoints that name
   it, exists exactly while there are any, and every learn table is valid.
   */
  lemma ReachableInv(hash: Bytes -> Hash, dedupTtl: nat, dedupCapacity: nat, inputs: seq<Input>)
    requires LegalRun(hash, NewState(dedupTtl, dedupCapacity), 0, inputs)
    ensures Inv(Run(hash, NewState(dedupTtl, dedupCapacity), inputs), RunClock(0, inputs))
  {
    hide Run, LegalRun;
    RunKeepsInv(hash, NewState(dedupTtl, dedupCapacity), 0, inputs);
  }

  /** So every routable endpoint has a table to consult; the missing-group branch is dead. */
  lemma EffectiveTableExists(s: State, clock: nat, id: Id)
    requires Inv(s, clock) && IsRoutable(s, id)
    ensures EffectiveLearn(s.groups, s.routing[id].value).Some?
    ensures GoodTable(EffectiveLearn(s.groups, s.routing[id].value).value, clock)
  {
    assert GroupOf(s.routing[id]) == s.routing[id].value.identity.group;
  }

  // ---------- Group isolation ----------

  /** After learning, the sender's effective table holds the source, whatever it evicted. */
  lemma LearnedIsContained(s: State, src: Id, node: NodeId, now: nat, peer: Id)
    requires Inv(s, now) && IsRoutable(s, src) && IsRoutable(s, peer)
    requires peer == src ||
             (GroupOf(s.routing[src]).Some? && GroupOf(s.routing[peer]) == GroupOf(s.routing[src]))
    requires Learn(s, src, node, now).Some?
    ensures
      var s' := Learn(s, src, node, now).value;
      && IsRoutable(s', peer) && GroupOf(s'.routing[peer]) == GroupOf(s.routing[peer])
      && s'.routing[peer].value.identity == s.routing[peer].value.identity
      && EffectiveLearn(s'.groups, s'.routing[peer].value).Some?
      && Contains(EffectiveLearn(s'.groups, s'.routing[peer].value).value, node)
  {
    hide GoodTable, Touched, Contains, CountsGood;
    var slot := s.routing[src].value;
    match slot.identity.group {
      case Some(g) => TouchedIsGood(s.groups[g].learn, node, now);
      case None => TouchedIsGood(slot.learn, node, now);
    }
  }

  /** Dispatch leaves alone every endpoint whose decision is not to admit. */
  lemma NotPushed(s: State, src: Id, frame: Bytes, header: ParsedHeader, srcName: string, dest: Id)
    requires !Admits(s, src, dest, header, srcName)
    ensures PushedTo(Dispatch(s, src, frame, header, srcName), dest) == PushedTo(s, dest)
  {}

  lemma IsPushed(s: State, src: Id, frame: Bytes, header: ParsedHeader, srcName: string, dest: Id)
    requires Admits(s, src, dest, header, srcName)
    ensures PushedTo(Dispatch(s, src, frame, header, srcName), dest) == PushedTo(s, dest) + [frame]
  {}

  lemma LoopBlocks(s: State, src: Id, dest: Id, header: ParsedHeader, srcName: string)
    requires IsRoutable(s, dest) && !s.routing[dest].value.identity.sniffer
    requires EffectiveLearn(s.groups, s.routing[dest].value).Some?
    requires Contains(EffectiveLearn(s.groups, s.routing[dest].value).value, header.source)
    ensures !Admits(s, src, dest, header, srcName)
  {}

  /**
   In every reachable state a frame is queued neither to the endpoint it came from nor to
   any other member of that endpoint's group, sniffers apart.
   */
  lemma GroupIsolation(hash: Bytes -> Hash, s: State, src: Id, frame: Bytes, header: ParsedHeader, now: nat, dest: Id)
    requires Inv(s, now)
    requires dest == src ||
             (&& IsRoutable(s, src) && IsRoutable(s, dest)
              && GroupOf(s.routing[src]).Some? && GroupOf(s.routing[dest]) == GroupOf(s.routing[src])
              && !s.routing[dest].value.identity.sniffer)
    ensures PushedTo(OnFrame(hash, s, src, frame, header, now), dest) == PushedTo(s, dest)
  {
    hide CheckAndInsert, Learn, Dispatch, Inv, Contains, Decide, PushedTo;
    IngestOutcome(hash, s, src, frame, header, now);
    SamePushes(s, Ingest(hash, s, src, frame, header, now).state, dest);
    match Ingest(hash, s, src, frame, header, now) {
      case Suppressed(_) =>
      case Admitted(s2, srcName) =>
        if dest != src {
          var s1 := s.(dedup := CheckAndInsert(s.dedup, hash(frame), now).0);
          assert Inv(s1, now) by { SameTables(s, s1, now); }
          LearnedIsContained(s1, src, header.source, now, dest);
          LoopBlocks(s2, src, dest, header, srcName);
        }
        NotPushed(s2, src, frame, header, srcName, dest);
    }
  }

  /** So over a whole run no frame is ever queued back into the group it came from. */
  lemma NeverEchoed(
    hash: Bytes -> Hash, dedupTtl: nat, dedupCapacity: nat, inputs: seq<Input>, i: nat, dest: Id)
    requires LegalRun(hash, NewState(dedupTtl, dedupCapacity), 0, inputs) && i < |inputs| && inputs[i].Inbound?
    requires
      var s := Run(hash, NewState(dedupTtl, dedupCapacity), inputs[..i]);
      var src := inputs[i].src;
      dest == src ||
      (&& IsRoutable(s, src) && IsRoutable(s, dest)
       && GroupOf(s.routing[src]).Some? && GroupOf(s.routing[dest]) == GroupOf(s.routing[src])
       && !s.routing[dest].value.identity.sniffer)
    ensures
      var s0 := NewState(dedupTtl, dedupCapacity);
      PushedTo(Run(hash, s0, inputs[..i + 1]), dest) == PushedTo(Run(hash, s0, inputs[..i]), dest)
  {
    hide Inv, OnFrame, LegalRun, PushedTo;
    var s0 := NewState(dedupTtl, dedupCapacity);
    var s := Run(hash, s0, inputs[..i]);
    LegalPrefix(hash, s0, 0, inputs, i);
    LegalStep(hash, s0, 0, inputs, i);
    ReachableInv(hash, dedupTtl, dedupCapacity, inputs[..i]);
    InvLater(s, RunClock(0, inputs[..i]), inputs[i].now);
    GroupIsolation(hash, s, inputs[i].src, inputs[i].frame, inputs[i].header, inputs[i].now, dest);
    assert inputs[..i + 1][..i] == inputs[..i];
  }

  lemma SamePushes(s: State, s': State, dest: Id)
    requires s'.pushed == s.pushed
    ensures PushedTo(s', dest) == PushedTo(s, dest)
  {}

  /** A frame from an endpoint that is not registered and routable changes nothing at all. */
  lemma UnknownSourceIsInert(hash: Bytes -> Hash, s: State, src: Id, frame: Bytes, header: ParsedHeader, now: nat)
    requires !IsRoutable(s, src)
    ensures OnFrame(hash, s, src, frame, header, now) == s
  {}
}
