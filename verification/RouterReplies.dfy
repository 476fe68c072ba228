/**
 Answers find their way back: a node heard behind an endpoint stays reachable through it
 until as many other nodes as a learn table holds have been heard there since.
 */
module RouterReplies {
  import opened Frame
  import opened Sequences
  import opened Learning
  import opened Deduplication
  import opened Deciding
  import opened Routing
  import opened RouterSafety
  import opened RouterDelivery

  // ---------- One table ----------

  /** `n` is in the table, and only nodes of `others` may have been seen after it. */
  ghost predicate TableRemembers(t: Table, n: NodeId, others: set<NodeId>) {
    var view := View(t.entries);
    && n in view
    && forall m :: m in view && m != n && m !in others ==> view[m] < view[n]
  }

  lemma ViewTimes(t: Table, clock: nat)
    requires GoodTable(t, clock)
    ensures forall n :: n in View(t.entries) ==> View(t.entries)[n] <= clock
  {
    ViewEntries(t.entries);
  }

  /** The victim of an eviction is not `n` while fewer than a table of others came after it. */
  lemma VictimIsAnother(view: map<NodeId, nat>, capacity: nat, n: NodeId, others: set<NodeId>, x: NodeId, v: NodeId)
    requires n in view && |view| >= capacity && x !in view
    requires forall m :: m in view && m != n && m !in others ==> view[m] < view[n]
    requires v in view && forall m :: m in view ==> view[v] <= view[m]
    requires x in others && |others| < capacity
    ensures v != n
  {
    if v == n {
      assert (view.Keys - {n}) + {x} <= others;
      SubsetSize((view.Keys - {n}) + {x}, others);
    }
  }

  lemma TouchRemembers(t: Table, n: NodeId, others: set<NodeId>, x: NodeId, now: nat)
    requires GoodTable(t, now) && TableRemembers(t, n, others)
    requires |others + ({x} - {n})| < t.capacity
    ensures TableRemembers(Touched(t, x, now), n, others + ({x} - {n}))
  {
    hide Touched, View, GoodTable;
    assert ValidTable(t) by { GoodIsValid(t, now); }
    TouchedView(t, x, now);
    hide ValidTable;
    ViewTimes(t, now);
    var before, after := View(t.entries), View(Touched(t, x, now).entries);
    if x in before || |before| < t.capacity {
      assert after == before[x := now];
    } else {
      var v :| v in before && (forall m :: m in before ==> before[v] <= before[m])
               && after == (before - {v})[x := now];
      VictimIsAnother(before, t.capacity, n, others + ({x} - {n}), x, v);
    }
  }

  lemma GoodIsValid(t: Table, clock: nat)
    requires GoodTable(t, clock)
    ensures ValidTable(t)
  {}

  /** A sighting later than every earlier one is remembered with nothing seen after it. */
  lemma FirstTouchRemembers(t: Table, n: NodeId, clock: nat, now: nat)
    requires GoodTable(t, clock) && clock < now
    ensures TableRemembers(Touched(t, n, now), n, {})
  {
    hide Touched, View;
    TouchedView(t, n, now);
    ViewTimes(t, clock);
  }

  // ---------- The table of an endpoint, over a run ----------

  ghost predicate Remembers(s: State, a: Id, n: NodeId, others: set<NodeId>) {
    && IsRoutable(s, a)
    && EffectiveLearn(s.groups, s.routing[a].value).Some?
    && TableRemembers(EffectiveLearn(s.groups, s.routing[a].value).value, n, others)
  }

  /** The node, if any, that an input records in the table consulted for `a`. */
  ghost function RecordedFor(hash: Bytes -> Hash, s: State, input: Input, a: Id): set<NodeId> {
    if AdmittedIn(hash, s, input) && SharesTable(s, input.src, a) then {input.header.source} else {}
  }

  /** The nodes other than `n` recorded in the table consulted for `a` during a run. */
  ghost function OthersSince(hash: Bytes -> Hash, s: State, inputs: seq<Input>, a: Id, n: NodeId): set<NodeId> {
    if inputs == [] then {}
    else
      var k := |inputs| - 1;
      OthersSince(hash, s, inputs[..k], a, n) +
      (RecordedFor(hash, Run(hash, s, inputs[..k]), inputs[k], a) - {n})
  }

  /** An event that does not remove `a` leaves its identity and its table as they are. */
  lemma EventKeepsTable(s: State, e: Event, clock: nat, a: Id)
    requires Inv(s, clock) && IsRoutable(s, a)
    requires FreshInput(s, Lifecycle(e)) && !(e.PeerRemoved? && e.id == a)
    ensures
      var s' := OnEvent(s, e);
      && IsRoutable(s', a) && s'.routing[a] == s.routing[a]
      && EffectiveLearn(s'.groups, s'.routing[a].value) == EffectiveLearn(s.groups, s.routing[a].value)
  {
    hide NewTable, TablesGood, Members;
    if e.PeerRemoved? && e.id in s.routing {
      var g := GroupOf(s.routing[a]);
      if g.Some? && GroupOf(s.routing[e.id]) == g {
        BothMembers(s.routing, g.value, a, e.id);
      }
    }
  }

  lemma BothMembers(routing: map<Id, Slot>, g: string, a: Id, b: Id)
    requires a in routing && b in routing && a != b
    requires GroupOf(routing[a]) == Some(g) && GroupOf(routing[b]) == Some(g)
    ensures |Members(routing, g)| > 1
  {
    TwoMembers(Members(routing, g), a, b);
  }

  lemma DispatchKeepsTables(s: State, src: Id, frame: Bytes, header: ParsedHeader, srcName: string)
    ensures Dispatch(s, src, frame, header, srcName).routing == s.routing
    ensures Dispatch(s, src, frame, header, srcName).groups == s.groups
  {}

  /** What a frame does to the table consulted for `a`: nothing, or one touch. */
  lemma FrameTouchesTable(hash: Bytes -> Hash, s: State, input: Input, a: Id)
    requires input.Inbound? && Inv(s, input.now) && IsRoutable(s, a)
    ensures
      var s' := Step(hash, s, input);
      var before := EffectiveLearn(s.groups, s.routing[a].value);
      && IsRoutable(s', a) && s'.routing[a].value.identity == s.routing[a].value.identity
      && before.Some?
      && EffectiveLearn(s'.groups, s'.routing[a].value)
           == if AdmittedIn(hash, s, input) && SharesTable(s, input.src, a)
              then Some(Touched(before.value, input.header.source, input.now)) else before
  {
    hide CheckAndInsert, Learn, Dispatch, Inv, Touched;
    EffectiveTableExists(s, input.now, a);
    IngestOutcome(hash, s, input.src, input.frame, input.header, input.now);
    var r := Ingest(hash, s, input.src, input.frame, input.header, input.now);
    if r.Admitted? {
      DispatchKeepsTables(r.state, input.src, input.frame, input.header, r.srcName);
      var s1 := s.(dedup := CheckAndInsert(s.dedup, hash(input.frame), input.now).0);
      if SharesTable(s1, input.src, a) {
        LearnTouches(s1, input.src, input.header.source, input.now, a);
      } else {
        OtherTablesKept(s1, input.src, input.header.source, input.now, a);
      }
    }
  }

  lemma LearnTouches(s: State, src: Id, node: NodeId, now: nat, a: Id)
    requires SharesTable(s, src, a) && Learn(s, src, node, now).Some?
    requires EffectiveLearn(s.groups, s.routing[a].value).Some?
    ensures
      var s' := Learn(s, src, node, now).value;
      && IsRoutable(s', a) && s'.routing[a].value.identity == s.routing[a].value.identity
      && EffectiveLearn(s'.groups, s'.routing[a].value)
           == Some(Touched(EffectiveLearn(s.groups, s.routing[a].value).value, node, now))
  {
    hide Touched;
  }

  predicate Removes(input: Input, a: Id) {
    input.Lifecycle? && input.event.PeerRemoved? && input.event.id == a
  }

  lemma FrameRemembers(hash: Bytes -> Hash, s: State, input: Input, a: Id, n: NodeId, others: set<NodeId>)
    requires input.Inbound? && Inv(s, input.now) && Remembers(s, a, n, others)
    requires |others + (RecordedFor(hash, s, input, a) - {n})| < 32
    ensures Remembers(Step(hash, s, input), a, n, others + (RecordedFor(hash, s, input, a) - {n}))
  {
    hide Inv, TableRemembers, Step, AdmittedIn, Touched, SharesTable;
    FrameTouchesTable(hash, s, input, a);
    if AdmittedIn(hash, s, input) && SharesTable(s, input.src, a) {
      EffectiveTableExists(s, input.now, a);
      TableOf(s, input.now, a);
      TouchRemembers(EffectiveLearn(s.groups, s.routing[a].value).value, n, others, input.header.source, input.now);
    } else {
      assert others + (RecordedFor(hash, s, input, a) - {n}) == others;
    }
  }

  lemma EventRemembers(hash: Bytes -> Hash, s: State, e: Event, clock: nat, a: Id, n: NodeId, others: set<NodeId>)
    requires Inv(s, clock) && FreshInput(s, Lifecycle(e)) && !Removes(Lifecycle(e), a)
    requires Remembers(s, a, n, others)
    ensures Remembers(OnEvent(s, e), a, n, others)
    ensures others + (RecordedFor(hash, s, Lifecycle(e), a) - {n}) == others
  {
    hide Inv, TableRemembers, OnEvent;
    EventKeepsTable(s, e, clock, a);
  }

  lemma StepRemembers(hash: Bytes -> Hash, s: State, input: Input, clock: nat, a: Id, n: NodeId, others: set<NodeId>)
    requires Inv(s, clock) && FreshInput(s, input) && (input.Inbound? ==> clock <= input.now)
    requires Remembers(s, a, n, others) && !Removes(input, a)
    requires |others + (RecordedFor(hash, s, input, a) - {n})| < 32
    ensures Remembers(Step(hash, s, input), a, n, others + (RecordedFor(hash, s, input, a) - {n}))
  {
    hide Inv, Remembers, OnFrame, OnEvent, RecordedFor;
    match input {
      case Lifecycle(e) =>
        EventRemembers(hash, s, e, clock, a, n, others);
      case Inbound(_, _, _, now) =>
        InvLater(s, clock, now);
        FrameRemembers(hash, s, input, a, n, others);
    }
  }

  lemma TableOf(s: State, clock: nat, a: Id)
    requires Inv(s, clock) && IsRoutable(s, a)
    requires EffectiveLearn(s.groups, s.routing[a].value).Some?
    ensures EffectiveLearn(s.groups, s.routing[a].value).value.capacity == 32
  {}

  /** Over a whole run that keeps the endpoint, fewer than a table of others keeps the node. */
  lemma {:induction false} RunRemembers(hash: Bytes -> Hash, s: State, from: nat, inputs: seq<Input>, a: Id, n: NodeId)
    requires Inv(s, from) && LegalRun(hash, s, from, inputs)
    requires Remembers(s, a, n, {})
    requires forall i :: 0 <= i < |inputs| ==> !Removes(inputs[i], a)
    requires |OthersSince(hash, s, inputs, a, n)| < 32
    ensures Remembers(Run(hash, s, inputs), a, n, OthersSince(hash, s, inputs, a, n))
  {
    hide Inv, Step, LegalRun, Remembers, RecordedFor, Removes;
    if inputs != [] {
      var k := |inputs| - 1;
      var others := OthersSince(hash, s, inputs[..k], a, n);
      SubsetSize(others, OthersSince(hash, s, inputs, a, n));
      LegalPrefix(hash, s, from, inputs, k);
      LegalStep(hash, s, from, inputs, k);
      RunKeepsInv(hash, s, from, inputs[..k]);
      RunRemembers(hash, s, from, inputs[..k], a, n);
      StepRemembers(hash, Run(hash, s, inputs[..k]), inputs[k], RunClock(from, inputs[..k]), a, n, others);
    }
  }

  // ---------- Delivery ----------

  lemma FirstHeard(hash: Bytes -> Hash, s: State, input: Input, clock: nat)
    requires Inv(s, clock) && AdmittedIn(hash, s, input) && clock < input.now
    ensures Remembers(Step(hash, s, input), input.src, input.header.source, {})
  {
    hide Inv, Touched, TableRemembers, Step;
    InvLater(s, clock, input.now);
    assert IsRoutable(s, input.src);
    FrameTouchesTable(hash, s, input, input.src);
    EffectiveTableExists(s, clock, input.src);
    var learn := EffectiveLearn(s.groups, s.routing[input.src].value).value;
    FirstTouchRemembers(learn, input.header.source, clock, input.now);
  }

  /** A frame matches a table exactly when it has no target system or an addressee was learned. */
  lemma TargetRule(header: ParsedHeader, learn: Table)
    ensures TargetMatch(header, learn) <==>
              || header.targetSystem.None? || header.targetSystem.value == 0
              || exists n :: Contains(learn, n) && Addresses(header, n)
  {
    hide Contains;
    if header.targetSystem.Some? && header.targetSystem.value != 0 {
      if TargetMatch(header, learn) {
        var n := MatchedNode(header, learn);
        assert Contains(learn, n) && Addresses(header, n);
      }
      forall n | Contains(learn, n) && Addresses(header, n)
        ensures TargetMatch(header, learn)
      {
        AddressedMatches(header, learn, n);
      }
    }
  }

  lemma AddressedMatches(header: ParsedHeader, learn: Table, n: NodeId)
    requires Addresses(header, n) && Contains(learn, n)
    ensures TargetMatch(header, learn)
  {
    var i :| 0 <= i < |learn.entries| && learn.entries[i].node == n;
    assert learn.entries[i].node.sys == n.sys;
  }

  /** An admitted frame addressed to a remembered node goes to the endpoint it lives behind. */
  lemma RememberedIsAnswered(hash: Bytes -> Hash, s: State, reply: Input, a: Id, n: NodeId, others: set<NodeId>)
    requires reply.Inbound? && Inv(s, reply.now) && Remembers(s, a, n, others)
    requires AdmittedIn(hash, s, reply) && Addresses(reply.header, n)
    requires !SharesTable(s, reply.src, a)
    requires
      var slot := s.routing[a].value;
      && !Contains(EffectiveLearn(s.groups, slot).value, reply.header.source)
      && OutListed(slot.identity.filters, reply.header.msgid, reply.header.source,
                   s.routing[reply.src].value.endpointName)
    ensures DeliveredIn(hash, s, reply, a)
  {
    hide CheckAndInsert, Learn, Contains, PassesOutFilter, OutListed, TargetMatch, Inv;
    OutFilterIs(s.routing[a].value.identity.filters, reply.header.msgid, reply.header.source,
                s.routing[reply.src].value.endpointName);
    IngestOutcome(hash, s, reply.src, reply.frame, reply.header, reply.now);
    var s1 := s.(dedup := CheckAndInsert(s.dedup, hash(reply.frame), reply.now).0);
    OtherTablesKept(s1, reply.src, reply.header.source, reply.now, a);
    EffectiveTableExists(s, reply.now, a);
    var learn := EffectiveLearn(s.groups, s.routing[a].value).value;
    RememberedIsContained(learn, reply.now, n, others);
    AddressedMatches(reply.header, learn, n);
  }

  lemma RememberedIsContained(t: Table, clock: nat, n: NodeId, others: set<NodeId>)
    requires GoodTable(t, clock) && TableRemembers(t, n, others)
    ensures Contains(t, n)
  {
    ContainsIffView(t, n);
  }

  /**
   Reply delivery.  A frame from node `n` is admitted through endpoint `a`, later than
   every frame before it.  As long as `a` stays registered and fewer than a table's
   capacity of other nodes are heard through its table, a frame addressed to `n` that is
   admitted from an endpoint with another table, and that `a` neither loop-blocks nor
   filters out, is queued on `a`.
   */
  lemma ReplyIsDelivered(hash: Bytes -> Hash, s: State, clock: nat, heard: Input, inputs: seq<Input>, reply: Input)
    requires Inv(s, clock)
    requires AdmittedIn(hash, s, heard) && clock < heard.now
    requires LegalRun(hash, Step(hash, s, heard), heard.now, inputs)
    requires forall i :: 0 <= i < |inputs| ==> !Removes(inputs[i], heard.src)
    requires |OthersSince(hash, Step(hash, s, heard), inputs, heard.src, heard.header.source)| < 32
    requires
      var s' := Run(hash, Step(hash, s, heard), inputs);
      && AdmittedIn(hash, s', reply) && RunClock(heard.now, inputs) <= reply.now
      && Addresses(reply.header, heard.header.source)
      && !SharesTable(s', reply.src, heard.src)
      && (IsRoutable(s', heard.src) && EffectiveLearn(s'.groups, s'.routing[heard.src].value).Some? ==>
            var slot := s'.routing[heard.src].value;
            && !Contains(EffectiveLearn(s'.groups, slot).value, reply.header.source)
            && OutListed(slot.identity.filters, reply.header.msgid, reply.header.source,
                         s'.routing[reply.src].value.endpointName))
    ensures
      var s' := Run(hash, Step(hash, s, heard), inputs);
      PushedTo(Step(hash, s', reply), heard.src) == PushedTo(s', heard.src) + [reply.frame]
  {
    hide Inv, Step, Run, LegalRun, OthersSince, Contains, OutListed, PushedTo, DeliveredIn,
         TableRemembers, Addresses, SharesTable, Removes;
    var a, n := heard.src, heard.header.source;
    var s1 := Step(hash, s, heard);
    var s' := Run(hash, s1, inputs);
    FirstHeard(hash, s, heard, clock);
    HeardKeepsInv(hash, s, heard, clock);
    RunRemembers(hash, s1, heard.now, inputs, a, n);
    RunKeepsInv(hash, s1, heard.now, inputs);
    InvLater(s', RunClock(heard.now, inputs), reply.now);
    RememberedIsAnswered(hash, s', reply, a, n, OthersSince(hash, s1, inputs, a, n));
    StepPushes(hash, s', reply, a);
  }

  lemma HeardKeepsInv(hash: Bytes -> Hash, s: State, heard: Input, clock: nat)
    requires Inv(s, clock) && heard.Inbound? && clock < heard.now
    ensures Inv(Step(hash, s, heard), heard.now)
  {
    hide Inv, Step;
    StepKeepsInv(hash, s, heard, clock, heard.now);
  }
}
