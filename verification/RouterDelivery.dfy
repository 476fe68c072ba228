/**
 What the router delivers, over whole runs: frames reach exactly the destinations decided
 for them, once each and in order.
 */
module RouterDelivery {
  import opened Frame
  import opened Learning
  import opened Deduplication
  import opened Deciding
  import opened Routing
  import opened RouterSafety

  // ---------- Exactly once, in order ----------

  /** The input is a frame that the router admits in state `s`. */
  ghost predicate AdmittedIn(hash: Bytes -> Hash, s: State, input: Input) {
    input.Inbound? && Ingest(hash, s, input.src, input.frame, input.header, input.now).Admitted?
  }

  /** The input is an admitted frame and the decision at `dest`, source learned, is to admit it. */
  ghost predicate DeliveredIn(hash: Bytes -> Hash, s: State, input: Input, dest: Id) {
    && AdmittedIn(hash, s, input)
    && var r := Ingest(hash, s, input.src, input.frame, input.header, input.now);
       Admits(r.state, input.src, dest, input.header, r.srcName)
  }

  /** The frames of a run decided for `dest`, in order of arrival. */
  ghost function Deliveries(hash: Bytes -> Hash, s: State, inputs: seq<Input>, dest: Id): seq<Bytes> {
    if inputs == [] then []
    else
      var n := |inputs| - 1;
      Deliveries(hash, s, inputs[..n], dest) +
      if DeliveredIn(hash, Run(hash, s, inputs[..n]), inputs[n], dest) then [inputs[n].frame] else []
  }

  lemma EventKeepsPushes(s: State, e: Event, dest: Id)
    ensures PushedTo(OnEvent(s, e), dest) == PushedTo(s, dest)
  {}

  lemma IngestKeepsPushes(hash: Bytes -> Hash, s: State, src: Id, frame: Bytes, header: ParsedHeader, now: nat)
    ensures Ingest(hash, s, src, frame, header, now).state.pushed == s.pushed
  {
    hide CheckAndInsert, Touched;
  }

  lemma StepPushes(hash: Bytes -> Hash, s: State, input: Input, dest: Id)
    ensures PushedTo(Step(hash, s, input), dest)
         == PushedTo(s, dest) + if DeliveredIn(hash, s, input, dest) then [input.frame] else []
  {
    hide Ingest, Dispatch, PushedTo, Admits, OnEvent;
    match input {
      case Lifecycle(e) => EventKeepsPushes(s, e, dest);
      case Inbound(src, frame, header, now) =>
        IngestKeepsPushes(hash, s, src, frame, header, now);
        var r := Ingest(hash, s, src, frame, header, now);
        SamePushes(s, r.state, dest);
        if r.Admitted? {
          if Admits(r.state, src, dest, header, r.srcName) {
            IsPushed(r.state, src, frame, header, r.srcName, dest);
          } else {
            NotPushed(r.state, src, frame, header, r.srcName, dest);
          }
        }
    }
  }

  /** Each destination's queue received exactly the frames decided for it, once each, in order. */
  lemma {:induction false} ExactlyOnceInOrder(hash: Bytes -> Hash, s: State, inputs: seq<Input>, dest: Id)
    ensures PushedTo(Run(hash, s, inputs), dest) == PushedTo(s, dest) + Deliveries(hash, s, inputs, dest)
  {
    hide Step, PushedTo, DeliveredIn;
    if inputs != [] {
      var n := |inputs| - 1;
      ExactlyOnceInOrder(hash, s, inputs[..n], dest);
      StepPushes(hash, Run(hash, s, inputs[..n]), inputs[n], dest);
    }
  }

  // ---------- Tables and addressees ----------

  /** Two endpoints consult the same table. */
  ghost predicate SharesTable(s: State, a: Id, b: Id) {
    && IsRoutable(s, a) && IsRoutable(s, b)
    && (a == b || (GroupOf(s.routing[a]).Some? && GroupOf(s.routing[a]) == GroupOf(s.routing[b])))
  }

  /** Learning leaves every other table alone. */
  lemma OtherTablesKept(s: State, src: Id, node: NodeId, now: nat, id: Id)
    requires IsRoutable(s, src) && IsRoutable(s, id) && Learn(s, src, node, now).Some?
    requires !SharesTable(s, src, id)
    ensures
      var s' := Learn(s, src, node, now).value;
      && IsRoutable(s', id) && s'.routing[id] == s.routing[id]
      && EffectiveLearn(s'.groups, s'.routing[id].value) == EffectiveLearn(s.groups, s.routing[id].value)
  {
    hide Touched;
  }

  /** The header is addressed to a system, and `n` is an addressee. */
  predicate Addresses(header: ParsedHeader, n: NodeId) {
    && header.targetSystem == Some(n.sys)
    && n.sys != 0
    && (header.targetComponent.None? || header.targetComponent.value == 0 || header.targetComponent.value == n.comp)
  }

  lemma MatchedNode(header: ParsedHeader, learn: Table) returns (n: NodeId)
    requires header.targetSystem.Some? && header.targetSystem.value != 0
    requires TargetMatch(header, learn)
    ensures Contains(learn, n) && Addresses(header, n)
  {
    if header.targetComponent.None? || header.targetComponent.value == 0 {
      var i :| 0 <= i < |learn.entries| && learn.entries[i].node.sys == header.targetSystem.value;
      n := learn.entries[i].node;
    } else {
      n := NodeId(header.targetSystem.value, header.targetComponent.value);
    }
  }
}
