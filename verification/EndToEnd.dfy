/**
 From the endpoint tasks to the wire: the registration protocol, the router and the writer
 of one peer stepping together (src/router/mod.rs, src/endpoint/tx_queue.rs,
 src/endpoint/udp/server.rs).  Whatever the router pushes to the peer enters its queue at
 that step; the writer takes its own steps in between.
 */
module EndToEnd {
  import opened Frame
  import opened Deduplication
  import opened Routing
  import opened RouterSafety
  import opened RouterDelivery
  import opened RouterHistory
  import Protocol
  import Egress

  /** Over every interleaving each queue was given exactly the frames the history calls for. */
  lemma EveryPushIsOwed(
    hash: Bytes -> Hash, dedupTtl: nat, dedupCapacity: nat, actions: seq<Protocol.Action>, dest: Id)
    requires Protocol.IsRun(hash, Protocol.Start(dedupTtl, dedupCapacity), actions)
    ensures
      var s := Protocol.After(hash, Protocol.Start(dedupTtl, dedupCapacity), actions);
      PushedTo(s.router, dest) == Owed(hash, dedupTtl, dedupCapacity, s.log, dest)
  {
    hide Protocol.IsRun, Protocol.After, LegalRun, Run, Owed, PushedTo;
    Protocol.RouterRunsLegally(hash, dedupTtl, dedupCapacity, actions);
    var s := Protocol.After(hash, Protocol.Start(dedupTtl, dedupCapacity), actions);
    PushesByHistory(hash, dedupTtl, dedupCapacity, s.log, dest);
  }

  // ---------- The joint system ----------

  datatype Joint = Joint(sys: Protocol.Sys, egress: Egress.State)

  /** A step of the tasks, listeners and router, or one of the peer's writer. */
  datatype Step = Tasks(action: Protocol.Action) | Writer(step: Egress.Action)

  ghost predicate CanStep(j: Joint, a: Step) {
    match a
    case Tasks(action) => Protocol.Enabled(j.sys, action)
    case Writer(step) => !step.Push? && Egress.Enabled(j.egress, step)
  }

  /** What the router has pushed to the peer and its queue has not seen yet. */
  ghost function Unseen(s: State, dest: Id, e: Egress.State): seq<Bytes> {
    if |e.pushes| <= |PushedTo(s, dest)| then PushedTo(s, dest)[|e.pushes|..] else []
  }

  ghost function Enter(e: Egress.State, frames: seq<Bytes>): Egress.State
    decreases frames
  {
    if frames == [] then e else Enter(Egress.Do(e, Egress.Push(frames[0])), frames[1..])
  }

  ghost function Next(hash: Bytes -> Hash, dest: Id, j: Joint, a: Step): Joint
    requires CanStep(j, a)
  {
    match a
    case Tasks(action) =>
      var sys := Protocol.Do(hash, j.sys, action);
      Joint(sys, Enter(j.egress, Unseen(sys.router, dest, j.egress)))
    case Writer(step) => j.(egress := Egress.Do(j.egress, step))
  }

  ghost predicate IsJointRun(hash: Bytes -> Hash, dest: Id, j: Joint, steps: seq<Step>)
    decreases steps
  {
    steps == [] || (CanStep(j, steps[0]) && IsJointRun(hash, dest, Next(hash, dest, j, steps[0]), steps[1..]))
  }

  ghost function JointAfter(hash: Bytes -> Hash, dest: Id, j: Joint, steps: seq<Step>): Joint
    requires IsJointRun(hash, dest, j, steps)
    decreases steps
  {
    if steps == [] then j else JointAfter(hash, dest, Next(hash, dest, j, steps[0]), steps[1..])
  }

  // ---------- What every step keeps ----------

  ghost predicate JointOk(hash: Bytes -> Hash, s0: State, dest: Id, j: Joint) {
    && Protocol.Ok(j.sys)
    && Protocol.RouterRan(hash, s0, j.sys)
    && Egress.Ok(j.egress)
    && j.egress.pushes == PushedTo(j.sys.router, dest)
  }

  lemma {:induction false} EnterKeeps(e: Egress.State, frames: seq<Bytes>)
    requires Egress.Ok(e)
    ensures Egress.Ok(Enter(e, frames)) && Enter(e, frames).pushes == e.pushes + frames
    decreases frames
  {
    hide Egress.Ok;
    if frames != [] {
      var e' := Egress.Do(e, Egress.Push(frames[0]));
      Egress.StepOk(e, Egress.Push(frames[0]));
      EnterKeeps(e', frames[1..]);
      assert e.pushes + [frames[0]] + frames[1..] == e.pushes + frames;
    }
  }

  lemma WriterLeavesPushes(e: Egress.State, a: Egress.Action)
    requires Egress.Enabled(e, a) && !a.Push?
    ensures Egress.Do(e, a).pushes == e.pushes
  {}

  /** The router only ever adds to what it has pushed. */
  lemma PushesGrow(hash: Bytes -> Hash, s: Protocol.Sys, a: Protocol.Action, dest: Id)
    requires Protocol.Enabled(s, a)
    ensures PushedTo(s.router, dest) <= PushedTo(Protocol.Do(hash, s, a).router, dest)
  {
    if a.RouterEvent? {
      EventGrows(hash, s, dest);
    } else if a.RouterFrame? {
      FrameGrows(hash, s, a.now, dest);
    } else {
      hide Protocol.Do, Protocol.Enabled, PushedTo;
      Protocol.TasksLeaveRouter(hash, s, a);
    }
  }

  lemma EventGrows(hash: Bytes -> Hash, s: Protocol.Sys, dest: Id)
    requires s.events != []
    ensures PushedTo(s.router, dest) <= PushedTo(Protocol.Do(hash, s, Protocol.RouterEvent).router, dest)
  {
    hide OnEvent, OnFrame, PushedTo;
    EventKeepsPushes(s.router, s.events[0], dest);
  }

  lemma FrameGrows(hash: Bytes -> Hash, s: Protocol.Sys, now: nat, dest: Id)
    requires Protocol.Enabled(s, Protocol.RouterFrame(now))
    ensures PushedTo(s.router, dest) <= PushedTo(Protocol.Do(hash, s, Protocol.RouterFrame(now)).router, dest)
  {
    hide OnEvent, OnFrame, PushedTo, DeliveredIn;
    var f := s.frames[0];
    StepPushes(hash, s.router, Inbound(f.src, f.frame, f.header, now), dest);
  }

  lemma TasksKeep(hash: Bytes -> Hash, s0: State, dest: Id, j: Joint, a: Protocol.Action)
    requires JointOk(hash, s0, dest, j) && Protocol.Enabled(j.sys, a)
    ensures JointOk(hash, s0, dest, Next(hash, dest, j, Tasks(a)))
  {
    hide Protocol.Ok, Protocol.RouterRan, Egress.Ok, Protocol.Do, Protocol.Enabled, PushedTo, Enter;
    var sys := Protocol.Do(hash, j.sys, a);
    Protocol.StepOk(hash, j.sys, a);
    Protocol.StepRan(hash, s0, j.sys, a);
    PushesGrow(hash, j.sys, a, dest);
    EnterKeeps(j.egress, Unseen(sys.router, dest, j.egress));
    assert j.egress.pushes + Unseen(sys.router, dest, j.egress) == PushedTo(sys.router, dest);
  }

  lemma WriterKeeps(hash: Bytes -> Hash, s0: State, dest: Id, j: Joint, a: Egress.Action)
    requires JointOk(hash, s0, dest, j) && !a.Push? && Egress.Enabled(j.egress, a)
    ensures JointOk(hash, s0, dest, Next(hash, dest, j, Writer(a)))
  {
    hide Protocol.Ok, Protocol.RouterRan, Egress.Ok, Egress.Do, Egress.Enabled, PushedTo;
    Egress.StepOk(j.egress, a);
    WriterLeavesPushes(j.egress, a);
  }

  lemma {:induction false} RunKeeps(hash: Bytes -> Hash, s0: State, dest: Id, j: Joint, steps: seq<Step>)
    requires JointOk(hash, s0, dest, j) && IsJointRun(hash, dest, j, steps)
    ensures JointOk(hash, s0, dest, JointAfter(hash, dest, j, steps))
    decreases steps
  {
    hide JointOk, Next, Protocol.Enabled, Egress.Enabled;
    if steps != [] {
      match steps[0] {
        case Tasks(a) => TasksKeep(hash, s0, dest, j, a);
        case Writer(a) => WriterKeeps(hash, s0, dest, j, a);
      }
      RunKeeps(hash, s0, dest, Next(hash, dest, j, steps[0]), steps[1..]);
    }
  }

  lemma {:induction false} EnterCapacity(e: Egress.State, frames: seq<Bytes>)
    ensures Enter(e, frames).capacity == e.capacity
    decreases frames
  {
    if frames != [] {
      EnterCapacity(Egress.Do(e, Egress.Push(frames[0])), frames[1..]);
    }
  }

  lemma WriterCapacity(e: Egress.State, a: Egress.Action)
    requires Egress.Enabled(e, a)
    ensures Egress.Do(e, a).capacity == e.capacity
  {}

  lemma {:induction false} JointCapacity(hash: Bytes -> Hash, dest: Id, j: Joint, steps: seq<Step>)
    requires IsJointRun(hash, dest, j, steps)
    ensures JointAfter(hash, dest, j, steps).egress.capacity == j.egress.capacity
    decreases steps
  {
    hide Protocol.Do, Protocol.Enabled, Egress.Do, Egress.Enabled, Enter, Unseen;
    if steps != [] {
      match steps[0] {
        case Tasks(a) => EnterCapacity(j.egress, Unseen(Protocol.Do(hash, j.sys, a).router, dest, j.egress));
        case Writer(a) => WriterCapacity(j.egress, a);
      }
      JointCapacity(hash, dest, Next(hash, dest, j, steps[0]), steps[1..]);
    }
  }

  ghost function JointStart(dedupTtl: nat, dedupCapacity: nat, queueCapacity: nat): Joint {
    Joint(Protocol.Start(dedupTtl, dedupCapacity), Egress.Start(queueCapacity))
  }

  lemma StartsOk(hash: Bytes -> Hash, dedupTtl: nat, dedupCapacity: nat, queueCapacity: nat, dest: Id)
    ensures JointOk(hash, NewState(dedupTtl, dedupCapacity), dest, JointStart(dedupTtl, dedupCapacity, queueCapacity))
  {
    hide Protocol.Ok;
    Protocol.StartOk(dedupTtl, dedupCapacity);
  }

  // ---------- The wire ----------

  /**
   The whole path.  Over every interleaving of endpoint tasks, listeners, router and the
   peer's writer, what went out to the peer is, in order, a selection of the frames that
   the router's history owes it, and every owed frame that did not go out is queued, in
   the writer's hand, or accounted for as dropped.
   */
  lemma WireIsOwed(
    hash: Bytes -> Hash, dedupTtl: nat, dedupCapacity: nat, queueCapacity: nat, dest: Id, steps: seq<Step>)
    requires IsJointRun(hash, dest, JointStart(dedupTtl, dedupCapacity, queueCapacity), steps)
    ensures
      var j := JointAfter(hash, dest, JointStart(dedupTtl, dedupCapacity, queueCapacity), steps);
      var owed := Owed(hash, dedupTtl, dedupCapacity, j.sys.log, dest);
      var e := j.egress;
      && e.pushes == owed
      && Egress.Ascending(e.wire) && (forall i :: 0 <= i < |e.wire| ==> e.wire[i] < |owed|)
      && e.txFrames == |e.wire|
      && |owed| == e.txFrames + e.droppedTx + |e.queue| + |Egress.InHand(e)| + Egress.Uncounted(e)
      && |e.queue| <= (if queueCapacity == 0 then 1 else queueCapacity)
  {
    hide IsJointRun, JointAfter, Protocol.Ok, Run, LegalRun, Owed, PushedTo;
    var s0, j0 := NewState(dedupTtl, dedupCapacity), JointStart(dedupTtl, dedupCapacity, queueCapacity);
    StartsOk(hash, dedupTtl, dedupCapacity, queueCapacity, dest);
    RunKeeps(hash, s0, dest, j0, steps);
    JointCapacity(hash, dest, j0, steps);
    var j := JointAfter(hash, dest, j0, steps);
    PushesByHistory(hash, dedupTtl, dedupCapacity, j.sys.log, dest);
    Egress.OkMeans(j.egress);
  }
}
