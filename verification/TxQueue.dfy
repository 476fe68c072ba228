/**
 The bounded queue between router and writer, and the writer of a UDP peer that drains it
 (src/endpoint/tx_queue.rs, src/endpoint/udp/server.rs).

 Pushes by the router interleave with the steps of the writer.  Frames are identified by
 their position in the sequence of all pushes.
 */
module Egress {
  import opened Frame

  // ---------- The queue ----------

  function Last<T>(s: seq<T>, n: nat): seq<T>
    requires n <= |s|
  {
    s[|s| - n..]
  }

  /** A push: the oldest element leaves when the queue is full. */
  function Pushed<T>(queue: seq<T>, capacity: nat, x: T): seq<T> {
    (if |queue| >= capacity && queue != [] then queue[1..] else queue) + [x]
  }

  /** How many elements such a push displaces. */
  function Displaced<T>(queue: seq<T>, capacity: nat): nat {
    if |queue| >= capacity && queue != [] then 1 else 0
  }

  class TxQueue {
    var queue: seq<Bytes>
    const capacity: nat
    var droppedTx: nat
    ghost var pushes: seq<Bytes>

    /** The queue holds the most recent pushes, oldest first. */
    ghost predicate Valid()
      reads this
    {
      && 0 < capacity
      && |queue| <= capacity && |queue| <= |pushes|
      && queue == Last(pushes, |queue|)
    }

    constructor (capacity: nat)
      ensures Valid() && queue == [] && pushes == [] && droppedTx == 0
      ensures this.capacity == if capacity == 0 then 1 else capacity
    {
      this.capacity := if capacity == 0 then 1 else capacity;
      queue, droppedTx, pushes := [], 0, [];
    }

    /** Insert a frame, evicting and counting the oldest when full. */
    method Push(frame: Bytes)
      requires Valid()
      modifies this
      ensures Valid() && pushes == old(pushes) + [frame]
      ensures queue == (if |old(queue)| < capacity then old(queue) else old(queue)[1..]) + [frame]
      ensures droppedTx == old(droppedTx) + if |old(queue)| < capacity then 0 else 1
    {
      if |queue| >= capacity {
        queue := queue[1..];
        droppedTx := droppedTx + 1;
      }
      queue := queue + [frame];
      pushes := pushes + [frame];
    }

    method Pop() returns (frame: Option<Bytes>)
      requires Valid()
      modifies this`queue
      ensures Valid()
      ensures old(queue) == [] ==> frame.None? && queue == []
      ensures old(queue) != [] ==> frame == Some(old(queue)[0]) && queue == old(queue)[1..]
    {
      if queue == [] {
        return None;
      }
      frame := Some(queue[0]);
      queue := queue[1..];
    }

    method DrainAndDiscard() returns (count: nat)
      requires Valid()
      modifies this`queue, this`droppedTx
      ensures Valid() && queue == []
      ensures count == |old(queue)| && droppedTx == old(droppedTx) + count
    {
      count := 0;
      while queue != []
        invariant Valid() && droppedTx == old(droppedTx)
        invariant count + |queue| == |old(queue)|
        decreases |queue|
      {
        var _ := Pop();
        count := count + 1;
      }
      droppedTx := droppedTx + count;
    }
  }

  // ---------- The queue with its writer ----------

  /** The writer runs, discards what is queued after cancel, or has returned. */
  datatype Phase = Running | Discarding(count: nat) | Returned

  datatype State = State(
    pushes: seq<Bytes>,
    /** the pushes still queued, oldest first */
    queue: seq<nat>,
    capacity: nat,
    /** the push the writer has taken and not yet disposed of */
    hand: Option<nat>,
    /** the pushes that went out, in order */
    wire: seq<nat>,
    txFrames: nat,
    droppedTx: nat,
    phase: Phase)

  function Start(capacity: nat): State {
    State([], [], if capacity == 0 then 1 else capacity, None, [], 0, 0, Running)
  }

  /** The router may push at any time, also while the writer discards and after it has returned. */
  datatype Action = Push(frame: Bytes) | Take | Sent | SendFailed | Cancel | DiscardOne | DiscardEnd

  predicate Enabled(s: State, a: Action) {
    match a
    case Push(_) => true
    case Take => s.phase.Running? && s.hand.None? && s.queue != []
    case Sent => s.hand.Some?
    case SendFailed => s.hand.Some?
    case Cancel => s.phase.Running? && s.hand.None?
    case DiscardOne => s.phase.Discarding? && s.queue != []
    case DiscardEnd => s.phase.Discarding? && s.queue == []
  }

  function Do(s: State, a: Action): State
    requires Enabled(s, a)
  {
    match a
    case Push(f) =>
      s.(queue := Pushed(s.queue, s.capacity, |s.pushes|),
         droppedTx := s.droppedTx + Displaced(s.queue, s.capacity),
         pushes := s.pushes + [f])
    case Take => s.(queue := s.queue[1..], hand := Some(s.queue[0]))
    case Sent => s.(hand := None, wire := s.wire + [s.hand.value], txFrames := s.txFrames + 1)
    case SendFailed => s.(hand := None, droppedTx := s.droppedTx + 1)
    case Cancel => s.(phase := Discarding(0))
    case DiscardOne => s.(queue := s.queue[1..], phase := Discarding(s.phase.count + 1))
    case DiscardEnd => s.(droppedTx := s.droppedTx + s.phase.count, phase := Returned)
  }

  predicate IsRun(s: State, actions: seq<Action>)
    decreases actions
  {
    actions == [] || (Enabled(s, actions[0]) && IsRun(Do(s, actions[0]), actions[1..]))
  }

  function After(s: State, actions: seq<Action>): State
    requires IsRun(s, actions)
    decreases actions
  {
    if actions == [] then s else After(Do(s, actions[0]), actions[1..])
  }

  /** Positions that only go up. */
  ghost predicate Ascending(s: seq<nat>) {
    forall i, j :: 0 <= i < j < |s| ==> s[i] < s[j]
  }

  ghost function InHand(s: State): seq<nat> {
    if s.hand.Some? then [s.hand.value] else []
  }

  /** Everything not yet dropped, in the order it leaves: sent, in hand, queued. */
  ghost function Pipeline(s: State): seq<nat> {
    s.wire + InHand(s) + s.queue
  }

  /** The frames popped by the discarding writer and not counted yet. */
  ghost function Uncounted(s: State): nat {
    if s.phase.Discarding? then s.phase.count else 0
  }

  ghost predicate Ok(s: State) {
    && |s.queue| <= s.capacity && 0 < s.capacity
    && Ascending(Pipeline(s))
    && (forall i :: 0 <= i < |Pipeline(s)| ==> Pipeline(s)[i] < |s.pushes|)
    && s.txFrames == |s.wire|
    && |s.pushes| == |Pipeline(s)| + s.droppedTx + Uncounted(s)
    && (!s.phase.Running? ==> s.hand.None?)
    && QueuesLatest(s)
  }

  /** Overflow drops the oldest, so what is queued are the latest pushes. */
  ghost predicate QueuesLatest(s: State) {
    forall i :: 0 <= i < |s.queue| ==> s.queue[i] == |s.pushes| - |s.queue| + i
  }

  /** Dropping positions from the pipeline keeps it ascending. */
  lemma DropMiddle(a: seq<nat>, b: seq<nat>, c: seq<nat>, n: nat)
    requires Ascending(a + b + c) && forall i :: 0 <= i < |a + b + c| ==> (a + b + c)[i] < n
    ensures Ascending(a + c) && forall i :: 0 <= i < |a + c| ==> (a + c)[i] < n
  {
    var all := a + b + c;
    assert forall i :: 0 <= i < |a| ==> (a + c)[i] == all[i];
    assert forall i :: |a| <= i < |a + c| ==> (a + c)[i] == all[i + |b|];
  }

  lemma AppendTop(p: seq<nat>, n: nat)
    requires Ascending(p) && forall i :: 0 <= i < |p| ==> p[i] < n
    ensures Ascending(p + [n]) && forall i :: 0 <= i < |p + [n]| ==> (p + [n])[i] < n + 1
  {}

  lemma PushOk(s: State, f: Bytes)
    requires Ok(s)
    ensures Ok(Do(s, Push(f)))
  {
    hide Ascending;
    var ahead := s.wire + InHand(s);
    var s' := Do(s, Push(f));
    if |s.queue| >= s.capacity && s.queue != [] {
      assert ahead + [s.queue[0]] + s.queue[1..] == Pipeline(s);
      DropMiddle(ahead, [s.queue[0]], s.queue[1..], |s.pushes|);
      AppendTop(ahead + s.queue[1..], |s.pushes|);
      assert Pipeline(s') == ahead + s.queue[1..] + [|s.pushes|];
    } else {
      AppendTop(Pipeline(s), |s.pushes|);
      assert Pipeline(s') == Pipeline(s) + [|s.pushes|];
    }
  }

  lemma WriterOk(s: State, a: Action)
    requires Ok(s) && Enabled(s, a) && !a.Push?
    ensures Ok(Do(s, a))
  {
    var s' := Do(s, a);
    match a {
      case Take =>
        assert Pipeline(s') == Pipeline(s);
      case Sent =>
        assert Pipeline(s') == Pipeline(s);
      case SendFailed =>
        assert s.wire + [s.hand.value] + s.queue == Pipeline(s);
        DropMiddle(s.wire, [s.hand.value], s.queue, |s.pushes|);
        assert Pipeline(s') == s.wire + s.queue;
      case Cancel =>
        assert Pipeline(s') == Pipeline(s);
      case DiscardOne =>
        assert s.wire + [s.queue[0]] + s.queue[1..] == Pipeline(s);
        DropMiddle(s.wire, [s.queue[0]], s.queue[1..], |s.pushes|);
        assert Pipeline(s') == s.wire + s.queue[1..];
      case DiscardEnd =>
        assert Pipeline(s') == Pipeline(s);
    }
  }

  lemma StepOk(s: State, a: Action)
    requires Ok(s) && Enabled(s, a)
    ensures Ok(Do(s, a))
  {
    hide Ok, Do;
    if a.Push? {
      PushOk(s, a.frame);
    } else {
      WriterOk(s, a);
    }
  }

  lemma {:induction false} RunOk(s: State, actions: seq<Action>)
    requires Ok(s) && IsRun(s, actions)
    ensures Ok(After(s, actions))
    decreases actions
  {
    hide Ok, Do;
    if actions != [] {
      StepOk(s, actions[0]);
      RunOk(Do(s, actions[0]), actions[1..]);
    }
  }

  lemma OkMeans(s: State)
    requires Ok(s)
    ensures Ascending(s.wire) && (forall i :: 0 <= i < |s.wire| ==> s.wire[i] < |s.pushes|)
    ensures |s.pushes| == s.txFrames + s.droppedTx + |s.queue| + |InHand(s)| + Uncounted(s)
  {
    assert forall i :: 0 <= i < |s.wire| ==> Pipeline(s)[i] == s.wire[i];
  }

  /**
   Over every interleaving of router and writer, each pushed frame is sent, counted as
   dropped, still queued, in the writer's hand, or just being discarded; what goes out is
   in push order, and what is queued are the latest pushes.
   */
  lemma EgressConserves(capacity: nat, actions: seq<Action>)
    requires IsRun(Start(capacity), actions)
    ensures
      var s := After(Start(capacity), actions);
      && |s.pushes| == s.txFrames + s.droppedTx + |s.queue| + |InHand(s)| + Uncounted(s)
      && s.txFrames == |s.wire| && Ascending(s.wire)
      && (forall i :: 0 <= i < |s.wire| ==> s.wire[i] < |s.pushes|)
      && |s.queue| <= (if capacity == 0 then 1 else capacity)
      && QueuesLatest(s)
  {
    hide IsRun, After, Do;
    RunOk(Start(capacity), actions);
    RunKeepsCapacity(Start(capacity), actions);
    OkMeans(After(Start(capacity), actions));
  }

  lemma {:induction false} RunKeepsCapacity(s: State, actions: seq<Action>)
    requires IsRun(s, actions)
    ensures After(s, actions).capacity == s.capacity
    decreases actions
  {
    if actions != [] {
      RunKeepsCapacity(Do(s, actions[0]), actions[1..]);
    }
  }

  // ---------- When the queue overflows ----------

  lemma {:induction false} RunSnoc(s: State, actions: seq<Action>)
    requires IsRun(s, actions) && actions != []
    ensures
      var n := |actions| - 1;
      && IsRun(s, actions[..n]) && Enabled(After(s, actions[..n]), actions[n])
      && After(s, actions) == Do(After(s, actions[..n]), actions[n])
    decreases actions
  {
    hide Enabled, Do;
    var n := |actions| - 1;
    if n > 0 {
      RunSnoc(Do(s, actions[0]), actions[1..]);
      assert actions[..n][1..] == actions[1..][..n - 1];
    }
  }

  /** Pushes less takes and discards: what is queued when nothing ever overflows. */
  ghost function Backlog(actions: seq<Action>): int {
    if actions == [] then 0
    else
      var a := actions[|actions| - 1];
      Backlog(actions[..|actions| - 1]) + if a.Push? then 1 else if a.Take? || a.DiscardOne? then -1 else 0
  }

  /** The frames that went out. */
  ghost function SentCount(actions: seq<Action>): nat {
    if actions == [] then 0
    else SentCount(actions[..|actions| - 1]) + if actions[|actions| - 1].Sent? then 1 else 0
  }

  /** The frames lost to failed sends and to the discard at cancel. */
  ghost function GivenUp(actions: seq<Action>): nat {
    if actions == [] then 0
    else
      var a := actions[|actions| - 1];
      GivenUp(actions[..|actions| - 1]) + if a.SendFailed? || a.DiscardOne? then 1 else 0
  }

  ghost predicate WithinCapacity(capacity: nat, actions: seq<Action>) {
    forall n :: 0 <= n <= |actions| ==> Backlog(actions[..n]) <= capacity
  }

  lemma WithinSnoc(capacity: nat, actions: seq<Action>)
    requires actions != []
    ensures WithinCapacity(capacity, actions) <==>
              WithinCapacity(capacity, actions[..|actions| - 1]) && Backlog(actions) <= capacity
  {
    hide Backlog;
    var init := actions[..|actions| - 1];
    assert forall n :: 0 <= n < |actions| ==> init[..n] == actions[..n];
    assert actions[..|actions|] == actions;
    if WithinCapacity(capacity, actions) {
      forall n | 0 <= n <= |init|
        ensures Backlog(init[..n]) <= capacity
      {
        assert init[..n] == actions[..n];
      }
    }
  }

  /** What is queued is the backlog less what overflowed. */
  ghost predicate Counts(capacity: nat, actions: seq<Action>, s: State) {
    var overflown := s.droppedTx + Uncounted(s) - GivenUp(actions);
    && s.capacity == capacity
    && s.txFrames == SentCount(actions)
    && 0 <= overflown == Backlog(actions) - |s.queue|
    && (overflown == 0 <==> WithinCapacity(capacity, actions))
  }

  lemma CountsStep(capacity: nat, actions: seq<Action>, s: State)
    requires actions != [] && 0 < capacity && |s.queue| <= capacity
    requires Counts(capacity, actions[..|actions| - 1], s) && Enabled(s, actions[|actions| - 1])
    ensures Counts(capacity, actions, Do(s, actions[|actions| - 1]))
  {
    hide WithinCapacity;
    WithinSnoc(capacity, actions);
    if WithinCapacity(capacity, actions[..|actions| - 1]) {
      WithinNow(capacity, actions[..|actions| - 1]);
    }
  }

  lemma WithinNow(capacity: nat, actions: seq<Action>)
    requires WithinCapacity(capacity, actions)
    ensures Backlog(actions) <= capacity
  {
    assert actions[..|actions|] == actions;
  }

  lemma {:induction false} RunCounts(capacity: nat, actions: seq<Action>)
    requires 0 < capacity && IsRun(Start(capacity), actions)
    ensures Counts(capacity, actions, After(Start(capacity), actions))
  {
    hide Counts, Do, Enabled;
    if actions == [] {
      NothingCounted(capacity);
    } else {
      var n := |actions| - 1;
      RunSnoc(Start(capacity), actions);
      RunCounts(capacity, actions[..n]);
      EgressConserves(capacity, actions[..n]);
      CountsStep(capacity, actions, After(Start(capacity), actions[..n]));
    }
  }

  lemma NothingCounted(capacity: nat)
    ensures 0 < capacity ==> Counts(capacity, [], Start(capacity))
  {
    var none: seq<Action> := [];
    assert none[..0] == [];
  }

  /**
   What the counters count, over every interleaving: `txFrames` the sends that succeeded,
   `droppedTx` the failed sends, the discarded frames and the overflow; and the queue has
   never overflown exactly when no more than its capacity was ever waiting.
   */
  lemma OverflowIff(capacity: nat, actions: seq<Action>)
    requires IsRun(Start(capacity), actions)
    ensures
      var s := After(Start(capacity), actions);
      && s.txFrames == SentCount(actions)
      && s.droppedTx + Uncounted(s) - GivenUp(actions) == Backlog(actions) - |s.queue| >= 0
      && (s.droppedTx + Uncounted(s) == GivenUp(actions) <==>
            forall n :: 0 <= n <= |actions| ==> Backlog(actions[..n]) <= (if capacity == 0 then 1 else capacity))
  {
    hide IsRun, After, Do, Backlog, GivenUp, SentCount, Uncounted;
    var c := if capacity == 0 then 1 else capacity;
    assert Start(capacity) == Start(c);
    RunCounts(c, actions);
  }

  ghost function FramesAt(pushes: seq<Bytes>, positions: seq<nat>): seq<Bytes>
    requires forall i :: 0 <= i < |positions| ==> positions[i] < |pushes|
  {
    seq(|positions|, i requires 0 <= i < |positions| => pushes[positions[i]])
  }

  /** So the queue of the object and that of the interleaving hold the same frames. */
  lemma QueueHoldsLatest(capacity: nat, actions: seq<Action>)
    requires IsRun(Start(capacity), actions)
    ensures
      var s := After(Start(capacity), actions);
      && (forall i :: 0 <= i < |s.queue| ==> s.queue[i] < |s.pushes|)
      && |s.queue| <= |s.pushes|
      && FramesAt(s.pushes, s.queue) == Last(s.pushes, |s.queue|)
  {
    hide IsRun, After, Do;
    EgressConserves(capacity, actions);
    var s := After(Start(capacity), actions);
    assert forall i :: 0 <= i < |s.queue| ==> s.queue[i] == |s.pushes| - |s.queue| + i;
  }
}
