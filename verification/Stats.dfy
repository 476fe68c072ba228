/**
 The stats task and its line queue (src/stats.rs).

 Interval ticks enqueue one line per registered endpoint, dropping the oldest line when
 the queue is full; the end of an endpoint enqueues a final line, which makes room at the
 expense of interval lines first.  The loop drains the queue after every step, and stops
 draining once cancelled until the very end.
 */
module Stats {
  import opened Routing

  /** A queued line; `final` lines report the end of an endpoint. */
  datatype Line = Line(id: Id, final: bool)

  datatype Task = Task(
    registry: set<Id>,
    queue: seq<Line>,
    capacity: nat,
    enabled: bool,
    totalDropped: nat,
    /** every line ever enqueued, in order */
    offered: seq<Line>,
    dequeued: seq<Line>,
    /** every line given up for lack of room */
    dropped: seq<Line>)

  function NewTask(capacity: nat, enabled: bool): Task {
    Task({}, [], capacity, enabled, 0, [], [], [])
  }

  function RemoveAt<T>(s: seq<T>, i: nat): seq<T>
    requires i < |s|
  {
    s[..i] + s[i + 1..]
  }

  /** The oldest interval line, or the length when every line is final. */
  function FirstInterval(queue: seq<Line>): (i: nat)
    ensures i <= |queue|
    ensures i < |queue| ==> !queue[i].final
    ensures forall j :: 0 <= j < i ==> queue[j].final
  {
    if queue == [] || !queue[0].final then 0 else 1 + FirstInterval(queue[1..])
  }

  /** `after` is `before` without its oldest interval line, or its oldest line when all are final, then `line`. */
  ghost predicate GivesWay(before: seq<Line>, after: seq<Line>, line: Line) {
    exists k :: 0 <= k < |before| && FirstToGo(before, k) && after == before[..k] + before[k + 1..] + [line]
  }

  ghost predicate FirstToGo(queue: seq<Line>, k: nat)
    requires k < |queue|
  {
    || (!queue[k].final && forall j :: 0 <= j < k ==> queue[j].final)
    || (k == 0 && forall j :: 0 <= j < |queue| ==> queue[j].final)
  }

  /** Append a line, evicting the one at `victim` when the queue is full. */
  function Enqueue(t: Task, line: Line, victim: nat): Task {
    if t.capacity == 0 then
      t.(offered := t.offered + [line], totalDropped := t.totalDropped + 1, dropped := t.dropped + [line])
    else if |t.queue| < t.capacity || victim >= |t.queue|
    then t.(offered := t.offered + [line], queue := t.queue + [line])
    else
      t.(offered := t.offered + [line],
         queue := RemoveAt(t.queue, victim) + [line],
         totalDropped := t.totalDropped + 1,
         dropped := t.dropped + [t.queue[victim]])
  }

  function EnqueueRegular(t: Task, id: Id): Task {
    Enqueue(t, Line(id, false), 0)
  }

  function EnqueueFinal(t: Task, id: Id): Task {
    var pos := FirstInterval(t.queue);
    Enqueue(t, Line(id, true), if pos < |t.queue| then pos else 0)
  }

  function HandleEvent(t: Task, e: StatsEvent): Task {
    match e
    case Register(id, _) => t.(registry := t.registry + {id})
    case Finalize(id) =>
      if id !in t.registry then t
      else
        var t1 := t.(registry := t.registry - {id});
        if t.enabled then EnqueueFinal(t1, id) else t1
  }

  function EmitLines(t: Task, order: seq<Id>): Task {
    if order == [] then t else EnqueueRegular(EmitLines(t, order[..|order| - 1]), order[|order| - 1])
  }

  lemma EmitNothing(t: Task)
    ensures EmitLines(t, []) == t
  {}

  lemma EmitOneMore(t: Task, order: seq<Id>, id: Id)
    ensures EmitLines(t, order + [id]) == EnqueueRegular(EmitLines(t, order), id)
  {
    assert (order + [id])[..|order|] == order;
  }

  function Drain(t: Task): Task {
    t.(dequeued := t.dequeued + t.queue, queue := [])
  }

  // ---------- The loop ----------

  /** An interval tick, over the registry in some order, or a lifecycle message. */
  datatype Input = Tick(order: seq<Id>) | Got(event: StatsEvent)

  /** With output disabled there is no timer, so a tick changes nothing. */
  function LoopStep(t: Task, input: Input): Task {
    match input
    case Tick(order) => if t.enabled then Drain(EmitLines(t, order)) else t
    case Got(e) => Drain(HandleEvent(t, e))
  }

  function Loop(t: Task, inputs: seq<Input>): Task {
    if inputs == [] then t else LoopStep(Loop(t, inputs[..|inputs| - 1]), inputs[|inputs| - 1])
  }

  /** After cancel: messages still in flight, undrained. */
  function Late(t: Task, events: seq<StatsEvent>): Task {
    if events == [] then t else HandleEvent(Late(t, events[..|events| - 1]), events[|events| - 1])
  }

  function FullRun(capacity: nat, enabled: bool, inputs: seq<Input>, late: seq<StatsEvent>): Task {
    Drain(Late(Loop(NewTask(capacity, enabled), inputs), late))
  }

  /** Ticks report registered endpoints only. */
  ghost predicate TicksMatch(t: Task, inputs: seq<Input>) {
    forall i :: 0 <= i < |inputs| && inputs[i].Tick? ==>
      forall id :: id in inputs[i].order ==> id in Loop(t, inputs[..i]).registry
  }

  // ---------- Conservation ----------

  /** Every line offered is dequeued, queued or dropped, and the drops are counted. */
  ghost predicate Conserved(t: Task) {
    && multiset(t.offered) == multiset(t.dequeued) + multiset(t.queue) + multiset(t.dropped)
    && |t.dropped| == t.totalDropped
    && |t.queue| <= t.capacity
  }

  lemma RemoveAtKeeps<T>(s: seq<T>, i: nat)
    requires i < |s|
    ensures multiset(s) == multiset(RemoveAt(s, i)) + multiset{s[i]}
  {
    assert s == s[..i] + [s[i]] + s[i + 1..];
  }

  lemma EnqueueConserves(t: Task, line: Line, victim: nat)
    requires Conserved(t) && (t.queue == [] || victim < |t.queue|)
    ensures Conserved(Enqueue(t, line, victim))
  {
    hide RemoveAt;
    AppendAdds(t.offered, line);
    if t.capacity == 0 {
      AppendAdds(t.dropped, line);
    } else if |t.queue| < t.capacity || victim >= |t.queue| {
      AppendAdds(t.queue, line);
    } else {
      var queue, dropped := RemoveAt(t.queue, victim) + [line], t.dropped + [t.queue[victim]];
      ReplaceKeeps(t.queue, t.dropped, victim, line);
      Regroup(multiset(t.offered), multiset(t.dequeued), multiset(t.queue), multiset(t.dropped),
              multiset(queue), multiset(dropped), multiset{line});
    }
  }

  lemma Regroup<T>(
    o: multiset<T>, d: multiset<T>, q: multiset<T>, r: multiset<T>, q': multiset<T>, r': multiset<T>, x: multiset<T>)
    requires o == d + q + r && q' + r' == q + r + x
    ensures o + x == d + q' + r'
  {
    assert o + x == d + (q + r + x);
    assert d + (q' + r') == d + q' + r';
  }

  /** Evicting one line for another moves it to the dropped ones. */
  lemma ReplaceKeeps<T>(queue: seq<T>, dropped: seq<T>, victim: nat, x: T)
    requires victim < |queue|
    ensures |RemoveAt(queue, victim) + [x]| == |queue|
    ensures multiset(RemoveAt(queue, victim) + [x]) + multiset(dropped + [queue[victim]])
         == multiset(queue) + multiset(dropped) + multiset{x}
  {
    RemoveAtKeeps(queue, victim);
    AppendAdds(RemoveAt(queue, victim), x);
    AppendAdds(dropped, queue[victim]);
  }

  lemma AppendAdds<T>(s: seq<T>, x: T)
    ensures multiset(s + [x]) == multiset(s) + multiset{x}
  {}

  lemma {:induction false} EmitConserves(t: Task, order: seq<Id>)
    requires Conserved(t)
    ensures Conserved(EmitLines(t, order))
  {
    hide Enqueue;
    if order != [] {
      EmitConserves(t, order[..|order| - 1]);
      EnqueueConserves(EmitLines(t, order[..|order| - 1]), Line(order[|order| - 1], false), 0);
    }
  }

  lemma EventConserves(t: Task, e: StatsEvent)
    requires Conserved(t)
    ensures Conserved(HandleEvent(t, e))
  {
    hide Enqueue;
    if e.Finalize? && e.id in t.registry && t.enabled {
      var pos := FirstInterval(t.queue);
      EnqueueConserves(t.(registry := t.registry - {e.id}), Line(e.id, true), if pos < |t.queue| then pos else 0);
    }
  }

  lemma {:induction false} LoopConserves(t: Task, inputs: seq<Input>)
    requires Conserved(t) && t.queue == []
    ensures Conserved(Loop(t, inputs)) && Loop(t, inputs).queue == []
  {
    hide EmitLines, HandleEvent;
    if inputs != [] {
      var n := |inputs| - 1;
      LoopConserves(t, inputs[..n]);
      match inputs[n] {
        case Tick(order) => EmitConserves(Loop(t, inputs[..n]), order);
        case Got(e) => EventConserves(Loop(t, inputs[..n]), e);
      }
    }
  }

  lemma {:induction false} LateConserves(t: Task, events: seq<StatsEvent>)
    requires Conserved(t)
    ensures Conserved(Late(t, events))
  {
    hide HandleEvent;
    if events != [] {
      LateConserves(t, events[..|events| - 1]);
      EventConserves(Late(t, events[..|events| - 1]), events[|events| - 1]);
    }
  }

  /**
   Every line offered is written, still queued or dropped, each as often as it was offered,
   at any time; drops are counted, and the queue is empty whenever the loop waits.
   */
  lemma LinesAreConserved(capacity: nat, enabled: bool, inputs: seq<Input>, late: seq<StatsEvent>)
    ensures
      var t := Late(Loop(NewTask(capacity, enabled), inputs), late);
      && multiset(t.offered) == multiset(t.dequeued) + multiset(t.queue) + multiset(t.dropped)
      && |t.dropped| == t.totalDropped && |t.queue| <= capacity
    ensures Loop(NewTask(capacity, enabled), inputs).queue == []
    ensures
      var t := FullRun(capacity, enabled, inputs, late);
      && t.queue == [] && |t.dropped| == t.totalDropped
      && multiset(t.offered) == multiset(t.dequeued) + multiset(t.dropped)
  {
    hide Loop, Late;
    LoopConserves(NewTask(capacity, enabled), inputs);
    LateConserves(Loop(NewTask(capacity, enabled), inputs), late);
    CapacityKept(capacity, enabled, inputs, late);
  }

  lemma {:induction false} LoopKeepsCapacity(t: Task, inputs: seq<Input>)
    ensures Loop(t, inputs).capacity == t.capacity && Loop(t, inputs).enabled == t.enabled
  {
    if inputs != [] {
      var n := |inputs| - 1;
      LoopKeepsCapacity(t, inputs[..n]);
      if inputs[n].Tick? {
        EmitKeepsCapacity(Loop(t, inputs[..n]), inputs[n].order);
      }
    }
  }

  lemma {:induction false} EmitKeepsCapacity(t: Task, order: seq<Id>)
    ensures EmitLines(t, order).capacity == t.capacity && EmitLines(t, order).enabled == t.enabled
    ensures EmitLines(t, order).registry == t.registry
  {
    if order != [] {
      EmitKeepsCapacity(t, order[..|order| - 1]);
    }
  }

  lemma {:induction false} LateKeepsCapacity(t: Task, events: seq<StatsEvent>)
    ensures Late(t, events).capacity == t.capacity && Late(t, events).enabled == t.enabled
  {
    if events != [] {
      LateKeepsCapacity(t, events[..|events| - 1]);
    }
  }

  lemma CapacityKept(capacity: nat, enabled: bool, inputs: seq<Input>, late: seq<StatsEvent>)
    ensures Loop(NewTask(capacity, enabled), inputs).capacity == capacity
    ensures Late(Loop(NewTask(capacity, enabled), inputs), late).capacity == capacity
  {
    LoopKeepsCapacity(NewTask(capacity, enabled), inputs);
    LateKeepsCapacity(Loop(NewTask(capacity, enabled), inputs), late);
  }

  // ---------- Final lines ----------

  ghost predicate NoneFinal(queue: seq<Line>) {
    forall i :: 0 <= i < |queue| ==> !queue[i].final
  }

  ghost predicate AllFinal(queue: seq<Line>) {
    forall i :: 0 <= i < |queue| ==> queue[i].final
  }

  /** No final line has been dropped. */
  ghost predicate NoFinalLost(dropped: seq<Line>) {
    forall i :: 0 <= i < |dropped| ==> !dropped[i].final
  }

  /** A tick that starts on an empty queue evicts only lines of its own. */
  lemma {:induction false} TickLosesNoFinal(t: Task, order: seq<Id>)
    requires t.queue == [] && NoFinalLost(t.dropped)
    ensures NoneFinal(EmitLines(t, order).queue) && NoFinalLost(EmitLines(t, order).dropped)
  {
    if order != [] {
      TickLosesNoFinal(t, order[..|order| - 1]);
    }
  }

  lemma {:induction false} LoopLosesNoFinal(t: Task, inputs: seq<Input>)
    requires 0 < t.capacity && t.queue == [] && NoFinalLost(t.dropped)
    ensures NoFinalLost(Loop(t, inputs).dropped) && Loop(t, inputs).queue == []
  {
    hide EmitLines;
    if inputs != [] {
      var n := |inputs| - 1;
      LoopLosesNoFinal(t, inputs[..n]);
      LoopKeepsCapacity(t, inputs[..n]);
      match inputs[n] {
        case Tick(order) => TickLosesNoFinal(Loop(t, inputs[..n]), order);
        case Got(_) =>
      }
    }
  }

  /** After cancel only final lines pile up, and none is lost while they fit. */
  lemma {:induction false} LateLosesOnlyOnOverflow(t: Task, events: seq<StatsEvent>)
    requires 0 < t.capacity && t.queue == [] && NoFinalLost(t.dropped)
    ensures
      var t' := Late(t, events);
      && AllFinal(t'.queue) && |t.offered| <= |t'.offered|
      && (|t'.offered| - |t.offered| <= t.capacity ==>
            NoFinalLost(t'.dropped) && |t'.queue| == |t'.offered| - |t.offered|)
      && (|t'.offered| - |t.offered| > t.capacity ==> !NoFinalLost(t'.dropped) && |t'.queue| == t.capacity)
  {
    if events != [] {
      var init := events[..|events| - 1];
      LateLosesOnlyOnOverflow(t, init);
      LateKeepsCapacity(t, init);
      LateStep(t, Late(t, init), events[|events| - 1]);
    }
  }

  lemma LateStep(t: Task, m: Task, e: StatsEvent)
    requires 0 < t.capacity == m.capacity && AllFinal(m.queue) && |t.offered| <= |m.offered|
    requires |m.offered| - |t.offered| <= t.capacity ==>
               NoFinalLost(m.dropped) && |m.queue| == |m.offered| - |t.offered|
    requires |m.offered| - |t.offered| > t.capacity ==> !NoFinalLost(m.dropped) && |m.queue| == t.capacity
    ensures
      var t' := HandleEvent(m, e);
      && AllFinal(t'.queue) && |t.offered| <= |t'.offered|
      && (|t'.offered| - |t.offered| <= t.capacity ==>
            NoFinalLost(t'.dropped) && |t'.queue| == |t'.offered| - |t.offered|)
      && (|t'.offered| - |t.offered| > t.capacity ==> !NoFinalLost(t'.dropped) && |t'.queue| == t.capacity)
  {
    if e.Finalize? && e.id in m.registry && m.enabled {
      var t' := HandleEvent(m, e);
      assert FirstInterval(m.queue) == |m.queue|;
      if |m.queue| >= m.capacity {
        assert t'.dropped[|m.dropped|] == m.queue[0];
        assert forall i :: 0 <= i < |m.dropped| ==> t'.dropped[i] == m.dropped[i];
      }
    }
  }

  /** Every final line offered has been dequeued, as often as it was offered. */
  ghost predicate FinalsWritten(t: Task) {
    forall line :: line in t.offered && line.final ==> multiset(t.dequeued)[line] == multiset(t.offered)[line] > 0
  }

  lemma KeptIsWritten(t: Task)
    requires Conserved(t) && t.queue == [] && NoFinalLost(t.dropped)
    ensures FinalsWritten(t)
  {
    forall line | line in t.offered && line.final
      ensures multiset(t.dequeued)[line] == multiset(t.offered)[line] > 0
    {
      assert line !in t.dropped;
      assert multiset(t.dropped)[line] == 0;
      assert line in multiset(t.offered);
    }
  }

  /**
   Final lines are never lost to interval lines.  Whenever the loop waits, every final line
   offered so far has been written; at the end too, unless more final lines than the queue
   holds arrive after cancel, which is exactly when one is dropped.
   */
  lemma FinalLinesSurvive(capacity: nat, enabled: bool, inputs: seq<Input>, late: seq<StatsEvent>)
    requires 0 < capacity
    ensures
      var t1 := Loop(NewTask(capacity, enabled), inputs);
      var t2 := FullRun(capacity, enabled, inputs, late);
      && FinalsWritten(t1)
      && (NoFinalLost(t2.dropped) <==> |t2.offered| - |t1.offered| <= capacity)
      && (|t2.offered| - |t1.offered| <= capacity ==> FinalsWritten(t2))
  {
    hide Loop, Late, NoFinalLost, FinalsWritten;
    var t0 := NewTask(capacity, enabled);
    assert NoFinalLost(t0.dropped) by { NoneLostYet(); }
    LoopLosesNoFinal(t0, inputs);
    LoopConserves(t0, inputs);
    CapacityKept(capacity, enabled, inputs, late);
    LateLosesOnlyOnOverflow(Loop(t0, inputs), late);
    LateConserves(Loop(t0, inputs), late);
    KeptIsWritten(Loop(t0, inputs));
    if |Late(Loop(t0, inputs), late).offered| - |Loop(t0, inputs).offered| <= capacity {
      KeptIsWritten(FullRun(capacity, enabled, inputs, late));
    }
  }

  lemma NoneLostYet()
    ensures NoFinalLost([])
  {}

  // ---------- The final line is the last ----------

  /** The messages of a loop, in order. */
  ghost function Messages(inputs: seq<Input>): seq<StatsEvent> {
    if inputs == [] then []
    else
      var before := Messages(inputs[..|inputs| - 1]);
      if inputs[|inputs| - 1].Got? then before + [inputs[|inputs| - 1].event] else before
  }

  ghost function RegisteredIds(events: seq<StatsEvent>): set<Id> {
    if events == [] then {}
    else
      RegisteredIds(events[..|events| - 1]) +
      if events[|events| - 1].Register? then {events[|events| - 1].id} else {}
  }

  /** Ids are never reused: no id is registered twice. */
  ghost predicate RegisteredOnce(events: seq<StatsEvent>) {
    forall i, j :: 0 <= i < j < |events| && events[i].Register? && events[j].Register? ==> events[i].id != events[j].id
  }

  /** Nothing was offered for an endpoint after its final line, nor can it be any more. */
  ghost predicate FinalIsLast(t: Task, seen: set<Id>) {
    && t.registry <= seen
    && (forall i :: 0 <= i < |t.offered| ==> t.offered[i].id in seen)
    && (forall i :: 0 <= i < |t.offered| && t.offered[i].final ==> t.offered[i].id !in t.registry)
    && (forall i, j :: 0 <= i < j < |t.offered| && t.offered[i].final ==> t.offered[i].id != t.offered[j].id)
  }

  lemma OfferKeepsLast(t: Task, seen: set<Id>, line: Line, victim: nat)
    requires FinalIsLast(t, seen) && line.id in seen
    requires if line.final then line.id !in t.registry else line.id in t.registry
    requires line.final ==> forall i :: 0 <= i < |t.offered| && t.offered[i].final ==> t.offered[i].id != line.id
    ensures FinalIsLast(Enqueue(t, line, victim), seen)
  {}

  lemma {:induction false} EmitKeepsLast(t: Task, seen: set<Id>, order: seq<Id>)
    requires FinalIsLast(t, seen) && forall id :: id in order ==> id in t.registry
    ensures FinalIsLast(EmitLines(t, order), seen)
  {
    hide Enqueue;
    if order != [] {
      var n := |order| - 1;
      EmitKeepsLast(t, seen, order[..n]);
      EmitKeepsCapacity(t, order[..n]);
      OfferKeepsLast(EmitLines(t, order[..n]), seen, Line(order[n], false), 0);
    }
  }

  lemma EventKeepsLast(t: Task, seen: set<Id>, e: StatsEvent)
    requires FinalIsLast(t, seen) && (e.Register? ==> e.id !in seen)
    ensures FinalIsLast(HandleEvent(t, e), seen + if e.Register? then {e.id} else {})
  {
    hide Enqueue;
    if e.Finalize? && e.id in t.registry && t.enabled {
      var t1 := t.(registry := t.registry - {e.id});
      var pos := FirstInterval(t.queue);
      OfferKeepsLast(t1, seen, Line(e.id, true), if pos < |t.queue| then pos else 0);
    }
  }

  lemma {:induction false} RegisteredIdsAre(events: seq<StatsEvent>)
    ensures forall i :: 0 <= i < |events| && events[i].Register? ==> events[i].id in RegisteredIds(events)
    ensures forall id :: id in RegisteredIds(events) ==>
              exists i :: 0 <= i < |events| && events[i].Register? && events[i].id == id
  {
    if events != [] {
      var n := |events| - 1;
      RegisteredIdsAre(events[..n]);
      assert forall i :: 0 <= i < n ==> events[..n][i] == events[i];
    }
  }

  lemma OnceSnoc(events: seq<StatsEvent>, e: StatsEvent)
    ensures RegisteredOnce(events + [e]) <==>
              RegisteredOnce(events) && (e.Register? ==> e.id !in RegisteredIds(events))
    ensures RegisteredIds(events + [e]) == RegisteredIds(events) + if e.Register? then {e.id} else {}
  {
    var next := events + [e];
    assert next[..|events|] == events;
    assert RegisteredIds(next) == RegisteredIds(events) + if e.Register? then {e.id} else {};
    hide RegisteredIds;
    RegisteredIdsAre(events);
    assert forall i :: 0 <= i < |events| ==> next[i] == events[i];
    assert next[|events|] == e;
  }

  lemma TicksPrefix(t: Task, inputs: seq<Input>, n: nat)
    requires TicksMatch(t, inputs) && n <= |inputs|
    ensures TicksMatch(t, inputs[..n])
  {
    hide Loop;
    forall i | 0 <= i < n && inputs[..n][i].Tick?
      ensures forall id :: id in inputs[..n][i].order ==> id in Loop(t, inputs[..n][..i]).registry
    {
      assert inputs[..n][..i] == inputs[..i] && inputs[..n][i] == inputs[i];
    }
  }

  lemma {:induction false} LoopKeepsLast(t: Task, inputs: seq<Input>)
    requires FinalIsLast(t, {}) && TicksMatch(t, inputs) && RegisteredOnce(Messages(inputs))
    ensures FinalIsLast(Loop(t, inputs), RegisteredIds(Messages(inputs)))
  {
    hide FinalIsLast, EmitLines, HandleEvent, RegisteredIds, RegisteredOnce;
    if inputs == [] {
      assert RegisteredIds([]) == {} by { NoIdsYet(); }
    } else {
      var n := |inputs| - 1;
      var m := Loop(t, inputs[..n]);
      var seen := RegisteredIds(Messages(inputs[..n]));
      TicksPrefix(t, inputs, n);
      match inputs[n] {
        case Tick(order) =>
          LoopKeepsLast(t, inputs[..n]);
          EmitKeepsLast(m, seen, order);
          DrainKeepsLast(EmitLines(m, order), seen);
        case Got(e) =>
          OnceSnoc(Messages(inputs[..n]), e);
          LoopKeepsLast(t, inputs[..n]);
          EventKeepsLast(m, seen, e);
          DrainKeepsLast(HandleEvent(m, e), RegisteredIds(Messages(inputs)));
      }
    }
  }

  lemma NoIdsYet()
    ensures RegisteredIds([]) == {}
  {}

  lemma DrainKeepsLast(t: Task, seen: set<Id>)
    requires FinalIsLast(t, seen)
    ensures FinalIsLast(Drain(t), seen)
  {}

  lemma {:induction false} LateKeepsLast(t: Task, before: seq<StatsEvent>, events: seq<StatsEvent>)
    requires FinalIsLast(t, RegisteredIds(before)) && RegisteredOnce(before + events)
    ensures FinalIsLast(Late(t, events), RegisteredIds(before + events))
  {
    hide FinalIsLast, HandleEvent, RegisteredIds, RegisteredOnce;
    if events == [] {
      assert before + events == before;
    } else {
      var n := |events| - 1;
      assert before + events == (before + events[..n]) + [events[n]];
      OnceSnoc(before + events[..n], events[n]);
      LateKeepsLast(t, before, events[..n]);
      EventKeepsLast(Late(t, events[..n]), RegisteredIds(before + events[..n]), events[n]);
    }
  }

  /** With ids never reused, no line is ever offered for an endpoint after its final line. */
  lemma NoLineAfterFinal(capacity: nat, enabled: bool, inputs: seq<Input>, late: seq<StatsEvent>, i: nat, j: nat)
    requires TicksMatch(NewTask(capacity, enabled), inputs) && RegisteredOnce(Messages(inputs) + late)
    requires
      var t := FullRun(capacity, enabled, inputs, late);
      i < j < |t.offered| && t.offered[i].final
    ensures
      var t := FullRun(capacity, enabled, inputs, late);
      t.offered[i].id != t.offered[j].id
  {
    hide Loop, Late, Messages, TicksMatch, RegisteredOnce, RegisteredIds;
    var t0 := NewTask(capacity, enabled);
    OnceOfFirst(Messages(inputs), late);
    LoopKeepsLast(t0, inputs);
    LateKeepsLast(Loop(t0, inputs), Messages(inputs), late);
  }

  lemma OnceOfFirst(a: seq<StatsEvent>, b: seq<StatsEvent>)
    requires RegisteredOnce(a + b)
    ensures RegisteredOnce(a)
  {
    assert forall i :: 0 <= i < |a| ==> (a + b)[i] == a[i];
  }

  // ---------- One final line each ----------

  /** Where an endpoint stands after a series of messages. */
  datatype Stage = Unknown | Present | Gone

  ghost function StageAfter(events: seq<StatsEvent>, id: Id): Stage {
    if events == [] then Unknown
    else
      var before, e := StageAfter(events[..|events| - 1], id), events[|events| - 1];
      if e.id != id then before
      else if e.Register? then Present
      else if before == Present then Gone
      else before
  }

  /** The registry and the final lines offered are what the messages call for. */
  ghost predicate InStage(t: Task, id: Id, stage: Stage) {
    && (id in t.registry <==> stage == Present)
    && multiset(t.offered)[Line(id, true)] == if stage == Gone then 1 else 0
  }

  lemma OfferOther(t: Task, id: Id, stage: Stage, line: Line, victim: nat)
    requires InStage(t, id, stage) && line != Line(id, true)
    ensures InStage(Enqueue(t, line, victim), id, stage)
  {
    AppendAdds(t.offered, line);
  }

  lemma {:induction false} EmitInStage(t: Task, order: seq<Id>, id: Id, stage: Stage)
    requires InStage(t, id, stage)
    ensures InStage(EmitLines(t, order), id, stage)
  {
    hide Enqueue, InStage;
    if order != [] {
      var n := |order| - 1;
      EmitInStage(t, order[..n], id, stage);
      OfferOther(EmitLines(t, order[..n]), id, stage, Line(order[n], false), 0);
    }
  }

  lemma EventInStage(t: Task, events: seq<StatsEvent>, e: StatsEvent, id: Id)
    requires t.enabled && InStage(t, id, StageAfter(events, id))
    requires e.Register? && e.id == id ==> StageAfter(events, id) == Unknown
    ensures InStage(HandleEvent(t, e), id, StageAfter(events + [e], id))
  {
    hide Enqueue;
    assert (events + [e])[..|events|] == events;
    if e.Finalize? && e.id in t.registry {
      var t1 := t.(registry := t.registry - {e.id});
      var pos := FirstInterval(t.queue);
      var victim := if pos < |t.queue| then pos else 0;
      if e.id == id {
        EnqueueOffers(t1, Line(id, true), victim);
        AppendAdds(t.offered, Line(id, true));
      } else {
        OfferOther(t1, id, StageAfter(events, id), Line(e.id, true), victim);
      }
    }
  }

  lemma EnqueueOffers(t: Task, line: Line, victim: nat)
    ensures Enqueue(t, line, victim).offered == t.offered + [line]
    ensures Enqueue(t, line, victim).registry == t.registry
  {}

  /** An id never registered is unknown. */
  lemma {:induction false} UnknownUntilRegistered(events: seq<StatsEvent>, id: Id)
    ensures StageAfter(events, id) == Unknown <==> id !in RegisteredIds(events)
  {
    if events != [] {
      UnknownUntilRegistered(events[..|events| - 1], id);
    }
  }

  lemma {:induction false} LoopInStage(t: Task, inputs: seq<Input>, id: Id)
    requires t.enabled && InStage(t, id, Unknown) && RegisteredOnce(Messages(inputs))
    ensures InStage(Loop(t, inputs), id, StageAfter(Messages(inputs), id))
  {
    hide InStage, EmitLines, HandleEvent, RegisteredOnce, RegisteredIds, StageAfter;
    if inputs == [] {
      assert StageAfter([], id) == Unknown by { NothingHappened(id); }
    } else {
      var n := |inputs| - 1;
      var m := Loop(t, inputs[..n]);
      LoopKeepsCapacity(t, inputs[..n]);
      match inputs[n] {
        case Tick(order) =>
          LoopInStage(t, inputs[..n], id);
          EmitInStage(m, order, id, StageAfter(Messages(inputs), id));
          DrainInStage(EmitLines(m, order), id, StageAfter(Messages(inputs), id));
        case Got(e) =>
          OnceSnoc(Messages(inputs[..n]), e);
          LoopInStage(t, inputs[..n], id);
          UnknownUntilRegistered(Messages(inputs[..n]), id);
          EventInStage(m, Messages(inputs[..n]), e, id);
          DrainInStage(HandleEvent(m, e), id, StageAfter(Messages(inputs), id));
      }
    }
  }

  lemma NothingHappened(id: Id)
    ensures StageAfter([], id) == Unknown
  {}

  lemma DrainInStage(t: Task, id: Id, stage: Stage)
    requires InStage(t, id, stage)
    ensures InStage(Drain(t), id, stage)
  {}

  lemma {:induction false} LateInStage(t: Task, before: seq<StatsEvent>, events: seq<StatsEvent>, id: Id)
    requires t.enabled && InStage(t, id, StageAfter(before, id)) && RegisteredOnce(before + events)
    ensures InStage(Late(t, events), id, StageAfter(before + events, id))
  {
    hide InStage, HandleEvent, RegisteredOnce, RegisteredIds, StageAfter;
    if events == [] {
      assert before + events == before;
    } else {
      var n := |events| - 1;
      assert before + events == (before + events[..n]) + [events[n]];
      OnceSnoc(before + events[..n], events[n]);
      LateInStage(t, before, events[..n], id);
      LateKeepsCapacity(t, events[..n]);
      UnknownUntilRegistered(before + events[..n], id);
      EventInStage(Late(t, events[..n]), before + events[..n], events[n], id);
    }
  }

  /**
   With output enabled, an endpoint whose registration and, later, whose end have arrived
   gets exactly one final line, and any other endpoint none; unless more final lines than
   the queue holds arrive after cancel, that line is dequeued.
   */
  lemma OneFinalLineEach(capacity: nat, inputs: seq<Input>, late: seq<StatsEvent>, id: Id)
    requires 0 < capacity && RegisteredOnce(Messages(inputs) + late)
    ensures
      var t1 := Loop(NewTask(capacity, true), inputs);
      var t2 := FullRun(capacity, true, inputs, late);
      var lines := if StageAfter(Messages(inputs) + late, id) == Gone then 1 else 0;
      && multiset(t2.offered)[Line(id, true)] == lines
      && (|t2.offered| - |t1.offered| <= capacity ==> multiset(t2.dequeued)[Line(id, true)] == lines)
  {
    hide Loop, Late, Messages, RegisteredOnce, StageAfter, NoFinalLost;
    var t0 := NewTask(capacity, true);
    var t1 := Loop(t0, inputs);
    var t2 := FullRun(capacity, true, inputs, late);
    OnceOfFirst(Messages(inputs), late);
    LoopInStage(t0, inputs, id);
    LoopKeepsCapacity(t0, inputs);
    LateInStage(t1, Messages(inputs), late, id);
    FinalLinesSurvive(capacity, true, inputs, late);
    LinesAreConserved(capacity, true, inputs, late);
    if |t2.offered| - |t1.offered| <= capacity {
      FinalCount(t2, Line(id, true));
    }
  }

  lemma FinalCount(t: Task, line: Line)
    requires FinalsWritten(t) && line.final
    requires multiset(t.offered) == multiset(t.dequeued) + multiset(t.dropped)
    ensures multiset(t.dequeued)[line] == multiset(t.offered)[line]
  {
    if line in multiset(t.offered) {
      assert line in t.offered;
    }
  }

  /** An endpoint registered once and finalized later is gone. */
  lemma {:induction false} FinalizedIsGone(events: seq<StatsEvent>, id: Id, i: nat, j: nat)
    requires RegisteredOnce(events) && i < j < |events|
    requires events[i].Register? && events[i].id == id && events[j] == Finalize(id)
    ensures StageAfter(events, id) == Gone
  {
    var n := |events| - 1;
    var init := events[..n];
    assert forall k :: 0 <= k < n ==> init[k] == events[k];
    if j < n {
      FinalizedIsGone(init, id, i, j);
    } else {
      UnknownUntilRegistered(init, id);
      RegisteredIdsAre(init);
    }
  }

  // ---------- The task as it runs ----------

  class StatsTask {
    var registry: set<Id>
    var queue: seq<Line>
    const capacity: nat
    const enabled: bool
    var totalDropped: nat
    ghost var offered: seq<Line>
    ghost var dequeued: seq<Line>
    ghost var dropped: seq<Line>

    ghost function Value(): Task
      reads this
    {
      Task(registry, queue, capacity, enabled, totalDropped, offered, dequeued, dropped)
    }

    constructor (capacity: nat, enabled: bool)
      ensures Value() == NewTask(capacity, enabled)
    {
      this.capacity, this.enabled := capacity, enabled;
      registry, queue, totalDropped := {}, [], 0;
      offered, dequeued, dropped := [], [], [];
    }

    method PushInterval(id: Id)
      modifies this
      ensures Value() == EnqueueRegular(old(Value()), id)
      ensures capacity == 0 ==> queue == old(queue)
      ensures capacity > 0 ==>
                queue == (if |old(queue)| < capacity then old(queue) else old(queue)[1..]) + [Line(id, false)]
      ensures totalDropped == old(totalDropped) + if |old(queue)| < capacity then 0 else 1
    {
      var line := Line(id, false);
      offered := offered + [line];
      if capacity == 0 {
        totalDropped := totalDropped + 1;
        dropped := dropped + [line];
        return;
      }
      if |queue| >= capacity {
        dropped := dropped + [queue[0]];
        queue := queue[1..];
        totalDropped := totalDropped + 1;
      }
      queue := queue + [line];
    }

    /** The position of the oldest interval line, or the length when there is none. */
    method PositionOfInterval() returns (pos: nat)
      ensures pos == FirstInterval(queue)
    {
      pos := 0;
      while pos < |queue| && queue[pos].final
        invariant 0 <= pos <= |queue|
        invariant forall j :: 0 <= j < pos ==> queue[j].final
      {
        pos := pos + 1;
      }
    }

    method PushFinal(id: Id)
      modifies this
      ensures Value() == EnqueueFinal(old(Value()), id)
      ensures capacity == 0 ==> queue == old(queue)
      ensures |old(queue)| < capacity ==> queue == old(queue) + [Line(id, true)]
      ensures |old(queue)| >= capacity > 0 ==> GivesWay(old(queue), queue, Line(id, true))
      ensures totalDropped == old(totalDropped) + if |old(queue)| < capacity then 0 else 1
    {
      var line := Line(id, true);
      offered := offered + [line];
      if capacity == 0 {
        totalDropped := totalDropped + 1;
        dropped := dropped + [line];
        return;
      }
      if |queue| >= capacity {
        var pos := PositionOfInterval();
        var victim := if pos < |queue| then pos else 0;
        assert FirstToGo(queue, victim);
        dropped := dropped + [queue[victim]];
        queue := queue[..victim] + queue[victim + 1..];
        totalDropped := totalDropped + 1;
      }
      queue := queue + [line];
    }

    method Handle(e: StatsEvent)
      modifies this
      ensures Value() == HandleEvent(old(Value()), e)
    {
      match e {
        case Register(id, _) => registry := registry + {id};
        case Finalize(id) =>
          if id !in registry {
            return;
          }
          registry := registry - {id};
          if !enabled {
            return;
          }
          PushFinal(id);
      }
    }

    /** One line per registered endpoint, in whatever order the registry yields them. */
    method EmitInterval() returns (ghost order: seq<Id>)
      modifies this
      ensures Value() == EmitLines(old(Value()), order)
      ensures multiset(order) == multiset(old(registry))
    {
      hide EmitLines, EnqueueRegular;
      order := [];
      assert Value() == EmitLines(Value(), order) by { EmitNothing(Value()); }
      var pending := registry;
      ghost var done: set<Id> := {};
      while pending != {}
        invariant pending + done == old(registry) && pending !! done
        invariant Value() == EmitLines(old(Value()), order)
        invariant multiset(order) == multiset(done)
        decreases |pending|
      {
        var id :| id in pending;
        pending := pending - {id};
        PushInterval(id);
        EmitOneMore(old(Value()), order, id);
        order := order + [id];
        done := done + {id};
      }
      assert done == old(registry);
    }

    method DrainQueue()
      modifies this
      ensures Value() == Drain(old(Value()))
    {
      while queue != []
        invariant dequeued + queue == old(dequeued) + old(queue)
        invariant Value() == old(Value()).(queue := queue, dequeued := dequeued)
        decreases |queue|
      {
        dequeued := dequeued + [queue[0]];
        queue := queue[1..];
      }
    }
  }
}
