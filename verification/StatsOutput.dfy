/**
 What the stats task writes, line by line (src/stats.rs).  The lines dequeued over a whole
 run are a function of the ticks and messages alone: a tick yields the latest lines that
 fit the queue, the end of a registered endpoint one line, and of the ends that arrive
 after cancel the latest that fit.
 */
module StatsOutput {
  import opened Routing
  import opened Stats

  // ---------- The lines that the inputs call for ----------

  /** The last `n` elements, or all when there are fewer. */
  function Tail<T>(s: seq<T>, n: nat): (t: seq<T>)
    ensures |t| == if |s| <= n then |s| else n
  {
    if |s| <= n then s else s[|s| - n..]
  }

  /** The endpoints registered after a series of messages. */
  ghost function RegistryOf(events: seq<StatsEvent>): set<Id> {
    if events == [] then {}
    else
      var e := events[|events| - 1];
      var before := RegistryOf(events[..|events| - 1]);
      if e.Register? then before + {e.id} else before - {e.id}
  }

  /** The line that a message after `before` calls for: one for the end of a registered endpoint. */
  ghost function FinalLine(before: seq<StatsEvent>, e: StatsEvent): seq<Line> {
    if e.Finalize? && e.id in RegistryOf(before) then [Line(e.id, true)] else []
  }

  ghost function TickLines(order: seq<Id>): (lines: seq<Line>)
    ensures |lines| == |order|
    ensures forall i :: 0 <= i < |order| ==> lines[i] == Line(order[i], false)
  {
    seq(|order|, i requires 0 <= i < |order| => Line(order[i], false))
  }

  /** The lines of a loop, in order. */
  ghost function LoopLines(capacity: nat, inputs: seq<Stats.Input>): seq<Line> {
    if inputs == [] then []
    else
      var init := inputs[..|inputs| - 1];
      LoopLines(capacity, init) +
      match inputs[|inputs| - 1]
      case Tick(order) => Tail(TickLines(order), capacity)
      case Got(e) => Tail(FinalLine(Messages(init), e), capacity)
  }

  /** The final lines that messages after cancel call for. */
  ghost function LateLines(before: seq<StatsEvent>, late: seq<StatsEvent>): seq<Line> {
    if late == [] then []
    else
      var init := late[..|late| - 1];
      LateLines(before, init) + FinalLine(before + init, late[|late| - 1])
  }

  // ---------- The queue ----------

  lemma TailSnoc<T>(s: seq<T>, x: T, n: nat)
    ensures Tail(s + [x], n) == if n == 0 then [] else if |s| < n then Tail(s, n) + [x] else Tail(s, n)[1..] + [x]
  {}

  /** A line appended to a queue whose first line goes when it is full. */
  lemma AppendLine(t: Task, lines: seq<Line>, line: Line)
    requires t.queue == Tail(lines, t.capacity)
    ensures Enqueue(t, line, 0).queue == Tail(lines + [line], t.capacity)
    ensures Enqueue(t, line, 0).dequeued == t.dequeued && Enqueue(t, line, 0).capacity == t.capacity
  {
    TailSnoc(lines, line, t.capacity);
  }

  lemma {:induction false} EmitsTail(t: Task, order: seq<Id>)
    requires t.queue == []
    ensures
      var t' := EmitLines(t, order);
      && t'.queue == Tail(TickLines(order), t.capacity)
      && t'.dequeued == t.dequeued && t'.registry == t.registry
  {
    hide Enqueue;
    EmitKeepsCapacity(t, order);
    if order != [] {
      var n := |order| - 1;
      EmitsTail(t, order[..n]);
      EmitKeepsCapacity(t, order[..n]);
      assert TickLines(order) == TickLines(order[..n]) + [Line(order[n], false)];
      AppendLine(EmitLines(t, order[..n]), TickLines(order[..n]), Line(order[n], false));
    }
  }

  lemma MessageMoves(t: Task, before: seq<StatsEvent>, e: StatsEvent)
    requires t.registry == RegistryOf(before)
    ensures HandleEvent(t, e).registry == RegistryOf(before + [e])
    ensures HandleEvent(t, e).capacity == t.capacity && HandleEvent(t, e).dequeued == t.dequeued
  {
    assert (before + [e])[..|before|] == before;
  }

  /** Among final lines alone the oldest one goes. */
  lemma MessageQueues(t: Task, before: seq<StatsEvent>, lines: seq<Line>, e: StatsEvent)
    requires t.enabled && t.registry == RegistryOf(before)
    requires t.queue == Tail(lines, t.capacity) && AllFinal(t.queue)
    ensures
      var t' := HandleEvent(t, e);
      t'.queue == Tail(lines + FinalLine(before, e), t.capacity) && AllFinal(t'.queue)
  {
    hide Enqueue, RegistryOf;
    if e.Finalize? && e.id in t.registry {
      var t1, line := t.(registry := t.registry - {e.id}), Line(e.id, true);
      assert FirstInterval(t.queue) == |t.queue|;
      AppendLine(t1, lines, line);
      FinalTail(lines, t.capacity, line);
    } else {
      assert lines + [] == lines;
    }
  }

  lemma FinalTail(lines: seq<Line>, n: nat, line: Line)
    requires AllFinal(Tail(lines, n)) && line.final
    ensures AllFinal(Tail(lines + [line], n))
  {
    TailSnoc(lines, line, n);
  }

  // ---------- Whole runs ----------

  lemma {:induction false} LoopWrites(capacity: nat, inputs: seq<Stats.Input>)
    ensures
      var t := Loop(NewTask(capacity, true), inputs);
      && t.dequeued == LoopLines(capacity, inputs) && t.registry == RegistryOf(Messages(inputs))
      && t.queue == [] && t.enabled && t.capacity == capacity
  {
    hide EmitLines, HandleEvent, RegistryOf, TickLines, FinalLine, Tail;
    if inputs == [] {
      NothingRegistered();
    } else {
      var n := |inputs| - 1;
      LoopWrites(capacity, inputs[..n]);
      LoopKeepsCapacity(NewTask(capacity, true), inputs);
      var t := Loop(NewTask(capacity, true), inputs[..n]);
      match inputs[n] {
        case Tick(order) => EmitsTail(t, order);
        case Got(e) =>
          var before := Messages(inputs[..n]);
          MessageMoves(t, before, e);
          TailOfNone(capacity);
          MessageQueues(t, before, [], e);
          assert [] + FinalLine(before, e) == FinalLine(before, e);
      }
    }
  }

  lemma NothingRegistered()
    ensures RegistryOf([]) == {}
  {}

  lemma TailOfNone(n: nat)
    ensures Tail<Line>([], n) == []
  {}

  lemma {:induction false} LateQueues(t: Task, before: seq<StatsEvent>, late: seq<StatsEvent>)
    requires t.enabled && t.registry == RegistryOf(before) && t.queue == []
    ensures
      var t' := Late(t, late);
      && t'.queue == Tail(LateLines(before, late), t.capacity) && AllFinal(t'.queue)
      && t'.registry == RegistryOf(before + late) && t'.dequeued == t.dequeued
  {
    hide HandleEvent, RegistryOf, FinalLine, Tail;
    if late == [] {
      TailOfNone(t.capacity);
      assert before + late == before;
    } else {
      var n := |late| - 1;
      LateQueues(t, before, late[..n]);
      LateKeepsCapacity(t, late[..n]);
      assert before + late == (before + late[..n]) + [late[n]];
      var m := Late(t, late[..n]);
      MessageMoves(m, before + late[..n], late[n]);
      MessageQueues(m, before + late[..n], LateLines(before, late[..n]), late[n]);
    }
  }

  /**
   Every line written, in order: for a tick the latest lines that fit the queue, for the end
   of a registered endpoint its final line, and at the end the latest final lines that fit.
   */
  lemma LinesWritten(capacity: nat, inputs: seq<Stats.Input>, late: seq<StatsEvent>)
    ensures Loop(NewTask(capacity, true), inputs).dequeued == LoopLines(capacity, inputs)
    ensures FullRun(capacity, true, inputs, late).dequeued
         == LoopLines(capacity, inputs) + Tail(LateLines(Messages(inputs), late), capacity)
  {
    hide Loop, Late, LoopLines, LateLines, Messages, RegistryOf, Tail;
    LoopWrites(capacity, inputs);
    LateQueues(Loop(NewTask(capacity, true), inputs), Messages(inputs), late);
  }

  /** With output disabled nothing is ever offered, written or dropped. */
  lemma {:induction false} DisabledIsSilent(capacity: nat, inputs: seq<Stats.Input>, late: seq<StatsEvent>)
    ensures
      var t := FullRun(capacity, false, inputs, late);
      t.offered == [] && t.dequeued == [] && t.totalDropped == 0
  {
    hide Loop, Late;
    SilentLoop(capacity, inputs);
    SilentLate(Loop(NewTask(capacity, false), inputs), late);
  }

  ghost predicate Silent(t: Task) {
    !t.enabled && t.offered == [] && t.queue == [] && t.dequeued == [] && t.totalDropped == 0
  }

  lemma {:induction false} SilentLoop(capacity: nat, inputs: seq<Stats.Input>)
    ensures Silent(Loop(NewTask(capacity, false), inputs))
  {
    if inputs != [] {
      SilentLoop(capacity, inputs[..|inputs| - 1]);
    }
  }

  lemma {:induction false} SilentLate(t: Task, late: seq<StatsEvent>)
    requires Silent(t)
    ensures Silent(Late(t, late))
  {
    if late != [] {
      SilentLate(t, late[..|late| - 1]);
    }
  }
}
