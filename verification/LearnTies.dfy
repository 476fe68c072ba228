/**
 When the learn table is a least-recently-seen table in order of arrival
 (src/router/learn.rs).

 The table compares times only.  Nodes seen at one reading of the clock are told apart by
 their places in the vector, which refreshing and `swap_remove` disturb.  This module finds
 exactly which sequences of clock readings can make it evict out of order.
 */
module LearnTies {
  import opened Frame
  import opened Sequences
  import opened Recency
  import opened Learning

  // ---------- Order of arrival ----------

  /** The other nodes seen after the last sighting of `n`. */
  ghost function SeenSince(history: seq<Sighting>, n: NodeId): set<NodeId> {
    if history == [] then {}
    else
      var last := history[|history| - 1];
      if last.node == n then {} else SeenSince(history[..|history| - 1], n) + {last.node}
  }

  /** `n` is among the `capacity` nodes that arrived last. */
  ghost predicate ArrivedRecently(capacity: nat, history: seq<Sighting>, n: NodeId) {
    n in Latest(history) && |SeenSince(history, n)| < capacity
  }

  /** The table holds exactly the nodes that arrived last. */
  ghost predicate InArrivalOrder(capacity: nat, history: seq<Sighting>) {
    var t := TouchAll(capacity, history);
    forall n :: Contains(t, n) <==> ArrivedRecently(t.capacity, history, n)
  }

  /** What was seen since lies between what was seen later and what was seen no earlier. */
  lemma {:induction false} SinceBetween(history: seq<Sighting>, n: NodeId)
    requires Nondecreasing(history) && n in Latest(history)
    ensures Newer(Latest(history), n, false) <= SeenSince(history, n) <= Newer(Latest(history), n, true)
  {
    var last := |history| - 1;
    var init, s := history[..last], history[last];
    assert Nondecreasing(init);
    if s.node != n {
      SinceBetween(init, n);
    }
    forall m | m in Latest(history)
      ensures Latest(history)[m] <= s.at
    {
      var i := LastSighting(history, m);
    }
  }

  /** Outside the ties at the bound, the table follows the order of arrival. */
  lemma OutsideTies(capacity: nat, history: seq<Sighting>, n: NodeId)
    requires Nondecreasing(history) && n in Latest(history)
    requires
      var c := TouchAll(capacity, history).capacity;
      |Newer(Latest(history), n, true)| < c || |Newer(Latest(history), n, false)| >= c
    ensures
      var t := TouchAll(capacity, history);
      Contains(t, n) <==> ArrivedRecently(t.capacity, history, n)
  {
    hide TouchAll, Contains, Newer;
    HeldUpToTies(capacity, history, n);
    SinceBetween(history, n);
    SubsetSize(Newer(Latest(history), n, false), SeenSince(history, n));
    SubsetSize(SeenSince(history, n), Newer(Latest(history), n, true));
  }

  // ---------- Counting ----------

  /** The nodes seen from a position on. */
  ghost function SeenFrom(history: seq<Sighting>, p: nat): set<NodeId> {
    if |history| <= p then {} else SeenFrom(history[..|history| - 1], p) + {history[|history| - 1].node}
  }

  lemma {:induction false} SeenFromSize(history: seq<Sighting>, p: nat)
    requires p <= |history|
    ensures |SeenFrom(history, p)| <= |history| - p
    ensures forall i :: p <= i < |history| ==> history[i].node in SeenFrom(history, p)
    ensures p == 0 ==> SeenFrom(history, p) == Latest(history).Keys
  {
    if p < |history| {
      var init := history[..|history| - 1];
      SeenFromSize(init, p);
      assert forall i :: 0 <= i < |init| ==> init[i] == history[i];
    } else if p == 0 {
      assert history == [];
    }
  }

  lemma NobodyUnseen(capacity: nat, history: seq<Sighting>, n: NodeId)
    requires Nondecreasing(history) && n !in Latest(history)
    ensures !Contains(TouchAll(capacity, history), n)
  {
    TouchAllKeepsRecent(capacity, history);
    ContainsIffView(TouchAll(capacity, history), n);
  }

  // ---------- The only overflow takes the first node out ----------

  /** The first node is never seen again. */
  ghost predicate FirstIsGone(history: seq<Sighting>) {
    && history != []
    && forall i :: 0 < i < |history| ==> history[i].node != history[0].node
  }

  /** With the first node in front, the first overflow evicts it. */
  ghost predicate FirstInFront(capacity: nat, history: seq<Sighting>)
    requires history != []
  {
    var t := TouchAll(capacity, history);
    if |Latest(history)| <= capacity
    then t.entries != [] && t.entries[0] == Entry(history[0].node, (), history[0].at)
    else !Contains(t, history[0].node)
  }

  lemma LatestGrows(history: seq<Sighting>)
    requires history != []
    ensures
      var init, s := Latest(history[..|history| - 1]), history[|history| - 1];
      |Latest(history)| == if s.node in init then |init| else |init| + 1
  {
    var init, s := Latest(history[..|history| - 1]), history[|history| - 1];
    MapSizes(init, s.node, s.node, s.at);
  }

  /** A table that never overflowed holds every node seen. */
  lemma AllHeld(capacity: nat, history: seq<Sighting>, n: NodeId)
    requires 0 < capacity && Nondecreasing(history) && |Latest(history)| <= capacity
    ensures Contains(TouchAll(capacity, history), n) <==> n in Latest(history)
    ensures |TouchAll(capacity, history).entries| == |Latest(history)|
  {
    var t := TouchAll(capacity, history);
    TouchAllKeepsRecent(capacity, history);
    TableSize(capacity, history);
    ContainsIffView(t, n);
    ViewEntries(t.entries);
    var kept := View(t.entries);
    if n in Latest(history) && n !in kept {
      assert kept.Keys <= Latest(history).Keys - {n};
      SubsetSize(kept.Keys, Latest(history).Keys - {n});
    }
  }

  /** One more sighting of another node, while everything still fits. */
  lemma FrontStep(t: Table, first: Entry<()>, s: Sighting)
    requires t.entries != [] && t.entries[0] == first && s.node != first.node
    requires |t.entries| <= t.capacity
    requires forall i :: 0 <= i < |t.entries| ==> first.lastSeen <= t.entries[i].lastSeen
    requires Distinct(t.entries)
    ensures
      var t' := Touched(t, s.node, s.at);
      if Contains(t, s.node) || |t.entries| < t.capacity
      then t'.entries != [] && t'.entries[0] == first
      else !Contains(t', first.node)
  {
    var i := IndexOf(t.entries, s.node);
    if i == |t.entries| && |t.entries| >= t.capacity {
      assert OldestIndex(t.entries) == 0;
      SwapRemoveAt(t.entries, 0);
    }
  }

  lemma RefreshKeepsOut(t: Table, first: NodeId, s: Sighting)
    requires Contains(t, s.node) && s.node != first && !Contains(t, first)
    ensures !Contains(Touched(t, s.node, s.at), first)
  {
    var i := IndexOf(t.entries, s.node);
  }

  /** The first node has the earliest time of all. */
  lemma FirstIsOldest(capacity: nat, history: seq<Sighting>)
    requires history != [] && Nondecreasing(history)
    ensures
      var t := TouchAll(capacity, history);
      && ValidTable(t)
      && forall i :: 0 <= i < |t.entries| ==> history[0].at <= t.entries[i].lastSeen
  {
    var t := TouchAll(capacity, history);
    TouchAllKeepsRecent(capacity, history);
    ViewEntries(t.entries);
    forall i | 0 <= i < |t.entries|
      ensures history[0].at <= t.entries[i].lastSeen
    {
      var k := LastSighting(history, t.entries[i].node);
    }
  }

  lemma OnlyFirstMissing(capacity: nat, history: seq<Sighting>, n: NodeId)
    requires 0 < capacity && FirstIsGone(history) && Nondecreasing(history) && |Latest(history)| == capacity + 1
    requires !Contains(TouchAll(capacity, history), history[0].node)
    ensures Contains(TouchAll(capacity, history), n) <==> n in Latest(history) && n != history[0].node
  {
    var t := TouchAll(capacity, history);
    var first := history[0].node;
    TouchAllKeepsRecent(capacity, history);
    TableSize(capacity, history);
    ViewEntries(t.entries);
    ContainsIffView(t, n);
    ContainsIffView(t, first);
    SeenFromSize(history, 0);
    var kept, all := View(t.entries).Keys, Latest(history).Keys - {first};
    assert kept <= all;
    if n in all && n !in kept {
      SubsetSize(kept, all - {n});
    }
  }

  lemma {:induction false} FirstGoesFirst(capacity: nat, history: seq<Sighting>)
    requires 0 < capacity && FirstIsGone(history) && Nondecreasing(history) && |Latest(history)| <= capacity + 1
    ensures FirstInFront(capacity, history)
  {
    var last := |history| - 1;
    var init, s := history[..last], history[last];
    LatestGrows(history);
    if last == 0 {
      assert TouchAll(capacity, init) == NewTable(capacity);
    } else {
      assert FirstIsGone(init) && Nondecreasing(init) && init[0] == history[0];
      FirstGoesFirst(capacity, init);
      FrontAgain(capacity, history);
    }
  }

  lemma FrontAgain(capacity: nat, history: seq<Sighting>)
    requires 0 < capacity && |history| > 1 && FirstIsGone(history) && Nondecreasing(history)
    requires |Latest(history)| <= capacity + 1 && FirstInFront(capacity, history[..|history| - 1])
    ensures FirstInFront(capacity, history)
  {
    hide Touched, Contains;
    var last := |history| - 1;
    var init, s := history[..last], history[last];
    var t := TouchAll(capacity, init);
    assert Nondecreasing(init) && FirstIsGone(init) && init[0] == history[0];
    LatestGrows(history);
    assert TouchAll(capacity, history) == Touched(t, s.node, s.at);
    if |Latest(init)| <= capacity {
      FirstIsOldest(capacity, init);
      AllHeld(capacity, init, s.node);
      FrontStep(t, t.entries[0], s);
    } else {
      OnlyFirstMissing(capacity, init, s.node);
      RefreshKeepsOut(t, history[0].node, s);
    }
  }

  // ---------- Readings that keep the order of arrival ----------

  /**
   Two nodes can be seen at one reading, the later of them not for the first time, with
   enough sightings to come to push one of them out.
   */
  ghost predicate Risky(capacity: nat, times: seq<nat>) {
    && 2 <= capacity
    && exists i :: 1 <= i && i + capacity < |times| && times[i] == times[i + 1]
  }

  ghost predicate HasTimes(history: seq<Sighting>, times: seq<nat>) {
    |history| == |times| && forall i :: 0 <= i < |times| ==> history[i].at == times[i]
  }

  /** The first position whose time is not before `at`. */
  ghost function FirstAt(history: seq<Sighting>, at: nat): (p: nat)
    ensures p <= |history|
    ensures forall i :: 0 <= i < p ==> history[i].at < at
    ensures p < |history| ==> at <= history[p].at
  {
    if history == [] || at <= history[0].at then 0 else 1 + FirstAt(history[1..], at)
  }

  /** Tied nodes make two neighbouring readings equal, the first of their time. */
  lemma TiedReadings(history: seq<Sighting>, n: NodeId, m: NodeId)
    requires Nondecreasing(history) && n in Latest(history) && m in Latest(history)
    requires n != m && Latest(history)[n] == Latest(history)[m]
    ensures
      var p := FirstAt(history, Latest(history)[n]);
      p + 1 < |history| && history[p].at == history[p + 1].at == Latest(history)[n]
  {
    hide Latest, FirstAt;
    var at := Latest(history)[n];
    var p := FirstAt(history, at);
    var i := LastSighting(history, n);
    var j := LastSighting(history, m);
    assert p <= i && p <= j && i != j;
    var k := if i < j then j else i;
    assert history[p].at <= history[p + 1].at <= history[k].at;
  }

  lemma SeenNoEarlierThan(history: seq<Sighting>, at: nat, m: NodeId)
    requires Nondecreasing(history) && m in Latest(history) && at <= Latest(history)[m]
    ensures m in SeenFrom(history, FirstAt(history, at))
  {
    hide SeenFrom, Latest;
    var i := LastSighting(history, m);
    assert FirstAt(history, at) <= i;
    SeenFromSize(history, FirstAt(history, at));
  }

  /** Nodes seen no earlier than `n` were last seen from the first such reading on. */
  lemma SeenNoEarlier(history: seq<Sighting>, n: NodeId)
    requires Nondecreasing(history) && n in Latest(history)
    ensures
      var p := FirstAt(history, Latest(history)[n]);
      |Newer(Latest(history), n, true)| + 1 <= |history| - p
  {
    hide SeenFrom, Latest, FirstAt, Nondecreasing;
    var p := FirstAt(history, Latest(history)[n]);
    SeenFromSize(history, p);
    var all := Newer(Latest(history), n, true) + {n};
    forall m | m in all
      ensures m in SeenFrom(history, p)
    {
      SeenNoEarlierThan(history, Latest(history)[n], m);
    }
    SubsetSize(all, SeenFrom(history, p));
  }

  lemma SomeTie(latest: map<NodeId, nat>, n: NodeId) returns (m: NodeId)
    requires n in latest && |Newer(latest, n, false)| < |Newer(latest, n, true)|
    ensures m in latest && m != n && latest[m] == latest[n]
  {
    var all, later := Newer(latest, n, true), Newer(latest, n, false);
    assert !(all <= later) by {
      if all <= later {
        SubsetSize(all, later);
      }
    }
    m :| m in all && m !in later;
  }

  /** When the tied readings come first, everything else was seen no earlier. */
  lemma EverythingLater(history: seq<Sighting>, n: NodeId)
    requires Nondecreasing(history) && n in Latest(history) && FirstAt(history, Latest(history)[n]) == 0
    ensures |Latest(history)| == |Newer(Latest(history), n, true)| + 1
  {
    var latest := Latest(history);
    forall m | m in latest
      ensures latest[n] <= latest[m]
    {
      var i := LastSighting(history, m);
      assert history[0].at <= history[i].at;
    }
    assert latest.Keys == Newer(latest, n, true) + {n};
  }

  /** With no sighting to spare, no node was seen twice. */
  lemma AllDifferent(history: seq<Sighting>)
    requires history != [] && |Latest(history)| == |history|
    ensures FirstIsGone(history)
  {
    SeenFromSize(history, 0);
    SeenFromSize(history, 1);
    if i :| 0 < i < |history| && history[i].node == history[0].node {
      forall n | n in SeenFrom(history, 0)
        ensures n in SeenFrom(history, 1)
      {
        SeenAt(history, n);
      }
      SubsetSize(SeenFrom(history, 0), SeenFrom(history, 1));
    }
  }

  lemma SeenAt(history: seq<Sighting>, n: NodeId)
    requires n in SeenFrom(history, 0)
    ensures exists i :: 0 <= i < |history| && history[i].node == n
  {
    SeenFromSize(history, 0);
    var i := LastSighting(history, n);
  }

  /** When only the first two readings are equal, the two nodes are tied and gone. */
  lemma FirstPairGone(history: seq<Sighting>, n: NodeId, m: NodeId)
    requires Nondecreasing(history) && |history| > 2 && history[1].at < history[2].at
    requires n in Latest(history) && m in Latest(history) && n != m
    requires Latest(history)[n] == Latest(history)[m] == history[0].at == history[1].at
    ensures FirstIsGone(history)
    ensures Newer(Latest(history), n, false) == Latest(history).Keys - {n, m}
  {
    hide Latest;
    var latest := Latest(history);
    var i := LastSighting(history, n);
    var j := LastSighting(history, m);
    assert forall k :: 2 <= k < |history| ==> history[2].at <= history[k].at;
    assert i < 2 && j < 2 && i != j;
    forall k | k in latest && k != n && k != m
      ensures latest[k] > latest[n]
    {
      var l := LastSighting(history, k);
      assert 2 <= l;
    }
  }

  /** Ties at the bound, under readings that are not risky, concern only the first node out. */
  lemma TiesAtBound(capacity: nat, history: seq<Sighting>, times: seq<nat>, n: NodeId)
    requires 2 <= capacity && Nondecreasing(history) && HasTimes(history, times) && !Risky(capacity, times)
    requires n in Latest(history)
    requires |Newer(Latest(history), n, false)| < capacity <= |Newer(Latest(history), n, true)|
    ensures FirstIsGone(history) && |Latest(history)| == capacity + 1
  {
    hide Newer, Latest, FirstIsGone;
    var m := SomeTie(Latest(history), n);
    var p := FirstAt(history, Latest(history)[n]);
    TiedReadings(history, n, m);
    SeenNoEarlier(history, n);
    assert times[p] == times[p + 1];
    assert p == 0;
    EverythingLater(history, n);
    SeenFromSize(history, 0);
    if |history| == capacity + 1 {
      AllDifferent(history);
    } else {
      assert times[1] != times[2];
      FirstPairGone(history, n, m);
    }
  }

  lemma {:induction false} SinceFirst(history: seq<Sighting>, n: NodeId)
    requires FirstIsGone(history) && n in Latest(history)
    ensures n == history[0].node ==> SeenSince(history, n) == Latest(history).Keys - {n}
    ensures n != history[0].node ==> SeenSince(history, n) <= Latest(history).Keys - {n, history[0].node}
  {
    var last := |history| - 1;
    if last > 0 {
      var init := history[..last];
      assert init[0] == history[0] && FirstIsGone(init);
      if history[last].node != n {
        SinceFirst(init, n);
      }
    } else {
      assert Latest(history[..last]) == map[];
    }
  }

  /** At the bound the arrival order drops just the first node too. */
  lemma ArrivalDropsFirst(capacity: nat, history: seq<Sighting>, n: NodeId)
    requires FirstIsGone(history) && |Latest(history)| == capacity + 1 && n in Latest(history)
    ensures ArrivedRecently(capacity, history, n) <==> n != history[0].node
  {
    var all, first := Latest(history).Keys, history[0].node;
    SinceFirst(history, n);
    SeenFromSize(history, 0);
    assert first in all;
    SubsetSize(SeenSince(history, n), all - {n, first});
  }

  lemma {:induction false} OneEntry(history: seq<Sighting>, n: NodeId)
    requires Nondecreasing(history) && n in Latest(history)
    ensures Contains(TouchAll(1, history), n) <==> ArrivedRecently(1, history, n)
  {
    var last := |history| - 1;
    var t := TouchAll(1, history[..last]);
    assert Nondecreasing(history[..last]);
    TouchAllKeepsRecent(1, history[..last]);
    TouchAllKeepsRecent(1, history);
    TouchedView(t, history[last].node, history[last].at);
    var kept := View(TouchAll(1, history).entries);
    ContainsIffView(TouchAll(1, history), n);
    var x := history[last].node;
    if n in kept && n != x {
      SubsetSize({n, x}, kept.Keys);
    }
    assert x == n ==> SeenSince(history, n) == {};
    assert x != n ==> x in SeenSince(history, n);
  }

  /** Unless the readings are risky, the table is in arrival order whatever nodes were seen. */
  lemma SafeReadings(capacity: nat, history: seq<Sighting>, times: seq<nat>)
    requires 0 < capacity && Nondecreasing(history) && HasTimes(history, times) && !Risky(capacity, times)
    ensures InArrivalOrder(capacity, history)
  {
    hide TouchAll, Contains, Newer, Latest, SeenSince, Risky, ArrivedRecently;
    forall n
      ensures Contains(TouchAll(capacity, history), n) <==> ArrivedRecently(capacity, history, n)
    {
      SafeAt(capacity, history, times, n);
    }
  }

  lemma SafeAt(capacity: nat, history: seq<Sighting>, times: seq<nat>, n: NodeId)
    requires 0 < capacity && Nondecreasing(history) && HasTimes(history, times) && !Risky(capacity, times)
    ensures Contains(TouchAll(capacity, history), n) <==> ArrivedRecently(capacity, history, n)
  {
    hide TouchAll, Contains, Newer, Latest, SeenSince, Risky, FirstIsGone;
    if n !in Latest(history) {
      NobodyUnseen(capacity, history, n);
    } else if capacity == 1 {
      OneEntry(history, n);
    } else if |Newer(Latest(history), n, true)| < capacity || |Newer(Latest(history), n, false)| >= capacity {
      OutsideTies(capacity, history, n);
    } else {
      TiesAtBound(capacity, history, times, n);
      FirstGoesFirst(capacity, history);
      OnlyFirstMissing(capacity, history, n);
      ArrivalDropsFirst(capacity, history, n);
    }
  }

  // ---------- Readings that can break it ----------

  ghost predicate AllDistinct(nodes: seq<NodeId>) {
    forall i, j :: 0 <= i < j < |nodes| ==> nodes[i] != nodes[j]
  }

  /**
   Who is seen when: the first node until the risky reading `i`, there the second, then the
   first again at the same reading, and from there on each of the others once.
   */
  ghost function Actor(nodes: seq<NodeId>, i: nat, k: nat): NodeId
    requires |nodes| >= 3
  {
    if k == i then nodes[1]
    else if k <= i + 1 then nodes[0]
    else if k - i < |nodes| then nodes[k - i]
    else nodes[|nodes| - 1]
  }

  ghost function Upset(nodes: seq<NodeId>, times: seq<nat>, i: nat): (h: seq<Sighting>)
    requires |nodes| >= 3
    ensures HasTimes(h, times)
  {
    seq(|times|, k requires 0 <= k < |times| => Sighting(Actor(nodes, i, k), times[k]))
  }

  /** The vector after the risky reading: the first node in front, with the second's time. */
  ghost function Lined(nodes: seq<NodeId>, times: seq<nat>, i: nat, m: nat): seq<LearnEntry>
    requires m <= |nodes| && i + m <= |times| && (0 < m ==> i + 1 < |times|)
  {
    seq(m, j requires 0 <= j < m => Entry(nodes[j], (), if j == 0 then times[i + 1] else times[i + j]))
  }

  lemma UpsetStep(capacity: nat, nodes: seq<NodeId>, times: seq<nat>, i: nat, k: nat)
    requires |nodes| >= 3 && k < |times|
    ensures TouchAll(capacity, Upset(nodes, times, i)[..k + 1])
         == Touched(TouchAll(capacity, Upset(nodes, times, i)[..k]), Actor(nodes, i, k), times[k])
  {
    hide Actor, Touched;
    var h := Upset(nodes, times, i);
    assert h[..k + 1] == h[..k] + [h[k]];
    TouchAllSnoc(capacity, h[..k], h[k]);
  }

  lemma {:induction false} FirstAlone(capacity: nat, nodes: seq<NodeId>, times: seq<nat>, i: nat, k: nat)
    requires 2 <= capacity && |nodes| >= 3 && 1 <= k <= i && i < |times|
    ensures TouchAll(capacity, Upset(nodes, times, i)[..k]) == Table([Entry(nodes[0], (), times[k - 1])], capacity)
  {
    hide TouchAll, Upset;
    UpsetStep(capacity, nodes, times, i, k - 1);
    if k == 1 {
      assert Upset(nodes, times, i)[..0] == [];
      NothingSeen(capacity);
    } else {
      FirstAlone(capacity, nodes, times, i, k - 1);
    }
  }

  lemma NothingSeen(capacity: nat)
    ensures TouchAll(capacity, []) == NewTable(capacity)
  {}

  lemma {:induction false} LinedUp(capacity: nat, nodes: seq<NodeId>, times: seq<nat>, i: nat, m: nat)
    requires 2 <= m <= capacity && AllDistinct(nodes) && |nodes| == capacity + 1
    requires 1 <= i && i + capacity < |times| && times[i] == times[i + 1]
    ensures TouchAll(capacity, Upset(nodes, times, i)[..i + m]) == Table(Lined(nodes, times, i, m), capacity)
  {
    hide TouchAll, Upset;
    UpsetStep(capacity, nodes, times, i, i + m - 1);
    if m == 2 {
      UpsetStep(capacity, nodes, times, i, i);
      FirstAlone(capacity, nodes, times, i, i);
      TwoLinedUp(capacity, nodes[0], nodes[1], times[i - 1], times[i]);
      assert Lined(nodes, times, i, 2) == [Entry(nodes[0], (), times[i]), Entry(nodes[1], (), times[i])];
    } else {
      LinedUp(capacity, nodes, times, i, m - 1);
      var entries := Lined(nodes, times, i, m - 1);
      assert IndexOf(entries, nodes[m - 1]) == |entries|;
      assert entries + [Entry(nodes[m - 1], (), times[i + m - 1])] == Lined(nodes, times, i, m);
    }
  }

  lemma TwoLinedUp(capacity: nat, y: NodeId, x: NodeId, before: nat, at: nat)
    requires 2 <= capacity && x != y
    ensures Touched(Touched(Table([Entry(y, (), before)], capacity), x, at), y, at)
         == Table([Entry(y, (), at), Entry(x, (), at)], capacity)
  {
    assert IndexOf([Entry(y, (), before)], x) == 1;
    assert IndexOf([Entry(y, (), before), Entry(x, (), at)], y) == 0;
  }

  /** The overflow evicts the first node although it was seen after the second. */
  lemma FirstIsOut(capacity: nat, nodes: seq<NodeId>, times: seq<nat>, i: nat)
    requires 2 <= capacity && AllDistinct(nodes) && |nodes| == capacity + 1
    requires 1 <= i && i + capacity < |times| && times[i] == times[i + 1]
    requires forall j, k :: 0 <= j < k < |times| ==> times[j] <= times[k]
    ensures
      var t := TouchAll(capacity, Upset(nodes, times, i)[..i + capacity + 1]);
      !Contains(t, nodes[0]) && Contains(t, nodes[capacity])
  {
    hide TouchAll, Upset, Touched, Contains;
    LinedUp(capacity, nodes, times, i, capacity);
    UpsetStep(capacity, nodes, times, i, i + capacity);
    var t := Table(Lined(nodes, times, i, capacity), capacity);
    var s := Sighting(nodes[capacity], times[i + capacity]);
    assert !Contains(t, s.node) by { LinedWithout(nodes, times, i, capacity, t); }
    FrontStep(t, t.entries[0], s);
    TouchedView(t, s.node, s.at);
    ContainsIffView(Touched(t, s.node, s.at), s.node);
  }

  lemma LinedWithout(nodes: seq<NodeId>, times: seq<nat>, i: nat, m: nat, t: Table)
    requires AllDistinct(nodes) && m < |nodes| && i + m <= |times| && i + 1 < |times|
    requires t.entries == Lined(nodes, times, i, m)
    ensures !Contains(t, nodes[m])
  {}

  lemma {:induction false} FirstStaysOut(capacity: nat, nodes: seq<NodeId>, times: seq<nat>, i: nat, k: nat)
    requires 2 <= capacity && AllDistinct(nodes) && |nodes| == capacity + 1
    requires 1 <= i && i + capacity < k <= |times| && times[i] == times[i + 1]
    requires forall j, k :: 0 <= j < k < |times| ==> times[j] <= times[k]
    ensures
      var t := TouchAll(capacity, Upset(nodes, times, i)[..k]);
      !Contains(t, nodes[0]) && Contains(t, nodes[capacity])
  {
    hide TouchAll, Upset, Touched, Contains;
    if k == i + capacity + 1 {
      FirstIsOut(capacity, nodes, times, i);
    } else {
      FirstStaysOut(capacity, nodes, times, i, k - 1);
      UpsetStep(capacity, nodes, times, i, k - 1);
      var t := TouchAll(capacity, Upset(nodes, times, i)[..k - 1]);
      RefreshKeepsOut(t, nodes[0], Sighting(nodes[capacity], times[k - 1]));
      RefreshKeepsIn(t, nodes[capacity], times[k - 1]);
    }
  }

  lemma RefreshKeepsIn(t: Table, n: NodeId, at: nat)
    ensures Contains(Touched(t, n, at), n)
  {
    var t' := Touched(t, n, at);
    var i := IndexOf(t.entries, n);
    if i < |t.entries| {
      assert t'.entries[i].node == n;
    } else {
      assert t'.entries[|t'.entries| - 1].node == n;
    }
  }

  ghost function NodesOf(nodes: seq<NodeId>): set<NodeId> {
    if nodes == [] then {} else NodesOf(nodes[..|nodes| - 1]) + {nodes[|nodes| - 1]}
  }

  lemma {:induction false} NodesOfSize(nodes: seq<NodeId>)
    ensures |NodesOf(nodes)| <= |nodes|
    ensures forall i :: 0 <= i < |nodes| ==> nodes[i] in NodesOf(nodes)
  {
    if nodes != [] {
      NodesOfSize(nodes[..|nodes| - 1]);
      assert forall i :: 0 <= i < |nodes| - 1 ==> nodes[..|nodes| - 1][i] == nodes[i];
    }
  }

  lemma LaterActor(nodes: seq<NodeId>, i: nat, k: nat)
    requires AllDistinct(nodes) && |nodes| >= 3 && i + 2 <= k
    ensures Actor(nodes, i, k) in NodesOf(nodes[2..]) && Actor(nodes, i, k) != nodes[0]
  {
    hide NodesOf;
    NodesOfSize(nodes[2..]);
    var j := if k - i < |nodes| then k - i else |nodes| - 1;
    assert nodes[2..][j - 2] == nodes[j];
  }

  /** Since the first node was last seen, only the others beyond the second have been. */
  lemma {:induction false} SinceUpset(nodes: seq<NodeId>, times: seq<nat>, i: nat, k: nat)
    requires AllDistinct(nodes) && |nodes| >= 3 && 1 <= i && i + 2 <= k <= |times|
    ensures
      var h := Upset(nodes, times, i)[..k];
      nodes[0] in Latest(h) && SeenSince(h, nodes[0]) <= NodesOf(nodes[2..])
  {
    hide NodesOf, AllDistinct;
    var h := Upset(nodes, times, i)[..k];
    assert h[..k - 1] == Upset(nodes, times, i)[..k - 1];
    assert h[k - 1].node == Actor(nodes, i, k - 1);
    hide Upset;
    if k > i + 2 {
      SinceUpset(nodes, times, i, k - 1);
      LaterActor(nodes, i, k - 1);
    }
  }

  /** Under risky readings some sequence of nodes makes the table evict out of order. */
  lemma RiskyReadings(capacity: nat, nodes: seq<NodeId>, times: seq<nat>) returns (history: seq<Sighting>)
    requires AllDistinct(nodes) && |nodes| == capacity + 1 && Risky(capacity, times)
    requires forall j, k :: 0 <= j < k < |times| ==> times[j] <= times[k]
    ensures HasTimes(history, times) && !InArrivalOrder(capacity, history)
  {
    hide TouchAll, Contains, Upset, Latest, SeenSince, NodesOf, ArrivedRecently, HasTimes, AllDistinct;
    var i :| 1 <= i && i + capacity < |times| && times[i] == times[i + 1];
    history := Upset(nodes, times, i);
    assert |history| == |times| by { SameLength(history, times); }
    assert history[..|times|] == history;
    FirstStaysOut(capacity, nodes, times, i, |times|);
    UpsetArrived(capacity, nodes, times, i);
  }

  lemma SameLength(history: seq<Sighting>, times: seq<nat>)
    requires HasTimes(history, times)
    ensures |history| == |times|
  {}

  lemma UpsetArrived(capacity: nat, nodes: seq<NodeId>, times: seq<nat>, i: nat)
    requires AllDistinct(nodes) && |nodes| == capacity + 1 && 2 <= capacity && 1 <= i && i + 2 <= |times|
    ensures ArrivedRecently(capacity, Upset(nodes, times, i), nodes[0])
  {
    hide Upset, Latest, SeenSince, NodesOf, AllDistinct, HasTimes;
    var h := Upset(nodes, times, i);
    assert |h| == |times| by { SameLength(h, times); }
    assert h[..|times|] == h;
    SinceUpset(nodes, times, i, |times|);
    NodesOfSize(nodes[2..]);
    SubsetSize(SeenSince(h, nodes[0]), NodesOf(nodes[2..]));
  }

  /**
   The exact condition.  For a clock that never goes back, the table is in arrival order
   whatever nodes are seen at its readings, exactly when the readings are not risky.
   */
  lemma OrderKeptIffNotRisky(capacity: nat, nodes: seq<NodeId>, times: seq<nat>)
    requires 0 < capacity && AllDistinct(nodes) && |nodes| == capacity + 1
    requires forall j, k :: 0 <= j < k < |times| ==> times[j] <= times[k]
    ensures !Risky(capacity, times) <==>
              forall history :: HasTimes(history, times) ==> InArrivalOrder(capacity, history)
  {
    hide InArrivalOrder, Risky;
    if Risky(capacity, times) {
      var history := RiskyReadings(capacity, nodes, times);
    } else {
      forall history | HasTimes(history, times)
        ensures InArrivalOrder(capacity, history)
      {
        SafeReadings(capacity, history, times);
      }
    }
  }

  /** So with a strictly increasing clock the table is in arrival order. */
  lemma StrictClock(capacity: nat, history: seq<Sighting>)
    requires 0 < capacity
    requires forall i, j :: 0 <= i < j < |history| ==> history[i].at < history[j].at
    ensures InArrivalOrder(capacity, history)
  {
    var times := seq(|history|, i requires 0 <= i < |history| => history[i].at);
    SafeReadings(capacity, history, times);
  }
}
