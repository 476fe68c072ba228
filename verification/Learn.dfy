/**
 The learn table: which nodes were seen behind an endpoint, least recently seen evicted
 first (src/router/learn.rs).

 The table is an unordered vector kept short by `swap_remove`.  It is related to the whole
 history of sightings through `Latest`, the last time every node was ever seen.
 */
module Learning {
  import opened Frame
  import opened Recency
  import opened Sequences

  /** A learned node carries nothing beside its time. */
  type LearnEntry = Entry<()>

  datatype Table = Table(entries: seq<LearnEntry>, capacity: nat)

  /** A capacity of zero is clamped to one. */
  function NewTable(capacity: nat): Table {
    Table([], if capacity == 0 then 1 else capacity)
  }

  predicate Contains(t: Table, node: NodeId) {
    exists i :: 0 <= i < |t.entries| && t.entries[i].node == node
  }

  predicate ContainsSys(t: Table, sys: bv8) {
    exists i :: 0 <= i < |t.entries| && t.entries[i].node.sys == sys
  }

  /** Record a sighting of `node`. */
  function Touched(t: Table, node: NodeId, now: nat): Table {
    var i := IndexOf(t.entries, node);
    if i < |t.entries| then t.(entries := t.entries[i := Entry(node, (), now)])
    else
      t.(entries := MakeRoom(t.entries, t.capacity) + [Entry(node, (), now)])
  }

  // ---------- The table as a map ----------

  predicate Distinct(entries: seq<LearnEntry>) {
    forall i, j :: 0 <= i < j < |entries| ==> entries[i].node != entries[j].node
  }

  ghost predicate ValidTable(t: Table) {
    && 0 < t.capacity
    && |t.entries| <= t.capacity
    && Distinct(t.entries)
  }

  /** Node to last sighting. */
  ghost function View(entries: seq<LearnEntry>): map<NodeId, nat> {
    if entries == [] then map[]
    else
      var e := entries[|entries| - 1];
      View(entries[..|entries| - 1])[e.node := e.lastSeen]
  }

  lemma {:induction false} ViewAt(entries: seq<LearnEntry>, i: nat)
    requires Distinct(entries) && i < |entries|
    ensures entries[i].node in View(entries) && View(entries)[entries[i].node] == entries[i].lastSeen
  {
    var last := |entries| - 1;
    if i < last {
      assert entries[..last][i] == entries[i] && entries[last].node != entries[i].node;
      ViewAt(entries[..last], i);
    }
  }

  lemma {:induction false} ViewFrom(entries: seq<LearnEntry>, n: NodeId) returns (i: nat)
    requires n in View(entries)
    ensures i < |entries| && entries[i].node == n
  {
    var last := |entries| - 1;
    if entries[last].node == n {
      i := last;
    } else {
      i := ViewFrom(entries[..last], n);
    }
  }

  lemma {:induction false} ViewSize(entries: seq<LearnEntry>)
    requires Distinct(entries)
    ensures |View(entries)| == |entries|
  {
    if entries != [] {
      var init, e := entries[..|entries| - 1], entries[|entries| - 1];
      ViewSize(init);
      assert e.node !in View(init) by {
        if e.node in View(init) {
          var i := ViewFrom(init, e.node);
        }
      }
      InsertGrows(View(init), e.node, e.lastSeen);
    }
  }

  /** The view holds exactly the entries of a table without repetitions. */
  lemma ViewEntries(entries: seq<LearnEntry>)
    requires Distinct(entries)
    ensures forall i :: 0 <= i < |entries| ==>
              entries[i].node in View(entries) && View(entries)[entries[i].node] == entries[i].lastSeen
    ensures forall n :: n in View(entries) ==> exists i :: 0 <= i < |entries| && entries[i].node == n
    ensures |View(entries)| == |entries|
  {
    hide View, Distinct;
    forall i: nat | i < |entries|
      ensures entries[i].node in View(entries) && View(entries)[entries[i].node] == entries[i].lastSeen
    {
      ViewAt(entries, i);
    }
    forall n | n in View(entries)
      ensures exists i :: 0 <= i < |entries| && entries[i].node == n
    {
      var i := ViewFrom(entries, n);
    }
    ViewSize(entries);
  }

  lemma InsertGrows(m: map<NodeId, nat>, n: NodeId, at: nat)
    requires n !in m
    ensures |m[n := at]| == |m| + 1
  {
    assert m[n := at].Keys == m.Keys + {n};
  }

  /** A map with the entries of `entries` and no others is its view. */
  lemma ViewIs(entries: seq<LearnEntry>, m: map<NodeId, nat>)
    requires Distinct(entries)
    requires forall i :: 0 <= i < |entries| ==>
               entries[i].node in m && m[entries[i].node] == entries[i].lastSeen
    requires forall n :: n in m ==> exists i :: 0 <= i < |entries| && entries[i].node == n
    ensures View(entries) == m
  {
    ViewEntries(entries);
    forall n | n in m
      ensures n in View(entries) && View(entries)[n] == m[n]
    {
      var i :| 0 <= i < |entries| && entries[i].node == n;
    }
  }

  lemma ContainsIffView(t: Table, node: NodeId)
    requires ValidTable(t)
    ensures Contains(t, node) <==> node in View(t.entries)
  {
    ViewEntries(t.entries);
  }

  lemma RefreshView(entries: seq<LearnEntry>, i: nat, now: nat)
    requires Distinct(entries) && i < |entries|
    ensures
      var next := entries[i := Entry(entries[i].node, (), now)];
      Distinct(next) && View(next) == View(entries)[entries[i].node := now]
  {
    ViewEntries(entries);
    var next := entries[i := Entry(entries[i].node, (), now)];
    assert forall j :: 0 <= j < |next| ==> next[j].node == entries[j].node;
    ViewIs(next, View(entries)[entries[i].node := now]);
  }

  lemma AppendView(entries: seq<LearnEntry>, e: LearnEntry)
    requires Distinct(entries)
    requires e.node !in View(entries)
    ensures Distinct(entries + [e]) && View(entries + [e]) == View(entries)[e.node := e.lastSeen]
  {
    ViewEntries(entries);
    assert (entries + [e])[..|entries|] == entries;
  }

  lemma SwapRemoveView(entries: seq<LearnEntry>, i: nat)
    requires Distinct(entries) && i < |entries|
    ensures
      var next := SwapRemove(entries, i);
      Distinct(next) && View(next) == View(entries) - {entries[i].node}
  {
    hide SwapRemove, View;
    ViewEntries(entries);
    var next := SwapRemove(entries, i);
    var last := |entries| - 1;
    SwapRemoveAt(entries, i);
    var m := View(entries) - {entries[i].node};
    forall n | n in m
      ensures exists j :: 0 <= j < |next| && next[j].node == n
    {
      var j :| 0 <= j < |entries| && entries[j].node == n;
      var k := if j == last then i else j;
      assert next[k].node == n;
    }
    ViewIs(next, m);
  }

  /** What a touch does: refresh, insert, or insert in place of a least recent node. */
  ghost predicate TouchEffect(
    before: map<NodeId, nat>, after: map<NodeId, nat>, capacity: nat, node: NodeId, now: nat)
  {
    if node in before || |before| < capacity then after == before[node := now]
    else exists v :: v in before && (forall n :: n in before ==> before[v] <= before[n])
                     && after == (before - {v})[node := now]
  }

  lemma TouchedView(t: Table, node: NodeId, now: nat)
    requires ValidTable(t)
    ensures ValidTable(Touched(t, node, now)) && Touched(t, node, now).capacity == t.capacity
    ensures TouchEffect(View(t.entries), View(Touched(t, node, now).entries), t.capacity, node, now)
    ensures node in View(Touched(t, node, now).entries)
  {
    var i := IndexOf(t.entries, node);
    var e := Entry(node, (), now);
    ViewEntries(t.entries);
    if i < |t.entries| {
      RefreshView(t.entries, i, now);
    } else if |t.entries| < t.capacity {
      AppendView(t.entries, e);
    } else {
      var k := OldestIndex(t.entries);
      SwapRemoveView(t.entries, k);
      AppendView(SwapRemove(t.entries, k), e);
      assert t.entries[k].node in View(t.entries);
    }
  }

  // ---------- The table against the history ----------

  datatype Sighting = Sighting(node: NodeId, at: nat)

  /** When every node was last seen. */
  ghost function Latest(history: seq<Sighting>): map<NodeId, nat> {
    if history == [] then map[]
    else
      var s := history[|history| - 1];
      Latest(history[..|history| - 1])[s.node := s.at]
  }

  function TouchAll(capacity: nat, history: seq<Sighting>): (t: Table)
    ensures t.capacity == if capacity == 0 then 1 else capacity
  {
    if history == [] then NewTable(capacity)
    else
      var s := history[|history| - 1];
      Touched(TouchAll(capacity, history[..|history| - 1]), s.node, s.at)
  }

  ghost predicate Nondecreasing(history: seq<Sighting>) {
    forall i, j :: 0 <= i < j < |history| ==> history[i].at <= history[j].at
  }

  /**
   A table keeps the most recent nodes of a history: with their last times, and dropping
   a node only when full and only in favour of nodes seen no earlier.
   */
  ghost predicate KeepsRecent(latest: map<NodeId, nat>, kept: map<NodeId, nat>, capacity: nat) {
    && |kept| <= capacity
    && (forall n :: n in kept ==> n in latest && latest[n] == kept[n])
    && (forall n :: n in latest && n !in kept ==>
          |kept| == capacity && forall k :: k in kept ==> latest[n] <= kept[k])
  }

  lemma MapSizes(m: map<NodeId, nat>, v: NodeId, n: NodeId, now: nat)
    ensures n !in m ==> |m[n := now]| == |m| + 1
    ensures n in m ==> |m[n := now]| == |m|
    ensures v in m ==> |m - {v}| == |m| - 1
  {
    assert m[n := now].Keys == m.Keys + {n};
    assert (m - {v}).Keys == m.Keys - {v};
  }

  lemma InsertKeepsRecent(latest: map<NodeId, nat>, kept: map<NodeId, nat>, capacity: nat, node: NodeId, now: nat)
    requires KeepsRecent(latest, kept, capacity)
    requires node in kept || |kept| < capacity
    requires forall n :: n in latest ==> latest[n] <= now
    ensures KeepsRecent(latest[node := now], kept[node := now], capacity)
  {
    MapSizes(kept, node, node, now);
  }

  lemma EvictKeepsRecent(
    latest: map<NodeId, nat>, kept: map<NodeId, nat>, capacity: nat, v: NodeId, node: NodeId, now: nat)
    requires KeepsRecent(latest, kept, capacity) && |kept| == capacity
    requires node !in kept && v in kept && forall n :: n in kept ==> kept[v] <= kept[n]
    requires forall n :: n in latest ==> latest[n] <= now
    ensures KeepsRecent(latest[node := now], (kept - {v})[node := now], capacity)
  {
    MapSizes(kept, v, node, now);
    MapSizes(kept - {v}, v, node, now);
  }

  /** A touch at a time no earlier than any before it keeps the most recent nodes. */
  lemma TouchKeepsRecent(latest: map<NodeId, nat>, kept: map<NodeId, nat>, after: map<NodeId, nat>,
                         capacity: nat, node: NodeId, now: nat)
    requires KeepsRecent(latest, kept, capacity)
    requires TouchEffect(kept, after, capacity, node, now)
    requires forall n :: n in latest ==> latest[n] <= now
    ensures KeepsRecent(latest[node := now], after, capacity)
  {
    if node in kept || |kept| < capacity {
      InsertKeepsRecent(latest, kept, capacity, node, now);
    } else {
      var v :| v in kept && (forall n :: n in kept ==> kept[v] <= kept[n]) && after == (kept - {v})[node := now];
      EvictKeepsRecent(latest, kept, capacity, v, node, now);
    }
  }

  /** The sighting behind a node's last time. */
  lemma {:induction false} LastSighting(history: seq<Sighting>, n: NodeId) returns (i: nat)
    requires n in Latest(history)
    ensures i < |history| && history[i] == Sighting(n, Latest(history)[n])
    ensures forall j :: i < j < |history| ==> history[j].node != n
  {
    var last := |history| - 1;
    if history[last].node == n {
      i := last;
    } else {
      var init := history[..last];
      i := LastSighting(init, n);
      assert forall j :: 0 <= j < |init| ==> init[j] == history[j];
    }
  }

  /** Over every history with a clock that never goes back, the table keeps the most recent nodes. */
  lemma {:induction false} TouchAllKeepsRecent(capacity: nat, history: seq<Sighting>)
    requires Nondecreasing(history)
    ensures ValidTable(TouchAll(capacity, history))
    ensures
      var t := TouchAll(capacity, history);
      KeepsRecent(Latest(history), View(t.entries), t.capacity)
  {
    if history != [] {
      var last := |history| - 1;
      var init := history[..last];
      var s := history[last];
      assert Nondecreasing(init);
      TouchAllKeepsRecent(capacity, init);
      var t := TouchAll(capacity, init);
      TouchedView(t, s.node, s.at);
      forall n | n in Latest(init)
        ensures Latest(init)[n] <= s.at
      {
        var i := LastSighting(init, n);
        assert history[i].at <= history[last].at;
      }
      TouchKeepsRecent(Latest(init), View(t.entries), View(Touched(t, s.node, s.at).entries), t.capacity, s.node, s.at);
    }
  }

  /** The nodes other than `n` last seen after it (or, when `ties`, no earlier). */
  ghost function Newer(latest: map<NodeId, nat>, n: NodeId, ties: bool): set<NodeId>
    requires n in latest
  {
    set m | m in latest && m != n && (latest[m] > latest[n] || (ties && latest[m] == latest[n]))
  }

  lemma KeptHasFewNewer(latest: map<NodeId, nat>, kept: map<NodeId, nat>, capacity: nat, n: NodeId)
    requires KeepsRecent(latest, kept, capacity) && n in kept
    ensures |Newer(latest, n, false)| < capacity
  {
    assert Newer(latest, n, false) <= kept.Keys - {n};
    SubsetSize(Newer(latest, n, false), kept.Keys - {n});
  }

  lemma DroppedHasManyNewer(latest: map<NodeId, nat>, kept: map<NodeId, nat>, capacity: nat, n: NodeId)
    requires KeepsRecent(latest, kept, capacity) && n in latest && n !in kept
    ensures |Newer(latest, n, true)| >= capacity
  {
    assert kept.Keys <= Newer(latest, n, true);
    SubsetSize(kept.Keys, Newer(latest, n, true));
  }

  /**
   Whatever the ties, a node with fewer than `capacity` others seen no earlier is held with
   its last time, and a node with `capacity` others seen strictly later is not.
   */
  lemma HeldUpToTies(capacity: nat, history: seq<Sighting>, n: NodeId)
    requires Nondecreasing(history) && n in Latest(history)
    ensures
      var t := TouchAll(capacity, history);
      && (|Newer(Latest(history), n, true)| < t.capacity ==> Contains(t, n))
      && (|Newer(Latest(history), n, false)| >= t.capacity ==> !Contains(t, n))
      && (Contains(t, n) ==> n in View(t.entries) && View(t.entries)[n] == Latest(history)[n])
  {
    hide TouchAll, Contains;
    var t := TouchAll(capacity, history);
    TouchAllKeepsRecent(capacity, history);
    ContainsIffView(t, n);
    if Contains(t, n) {
      KeptHasFewNewer(Latest(history), View(t.entries), t.capacity, n);
    } else {
      DroppedHasManyNewer(Latest(history), View(t.entries), t.capacity, n);
    }
  }

  /** No other node shares the time at which `n` was last seen. */
  ghost predicate Untied(latest: map<NodeId, nat>, n: NodeId)
    requires n in latest
  {
    forall m :: m in latest && m != n ==> latest[m] != latest[n]
  }

  /** So an untied node is held exactly when fewer than `capacity` others were seen later. */
  lemma ExactLru(capacity: nat, history: seq<Sighting>, n: NodeId)
    requires Nondecreasing(history) && n in Latest(history) && Untied(Latest(history), n)
    ensures
      var t := TouchAll(capacity, history);
      Contains(t, n) <==> |Newer(Latest(history), n, false)| < t.capacity
  {
    hide TouchAll, Contains;
    HeldUpToTies(capacity, history, n);
    assert Newer(Latest(history), n, true) == Newer(Latest(history), n, false);
  }

  /** The table is as full as the history allows. */
  lemma TableSize(capacity: nat, history: seq<Sighting>)
    requires Nondecreasing(history)
    ensures
      var t := TouchAll(capacity, history);
      |t.entries| == if |Latest(history)| < t.capacity then |Latest(history)| else t.capacity
  {
    var t := TouchAll(capacity, history);
    TouchAllKeepsRecent(capacity, history);
    ViewEntries(t.entries);
    var kept := View(t.entries);
    assert kept.Keys <= Latest(history).Keys;
    SubsetSize(kept.Keys, Latest(history).Keys);
    if kept.Keys != Latest(history).Keys {
      var n :| n in Latest(history) && n !in kept;
    }
  }

  lemma TouchAllSnoc(capacity: nat, history: seq<Sighting>, s: Sighting)
    ensures TouchAll(capacity, history + [s]) == Touched(TouchAll(capacity, history), s.node, s.at)
  {
    assert (history + [s])[..|history|] == history;
  }

  // ---------- The table as it runs ----------

  class LearnTable {
    var entries: seq<LearnEntry>
    const capacity: nat
    ghost var history: seq<Sighting>

    ghost function Value(): Table
      reads this
    {
      Table(entries, capacity)
    }

    ghost predicate Valid()
      reads this
    {
      && 0 < capacity
      && Value() == TouchAll(capacity, history)
    }

    constructor (capacity: nat)
      ensures Valid()
      ensures this.capacity == (if capacity == 0 then 1 else capacity) && history == [] && entries == []
    {
      this.capacity := if capacity == 0 then 1 else capacity;
      entries, history := [], [];
    }

    /** Record a sighting; true when the node was not in the table. */
    method Touch(node: NodeId, now: nat) returns (inserted: bool)
      requires Valid()
      modifies this
      ensures Valid()
      ensures history == old(history) + [Sighting(node, now)]
      ensures inserted == !old(Contains(Value(), node))
      ensures Value() == Touched(old(Value()), node, now)
    {
      var next := history + [Sighting(node, now)];
      assert next[..|history|] == history;
      history := next;
      var i := Find(entries, node);
      if i < |entries| {
        entries := entries[i := Entry(node, (), now)];
        return false;
      }
      if |entries| >= capacity {
        entries := EvictOldest(entries);
      }
      entries := entries + [Entry(node, (), now)];
      return true;
    }

    method Has(node: NodeId) returns (found: bool)
      ensures found == Contains(Value(), node)
    {
      var i := Find(entries, node);
      found := i < |entries|;
    }

    method HasSys(sys: bv8) returns (found: bool)
      ensures found == ContainsSys(Value(), sys)
    {
      found := false;
      for i := 0 to |entries|
        invariant found <==> exists j :: 0 <= j < i && entries[j].node.sys == sys
      {
        if entries[i].node.sys == sys {
          found := true;
        }
      }
    }
  }
}
