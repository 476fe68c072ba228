/**
 Bounded vectors of nodes with the time each was last seen, shared by the learn table and
 the sequence tracker (src/router/learn.rs, src/endpoint/seq_tracker.rs).  A full vector
 makes room by swapping out its first oldest entry.
 */
module Recency {
  import opened Frame

  datatype Entry<+V> = Entry(node: NodeId, value: V, lastSeen: nat)

  /** The first entry for `node`, or the length when there is none. */
  function IndexOf<V>(entries: seq<Entry<V>>, node: NodeId): (i: nat)
    ensures i <= |entries|
    ensures i < |entries| ==> entries[i].node == node
    ensures forall j :: 0 <= j < i ==> entries[j].node != node
  {
    if entries == [] || entries[0].node == node then 0 else 1 + IndexOf(entries[1..], node)
  }

  /** The first entry with the smallest `lastSeen`. */
  function OldestIndex<V>(entries: seq<Entry<V>>): (i: nat)
    requires entries != []
    ensures i < |entries|
    ensures forall j :: 0 <= j < |entries| ==> entries[i].lastSeen <= entries[j].lastSeen
    ensures forall j :: 0 <= j < i ==> entries[i].lastSeen < entries[j].lastSeen
  {
    if |entries| == 1 then 0
    else
      var k := 1 + OldestIndex(entries[1..]);
      assert forall j :: 1 <= j < |entries| ==> entries[j] == entries[1..][j - 1];
      if entries[0].lastSeen <= entries[k].lastSeen then 0 else k
  }

  /** Remove an element by moving the last one into its place. */
  function SwapRemove<T>(s: seq<T>, i: nat): seq<T>
    requires i < |s|
  {
    s[i := s[|s| - 1]][..|s| - 1]
  }

  lemma SwapRemoveAt<T>(s: seq<T>, i: nat)
    requires i < |s|
    ensures |SwapRemove(s, i)| == |s| - 1
    ensures forall j :: 0 <= j < |s| - 1 ==> SwapRemove(s, i)[j] == if j == i then s[|s| - 1] else s[j]
  {}

  function WithoutOldest<V>(entries: seq<Entry<V>>): seq<Entry<V>> {
    if entries == [] then [] else SwapRemove(entries, OldestIndex(entries))
  }

  /** The entries once there is a place for one more. */
  function MakeRoom<V>(entries: seq<Entry<V>>, capacity: nat): seq<Entry<V>> {
    if |entries| >= capacity then WithoutOldest(entries) else entries
  }

  method Find<V>(entries: seq<Entry<V>>, node: NodeId) returns (i: nat)
    ensures i == IndexOf(entries, node)
  {
    i := 0;
    while i < |entries| && entries[i].node != node
      invariant 0 <= i <= |entries|
      invariant forall j :: 0 <= j < i ==> entries[j].node != node
    {
      i := i + 1;
    }
  }

  method EvictOldest<V>(entries: seq<Entry<V>>) returns (rest: seq<Entry<V>>)
    ensures rest == WithoutOldest(entries)
  {
    if entries == [] {
      return [];
    }
    var index := 0;
    for i := 1 to |entries|
      invariant 0 <= index < i
      invariant forall j :: 0 <= j < i ==> entries[index].lastSeen <= entries[j].lastSeen
      invariant forall j :: 0 <= j < index ==> entries[index].lastSeen < entries[j].lastSeen
    {
      if entries[i].lastSeen < entries[index].lastSeen {
        index := i;
      }
    }
    rest := SwapRemove(entries, index);
  }
}
