/**
 Loss estimation from frame sequence numbers (src/endpoint/seq_tracker.rs).

 A source numbers its frames with a counter that only grows; the wire carries it modulo
 256.  The tracker sees only the wire numbers, forgets sources under pressure and takes
 large gaps for restarts.  Its estimate is compared with the counters themselves.
 */
module SequenceLoss {
  import opened Frame
  import opened Recency
  import opened Sequences

  const DEFAULT_SEQ_GAP_THRESHOLD: nat := 64

  /** A tracked source carries its last sequence number. */
  type SeqEntry = Entry<nat>

  datatype Tracker = Tracker(entries: seq<SeqEntry>, capacity: nat, threshold: nat)

  function NewTracker(capacity: nat): Tracker {
    Tracker([], if capacity == 0 then 1 else capacity, DEFAULT_SEQ_GAP_THRESHOLD)
  }

  /** The wrapping difference of two sequence numbers, less one. */
  function Gap(lastSeq: nat, seqno: nat): nat {
    (seqno - lastSeq - 1) % 256
  }

  /** The loss inferred from a gap; a large gap is a restart. */
  function Inferred(gap: nat, threshold: nat): nat {
    if 0 < gap < threshold then gap else 0
  }

  function Observe(t: Tracker, node: NodeId, seqno: nat, now: nat): (Tracker, nat) {
    var i := IndexOf(t.entries, node);
    if i < |t.entries| then
      (t.(entries := t.entries[i := Entry(node, seqno, now)]), Inferred(Gap(t.entries[i].value, seqno), t.threshold))
    else
      (t.(entries := MakeRoom(t.entries, t.capacity) + [Entry(node, seqno, now)]), 0)
  }

  // ---------- True counters ----------

  /** A frame with the true counter behind its sequence number. */
  datatype Sent = Sent(node: NodeId, counter: nat, at: nat)

  /** The last true counter of every source. */
  ghost function Latest(h: seq<Sent>): map<NodeId, nat> {
    if h == [] then map[] else Latest(h[..|h| - 1])[h[|h| - 1].node := h[|h| - 1].counter]
  }

  /** Counters of a source strictly increase. */
  ghost predicate Counted(h: seq<Sent>) {
    forall i, j :: 0 <= i < j < |h| && h[i].node == h[j].node ==> h[i].counter < h[j].counter
  }

  /** The frames truly lost just before the last one of `h`. */
  ghost function TrueGap(h: seq<Sent>): int
    requires h != []
  {
    var before := Latest(h[..|h| - 1]);
    var s := h[|h| - 1];
    if s.node in before then s.counter - before[s.node] - 1 else 0
  }

  function Track(capacity: nat, h: seq<Sent>): (t: Tracker)
    ensures t.capacity == (if capacity == 0 then 1 else capacity) && t.threshold == 64
  {
    if h == [] then NewTracker(capacity)
    else
      var s := h[|h| - 1];
      Observe(Track(capacity, h[..|h| - 1]), s.node, s.counter % 256, s.at).0
  }

  /** What the tracker reports for the last frame of `h`. */
  function Reported(capacity: nat, h: seq<Sent>): nat
    requires h != []
  {
    var s := h[|h| - 1];
    Observe(Track(capacity, h[..|h| - 1]), s.node, s.counter % 256, s.at).1
  }

  // ---------- The tracker knows only true last counters ----------

  ghost predicate Tracks(t: Tracker, latest: map<NodeId, nat>) {
    && 0 < t.capacity
    && |t.entries| <= t.capacity
    && (forall i, j :: 0 <= i < j < |t.entries| ==> t.entries[i].node != t.entries[j].node)
    && (forall i :: 0 <= i < |t.entries| ==>
          t.entries[i].node in latest && t.entries[i].value == latest[t.entries[i].node] % 256)
  }

  lemma ObserveTracks(t: Tracker, latest: map<NodeId, nat>, node: NodeId, counter: nat, now: nat)
    requires Tracks(t, latest)
    ensures Tracks(Observe(t, node, counter % 256, now).0, latest[node := counter])
  {
    hide Gap, Inferred, OldestIndex;
    var i := IndexOf(t.entries, node);
    if i == |t.entries| && |t.entries| >= t.capacity && t.entries != [] {
      SwapRemoveAt(t.entries, OldestIndex(t.entries));
    }
  }

  lemma {:induction false} TrackTracks(capacity: nat, h: seq<Sent>)
    ensures Tracks(Track(capacity, h), Latest(h))
  {
    hide Observe;
    if h != [] {
      var s := h[|h| - 1];
      TrackTracks(capacity, h[..|h| - 1]);
      ObserveTracks(Track(capacity, h[..|h| - 1]), Latest(h[..|h| - 1]), s.node, s.counter, s.at);
    }
  }

  /** The wrapping gap of true counters is their distance modulo 256. */
  lemma GapOfCounters(last: nat, counter: nat)
    requires last < counter
    ensures Gap(last % 256, counter % 256) == (counter - last - 1) % 256
    ensures Gap(last % 256, counter % 256) <= counter - last - 1
    ensures counter - last - 1 < 256 ==> Gap(last % 256, counter % 256) == counter - last - 1
  {
    var d := (counter % 256 - last % 256 - 1) - (counter - last - 1);
    assert d == 256 * (last / 256 - counter / 256);
    ModShift(counter - last - 1, last / 256 - counter / 256);
  }

  lemma ModShift(x: int, k: int)
    ensures (x + 256 * k) % 256 == x % 256
  {}

  lemma {:induction false} LatestIs(h: seq<Sent>, n: NodeId) returns (i: nat)
    requires n in Latest(h)
    ensures i < |h| && h[i].node == n && h[i].counter == Latest(h)[n]
    ensures forall j :: i < j < |h| ==> h[j].node != n
  {
    var last := |h| - 1;
    if h[last].node == n {
      i := last;
    } else {
      i := LatestIs(h[..last], n);
      assert h[..last][i] == h[i];
      assert forall j :: i < j < last ==> h[..last][j] == h[j];
    }
  }

  lemma CountersGrow(h: seq<Sent>)
    requires h != [] && Counted(h)
    ensures h[|h| - 1].node in Latest(h[..|h| - 1]) ==> Latest(h[..|h| - 1])[h[|h| - 1].node] < h[|h| - 1].counter
  {
    var last := |h| - 1;
    if h[last].node in Latest(h[..last]) {
      var i := LatestIs(h[..last], h[last].node);
      assert h[i] == h[..last][i];
    }
  }

  /** The tracker still holds an entry for the source of the last frame of `h`. */
  ghost predicate Held(capacity: nat, h: seq<Sent>)
    requires h != []
  {
    var entries := Track(capacity, h[..|h| - 1]).entries;
    IndexOf(entries, h[|h| - 1].node) < |entries|
  }

  /**
   No report exceeds the true loss.  It is exact precisely when nothing was lost, or the
   source was still tracked and fewer frames than the threshold were lost.
   */
  lemma ReportIsBounded(capacity: nat, h: seq<Sent>)
    requires h != [] && Counted(h)
    ensures 0 <= Reported(capacity, h) <= TrueGap(h)
    ensures Reported(capacity, h) == TrueGap(h)
       <==> TrueGap(h) == 0 || (Held(capacity, h) && TrueGap(h) < 64)
  {
    hide Gap, Latest;
    var last := |h| - 1;
    var s := h[last];
    var t := Track(capacity, h[..last]);
    TrackTracks(capacity, h[..last]);
    CountersGrow(h);
    var i := IndexOf(t.entries, s.node);
    if i < |t.entries| {
      GapOfCounters(Latest(h[..last])[s.node], s.counter);
    }
  }

  // ---------- Sums over a run ----------

  /** The total that ends up in `rx_lost_est`. */
  function Estimate(capacity: nat, h: seq<Sent>): nat {
    if h == [] then 0 else Estimate(capacity, h[..|h| - 1]) + Reported(capacity, h)
  }

  /** The total truly lost between the first and the last frame of each source. */
  ghost function Lost(h: seq<Sent>): int {
    if h == [] then 0 else Lost(h[..|h| - 1]) + TrueGap(h)
  }

  lemma CountedPrefix(h: seq<Sent>, n: nat)
    requires Counted(h) && n <= |h|
    ensures Counted(h[..n])
  {}

  /** However sources interleave and get evicted, the estimate never exceeds the true loss. */
  lemma {:induction false} EstimateIsBounded(capacity: nat, h: seq<Sent>)
    requires Counted(h)
    ensures Estimate(capacity, h) <= Lost(h)
    ensures Estimate(capacity, h) == Lost(h) <==>
              forall i :: 0 < i <= |h| ==> Reported(capacity, h[..i]) == TrueGap(h[..i])
  {
    hide Reported, TrueGap, Counted;
    if h != [] {
      var n := |h| - 1;
      CountedPrefix(h, n);
      EstimateIsBounded(capacity, h[..n]);
      ReportIsBounded(capacity, h);
      assert h[..|h|] == h;
      assert forall i :: 0 < i <= n ==> h[..n][..i] == h[..i];
    }
  }

  // ---------- One source ----------

  /** What is reported for one source over a run. */
  function EstimateFor(capacity: nat, h: seq<Sent>, n: NodeId): nat {
    if h == [] then 0
    else EstimateFor(capacity, h[..|h| - 1], n) + if h[|h| - 1].node == n then Reported(capacity, h) else 0
  }

  ghost function FrameCount(h: seq<Sent>, n: NodeId): nat {
    if h == [] then 0 else FrameCount(h[..|h| - 1], n) + if h[|h| - 1].node == n then 1 else 0
  }

  ghost function First(h: seq<Sent>, n: NodeId): nat {
    if h == [] then 0
    else if FrameCount(h[..|h| - 1], n) == 0 then h[|h| - 1].counter else First(h[..|h| - 1], n)
  }

  lemma {:induction false} SeenIffCounted(h: seq<Sent>, n: NodeId)
    ensures n in Latest(h) <==> FrameCount(h, n) > 0
  {
    if h != [] {
      SeenIffCounted(h[..|h| - 1], n);
    }
  }

  /** The sources of a run. */
  ghost function Sources(h: seq<Sent>): set<NodeId> {
    Latest(h).Keys
  }

  /** With no more sources than entries, no source is ever forgotten. */
  lemma {:induction false} AllHeld(capacity: nat, h: seq<Sent>, n: NodeId)
    requires |Sources(h)| <= (if capacity == 0 then 1 else capacity) && n in Latest(h)
    ensures IndexOf(Track(capacity, h).entries, n) < |Track(capacity, h).entries|
  {
    hide OldestIndex, Gap, Inferred;
    var last := |h| - 1;
    var init, s := h[..last], h[last];
    var t := Track(capacity, init);
    TrackTracks(capacity, init);
    assert Sources(init) <= Sources(h);
    SubsetSize(Sources(init), Sources(h));
    if s.node !in Latest(init) {
      NewSourceFits(t, Latest(init), Sources(h), s.node);
    } else {
      AllHeld(capacity, init, s.node);
    }
    var t' := Track(capacity, h);
    if n != s.node {
      AllHeld(capacity, init, n);
      var i := IndexOf(t.entries, n);
      assert t'.entries[i].node == n;
      FoundAt(t'.entries, i);
    } else {
      var i := IndexOf(t.entries, n);
      assert t'.entries[i].node == n;
      FoundAt(t'.entries, i);
    }
  }

  lemma FoundAt(entries: seq<SeqEntry>, i: nat)
    requires i < |entries|
    ensures IndexOf(entries, entries[i].node) < |entries|
  {}

  /** A source not seen before finds a free entry. */
  lemma NewSourceFits(t: Tracker, latest: map<NodeId, nat>, all: set<NodeId>, n: NodeId)
    requires Tracks(t, latest) && n !in latest && latest.Keys + {n} <= all && |all| <= t.capacity
    ensures |t.entries| < t.capacity && IndexOf(t.entries, n) == |t.entries|
  {
    var held := HeldNodes(t.entries);
    HeldSize(t.entries);
    assert held <= latest.Keys;
    assert held + {n} <= all;
    SubsetSize(held + {n}, all);
  }

  ghost function HeldNodes(entries: seq<SeqEntry>): set<NodeId> {
    if entries == [] then {} else HeldNodes(entries[..|entries| - 1]) + {entries[|entries| - 1].node}
  }

  lemma {:induction false} HeldSize(entries: seq<SeqEntry>)
    requires forall i, j :: 0 <= i < j < |entries| ==> entries[i].node != entries[j].node
    ensures |HeldNodes(entries)| == |entries|
    ensures forall n :: n in HeldNodes(entries) ==> exists i :: 0 <= i < |entries| && entries[i].node == n
  {
    if entries != [] {
      var init := entries[..|entries| - 1];
      HeldSize(init);
      assert forall i :: 0 <= i < |init| ==> init[i] == entries[i];
    }
  }

  /**
   One source at a time: the reports never sum to more than the counter distance not
   covered by received frames, and to exactly that when every source fits the tracker and
   every burst of that source's losses is shorter than the threshold.
   */
  lemma {:induction false} EstimateTelescopes(capacity: nat, h: seq<Sent>, n: NodeId)
    requires Counted(h) && n in Latest(h)
    ensures EstimateFor(capacity, h, n) <= (Latest(h)[n] - First(h, n)) - (FrameCount(h, n) - 1)
    ensures |Sources(h)| <= (if capacity == 0 then 1 else capacity)
         && (forall i :: 0 < i <= |h| && h[i - 1].node == n ==> TrueGap(h[..i]) < 64)
       ==> EstimateFor(capacity, h, n) == (Latest(h)[n] - First(h, n)) - (FrameCount(h, n) - 1)
  {
    hide Reported, Counted, Track;
    var last := |h| - 1;
    var init, s := h[..last], h[last];
    CountedPrefix(h, last);
    SeenIffCounted(init, n);
    assert h[..|h|] == h;
    assert forall i :: 0 < i <= last ==> init[..i] == h[..i];
    assert Sources(init) <= Sources(h);
    SubsetSize(Sources(init), Sources(h));
    if n in Latest(init) {
      EstimateTelescopes(capacity, init, n);
    } else {
      NothingReportedYet(capacity, init, n);
    }
    if s.node == n {
      ReportIsBounded(capacity, h);
      if n in Latest(init) && |Sources(h)| <= (if capacity == 0 then 1 else capacity) {
        AllHeld(capacity, init, n);
      }
    }
  }

  lemma {:induction false} NothingReportedYet(capacity: nat, h: seq<Sent>, n: NodeId)
    requires n !in Latest(h)
    ensures EstimateFor(capacity, h, n) == 0
  {
    hide Reported;
    if h != [] {
      NothingReportedYet(capacity, h[..|h| - 1], n);
    }
  }

  // ---------- The tracker as it runs ----------

  class SeqTracker {
    var entries: seq<SeqEntry>
    const capacity: nat
    const threshold: nat

    ghost function Value(): Tracker
      reads this
    {
      Tracker(entries, capacity, threshold)
    }

    constructor (capacity: nat)
      ensures Value() == NewTracker(capacity)
    {
      this.capacity := if capacity == 0 then 1 else capacity;
      threshold := DEFAULT_SEQ_GAP_THRESHOLD;
      entries := [];
    }

    /** The number of frames inferred lost before this one. */
    method ObserveFrame(node: NodeId, seqno: nat, now: nat) returns (lost: nat)
      modifies this`entries
      ensures (Value(), lost) == Observe(old(Value()), node, seqno, now)
    {
      var i := Find(entries, node);
      if i < |entries| {
        var gap := Gap(entries[i].value, seqno);
        entries := entries[i := Entry(node, seqno, now)];
        return if gap > 0 && gap < threshold then gap else 0;
      }
      if |entries| >= capacity {
        entries := EvictOldest(entries);
      }
      entries := entries + [Entry(node, seqno, now)];
      return 0;
    }
  }
}
