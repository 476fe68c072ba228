/**
 Which sources the sequence tracker remembers (src/endpoint/seq_tracker.rs).  Sequence
 numbers apart, it is the learn table of its frames, so it forgets a source as that table
 forgets a node, and a report is exact by a rule over the frames alone.
 */
module TrackerMemory {
  import opened Frame
  import opened Recency
  import opened SequenceLoss
  import Learning
  import LearnTies

  // ---------- The tracker without its numbers ----------

  ghost function Stripped(entries: seq<SeqEntry>): (s: seq<Entry<()>>)
    ensures |s| == |entries|
    ensures forall i :: 0 <= i < |entries| ==> s[i] == Entry(entries[i].node, (), entries[i].lastSeen)
  {
    seq(|entries|, i requires 0 <= i < |entries| => Entry(entries[i].node, (), entries[i].lastSeen))
  }

  lemma StrippedIndex(entries: seq<SeqEntry>, node: NodeId)
    ensures IndexOf(Stripped(entries), node) == IndexOf(entries, node)
  {}

  lemma StrippedOldest(entries: seq<SeqEntry>)
    requires entries != []
    ensures OldestIndex(Stripped(entries)) == OldestIndex(entries)
  {
    var i, j := OldestIndex(Stripped(entries)), OldestIndex(entries);
    assert Stripped(entries)[i].lastSeen == entries[i].lastSeen;
    assert Stripped(entries)[j].lastSeen == entries[j].lastSeen;
  }

  lemma StrippedRoom(entries: seq<SeqEntry>, capacity: nat)
    ensures Stripped(MakeRoom(entries, capacity)) == MakeRoom(Stripped(entries), capacity)
  {
    hide OldestIndex;
    if |entries| >= capacity && entries != [] {
      StrippedOldest(entries);
      var i := OldestIndex(entries);
      SwapRemoveAt(entries, i);
      SwapRemoveAt(Stripped(entries), i);
    }
  }

  /** A frame moves the tracker as a sighting moves a learn table. */
  lemma ObserveTouches(t: Tracker, node: NodeId, seqno: nat, now: nat)
    ensures
      var table := Learning.Table(Stripped(t.entries), t.capacity);
      Stripped(Observe(t, node, seqno, now).0.entries) == Learning.Touched(table, node, now).entries
  {
    hide MakeRoom, Gap, Inferred;
    StrippedIndex(t.entries, node);
    StrippedRoom(t.entries, t.capacity);
  }

  /** The frames as sightings of their sources. */
  ghost function Sightings(h: seq<Sent>): (s: seq<Learning.Sighting>)
    ensures |s| == |h|
    ensures forall i :: 0 <= i < |h| ==> s[i] == Learning.Sighting(h[i].node, h[i].at)
  {
    seq(|h|, i requires 0 <= i < |h| => Learning.Sighting(h[i].node, h[i].at))
  }

  lemma SightingsInit(h: seq<Sent>)
    requires h != []
    ensures Sightings(h)[..|h| - 1] == Sightings(h[..|h| - 1])
  {}

  /** Over every run the tracker holds what the learn table of its frames holds. */
  lemma {:induction false} TrackerIsTable(capacity: nat, h: seq<Sent>)
    ensures Stripped(Track(capacity, h).entries) == Learning.TouchAll(capacity, Sightings(h)).entries
  {
    hide Observe, Learning.Touched;
    if h != [] {
      var init, s := h[..|h| - 1], h[|h| - 1];
      TrackerIsTable(capacity, init);
      SightingsInit(h);
      ObserveTouches(Track(capacity, init), s.node, s.counter % 256, s.at);
    }
  }

  // ---------- What is remembered ----------

  lemma HeldIs(capacity: nat, h: seq<Sent>)
    requires h != []
    ensures Held(capacity, h) <==>
              Learning.Contains(Learning.TouchAll(capacity, Sightings(h[..|h| - 1])), h[|h| - 1].node)
  {
    hide Track, Learning.TouchAll;
    var init, n := h[..|h| - 1], h[|h| - 1].node;
    TrackerIsTable(capacity, init);
    var entries, table := Track(capacity, init).entries, Learning.TouchAll(capacity, Sightings(init)).entries;
    StrippedIndex(entries, n);
    if Learning.Contains(Learning.TouchAll(capacity, Sightings(init)), n) {
      var i :| 0 <= i < |table| && table[i].node == n;
      assert entries[i].node == n;
    }
  }

  /**
   Whatever frames share a reading of the clock, the source of a frame is still held when
   fewer than `capacity` others were heard no earlier, and forgotten when `capacity` others
   were heard later.
   */
  lemma HeldUpToTies(capacity: nat, h: seq<Sent>)
    requires h != [] && Learning.Nondecreasing(Sightings(h[..|h| - 1]))
    requires h[|h| - 1].node in Learning.Latest(Sightings(h[..|h| - 1]))
    ensures
      var latest, n := Learning.Latest(Sightings(h[..|h| - 1])), h[|h| - 1].node;
      var c := if capacity == 0 then 1 else capacity;
      && (|Learning.Newer(latest, n, true)| < c ==> Held(capacity, h))
      && (|Learning.Newer(latest, n, false)| >= c ==> !Held(capacity, h))
  {
    hide Held, Learning.Contains, Learning.TouchAll, Learning.Newer, Learning.Latest;
    HeldIs(capacity, h);
    Learning.HeldUpToTies(capacity, Sightings(h[..|h| - 1]), h[|h| - 1].node);
  }

  /** Frames come at strictly increasing times. */
  ghost predicate StrictTimes(h: seq<Sent>) {
    forall i, j :: 0 <= i < j < |h| ==> h[i].at < h[j].at
  }

  /**
   With a strictly increasing clock a report is exact precisely when nothing was lost, or
   fewer than 64 frames were and fewer than `capacity` other sources were heard since.
   */
  lemma ExactIffRecent(capacity: nat, h: seq<Sent>)
    requires h != [] && Counted(h) && StrictTimes(h) && 0 < capacity
    ensures Reported(capacity, h) == TrueGap(h) <==>
      || TrueGap(h) == 0
      || (TrueGap(h) < 64 && LearnTies.ArrivedRecently(capacity, Sightings(h[..|h| - 1]), h[|h| - 1].node))
  {
    hide Held, Reported, TrueGap, Counted, Learning.TouchAll, Learning.Contains, LearnTies.ArrivedRecently;
    ReportIsBounded(capacity, h);
    HeldIs(capacity, h);
    LearnTies.StrictClock(capacity, Sightings(h[..|h| - 1]));
  }
}
