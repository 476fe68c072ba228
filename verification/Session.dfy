/**
 The ingress pipeline of a session (src/endpoint/session.rs): frames come out of the
 framer, are counted, feed the loss estimate, pass the in-filter and go to the router.
 */
module Ingress {
  import opened Frame
  import opened Framing
  import opened Deciding
  import opened SequenceLoss

  const SEQ_TRACKER_CAPACITY: nat := 32

  type Received = (ParsedHeader, Bytes)

  // ---------- What the counters mean ----------

  /** The frames that the in-lists let through, in order. */
  ghost function Passing(f: Filters, frames: seq<Received>): seq<Received> {
    if frames == [] then []
    else
      var last := frames[|frames| - 1];
      var before := Passing(f, frames[..|frames| - 1]);
      if InListed(f, last.0.msgid, last.0.source) then before + [last] else before
  }

  function TotalBytes(frames: seq<Received>): nat {
    if frames == [] then 0 else TotalBytes(frames[..|frames| - 1]) + |frames[|frames| - 1].1|
  }

  lemma OneMore(f: Filters, frames: seq<Received>, r: Received)
    ensures Passing(f, frames + [r])
         == if InListed(f, r.0.msgid, r.0.source) then Passing(f, frames) + [r] else Passing(f, frames)
    ensures TotalBytes(frames + [r]) == TotalBytes(frames) + |r.1|
  {
    hide InListed;
    assert (frames + [r])[..|frames|] == frames;
  }

  /** One call of the tracker: source and sequence number of a frame, and the time. */
  datatype Seen = Seen(node: NodeId, seqno: nat, at: nat)

  /** The tracker and the total reported after a series of calls. */
  function ObserveAll(t: Tracker, seen: seq<Seen>): (Tracker, nat) {
    if seen == [] then (t, 0)
    else
      var last := seen[|seen| - 1];
      var before := ObserveAll(t, seen[..|seen| - 1]);
      var r := Observe(before.0, last.node, last.seqno, last.at);
      (r.0, before.1 + r.1)
  }

  lemma ObserveOneMore(t: Tracker, seen: seq<Seen>, s: Seen)
    ensures
      var before := ObserveAll(t, seen);
      var r := Observe(before.0, s.node, s.seqno, s.at);
      ObserveAll(t, seen + [s]) == (r.0, before.1 + r.1)
  {
    hide Observe;
    assert (seen + [s])[..|seen|] == seen;
  }

  /** Every frame was shown to the tracker, once, in order. */
  ghost predicate AllSeen(frames: seq<Received>, seen: seq<Seen>) {
    && |seen| == |frames|
    && forall i :: 0 <= i < |frames| ==> seen[i].node == frames[i].0.source && seen[i].seqno == frames[i].0.seqno as nat
  }

  lemma SeenOneMore(frames: seq<Received>, seen: seq<Seen>, r: Received, at: nat)
    requires AllSeen(frames, seen)
    ensures AllSeen(frames + [r], seen + [Seen(r.0.source, r.0.seqno as nat, at)])
  {}

  /** The frames behind the wire numbers, with their true counters. */
  ghost predicate CountersBehind(seen: seq<Seen>, h: seq<Sent>) {
    && |h| == |seen|
    && forall i :: 0 <= i < |h| ==>
         h[i].node == seen[i].node && h[i].counter % 256 == seen[i].seqno && h[i].at == seen[i].at
  }

  lemma {:induction false} ObserveAllIsEstimate(capacity: nat, seen: seq<Seen>, h: seq<Sent>)
    requires CountersBehind(seen, h)
    ensures ObserveAll(NewTracker(capacity), seen) == (Track(capacity, h), Estimate(capacity, h))
  {
    hide Observe;
    if h != [] {
      ObserveAllIsEstimate(capacity, seen[..|seen| - 1], h[..|h| - 1]);
    }
  }

  // ---------- The session ----------

  class Session {
    const framer: Framer
    const tracker: SeqTracker
    const filters: Filters
    var rxFrames: nat
    var rxBytes: nat
    var rxLostEst: nat
    var inFilterDrops: nat
    /** what the router channel accepted, in order */
    var sent: seq<Received>
    ghost var seen: seq<Seen>

    /** Every frame of the framer is counted and was seen by the tracker. */
    ghost predicate Accounted()
      reads this, framer, tracker
    {
      var frames := Frames(framer.pieces);
      && framer.Valid()
      && rxFrames == |frames|
      && rxBytes == TotalBytes(frames)
      && |frames| == inFilterDrops + |Passing(filters, frames)|
      && AllSeen(frames, seen)
      && ObserveAll(NewTracker(32), seen) == (tracker.Value(), rxLostEst)
    }

    ghost predicate Valid()
      reads this, framer, tracker
    {
      Accounted() && sent == Passing(filters, Frames(framer.pieces))
    }

    constructor (table: MsgTable, filters: Filters)
      ensures Valid() && fresh(framer) && fresh(tracker)
      ensures this.filters == filters && framer.table == table && framer.fed == []
    {
      framer := new Framer(table);
      tracker := new SeqTracker(SEQ_TRACKER_CAPACITY);
      this.filters := filters;
      rxFrames, rxBytes, rxLostEst, inFilterDrops := 0, 0, 0, 0;
      sent, seen := [], [];
    }

    /** Count a frame and show it to the tracker. */
    method Account(ghost before: seq<Received>, r: Received, now: nat)
      requires AllSeen(before, seen) && rxFrames == |before| && rxBytes == TotalBytes(before)
      requires ObserveAll(NewTracker(32), seen) == (tracker.Value(), rxLostEst)
      modifies this`rxFrames, this`rxBytes, this`rxLostEst, this`seen, tracker
      ensures AllSeen(before + [r], seen) && rxFrames == |before| + 1 && rxBytes == TotalBytes(before + [r])
      ensures ObserveAll(NewTracker(32), seen) == (tracker.Value(), rxLostEst)
    {
      hide *;
      OneMore(filters, before, r);
      rxFrames := rxFrames + 1;
      rxBytes := rxBytes + |r.1|;
      SeenOneMore(before, seen, r, now);
      ObserveOneMore(NewTracker(32), seen, Seen(r.0.source, r.0.seqno as nat, now));
      var lost := tracker.ObserveFrame(r.0.source, r.0.seqno as nat, now);
      if lost > 0 {
        rxLostEst := rxLostEst + lost;
      }
      seen := seen + [Seen(r.0.source, r.0.seqno as nat, now)];
    }

    /**
     Forward everything the framer can extract; the channel closes after `accepts` sends.
     When it does, the frame in hand is the only one that passed the filter and was not sent.
     */
    method ForwardInboundFrames(now: nat, accepts: nat) returns (closed: bool)
      requires Valid()
      modifies this, framer, tracker
      ensures framer.fed == old(framer.fed) && old(sent) <= sent
      ensures !closed ==> Valid() && Scan(framer.table, framer.buf).NeedMore?
      ensures closed ==>
                && Accounted() && Frames(framer.pieces) != []
                && (var frames := Frames(framer.pieces); Passing(filters, frames) == sent + [frames[|frames| - 1]])
                && |sent| == |old(sent)| + accepts
    {
      hide Passing, TotalBytes, Frames, AllSeen, ObserveAll, Scan, Splits, ResyncBytes, CrcErrors, InListed;
      var room := accepts;
      while true
        invariant Valid() && framer.fed == old(framer.fed) && old(sent) <= sent
        invariant |sent| + room == |old(sent)| + accepts
        decreases |framer.buf|
      {
        ghost var before := Frames(framer.pieces);
        var next := framer.TryNextFrame();
        if next.None? {
          return false;
        }
        var r := next.value;
        OneMore(filters, before, r);
        Account(before, r, now);
        var pass := CheckInFilter(filters, r.0.msgid, r.0.source);
        if !pass {
          inFilterDrops := inFilterDrops + 1;
        } else if room == 0 {
          return true;
        } else {
          sent := sent + [r];
          room := room - 1;
        }
      }
    }

    /** A transport read, forwarded at once. */
    method OnRead(chunk: Bytes, now: nat, accepts: nat) returns (closed: bool)
      requires Valid()
      modifies this, framer, tracker
      ensures framer.fed == old(framer.fed) + chunk && old(sent) <= sent
      ensures !closed ==> Valid() && Scan(framer.table, framer.buf).NeedMore?
      ensures closed ==> Accounted() && |sent| == |old(sent)| + accepts
    {
      hide Passing, TotalBytes, Frames, AllSeen, ObserveAll, Scan, Splits, ResyncBytes, CrcErrors;
      framer.Write(chunk);
      closed := ForwardInboundFrames(now, accepts);
    }

    /**
     What a session has sent and counted depends only on the bytes it received, not on
     how the transport cut them: it sent the frames of one drain of the whole input that
     pass the in-filter, in order.
     */
    lemma SentIsDrainOfInput()
      requires Valid() && Scan(framer.table, framer.buf).NeedMore?
      ensures
        var frames := Frames(Drain(framer.table, framer.fed).pieces);
        && sent == Passing(filters, frames)
        && rxFrames == |frames|
        && rxBytes == TotalBytes(frames)
        && inFilterDrops == |frames| - |sent|
    {
      hide Passing, TotalBytes, Frames, AllSeen, ObserveAll, Scan, Drain;
      framer.StateIsDrainOfInput();
    }

    /** Whatever the filter drops, `rx_lost_est` never exceeds the frames the sources truly lost. */
    lemma LossIsNotOverstated(h: seq<Sent>)
      requires Accounted() && CountersBehind(seen, h) && Counted(h)
      ensures rxLostEst == Estimate(32, h) <= Lost(h)
    {
      hide *;
      ObserveAllIsEstimate(32, seen, h);
      EstimateIsBounded(32, h);
      assert ObserveAll(NewTracker(32), seen).1 == rxLostEst by { TrackerTotal(); }
    }

    lemma TrackerTotal()
      requires Accounted()
      ensures ObserveAll(NewTracker(32), seen).1 == rxLostEst
    {}
  }
}
