/**
 The framer's decision in terms of the format alone (src/mavlink/framer.rs).  At the front
 of the buffer there is the unfinished beginning of a frame, a frame that checks, a frame
 that does not, or neither; the framer waits, emits, counts a checksum error or drops a
 byte in exactly these cases.  One case is not the format's: behind an unknown
 incompatibility flag the framer waits for a whole header before it drops the start byte.
 */
module FramerRule {
  import opened Frame
  import opened Framing
  import opened Encoding
  import opened Sequences

  // ---------- What the bytes at the front are ----------

  /** The beginning of a frame that fits the format and has not arrived in full. */
  ghost predicate Begins(buf: Bytes, w: WireFrame) {
    Fits(w) && buf < Encode(w)
  }

  /** A v2 start with an incompatibility flag other than that of a signature, short of a header. */
  predicate FlaggedStart(buf: Bytes) {
    3 <= |buf| <= 9 && buf[0] == 0xFD && buf[2] != 0x00 && buf[2] != 0x01
  }

  /** A frame that fits the format has arrived in full. */
  ghost predicate Holds(buf: Bytes, w: WireFrame) {
    Fits(w) && Encode(w) <= buf
  }

  // ---------- Frames that have not arrived in full ----------

  function Zeros(n: nat): (z: Bytes)
    ensures |z| == n
  {
    seq(n, _ => 0)
  }

  /** A start byte, and no unknown flag so far. */
  predicate CanBegin(buf: Bytes) {
    && buf != [] && StxOf(buf[0]).Some?
    && (StxOf(buf[0]) == Some(V2) && |buf| >= 3 ==> buf[2] & !V2_IFLAG_SIGNED == 0)
  }

  lemma FlagValues(b: bv8)
    ensures b & !V2_IFLAG_SIGNED == 0 <==> b == 0x00 || b == 0x01
  {}

  lemma LengthOf(buf: Bytes, version: Version)
    requires CanBegin(buf) && StxOf(buf[0]) == Some(version) && |buf| >= HeaderLen(version)
    ensures DecideFrameLen(buf, version).Ready? && DecideFrameLen(buf, version).n > HeaderLen(version)
  {}

  /** Zero bytes complete any beginning. */
  lemma PaddedCanBegin(buf: Bytes, k: nat)
    requires CanBegin(buf)
    ensures CanBegin(buf + Zeros(k))
  {
    FlagValues(0);
  }

  lemma SameLength(buf: Bytes, more: Bytes, version: Version)
    requires |buf| >= HeaderLen(version)
    ensures DecideFrameLen(buf + more, version) == DecideFrameLen(buf, version)
  {}

  /** A header has arrived, and the frame it announces has not. */
  lemma LongBegins(buf: Bytes, version: Version) returns (w: WireFrame)
    requires CanBegin(buf) && StxOf(buf[0]) == Some(version) && |buf| >= HeaderLen(version)
    requires DecideFrameLen(buf, version).Ready? && |buf| < DecideFrameLen(buf, version).n
    ensures Begins(buf, w)
  {
    hide Encode, Fits, DecideFrameLen, StxOf;
    var n := DecideFrameLen(buf, version).n;
    var full := buf + Zeros(n - |buf|);
    SameLength(buf, Zeros(n - |buf|), version);
    assert full[0] == buf[0];
    w := CompleteIsEncoded(full, n);
    assert full[..n] == full;
  }

  /** Not even a header has arrived. */
  lemma ShortBegins(buf: Bytes, version: Version) returns (w: WireFrame)
    requires CanBegin(buf) && StxOf(buf[0]) == Some(version) && |buf| < HeaderLen(version)
    ensures Begins(buf, w)
  {
    hide Encode, Fits, DecideFrameLen, StxOf, CanBegin, HeaderLen;
    var pad := Zeros(HeaderLen(version) - |buf|);
    var head := buf + pad;
    assert buf != [] by { NotEmpty(buf); }
    assert head[0] == buf[0];
    PaddedCanBegin(buf, HeaderLen(version) - |buf|);
    LengthOf(head, version);
    w := LongBegins(head, version);
  }

  lemma NotEmpty(buf: Bytes)
    requires CanBegin(buf)
    ensures buf != []
  {}

  // ---------- When the framer waits ----------

  /** The three ways of waiting. */
  lemma WaitingIs(table: MsgTable, buf: Bytes)
    ensures Scan(table, buf).NeedMore? <==>
      || buf == []
      || (StxOf(buf[0]).Some? &&
          var version := StxOf(buf[0]).value;
          || |buf| < HeaderLen(version)
          || (DecideFrameLen(buf, version).Ready? && |buf| < DecideFrameLen(buf, version).n))
  {
    hide CrcAccepted, FullHeader, ParseHeader;
  }

  lemma EmptyBegins() returns (w: WireFrame)
    ensures Begins([], w)
  {
    w := WireV1(0, 0, NodeId(0, 0), 0, [], 0);
    EncodedStart(w);
  }

  lemma UnknownFlag(buf: Bytes)
    requires buf != [] && StxOf(buf[0]).Some? && !CanBegin(buf)
    ensures |buf| >= 3 && buf[0] == 0xFD && buf[2] != 0x00 && buf[2] != 0x01
    ensures StxOf(buf[0]) == Some(V2)
    ensures |buf| >= 10 ==> DecideFrameLen(buf, V2).UnknownIncompatFlag?
  {
    FlagValues(buf[2]);
  }

  /** Whenever the framer waits, a frame or a flagged header has begun. */
  lemma WaitsFor(table: MsgTable, buf: Bytes)
    requires Scan(table, buf).NeedMore?
    ensures FlaggedStart(buf) || exists w :: Begins(buf, w)
  {
    hide Scan, StxOf, DecideFrameLen, CanBegin, Begins;
    WaitingIs(table, buf);
    if buf == [] {
      var w := EmptyBegins();
    } else if !CanBegin(buf) {
      UnknownFlag(buf);
    } else {
      var version := StxOf(buf[0]).value;
      var w: WireFrame;
      if |buf| < HeaderLen(version) {
        w := ShortBegins(buf, version);
      } else {
        w := LongBegins(buf, version);
      }
      assert Begins(buf, w);
    }
  }

  lemma FlaggedWaits(table: MsgTable, buf: Bytes)
    requires FlaggedStart(buf)
    ensures Scan(table, buf).NeedMore?
  {}

  /** The beginning of a frame is waited on. */
  lemma BeginningWaits(table: MsgTable, buf: Bytes, w: WireFrame)
    requires Begins(buf, w)
    ensures Scan(table, buf).NeedMore?
  {
    hide Scan, Encode, Fits, WrongCrc, HeaderOf, CompleteFrame;
    var f := Encode(w);
    if !Scan(table, buf).NeedMore? {
      assert f == buf + f[|buf|..];
      ScanStable(table, buf, f[|buf|..]);
      ScanFitting(table, w, []);
      EmptyAppend(f);
      assert Scan(table, f) == Scan(table, buf);
      var n := DecidedIsComplete(table, buf);
      CompleteFits(buf, n);
      CompleteLength(buf, n, w);
    }
  }

  /** The length that a header announces is that of the frame it begins. */
  lemma CompleteLength(buf: Bytes, n: nat, w: WireFrame)
    requires CompleteFrame(buf, n) && Fits(w) && buf <= Encode(w)
    ensures n == |Encode(w)|
  {
    hide Encode, Fits, DecideFrameLen, StxOf;
    var f := Encode(w);
    assert f == buf + f[|buf|..];
    assert f[0] == buf[0];
    FittingFields(w);
    EncodedStart(w);
    EncodedLength(w);
    SameLength(buf, f[|buf|..], VersionOf(w));
  }

  // ---------- When it decides ----------

  /** A complete frame decides the framer. */
  lemma HeldDecides(table: MsgTable, buf: Bytes, w: WireFrame)
    requires Holds(buf, w)
    ensures Scan(table, buf) == if WrongCrc(table, w) then Discard(true) else Emit(HeaderOf(table, w), |Encode(w)|)
  {
    hide Scan, Encode, Fits, WrongCrc, HeaderOf;
    var n := |Encode(w)|;
    assert buf == Encode(w) + buf[n..];
    ScanFitting(table, w, buf[n..]);
  }

  lemma DecidedHolds(table: MsgTable, buf: Bytes) returns (w: WireFrame)
    requires Scan(table, buf).Emit? || Scan(table, buf) == Discard(true)
    ensures Holds(buf, w)
  {
    hide Scan, Encode, Fits, CompleteFrame;
    var n := DecidedIsComplete(table, buf);
    w := CompleteIsEncoded(buf, n);
    CompleteFits(buf, n);
  }

  /**
   The whole decision, by the format.  The framer waits exactly on the beginning of a frame
   or of a header with an unknown flag; it emits exactly a frame that checks, with its
   header; it counts a checksum error exactly on a known frame that does not check; in
   every other case it drops a byte and looks again.
   */
  lemma ScanRule(table: MsgTable, buf: Bytes)
    ensures Scan(table, buf).NeedMore? <==> FlaggedStart(buf) || exists w :: Begins(buf, w)
    ensures Scan(table, buf).Emit? <==> exists w :: Holds(buf, w) && !WrongCrc(table, w)
    ensures forall w :: Holds(buf, w) && !WrongCrc(table, w) ==>
              Scan(table, buf) == Emit(HeaderOf(table, w), |Encode(w)|)
    ensures Scan(table, buf) == Discard(true) <==> exists w :: Holds(buf, w) && WrongCrc(table, w)
    ensures Scan(table, buf) == Discard(false) <==>
              !FlaggedStart(buf) && forall w :: !Begins(buf, w) && !Holds(buf, w)
  {
    hide *;
    var v := Scan(table, buf);
    forall w | Begins(buf, w)
      ensures v.NeedMore?
    {
      BeginningWaits(table, buf, w);
    }
    forall w | Holds(buf, w)
      ensures v == if WrongCrc(table, w) then Discard(true) else Emit(HeaderOf(table, w), |Encode(w)|)
    {
      HeldDecides(table, buf, w);
    }
    if FlaggedStart(buf) {
      FlaggedWaits(table, buf);
    }
    if v.NeedMore? {
      WaitsFor(table, buf);
    }
    if v.Emit? || v == Discard(true) {
      var w := DecidedHolds(table, buf);
      assert Holds(buf, w);
    }
  }

  // ---------- The flag that the framer does not know ----------

  /**
   Behind an unknown flag a start byte is dropped once a header's worth of bytes is there,
   whatever length the header announces.
   */
  lemma UnknownFlagIsDropped(table: MsgTable, buf: Bytes)
    requires |buf| >= 10 && buf[0] == 0xFD && buf[2] != 0x00 && buf[2] != 0x01
    ensures Scan(table, buf) == Discard(false)
  {
    FlagValues(buf[2]);
  }
}
