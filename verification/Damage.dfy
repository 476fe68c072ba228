/**
 What becomes of a frame damaged on its way (src/mavlink/framer.rs, src/mavlink/crc.rs),
 with the bytes that delimit it and select its seed intact.  Whether the damage goes
 undetected depends on the flipped bits alone, and for every burst of at most 16 bits it
 is settled which ones do.
 */
module Damage {
  import opened Frame
  import opened Framing
  import opened Encoding
  import Crc
  import opened CrcDetection

  // ---------- A damaged frame ----------

  /** `g` keeps the bytes of `f` that delimit the frame or select its seed. */
  ghost predicate SameFraming(f: Bytes, g: Bytes, version: Version)
    requires |f| >= HeaderLen(version)
  {
    && |f| == |g|
    && f[0] == g[0]
    && f[1] == g[1]
    && (version == V1 ==> f[5] == g[5])
    && (version == V2 ==> f[2] == g[2] && f[7] == g[7] && f[8] == g[8] && f[9] == g[9])
  }

  /** `g` also keeps the checksum field. */
  ghost predicate SameChecksumField(w: WireFrame, g: Bytes) {
    var end := HeaderLen(VersionOf(w)) + |w.payload|;
    end + 2 <= |g| && g[end] == LowByte(w.crc) && g[end + 1] == HighByte(w.crc)
  }

  lemma SameFramingParses(f: Bytes, g: Bytes, version: Version)
    requires |f| >= HeaderLen(version) && SameFraming(f, g, version)
    ensures DecideFrameLen(g, version) == DecideFrameLen(f, version)
    ensures ParseHeader(g, version).msgid == ParseHeader(f, version).msgid
    ensures ParseHeader(g, version).payloadLen == ParseHeader(f, version).payloadLen
    ensures ParseHeader(g, version).version == version
  {
    hide LeMsgId;
  }

  /** Such a `g` is emitted exactly when its covered bytes have the checksum it carries. */
  lemma CorruptedScan(table: MsgTable, w: WireFrame, g: Bytes, more: Bytes)
    requires WellFormed(table, w) && MsgIdOf(w) in table
    requires |Encode(w)| >= HeaderLen(VersionOf(w)) && SameFraming(Encode(w), g, VersionOf(w))
    ensures
      var end := HeaderLen(VersionOf(w)) + |w.payload|;
      && end + 2 <= |g| == |Encode(w)|
      && if Checksum(g[1..end], table[MsgIdOf(w)].crcExtra) == LeWord(g[end], g[end + 1])
         then Scan(table, g + more).Emit?
         else Scan(table, g + more) == Discard(true)
  {
    hide Encode, LeWord, Checksum, FullHeader, ParseHeader, DecideFrameLen, MsgIdOf, Scan, WellFormed, HeaderLen,
         StxOf, CrcAccepted;
    var f := Encode(w);
    var version := VersionOf(w);
    WellFormedFields(table, w);
    EncodedStart(w);
    EncodedHeader(w);
    EncodedLength(w);
    SameFramingParses(f, g, version);
    SameStart(f, g, version);
    hide SameFraming;
    ScanWhole(table, g, version, more);
    KnownIsAccepted(table, g, ParseHeader(g, version));
  }

  lemma SameStart(f: Bytes, g: Bytes, version: Version)
    requires |f| >= HeaderLen(version) && SameFraming(f, g, version)
    ensures |g| == |f| && g != [] && g[0] == f[0]
  {}

  lemma KnownIsAccepted(table: MsgTable, g: Bytes, header: ParsedHeader)
    requires header.msgid in table && |g| >= PayloadEnd(header) + CRC_LEN
    ensures
      var end := PayloadEnd(header);
      CrcAccepted(table, g, header) <==> Checksum(g[1..end], table[header.msgid].crcExtra) == LeWord(g[end], g[end + 1])
  {
    hide Checksum, LeWord, PayloadEnd;
  }

  /** With the checksum field kept, a frame whose covered bytes check differently is rejected. */
  lemma CorruptedCovered(table: MsgTable, w: WireFrame, g: Bytes, more: Bytes)
    requires WellFormed(table, w) && MsgIdOf(w) in table
    requires |Encode(w)| >= HeaderLen(VersionOf(w)) && SameFraming(Encode(w), g, VersionOf(w))
    requires SameChecksumField(w, g)
    requires
      var end := HeaderLen(VersionOf(w)) + |w.payload|;
      Checksum(g[1..end], table[MsgIdOf(w)].crcExtra) != w.crc
    ensures Scan(table, g + more) == Discard(true)
  {
    hide Encode, WellFormed, Checksum, MsgIdOf, LeWord, LowByte, HighByte, Scan, SameFraming;
    CorruptedScan(table, w, g, more);
    WordRoundTrip(w.crc, 0, 0);
  }

  lemma ChecksumDiffers(s: Bytes, t: Bytes, crcExtra: bv8)
    requires Crc.Feed(Crc.CRC_INIT, s) != Crc.Feed(Crc.CRC_INIT, t)
    ensures Checksum(s, crcExtra) != Checksum(t, crcExtra)
  {
    hide Crc.Update, Crc.Feed;
    var c, d := Crc.Feed(Crc.CRC_INIT, s), Crc.Feed(Crc.CRC_INIT, t);
    SuffixKeepsDifference(c, d, [crcExtra]);
    FeedOne(c, crcExtra);
    FeedOne(d, crcExtra);
  }

  lemma FeedOne(c: bv16, b: bv8)
    ensures Crc.Feed(c, [b]) == Crc.Update(c, b)
  {
    hide Crc.Update;
    assert [b][1..] == [] && Crc.Feed(Crc.Update(c, b), []) == Crc.Update(c, b);
  }

  /** A checksummed frame altered within 16 consecutive covered bits is never emitted. */
  lemma BurstIsRejected(table: MsgTable, w: WireFrame, g: Bytes, more: Bytes, i: nat, k: bv32, burst: bv16)
    requires WellFormed(table, w) && MsgIdOf(w) in table
    requires |Encode(w)| >= HeaderLen(VersionOf(w)) && SameFraming(Encode(w), g, VersionOf(w))
    requires SameChecksumField(w, g)
    requires
      var end := HeaderLen(VersionOf(w)) + |w.payload|;
      end <= |Encode(w)| && DifferInBurst(Encode(w)[1..end], g[1..end], i, k, burst)
    ensures Scan(table, g + more) == Discard(true)
  {
    hide Encode, WellFormed, Scan, Checksum, MsgIdOf, DifferInBurst, Difference, FlippedBits;
    KnownChecksum(table, w);
    var end := HeaderLen(VersionOf(w)) + |w.payload|;
    BurstChangesCrc(Crc.CRC_INIT, Encode(w)[1..end], g[1..end], i, k, burst);
    ChecksumDiffers(Encode(w)[1..end], g[1..end], table[MsgIdOf(w)].crcExtra);
    CorruptedCovered(table, w, g, more);
  }

  /**
   A checksummed frame in which an odd number of bits flipped, counting covered bytes and
   checksum field together, is never emitted.
   */
  lemma OddFlipsAreRejected(table: MsgTable, w: WireFrame, g: Bytes, more: Bytes)
    requires WellFormed(table, w) && MsgIdOf(w) in table
    requires |Encode(w)| >= HeaderLen(VersionOf(w)) && SameFraming(Encode(w), g, VersionOf(w))
    requires
      var end := HeaderLen(VersionOf(w)) + |w.payload|;
      end + 2 <= |Encode(w)| && FlippedBits(Difference(Encode(w)[1..end + 2], g[1..end + 2])) % 2 == 1
    ensures Scan(table, g + more) == Discard(true)
  {
    hide Encode, WellFormed, Scan, MsgIdOf, Difference, FlippedBits, LeWord, Crc.Feed, Crc.Update;
    var f := Encode(w);
    var end := HeaderLen(VersionOf(w)) + |w.payload|;
    var extra := table[MsgIdOf(w)].crcExtra;
    CorruptedScan(table, w, g, more);
    if Checksum(g[1..end], extra) == LeWord(g[end], g[end + 1]) {
      CheckedWord(table, w);
      EndSlices(f, end);
      EndSlices(g, end);
      ValidDifferEvenly(Crc.CRC_INIT, f[1..end], g[1..end], extra, f[end], f[end + 1], g[end], g[end + 1]);
    }
  }

  lemma EndSlices(f: Bytes, end: nat)
    requires 1 <= end && end + 2 <= |f|
    ensures f[1..end + 2] == f[1..end] + [f[end], f[end + 1]]
  {}

  /** A well-formed known frame carries the checksum of its covered bytes. */
  lemma CheckedWord(table: MsgTable, w: WireFrame)
    requires WellFormed(table, w) && MsgIdOf(w) in table
    ensures
      var end := HeaderLen(VersionOf(w)) + |w.payload|;
      && end + 2 <= |Encode(w)|
      && Checksum(Encode(w)[1..end], table[MsgIdOf(w)].crcExtra) == LeWord(Encode(w)[end], Encode(w)[end + 1])
  {
    hide Encode, Covered, Checksum, LeWord, LowByte, HighByte;
    EncodedLayout(w);
    KnownChecksum(table, w);
    WordRoundTrip(w.crc, 0, 0);
  }

  lemma KnownChecksum(table: MsgTable, w: WireFrame)
    requires WellFormed(table, w) && MsgIdOf(w) in table
    ensures
      var end := HeaderLen(VersionOf(w)) + |w.payload|;
      end <= |Encode(w)| && Checksum(Encode(w)[1..end], table[MsgIdOf(w)].crcExtra) == w.crc
  {
    hide Encode, Covered, Checksum, Crc.Reference;
    EncodedLayout(w);
    ChecksumIs(Covered(w), table[MsgIdOf(w)].crcExtra);
  }

  /** In particular after altering one covered byte, or two adjacent ones. */
  lemma AdjacentBytesAreRejected(table: MsgTable, w: WireFrame, g: Bytes, more: Bytes, i: nat)
    requires WellFormed(table, w) && MsgIdOf(w) in table
    requires |Encode(w)| >= HeaderLen(VersionOf(w)) && SameFraming(Encode(w), g, VersionOf(w))
    requires g != Encode(w)
    requires 1 <= i && i + 2 <= HeaderLen(VersionOf(w)) + |w.payload|
    requires forall j :: 0 <= j < |g| && j != i && j != i + 1 ==> g[j] == Encode(w)[j]
    ensures Scan(table, g + more) == Discard(true)
  {
    hide Encode, WellFormed, Scan, Checksum, MsgIdOf, LowByte, HighByte, Covered, Trailer, HeaderBytes;
    KnownChecksum(table, w);
    assert w.len as int == |w.payload| by { WellFormedFields(table, w); }
    EncodedLayout(w);
    HeaderLengths(VersionOf(w));
    var f := Encode(w);
    var end := HeaderLen(VersionOf(w)) + |w.payload|;
    AlteredSlice(f, g, i, end);
    AdjacentBytesChangeCrc(Crc.CRC_INIT, f[1..end], g[1..end], i - 1);
    ChecksumDiffers(f[1..end], g[1..end], table[MsgIdOf(w)].crcExtra);
    CorruptedCovered(table, w, g, more);
  }

  lemma HeaderLengths(version: Version)
    ensures HeaderLen(version) >= 6
  {}

  lemma AlteredSlice(f: Bytes, g: Bytes, i: nat, end: nat)
    requires |f| == |g| && f != g && 1 <= i && i + 2 <= end <= |f|
    requires forall j :: 0 <= j < |g| && j != i && j != i + 1 ==> g[j] == f[j]
    ensures f[1..end] != g[1..end]
    ensures forall j :: 0 <= j < end - 1 && j != i - 1 && j != i ==> f[1..end][j] == g[1..end][j]
  {
    assert exists j :: 0 <= j < |f| && f[j] != g[j];
    var j :| 0 <= j < |f| && f[j] != g[j];
    assert f[1..end][j - 1] != g[1..end][j - 1];
  }

  // ---------- Exactly which damage escapes ----------

  /** What flips in the covered bytes do to the checksum, whatever the bytes and the seed. */
  ghost function Shift(flips: Bytes): bv16 {
    Crc.Update(Crc.Feed(0, flips), 0)
  }

  lemma SelfCancels(c: bv16, b: bv8)
    ensures Crc.Xor(c, c) == 0 && Crc.Xor8(b, b) == 0
  {}

  lemma ChecksumShift(s: Bytes, t: Bytes, extra: bv8)
    requires |s| == |t|
    ensures Crc.Xor(Checksum(s, extra), Checksum(t, extra)) == Shift(Difference(s, t))
  {
    hide Crc.Update, Crc.Feed, Crc.Xor, Crc.Xor8;
    SelfCancels(Crc.CRC_INIT, extra);
    FeedLinear(Crc.CRC_INIT, Crc.CRC_INIT, s, t);
    Crc.UpdateLinear(Crc.Feed(Crc.CRC_INIT, s), Crc.Feed(Crc.CRC_INIT, t), extra, extra);
  }

  lemma SameShift(a: bv16, b: bv16, c: bv16, d: bv16)
    requires a == b
    ensures Crc.Xor(a, c) == Crc.Xor(b, d) <==> c == d
  {}

  /**
   The exact condition, in terms of the flips alone: damage escapes when the flips in the
   CRC field are the shift of those in the covered bytes, and is rejected otherwise.
   */
  lemma EscapesIff(table: MsgTable, w: WireFrame, g: Bytes, more: Bytes)
    requires WellFormed(table, w) && MsgIdOf(w) in table
    requires |Encode(w)| >= HeaderLen(VersionOf(w)) && SameFraming(Encode(w), g, VersionOf(w))
    ensures
      var f, end := Encode(w), HeaderLen(VersionOf(w)) + |w.payload|;
      && 1 <= end && end + 2 <= |g| == |f|
      && (Scan(table, g + more).Emit? || Scan(table, g + more) == Discard(true))
      && (Scan(table, g + more).Emit? <==>
            Shift(Difference(f[1..end], g[1..end]))
              == Crc.Xor(LeWord(f[end], f[end + 1]), LeWord(g[end], g[end + 1])))
  {
    hide *;
    var f, end := Encode(w), HeaderLen(VersionOf(w)) + |w.payload|;
    var extra := table[MsgIdOf(w)].crcExtra;
    HeaderLengths(VersionOf(w));
    CheckedWord(table, w);
    CorruptedScan(table, w, g, more);
    ChecksumShift(f[1..end], g[1..end], extra);
    SameShift(Checksum(f[1..end], extra), LeWord(f[end], f[end + 1]),
              Checksum(g[1..end], extra), LeWord(g[end], g[end + 1]));
  }

  lemma WordLinear(a: bv8, b: bv8, c: bv8, d: bv8)
    ensures Crc.Xor(LeWord(a, b), LeWord(c, d)) == LeWord(Crc.Xor8(a, c), Crc.Xor8(b, d))
    ensures LeWord(a, b) == LeWord(c, d) <==> a == c && b == d
  {}

  /** Flips over covered bytes and CRC field, as one sequence. */
  ghost predicate Undetected(flips: Bytes)
    requires |flips| >= 2
  {
    var n := |flips| - 2;
    Shift(flips[..n]) == LeWord(flips[n], flips[n + 1])
  }

  lemma UndetectedIff(table: MsgTable, w: WireFrame, g: Bytes, more: Bytes)
    requires WellFormed(table, w) && MsgIdOf(w) in table
    requires |Encode(w)| >= HeaderLen(VersionOf(w)) && SameFraming(Encode(w), g, VersionOf(w))
    ensures
      var f, end := Encode(w), HeaderLen(VersionOf(w)) + |w.payload|;
      && 6 <= end && end + 2 <= |g| == |f|
      && (Scan(table, g + more).Emit? <==> Undetected(Difference(f[1..end + 2], g[1..end + 2])))
      && (!Scan(table, g + more).Emit? ==> Scan(table, g + more) == Discard(true))
  {
    hide *;
    var f, end := Encode(w), HeaderLen(VersionOf(w)) + |w.payload|;
    EscapesIff(table, w, g, more);
    HeaderLengths(VersionOf(w));
    UndetectedParts(f, g, end);
    WordLinear(f[end], f[end + 1], g[end], g[end + 1]);
  }

  lemma UndetectedParts(f: Bytes, g: Bytes, end: nat)
    requires 1 <= end && end + 2 <= |f| == |g|
    ensures Undetected(Difference(f[1..end + 2], g[1..end + 2]))
       <==> Shift(Difference(f[1..end], g[1..end]))
              == LeWord(Crc.Xor8(f[end], g[end]), Crc.Xor8(f[end + 1], g[end + 1]))
  {
    hide Shift, LeWord, Crc.Xor8;
    var d := Difference(f[1..end + 2], g[1..end + 2]);
    assert d[..|d| - 2] == Difference(f[1..end], g[1..end]);
  }

  // ---------- Damage of a few bytes ----------

  lemma NoFlips(d: Bytes)
    requires forall j :: 0 <= j < |d| ==> d[j] == 0
    ensures Crc.Feed(0, d) == 0 && Shift(d) == 0
  {
    hide Crc.Update, Crc.Feed;
    ZeroRunKeepsZero(0, d);
    ZeroByteKeepsZero(0);
  }

  /** Damage confined to the CRC field is always rejected. */
  lemma FieldDamageIsRejected(table: MsgTable, w: WireFrame, g: Bytes, more: Bytes)
    requires WellFormed(table, w) && MsgIdOf(w) in table
    requires |Encode(w)| >= HeaderLen(VersionOf(w)) && SameFraming(Encode(w), g, VersionOf(w))
    requires
      var f, end := Encode(w), HeaderLen(VersionOf(w)) + |w.payload|;
      && 1 <= end && end + 2 <= |f| == |g|
      && f[1..end] == g[1..end] && f[end..end + 2] != g[end..end + 2]
    ensures Scan(table, g + more) == Discard(true)
  {
    hide *;
    var f, end := Encode(w), HeaderLen(VersionOf(w)) + |w.payload|;
    EscapesIff(table, w, g, more);
    var d := Difference(f[1..end], g[1..end]);
    forall j | 0 <= j < |d|
      ensures d[j] == 0
    {
      SelfCancels(0, f[1..end][j]);
    }
    NoFlips(d);
    WordLinear(f[end], f[end + 1], g[end], g[end + 1]);
    XorIsZero(LeWord(f[end], f[end + 1]), LeWord(g[end], g[end + 1]));
    assert f[end..end + 2] == [f[end], f[end + 1]] && g[end..end + 2] == [g[end], g[end + 1]];
  }

  lemma ShiftOfLast(d: Bytes)
    requires d != [] && forall j :: 0 <= j < |d| - 1 ==> d[j] == 0
    ensures Shift(d) == Crc.Update(Crc.Update(0, d[|d| - 1]), 0)
  {
    hide Crc.Update, Crc.Feed;
    var n := |d| - 1;
    assert d == d[..n] + [d[n]];
    Crc.FeedConcat(0, d[..n], [d[n]]);
    NoFlips(d[..n]);
    FeedOne(0, d[n]);
  }

  /** With only the last covered byte altered, exactly one difference of the CRC field escapes. */
  lemma LastByteEscapesIff(table: MsgTable, w: WireFrame, g: Bytes, more: Bytes)
    requires WellFormed(table, w) && MsgIdOf(w) in table
    requires |Encode(w)| >= HeaderLen(VersionOf(w)) && SameFraming(Encode(w), g, VersionOf(w))
    requires
      var f, end := Encode(w), HeaderLen(VersionOf(w)) + |w.payload|;
      2 <= end && end + 2 <= |f| == |g| && f[1..end - 1] == g[1..end - 1]
    ensures
      var f, end := Encode(w), HeaderLen(VersionOf(w)) + |w.payload|;
      Scan(table, g + more).Emit? <==>
        LeWord(Crc.Xor8(f[end], g[end]), Crc.Xor8(f[end + 1], g[end + 1]))
          == Crc.Update(Crc.Update(0, Crc.Xor8(f[end - 1], g[end - 1])), 0)
  {
    hide *;
    var f, end := Encode(w), HeaderLen(VersionOf(w)) + |w.payload|;
    EscapesIff(table, w, g, more);
    WordLinear(f[end], f[end + 1], g[end], g[end + 1]);
    assert f[1..end][..end - 2] == f[1..end - 1] && g[1..end][..end - 2] == g[1..end - 1];
    OnlyLastDiffers(f[1..end], g[1..end]);
  }

  lemma OnlyLastDiffers(s: Bytes, t: Bytes)
    requires |s| == |t| && s != [] && s[..|s| - 1] == t[..|t| - 1]
    ensures Shift(Difference(s, t)) == Crc.Update(Crc.Update(0, Crc.Xor8(s[|s| - 1], t[|t| - 1])), 0)
  {
    hide Crc.Update, Crc.Feed, Crc.Xor8, Shift;
    var d := Difference(s, t);
    forall j | 0 <= j < |d| - 1
      ensures d[j] == 0
    {
      assert s[j] == s[..|s| - 1][j] && t[j] == t[..|t| - 1][j];
      Xor8IsZero(s[j], t[j]);
    }
    ShiftOfLast(d);
  }

  // ---------- Bursts ----------

  /** The bursts of 16 bits that escape with one covered byte hit. */
  predicate EscapesOne(a: bv8, b: bv8, c: bv8) {
    || (a == 0x64 && b == 0x35 && c == 0x02)
    || (a == 0x91 && b == 0x85 && c == 0x00)
    || (a == 0xC8 && b == 0x6A && c == 0x04)
  }

  /** The bursts of at most 16 bits that escape with two covered bytes in reach. */
  predicate EscapesTwo(a: bv8, b: bv8, c: bv8) {
    || (a == 0x00 && b == 0x91 && c == 0x85)
    || (a == 0x10 && b == 0xA3 && c == 0x02)
    || (a == 0x40 && b == 0xAC && c == 0x29)
    || (a == 0x88 && b == 0x51 && c == 0x01)
    || (a == 0x98 && b == 0xF2 && c == 0x03)
  }

  /** The seven endings, the CRC field being the last two bytes, of a burst that escapes. */
  predicate Stealthy(flips: Bytes)
    requires |flips| >= 4
  {
    var n := |flips| - 4;
    || (flips[n] == 0 && EscapesOne(flips[n + 1], flips[n + 2], flips[n + 3]))
    || (EscapesTwo(flips[n], flips[n + 1], flips[n + 2]) && flips[n + 3] == 0)
  }

  lemma OneCovered(w: bv16, k: bv32, a: bv8, b: bv8, c: bv8)
    requires k <= 8 && w != 0 && Window(a, b, c) == (w as bv32) << k
    ensures Crc.Update(Crc.Update(0, a), 0) == LeWord(b, c) <==> EscapesOne(a, b, c)
  {}

  lemma TwoCovered(w: bv16, k: bv32, a: bv8, b: bv8, c: bv8)
    requires k <= 8 && w != 0 && Window(a, b, c) == (w as bv32) << k
    ensures Crc.Update(Crc.Update(Crc.Update(0, a), b), 0) == LeWord(c, 0) <==> EscapesTwo(a, b, c)
  {}

  /** The bytes outside a burst do not differ. */
  lemma QuietOutside(s: Bytes, t: Bytes, i: nat, k: bv32, burst: bv16)
    requires DifferInBurst(s, t, i, k, burst)
    ensures
      var d := Difference(s, t);
      && (forall j :: 0 <= j < |d| && !(i <= j < i + 3) ==> d[j] == 0)
      && Window(d[i], d[i + 1], d[i + 2]) == (burst as bv32) << k
  {
    hide Window, Crc.Xor8;
    forall j | 0 <= j < |s| && !(i <= j < i + 3)
      ensures Difference(s, t)[j] == 0
    {
      Xor8IsZero(s[j], t[j]);
    }
  }

  /** A burst that ends before the CRC field. */
  lemma BurstBefore(d: Bytes, i: nat, k: bv32, burst: bv16)
    requires i + 5 <= |d| && k <= 8 && burst != 0
    requires forall j :: 0 <= j < |d| && !(i <= j < i + 3) ==> d[j] == 0
    requires Window(d[i], d[i + 1], d[i + 2]) == (burst as bv32) << k
    ensures !Undetected(d) && !Stealthy(d)
  {
    hide Crc.Update, Crc.Feed, Window, LeWord;
    var n := |d| - 2;
    var cov := d[..n];
    assert forall j :: 0 <= j < n ==> cov[j] == d[j];
    SplitDifference(cov, i);
    NoFlips(cov[..i]);
    FeedThree(0, d[i], d[i + 1], d[i + 2]);
    ShortBurst(burst, k, d[i], d[i + 1], d[i + 2]);
    ZeroRunKeepsZero(Crc.Feed(0, [d[i], d[i + 1], d[i + 2]]), cov[i + 3..]);
    ZeroByteKeepsZero(Crc.Feed(0, cov));
    ZeroWord();
  }

  lemma ZeroWord()
    ensures LeWord(0, 0) == 0
  {}

  /** A burst that may reach the first byte of the CRC field. */
  lemma BurstInto(d: Bytes, k: bv32, burst: bv16)
    requires |d| >= 4 && k <= 8 && burst != 0
    requires forall j :: 0 <= j < |d| - 4 ==> d[j] == 0
    requires d[|d| - 1] == 0
    requires Window(d[|d| - 4], d[|d| - 3], d[|d| - 2]) == (burst as bv32) << k
    ensures Undetected(d) <==> Stealthy(d)
  {
    hide Crc.Update, Crc.Feed, Window, LeWord, EscapesTwo;
    var n := |d| - 4;
    assert d[..n + 2] == d[..n] + [d[n], d[n + 1]];
    Crc.FeedConcat(0, d[..n], [d[n], d[n + 1]]);
    NoFlips(d[..n]);
    FeedTwo(0, d[n], d[n + 1]);
    TwoCovered(burst, k, d[n], d[n + 1], d[n + 2]);
    OneIsTwo(d[n + 1], d[n + 2]);
  }

  lemma FeedTwo(c: bv16, a: bv8, b: bv8)
    ensures Crc.Feed(c, [a, b]) == Crc.Update(Crc.Update(c, a), b)
  {
    hide Crc.Update;
    assert [a, b] == [a] + [b];
    Crc.FeedConcat(c, [a], [b]);
    FeedOne(c, a);
    FeedOne(Crc.Update(c, a), b);
  }

  lemma OneIsTwo(a: bv8, b: bv8)
    ensures EscapesOne(a, b, 0) <==> EscapesTwo(0, a, b)
  {}

  /** A burst that reaches the second byte of the CRC field. */
  lemma BurstAcross(d: Bytes, k: bv32, burst: bv16)
    requires |d| >= 4 && k <= 8 && burst != 0
    requires forall j :: 0 <= j < |d| - 3 ==> d[j] == 0
    requires Window(d[|d| - 3], d[|d| - 2], d[|d| - 1]) == (burst as bv32) << k
    ensures Undetected(d) <==> Stealthy(d)
  {
    hide Crc.Update, Crc.Feed, Window, LeWord, Shift, EscapesOne, EscapesTwo;
    var n := |d| - 3;
    ShiftOfLast(d[..n + 1]);
    OneCovered(burst, k, d[n], d[n + 1], d[n + 2]);
    OneIsTwo(d[n], d[n + 1]);
  }

  /**
   Exactly seven bursts of at most 16 consecutive bits, over covered bytes and CRC field
   together, escape, all of them across the border between the two; every other burst is
   rejected.  Which they are depends neither on the frame nor on its seed.
   */
  lemma BurstEscapesIff(table: MsgTable, w: WireFrame, g: Bytes, more: Bytes, i: nat, k: bv32, burst: bv16)
    requires WellFormed(table, w) && MsgIdOf(w) in table
    requires |Encode(w)| >= HeaderLen(VersionOf(w)) && SameFraming(Encode(w), g, VersionOf(w))
    requires
      var end := HeaderLen(VersionOf(w)) + |w.payload|;
      end + 2 <= |Encode(w)| && DifferInBurst(Encode(w)[1..end + 2], g[1..end + 2], i, k, burst)
    ensures
      var end := HeaderLen(VersionOf(w)) + |w.payload|;
      && 6 <= end
      && (Scan(table, g + more).Emit? <==> Stealthy(Difference(Encode(w)[1..end + 2], g[1..end + 2])))
      && (!Scan(table, g + more).Emit? ==> Scan(table, g + more) == Discard(true))
  {
    hide Encode, WellFormed, Scan, MsgIdOf, Window, SameFraming, Difference, Undetected, Stealthy, Crc.Xor8, HeaderLen;
    var end := HeaderLen(VersionOf(w)) + |w.payload|;
    var f := Encode(w);
    UndetectedIff(table, w, g, more);
    var d := Difference(f[1..end + 2], g[1..end + 2]);
    QuietOutside(f[1..end + 2], g[1..end + 2], i, k, burst);
    hide DifferInBurst;
    BurstCases(d, i, k, burst);
  }

  lemma BurstCases(d: Bytes, i: nat, k: bv32, burst: bv16)
    requires |d| >= 4 && i + 3 <= |d| && k <= 8 && burst != 0
    requires forall j :: 0 <= j < |d| && !(i <= j < i + 3) ==> d[j] == 0
    requires Window(d[i], d[i + 1], d[i + 2]) == (burst as bv32) << k
    ensures Undetected(d) <==> Stealthy(d)
  {
    hide Window, Undetected, Stealthy;
    if i + 5 <= |d| {
      BurstBefore(d, i, k, burst);
    } else if i + 4 == |d| {
      BurstInto(d, k, burst);
    } else {
      BurstAcross(d, k, burst);
    }
  }

  // ---------- One of them ----------

  /** Bytes altered on both sides of `end`. */
  ghost function Damaged(f: Bytes, end: nat): Bytes
    requires 1 <= end < |f|
  {
    f[end - 1 := Crc.Xor8(f[end - 1], 0x91)][end := Crc.Xor8(f[end], 0x85)]
  }

  lemma FlipsOf(a: bv8, b: bv8, c: bv8)
    ensures Crc.Xor8(a, Crc.Xor8(a, 0x91)) == 0x91 && Crc.Xor8(a, 0x91) != a
    ensures Crc.Xor8(b, Crc.Xor8(b, 0x85)) == 0x85 && Crc.Xor8(c, c) == 0
  {}

  lemma Absorbed()
    ensures Crc.Update(Crc.Update(0, 0x91), 0) == LeWord(0x85, 0)
  {}

  lemma DamagedParts(f: Bytes, end: nat)
    requires 2 <= end && end + 2 <= |f|
    ensures
      var g := Damaged(f, end);
      && |g| == |f| && g != f && f[1..end - 1] == g[1..end - 1]
      && g[end - 1] == Crc.Xor8(f[end - 1], 0x91)
      && g[end] == Crc.Xor8(f[end], 0x85) && g[end + 1] == f[end + 1]
  {
    hide Crc.Xor8;
    FlipsOf(f[end - 1], f[end], f[end + 1]);
    assert Damaged(f, end)[end - 1] == Crc.Xor8(f[end - 1], 0x91);
  }

  lemma DamageKeepsFraming(f: Bytes, end: nat, version: Version)
    requires HeaderLen(version) < end < |f|
    ensures SameFraming(f, Damaged(f, end), version)
  {
    hide Crc.Xor8;
  }

  /** One of the seven at work: it escapes in every known frame with a payload. */
  lemma DamageAtEndEscapes(table: MsgTable, w: WireFrame, more: Bytes)
    requires WellFormed(table, w) && MsgIdOf(w) in table && w.payload != []
    ensures
      var end := HeaderLen(VersionOf(w)) + |w.payload|;
      && 1 <= end < |Encode(w)|
      && Damaged(Encode(w), end) != Encode(w)
      && Scan(table, Damaged(Encode(w), end) + more).Emit?
  {
    hide *;
    var f, end := Encode(w), HeaderLen(VersionOf(w)) + |w.payload|;
    WellFormedFields(table, w);
    EncodedStart(w);
    HeaderLengths(VersionOf(w));
    DamagedParts(f, end);
    DamageKeepsFraming(f, end, VersionOf(w));
    LastByteEscapesIff(table, w, Damaged(f, end), more);
    FlipsOf(f[end - 1], f[end], f[end + 1]);
    Absorbed();
  }
}
