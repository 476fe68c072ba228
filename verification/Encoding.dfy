/**
 The frames of the MAVLink developer guide, "Packet Serialization", as an encoder with the
 guide's own numbers, and its relation to the framer: the framer recovers every well-formed
 stream exactly, emits nothing that is not a well-formed encoding, and waits, resynchronises
 or counts a checksum error exactly where the format calls for it.
 */
module Encoding {
  import opened Frame
  import opened Framing
  import opened Sequences
  import Crc

  datatype WireFrame =
    | WireV1(len: bv8, seqno: bv8, source: NodeId, msgid8: bv8, payload: Bytes, crc: bv16)
    | WireV2(len: bv8, compatFlags: bv8, seqno: bv8, source: NodeId, msgid24: bv32,
             payload: Bytes, crc: bv16, signature: Option<Bytes>)

  function VersionOf(w: WireFrame): Version {
    if w.WireV1? then V1 else V2
  }

  function MsgIdOf(w: WireFrame): bv32 {
    match w
    case WireV1(_, _, _, m, _, _) => m as bv32
    case WireV2(_, _, _, _, m, _, _, _) => m
  }

  function IncompatFlags(signature: Option<Bytes>): bv8 {
    if signature.Some? then 0x01 else 0x00
  }

  /** The header bytes after the start byte. */
  function HeaderBytes(w: WireFrame): Bytes {
    match w
    case WireV1(len, n, src, m, _, _) => [len, n, src.sys, src.comp, m]
    case WireV2(len, cf, n, src, m, _, _, sig) =>
      [len, IncompatFlags(sig), cf, n, src.sys, src.comp, MsgIdByte0(m), MsgIdByte1(m), MsgIdByte2(m)]
  }

  /** The bytes the checksum covers. */
  function Covered(w: WireFrame): Bytes {
    HeaderBytes(w) + w.payload
  }

  function Trailer(w: WireFrame): Bytes {
    if w.WireV2? && w.signature.Some? then w.signature.value else []
  }

  function StartByte(w: WireFrame): bv8 {
    if w.WireV1? then 0xFE else 0xFD
  }

  function Encode(w: WireFrame): Bytes {
    [StartByte(w)] + Covered(w) + [LowByte(w.crc), HighByte(w.crc)] + Trailer(w)
  }

  /** Fields that fit the format, checksum apart. */
  predicate Fits(w: WireFrame) {
    && w.len as int == |w.payload|
    && (w.WireV2? ==> w.msgid24 <= 0xFF_FFFF)
    && (w.WireV2? && w.signature.Some? ==> |w.signature.value| == 13)
  }

  /** The message is known, and the frame carries another checksum than its bytes and seed call for. */
  predicate WrongCrc(table: MsgTable, w: WireFrame) {
    MsgIdOf(w) in table && w.crc != Crc.Reference(Covered(w) + [table[MsgIdOf(w)].crcExtra])
  }

  /** Fields that fit the format, and a correct checksum when the message is known. */
  predicate WellFormed(table: MsgTable, w: WireFrame) {
    Fits(w) && !WrongCrc(table, w)
  }

  lemma WellFormedFields(table: MsgTable, w: WireFrame)
    requires WellFormed(table, w)
    ensures Fits(w) && w.len as int == |w.payload|
    ensures w.WireV2? ==> w.msgid24 <= 0xFF_FFFF
  {}

  /** A target field of the payload; absent when it lies past the (truncated) end. */
  function PayloadField(payload: Bytes, off: Option<bv8>): Option<bv8> {
    if off.Some? && off.value as int < |payload| then Some(payload[off.value as int]) else None
  }

  function HeaderOf(table: MsgTable, w: WireFrame): ParsedHeader {
    var m := MsgIdOf(w);
    ParsedHeader(
      VersionOf(w), w.source, m, w.seqno, w.len,
      if m in table then PayloadField(w.payload, table[m].targetSysOffset) else None,
      if m in table then PayloadField(w.payload, table[m].targetCompOffset) else None)
  }

  // ---------- Decoding an encoded frame ----------

  lemma PartsLayout(stx: bv8, header: Bytes, payload: Bytes, lo: bv8, hi: bv8, trailer: Bytes, f: Bytes)
    requires f == [stx] + (header + payload) + [lo, hi] + trailer
    ensures
      var h := 1 + |header|;
      var end := h + |payload|;
      && |f| == end + 2 + |trailer|
      && f[0] == stx
      && f[1..end] == header + payload
      && f[1..h] == header
      && f[h..end] == payload
      && f[end] == lo && f[end + 1] == hi
      && f[end + 2..] == trailer
  {}

  /** Where the parts of an encoded frame lie. */
  lemma EncodedLayout(w: WireFrame)
    requires w.len as int == |w.payload|
    ensures
      var f := Encode(w);
      var h := HeaderLen(VersionOf(w));
      var end := h + |w.payload|;
      && |HeaderBytes(w)| == h - 1
      && |f| == end + 2 + |Trailer(w)|
      && f[0] == StartByte(w)
      && f[1..end] == Covered(w)
      && f[1..h] == HeaderBytes(w)
      && f[h..end] == w.payload
      && f[end] == LowByte(w.crc) && f[end + 1] == HighByte(w.crc)
      && f[end + 2..] == Trailer(w)
  {
    hide MsgIdByte0, MsgIdByte1, MsgIdByte2, LowByte, HighByte, Trailer, StartByte;
    PartsLayout(StartByte(w), HeaderBytes(w), w.payload, LowByte(w.crc), HighByte(w.crc), Trailer(w), Encode(w));
  }

  lemma SliceAt(f: Bytes, h: nat, part: Bytes, i: nat)
    requires h + |part| <= |f| && f[h..h + |part|] == part
    requires i < |part|
    ensures f[h + i] == part[i]
  {
    assert f[h..h + |part|][i] == f[h + i];
  }

  /** The framer's decision on a buffer that holds exactly one frame. */
  lemma ScanWhole(table: MsgTable, f: Bytes, version: Version, more: Bytes)
    requires f != [] && StxOf(f[0]) == Some(version)
    requires |f| >= HeaderLen(version) && DecideFrameLen(f, version) == Ready(|f|)
    ensures PayloadEnd(ParseHeader(f, version)) + CRC_LEN <= |f|
    ensures Scan(table, f + more)
         == if CrcAccepted(table, f, ParseHeader(f, version))
            then Emit(FullHeader(table, f, ParseHeader(f, version)), |f|)
            else Discard(true)
  {
    hide LeMsgId, CrcAccepted, FullHeader;
    assert f[..|f|] == f;
    ScanStable(table, f, more);
  }

  /** The header bytes follow the start byte. */
  lemma HeaderByteAt(w: WireFrame, i: nat)
    requires w.len as int == |w.payload| && i < |HeaderBytes(w)|
    ensures |HeaderBytes(w)| == HeaderLen(VersionOf(w)) - 1
    ensures |Encode(w)| >= HeaderLen(VersionOf(w)) && Encode(w)[1 + i] == HeaderBytes(w)[i]
  {
    hide Encode, Covered, HeaderBytes, Trailer, LowByte, HighByte, StartByte;
    EncodedLayout(w);
    SliceAt(Encode(w), 1, HeaderBytes(w), i);
  }

  lemma EncodedHeaderV1(w: WireFrame)
    requires w.WireV1? && w.len as int == |w.payload|
    ensures |Encode(w)| >= V1_HEADER_LEN
    ensures ParseHeader(Encode(w), V1) == ParsedHeader(V1, w.source, MsgIdOf(w), w.seqno, w.len, None, None)
  {
    hide Encode;
    HeaderByteAt(w, 0);
    HeaderByteAt(w, 1);
    HeaderByteAt(w, 2);
    HeaderByteAt(w, 3);
    HeaderByteAt(w, 4);
  }

  lemma EncodedHeaderV2(w: WireFrame)
    requires w.WireV2? && w.len as int == |w.payload| && w.msgid24 <= 0xFF_FFFF
    ensures |Encode(w)| >= V2_HEADER_LEN && Encode(w)[2] == IncompatFlags(w.signature)
    ensures ParseHeader(Encode(w), V2) == ParsedHeader(V2, w.source, MsgIdOf(w), w.seqno, w.len, None, None)
  {
    hide Encode, LeMsgId, MsgIdByte0, MsgIdByte1, MsgIdByte2, IncompatFlags;
    HeaderByteAt(w, 0);
    HeaderByteAt(w, 1);
    HeaderByteAt(w, 3);
    HeaderByteAt(w, 4);
    HeaderByteAt(w, 5);
    HeaderByteAt(w, 6);
    HeaderByteAt(w, 7);
    HeaderByteAt(w, 8);
    MsgIdRoundTrip(w.msgid24, 0, 0, 0);
  }

  lemma EncodedHeader(w: WireFrame)
    requires w.len as int == |w.payload|
    requires w.WireV2? ==> w.msgid24 <= 0xFF_FFFF
    ensures |Encode(w)| >= HeaderLen(VersionOf(w))
    ensures ParseHeader(Encode(w), VersionOf(w))
         == ParsedHeader(VersionOf(w), w.source, MsgIdOf(w), w.seqno, w.len, None, None)
    ensures w.WireV2? ==> Encode(w)[2] == IncompatFlags(w.signature)
  {
    hide Encode, ParseHeader, IncompatFlags, MsgIdOf;
    if w.WireV1? {
      EncodedHeaderV1(w);
    } else {
      EncodedHeaderV2(w);
    }
  }

  lemma EncodedStart(w: WireFrame)
    requires w.len as int == |w.payload|
    ensures HeaderLen(VersionOf(w)) + |w.payload| + 2 <= |Encode(w)|
    ensures StxOf(Encode(w)[0]) == Some(VersionOf(w))
  {
    hide Encode, Covered, HeaderBytes, Trailer, LowByte, HighByte;
    EncodedLayout(w);
  }

  lemma FlagBits(signature: Option<Bytes>)
    ensures IncompatFlags(signature) & !V2_IFLAG_SIGNED == 0
    ensures IncompatFlags(signature) & V2_IFLAG_SIGNED != 0 <==> signature.Some?
  {}

  lemma EncodedLength(w: WireFrame)
    requires Fits(w)
    ensures |Encode(w)| >= HeaderLen(VersionOf(w))
    ensures DecideFrameLen(Encode(w), VersionOf(w)) == Ready(|Encode(w)|)
  {
    hide Encode, Covered, LowByte, HighByte, IncompatFlags, LeMsgId, MsgIdByte0, MsgIdByte1, MsgIdByte2;
    EncodedLayout(w);
    EncodedHeader(w);
    if w.WireV2? {
      FlagBits(w.signature);
    }
  }

  lemma EncodedTarget(w: WireFrame, header: ParsedHeader, off: Option<bv8>)
    requires w.len as int == |w.payload|
    requires header.version == VersionOf(w) && header.payloadLen == w.len
    ensures PayloadEnd(header) + CRC_LEN <= |Encode(w)|
    ensures TargetAt(Encode(w), header, off) == PayloadField(w.payload, off)
  {
    hide *;
    EncodedEnd(w, header);
    if off.None? {
      NoTarget(Encode(w), header, w.payload);
    } else {
      EncodedTargetAt(w, header, off, off.value as int);
    }
  }

  lemma EncodedEnd(w: WireFrame, header: ParsedHeader)
    requires w.len as int == |w.payload|
    requires header.version == VersionOf(w) && header.payloadLen == w.len
    ensures PayloadEnd(header) == HeaderLen(header.version) + |w.payload|
    ensures PayloadEnd(header) + CRC_LEN <= |Encode(w)|
  {
    hide Encode, HeaderLen;
    EncodedPayload(w);
  }

  lemma EncodedTargetAt(w: WireFrame, header: ParsedHeader, off: Option<bv8>, i: nat)
    requires w.len as int == |w.payload|
    requires header.version == VersionOf(w) && header.payloadLen == w.len
    requires off.Some? && i == off.value as int
    ensures PayloadEnd(header) + CRC_LEN <= |Encode(w)|
    ensures TargetAt(Encode(w), header, off) == PayloadField(w.payload, off)
  {
    hide *;
    EncodedEnd(w, header);
    TargetUnfold(Encode(w), header, off, i, |w.payload|);
    FieldUnfold(w.payload, off, i);
    if i < |w.payload| {
      EncodedByte(w, i);
    }
  }

  lemma NoTarget(frame: Bytes, header: ParsedHeader, payload: Bytes)
    requires |frame| >= PayloadEnd(header)
    ensures TargetAt(frame, header, None) == None && PayloadField(payload, None) == None
  {}

  lemma TargetUnfold(frame: Bytes, header: ParsedHeader, off: Option<bv8>, i: nat, n: nat)
    requires off.Some? && i == off.value as int && n == header.payloadLen as int
    requires |frame| >= HeaderLen(header.version) + n
    ensures TargetAt(frame, header, off) == if i >= n then None else Some(frame[HeaderLen(header.version) + i])
  {
    hide HeaderLen;
  }

  lemma FieldUnfold(payload: Bytes, off: Option<bv8>, i: nat)
    requires off.Some? && i == off.value as int
    ensures PayloadField(payload, off) == if i < |payload| then Some(payload[i]) else None
  {}

  lemma EncodedByte(w: WireFrame, i: nat)
    requires w.len as int == |w.payload| && i < |w.payload|
    ensures HeaderLen(VersionOf(w)) + i < |Encode(w)| && Encode(w)[HeaderLen(VersionOf(w)) + i] == w.payload[i]
  {
    hide Encode, HeaderLen;
    EncodedPayload(w);
    SliceAt(Encode(w), HeaderLen(VersionOf(w)), w.payload, i);
  }

  lemma EncodedPayload(w: WireFrame)
    requires w.len as int == |w.payload|
    ensures
      var h := HeaderLen(VersionOf(w));
      h + |w.payload| + 2 <= |Encode(w)| && Encode(w)[h..h + |w.payload|] == w.payload
  {
    hide Encode, Covered, LowByte, HighByte, HeaderBytes, StartByte;
    EncodedLayout(w);
  }

  lemma EncodedTargets(table: MsgTable, w: WireFrame, header: ParsedHeader)
    requires w.len as int == |w.payload|
    requires header == ParsedHeader(VersionOf(w), w.source, MsgIdOf(w), w.seqno, w.len, None, None)
    ensures PayloadEnd(header) + CRC_LEN <= |Encode(w)|
    ensures FullHeader(table, Encode(w), header) == HeaderOf(table, w)
  {
    hide Encode, TargetAt, PayloadField;
    EncodedTarget(w, header, None);
    if MsgIdOf(w) in table {
      EncodedTarget(w, header, table[MsgIdOf(w)].targetSysOffset);
      EncodedTarget(w, header, table[MsgIdOf(w)].targetCompOffset);
    }
  }

  /** When the checksum of a complete frame is accepted. */
  lemma AcceptedIff(table: MsgTable, frame: Bytes, header: ParsedHeader, end: nat)
    requires 1 <= end == PayloadEnd(header) && |frame| >= end + CRC_LEN
    ensures CrcAccepted(table, frame, header) <==>
      (header.msgid in table ==>
         Crc.Reference(frame[1..end] + [table[header.msgid].crcExtra]) == LeWord(frame[end], frame[end + 1]))
  {
    hide Checksum, LeWord, PayloadEnd, Crc.Reference;
    if header.msgid in table {
      ChecksumIs(frame[1..end], table[header.msgid].crcExtra);
    }
  }

  /** Where the bytes that the checksum covers lie, and the checksum. */
  lemma EncodedSlices(w: WireFrame, end: nat)
    requires w.len as int == |w.payload| && end == HeaderLen(VersionOf(w)) + |w.payload|
    ensures 1 <= end && end + 2 <= |Encode(w)| && Encode(w)[1..end] == Covered(w)
    ensures LeWord(Encode(w)[end], Encode(w)[end + 1]) == w.crc
  {
    hide Encode, Covered, LowByte, HighByte, LeWord, HeaderBytes, Trailer, StartByte;
    EncodedLayout(w);
    WordRoundTrip(w.crc, 0, 0);
  }

  lemma EncodedCrc(table: MsgTable, w: WireFrame, header: ParsedHeader)
    requires Fits(w)
    requires header == ParsedHeader(VersionOf(w), w.source, MsgIdOf(w), w.seqno, w.len, None, None)
    ensures PayloadEnd(header) + CRC_LEN <= |Encode(w)|
    ensures CrcAccepted(table, Encode(w), header) <==> !WrongCrc(table, w)
  {
    hide *;
    FittingFields(w);
    EncodedEnd(w, header);
    EncodedSlices(w, PayloadEnd(header));
    AcceptedIff(table, Encode(w), header, PayloadEnd(header));
    WrongCrcIs(table, w);
  }

  lemma WrongCrcIs(table: MsgTable, w: WireFrame)
    ensures WrongCrc(table, w) <==>
      MsgIdOf(w) in table && w.crc != Crc.Reference(Covered(w) + [table[MsgIdOf(w)].crcExtra])
  {
    hide Covered, MsgIdOf, Crc.Reference;
  }

  /** The framer takes a frame that fits the format for what it is, whatever follows it. */
  lemma ScanFitting(table: MsgTable, w: WireFrame, more: Bytes)
    requires Fits(w)
    ensures Scan(table, Encode(w) + more)
         == if WrongCrc(table, w) then Discard(true) else Emit(HeaderOf(table, w), |Encode(w)|)
  {
    hide Encode, Fits, WrongCrc, HeaderOf, DecideFrameLen, ParseHeader, CrcAccepted, FullHeader, Scan;
    FittingFields(w);
    assert Encode(w) != [] && StxOf(Encode(w)[0]) == Some(VersionOf(w)) by {
      EncodedLayout(w);
    }
    var header := ParsedHeader(VersionOf(w), w.source, MsgIdOf(w), w.seqno, w.len, None, None);
    EncodedHeader(w);
    EncodedLength(w);
    EncodedTargets(table, w, header);
    EncodedCrc(table, w, header);
    ScanWhole(table, Encode(w), VersionOf(w), more);
  }

  lemma FittingFields(w: WireFrame)
    requires Fits(w)
    ensures w.len as int == |w.payload|
    ensures w.WireV2? ==> w.msgid24 <= 0xFF_FFFF
  {}

  /** So it recognises a well-formed frame. */
  lemma ScanEncoded(table: MsgTable, w: WireFrame, more: Bytes)
    requires WellFormed(table, w)
    ensures Scan(table, Encode(w) + more) == Emit(HeaderOf(table, w), |Encode(w)|)
  {
    hide Encode, Fits, WrongCrc, HeaderOf, Scan;
    ScanFitting(table, w, more);
  }

  // ---------- Everything emitted is a well-formed encoding ----------

  /** The frame that a complete frame's bytes encode. */
  function Decode(frame: Bytes, version: Version): WireFrame
    requires |frame| >= HeaderLen(version)
    requires DecideFrameLen(frame, version) == Ready(|frame|)
  {
    match version
    case V1 =>
      var end := V1_HEADER_LEN + frame[1] as int;
      WireV1(frame[1], frame[2], NodeId(frame[3], frame[4]), frame[5], frame[V1_HEADER_LEN..end],
             LeWord(frame[end], frame[end + 1]))
    case V2 =>
      var end := V2_HEADER_LEN + frame[1] as int;
      WireV2(frame[1], frame[3], frame[4], NodeId(frame[5], frame[6]), LeMsgId(frame[7], frame[8], frame[9]),
             frame[V2_HEADER_LEN..end], LeWord(frame[end], frame[end + 1]),
             if frame[2] & V2_IFLAG_SIGNED != 0 then Some(frame[end + 2..]) else None)
  }

  lemma KnownFlags(b: bv8)
    requires b & !V2_IFLAG_SIGNED == 0
    ensures b == if b & V2_IFLAG_SIGNED != 0 then V2_IFLAG_SIGNED else 0
  {}

  /** A byte string is the concatenation of its parts. */
  lemma Reassemble(f: Bytes, h: nat, end: nat)
    requires 1 <= h <= end && end + 2 <= |f|
    ensures f == [f[0]] + (f[1..h] + f[h..end]) + [f[end], f[end + 1]] + f[end + 2..]
  {}

  lemma EncodeDecodedV1(frame: Bytes)
    requires |frame| >= V1_HEADER_LEN && frame[0] == STX_V1
    requires DecideFrameLen(frame, V1) == Ready(|frame|)
    ensures Encode(Decode(frame, V1)) == frame
  {
    hide LeWord, LowByte, HighByte;
    var end := V1_HEADER_LEN + frame[1] as int;
    WordRoundTrip(0, frame[end], frame[end + 1]);
    assert frame[1..V1_HEADER_LEN] == HeaderBytes(Decode(frame, V1));
    assert frame[end + 2..] == [];
    Reassemble(frame, V1_HEADER_LEN, end);
  }

  lemma DecodedHeaderV2(frame: Bytes)
    requires |frame| >= V2_HEADER_LEN
    requires DecideFrameLen(frame, V2) == Ready(|frame|)
    ensures HeaderBytes(Decode(frame, V2)) == frame[1..V2_HEADER_LEN]
  {
    hide LeWord, LeMsgId, MsgIdByte0, MsgIdByte1, MsgIdByte2;
    MsgIdRoundTrip(0, frame[7], frame[8], frame[9]);
    KnownFlags(frame[2]);
  }

  lemma DecodedTrailerV2(frame: Bytes)
    requires |frame| >= V2_HEADER_LEN
    requires DecideFrameLen(frame, V2) == Ready(|frame|)
    ensures Trailer(Decode(frame, V2)) == frame[V2_HEADER_LEN + frame[1] as int + 2..]
  {
    hide LeWord, LeMsgId;
  }

  lemma EncodeDecodedV2(frame: Bytes)
    requires |frame| >= V2_HEADER_LEN && frame[0] == STX_V2
    requires DecideFrameLen(frame, V2) == Ready(|frame|)
    ensures Encode(Decode(frame, V2)) == frame
  {
    hide LeWord, LowByte, HighByte, LeMsgId, HeaderBytes, Trailer;
    var end := V2_HEADER_LEN + frame[1] as int;
    WordRoundTrip(0, frame[end], frame[end + 1]);
    DecodedHeaderV2(frame);
    DecodedTrailerV2(frame);
    Reassemble(frame, V2_HEADER_LEN, end);
  }

  lemma EncodeDecoded(frame: Bytes, version: Version)
    requires |frame| >= HeaderLen(version) && StxOf(frame[0]) == Some(version)
    requires DecideFrameLen(frame, version) == Ready(|frame|)
    ensures Encode(Decode(frame, version)) == frame
  {
    hide Encode, Decode;
    if version == V1 {
      EncodeDecodedV1(frame);
    } else {
      EncodeDecodedV2(frame);
    }
  }

  lemma DecodedFields(frame: Bytes, version: Version)
    requires |frame| >= HeaderLen(version)
    requires DecideFrameLen(frame, version) == Ready(|frame|)
    ensures
      var w := Decode(frame, version);
      && Fits(w)
      && VersionOf(w) == version
  {
    hide LeWord, LeMsgId;
    if version == V2 {
      MsgIdRoundTrip(0, frame[7], frame[8], frame[9]);
    }
  }

  /** A complete frame at the front of the buffer. */
  ghost predicate CompleteFrame(buf: Bytes, n: nat) {
    && buf != [] && StxOf(buf[0]).Some?
    && |buf| >= HeaderLen(StxOf(buf[0]).value)
    && DecideFrameLen(buf, StxOf(buf[0]).value) == Ready(n) && n <= |buf|
  }

  /** It encodes a frame that fits the format. */
  lemma CompleteIsEncoded(buf: Bytes, n: nat) returns (w: WireFrame)
    requires CompleteFrame(buf, n)
    ensures Fits(w) && Encode(w) == buf[..n]
  {
    hide Encode, Fits, Decode, LeWord, LeMsgId;
    var version := StxOf(buf[0]).value;
    var frame := buf[..n];
    assert DecideFrameLen(frame, version) == Ready(n);
    w := Decode(frame, version);
    DecodedFields(frame, version);
    EncodeDecoded(frame, version);
  }

  lemma DecidedIsComplete(table: MsgTable, buf: Bytes) returns (n: nat)
    requires Scan(table, buf).Emit? || Scan(table, buf) == Discard(true)
    ensures CompleteFrame(buf, n)
  {
    hide CrcAccepted, FullHeader, ParseHeader, StxOf;
    n := DecideFrameLen(buf, StxOf(buf[0]).value).n;
  }

  /** The framer emits only well-formed frames, and reports the header they carry. */
  lemma EmittedIsEncoded(table: MsgTable, buf: Bytes) returns (w: WireFrame)
    requires Scan(table, buf).Emit?
    ensures WellFormed(table, w)
    ensures Encode(w) == buf[..Scan(table, buf).len]
    ensures HeaderOf(table, w) == Scan(table, buf).header
  {
    hide Encode, Fits, WrongCrc, HeaderOf, Scan, CompleteFrame;
    var n := DecidedIsComplete(table, buf);
    w := CompleteIsEncoded(buf, n);
    assert n <= |buf| by { CompleteFits(buf, n); }
    assert buf == Encode(w) + buf[n..];
    ScanFitting(table, w, buf[n..]);
  }

  lemma CompleteFits(buf: Bytes, n: nat)
    requires CompleteFrame(buf, n)
    ensures n <= |buf|
  {}

  /** A byte string is taken as one frame exactly when it encodes a well-formed one. */
  lemma FrameIffEncoding(table: MsgTable, f: Bytes)
    ensures (Scan(table, f).Emit? && Scan(table, f).len == |f|)
       <==> (exists w: WireFrame :: WellFormed(table, w) && Encode(w) == f)
  {
    hide *;
    if Scan(table, f).Emit? && Scan(table, f).len == |f| {
      var w := EmittedIsEncoded(table, f);
      assert f[..|f|] == f;
    }
    forall w: WireFrame | WellFormed(table, w) && Encode(w) == f
      ensures Scan(table, f).Emit? && Scan(table, f).len == |f|
    {
      ScanEncoded(table, w, []);
      EmptyAppend(f);
    }
  }

  /** Every frame cut out of any input, garbage included, is a well-formed encoding. */
  lemma {:induction false} DrainIsSound(table: MsgTable, buf: Bytes, i: nat) returns (w: WireFrame)
    requires i < |Drain(table, buf).pieces| && Drain(table, buf).pieces[i].Framed?
    ensures WellFormed(table, w)
    ensures Drain(table, buf).pieces[i] == Framed(HeaderOf(table, w), Encode(w))
    decreases |buf|
  {
    hide Scan, WellFormed, HeaderOf, Encode;
    var p := FirstPiece(table, buf);
    if i == 0 {
      w := EmittedIsEncoded(table, buf);
    } else {
      w := DrainIsSound(table, buf[|PieceBytes(p)|..], i - 1);
    }
  }

  // ---------- Stream round trip ----------

  function EncodeAll(ws: seq<WireFrame>): Bytes {
    if ws == [] then [] else Encode(ws[0]) + EncodeAll(ws[1..])
  }

  function FramedAll(table: MsgTable, ws: seq<WireFrame>): seq<Piece> {
    if ws == [] then [] else [Framed(HeaderOf(table, ws[0]), Encode(ws[0]))] + FramedAll(table, ws[1..])
  }

  function SkippedAll(garbage: Bytes): seq<Piece> {
    if garbage == [] then [] else [Skipped(garbage[0], false)] + SkippedAll(garbage[1..])
  }

  /** Draining a stream whose first piece is known. */
  lemma DrainFirst(table: MsgTable, p: Piece, rest: Bytes)
    requires !Scan(table, PieceBytes(p) + rest).NeedMore?
    requires FirstPiece(table, PieceBytes(p) + rest) == p
    ensures Drain(table, PieceBytes(p) + rest)
         == Drained([p] + Drain(table, rest).pieces, Drain(table, rest).rest)
  {
    hide Scan;
    assert (PieceBytes(p) + rest)[|PieceBytes(p)|..] == rest;
  }

  lemma {:induction false} FramesRoundTrip(table: MsgTable, ws: seq<WireFrame>)
    requires forall i :: 0 <= i < |ws| ==> WellFormed(table, ws[i])
    ensures Drain(table, EncodeAll(ws)) == Drained(FramedAll(table, ws), [])
  {
    hide Scan, Encode, HeaderOf, WellFormed;
    if ws != [] {
      var rest := EncodeAll(ws[1..]);
      ScanEncoded(table, ws[0], rest);
      assert (Encode(ws[0]) + rest)[..|Encode(ws[0])|] == Encode(ws[0]);
      DrainFirst(table, Framed(HeaderOf(table, ws[0]), Encode(ws[0])), rest);
      FramesRoundTrip(table, ws[1..]);
    } else {
      assert Scan(table, []).NeedMore? by {
        EmptyNeedsMore(table);
      }
    }
  }

  lemma EmptyNeedsMore(table: MsgTable)
    ensures Scan(table, []).NeedMore?
  {}

  lemma GarbageScan(table: MsgTable, buf: Bytes)
    requires buf != [] && StxOf(buf[0]).None?
    ensures Scan(table, buf) == Discard(false)
  {}

  lemma {:induction false} GarbageDrain(table: MsgTable, garbage: Bytes, rest: Bytes)
    requires forall i :: 0 <= i < |garbage| ==> StxOf(garbage[i]).None?
    ensures Drain(table, garbage + rest)
         == Drained(SkippedAll(garbage) + Drain(table, rest).pieces, Drain(table, rest).rest)
  {
    hide Scan;
    if garbage == [] {
      EmptyAppend(rest);
      EmptyAppend(Drain(table, rest).pieces);
    } else {
      var tail := garbage[1..] + rest;
      ConsAppend(garbage, rest);
      GarbageScan(table, [garbage[0]] + tail);
      DrainFirst(table, Skipped(garbage[0], false), tail);
      GarbageDrain(table, garbage[1..], rest);
      Assoc([Skipped(garbage[0], false)], SkippedAll(garbage[1..]), Drain(table, rest).pieces);
    }
  }

  lemma {:induction false} GarbageCounts(garbage: Bytes)
    ensures Frames(SkippedAll(garbage)) == []
    ensures ResyncBytes(SkippedAll(garbage)) == |garbage|
    ensures CrcErrors(SkippedAll(garbage)) == 0
  {
    if garbage != [] {
      GarbageCounts(garbage[1..]);
      assert SkippedAll(garbage)[1..] == SkippedAll(garbage[1..]);
    }
  }

  lemma {:induction false} FramedCounts(table: MsgTable, ws: seq<WireFrame>)
    ensures |Frames(FramedAll(table, ws))| == |ws|
    ensures forall i :: 0 <= i < |ws| ==>
              Frames(FramedAll(table, ws))[i] == (HeaderOf(table, ws[i]), Encode(ws[i]))
    ensures ResyncBytes(FramedAll(table, ws)) == 0
    ensures CrcErrors(FramedAll(table, ws)) == 0
  {
    hide Encode, HeaderOf;
    if ws != [] {
      FramedCounts(table, ws[1..]);
      assert FramedAll(table, ws)[1..] == FramedAll(table, ws[1..]);
      assert Frames(FramedAll(table, ws))[1..] == Frames(FramedAll(table, ws[1..]));
    }
  }

  /**
   Any concatenation of well-formed frames, after a prefix without start bytes, comes out
   as exactly those frames and headers in order; only the prefix is counted as skipped.
   */
  lemma StreamRoundTrip(table: MsgTable, garbage: Bytes, ws: seq<WireFrame>)
    requires forall i :: 0 <= i < |garbage| ==> StxOf(garbage[i]).None?
    requires forall i :: 0 <= i < |ws| ==> WellFormed(table, ws[i])
    ensures
      var d := Drain(table, garbage + EncodeAll(ws));
      var frames := Frames(d.pieces);
      && |frames| == |ws|
      && (forall i :: 0 <= i < |ws| ==> frames[i] == (HeaderOf(table, ws[i]), Encode(ws[i])))
      && ResyncBytes(d.pieces) == |garbage|
      && CrcErrors(d.pieces) == 0
      && d.rest == []
  {
    hide *;
    GarbageDrain(table, garbage, EncodeAll(ws));
    FramesRoundTrip(table, ws);
    FramesConcat(SkippedAll(garbage), FramedAll(table, ws));
    CountsConcat(SkippedAll(garbage), FramedAll(table, ws));
    GarbageCounts(garbage);
    FramedCounts(table, ws);
    EmptyAppend(Frames(FramedAll(table, ws)));
  }
}
