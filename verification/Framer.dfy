/**
 The resynchronising framer (src/mavlink/framer.rs).

 `Scan` is the decision the framer makes at the front of its buffer.  Running it to a
 standstill splits the input into frames and skipped bytes; `Drain` is that split.  The
 class is proved against it: whatever the interleaving of feeding and draining, the
 frames emitted, both counters and the bytes still buffered are those of one drain of
 the whole input.
 */
module Framing {
  import opened Frame
  import opened Sequences
  import Crc

  // ---------- Header, checksum and targets ----------

  function ParseHeader(frame: Bytes, version: Version): ParsedHeader
    requires |frame| >= HeaderLen(version)
  {
    match version
    case V1 =>
      ParsedHeader(V1, NodeId(frame[3], frame[4]), frame[5] as bv32, frame[2], frame[1], None, None)
    case V2 =>
      ParsedHeader(V2, NodeId(frame[5], frame[6]), LeMsgId(frame[7], frame[8], frame[9]),
                   frame[4], frame[1], None, None)
  }

  function PayloadEnd(header: ParsedHeader): nat {
    HeaderLen(header.version) + header.payloadLen as int
  }

  /** The checksum of the covered bytes: everything after the start byte, then the seed. */
  function Checksum(covered: Bytes, crcExtra: bv8): bv16 {
    Crc.Update(Crc.Feed(Crc.CRC_INIT, covered), crcExtra)
  }

  predicate ValidateCrc(frame: Bytes, header: ParsedHeader, crcExtra: bv8)
    requires |frame| >= PayloadEnd(header) + CRC_LEN
  {
    var end := PayloadEnd(header);
    Checksum(frame[1..end], crcExtra) == LeWord(frame[end], frame[end + 1])
  }

  /** The checksum is the defined one of the covered bytes with the seed after them. */
  lemma ChecksumIs(covered: Bytes, crcExtra: bv8)
    ensures Checksum(covered, crcExtra) == Crc.Reference(covered + [crcExtra])
  {
    hide Crc.Update, Crc.Reference;
    Crc.FeedConcat(Crc.CRC_INIT, covered, [crcExtra]);
    assert [crcExtra][1..] == [];
    Crc.FeedIsReference(covered + [crcExtra]);
  }

  /** So no two seeds give the same bytes the same checksum. */
  lemma SeedsDiffer(covered: Bytes, a: bv8, b: bv8)
    requires a != b
    ensures Checksum(covered, a) != Checksum(covered, b)
  {
    hide *;
    var c := Crc.Feed(Crc.CRC_INIT, covered);
    ChecksumUnfold(covered, a);
    ChecksumUnfold(covered, b);
    Crc.UpdateLinear(c, c, a, b);
    OneByteTells(c, a, b);
    OneByteTells(Crc.Update(c, a), a, b);
  }

  lemma ChecksumUnfold(covered: Bytes, crcExtra: bv8)
    ensures Checksum(covered, crcExtra) == Crc.Update(Crc.Feed(Crc.CRC_INIT, covered), crcExtra)
  {
    hide Crc.Update, Crc.Feed;
  }

  /** A word cancels itself; the difference of two bytes does not go under. */
  lemma OneByteTells(c: bv16, a: bv8, b: bv8)
    requires a != b
    ensures Crc.Xor(c, c) == 0 && Crc.Update(0, Crc.Xor8(a, b)) != 0
  {}

  /** The checksum test as it runs, over a local accumulator. */
  method CheckCrc(frame: Bytes, header: ParsedHeader, crcExtra: bv8) returns (ok: bool)
    requires |frame| >= PayloadEnd(header) + CRC_LEN
    ensures
      var end := PayloadEnd(header);
      ok == (Crc.Reference(frame[1..end] + [crcExtra]) == LeWord(frame[end], frame[end + 1]))
    ensures ok == ValidateCrc(frame, header, crcExtra)
  {
    hide Crc.Update, Crc.Feed, Crc.Reference;
    var end := PayloadEnd(header);
    ChecksumIs(frame[1..end], crcExtra);
    var crc := new Crc.Crc16();
    crc.UpdateSlice(frame[1..end]);
    crc.UpdateByte(crcExtra);
    ok := crc.value == LeWord(frame[end], frame[end + 1]);
  }

  function TargetAt(frame: Bytes, header: ParsedHeader, off: Option<bv8>): Option<bv8>
    requires |frame| >= PayloadEnd(header)
  {
    if off.None? || off.value as int >= header.payloadLen as int then None
    else Some(frame[HeaderLen(header.version) + off.value as int])
  }

  function ExtractTargets(frame: Bytes, header: ParsedHeader, entry: Option<MsgEntry>): (Option<bv8>, Option<bv8>)
    requires |frame| >= PayloadEnd(header)
  {
    match entry
    case None => (None, None)
    case Some(e) => (TargetAt(frame, header, e.targetSysOffset), TargetAt(frame, header, e.targetCompOffset))
  }

  // ---------- One decision ----------

  datatype FrameLen = Ready(n: nat) | UnknownIncompatFlag

  function DecideFrameLen(buf: Bytes, version: Version): FrameLen
    requires |buf| >= HeaderLen(version)
  {
    match version
    case V1 => Ready(V1_HEADER_LEN + buf[1] as int + CRC_LEN)
    case V2 =>
      if buf[2] & !V2_IFLAG_SIGNED != 0 then UnknownIncompatFlag
      else
        Ready(V2_HEADER_LEN + buf[1] as int + CRC_LEN +
              if buf[2] & V2_IFLAG_SIGNED != 0 then V2_SIGNATURE_LEN else 0)
  }

  predicate CrcAccepted(table: MsgTable, frame: Bytes, header: ParsedHeader)
    requires |frame| >= PayloadEnd(header) + CRC_LEN
  {
    match Lookup(table, header.msgid)
    case Some(e) => ValidateCrc(frame, header, e.crcExtra)
    case None => true
  }

  function FullHeader(table: MsgTable, frame: Bytes, header: ParsedHeader): ParsedHeader
    requires |frame| >= PayloadEnd(header)
  {
    var (sys, comp) := ExtractTargets(frame, header, Lookup(table, header.msgid));
    header.(targetSystem := sys, targetComponent := comp)
  }

  datatype Verdict =
    | NeedMore
    | Discard(crcError: bool)
    | Emit(header: ParsedHeader, len: nat)

  /** What the framer does with the bytes at the front of its buffer. */
  function Scan(table: MsgTable, buf: Bytes): (v: Verdict)
    ensures v.Discard? ==> |buf| > 0
    ensures v.Emit? ==> 0 < v.len <= |buf|
    ensures v.NeedMore? ==> |buf| <= 279
  {
    if buf == [] then NeedMore
    else match StxOf(buf[0])
      case None => Discard(false)
      case Some(version) =>
        if |buf| < HeaderLen(version) then NeedMore
        else match DecideFrameLen(buf, version)
          case UnknownIncompatFlag => Discard(false)
          case Ready(n) =>
            if |buf| < n then NeedMore
            else
              var header := ParseHeader(buf[..n], version);
              if CrcAccepted(table, buf[..n], header)
              then Emit(FullHeader(table, buf[..n], header), n)
              else Discard(true)
  }

  /** The decision on a complete frame. */
  lemma ScanReady(table: MsgTable, buf: Bytes, version: Version, n: nat)
    requires buf != [] && StxOf(buf[0]) == Some(version) && HeaderLen(version) <= |buf|
    requires DecideFrameLen(buf, version) == Ready(n) && n <= |buf|
    ensures HeaderLen(version) <= n && PayloadEnd(ParseHeader(buf[..n], version)) + CRC_LEN <= n
    ensures
      var header := ParseHeader(buf[..n], version);
      Scan(table, buf) == if CrcAccepted(table, buf[..n], header)
                          then Emit(FullHeader(table, buf[..n], header), n) else Discard(true)
  {
    hide CrcAccepted, FullHeader, LeMsgId;
  }

  /** Once made, a decision does not depend on bytes that arrive later. */
  lemma ScanStable(table: MsgTable, buf: Bytes, more: Bytes)
    requires !Scan(table, buf).NeedMore?
    ensures Scan(table, buf + more) == Scan(table, buf)
  {
    hide Crc.Update, Crc.Feed;
    var version := StxOf(buf[0]);
    if version.Some? && |buf| >= HeaderLen(version.value) {
      var len := DecideFrameLen(buf, version.value);
      assert DecideFrameLen(buf + more, version.value) == len;
      if len.Ready? && len.n <= |buf| {
        assert (buf + more)[..len.n] == buf[..len.n];
      }
    }
  }

  // ---------- Splitting the input ----------

  datatype Piece =
    | Skipped(b: bv8, crcError: bool)
    | Framed(header: ParsedHeader, bytes: Bytes)

  datatype Drained = Drained(pieces: seq<Piece>, rest: Bytes)

  /** The piece that a decision cuts off the front of the buffer. */
  function FirstPiece(table: MsgTable, buf: Bytes): (p: Piece)
    requires !Scan(table, buf).NeedMore?
    ensures 0 < |PieceBytes(p)| <= |buf|
    ensures PieceBytes(p) == buf[..|PieceBytes(p)|]
  {
    match Scan(table, buf)
    case Discard(e) => Skipped(buf[0], e)
    case Emit(h, n) => Framed(h, buf[..n])
  }

  function PieceBytes(p: Piece): Bytes {
    match p
    case Skipped(b, _) => [b]
    case Framed(_, bytes) => bytes
  }

  /** Cut pieces off the front until the framer has to wait for input. */
  function Drain(table: MsgTable, buf: Bytes): Drained
    decreases |buf|
  {
    if Scan(table, buf).NeedMore? then Drained([], buf)
    else
      var p := FirstPiece(table, buf);
      var d := Drain(table, buf[|PieceBytes(p)|..]);
      Drained([p] + d.pieces, d.rest)
  }

  function Flatten(pieces: seq<Piece>): Bytes {
    if pieces == [] then [] else PieceBytes(pieces[0]) + Flatten(pieces[1..])
  }

  function FrameOf(p: Piece): seq<(ParsedHeader, Bytes)> {
    if p.Framed? then [(p.header, p.bytes)] else []
  }

  function Frames(pieces: seq<Piece>): seq<(ParsedHeader, Bytes)> {
    if pieces == [] then [] else FrameOf(pieces[0]) + Frames(pieces[1..])
  }

  function ResyncBytes(pieces: seq<Piece>): nat {
    if pieces == [] then 0 else (if pieces[0].Skipped? then 1 else 0) + ResyncBytes(pieces[1..])
  }

  function CrcErrors(pieces: seq<Piece>): nat {
    if pieces == [] then 0
    else (if pieces[0].Skipped? && pieces[0].crcError then 1 else 0) + CrcErrors(pieces[1..])
  }

  function FrameBytes(frames: seq<(ParsedHeader, Bytes)>): nat {
    if frames == [] then 0 else |frames[0].1| + FrameBytes(frames[1..])
  }

  lemma {:induction false} FramesConcat(a: seq<Piece>, b: seq<Piece>)
    ensures Frames(a + b) == Frames(a) + Frames(b)
  {
    hide FrameOf;
    if a == [] {
      EmptyAppend(b);
      EmptyAppend(Frames(b));
    } else {
      ConsAppend(a, b);
      FramesConcat(a[1..], b);
      Assoc(FrameOf(a[0]), Frames(a[1..]), Frames(b));
    }
  }

  lemma {:induction false} CountsConcat(a: seq<Piece>, b: seq<Piece>)
    ensures ResyncBytes(a + b) == ResyncBytes(a) + ResyncBytes(b)
    ensures CrcErrors(a + b) == CrcErrors(a) + CrcErrors(b)
  {
    if a == [] {
      EmptyAppend(b);
    } else {
      ConsAppend(a, b);
      CountsConcat(a[1..], b);
    }
  }

  lemma AppendSkipped(a: seq<Piece>, b: bv8, e: bool)
    ensures
      var c := a + [Skipped(b, e)];
      && Frames(c) == Frames(a)
      && ResyncBytes(c) == ResyncBytes(a) + 1
      && CrcErrors(c) == CrcErrors(a) + if e then 1 else 0
  {
    FramesConcat(a, [Skipped(b, e)]);
    CountsConcat(a, [Skipped(b, e)]);
  }

  lemma AppendFramed(a: seq<Piece>, h: ParsedHeader, f: Bytes)
    ensures
      var c := a + [Framed(h, f)];
      && Frames(c) == Frames(a) + [(h, f)]
      && ResyncBytes(c) == ResyncBytes(a)
      && CrcErrors(c) == CrcErrors(a)
  {
    FramesConcat(a, [Framed(h, f)]);
    CountsConcat(a, [Framed(h, f)]);
  }

  /** `input` splits, decision by decision, into `pieces` with `buf` left over. */
  ghost predicate Splits(table: MsgTable, input: Bytes, pieces: seq<Piece>, buf: Bytes)
    decreases |pieces|
  {
    if pieces == [] then input == buf
    else
      && !Scan(table, input).NeedMore?
      && FirstPiece(table, input) == pieces[0]
      && Splits(table, input[|PieceBytes(pieces[0])|..], pieces[1..], buf)
  }

  /** A split whose first piece is cut off is a split of what follows. */
  lemma SplitsTail(table: MsgTable, input: Bytes, pieces: seq<Piece>, buf: Bytes) returns (tail: Bytes)
    requires Splits(table, input, pieces, buf) && pieces != []
    ensures Splits(table, tail, pieces[1..], buf)
    ensures input == PieceBytes(pieces[0]) + tail
    ensures Drain(table, input) == Drained([pieces[0]] + Drain(table, tail).pieces, Drain(table, tail).rest)
  {
    hide Scan;
    tail := input[|PieceBytes(pieces[0])|..];
  }

  /** The unfinished part of a split can be carried on by itself. */
  lemma {:induction false} SplitsThenDrain(table: MsgTable, input: Bytes, pieces: seq<Piece>, buf: Bytes)
    requires Splits(table, input, pieces, buf)
    ensures Drain(table, input) == Drained(pieces + Drain(table, buf).pieces, Drain(table, buf).rest)
    decreases |pieces|
  {
    hide Scan, Drain;
    var d := Drain(table, buf);
    if pieces == [] {
      EmptyAppend(d.pieces);
    } else {
      hide Splits;
      var tail := SplitsTail(table, input, pieces, buf);
      SplitsThenDrain(table, tail, pieces[1..], buf);
      ConsAppend(pieces, d.pieces);
    }
  }

  /** Bytes that arrive later leave the pieces already cut untouched. */
  lemma {:induction false} SplitsExtend(table: MsgTable, input: Bytes, pieces: seq<Piece>, buf: Bytes, more: Bytes)
    requires Splits(table, input, pieces, buf)
    ensures Splits(table, input + more, pieces, buf + more)
    decreases |pieces|
  {
    hide Scan;
    if pieces != [] {
      ScanStable(table, input, more);
      var n := |PieceBytes(pieces[0])|;
      assert (input + more)[..n] == input[..n];
      assert (input + more)[n..] == input[n..] + more;
      SplitsExtend(table, input[n..], pieces[1..], buf, more);
    }
  }

  lemma {:induction false} SplitsStep(table: MsgTable, input: Bytes, pieces: seq<Piece>, buf: Bytes)
    requires Splits(table, input, pieces, buf)
    requires !Scan(table, buf).NeedMore?
    ensures
      var p := FirstPiece(table, buf);
      Splits(table, input, pieces + [p], buf[|PieceBytes(p)|..])
    decreases |pieces|
  {
    hide Scan, FirstPiece, PieceBytes;
    var p := FirstPiece(table, buf);
    if pieces == [] {
      assert pieces + [p] == [p] && [p][1..] == [];
    } else {
      SplitsStep(table, input[|PieceBytes(pieces[0])|..], pieces[1..], buf);
      assert (pieces + [p])[1..] == pieces[1..] + [p];
    }
  }

  lemma {:induction false} DrainSplits(table: MsgTable, buf: Bytes)
    ensures Splits(table, buf, Drain(table, buf).pieces, Drain(table, buf).rest)
    ensures Scan(table, Drain(table, buf).rest).NeedMore?
    decreases |buf|
  {
    hide Scan;
    if !Scan(table, buf).NeedMore? {
      var p := FirstPiece(table, buf);
      var tail := buf[|PieceBytes(p)|..];
      DrainSplits(table, tail);
      assert Drain(table, buf).pieces[1..] == Drain(table, tail).pieces;
    }
  }

  // ---------- Chunk independence ----------

  /** Feed the chunks one by one, draining after each. */
  function DrainChunks(table: MsgTable, buf: Bytes, chunks: seq<Bytes>): Drained
    decreases |chunks|
  {
    if chunks == [] then Drain(table, buf)
    else
      var d := Drain(table, buf + chunks[0]);
      var e := DrainChunks(table, d.rest, chunks[1..]);
      Drained(d.pieces + e.pieces, e.rest)
  }

  function Joined(chunks: seq<Bytes>): Bytes {
    if chunks == [] then [] else chunks[0] + Joined(chunks[1..])
  }

  /** Draining a prefix first changes nothing. */
  lemma DrainInTwo(table: MsgTable, buf: Bytes, more: Bytes)
    ensures
      var d := Drain(table, buf);
      var e := Drain(table, d.rest + more);
      Drain(table, buf + more) == Drained(d.pieces + e.pieces, e.rest)
  {
    hide *;
    var d := Drain(table, buf);
    DrainSplits(table, buf);
    SplitsExtend(table, buf, d.pieces, d.rest, more);
    SplitsThenDrain(table, buf + more, d.pieces, d.rest + more);
  }

  /** Every way of cutting a stream into chunks gives the same pieces and leftover. */
  lemma {:induction false} ChunkIndependence(table: MsgTable, buf: Bytes, chunks: seq<Bytes>)
    ensures DrainChunks(table, buf, chunks) == Drain(table, buf + Joined(chunks))
    decreases |chunks|
  {
    hide Drain;
    if chunks == [] {
      assert buf + Joined(chunks) == buf;
    } else {
      var d := Drain(table, buf + chunks[0]);
      ChunkIndependence(table, d.rest, chunks[1..]);
      DrainInTwo(table, buf + chunks[0], Joined(chunks[1..]));
      assert buf + chunks[0] + Joined(chunks[1..]) == buf + Joined(chunks);
    }
  }

  // ---------- Conservation ----------

  lemma {:induction false} SplitsFlatten(table: MsgTable, input: Bytes, pieces: seq<Piece>, buf: Bytes)
    requires Splits(table, input, pieces, buf)
    ensures Flatten(pieces) + buf == input
    decreases |pieces|
  {
    hide Scan, Drain, PieceBytes;
    if pieces == [] {
      EmptyAppend(buf);
    } else {
      hide Splits;
      var tail := SplitsTail(table, input, pieces, buf);
      SplitsFlatten(table, tail, pieces[1..], buf);
      Assoc(PieceBytes(pieces[0]), Flatten(pieces[1..]), buf);
    }
  }

  lemma {:induction false} PiecesCount(pieces: seq<Piece>)
    ensures |Flatten(pieces)| == FrameBytes(Frames(pieces)) + ResyncBytes(pieces)
    ensures CrcErrors(pieces) <= ResyncBytes(pieces)
  {
    if pieces != [] {
      PiecesCount(pieces[1..]);
      if pieces[0].Framed? {
        assert Frames(pieces)[1..] == Frames(pieces[1..]);
      } else {
        assert Frames(pieces) == Frames(pieces[1..]);
      }
    }
  }

  /** No byte is lost, invented or reordered, and little is ever left waiting. */
  lemma DrainConserves(table: MsgTable, input: Bytes)
    ensures
      var d := Drain(table, input);
      && Flatten(d.pieces) + d.rest == input
      && |input| == FrameBytes(Frames(d.pieces)) + ResyncBytes(d.pieces) + |d.rest|
      && CrcErrors(d.pieces) <= ResyncBytes(d.pieces)
      && |d.rest| <= 279
  {
    hide *;
    var d := Drain(table, input);
    DrainSplits(table, input);
    SplitsFlatten(table, input, d.pieces, d.rest);
    PiecesCount(d.pieces);
    assert Scan(table, d.rest).NeedMore?;
  }

  // ---------- The framer ----------

  class Framer {
    const table: MsgTable
    var buf: Bytes
    var resyncBytes: nat
    var crcErrors: nat
    ghost var fed: Bytes
    ghost var pieces: seq<Piece>

    /** The state is that of a split, still under way, of everything ever fed. */
    ghost predicate Valid()
      reads this
    {
      && Splits(table, fed, pieces, buf)
      && resyncBytes == ResyncBytes(pieces)
      && crcErrors == CrcErrors(pieces)
    }

    constructor (table: MsgTable)
      ensures Valid()
      ensures this.table == table && fed == [] && pieces == [] && buf == []
    {
      this.table := table;
      buf, resyncBytes, crcErrors := [], 0, 0;
      fed, pieces := [], [];
    }

    /** A transport read lands at the end of the buffer. */
    method Write(chunk: Bytes)
      requires Valid()
      modifies this
      ensures Valid()
      ensures fed == old(fed) + chunk && pieces == old(pieces) && buf == old(buf) + chunk
    {
      SplitsExtend(table, fed, pieces, buf, chunk);
      buf := buf + chunk;
      fed := fed + chunk;
    }

    method DiscardByte(ghost crcError: bool)
      requires |buf| > 0
      requires Splits(table, fed, pieces, buf) && resyncBytes == ResyncBytes(pieces)
      requires Scan(table, buf) == Discard(crcError)
      requires crcErrors == CrcErrors(pieces) + if crcError then 1 else 0
      modifies this
      ensures Valid()
      ensures fed == old(fed) && buf == old(buf)[1..]
      ensures pieces == old(pieces) + [Skipped(old(buf)[0], crcError)]
    {
      hide Scan, Splits, Frames, ResyncBytes, CrcErrors;
      SplitsStep(table, fed, pieces, buf);
      AppendSkipped(pieces, buf[0], crcError);
      pieces := pieces + [Skipped(buf[0], crcError)];
      resyncBytes := resyncBytes + 1;
      buf := buf[1..];
    }

    /** Skip to the first start byte, or clear the buffer when there is none. */
    method AlignToStx() returns (stx: Option<Version>)
      requires Valid()
      modifies this
      ensures Valid() && fed == old(fed)
      ensures old(pieces) <= pieces && Frames(pieces) == Frames(old(pieces))
      ensures |buf| <= |old(buf)|
      ensures stx.None? ==> buf == []
      ensures stx.Some? ==> buf != [] && StxOf(buf[0]) == stx
    {
      hide Splits, Frames, ResyncBytes, CrcErrors;
      var pos := 0;
      while pos < |buf| && StxOf(buf[pos]).None?
        invariant 0 <= pos <= |buf|
        invariant buf == old(buf) && resyncBytes == old(resyncBytes) && crcErrors == old(crcErrors)
        invariant fed == old(fed)
        invariant Splits(table, fed, pieces, buf[pos..])
        invariant old(pieces) <= pieces && Frames(pieces) == Frames(old(pieces))
        invariant ResyncBytes(pieces) == resyncBytes + pos && CrcErrors(pieces) == crcErrors
      {
        SplitsStep(table, fed, pieces, buf[pos..]);
        AppendSkipped(pieces, buf[pos], false);
        assert buf[pos..][1..] == buf[pos + 1..];
        pieces := pieces + [Skipped(buf[pos], false)];
        pos := pos + 1;
      }
      stx := if pos < |buf| then StxOf(buf[pos]) else None;
      resyncBytes := resyncBytes + pos;
      buf := buf[pos..];
    }

    /** Emit the complete frame at the front, or count a CRC failure and drop one byte. */
    method TryValidateAndEmit(version: Version, frameLen: nat) returns (r: Option<(ParsedHeader, Bytes)>)
      requires Valid()
      requires buf != [] && StxOf(buf[0]) == Some(version)
      requires HeaderLen(version) <= |buf| && DecideFrameLen(buf, version) == Ready(frameLen) && frameLen <= |buf|
      modifies this
      ensures Valid() && fed == old(fed) && |buf| < |old(buf)|
      ensures old(pieces) <= pieces
      ensures r.None? ==> Frames(pieces) == Frames(old(pieces))
      ensures r.Some? ==> Frames(pieces) == Frames(old(pieces)) + [r.value]
    {
      hide Splits, Frames, ResyncBytes, CrcErrors, Scan, ParseHeader, PayloadEnd, DecideFrameLen, StxOf, FullHeader,
           ValidateCrc, Crc.Reference, LeWord;
      ScanReady(table, buf, version, frameLen);
      var frame := buf[..frameLen];
      var header := ParseHeader(frame, version);
      var crcOk := true;
      match Lookup(table, header.msgid) {
        case Some(entry) => crcOk := CheckCrc(frame, header, entry.crcExtra);
        case None =>
      }
      if !crcOk {
        AppendSkipped(pieces, buf[0], true);
        crcErrors := crcErrors + 1;
        DiscardByte(true);
        return None;
      }
      var full := FullHeader(table, frame, header);
      SplitsStep(table, fed, pieces, buf);
      AppendFramed(pieces, full, frame);
      pieces := pieces + [Framed(full, frame)];
      buf := buf[frameLen..];
      return Some((full, frame));
    }

    /** Extract one complete frame, or report that the buffer holds none yet. */
    method TryNextFrame() returns (r: Option<(ParsedHeader, Bytes)>)
      requires Valid()
      modifies this
      ensures Valid() && fed == old(fed)
      ensures old(pieces) <= pieces
      ensures r.None? ==> Frames(pieces) == Frames(old(pieces)) && Scan(table, buf).NeedMore?
      ensures r.Some? ==> Frames(pieces) == Frames(old(pieces)) + [r.value] && |buf| < |old(buf)|
    {
      hide Splits, Frames, ResyncBytes, CrcErrors;
      while true
        invariant Valid() && fed == old(fed)
        invariant old(pieces) <= pieces && Frames(pieces) == Frames(old(pieces))
        invariant |buf| <= |old(buf)|
        decreases |buf|
      {
        var stx := AlignToStx();
        if stx.None? {
          return None;
        }
        var version := stx.value;
        if |buf| < HeaderLen(version) {
          return None;
        }
        match DecideFrameLen(buf, version)
        case UnknownIncompatFlag =>
          AppendSkipped(pieces, buf[0], false);
          DiscardByte(false);
        case Ready(frameLen) =>
          if |buf| < frameLen {
            return None;
          }
          r := TryValidateAndEmit(version, frameLen);
          if r.Some? {
            return r;
          }
      }
    }

    /**
     Once the framer waits for input, its whole observable state is a function of the
     bytes fed so far: it does not depend on how they were chunked or when it drained.
     */
    lemma StateIsDrainOfInput()
      requires Valid() && Scan(table, buf).NeedMore?
      ensures
        var d := Drain(table, fed);
        && pieces == d.pieces
        && buf == d.rest
        && resyncBytes == ResyncBytes(d.pieces)
        && crcErrors == CrcErrors(d.pieces)
    {
      hide Scan, Splits;
      SplitsThenDrain(table, fed, pieces, buf);
      assert Drain(table, buf) == Drained([], buf);
    }
  }
}
