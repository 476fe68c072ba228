/**
 Frames after arbitrary bytes (src/mavlink/framer.rs).  A stray start byte can make the
 framer wait for a frame that is not there, or take the frames that follow for its
 payload; here it is settled exactly when a stream of well-formed frames comes out whole
 after a prefix of any bytes.
 */
module Resync {
  import opened Frame
  import opened Framing
  import opened Encoding
  import opened Sequences

  // ---------- Lengths ----------

  lemma {:induction false} FlattenConcat(a: seq<Piece>, b: seq<Piece>)
    ensures Flatten(a + b) == Flatten(a) + Flatten(b)
  {
    if a == [] {
      EmptyAppend(b);
      EmptyAppend(Flatten(b));
    } else {
      ConsAppend(a, b);
      FlattenConcat(a[1..], b);
      Assoc(PieceBytes(a[0]), Flatten(a[1..]), Flatten(b));
    }
  }

  lemma {:induction false} FlattenFramed(table: MsgTable, ws: seq<WireFrame>)
    ensures Flatten(FramedAll(table, ws)) == EncodeAll(ws)
  {
    hide Encode, HeaderOf;
    if ws != [] {
      FlattenFramed(table, ws[1..]);
      assert FramedAll(table, ws)[1..] == FramedAll(table, ws[1..]);
    }
  }

  ghost predicate AllSkipped(pieces: seq<Piece>) {
    forall i :: 0 <= i < |pieces| ==> pieces[i].Skipped?
  }

  lemma {:induction false} FlattenSkipped(skips: seq<Piece>)
    requires AllSkipped(skips)
    ensures |Flatten(skips)| == |skips|
  {
    if skips != [] {
      FlattenSkipped(skips[1..]);
    }
  }

  // ---------- After bytes that leave the framer idle ----------

  lemma PiecesOfParts(table: MsgTable, prefix: Bytes, more: Bytes, skips: seq<Piece>, tail: seq<Piece>)
    requires Drain(table, prefix + more) == Drained(Drain(table, prefix).pieces + (skips + tail), [])
    requires AllSkipped(skips) && Flatten(tail) == more
    ensures |skips| == |Drain(table, prefix).rest|
  {
    hide Drain, Flatten;
    var d := Drain(table, prefix);
    DrainConserves(table, prefix);
    DrainConserves(table, prefix + more);
    FlattenConcat(d.pieces, skips + tail);
    FlattenConcat(skips, tail);
    FlattenSkipped(skips);
  }

  /**
   After any prefix, well-formed frames come out with nothing lost between them and what
   the prefix yields exactly when the prefix leaves nothing in the buffer.
   */
  lemma PrefixRoundTripIff(table: MsgTable, prefix: Bytes, ws: seq<WireFrame>)
    requires forall i :: 0 <= i < |ws| ==> WellFormed(table, ws[i])
    ensures Drain(table, prefix + EncodeAll(ws)) == Drained(Drain(table, prefix).pieces + FramedAll(table, ws), [])
       <==> Drain(table, prefix).rest == []
  {
    hide *;
    var d, more, tail := Drain(table, prefix), EncodeAll(ws), FramedAll(table, ws);
    DrainInTwo(table, prefix, more);
    FramesRoundTrip(table, ws);
    FlattenFramed(table, ws);
    EmptyAppend(more);
    EmptyAppend(tail);
    if Drain(table, prefix + more) == Drained(d.pieces + tail, []) {
      NoSkips();
      PiecesOfParts(table, prefix, more, [], tail);
    }
  }

  lemma NoSkips()
    ensures AllSkipped([])
  {}

  // ---------- After bytes that leave some buffered ----------

  /** At every byte of `buf` the framer, seeing `more` behind it, discards that byte. */
  ghost predicate AllDiscarded(table: MsgTable, buf: Bytes, more: Bytes) {
    forall j :: 0 <= j < |buf| ==> Scan(table, buf[j..] + more).Discard?
  }

  lemma DiscardedTail(table: MsgTable, buf: Bytes, more: Bytes)
    requires buf != []
    ensures AllDiscarded(table, buf, more) <==>
              Scan(table, buf + more).Discard? && AllDiscarded(table, buf[1..], more)
  {
    hide Scan;
    assert buf[0..] == buf;
    assert forall j :: 0 <= j < |buf| - 1 ==> buf[1..][j..] == buf[j + 1..];
    if Scan(table, buf + more).Discard? && AllDiscarded(table, buf[1..], more) {
      forall j | 0 <= j < |buf|
        ensures Scan(table, buf[j..] + more).Discard?
      {
        if j > 0 {
          assert buf[1..][j - 1..] == buf[j..];
        }
      }
    }
  }

  /** One discarded byte, then the rest. */
  lemma DiscardFirst(table: MsgTable, buf: Bytes, more: Bytes)
    requires buf != [] && Scan(table, buf + more).Discard?
    ensures
      var d := Drain(table, buf[1..] + more);
      exists crcError :: Drain(table, buf + more) == Drained([Skipped(buf[0], crcError)] + d.pieces, d.rest)
  {
    hide Scan;
    var crcError := Scan(table, buf + more).crcError;
    assert (buf + more)[1..] == buf[1..] + more && (buf + more)[0] == buf[0];
    var d := Drain(table, buf[1..] + more);
    assert Drain(table, buf + more) == Drained([Skipped(buf[0], crcError)] + d.pieces, d.rest);
  }

  lemma {:induction false} DiscardsAll(table: MsgTable, buf: Bytes, more: Bytes) returns (skips: seq<Piece>)
    requires AllDiscarded(table, buf, more)
    ensures AllSkipped(skips)
    ensures Drain(table, buf + more) == Drained(skips + Drain(table, more).pieces, Drain(table, more).rest)
  {
    hide Drain, Scan, AllDiscarded;
    if buf == [] {
      skips := [];
      EmptyAppend(more);
      EmptyAppend(Drain(table, more).pieces);
    } else {
      DiscardedTail(table, buf, more);
      var rest := DiscardsAll(table, buf[1..], more);
      DiscardFirst(table, buf, more);
      var d := Drain(table, buf[1..] + more);
      var crcError :| Drain(table, buf + more) == Drained([Skipped(buf[0], crcError)] + d.pieces, d.rest);
      skips := [Skipped(buf[0], crcError)] + rest;
      Assoc([Skipped(buf[0], crcError)], rest, Drain(table, more).pieces);
    }
  }

  /** Conversely, pieces that begin with as many skipped bytes come from discards. */
  lemma {:induction false} SkipsAreDiscards(
    table: MsgTable, buf: Bytes, more: Bytes, skips: seq<Piece>, tail: seq<Piece>)
    requires AllSkipped(skips) && |skips| == |buf|
    requires Drain(table, buf + more).pieces == skips + tail
    ensures AllDiscarded(table, buf, more)
  {
    if buf != [] {
      FirstSkipped(table, buf + more, skips + tail);
      DiscardFirst(table, buf, more);
      hide Drain, Scan, AllDiscarded;
      var d := Drain(table, buf[1..] + more);
      var crcError :| Drain(table, buf + more) == Drained([Skipped(buf[0], crcError)] + d.pieces, d.rest);
      assert d.pieces == (skips + tail)[1..];
      ConsAppend(skips, tail);
      SkipsAreDiscards(table, buf[1..], more, skips[1..], tail);
      DiscardedTail(table, buf, more);
    }
  }

  lemma FirstSkipped(table: MsgTable, buf: Bytes, pieces: seq<Piece>)
    requires Drain(table, buf).pieces == pieces && pieces != [] && pieces[0].Skipped?
    ensures Scan(table, buf).Discard?
  {
    hide Scan;
  }

  /** After what the prefix yields and skipped bytes alone, the frames all come out. */
  ghost predicate Recovers(table: MsgTable, prefix: Bytes, ws: seq<WireFrame>, skips: seq<Piece>) {
    && AllSkipped(skips)
    && Drain(table, prefix + EncodeAll(ws))
         == Drained(Drain(table, prefix).pieces + (skips + FramedAll(table, ws)), [])
  }

  /**
   Recovery at the cost of skipped bytes alone: between what the prefix yields and the
   frames there are only skips exactly when every byte the prefix leaves in the buffer is
   discarded once the frames have arrived.
   */
  lemma RecoversIff(table: MsgTable, prefix: Bytes, ws: seq<WireFrame>)
    requires forall i :: 0 <= i < |ws| ==> WellFormed(table, ws[i])
    ensures (exists skips :: Recovers(table, prefix, ws, skips))
       <==> AllDiscarded(table, Drain(table, prefix).rest, EncodeAll(ws))
  {
    hide *;
    var d, more, tail := Drain(table, prefix), EncodeAll(ws), FramedAll(table, ws);
    DrainInTwo(table, prefix, more);
    FramesRoundTrip(table, ws);
    if AllDiscarded(table, d.rest, more) {
      var skips := DiscardsAll(table, d.rest, more);
      RecoversWith(table, prefix, ws, skips);
    }
    if skips :| Recovers(table, prefix, ws, skips) {
      RecoveredParts(table, prefix, ws, skips);
      SkipsAreDiscards(table, d.rest, more, skips, tail);
    }
  }

  lemma RecoversWith(table: MsgTable, prefix: Bytes, ws: seq<WireFrame>, skips: seq<Piece>)
    requires AllSkipped(skips)
    requires Drain(table, prefix + EncodeAll(ws))
          == Drained(Drain(table, prefix).pieces + (skips + FramedAll(table, ws)), [])
    ensures Recovers(table, prefix, ws, skips)
  {}

  lemma RecoveredParts(table: MsgTable, prefix: Bytes, ws: seq<WireFrame>, skips: seq<Piece>)
    requires Recovers(table, prefix, ws, skips)
    ensures AllSkipped(skips) && |skips| == |Drain(table, prefix).rest|
    ensures Drain(table, Drain(table, prefix).rest + EncodeAll(ws)).pieces == skips + FramedAll(table, ws)
  {
    hide Drain, EncodeAll, FramedAll, AllSkipped;
    var d, more, tail := Drain(table, prefix), EncodeAll(ws), FramedAll(table, ws);
    FlattenFramed(table, ws);
    PiecesOfParts(table, prefix, more, skips, tail);
    DrainInTwo(table, prefix, more);
    SameTail(d.pieces, Drain(table, d.rest + more).pieces, skips + tail);
  }

  lemma SameTail<T>(a: seq<T>, b: seq<T>, c: seq<T>)
    requires a + b == a + c
    ensures b == c
  {
    assert |b| == |c|;
    assert forall i :: 0 <= i < |b| ==> b[i] == (a + b)[|a| + i];
    assert forall i :: 0 <= i < |c| ==> c[i] == (a + c)[|a| + i];
  }

  // ---------- After any bytes, with frames among them ----------

  /**
   The pieces the framer cuts off `buf`, seeing `more` behind it, end exactly where `buf`
   does: at no point does it wait, or take bytes of `more` into a piece begun in `buf`.
   */
  ghost predicate CutsAt(table: MsgTable, buf: Bytes, more: Bytes)
    decreases |buf|
  {
    || buf == []
    || (&& !Scan(table, buf + more).NeedMore?
        && var n := |PieceBytes(FirstPiece(table, buf + more))|;
           n <= |buf| && CutsAt(table, buf[n..], more))
  }

  lemma DrainUnfold(table: MsgTable, buf: Bytes, more: Bytes, p: Piece)
    requires !Scan(table, buf + more).NeedMore? && FirstPiece(table, buf + more) == p && |PieceBytes(p)| <= |buf|
    ensures
      var d := Drain(table, buf[|PieceBytes(p)|..] + more);
      Drain(table, buf + more) == Drained([p] + d.pieces, d.rest)
  {
    hide Scan, FirstPiece, PieceBytes;
    var n := |PieceBytes(p)|;
    assert (buf + more)[n..] == buf[n..] + more;
  }

  /** When the cuts meet, what follows is drained on its own. */
  lemma {:induction false} CutsDrain(table: MsgTable, buf: Bytes, more: Bytes) returns (pieces: seq<Piece>)
    requires CutsAt(table, buf, more)
    ensures Drain(table, buf + more) == Drained(pieces + Drain(table, more).pieces, Drain(table, more).rest)
    decreases |buf|
  {
    hide Drain, Scan, PieceBytes;
    if buf == [] {
      pieces := [];
      EmptyAppend(more);
      EmptyAppend(Drain(table, more).pieces);
    } else {
      var p := FirstPiece(table, buf + more);
      var rest := CutsDrain(table, buf[|PieceBytes(p)|..], more);
      DrainUnfold(table, buf, more, p);
      pieces := [p] + rest;
      Assoc([p], rest, Drain(table, more).pieces);
    }
  }

  /** Pieces that make up just `buf` are cut off it. */
  lemma {:induction false} CutsFrom(table: MsgTable, buf: Bytes, more: Bytes, pieces: seq<Piece>, tail: seq<Piece>)
    requires Drain(table, buf + more).pieces == pieces + tail && |Flatten(pieces)| == |buf|
    ensures CutsAt(table, buf, more)
    decreases |pieces|
  {
    if buf != [] {
      var p := pieces[0];
      assert Flatten(pieces) == PieceBytes(p) + Flatten(pieces[1..]);
      FirstOfDrain(table, buf + more, pieces + tail);
      DrainUnfold(table, buf, more, p);
      hide Drain, Scan, FirstPiece, PieceBytes, Flatten;
      ConsAppend(pieces, tail);
      assert Drain(table, buf[|PieceBytes(p)|..] + more).pieces == (pieces + tail)[1..];
      CutsFrom(table, buf[|PieceBytes(p)|..], more, pieces[1..], tail);
    }
  }

  lemma FirstOfDrain(table: MsgTable, buf: Bytes, pieces: seq<Piece>)
    requires Drain(table, buf).pieces == pieces && pieces != []
    ensures !Scan(table, buf).NeedMore? && FirstPiece(table, buf) == pieces[0]
  {
    hide Scan, FirstPiece, PieceBytes;
  }

  lemma FirstPieceStable(table: MsgTable, buf: Bytes, more: Bytes)
    requires !Scan(table, buf).NeedMore?
    ensures !Scan(table, buf + more).NeedMore? && FirstPiece(table, buf + more) == FirstPiece(table, buf)
  {
    ScanStable(table, buf, more);
    hide Scan;
    var v := Scan(table, buf);
    if v.Emit? {
      assert (buf + more)[..v.len] == buf[..v.len];
    }
  }

  /** What the framer cuts before `more` arrives does not matter. */
  lemma {:induction false} CutsAfterDrain(table: MsgTable, buf: Bytes, more: Bytes)
    ensures CutsAt(table, buf, more) <==> CutsAt(table, Drain(table, buf).rest, more)
    decreases |buf|
  {
    hide Scan;
    if !Scan(table, buf).NeedMore? {
      var p := FirstPiece(table, buf);
      FirstPieceStable(table, buf, more);
      CutsAfterDrain(table, buf[|PieceBytes(p)|..], more);
    }
  }

  /** Whatever comes `before`, the last pieces are these and nothing is left over. */
  ghost predicate EndsIn(d: Drained, pieces: seq<Piece>, before: seq<Piece>) {
    d == Drained(before + pieces, [])
  }

  lemma EndsInParts(table: MsgTable, prefix: Bytes, ws: seq<WireFrame>, before: seq<Piece>)
    requires EndsIn(Drain(table, prefix + EncodeAll(ws)), FramedAll(table, ws), before)
    ensures |Flatten(before)| == |prefix|
    ensures Drain(table, prefix + EncodeAll(ws)).pieces == before + FramedAll(table, ws)
  {
    hide Drain, EncodeAll, FramedAll, Flatten;
    DrainConserves(table, prefix + EncodeAll(ws));
    FlattenConcat(before, FramedAll(table, ws));
    FlattenFramed(table, ws);
  }

  lemma EndsInWith(d: Drained, pieces: seq<Piece>, before: seq<Piece>)
    requires d == Drained(before + pieces, [])
    ensures EndsIn(d, pieces, before)
  {}

  /**
   The exact condition for resynchronisation.  After any prefix, stray start bytes and
   frames in it included, the frames that follow all come out exactly when the pieces cut
   off the bytes that the prefix leaves in the buffer end where those bytes do.
   */
  lemma ComesOutIff(table: MsgTable, prefix: Bytes, ws: seq<WireFrame>)
    requires forall i :: 0 <= i < |ws| ==> WellFormed(table, ws[i])
    ensures (exists before :: EndsIn(Drain(table, prefix + EncodeAll(ws)), FramedAll(table, ws), before))
       <==> CutsAt(table, Drain(table, prefix).rest, EncodeAll(ws))
  {
    hide *;
    var more, tail := EncodeAll(ws), FramedAll(table, ws);
    CutsAfterDrain(table, prefix, more);
    FramesRoundTrip(table, ws);
    if CutsAt(table, prefix, more) {
      var before := CutsDrain(table, prefix, more);
      EndsInWith(Drain(table, prefix + more), tail, before);
    }
    if before :| EndsIn(Drain(table, prefix + more), tail, before) {
      EndsInParts(table, prefix, ws, before);
      CutsFrom(table, prefix, more, before, tail);
    }
  }

  lemma {:induction false} EncodeSplit(ws: seq<WireFrame>, k: nat)
    requires k <= |ws|
    ensures EncodeAll(ws) == EncodeAll(ws[..k]) + EncodeAll(ws[k..])
    decreases k
  {
    hide Encode;
    if k == 0 {
      assert ws[..0] == [] && ws[0..] == ws;
      EmptyAppend(EncodeAll(ws));
    } else {
      EncodeSplit(ws[1..], k - 1);
      assert ws[..k][1..] == ws[1..][..k - 1] && ws[k..] == ws[1..][k - 1..];
      Assoc(Encode(ws[0]), EncodeAll(ws[1..][..k - 1]), EncodeAll(ws[k..]));
    }
  }

  /** So from the frame `k` on all come out exactly when the cuts meet its start. */
  lemma TailComesOutIff(table: MsgTable, prefix: Bytes, ws: seq<WireFrame>, k: nat)
    requires k <= |ws| && forall i :: 0 <= i < |ws| ==> WellFormed(table, ws[i])
    ensures
      var head := prefix + EncodeAll(ws[..k]);
      (exists before :: EndsIn(Drain(table, prefix + EncodeAll(ws)), FramedAll(table, ws[k..]), before))
      <==> CutsAt(table, Drain(table, head).rest, EncodeAll(ws[k..]))
  {
    hide *;
    EncodeSplit(ws, k);
    Assoc(prefix, EncodeAll(ws[..k]), EncodeAll(ws[k..]));
    ComesOutIff(table, prefix + EncodeAll(ws[..k]), ws[k..]);
  }

  /** Recovery at the cost of skipped bytes alone is a case of it. */
  lemma {:induction false} DiscardedCuts(table: MsgTable, buf: Bytes, more: Bytes)
    requires AllDiscarded(table, buf, more)
    ensures CutsAt(table, buf, more)
    decreases |buf|
  {
    hide Scan, AllDiscarded;
    if buf != [] {
      DiscardedTail(table, buf, more);
      DiscardedCuts(table, buf[1..], more);
      assert |PieceBytes(FirstPiece(table, buf + more))| == 1;
    }
  }

  // ---------- A stray start byte ----------

  lemma StrayHeader(w: WireFrame, more: Bytes)
    requires w.WireV1? && w.len as int == |w.payload|
    ensures
      var buf := [STX_V1] + Encode(w) + more;
      && |buf| >= 9 && StxOf(buf[0]) == Some(V1) && buf[5] == w.source.comp
      && DecideFrameLen(buf, V1) == Ready(262)
  {
    hide Encode;
    HeaderByteAt(w, 3);
    EncodedStart(w);
    StrayBytes(w);
  }

  lemma StrayBytes(w: WireFrame)
    requires w.WireV1? && w.len as int == |w.payload|
    ensures |Encode(w)| == 8 + |w.payload| && Encode(w)[0] == STX_V1
  {
    hide LowByte, HighByte;
  }

  lemma Waits(table: MsgTable, buf: Bytes, n: nat)
    requires |buf| >= V1_HEADER_LEN && StxOf(buf[0]) == Some(V1)
    requires DecideFrameLen(buf, V1) == Ready(n) && |buf| < n
    ensures Drain(table, buf) == Drained([], buf)
  {
    hide DecideFrameLen, StxOf;
  }

  lemma TakesUnknown(table: MsgTable, buf: Bytes, n: nat)
    requires V1_HEADER_LEN + 2 <= n <= |buf| && StxOf(buf[0]) == Some(V1)
    requires DecideFrameLen(buf, V1) == Ready(n) && buf[5] as bv32 !in table
    ensures Drain(table, buf).pieces != []
    ensures Drain(table, buf).pieces[0].Framed? && Drain(table, buf).pieces[0].bytes == buf[..n]
  {
    hide StxOf, FullHeader;
    assert buf[..n][5] == buf[5];
    assert Scan(table, buf).Emit? && Scan(table, buf).len == n;
  }

  /** Behind a stray start byte a v1 frame alone is not seen at all: the framer still waits. */
  lemma StrayStartByteHides(table: MsgTable, w: WireFrame)
    requires WellFormed(table, w) && w.WireV1? && |w.payload| < 253
    ensures Drain(table, [STX_V1] + Encode(w)) == Drained([], [STX_V1] + Encode(w))
  {
    hide Encode, Scan, Drain, WellFormed, DecideFrameLen, StxOf;
    WellFormedFields(table, w);
    StrayHeader(w, []);
    StrayBytes(w);
    EmptyAppend([STX_V1] + Encode(w));
    Waits(table, [STX_V1] + Encode(w), 262);
  }

  /**
   Once enough bytes have followed, 262 of them are emitted as one frame, the real frame
   among them, if the real frame's component id is not the id of a known message.
   */
  lemma StrayStartByteSwallows(table: MsgTable, w: WireFrame, more: Bytes)
    requires WellFormed(table, w) && w.WireV1? && w.source.comp as bv32 !in table
    requires 9 + |w.payload| + |more| >= 262
    ensures
      var buf := [STX_V1] + Encode(w) + more;
      && |buf| >= 262 && Drain(table, buf).pieces != [] && Drain(table, buf).pieces[0].Framed?
      && Drain(table, buf).pieces[0].bytes == buf[..262]
  {
    hide Encode, Scan, Drain, WellFormed, DecideFrameLen, StxOf;
    WellFormedFields(table, w);
    StrayHeader(w, more);
    StrayBytes(w);
    TakesUnknown(table, [STX_V1] + Encode(w) + more, 262);
  }
}
