/**
 What the frame checksum detects.

 By linearity two messages have the same checksum exactly when their bytewise difference
 drives the zero register back to zero.  A difference confined to 16 consecutive bits
 never does, and neither does one with an odd number of set bits, because the
 polynomial has x + 1 as a factor.
 */
module CrcDetection {
  import opened Crc
  import opened Frame

  // ---------- Differences ----------

  /** The bytewise difference of two messages. */
  ghost function Difference(s: seq<bv8>, t: seq<bv8>): (d: seq<bv8>)
    requires |s| == |t|
    ensures |d| == |s|
    ensures forall i :: 0 <= i < |s| ==> d[i] == Xor8(s[i], t[i])
  {
    seq(|s|, i requires 0 <= i < |s| => Xor8(s[i], t[i]))
  }

  lemma {:induction false} FeedLinear(c: bv16, d: bv16, s: seq<bv8>, t: seq<bv8>)
    requires |s| == |t|
    ensures Feed(Xor(c, d), Difference(s, t)) == Xor(Feed(c, s), Feed(d, t))
    decreases s
  {
    hide Update, Xor, Xor8;
    if s != [] {
      UpdateLinear(c, d, s[0], t[0]);
      assert Difference(s, t)[1..] == Difference(s[1..], t[1..]);
      FeedLinear(Update(c, s[0]), Update(d, t[0]), s[1..], t[1..]);
    }
  }

  lemma XorIsZero(a: bv16, b: bv16)
    ensures Xor(a, b) == 0 <==> a == b
  {}

  lemma Xor8IsZero(a: bv8, b: bv8)
    ensures Xor8(a, b) == 0 <==> a == b
  {}

  /** Equal checksums are exactly differences that the zero register absorbs. */
  lemma SameCrcIffAbsorbed(crc: bv16, s: seq<bv8>, t: seq<bv8>)
    requires |s| == |t|
    ensures Feed(crc, s) == Feed(crc, t) <==> Feed(0, Difference(s, t)) == 0
  {
    hide *;
    FeedLinear(crc, crc, s, t);
    XorIsZero(crc, crc);
    XorIsZero(Feed(crc, s), Feed(crc, t));
  }

  // ---------- Bursts ----------

  lemma ZeroByteKeepsZero(c: bv16)
    ensures Update(c, 0) == 0 <==> c == 0
  {}

  lemma {:induction false} ZeroRunKeepsZero(c: bv16, z: seq<bv8>)
    requires forall i :: 0 <= i < |z| ==> z[i] == 0
    ensures Feed(c, z) == 0 <==> c == 0
    decreases z
  {
    hide Update;
    if z != [] {
      ZeroByteKeepsZero(c);
      ZeroRunKeepsZero(Update(c, 0), z[1..]);
    }
  }

  /** Three bytes read as one little-endian bit window, least significant bit first. */
  function Window(a: bv8, b: bv8, d: bv8): bv32 {
    (a as bv32) | ((b as bv32) << 8) | ((d as bv32) << 16)
  }

  lemma ShortBurst(w: bv16, k: bv32, a: bv8, b: bv8, d: bv8)
    requires k <= 8 && w != 0
    requires Window(a, b, d) == (w as bv32) << k
    ensures Update(Update(Update(0, a), b), d) != 0
  {}

  lemma FeedThree(c: bv16, a: bv8, b: bv8, d: bv8)
    ensures Feed(c, [a, b, d]) == Update(Update(Update(c, a), b), d)
  {
    hide Update;
    assert [a, b, d][1..] == [b, d];
    assert [b, d][1..] == [d];
    assert Feed(c, [a, b, d]) == Feed(Update(c, a), [b, d]);
    assert Feed(Update(c, a), [b, d]) == Feed(Update(Update(c, a), b), [d]);
    assert [d][1..] == [] && Feed(Update(Update(c, a), b), [d]) == Feed(Update(Update(Update(c, a), b), d), []);
  }

  /**
   Two messages agree outside the 16 bits that start `k` bits into byte `i`, and differ
   by the nonzero pattern `w` inside them.
   */
  ghost predicate DifferInBurst(s: seq<bv8>, t: seq<bv8>, i: nat, k: bv32, w: bv16) {
    && |s| == |t|
    && i + 3 <= |s|
    && k <= 8
    && w != 0
    && (forall j :: 0 <= j < |s| && !(i <= j < i + 3) ==> s[j] == t[j])
    && Window(Xor8(s[i], t[i]), Xor8(s[i + 1], t[i + 1]), Xor8(s[i + 2], t[i + 2])) == (w as bv32) << k
  }

  lemma SplitDifference(d: seq<bv8>, i: nat)
    requires i + 3 <= |d|
    ensures Feed(0, d) == Feed(Feed(Feed(0, d[..i]), [d[i], d[i + 1], d[i + 2]]), d[i + 3..])
  {
    hide *;
    assert d == d[..i] + ([d[i], d[i + 1], d[i + 2]] + d[i + 3..]);
    FeedConcat(0, d[..i], [d[i], d[i + 1], d[i + 2]] + d[i + 3..]);
    FeedConcat(Feed(0, d[..i]), [d[i], d[i + 1], d[i + 2]], d[i + 3..]);
  }

  /** Every alteration confined to 16 consecutive bits changes the checksum. */
  lemma BurstChangesCrc(crc: bv16, s: seq<bv8>, t: seq<bv8>, i: nat, k: bv32, w: bv16)
    requires DifferInBurst(s, t, i, k, w)
    ensures Feed(crc, s) != Feed(crc, t)
  {
    hide Update, Feed, Xor8, Window;
    SameCrcIffAbsorbed(crc, s, t);
    var d := Difference(s, t);
    forall j | 0 <= j < |d| && !(i <= j < i + 3)
      ensures d[j] == 0
    {
      Xor8IsZero(s[j], t[j]);
    }
    SplitDifference(d, i);
    ZeroRunKeepsZero(0, d[..i]);
    FeedThree(0, d[i], d[i + 1], d[i + 2]);
    ShortBurst(w, k, d[i], d[i + 1], d[i + 2]);
    ZeroRunKeepsZero(Feed(0, [d[i], d[i + 1], d[i + 2]]), d[i + 3..]);
  }

  function Join(a: bv8, b: bv8): bv16 {
    (a as bv16) | ((b as bv16) << 8)
  }

  lemma JoinWindows(a: bv8, b: bv8)
    ensures Window(a, b, 0) == (Join(a, b) as bv32) << 0
    ensures Window(0, a, b) == (Join(a, b) as bv32) << 8
    ensures Join(a, b) == 0 <==> a == 0 && b == 0
  {}

  /** Altering one byte, or two adjacent bytes, of a message changes its checksum. */
  lemma AdjacentBytesChangeCrc(crc: bv16, s: seq<bv8>, t: seq<bv8>, i: nat)
    requires |s| == |t| >= 3 && s != t
    requires i + 2 <= |s|
    requires forall j :: 0 <= j < |s| && j != i && j != i + 1 ==> s[j] == t[j]
    ensures Feed(crc, s) != Feed(crc, t)
  {
    hide Update, Feed, Xor8, Window, Join;
    Xor8IsZero(s[i], t[i]);
    Xor8IsZero(s[i + 1], t[i + 1]);
    JoinWindows(Xor8(s[i], t[i]), Xor8(s[i + 1], t[i + 1]));
    if i + 3 <= |s| {
      Xor8IsZero(s[i + 2], t[i + 2]);
      BurstChangesCrc(crc, s, t, i, 0, Join(Xor8(s[i], t[i]), Xor8(s[i + 1], t[i + 1])));
    } else {
      Xor8IsZero(s[i - 1], t[i - 1]);
      BurstChangesCrc(crc, s, t, i - 1, 8, Join(Xor8(s[i], t[i]), Xor8(s[i + 1], t[i + 1])));
    }
  }

  // ---------- Parity ----------

  /** Whether an odd number of the four lowest bits is set. */
  function OddNibble(c: bv16): bool {
    ((c & 1 != 0) != (c & 2 != 0)) != ((c & 4 != 0) != (c & 8 != 0))
  }

  function OddByte(c: bv16): bool {
    OddNibble(c) != OddNibble(Shr4(c))
  }

  /** Whether an odd number of bits is set. */
  function OddBits(c: bv16): bool {
    OddByte(c) != OddByte(Shr8(c))
  }

  lemma OddNibbleLinear(x: bv16, y: bv16)
    ensures OddNibble(Xor(x, y)) == (OddNibble(x) != OddNibble(y))
  {}

  lemma OddByteLinear(x: bv16, y: bv16)
    ensures OddByte(Xor(x, y)) == (OddByte(x) != OddByte(y))
  {
    hide OddNibble, Xor, Shr4;
    OddNibbleLinear(x, y);
    Shr4Linear(x, y);
    OddNibbleLinear(Shr4(x), Shr4(y));
  }

  lemma OddBitsLinear(x: bv16, y: bv16)
    ensures OddBits(Xor(x, y)) == (OddBits(x) != OddBits(y))
  {
    hide OddByte, Xor, Shr8;
    OddByteLinear(x, y);
    Shr8Linear(x, y);
    OddByteLinear(Shr8(x), Shr8(y));
  }

  function Bit4(c: bv16): bool { c & 16 != 0 }

  lemma OddNibbleShifted(c: bv16)
    ensures OddNibble(Shr1(c)) == ((OddNibble(c) != Bit(c)) != Bit4(c))
  {}

  lemma ShiftsCommute(c: bv16)
    ensures Shr4(Shr1(c)) == Shr1(Shr4(c))
    ensures Shr8(Shr1(c)) == Shr1(Shr8(c))
    ensures Bit4(c) == Bit(Shr4(c))
    ensures Bit4(Shr4(c)) == Bit(Shr8(c))
    ensures Bit4(Shr4(Shr8(c))) == false
  {}

  /** Shifting the lowest bit out removes exactly that bit from the parity. */
  lemma OddBitsShifted(c: bv16)
    ensures OddBits(Shr1(c)) == (OddBits(c) != Bit(c))
  {
    hide OddNibble, Shr1, Shr4, Shr8, Bit, Bit4;
    ShiftsCommute(c);
    ShiftsCommute(Shr8(c));
    OddNibbleShifted(c);
    OddNibbleShifted(Shr4(c));
    OddNibbleShifted(Shr8(c));
    OddNibbleShifted(Shr4(Shr8(c)));
  }

  lemma PolynomialIsOdd()
    ensures OddBits(0x8408)
  {}

  /** The polynomial has an odd number of reflected terms, so a step keeps the parity. */
  lemma BitStepKeepsParity(c: bv16)
    ensures OddBits(BitStep(c)) == OddBits(c)
  {
    hide *;
    BitStepUnfold(c);
    OddBitsShifted(c);
    OddBitsLinear(Shr1(c), 0x8408);
    PolynomialIsOdd();
  }

  lemma FourStepsKeepParity(c: bv16)
    ensures OddBits(FourSteps(c)) == OddBits(c)
  {
    hide OddBits, BitStep;
    BitStepKeepsParity(c);
    BitStepKeepsParity(BitStep(c));
    BitStepKeepsParity(BitStep(BitStep(c)));
    BitStepKeepsParity(BitStep(BitStep(BitStep(c))));
  }

  lemma UpdateParity(crc: bv16, b: bv8)
    ensures OddBits(Update(crc, b)) == (OddBits(crc) != OddBits(Widen(b)))
  {
    hide OddBits, Update, BitSerial, FourSteps, Xor, Widen;
    UpdateIsBitSerial(crc, b);
    BitSerialOfWide(crc, b);
    var c := Xor(crc, Widen(b));
    FourStepsKeepParity(c);
    FourStepsKeepParity(FourSteps(c));
    OddBitsLinear(crc, Widen(b));
  }

  /** The number of set bits of a byte. */
  function PopCount(b: bv8): nat {
    (if b & 1 != 0 then 1 else 0) + (if b & 2 != 0 then 1 else 0) +
    (if b & 4 != 0 then 1 else 0) + (if b & 8 != 0 then 1 else 0) +
    (if b & 16 != 0 then 1 else 0) + (if b & 32 != 0 then 1 else 0) +
    (if b & 64 != 0 then 1 else 0) + (if b & 128 != 0 then 1 else 0)
  }

  /** The number of bits in which two messages differ. */
  ghost function FlippedBits(d: seq<bv8>): nat {
    if d == [] then 0 else PopCount(d[0]) + FlippedBits(d[1..])
  }

  lemma PopCountParity(b: bv8)
    ensures PopCount(b) % 2 == 1 <==> OddBits(Widen(b))
  {
    var w := Widen(b);
    assert OddNibble(w) == (((b & 1 != 0) != (b & 2 != 0)) != ((b & 4 != 0) != (b & 8 != 0)));
    assert OddNibble(Shr4(w)) == (((b & 16 != 0) != (b & 32 != 0)) != ((b & 64 != 0) != (b & 128 != 0)));
    assert !OddNibble(Shr8(w)) && !OddNibble(Shr4(Shr8(w)));
  }

  lemma {:induction false} FeedParity(crc: bv16, d: seq<bv8>)
    ensures OddBits(Feed(crc, d)) == (OddBits(crc) != (FlippedBits(d) % 2 == 1))
    decreases d
  {
    hide OddBits, Update, PopCount, Widen;
    if d != [] {
      UpdateParity(crc, d[0]);
      PopCountParity(d[0]);
      FeedParity(Update(crc, d[0]), d[1..]);
    }
  }

  lemma ZeroIsEven()
    ensures !OddBits(0)
  {}

  /** Every alteration that flips an odd number of bits changes the checksum. */
  lemma OddFlipsChangeCrc(crc: bv16, s: seq<bv8>, t: seq<bv8>)
    requires |s| == |t|
    requires FlippedBits(Difference(s, t)) % 2 == 1
    ensures Feed(crc, s) != Feed(crc, t)
  {
    hide OddBits, Feed, FlippedBits, Xor8;
    SameCrcIffAbsorbed(crc, s, t);
    FeedParity(0, Difference(s, t));
    ZeroIsEven();
  }

  lemma {:induction false} FlippedConcat(a: seq<bv8>, b: seq<bv8>)
    ensures FlippedBits(a + b) == FlippedBits(a) + FlippedBits(b)
  {
    hide PopCount;
    if a == [] {
      assert a + b == b;
    } else {
      assert (a + b)[1..] == a[1..] + b;
      FlippedConcat(a[1..], b);
    }
  }

  lemma DifferenceConcat(a: seq<bv8>, b: seq<bv8>, c: seq<bv8>, d: seq<bv8>)
    requires |a| == |c| && |b| == |d|
    ensures Difference(a + b, c + d) == Difference(a, c) + Difference(b, d)
  {
    hide Xor8;
  }

  /** The parity of a little-endian word is that of its bytes. */
  lemma WordParity(lo: bv8, hi: bv8)
    ensures OddBits(LeWord(lo, hi)) == (OddBits(Widen(lo)) != OddBits(Widen(hi)))
  {}

  lemma WidenLinear(a: bv8, b: bv8)
    ensures Widen(Xor8(a, b)) == Xor(Widen(a), Widen(b))
  {}

  lemma ByteFlips(a: bv8, b: bv8)
    ensures PopCount(Xor8(a, b)) % 2 == 1 <==> OddBits(Widen(a)) != OddBits(Widen(b))
  {
    hide PopCount, OddBits, Widen, Xor8, Xor;
    PopCountParity(Xor8(a, b));
    WidenLinear(a, b);
    OddBitsLinear(Widen(a), Widen(b));
  }

  lemma TwoFlips(a: bv8, b: bv8, c: bv8, d: bv8)
    ensures FlippedBits(Difference([a, b], [c, d])) == PopCount(Xor8(a, c)) + PopCount(Xor8(b, d))
  {
    hide PopCount, Xor8;
    var e := Difference([a, b], [c, d]);
    assert e == [Xor8(a, c), Xor8(b, d)];
    var rest := e[1..];
    assert rest == [Xor8(b, d)] && rest[1..] == [];
    assert FlippedBits(rest) == PopCount(rest[0]) + FlippedBits(rest[1..]);
    assert FlippedBits(e) == PopCount(e[0]) + FlippedBits(rest);
  }

  /** Flips in the covered bytes show in the parity of the checksum. */
  lemma CoveredFlips(crc: bv16, s: seq<bv8>, t: seq<bv8>, extra: bv8)
    requires |s| == |t|
    ensures FlippedBits(Difference(s, t)) % 2 == 1
       <==> OddBits(Update(Feed(crc, s), extra)) != OddBits(Update(Feed(crc, t), extra))
  {
    hide OddBits, Update, Feed, FlippedBits, Widen, Xor, Xor8;
    UpdateParity(Feed(crc, s), extra);
    UpdateParity(Feed(crc, t), extra);
    OddBitsLinear(Feed(crc, s), Feed(crc, t));
    FeedLinear(crc, crc, s, t);
    XorIsZero(crc, crc);
    FeedParity(0, Difference(s, t));
    ZeroIsEven();
  }

  /**
   Two messages that both carry their checksum, seed mixed in, differ in an even number of
   bits, those of the checksum included.
   */
  lemma ValidDifferEvenly(crc: bv16, s: seq<bv8>, t: seq<bv8>, extra: bv8, a: bv8, b: bv8, c: bv8, d: bv8)
    requires |s| == |t|
    requires Update(Feed(crc, s), extra) == LeWord(a, b) && Update(Feed(crc, t), extra) == LeWord(c, d)
    ensures FlippedBits(Difference(s + [a, b], t + [c, d])) % 2 == 0
  {
    hide OddBits, Update, Feed, FlippedBits, Widen, Xor8, PopCount, LeWord, Difference;
    DifferenceConcat(s, [a, b], t, [c, d]);
    FlippedConcat(Difference(s, t), Difference([a, b], [c, d]));
    TwoFlips(a, b, c, d);
    ByteFlips(a, c);
    ByteFlips(b, d);
    WordParity(a, b);
    WordParity(c, d);
    CoveredFlips(crc, s, t, extra);
  }

  /** Once two registers differ, the same further bytes never bring them together. */
  lemma SuffixKeepsDifference(c: bv16, d: bv16, s: seq<bv8>)
    ensures Feed(c, s) == Feed(d, s) <==> c == d
  {
    hide Feed, Xor, Xor8;
    FeedLinear(c, d, s, s);
    forall j | 0 <= j < |s|
      ensures Difference(s, s)[j] == 0
    {
      Xor8IsZero(s[j], s[j]);
    }
    ZeroRunKeepsZero(Xor(c, d), Difference(s, s));
    XorIsZero(c, d);
    XorIsZero(Feed(c, s), Feed(d, s));
  }
}
