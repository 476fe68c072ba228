/**
 CRC-16/MCRF4XX, the MAVLink frame checksum (src/mavlink/crc.rs).

 The byte update is written with named word operators (`Xor`, `Shl8`, ...), one per
 operator of the source expression.  Each of them is linear over exclusive-or, so the
 update is, and everything below follows from that: agreement with the bit-serial
 definition of the checksum, detection of every burst of at most 16 bits, and detection
 of every error that flips an odd number of bits.
 */
module Crc {

  const CRC_INIT: bv16 := 0xFFFF

  // ---------- Word operators ----------

  function Xor8(a: bv8, b: bv8): bv8 { a ^ b }
  function Xor(a: bv16, b: bv16): bv16 { a ^ b }
  function Low(c: bv16): bv8 { (c & 0xFF) as bv8 }
  function Fold(x: bv8): bv16 { (x ^ (x << 4)) as bv16 }
  function Shl8(t: bv16): bv16 { t << 8 }
  function Shl3(t: bv16): bv16 { t << 3 }
  function Shr4(t: bv16): bv16 { t >> 4 }
  function Shr8(t: bv16): bv16 { t >> 8 }

  // ---------- The checksum ----------

  /** The terms of the byte update that depend on the folded byte. */
  function Spread(t: bv16): bv16 {
    Xor(Xor(Shl8(t), Shl3(t)), Shr4(t))
  }

  /** The branch-free byte update. */
  function Update(crc: bv16, b: bv8): bv16 {
    Xor(Shr8(crc), Spread(Fold(Xor8(b, Low(crc)))))
  }

  /** The checksum state after a run of bytes. */
  function Feed(crc: bv16, bytes: seq<bv8>): bv16
    decreases bytes
  {
    if bytes == [] then crc else Feed(Update(crc, bytes[0]), bytes[1..])
  }

  /** The streaming accumulator. */
  class Crc16 {
    var value: bv16

    constructor ()
      ensures value == CRC_INIT
    {
      value := CRC_INIT;
    }

    method UpdateByte(b: bv8)
      modifies this
      ensures value == Update(old(value), b)
    {
      value := Update(value, b);
    }

    method UpdateSlice(bytes: seq<bv8>)
      modifies this
      ensures value == Feed(old(value), bytes)
    {
      for i := 0 to |bytes|
        invariant Feed(value, bytes[i..]) == Feed(old(value), bytes)
      {
        UpdateByte(bytes[i]);
      }
    }
  }

  lemma {:induction false} FeedConcat(crc: bv16, s: seq<bv8>, t: seq<bv8>)
    ensures Feed(crc, s + t) == Feed(Feed(crc, s), t)
    decreases s
  {
    hide Update;
    if s == [] {
      assert s + t == t;
    } else {
      assert (s + t)[1..] == s[1..] + t;
      FeedConcat(Update(crc, s[0]), s[1..], t);
    }
  }

  // ---------- Linearity ----------

  lemma FoldLinear(x: bv8, y: bv8)
    ensures Fold(Xor8(x, y)) == Xor(Fold(x), Fold(y))
  {}

  lemma LowLinear(x: bv16, y: bv16)
    ensures Low(Xor(x, y)) == Xor8(Low(x), Low(y))
  {}

  lemma Shl8Linear(x: bv16, y: bv16)
    ensures Shl8(Xor(x, y)) == Xor(Shl8(x), Shl8(y))
  {}

  lemma Shl3Linear(x: bv16, y: bv16)
    ensures Shl3(Xor(x, y)) == Xor(Shl3(x), Shl3(y))
  {}

  lemma Shr4Linear(x: bv16, y: bv16)
    ensures Shr4(Xor(x, y)) == Xor(Shr4(x), Shr4(y))
  {}

  lemma Shr8Linear(x: bv16, y: bv16)
    ensures Shr8(Xor(x, y)) == Xor(Shr8(x), Shr8(y))
  {}

  lemma Assoc8(a: bv8, b: bv8, c: bv8)
    ensures Xor8(Xor8(a, b), c) == Xor8(a, Xor8(b, c))
  {}

  lemma Comm8(a: bv8, b: bv8)
    ensures Xor8(a, b) == Xor8(b, a)
  {}

  lemma Swap8(a: bv8, b: bv8, c: bv8, d: bv8)
    ensures Xor8(Xor8(a, b), Xor8(c, d)) == Xor8(Xor8(a, c), Xor8(b, d))
  {
    hide *;
    Assoc8(a, b, Xor8(c, d));
    Assoc8(b, c, d);
    Comm8(b, c);
    Assoc8(c, b, d);
    Assoc8(a, c, Xor8(b, d));
  }

  lemma Assoc(a: bv16, b: bv16, c: bv16)
    ensures Xor(Xor(a, b), c) == Xor(a, Xor(b, c))
  {}

  lemma Comm(a: bv16, b: bv16)
    ensures Xor(a, b) == Xor(b, a)
  {}

  lemma Swap(a: bv16, b: bv16, c: bv16, d: bv16)
    ensures Xor(Xor(a, b), Xor(c, d)) == Xor(Xor(a, c), Xor(b, d))
  {
    hide *;
    Assoc(a, b, Xor(c, d));
    Assoc(b, c, d);
    Comm(b, c);
    Assoc(c, b, d);
    Assoc(a, c, Xor(b, d));
  }

  lemma SpreadUnfold(t: bv16)
    ensures Spread(t) == Xor(Xor(Shl8(t), Shl3(t)), Shr4(t))
  {
    hide Xor, Shl8, Shl3, Shr4;
  }

  lemma SpreadLinear(x: bv16, y: bv16)
    ensures Spread(Xor(x, y)) == Xor(Spread(x), Spread(y))
  {
    hide *;
    SpreadUnfold(x);
    SpreadUnfold(y);
    SpreadUnfold(Xor(x, y));
    Shl8Linear(x, y);
    Shl3Linear(x, y);
    Shr4Linear(x, y);
    Swap(Shl8(x), Shl8(y), Shl3(x), Shl3(y));
    Swap(Xor(Shl8(x), Shl3(x)), Xor(Shl8(y), Shl3(y)), Shr4(x), Shr4(y));
  }

  lemma UpdateUnfold(c: bv16, b: bv8)
    ensures Update(c, b) == Xor(Shr8(c), Spread(Fold(Xor8(b, Low(c)))))
  {
    hide Xor, Shr8, Spread, Fold, Xor8, Low;
  }

  /** The byte update is linear in the state and the byte together. */
  lemma UpdateLinear(c: bv16, d: bv16, a: bv8, b: bv8)
    ensures Update(Xor(c, d), Xor8(a, b)) == Xor(Update(c, a), Update(d, b))
  {
    hide *;
    UpdateUnfold(c, a);
    UpdateUnfold(d, b);
    UpdateUnfold(Xor(c, d), Xor8(a, b));
    LowLinear(c, d);
    Swap8(a, b, Low(c), Low(d));
    var x, y := Xor8(a, Low(c)), Xor8(b, Low(d));
    FoldLinear(x, y);
    SpreadLinear(Fold(x), Fold(y));
    Shr8Linear(c, d);
    Swap(Shr8(c), Shr8(d), Spread(Fold(x)), Spread(Fold(y)));
  }

  // ---------- Bit-serial reference ----------

  /** One step of the reflected polynomial 0x8408 (x^16 + x^12 + x^5 + 1). */
  function BitStep(crc: bv16): bv16 {
    if crc & 1 == 1 then (crc >> 1) ^ 0x8408 else crc >> 1
  }

  function FourSteps(c: bv16): bv16 {
    BitStep(BitStep(BitStep(BitStep(c))))
  }

  /** The textbook definition: xor the byte in, then eight single-bit steps. */
  function BitSerial(crc: bv16, b: bv8): bv16 {
    FourSteps(FourSteps(crc ^ (b as bv16)))
  }

  // Both updates are linear, so it is enough to compare them on the parts of a word.

  function Shr1(c: bv16): bv16 { c >> 1 }
  function Bit(c: bv16): bool { c & 1 != 0 }

  lemma BitStepUnfold(c: bv16)
    ensures BitStep(c) == if Bit(c) then Xor(Shr1(c), 0x8408) else Shr1(c)
  {}

  lemma BitLinear(x: bv16, y: bv16)
    ensures Bit(Xor(x, y)) == (Bit(x) != Bit(y))
  {}

  lemma Shr1Linear(x: bv16, y: bv16)
    ensures Shr1(Xor(x, y)) == Xor(Shr1(x), Shr1(y))
  {}

  lemma XorWith(a: bv16, b: bv16, k: bv16)
    ensures Xor(Xor(a, k), b) == Xor(Xor(a, b), k)
    ensures Xor(a, Xor(b, k)) == Xor(Xor(a, b), k)
    ensures Xor(Xor(a, k), Xor(b, k)) == Xor(a, b)
  {}

  lemma BitStepLinear(x: bv16, y: bv16)
    ensures BitStep(Xor(x, y)) == Xor(BitStep(x), BitStep(y))
  {
    hide *;
    BitStepUnfold(x);
    BitStepUnfold(y);
    BitStepUnfold(Xor(x, y));
    BitLinear(x, y);
    Shr1Linear(x, y);
    XorWith(Shr1(x), Shr1(y), 0x8408);
  }

  lemma FourStepsLinear(x: bv16, y: bv16)
    ensures FourSteps(Xor(x, y)) == Xor(FourSteps(x), FourSteps(y))
  {
    hide BitStep, Xor;
    var x1, y1 := BitStep(x), BitStep(y);
    var x2, y2 := BitStep(x1), BitStep(y1);
    BitStepLinear(x, y);
    BitStepLinear(x1, y1);
    BitStepLinear(x2, y2);
    BitStepLinear(BitStep(x2), BitStep(y2));
  }

  function Eight(c: bv16): bv16 {
    FourSteps(FourSteps(c))
  }

  lemma EightLinear(x: bv16, y: bv16)
    ensures Eight(Xor(x, y)) == Xor(Eight(x), Eight(y))
  {
    hide FourSteps, Xor;
    FourStepsLinear(x, y);
    FourStepsLinear(FourSteps(x), FourSteps(y));
  }

  /** The parts of a word: the high byte and the two nibbles of the low one. */
  function Hi(c: bv16): bv16 { c & 0xFF00 }
  function Mid(c: bv16): bv16 { c & 0xF0 }
  function Lo(c: bv16): bv16 { c & 0xF }

  lemma Parts(c: bv16)
    ensures c == Xor(Xor(Hi(c), Mid(c)), Lo(c))
  {}

  lemma ClearNibble(h: bv16)
    requires Lo(h) == 0
    ensures !Bit(h) && !Bit(Shr1(h)) && !Bit(Shr1(Shr1(h))) && !Bit(Shr1(Shr1(Shr1(h))))
    ensures Shr1(Shr1(Shr1(Shr1(h)))) == Shr4(h)
  {}

  lemma FourShifts(h: bv16)
    requires Lo(h) == 0
    ensures FourSteps(h) == Shr4(h)
  {
    hide Bit, Shr1, Shr4, Lo, BitStep;
    ClearNibble(h);
    BitStepUnfold(h);
    BitStepUnfold(Shr1(h));
    BitStepUnfold(Shr1(Shr1(h)));
    BitStepUnfold(Shr1(Shr1(Shr1(h))));
  }

  lemma HighByteShifts(c: bv16)
    ensures Lo(Hi(c)) == 0 && Lo(Shr4(Hi(c))) == 0 && Shr4(Shr4(Hi(c))) == Shr8(Hi(c))
  {}

  lemma HighByteUpdate(c: bv16)
    ensures Update(Hi(c), 0) == Shr8(Hi(c))
  {
    assert Xor8(0, Low(Hi(c))) == 0;
    assert Fold(0) == 0 && Spread(0) == 0;
  }

  lemma HighAgrees(c: bv16)
    ensures Update(Hi(c), 0) == Eight(Hi(c))
  {
    hide Update, FourSteps, Hi, Lo, Shr4, Shr8;
    HighByteShifts(c);
    HighByteUpdate(c);
    FourShifts(Hi(c));
    FourShifts(Shr4(Hi(c)));
  }

  lemma LowNibbleAgrees(v: bv16)
    requires v < 0x10
    ensures Update(v, 0) == Eight(v)
  {
    if v == 0x0 {
      assert Update(0x0, 0) == Eight(0x0);
    } else if v == 0x1 {
      assert Update(0x1, 0) == Eight(0x1);
    } else if v == 0x2 {
      assert Update(0x2, 0) == Eight(0x2);
    } else if v == 0x3 {
      assert Update(0x3, 0) == Eight(0x3);
    } else if v == 0x4 {
      assert Update(0x4, 0) == Eight(0x4);
    } else if v == 0x5 {
      assert Update(0x5, 0) == Eight(0x5);
    } else if v == 0x6 {
      assert Update(0x6, 0) == Eight(0x6);
    } else if v == 0x7 {
      assert Update(0x7, 0) == Eight(0x7);
    } else if v == 0x8 {
      assert Update(0x8, 0) == Eight(0x8);
    } else if v == 0x9 {
      assert Update(0x9, 0) == Eight(0x9);
    } else if v == 0xA {
      assert Update(0xA, 0) == Eight(0xA);
    } else if v == 0xB {
      assert Update(0xB, 0) == Eight(0xB);
    } else if v == 0xC {
      assert Update(0xC, 0) == Eight(0xC);
    } else if v == 0xD {
      assert Update(0xD, 0) == Eight(0xD);
    } else if v == 0xE {
      assert Update(0xE, 0) == Eight(0xE);
    } else if v == 0xF {
      assert Update(0xF, 0) == Eight(0xF);
    }
  }

  lemma MidNibbleAgrees(v: bv16)
    requires Lo(v) == 0 && v < 0x100
    ensures Update(v, 0) == Eight(v)
  {
    if v == 0x0 {
      assert Update(0x0, 0) == Eight(0x0);
    } else if v == 0x10 {
      assert Update(0x10, 0) == Eight(0x10);
    } else if v == 0x20 {
      assert Update(0x20, 0) == Eight(0x20);
    } else if v == 0x30 {
      assert Update(0x30, 0) == Eight(0x30);
    } else if v == 0x40 {
      assert Update(0x40, 0) == Eight(0x40);
    } else if v == 0x50 {
      assert Update(0x50, 0) == Eight(0x50);
    } else if v == 0x60 {
      assert Update(0x60, 0) == Eight(0x60);
    } else if v == 0x70 {
      assert Update(0x70, 0) == Eight(0x70);
    } else if v == 0x80 {
      assert Update(0x80, 0) == Eight(0x80);
    } else if v == 0x90 {
      assert Update(0x90, 0) == Eight(0x90);
    } else if v == 0xA0 {
      assert Update(0xA0, 0) == Eight(0xA0);
    } else if v == 0xB0 {
      assert Update(0xB0, 0) == Eight(0xB0);
    } else if v == 0xC0 {
      assert Update(0xC0, 0) == Eight(0xC0);
    } else if v == 0xD0 {
      assert Update(0xD0, 0) == Eight(0xD0);
    } else if v == 0xE0 {
      assert Update(0xE0, 0) == Eight(0xE0);
    } else if v == 0xF0 {
      assert Update(0xF0, 0) == Eight(0xF0);
    }
  }

  lemma NibbleBounds(c: bv16)
    ensures Lo(c) < 0x10 && Mid(c) < 0x100 && Lo(Mid(c)) == 0
  {}

  /** A word with no byte folded in. */
  lemma WordAgrees(c: bv16)
    ensures Update(c, 0) == Eight(c)
  {
    hide Update, Eight, Hi, Mid, Lo, Xor, Xor8;
    Parts(c);
    NibbleBounds(c);
    HighAgrees(c);
    MidNibbleAgrees(Mid(c));
    LowNibbleAgrees(Lo(c));
    ZeroPlusZero();
    UpdateLinear(Xor(Hi(c), Mid(c)), Lo(c), 0, 0);
    UpdateLinear(Hi(c), Mid(c), 0, 0);
    EightLinear(Xor(Hi(c), Mid(c)), Lo(c));
    EightLinear(Hi(c), Mid(c));
  }

  lemma ZeroPlusZero()
    ensures Xor8(0, 0) == 0
  {}

  function Widen(b: bv8): bv16 { b as bv16 }

  /** Folding a byte in is the same as starting from a word that has it folded in. */
  lemma FoldedIn(b: bv8)
    ensures Xor8(b, Low(0)) == Xor8(0, Low(Widen(b))) && Shr8(0) == Shr8(Widen(b))
  {}

  lemma ByteAsWord(b: bv8)
    ensures Update(0, b) == Update(Widen(b), 0)
  {
    hide *;
    UpdateUnfold(0, b);
    UpdateUnfold(Widen(b), 0);
    FoldedIn(b);
  }

  lemma XorZero(c: bv16, b: bv8)
    ensures Xor(c, 0) == c && Xor8(0, b) == b
  {}

  lemma BitSerialOfWide(crc: bv16, b: bv8)
    ensures BitSerial(crc, b) == Eight(Xor(crc, Widen(b)))
  {
    hide FourSteps;
  }

  /** The branch-free update computes the bit-serial checksum step. */
  lemma UpdateIsBitSerial(crc: bv16, b: bv8)
    ensures Update(crc, b) == BitSerial(crc, b)
  {
    hide *;
    XorZero(crc, b);
    UpdateLinear(crc, 0, 0, b);
    WordAgrees(crc);
    ByteAsWord(b);
    WordAgrees(Widen(b));
    EightLinear(crc, Widen(b));
    BitSerialOfWide(crc, b);
  }

  /** The checksum by its definition: the bit-serial step over all bytes, from 0xFFFF. */
  function Reference(bytes: seq<bv8>): bv16 {
    if bytes == [] then 0xFFFF else BitSerial(Reference(bytes[..|bytes| - 1]), bytes[|bytes| - 1])
  }

  /** So streaming the branch-free update over any bytes computes that checksum. */
  lemma {:induction false} FeedIsReference(bytes: seq<bv8>)
    ensures Feed(CRC_INIT, bytes) == Reference(bytes)
  {
    hide Update, BitSerial;
    if bytes != [] {
      var n := |bytes| - 1;
      var init, last := bytes[..n], [bytes[n]];
      assert bytes == init + last;
      FeedConcat(CRC_INIT, init, last);
      FeedIsReference(init);
      assert last[1..] == [];
      UpdateIsBitSerial(Feed(CRC_INIT, init), bytes[n]);
    }
  }

  /** The published check value: the checksum of the digits "123456789". */
  lemma CheckValue()
    ensures Reference([0x31, 0x32, 0x33, 0x34, 0x35, 0x36, 0x37, 0x38, 0x39]) == 0x6F91
  {
    FeedIsReference([0x31, 0x32, 0x33, 0x34, 0x35, 0x36, 0x37, 0x38, 0x39]);
  }
}
