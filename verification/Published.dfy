/**
 Seeds and layout of published messages (build_support/crc_extra.rs, build.rs): PING of the
 common dialect has seed 237 and its targets at offsets 12 and 13; AUTH_KEY, an array alone,
 has seed 119.  The encoding of names is any function that encodes their ASCII words as they
 are.
 */
module Published {
  import opened Frame
  import opened Layout
  import Crc

  ghost predicate EncodesAscii(utf8: string -> Bytes) {
    && utf8("PING") == [0x50, 0x49, 0x4E, 0x47]
    && utf8("uint64_t") == [0x75, 0x69, 0x6E, 0x74, 0x36, 0x34, 0x5F, 0x74]
    && utf8("time_usec") == [0x74, 0x69, 0x6D, 0x65, 0x5F, 0x75, 0x73, 0x65, 0x63]
    && utf8("uint32_t") == [0x75, 0x69, 0x6E, 0x74, 0x33, 0x32, 0x5F, 0x74]
    && utf8("seq") == [0x73, 0x65, 0x71]
    && utf8("uint8_t") == [0x75, 0x69, 0x6E, 0x74, 0x38, 0x5F, 0x74]
    && utf8("target_system") == [0x74, 0x61, 0x72, 0x67, 0x65, 0x74, 0x5F, 0x73, 0x79, 0x73, 0x74, 0x65, 0x6D]
    && utf8("target_component")
         == [0x74, 0x61, 0x72, 0x67, 0x65, 0x74, 0x5F, 0x63, 0x6F, 0x6D, 0x70, 0x6F, 0x6E, 0x65, 0x6E, 0x74]
    && utf8("AUTH_KEY") == [0x41, 0x55, 0x54, 0x48, 0x5F, 0x4B, 0x45, 0x59]
    && utf8("char") == [0x63, 0x68, 0x61, 0x72]
    && utf8("key") == [0x6B, 0x65, 0x79]
  }

  const TIME := Field("time_usec", "uint64_t", 0, false)
  const SEQ := Field("seq", "uint32_t", 0, false)
  const SYSTEM := Field("target_system", "uint8_t", 0, false)
  const COMPONENT := Field("target_component", "uint8_t", 0, false)

  function Ping(): seq<Field> {
    [TIME, SEQ, SYSTEM, COMPONENT]
  }

  // ---------- The seed ----------

  // The checksum of the text, a few letters at a time.

  lemma Word0()
    ensures Crc.Feed(0xFFFF, [0x50, 0x49, 0x4E, 0x47, 0x20]) == 0x963F
  {}

  lemma Word1()
    ensures Crc.Feed(0x963F, [0x75, 0x69, 0x6E, 0x74, 0x36, 0x34, 0x5F, 0x74, 0x20]) == 0xA9A6
  {}

  lemma Word2()
    ensures Crc.Feed(0xA9A6, [0x74, 0x69, 0x6D, 0x65, 0x5F]) == 0x99CB
  {}

  lemma Word3()
    ensures Crc.Feed(0x99CB, [0x75, 0x73, 0x65, 0x63, 0x20]) == 0x05D7
  {}

  lemma Word4()
    ensures Crc.Feed(0x05D7, [0x75, 0x69, 0x6E, 0x74, 0x33, 0x32, 0x5F, 0x74, 0x20]) == 0x7465
  {}

  lemma Word5()
    ensures Crc.Feed(0x7465, [0x73, 0x65, 0x71, 0x20]) == 0x9F6C
  {}

  lemma Word6()
    ensures Crc.Feed(0x9F6C, [0x75, 0x69, 0x6E, 0x74, 0x38, 0x5F, 0x74, 0x20, 0x74]) == 0x78B7
  {}

  lemma Word7()
    ensures Crc.Feed(0x78B7, [0x61, 0x72, 0x67, 0x65, 0x74, 0x5F, 0x73, 0x79, 0x73]) == 0xF937
  {}

  lemma Word8()
    ensures Crc.Feed(0xF937, [0x74, 0x65, 0x6D, 0x20]) == 0xEB8F
  {}

  lemma Word9()
    ensures Crc.Feed(0xEB8F, [0x75, 0x69, 0x6E, 0x74, 0x38, 0x5F, 0x74, 0x20, 0x74]) == 0xE59A
  {}

  lemma Word10()
    ensures Crc.Feed(0xE59A, [0x61, 0x72, 0x67, 0x65, 0x74, 0x5F, 0x63, 0x6F, 0x6D]) == 0x94B0
  {}

  lemma Word11()
    ensures Crc.Feed(0x94B0, [0x70, 0x6F, 0x6E, 0x65, 0x6E, 0x74, 0x20]) == 0x38D5
  {}

  lemma FeedTwo(c: bv16, a: Bytes, b: Bytes, m: bv16, n: bv16)
    requires Crc.Feed(c, a) == m && Crc.Feed(m, b) == n
    ensures Crc.Feed(c, a + b) == n
  {
    hide Crc.Feed;
    Crc.FeedConcat(c, a, b);
  }

  lemma TimeFeeds(utf8: string -> Bytes)
    requires EncodesAscii(utf8)
    ensures Crc.Feed(0x963F, FieldBytes(utf8, TIME)) == 0x05D7
  {
    hide Crc.Feed;
    var a: Bytes := [0x75, 0x69, 0x6E, 0x74, 0x36, 0x34, 0x5F, 0x74, 0x20];
    var b: Bytes := [0x74, 0x69, 0x6D, 0x65, 0x5F];
    var d: Bytes := [0x75, 0x73, 0x65, 0x63, 0x20];
    Word1();
    Word2();
    Word3();
    FeedTwo(0x963F, a, b, 0xA9A6, 0x99CB);
    FeedTwo(0x963F, a + b, d, 0x99CB, 0x05D7);
    assert FieldBytes(utf8, TIME) == a + b + d;
  }

  lemma SeqFeeds(utf8: string -> Bytes)
    requires EncodesAscii(utf8)
    ensures Crc.Feed(0x05D7, FieldBytes(utf8, SEQ)) == 0x9F6C
  {
    hide Crc.Feed;
    var a: Bytes := [0x75, 0x69, 0x6E, 0x74, 0x33, 0x32, 0x5F, 0x74, 0x20];
    var b: Bytes := [0x73, 0x65, 0x71, 0x20];
    Word4();
    Word5();
    FeedTwo(0x05D7, a, b, 0x7465, 0x9F6C);
    assert FieldBytes(utf8, SEQ) == a + b;
  }

  lemma SystemFeeds(utf8: string -> Bytes)
    requires EncodesAscii(utf8)
    ensures Crc.Feed(0x9F6C, FieldBytes(utf8, SYSTEM)) == 0xEB8F
  {
    hide Crc.Feed;
    var a: Bytes := [0x75, 0x69, 0x6E, 0x74, 0x38, 0x5F, 0x74, 0x20, 0x74];
    var b: Bytes := [0x61, 0x72, 0x67, 0x65, 0x74, 0x5F, 0x73, 0x79, 0x73];
    var d: Bytes := [0x74, 0x65, 0x6D, 0x20];
    Word6();
    Word7();
    Word8();
    FeedTwo(0x9F6C, a, b, 0x78B7, 0xF937);
    FeedTwo(0x9F6C, a + b, d, 0xF937, 0xEB8F);
    assert FieldBytes(utf8, SYSTEM) == a + b + d;
  }

  lemma ComponentFeeds(utf8: string -> Bytes)
    requires EncodesAscii(utf8)
    ensures Crc.Feed(0xEB8F, FieldBytes(utf8, COMPONENT)) == 0x38D5
  {
    hide Crc.Feed;
    var a: Bytes := [0x75, 0x69, 0x6E, 0x74, 0x38, 0x5F, 0x74, 0x20, 0x74];
    var b: Bytes := [0x61, 0x72, 0x67, 0x65, 0x74, 0x5F, 0x63, 0x6F, 0x6D];
    var d: Bytes := [0x70, 0x6F, 0x6E, 0x65, 0x6E, 0x74, 0x20];
    Word9();
    Word10();
    Word11();
    FeedTwo(0xEB8F, a, b, 0xE59A, 0x94B0);
    FeedTwo(0xEB8F, a + b, d, 0x94B0, 0x38D5);
    assert FieldBytes(utf8, COMPONENT) == a + b + d;
  }

  lemma FirstFeeds(utf8: string -> Bytes, f: Field, rest: seq<Field>, c: bv16, m: bv16, n: bv16)
    requires Crc.Feed(c, FieldBytes(utf8, f)) == m && Crc.Feed(m, FieldsBytes(utf8, rest)) == n
    ensures Crc.Feed(c, FieldsBytes(utf8, [f] + rest)) == n
  {
    hide Crc.Feed, FieldBytes;
    assert ([f] + rest)[1..] == rest;
    FeedTwo(c, FieldBytes(utf8, f), FieldsBytes(utf8, rest), m, n);
  }

  lemma NothingLeft(utf8: string -> Bytes, c: bv16)
    ensures Crc.Feed(c, FieldsBytes(utf8, [])) == c
  {}

  lemma FieldsFeed(utf8: string -> Bytes)
    requires EncodesAscii(utf8)
    ensures Crc.Feed(0x963F, FieldsBytes(utf8, Ping())) == 0x38D5
  {
    hide Crc.Feed, FieldBytes, FieldsBytes, EncodesAscii, TIME, SEQ, SYSTEM, COMPONENT;
    NothingLeft(utf8, 0x38D5);
    ComponentFeeds(utf8);
    FirstFeeds(utf8, COMPONENT, [], 0xEB8F, 0x38D5, 0x38D5);
    SystemFeeds(utf8);
    FirstFeeds(utf8, SYSTEM, [COMPONENT] + [], 0x9F6C, 0xEB8F, 0x38D5);
    SeqFeeds(utf8);
    FirstFeeds(utf8, SEQ, [SYSTEM] + ([COMPONENT] + []), 0x05D7, 0x9F6C, 0x38D5);
    TimeFeeds(utf8);
    FirstFeeds(utf8, TIME, [SEQ] + ([SYSTEM] + ([COMPONENT] + [])), 0x963F, 0x05D7, 0x38D5);
    assert Ping() == [TIME] + ([SEQ] + ([SYSTEM] + ([COMPONENT] + [])));
  }

  /** Declared as it is sent, PING is its own wire order. */
  lemma PingIsOrdered()
    ensures AllKnown(Ping()) && Base(Ping()) == Ping() && WireOrder(Base(Ping())) == Ping()
  {
    hide WireOrder, Base;
    PingSizes();
    hide TypeSize, SizeOf, Known;
    DescendingIsWireOrder(Ping());
    BaseOfPair(TIME, SEQ);
    BaseOfPair(SYSTEM, COMPONENT);
    assert Ping() == [TIME, SEQ] + [SYSTEM, COMPONENT];
    BaseConcat([TIME, SEQ], [SYSTEM, COMPONENT]);
  }

  lemma PingSizes()
    ensures Known(TIME) && Known(SEQ) && Known(SYSTEM) && Known(COMPONENT)
    ensures SizeOf(TIME) == 8 && SizeOf(SEQ) == 4 && SizeOf(SYSTEM) == 1 && SizeOf(COMPONENT) == 1
  {}

  /** PING has seed 237. */
  lemma PingSeed(utf8: string -> Bytes)
    requires EncodesAscii(utf8)
    ensures Seed(utf8, "PING", WireOrder(Base(Ping()))) == 237
  {
    hide Crc.Feed, FieldsBytes, WireOrder, Base, Ping;
    PingIsOrdered();
    FieldsFeed(utf8);
    Word0();
    assert utf8("PING") + [0x20] == [0x50, 0x49, 0x4E, 0x47, 0x20];
    FeedTwo(0xFFFF, utf8("PING") + [0x20], FieldsBytes(utf8, Ping()), 0x963F, 0x38D5);
  }

  // ---------- The layout ----------

  lemma PingAt()
    ensures AllKnown(Ping())
    ensures Offset(Ping(), 0) == 0 && Offset(Ping(), 1) == 8 && Offset(Ping(), 2) == 12
    ensures Offset(Ping(), 3) == 13 && Offset(Ping(), 4) == 14
  {
    PingSizes();
    hide TypeSize, SizeOf, Known;
  }

  lemma PingTargets()
    ensures LastTarget(Ping(), 4, "target_system", 2) && LastTarget(Ping(), 4, "target_component", 3)
  {
    assert |"target_system"| == 13 && |"target_component"| == 16;
  }

  /** PING is laid out with its targets at offsets 12 and 13. */
  lemma PingOffsets()
    ensures OffsetsAre(Ping(), Some((Some(12), Some(13))))
  {
    hide TypeSize, WireOrder, Base, Offset, LastTarget, Known, IsTarget, ScalarU8, TIME, SEQ, SYSTEM, COMPONENT;
    PingIsOrdered();
    PingAt();
    PingTargets();
    assert |Ping()| == 4;
  }

  // ---------- An array ----------

  const KEY := Field("key", "char", 32, false)

  lemma KeyWord0()
    ensures Crc.Feed(0xFFFF, [0x41, 0x55, 0x54, 0x48, 0x5F, 0x4B, 0x45, 0x59, 0x20]) == 0xA144
  {}

  lemma KeyWord1()
    ensures Crc.Feed(0xA144, [0x63, 0x68, 0x61, 0x72, 0x20, 0x6B, 0x65, 0x79, 0x20]) == 0xE982
  {}

  lemma KeyWord2()
    ensures Crc.Feed(0xE982, [0x20]) == 0x86F1
  {}

  lemma KeyFeeds(utf8: string -> Bytes)
    requires EncodesAscii(utf8)
    ensures Crc.Feed(0xA144, FieldsBytes(utf8, [KEY])) == 0x86F1
  {
    hide Crc.Feed;
    var a: Bytes := [0x63, 0x68, 0x61, 0x72, 0x20, 0x6B, 0x65, 0x79, 0x20];
    var b: Bytes := [0x20];
    KeyWord1();
    KeyWord2();
    FeedTwo(0xA144, a, b, 0xE982, 0x86F1);
    assert FieldBytes(utf8, KEY) == a + b;
    hide FieldBytes, KEY;
    NothingLeft(utf8, 0x86F1);
    FirstFeeds(utf8, KEY, [], 0xA144, 0x86F1, 0x86F1);
    assert [KEY] + [] == [KEY];
  }

  lemma KeyIsOrdered()
    ensures AllKnown([KEY]) && Base([KEY]) == [KEY] && WireOrder(Base([KEY])) == [KEY] && Offset([KEY], 1) == 32
  {
    assert Known(KEY) && SizeOf(KEY) == 1 && Count(KEY) == 32;
    hide TypeSize, WireOrder;
    DescendingIsWireOrder([KEY]);
    assert Base([KEY]) == [KEY];
  }

  /** AUTH_KEY, an array of 32 bytes and nothing else, has seed 119. */
  lemma KeySeed(utf8: string -> Bytes)
    requires EncodesAscii(utf8)
    ensures Seed(utf8, "AUTH_KEY", WireOrder(Base([KEY]))) == 119
  {
    hide Crc.Feed, FieldsBytes, WireOrder, Base, KEY;
    KeyIsOrdered();
    KeyFeeds(utf8);
    KeyWord0();
    assert utf8("AUTH_KEY") + [0x20] == [0x41, 0x55, 0x54, 0x48, 0x5F, 0x4B, 0x45, 0x59, 0x20];
    FeedTwo(0xFFFF, utf8("AUTH_KEY") + [0x20], FieldsBytes(utf8, [KEY]), 0xA144, 0x86F1);
  }
}
