/**
 MAVLink wire-format types and constants (src/mavlink/frame.rs,
 src/mavlink/msgid_table.rs).
 */
module Frame {

  datatype Option<+T> = None | Some(value: T)

  type Bytes = seq<bv8>

  /** Wire protocol version; also which start byte the framer is aligned on. */
  datatype Version = V1 | V2

  const STX_V1: bv8 := 0xFE
  const STX_V2: bv8 := 0xFD
  const V2_IFLAG_SIGNED: bv8 := 0x01
  const V2_SIGNATURE_LEN: nat := 13
  const V1_HEADER_LEN: nat := 6
  const V2_HEADER_LEN: nat := 10
  const CRC_LEN: nat := 2

  function StxOf(b: bv8): Option<Version> {
    if b == STX_V1 then Some(V1) else if b == STX_V2 then Some(V2) else None
  }

  function HeaderLen(version: Version): nat {
    match version
    case V1 => V1_HEADER_LEN
    case V2 => V2_HEADER_LEN
  }

  datatype NodeId = NodeId(sys: bv8, comp: bv8)

  datatype ParsedHeader = ParsedHeader(
    version: Version,
    source: NodeId,
    msgid: bv32,
    seqno: bv8,
    payloadLen: bv8,
    targetSystem: Option<bv8>,
    targetComponent: Option<bv8>)

  /** One row of the build-time message table. */
  datatype MsgEntry = MsgEntry(crcExtra: bv8, targetSysOffset: Option<bv8>, targetCompOffset: Option<bv8>)

  /** The strictly sorted table, as the partial map its binary search computes. */
  type MsgTable = map<bv32, MsgEntry>

  function Lookup(table: MsgTable, msgid: bv32): Option<MsgEntry> {
    if msgid in table then Some(table[msgid]) else None
  }

  function LeWord(lo: bv8, hi: bv8): bv16 {
    (lo as bv16) | ((hi as bv16) << 8)
  }

  function LowByte(w: bv16): bv8 { (w & 0xFF) as bv8 }
  function HighByte(w: bv16): bv8 { (w >> 8) as bv8 }

  lemma WordRoundTrip(w: bv16, lo: bv8, hi: bv8)
    ensures LeWord(LowByte(w), HighByte(w)) == w
    ensures LowByte(LeWord(lo, hi)) == lo && HighByte(LeWord(lo, hi)) == hi
  {}

  /** The 24-bit little-endian message id. */
  function LeMsgId(m0: bv8, m1: bv8, m2: bv8): bv32 {
    (m0 as bv32) | ((m1 as bv32) << 8) | ((m2 as bv32) << 16)
  }

  function MsgIdByte0(m: bv32): bv8 { (m & 0xFF) as bv8 }
  function MsgIdByte1(m: bv32): bv8 { ((m >> 8) & 0xFF) as bv8 }
  function MsgIdByte2(m: bv32): bv8 { ((m >> 16) & 0xFF) as bv8 }

  lemma MsgIdRoundTrip(m: bv32, m0: bv8, m1: bv8, m2: bv8)
    ensures m <= 0xFF_FFFF ==> LeMsgId(MsgIdByte0(m), MsgIdByte1(m), MsgIdByte2(m)) == m
    ensures LeMsgId(m0, m1, m2) <= 0xFF_FFFF
    ensures MsgIdByte0(LeMsgId(m0, m1, m2)) == m0
    ensures MsgIdByte1(LeMsgId(m0, m1, m2)) == m1
    ensures MsgIdByte2(LeMsgId(m0, m1, m2)) == m2
  {}
}
