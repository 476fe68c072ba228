/**
 Filters and the per-destination routing decision (src/endpoint/filters.rs,
 src/router/decide.rs).
 */
module Deciding {
  import opened Frame
  import opened Framing
  import opened Encoding
  import opened Learning

  datatype MsgIdRange = MsgIdRange(lo: bv32, hi: bv32)
  datatype U8Range = U8Range(lo: bv8, hi: bv8)

  datatype Filters = Filters(
    allowMsgidIn: seq<MsgIdRange>, blockMsgidIn: seq<MsgIdRange>,
    allowMsgidOut: seq<MsgIdRange>, blockMsgidOut: seq<MsgIdRange>,
    allowSrcSysIn: seq<U8Range>, blockSrcSysIn: seq<U8Range>,
    allowSrcSysOut: seq<U8Range>, blockSrcSysOut: seq<U8Range>,
    allowSrcCompIn: seq<U8Range>, blockSrcCompIn: seq<U8Range>,
    allowSrcCompOut: seq<U8Range>, blockSrcCompOut: seq<U8Range>,
    allowSrcEndpointOut: seq<string>, blockSrcEndpointOut: seq<string>)

  // ---------- The axes ----------

  predicate CoversMsgid(r: MsgIdRange, value: bv32) {
    r.lo <= value <= r.hi
  }

  predicate CoversU8(r: U8Range, value: bv8) {
    r.lo <= value <= r.hi
  }

  predicate AnyMsgid(ranges: seq<MsgIdRange>, value: bv32) {
    ranges != [] && (CoversMsgid(ranges[0], value) || AnyMsgid(ranges[1..], value))
  }

  predicate AnyU8(ranges: seq<U8Range>, value: bv8) {
    ranges != [] && (CoversU8(ranges[0], value) || AnyU8(ranges[1..], value))
  }

  predicate AnyName(entries: seq<string>, name: string) {
    entries != [] && (entries[0] == name || AnyName(entries[1..], name))
  }

  predicate PassMsgidAxis(value: bv32, allow: seq<MsgIdRange>, block: seq<MsgIdRange>) {
    if allow != [] && !AnyMsgid(allow, value) then false else !AnyMsgid(block, value)
  }

  predicate PassU8Axis(value: bv8, allow: seq<U8Range>, block: seq<U8Range>) {
    if allow != [] && !AnyU8(allow, value) then false else !AnyU8(block, value)
  }

  predicate PassSrcEndpointAxis(name: string, allow: seq<string>, block: seq<string>) {
    if allow != [] && !AnyName(allow, name) then false else !AnyName(block, name)
  }

  predicate PassesOutFilter(f: Filters, msgid: bv32, src: NodeId, srcEndpointName: string) {
    && PassMsgidAxis(msgid, f.allowMsgidOut, f.blockMsgidOut)
    && PassU8Axis(src.sys, f.allowSrcSysOut, f.blockSrcSysOut)
    && PassU8Axis(src.comp, f.allowSrcCompOut, f.blockSrcCompOut)
    && PassSrcEndpointAxis(srcEndpointName, f.allowSrcEndpointOut, f.blockSrcEndpointOut)
  }

  // ---------- What the lists say ----------

  /** Some allow entry covers the value, or there is none, and no block entry covers it. */
  ghost predicate MsgidListed(value: bv32, allow: seq<MsgIdRange>, block: seq<MsgIdRange>) {
    && (allow == [] || exists i :: 0 <= i < |allow| && allow[i].lo <= value <= allow[i].hi)
    && (forall i :: 0 <= i < |block| ==> !(block[i].lo <= value <= block[i].hi))
  }

  ghost predicate U8Listed(value: bv8, allow: seq<U8Range>, block: seq<U8Range>) {
    && (allow == [] || exists i :: 0 <= i < |allow| && allow[i].lo <= value <= allow[i].hi)
    && (forall i :: 0 <= i < |block| ==> !(block[i].lo <= value <= block[i].hi))
  }

  ghost predicate NameListed(name: string, allow: seq<string>, block: seq<string>) {
    && (allow == [] || exists i :: 0 <= i < |allow| && allow[i] == name)
    && (forall i :: 0 <= i < |block| ==> block[i] != name)
  }

  /** What the six in-lists of an endpoint let through. */
  ghost predicate InListed(f: Filters, msgid: bv32, src: NodeId) {
    && MsgidListed(msgid, f.allowMsgidIn, f.blockMsgidIn)
    && U8Listed(src.sys, f.allowSrcSysIn, f.blockSrcSysIn)
    && U8Listed(src.comp, f.allowSrcCompIn, f.blockSrcCompIn)
  }

  /** What the eight out-lists of an endpoint let through. */
  ghost predicate OutListed(f: Filters, msgid: bv32, src: NodeId, srcEndpointName: string) {
    && MsgidListed(msgid, f.allowMsgidOut, f.blockMsgidOut)
    && U8Listed(src.sys, f.allowSrcSysOut, f.blockSrcSysOut)
    && U8Listed(src.comp, f.allowSrcCompOut, f.blockSrcCompOut)
    && NameListed(srcEndpointName, f.allowSrcEndpointOut, f.blockSrcEndpointOut)
  }

  lemma {:induction false} AnyMsgidIs(ranges: seq<MsgIdRange>, value: bv32)
    ensures AnyMsgid(ranges, value) <==> exists i :: 0 <= i < |ranges| && CoversMsgid(ranges[i], value)
  {
    hide CoversMsgid;
    if ranges != [] {
      AnyMsgidIs(ranges[1..], value);
      assert forall i :: 1 <= i < |ranges| ==> ranges[i] == ranges[1..][i - 1];
    }
  }

  lemma {:induction false} AnyU8Is(ranges: seq<U8Range>, value: bv8)
    ensures AnyU8(ranges, value) <==> exists i :: 0 <= i < |ranges| && CoversU8(ranges[i], value)
  {
    hide CoversU8;
    if ranges != [] {
      AnyU8Is(ranges[1..], value);
      assert forall i :: 1 <= i < |ranges| ==> ranges[i] == ranges[1..][i - 1];
    }
  }

  lemma {:induction false} AnyNameIs(entries: seq<string>, name: string)
    ensures AnyName(entries, name) <==> exists i :: 0 <= i < |entries| && entries[i] == name
  {
    if entries != [] {
      AnyNameIs(entries[1..], name);
      assert forall i :: 1 <= i < |entries| ==> entries[i] == entries[1..][i - 1];
    }
  }

  lemma MsgidAxisIs(value: bv32, allow: seq<MsgIdRange>, block: seq<MsgIdRange>)
    ensures PassMsgidAxis(value, allow, block) <==> MsgidListed(value, allow, block)
  {
    hide AnyMsgid;
    AnyMsgidIs(allow, value);
    AnyMsgidIs(block, value);
  }

  lemma U8AxisIs(value: bv8, allow: seq<U8Range>, block: seq<U8Range>)
    ensures PassU8Axis(value, allow, block) <==> U8Listed(value, allow, block)
  {
    hide AnyU8;
    AnyU8Is(allow, value);
    AnyU8Is(block, value);
  }

  lemma SrcEndpointAxisIs(name: string, allow: seq<string>, block: seq<string>)
    ensures PassSrcEndpointAxis(name, allow, block) <==> NameListed(name, allow, block)
  {
    hide AnyName;
    AnyNameIs(allow, name);
    AnyNameIs(block, name);
  }

  /** The out-filter decides by its lists. */
  lemma OutFilterIs(f: Filters, msgid: bv32, src: NodeId, srcEndpointName: string)
    ensures PassesOutFilter(f, msgid, src, srcEndpointName) <==> OutListed(f, msgid, src, srcEndpointName)
  {
    hide PassMsgidAxis, PassU8Axis, PassSrcEndpointAxis, MsgidListed, U8Listed, NameListed;
    MsgidAxisIs(msgid, f.allowMsgidOut, f.blockMsgidOut);
    U8AxisIs(src.sys, f.allowSrcSysOut, f.blockSrcSysOut);
    U8AxisIs(src.comp, f.allowSrcCompOut, f.blockSrcCompOut);
    SrcEndpointAxisIs(srcEndpointName, f.allowSrcEndpointOut, f.blockSrcEndpointOut);
  }

  // ---------- The filters as they run ----------

  method FindMsgid(ranges: seq<MsgIdRange>, value: bv32) returns (any: bool)
    ensures any == AnyMsgid(ranges, value)
  {
    hide CoversMsgid;
    any := false;
    for i := 0 to |ranges|
      invariant AnyMsgid(ranges, value) == AnyMsgid(ranges[i..], value)
    {
      if CoversMsgid(ranges[i], value) {
        return true;
      }
    }
  }

  method FindU8(ranges: seq<U8Range>, value: bv8) returns (any: bool)
    ensures any == AnyU8(ranges, value)
  {
    hide CoversU8;
    any := false;
    for i := 0 to |ranges|
      invariant AnyU8(ranges, value) == AnyU8(ranges[i..], value)
    {
      if CoversU8(ranges[i], value) {
        return true;
      }
    }
  }

  method FindName(entries: seq<string>, name: string) returns (any: bool)
    ensures any == AnyName(entries, name)
  {
    any := false;
    for i := 0 to |entries|
      invariant AnyName(entries, name) == AnyName(entries[i..], name)
    {
      if entries[i] == name {
        return true;
      }
    }
  }

  method CheckMsgidAxis(value: bv32, allow: seq<MsgIdRange>, block: seq<MsgIdRange>) returns (pass: bool)
    ensures pass <==> MsgidListed(value, allow, block)
  {
    hide AnyMsgid, MsgidListed;
    MsgidAxisIs(value, allow, block);
    if allow != [] {
      var allowed := FindMsgid(allow, value);
      if !allowed {
        return false;
      }
    }
    var blocked := FindMsgid(block, value);
    return !blocked;
  }

  method CheckU8Axis(value: bv8, allow: seq<U8Range>, block: seq<U8Range>) returns (pass: bool)
    ensures pass <==> U8Listed(value, allow, block)
  {
    hide AnyU8, U8Listed;
    U8AxisIs(value, allow, block);
    if allow != [] {
      var allowed := FindU8(allow, value);
      if !allowed {
        return false;
      }
    }
    var blocked := FindU8(block, value);
    return !blocked;
  }

  method CheckSrcEndpointAxis(name: string, allow: seq<string>, block: seq<string>) returns (pass: bool)
    ensures pass <==> NameListed(name, allow, block)
  {
    hide AnyName, NameListed;
    SrcEndpointAxisIs(name, allow, block);
    if allow != [] {
      var allowed := FindName(allow, name);
      if !allowed {
        return false;
      }
    }
    var blocked := FindName(block, name);
    return !blocked;
  }

  method CheckInFilter(f: Filters, msgid: bv32, src: NodeId) returns (pass: bool)
    ensures pass <==> InListed(f, msgid, src)
  {
    hide MsgidListed, U8Listed;
    pass := CheckMsgidAxis(msgid, f.allowMsgidIn, f.blockMsgidIn);
    if pass {
      pass := CheckU8Axis(src.sys, f.allowSrcSysIn, f.blockSrcSysIn);
    }
    if pass {
      pass := CheckU8Axis(src.comp, f.allowSrcCompIn, f.blockSrcCompIn);
    }
  }

  method CheckOutFilter(f: Filters, msgid: bv32, src: NodeId, srcEndpointName: string) returns (pass: bool)
    ensures pass <==> OutListed(f, msgid, src, srcEndpointName)
  {
    hide MsgidListed, U8Listed, NameListed;
    pass := CheckMsgidAxis(msgid, f.allowMsgidOut, f.blockMsgidOut);
    if pass {
      pass := CheckU8Axis(src.sys, f.allowSrcSysOut, f.blockSrcSysOut);
    }
    if pass {
      pass := CheckU8Axis(src.comp, f.allowSrcCompOut, f.blockSrcCompOut);
    }
    if pass {
      pass := CheckSrcEndpointAxis(srcEndpointName, f.allowSrcEndpointOut, f.blockSrcEndpointOut);
    }
  }

  // ---------- The decision ----------

  datatype Identity = Identity(filters: Filters, sniffer: bool, group: Option<string>)

  datatype Decision = Admit | LoopBlocked | OutFilterBlocked | TargetMismatch

  predicate TargetMatch(header: ParsedHeader, learn: Table) {
    if header.targetSystem.None? || header.targetSystem.value == 0 then true
    else if header.targetComponent.None? || header.targetComponent.value == 0
    then ContainsSys(learn, header.targetSystem.value)
    else Contains(learn, NodeId(header.targetSystem.value, header.targetComponent.value))
  }

  function Decide(header: ParsedHeader, destLearn: Table, dest: Identity, srcEndpointName: string): Decision {
    if dest.sniffer then Admit
    else if Contains(destLearn, header.source) then LoopBlocked
    else if !PassesOutFilter(dest.filters, header.msgid, header.source, srcEndpointName) then OutFilterBlocked
    else if !TargetMatch(header, destLearn) then TargetMismatch
    else Admit
  }

  /** The decision as it is taken, step by step. */
  method TakeDecision(header: ParsedHeader, destLearn: Table, dest: Identity, srcEndpointName: string)
    returns (d: Decision)
    ensures d == Decide(header, destLearn, dest, srcEndpointName)
  {
    hide Contains, TargetMatch, OutListed, PassesOutFilter;
    if dest.sniffer {
      return Admit;
    }
    if Contains(destLearn, header.source) {
      return LoopBlocked;
    }
    OutFilterIs(dest.filters, header.msgid, header.source, srcEndpointName);
    var pass := CheckOutFilter(dest.filters, header.msgid, header.source, srcEndpointName);
    if !pass {
      return OutFilterBlocked;
    }
    if !TargetMatch(header, destLearn) {
      return TargetMismatch;
    }
    return Admit;
  }

  // ---------- Payload truncation ----------

  /**
   `short` is `full` with trailing zero payload bytes removed, as MAVLink 2 lets a sender
   do; length byte, checksum and signature follow the shorter payload.
   */
  ghost predicate TruncationOf(full: WireFrame, short: WireFrame) {
    && full.WireV2? && short.WireV2?
    && full.msgid24 == short.msgid24 && full.source == short.source
    && short.payload <= full.payload
    && forall i :: |short.payload| <= i < |full.payload| ==> full.payload[i] == 0
  }

  lemma FieldOfTruncated(full: Bytes, short: Bytes, off: Option<bv8>)
    requires short <= full
    requires forall i :: |short| <= i < |full| ==> full[i] == 0
    ensures PayloadField(full, off) == PayloadField(short, off)
         || (PayloadField(full, off) == Some(0) && PayloadField(short, off).None?)
  {}

  /** Truncation never changes where a message goes: a missing target reads like a zero one. */
  lemma TruncationKeepsDecision(table: MsgTable, full: WireFrame, short: WireFrame,
                                learn: Table, dest: Identity, srcEndpointName: string)
    requires TruncationOf(full, short)
    ensures Decide(HeaderOf(table, full), learn, dest, srcEndpointName)
         == Decide(HeaderOf(table, short), learn, dest, srcEndpointName)
  {
    hide PassesOutFilter, Contains, ContainsSys, PayloadField;
    if full.msgid24 in table {
      var e := table[full.msgid24];
      FieldOfTruncated(full.payload, short.payload, e.targetSysOffset);
      FieldOfTruncated(full.payload, short.payload, e.targetCompOffset);
    }
  }

  /** The same on the wire: both encodings are framed, and to headers that route alike. */
  lemma TruncatedFrameRoutesAlike(table: MsgTable, full: WireFrame, short: WireFrame, more: Bytes,
                                  learn: Table, dest: Identity, srcEndpointName: string)
    requires TruncationOf(full, short) && WellFormed(table, full) && WellFormed(table, short)
    ensures
      var a := Scan(table, Encode(full) + more);
      var b := Scan(table, Encode(short) + more);
      && a.Emit? && b.Emit?
      && Decide(a.header, learn, dest, srcEndpointName) == Decide(b.header, learn, dest, srcEndpointName)
  {
    hide *;
    ScanEncoded(table, full, more);
    ScanEncoded(table, short, more);
    TruncationKeepsDecision(table, full, short, learn, dest, srcEndpointName);
  }
}
