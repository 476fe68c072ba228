/**
 Build-time message layout: wire order, target offsets and the checksum seed
 (build.rs, build_support/crc_extra.rs), after "Field Reordering" and "CRC_EXTRA
 Calculation" of the MAVLink developer guide.

 The source panics on a malformed dialect; a result of `None` stands for that panic.
 Names are encoded to bytes by `utf8`, which is left uninterpreted.
 */
module Layout {
  import opened Frame
  import opened Sequences
  import Crc

  datatype Field = Field(name: string, typeName: string, arrayLength: bv8, isExtension: bool)

  function TypeSize(typeName: string): Option<nat> {
    if typeName == "char" || typeName == "int8_t" || typeName == "uint8_t" || typeName == "uint8_t_mavlink_version"
    then Some(1)
    else if typeName == "int16_t" || typeName == "uint16_t" then Some(2)
    else if typeName == "int32_t" || typeName == "uint32_t" || typeName == "float" then Some(4)
    else if typeName == "int64_t" || typeName == "uint64_t" || typeName == "double" then Some(8)
    else None
  }

  predicate Known(f: Field) {
    TypeSize(f.typeName).Some?
  }

  predicate AllKnown(fields: seq<Field>) {
    forall i :: 0 <= i < |fields| ==> Known(fields[i])
  }

  function SizeOf(f: Field): nat
    requires Known(f)
  {
    TypeSize(f.typeName).value
  }

  /** The fields that take part in layout and checksum. */
  function Base(fields: seq<Field>): seq<Field> {
    if fields == [] then []
    else (if fields[0].isExtension then [] else [fields[0]]) + Base(fields[1..])
  }

  // ---------- Wire order ----------

  /** The fields of one size, in declaration order. */
  function SizeClass(fields: seq<Field>, size: nat): seq<Field> {
    if fields == [] then []
    else (if TypeSize(fields[0].typeName) == Some(size) then [fields[0]] else []) + SizeClass(fields[1..], size)
  }

  /** Wire order: by size, largest first, and within a size as declared. */
  function WireOrder(fields: seq<Field>): seq<Field> {
    SizeClass(fields, 8) + (SizeClass(fields, 4) + (SizeClass(fields, 2) + SizeClass(fields, 1)))
  }

  /** What a stable sort by descending size promises. */
  ghost predicate StablySorted(fields: seq<Field>, sorted: seq<Field>) {
    && AllKnown(sorted)
    && Descending(sorted)
    && (forall size :: SizeClass(sorted, size) == SizeClass(fields, size))
  }

  /** A field's insertion point: before the first field no larger than it. */
  function Insert(f: Field, sorted: seq<Field>): seq<Field>
    requires Known(f) && AllKnown(sorted)
  {
    if sorted == [] || SizeOf(sorted[0]) <= SizeOf(f) then [f] + sorted
    else [sorted[0]] + Insert(f, sorted[1..])
  }

  ghost predicate Descending(sorted: seq<Field>)
    requires AllKnown(sorted)
  {
    forall i, j :: 0 <= i < j < |sorted| ==> SizeOf(sorted[i]) >= SizeOf(sorted[j])
  }

  /** Every field of the result is the new one or was there before. */
  lemma {:induction false} InsertMembers(f: Field, sorted: seq<Field>)
    requires Known(f) && AllKnown(sorted)
    ensures AllKnown(Insert(f, sorted))
    ensures forall x :: x in Insert(f, sorted) ==> x == f || x in sorted
  {
    hide Known, SizeOf;
    if sorted != [] && SizeOf(sorted[0]) > SizeOf(f) {
      InsertMembers(f, sorted[1..]);
    }
  }

  lemma ConsDescending(x: Field, rest: seq<Field>)
    requires Known(x) && AllKnown(rest) && Descending(rest)
    requires forall y :: y in rest ==> SizeOf(x) >= SizeOf(y)
    ensures AllKnown([x] + rest) && Descending([x] + rest)
  {
    hide Known, SizeOf;
  }

  lemma {:induction false} InsertDescends(f: Field, sorted: seq<Field>)
    requires Known(f) && AllKnown(sorted) && Descending(sorted)
    ensures AllKnown(Insert(f, sorted)) && Descending(Insert(f, sorted))
  {
    hide TypeSize;
    InsertMembers(f, sorted);
    if sorted == [] || SizeOf(sorted[0]) <= SizeOf(f) {
      ConsDescending(f, sorted);
    } else {
      InsertMembers(f, sorted[1..]);
      InsertDescends(f, sorted[1..]);
      ConsDescending(sorted[0], Insert(f, sorted[1..]));
    }
  }

  lemma {:induction false} InsertClass(f: Field, sorted: seq<Field>, size: nat)
    requires Known(f) && AllKnown(sorted)
    ensures SizeClass(Insert(f, sorted), size) == SizeClass([f] + sorted, size)
  {
    hide TypeSize;
    assert ([f] + sorted)[1..] == sorted;
    if sorted != [] && SizeOf(sorted[0]) > SizeOf(f) {
      var rest := Insert(f, sorted[1..]);
      InsertClass(f, sorted[1..], size);
      assert ([sorted[0]] + rest)[1..] == rest;
      assert ([f] + sorted[1..])[1..] == sorted[1..];
    }
  }

  /** A stable sort; the source calls the library's. */
  function StableSort(fields: seq<Field>): (sorted: seq<Field>)
    requires AllKnown(fields)
    ensures AllKnown(sorted)
  {
    if fields == [] then []
    else
      InsertMembers(fields[0], StableSort(fields[1..]));
      Insert(fields[0], StableSort(fields[1..]))
  }

  lemma {:induction false} StableSortIsStable(fields: seq<Field>)
    requires AllKnown(fields)
    ensures StablySorted(fields, StableSort(fields))
  {
    hide TypeSize, Insert;
    if fields != [] {
      var sorted := StableSort(fields[1..]);
      StableSortIsStable(fields[1..]);
      InsertDescends(fields[0], sorted);
      StableSortUnfold(fields);
      hide StableSort;
      forall size
        ensures SizeClass(StableSort(fields), size) == SizeClass(fields, size)
      {
        InsertClass(fields[0], sorted, size);
        assert ([fields[0]] + sorted)[1..] == sorted;
      }
    }
  }

  lemma StableSortUnfold(fields: seq<Field>)
    requires AllKnown(fields) && fields != []
    ensures StableSort(fields) == Insert(fields[0], StableSort(fields[1..]))
  {}

  lemma Sizes(f: Field)
    requires Known(f)
    ensures SizeOf(f) == 1 || SizeOf(f) == 2 || SizeOf(f) == 4 || SizeOf(f) == 8
  {}

  /** An integer type has the size in bits that its name spells. */
  lemma SizeIsSpelled(f: Field) returns (k: nat, bits: string)
    requires Known(f)
    ensures f.typeName == "char" ==> SizeOf(f) == 1
    ensures f.typeName == "float" ==> SizeOf(f) == 4
    ensures f.typeName == "double" ==> SizeOf(f) == 8
    ensures f.typeName != "char" && f.typeName != "float" && f.typeName != "double" ==>
      && k + |bits| <= |f.typeName| && f.typeName[k..k + |bits|] == bits
      && ((SizeOf(f) == 1 && bits == "8") || (SizeOf(f) == 2 && bits == "16") ||
          (SizeOf(f) == 4 && bits == "32") || (SizeOf(f) == 8 && bits == "64"))
  {
    k := if f.typeName[0] == 'u' then 4 else 3;
    bits := if SizeOf(f) == 1 then "8" else if SizeOf(f) == 2 then "16" else if SizeOf(f) == 4 then "32" else "64";
    if f.typeName != "char" && f.typeName != "float" && f.typeName != "double" {
      assert k + |bits| <= |f.typeName| && f.typeName[k] == bits[0];
      assert |bits| == 2 ==> f.typeName[k + 1] == bits[1];
    }
  }

  /** Fields of another size do not belong to a class. */
  lemma {:induction false} NoneOfSize(fields: seq<Field>, size: nat)
    requires AllKnown(fields) && forall i :: 0 <= i < |fields| ==> SizeOf(fields[i]) != size
    ensures SizeClass(fields, size) == []
  {
    hide TypeSize;
    if fields != [] {
      NoneOfSize(fields[1..], size);
    }
  }

  lemma ConsFirst<T>(x: T, a: seq<T>, b: seq<T>, c: seq<T>, d: seq<T>)
    ensures ([x] + a) + (b + (c + d)) == [x] + (a + (b + (c + d)))
    ensures a == [] ==> a + (([x] + b) + (c + d)) == [x] + (a + (b + (c + d)))
    ensures a == [] && b == [] ==> a + (b + (([x] + c) + d)) == [x] + (a + (b + (c + d)))
    ensures a == [] && b == [] && c == [] ==> a + (b + (c + ([x] + d))) == [x] + (a + (b + (c + d)))
  {}

  lemma WireOrderCons(sorted: seq<Field>)
    requires sorted != [] && AllKnown(sorted) && Descending(sorted)
    ensures WireOrder(sorted) == [sorted[0]] + WireOrder(sorted[1..])
  {
    hide TypeSize, SizeClass;
    var f, rest := sorted[0], sorted[1..];
    Sizes(f);
    ClassUnfold(sorted, 8);
    ClassUnfold(sorted, 4);
    ClassUnfold(sorted, 2);
    ClassUnfold(sorted, 1);
    if SizeOf(f) < 8 { NoneOfSize(rest, 8); }
    if SizeOf(f) < 4 { NoneOfSize(rest, 4); }
    if SizeOf(f) < 2 { NoneOfSize(rest, 2); }
    hide SizeOf;
    ConsFirst(f, SizeClass(rest, 8), SizeClass(rest, 4), SizeClass(rest, 2), SizeClass(rest, 1));
  }

  /** A sequence that descends is the concatenation of its size classes. */
  lemma {:induction false} DescendingIsWireOrder(sorted: seq<Field>)
    requires AllKnown(sorted) && Descending(sorted)
    ensures WireOrder(sorted) == sorted
  {
    hide TypeSize, WireOrder;
    if sorted == [] {
      EmptyClasses();
    } else {
      DescendingIsWireOrder(sorted[1..]);
      WireOrderCons(sorted);
      assert sorted == [sorted[0]] + sorted[1..];
    }
  }

  lemma EmptyClasses()
    ensures WireOrder([]) == []
  {}

  lemma ClassUnfold(fields: seq<Field>, size: nat)
    requires fields != [] && Known(fields[0])
    ensures SizeClass(fields, size)
         == if SizeOf(fields[0]) == size then [fields[0]] + SizeClass(fields[1..], size)
            else SizeClass(fields[1..], size)
  {
    hide TypeSize;
  }

  /** Whatever the algorithm, a stable sort by descending size yields the wire order. */
  lemma StableSortUnique(fields: seq<Field>, sorted: seq<Field>)
    requires StablySorted(fields, sorted)
    ensures sorted == WireOrder(fields)
  {
    hide SizeClass, TypeSize;
    DescendingIsWireOrder(sorted);
  }

  // ---------- Offsets ----------

  /** The bytes a field takes on the wire; a length of zero is a scalar. */
  function WireSize(f: Field): nat
    requires Known(f)
  {
    SizeOf(f) * Count(f)
  }

  function Count(f: Field): nat {
    if f.arrayLength == 0 then 1 else f.arrayLength as int
  }

  /** The total wire size of the first `i` fields. */
  function Offset(order: seq<Field>, i: nat): nat
    requires AllKnown(order) && i <= |order|
  {
    if i == 0 then 0 else Offset(order, i - 1) + WireSize(order[i - 1])
  }

  predicate ScalarU8(f: Field) {
    f.arrayLength == 0 && f.typeName == "uint8_t"
  }

  predicate IsTarget(f: Field, name: string) {
    ScalarU8(f) && f.name == name
  }

  /** `i` is the last target of that name among the first `n` fields. */
  ghost predicate LastTarget(order: seq<Field>, n: nat, name: string, i: nat)
    requires n <= |order|
  {
    i < n && IsTarget(order[i], name) && forall j :: i < j < n ==> !IsTarget(order[j], name)
  }

  /** The offset reported for a target: that of the last scalar byte of that name, if any. */
  ghost predicate ReportsTarget(order: seq<Field>, n: nat, name: string, reported: Option<nat>)
    requires AllKnown(order) && n <= |order|
  {
    match reported
    case None => forall i :: 0 <= i < n ==> !IsTarget(order[i], name)
    case Some(off) => exists i :: LastTarget(order, n, name, i) && off == Offset(order, i)
  }

  /** A dialect the layout rejects: an unknown type, a byte past offset 255, or too long a payload. */
  ghost predicate Malformed(fields: seq<Field>) {
    var base := Base(fields);
    || !AllKnown(base)
    || (AllKnown(WireOrder(base)) &&
        var order := WireOrder(base);
        || (exists i :: 0 <= i < |order| && ScalarU8(order[i]) && Offset(order, i) > 255)
        || Offset(order, |order|) > 65535)
  }

  /** What the layout yields: nothing for a malformed dialect, else the offsets of both targets. */
  ghost predicate OffsetsAre(fields: seq<Field>, r: Option<(Option<nat>, Option<nat>)>) {
    && (r.None? <==> Malformed(fields))
    && (r.Some? ==>
          var order := WireOrder(Base(fields));
          && AllKnown(order)
          && ReportsTarget(order, |order|, "target_system", r.value.0)
          && ReportsTarget(order, |order|, "target_component", r.value.1)
          && (r.value.0.Some? ==> r.value.0.value <= 255)
          && (r.value.1.Some? ==> r.value.1.value <= 255))
  }

  /** Later fields lie at larger offsets. */
  lemma {:induction false} OffsetGrows(order: seq<Field>, i: nat, j: nat)
    requires AllKnown(order) && i <= j <= |order|
    ensures Offset(order, i) <= Offset(order, j)
    decreases j
  {
    hide WireSize, Known;
    if i < j {
      OffsetGrows(order, i, j - 1);
    }
  }

  /**
   Target offsets, or none when the source panics.  A reported offset is the total wire
   size of the base fields before the target in wire order.
   */
  method ComputeOffsets(fields: seq<Field>) returns (r: Option<(Option<nat>, Option<nat>)>)
    ensures OffsetsAre(fields, r)
  {
    hide TypeSize, SizeClass, StableSort, ReportsTarget;
    var base := Base(fields);
    if !AllKnown(base) {
      return None;
    }
    var order := StableSort(base);
    StableSortIsStable(base);
    StableSortUnique(base, order);
    r := LayOut(order);
  }

  /** Accumulate offsets over the sorted fields, noting the targets. */
  method LayOut(order: seq<Field>) returns (r: Option<(Option<nat>, Option<nat>)>)
    requires AllKnown(order)
    ensures r.None? <==>
      || (exists i :: 0 <= i < |order| && ScalarU8(order[i]) && Offset(order, i) > 255)
      || Offset(order, |order|) > 65535
    ensures r.Some? ==>
      && ReportsTarget(order, |order|, "target_system", r.value.0)
      && ReportsTarget(order, |order|, "target_component", r.value.1)
      && (r.value.0.Some? ==> r.value.0.value <= 255)
      && (r.value.1.Some? ==> r.value.1.value <= 255)
  {
    hide Known, WireSize, ReportsTarget;
    var off: nat := 0;
    var tsys: Option<nat>, tcomp: Option<nat> := None, None;
    ReportsNone(order, "target_system");
    ReportsNone(order, "target_component");
    for i := 0 to |order|
      invariant off == Offset(order, i) <= 65535
      invariant ReportsTarget(order, i, "target_system", tsys) && ReportsTarget(order, i, "target_component", tcomp)
      invariant forall j :: 0 <= j < i && ScalarU8(order[j]) ==> Offset(order, j) <= 255
    {
      var f := order[i];
      ReportsStep(order, i, "target_system", tsys);
      ReportsStep(order, i, "target_component", tcomp);
      if f.arrayLength == 0 && f.typeName == "uint8_t" {
        if off > 255 {
          return None;
        }
        if f.name == "target_system" {
          tsys := Some(off);
        } else if f.name == "target_component" {
          tcomp := Some(off);
        }
      }
      off := off + WireSize(f);
      if off > 65535 {
        OffsetGrows(order, i + 1, |order|);
        return None;
      }
    }
    ReportsAll(order, "target_system", tsys);
    ReportsAll(order, "target_component", tcomp);
    return Some((tsys, tcomp));
  }

  lemma ReportsNone(order: seq<Field>, name: string)
    requires AllKnown(order)
    ensures ReportsTarget(order, 0, name, None)
  {}

  lemma ReportsStep(order: seq<Field>, i: nat, name: string, reported: Option<nat>)
    requires AllKnown(order) && i < |order| && ReportsTarget(order, i, name, reported)
    ensures ReportsTarget(order, i + 1, name, if IsTarget(order[i], name) then Some(Offset(order, i)) else reported)
  {
    hide Offset, IsTarget, Known;
    if IsTarget(order[i], name) {
      assert LastTarget(order, i + 1, name, i);
    } else if reported.Some? {
      var k :| LastTarget(order, i, name, k) && reported.value == Offset(order, k);
      assert LastTarget(order, i + 1, name, k);
    }
  }

  lemma ReportsAll(order: seq<Field>, name: string, reported: Option<nat>)
    requires AllKnown(order) && ReportsTarget(order, |order|, name, reported)
    requires forall j :: 0 <= j < |order| && ScalarU8(order[j]) ==> Offset(order, j) <= 255
    ensures reported.Some? ==> reported.value <= 255
  {
    hide Offset, Known;
  }

  lemma TargetUnique(order: seq<Field>, name: string, a: Option<nat>, b: Option<nat>)
    requires AllKnown(order) && ReportsTarget(order, |order|, name, a) && ReportsTarget(order, |order|, name, b)
    ensures a == b
  {
    hide Offset, IsTarget, Known;
    if a.Some? && b.Some? {
      var i :| LastTarget(order, |order|, name, i) && a.value == Offset(order, i);
      var j :| LastTarget(order, |order|, name, j) && b.value == Offset(order, j);
    }
  }

  /** A message has one layout. */
  lemma OffsetsUnique(fields: seq<Field>, a: Option<(Option<nat>, Option<nat>)>, b: Option<(Option<nat>, Option<nat>)>)
    requires OffsetsAre(fields, a) && OffsetsAre(fields, b)
    ensures a == b
  {
    hide ReportsTarget, WireOrder, Malformed, Known;
    if a.Some? {
      TargetUnique(WireOrder(Base(fields)), "target_system", a.value.0, b.value.0);
      TargetUnique(WireOrder(Base(fields)), "target_component", a.value.1, b.value.1);
    }
  }

  // ---------- Alignment ----------

  predicate PowerUpTo8(d: nat) {
    d == 1 || d == 2 || d == 4 || d == 8
  }

  lemma MultipleDivides(d: nat, m: nat)
    requires PowerUpTo8(d)
    ensures (d * m) % d == 0
  {
    if d == 1 {
      assert d * m == 1 * m;
    } else if d == 2 {
      assert d * m == 2 * m;
    } else if d == 4 {
      assert d * m == 4 * m;
    } else {
      assert d * m == 8 * m;
    }
  }

  /** Wire sizes are 1, 2, 4 or 8, so a larger one is a multiple of a smaller one. */
  lemma SizeDivides(size: nat, n: nat, d: nat)
    requires PowerUpTo8(size) && PowerUpTo8(d) && size >= d
    ensures (size * n) % d == 0
  {
    var k := if size == d then 1 else if size == 2 * d then 2 else if size == 4 * d then 4 else 8;
    assert size == d * k;
    assert size * n == d * (k * n);
    MultipleDivides(d, k * n);
  }

  lemma SumDivides(a: nat, b: nat, d: nat)
    requires PowerUpTo8(d) && a % d == 0 && b % d == 0
    ensures (a + b) % d == 0
  {
    if d == 1 {
    } else if d == 2 {
    } else if d == 4 {
    } else {
    }
  }

  lemma {:induction false} OffsetDivides(order: seq<Field>, i: nat, d: nat)
    requires AllKnown(order) && i <= |order| && PowerUpTo8(d)
    requires forall j :: 0 <= j < i ==> SizeOf(order[j]) >= d
    ensures Offset(order, i) % d == 0
  {
    hide TypeSize, PowerUpTo8, Count;
    if i == 0 {
      ZeroDivides(d);
    } else {
      OffsetDivides(order, i - 1, d);
      assert PowerUpTo8(SizeOf(order[i - 1])) by { SizeIsPower(order[i - 1]); }
      SizeDivides(SizeOf(order[i - 1]), Count(order[i - 1]), d);
      SumDivides(Offset(order, i - 1), WireSize(order[i - 1]), d);
    }
  }

  lemma ZeroDivides(d: nat)
    requires PowerUpTo8(d)
    ensures 0 % d == 0
  {}

  lemma SizeIsPower(f: Field)
    requires Known(f)
    ensures PowerUpTo8(SizeOf(f))
  {
    Sizes(f);
  }

  /** In wire order every field lies at a multiple of its element size. */
  lemma FieldsAreAligned(fields: seq<Field>, i: nat)
    requires AllKnown(fields) && i < |WireOrder(fields)|
    ensures AllKnown(WireOrder(fields))
    ensures Offset(WireOrder(fields), i) % SizeOf(WireOrder(fields)[i]) == 0
  {
    hide TypeSize, SizeClass, StableSort;
    StableSortIsStable(fields);
    StableSortUnique(fields, StableSort(fields));
    var order := WireOrder(fields);
    SizeIsPower(order[i]);
    OffsetDivides(order, i, SizeOf(order[i]));
  }

  // ---------- The checksum seed ----------

  function CrcType(typeName: string): string {
    if typeName == "uint8_t_mavlink_version" then "uint8_t" else typeName
  }

  function FieldBytes(utf8: string -> Bytes, f: Field): Bytes {
    utf8(CrcType(f.typeName)) + [0x20] + utf8(f.name) + [0x20] +
    if f.arrayLength > 0 then [f.arrayLength] else []
  }

  function FieldsBytes(utf8: string -> Bytes, order: seq<Field>): Bytes {
    if order == [] then [] else FieldBytes(utf8, order[0]) + FieldsBytes(utf8, order[1..])
  }

  /** The seed mixed into every checksum of a message, from its name and fields in wire order. */
  function Seed(utf8: string -> Bytes, msgName: string, order: seq<Field>): bv8 {
    var crc := Crc.Feed(Crc.CRC_INIT, utf8(msgName) + [0x20] + FieldsBytes(utf8, order));
    LowByte(crc) ^ HighByte(crc)
  }

  /** The order a sort leaves; with fewer than two fields it compares, and so looks up, nothing. */
  function SeedOrder(base: seq<Field>): seq<Field> {
    if |base| < 2 then base else WireOrder(base)
  }

  lemma FeedMore(crc: bv16, done: Bytes, more: Bytes)
    ensures Crc.Feed(Crc.Feed(crc, done), more) == Crc.Feed(crc, done + more)
  {
    Crc.FeedConcat(crc, done, more);
  }

  lemma {:induction false} FieldsBytesSnoc(utf8: string -> Bytes, order: seq<Field>, i: nat)
    requires i < |order|
    ensures FieldsBytes(utf8, order[..i + 1]) == FieldsBytes(utf8, order[..i]) + FieldBytes(utf8, order[i])
    decreases i
  {
    hide FieldBytes;
    if i == 0 {
      assert order[..1] == [order[0]] && order[..1][1..] == [] && order[..0] == [];
      assert FieldsBytes(utf8, order[..1]) == FieldBytes(utf8, order[0]) + FieldsBytes(utf8, []);
      EmptyAppend(FieldBytes(utf8, order[0]));
    } else {
      FieldsBytesSnoc(utf8, order[1..], i - 1);
      assert order[..i + 1][1..] == order[1..][..i];
      assert order[..i][1..] == order[1..][..i - 1];
      Assoc(FieldBytes(utf8, order[0]), FieldsBytes(utf8, order[1..][..i - 1]), FieldBytes(utf8, order[i]));
    }
  }

  /** The seed of a message, or none when the source panics on an unknown type. */
  method CrcExtra(utf8: string -> Bytes, msgName: string, fields: seq<Field>) returns (r: Option<bv8>)
    ensures r.None? <==> |Base(fields)| >= 2 && !AllKnown(Base(fields))
    ensures r.Some? ==> r.value == Seed(utf8, msgName, SeedOrder(Base(fields)))
  {
    hide TypeSize, SizeClass, StableSort, FieldsBytes, FieldBytes, Crc.Feed, Crc.Update;
    var base := Base(fields);
    var order := base;
    if |base| >= 2 {
      if !AllKnown(base) {
        return None;
      }
      order := StableSort(base);
      StableSortIsStable(base);
      StableSortUnique(base, order);
    }
    var crc := new Crc.Crc16();
    ghost var fed: Bytes := utf8(msgName) + [0x20];
    crc.UpdateSlice(utf8(msgName));
    FeedMore(Crc.CRC_INIT, utf8(msgName), [0x20]);
    crc.UpdateSlice([0x20]);
    FieldsBytesNone(utf8);
    EmptyAppend(fed);
    assert order[..0] == [];
    for i := 0 to |order|
      invariant crc.value == Crc.Feed(Crc.CRC_INIT, fed + FieldsBytes(utf8, order[..i]))
    {
      FieldsBytesSnoc(utf8, order, i);
      Assoc(fed, FieldsBytes(utf8, order[..i]), FieldBytes(utf8, order[i]));
      FeedMore(Crc.CRC_INIT, fed + FieldsBytes(utf8, order[..i]), FieldBytes(utf8, order[i]));
      FeedField(utf8, crc, order[i]);
    }
    assert order[..|order|] == order;
    r := Some(LowByte(crc.value) ^ HighByte(crc.value));
  }

  lemma {:induction false} FieldsBytesConcat(utf8: string -> Bytes, a: seq<Field>, b: seq<Field>)
    ensures FieldsBytes(utf8, a + b) == FieldsBytes(utf8, a) + FieldsBytes(utf8, b)
  {
    hide FieldBytes;
    if a == [] {
      EmptyAppend(b);
      EmptyAppend(FieldsBytes(utf8, b));
    } else {
      ConsAppend(a, b);
      FieldsBytesConcat(utf8, a[1..], b);
      Assoc(FieldBytes(utf8, a[0]), FieldsBytes(utf8, a[1..]), FieldsBytes(utf8, b));
    }
  }

  /** The type of the protocol version counts as a plain byte. */
  lemma VersionTypeIsByte(utf8: string -> Bytes, msgName: string, a: seq<Field>, f: Field, b: seq<Field>)
    requires f.typeName == "uint8_t_mavlink_version"
    ensures
      var g := f.(typeName := "uint8_t");
      && TypeSize(g.typeName) == TypeSize(f.typeName)
      && Seed(utf8, msgName, a + [f] + b) == Seed(utf8, msgName, a + [g] + b)
  {
    var g := f.(typeName := "uint8_t");
    assert [f][1..] == [] && [g][1..] == [];
    assert FieldsBytes(utf8, [f]) == FieldsBytes(utf8, [g]);
    hide FieldBytes, FieldsBytes, Crc.Feed, TypeSize, LowByte, HighByte;
    FieldsBytesConcat(utf8, a + [f], b);
    FieldsBytesConcat(utf8, a, [f]);
    FieldsBytesConcat(utf8, a + [g], b);
    FieldsBytesConcat(utf8, a, [g]);
  }

  /** With every type known, the order of the seed is the wire order. */
  lemma SeedOrderIsWireOrder(base: seq<Field>)
    requires AllKnown(base)
    ensures SeedOrder(base) == WireOrder(base)
  {
    hide TypeSize, WireOrder;
    if |base| < 2 {
      DescendingIsWireOrder(base);
    }
  }

  /** The table entry of a message: it exists exactly when the dialect is not malformed. */
  method IngestMessage(utf8: string -> Bytes, msgName: string, fields: seq<Field>)
    returns (r: Option<(bv8, Option<nat>, Option<nat>)>)
    ensures r.None? <==> Malformed(fields)
    ensures r.Some? ==>
      && r.value.0 == Seed(utf8, msgName, WireOrder(Base(fields)))
      && OffsetsAre(fields, Some((r.value.1, r.value.2)))
  {
    hide TypeSize, WireOrder, Seed, ReportsTarget, Offset, Known, Base;
    var seed := CrcExtra(utf8, msgName, fields);
    if seed.None? {
      return None;
    }
    var offsets := ComputeOffsets(fields);
    if offsets.None? {
      return None;
    }
    SeedOrderIsWireOrder(Base(fields));
    r := Some((seed.value, offsets.value.0, offsets.value.1));
  }

  /**
   A lone base field of unknown type: alone, the seed computation returns a seed for it,
   and only the layout that follows refuses the message.
   */
  lemma LoneUnknownType()
    ensures
      var fields := [Field("flag", "bool", 0, false)];
      && !(|Base(fields)| >= 2 && !AllKnown(Base(fields)))
      && Malformed(fields)
  {
    var f := Field("flag", "bool", 0, false);
    assert Base([f]) == [f];
    assert !Known([f][0]);
  }

  /** Two arrays that fill 256 bytes, and a scalar byte after them. */
  lemma LateByte(a: Field, b: Field, c: Field)
    requires a.typeName == b.typeName == c.typeName == "uint8_t"
    requires !a.isExtension && !b.isExtension && !c.isExtension
    requires a.arrayLength == 255 && b.arrayLength == 1 && c.arrayLength == 0
    ensures AllKnown(Base([a, b, c])) && Malformed([a, b, c])
  {
    var fields := [a, b, c];
    ByteFields(fields);
    assert Count(a) == 255 && Count(b) == 1;
    assert WireSize(a) == 255 && WireSize(b) == 1;
    hide TypeSize, Base, WireOrder, SizeClass, Count, WireSize, SizeOf, Known;
    BaseOfThree(a, b, c);
    DescendingIsWireOrder(fields);
    OffsetOfTwo(fields);
    hide Offset;
    assert ScalarU8(fields[2]);
  }

  lemma ByteFields(fields: seq<Field>)
    requires forall i :: 0 <= i < |fields| ==> fields[i].typeName == "uint8_t"
    ensures AllKnown(fields) && Descending(fields)
    ensures forall i :: 0 <= i < |fields| ==> SizeOf(fields[i]) == 1
  {}

  lemma OffsetOfTwo(order: seq<Field>)
    requires AllKnown(order) && |order| >= 2
    ensures Offset(order, 2) == WireSize(order[0]) + WireSize(order[1])
  {
    hide WireSize;
    assert Offset(order, 1) == WireSize(order[0]);
  }

  /** So a scalar byte past offset 255 is refused in a message without any target. */
  lemma PlainByteRefused()
    ensures
      var a, b := Field("a", "uint8_t", 255, false), Field("b", "uint8_t", 1, false);
      var fields := [a, b, Field("c", "uint8_t", 0, false)];
      && Malformed(fields) && AllKnown(Base(fields))
      && forall i :: 0 <= i < |fields| ==> fields[i].name != "target_system" && fields[i].name != "target_component"
  {
    hide Malformed, AllKnown;
    LateByte(Field("a", "uint8_t", 255, false), Field("b", "uint8_t", 1, false), Field("c", "uint8_t", 0, false));
    assert |"a"| == |"b"| == |"c"| == 1;
    assert |"target_system"| == 13 && |"target_component"| == 16;
  }

  /** The bound is exact: at offset 255 it is accepted. */
  lemma EdgeByteAccepted(a: Field, c: Field)
    requires a.typeName == c.typeName == "uint8_t" && !a.isExtension && !c.isExtension
    requires a.arrayLength == 255 && c.arrayLength == 0
    ensures !Malformed([a, c])
    ensures AllKnown([a, c]) && Offset([a, c], 1) == 255 && WireOrder(Base([a, c])) == [a, c]
  {
    var fields := [a, c];
    ByteFields(fields);
    assert Count(a) == 255 && Count(c) == 1;
    assert WireSize(a) == 255 && WireSize(c) == 1;
    hide TypeSize, Base, WireOrder, SizeClass, Count, WireSize, SizeOf, Known;
    BaseOfPair(a, c);
    DescendingIsWireOrder(fields);
    OffsetOfTwo(fields);
    assert Offset(fields, 0) == 0 && Offset(fields, 1) == 255;
    hide Offset;
  }

  lemma BaseOfThree(a: Field, b: Field, c: Field)
    requires !a.isExtension && !b.isExtension && !c.isExtension
    ensures Base([a, b, c]) == [a, b, c]
  {
    assert [a, b, c] == [a] + [b, c];
    BaseConcat([a], [b, c]);
    BaseOfPair(b, c);
    assert Base([a]) == [a];
  }

  lemma FieldsBytesNone(utf8: string -> Bytes)
    ensures FieldsBytes(utf8, []) == []
  {}

  /** Type, space, name, space, and the length of an array. */
  method FeedField(utf8: string -> Bytes, crc: Crc.Crc16, f: Field)
    modifies crc
    ensures crc.value == Crc.Feed(old(crc.value), FieldBytes(utf8, f))
  {
    hide Crc.Feed, Crc.Update;
    ghost var c := crc.value;
    var t, n := utf8(CrcType(f.typeName)), utf8(f.name);
    crc.UpdateSlice(t);
    crc.UpdateSlice([0x20]);
    FeedMore(c, t, [0x20]);
    crc.UpdateSlice(n);
    FeedMore(c, t + [0x20], n);
    crc.UpdateSlice([0x20]);
    FeedMore(c, t + [0x20] + n, [0x20]);
    if f.arrayLength > 0 {
      crc.UpdateSlice([f.arrayLength]);
      FeedMore(c, t + [0x20] + n + [0x20], [f.arrayLength]);
    } else {
      EmptyAppend(t + [0x20] + n + [0x20]);
    }
  }

  // ---------- What layout and seed do not depend on ----------

  lemma {:induction false} BaseConcat(a: seq<Field>, b: seq<Field>)
    ensures Base(a + b) == Base(a) + Base(b)
  {
    if a == [] {
      EmptyAppend(b);
      EmptyAppend(Base(b));
    } else {
      ConsAppend(a, b);
      BaseConcat(a[1..], b);
      Assoc(if a[0].isExtension then [] else [a[0]], Base(a[1..]), Base(b));
    }
  }

  lemma {:induction false} ClassConcat(a: seq<Field>, b: seq<Field>, size: nat)
    ensures SizeClass(a + b, size) == SizeClass(a, size) + SizeClass(b, size)
  {
    hide TypeSize;
    if a == [] {
      EmptyAppend(b);
      EmptyAppend(SizeClass(b, size));
    } else {
      ConsAppend(a, b);
      ClassConcat(a[1..], b, size);
      Assoc(if TypeSize(a[0].typeName) == Some(size) then [a[0]] else [], SizeClass(a[1..], size), SizeClass(b, size));
    }
  }

  /** Extension fields take part in nothing. */
  lemma ExtensionsIgnored(a: seq<Field>, e: Field, b: seq<Field>)
    requires e.isExtension
    ensures Base(a + [e] + b) == Base(a + b)
  {
    hide Base;
    BaseConcat(a + [e], b);
    BaseConcat(a, [e]);
    BaseConcat(a, b);
    assert Base([e]) == [] by { BaseOfExtension(e); }
    EmptyAppend(Base(a));
  }

  lemma BaseOfExtension(e: Field)
    requires e.isExtension
    ensures Base([e]) == []
  {}

  lemma PairClasses(x: Field, y: Field, size: nat)
    requires Known(x) && Known(y) && SizeOf(x) != SizeOf(y)
    ensures SizeClass([x, y], size) == SizeClass([y, x], size)
  {
    hide TypeSize;
    assert [x, y][1..] == [y] && [y, x][1..] == [x] && [x][1..] == [] && [y][1..] == [];
    assert SizeClass([x], size) == if SizeOf(x) == size then [x] else [];
    assert SizeClass([y], size) == if SizeOf(y) == size then [y] else [];
  }

  lemma SwapClass(a: seq<Field>, x: Field, y: Field, b: seq<Field>, size: nat)
    requires Known(x) && Known(y) && SizeOf(x) != SizeOf(y)
    ensures SizeClass(a + [x, y] + b, size) == SizeClass(a + [y, x] + b, size)
  {
    hide TypeSize, SizeClass;
    ClassConcat(a + [x, y], b, size);
    ClassConcat(a, [x, y], size);
    ClassConcat(a + [y, x], b, size);
    ClassConcat(a, [y, x], size);
    PairClasses(x, y, size);
  }

  /**
   Two declarations that agree on the order of fields within each size, whatever lies
   between them, have the same wire order, layout and seed.
   */
  lemma ReorderAcrossSizes(utf8: string -> Bytes, msgName: string, f: seq<Field>, g: seq<Field>)
    requires AllKnown(Base(f)) && AllKnown(Base(g))
    requires forall size :: SizeClass(Base(f), size) == SizeClass(Base(g), size)
    ensures WireOrder(Base(f)) == WireOrder(Base(g))
    ensures Seed(utf8, msgName, SeedOrder(Base(f))) == Seed(utf8, msgName, SeedOrder(Base(g)))
    ensures forall r :: OffsetsAre(f, r) <==> OffsetsAre(g, r)
  {
    hide TypeSize, SizeClass, Base, Seed, SeedOrder, ReportsTarget, Offset, Known;
    SeedOrderIsWireOrder(Base(f));
    SeedOrderIsWireOrder(Base(g));
  }

  /** For one, exchanging two neighbouring base fields of different sizes. */
  lemma ExchangeAcrossSizes(utf8: string -> Bytes, msgName: string, a: seq<Field>, x: Field, y: Field, b: seq<Field>)
    requires Known(x) && Known(y) && SizeOf(x) != SizeOf(y) && !x.isExtension && !y.isExtension
    requires AllKnown(Base(a + [x, y] + b))
    ensures
      var f, g := a + [x, y] + b, a + [y, x] + b;
      && Seed(utf8, msgName, SeedOrder(Base(f))) == Seed(utf8, msgName, SeedOrder(Base(g)))
      && forall r :: OffsetsAre(f, r) <==> OffsetsAre(g, r)
  {
    hide TypeSize, SizeClass, Base, Seed, SeedOrder, WireOrder, OffsetsAre, Known;
    var f, g := a + [x, y] + b, a + [y, x] + b;
    BaseConcat(a + [x, y], b);
    BaseConcat(a, [x, y]);
    BaseConcat(a + [y, x], b);
    BaseConcat(a, [y, x]);
    BaseOfPair(x, y);
    BaseOfPair(y, x);
    forall size
      ensures SizeClass(Base(f), size) == SizeClass(Base(g), size)
    {
      SwapClass(Base(a), x, y, Base(b), size);
    }
    SwapKnown(Base(a), x, y, Base(b));
    ReorderAcrossSizes(utf8, msgName, f, g);
  }

  lemma SwapKnown(a: seq<Field>, x: Field, y: Field, b: seq<Field>)
    requires AllKnown(a + [x, y] + b)
    ensures AllKnown(a + [y, x] + b)
  {
    hide Known;
    var f, g := a + [x, y] + b, a + [y, x] + b;
    assert f[|a|] == x && f[|a| + 1] == y;
    assert forall i :: 0 <= i < |g| && i != |a| && i != |a| + 1 ==> g[i] == f[i];
  }

  lemma BaseOfPair(x: Field, y: Field)
    requires !x.isExtension && !y.isExtension
    ensures Base([x, y]) == [x, y]
  {
    assert [x, y][1..] == [y] && [y][1..] == [];
    assert Base([y]) == [y];
  }
}
