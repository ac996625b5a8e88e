/** The changeset wire format (crdt/codec.go, crdt/changeset.go): the current version 2, and version 1,
    which is only ever read. Every malformed input is one error; the CRC is a parameter, and so is how long a
    list the allocator makes room for before its elements are read. */
module ChangesetCodec {
  import opened Base
  import opened Wire
  import opened Identity

  const WIRE_VERSION: byte := 2

  const WIRE_VERSION_V1: byte := 1

  const COL_NULL: uint32 := 0

  const V1_COL_NULL: byte := 5

  datatype ColValue = ColValue(column: Id16, typeTag: uint32, format: byte, bytes: Bytes)

  datatype PatchRange = PatchRange(offset: uint64, bytes: Bytes)

  datatype Body = Insert(image: seq<ColValue>) | Update(changed: seq<ColValue>) | Delete | BlobPatch(col: Id16, ranges: seq<PatchRange>)

  datatype Record = Record(table: Id16, pk: Bytes, cl: uint64, body: Body)

  // ---------------------------------------------------------------------
  // Columns
  // ---------------------------------------------------------------------

  function PutCol(c: ColValue, rest: Bytes): Bytes {
    c.column + (BigEndian(c.typeTag, 4) + ([c.format] + (if c.typeTag == COL_NULL then rest else Framed(c.bytes, rest))))
  }

  function ColWriter(): Writer<ColValue> { (c: ColValue, b: Bytes) => PutCol(c, b) }

  function PutColumns(cols: seq<ColValue>, rest: Bytes): Bytes { Uvarint(|cols|) + PutAll(ColWriter(), cols, rest) }

  /** One column of the current layout: id, four-byte tag, format, and bytes unless NULL. */
  function GetCol(buf: Bytes): (r: Option<(ColValue, Bytes)>)
    ensures r.Some? ==> |r.value.1| < |buf|
  {
    match Take(buf, 16)
    case None => None
    case Some((column, b1)) =>
      match GetU32(b1)
      case None => None
      case Some((tag, b2)) =>
        match TakeByte(b2)
        case None => None
        case Some((format, b3)) => GetValue(column, tag, format, b3)
  }

  function GetValue(column: Id16, tag: uint32, format: byte, buf: Bytes): (r: Option<(ColValue, Bytes)>)
    ensures r.Some? ==> |r.value.1| <= |buf|
  {
    if tag == COL_NULL then Some((ColValue(column, COL_NULL, format, []), buf))
    else
      match GetFramed(buf)
      case None => None
      case Some((bytes, rest)) => Some((ColValue(column, tag, format, bytes), rest))
  }

  /** One column of the legacy layout: id, one-byte storage class, and bytes unless NULL. */
  function GetColV1(buf: Bytes): (r: Option<(ColValue, Bytes)>)
    ensures r.Some? ==> |r.value.1| < |buf|
  {
    match Take(buf, 16)
    case None => None
    case Some((column, b1)) =>
      match TakeByte(b1)
      case None => None
      case Some((tag, b2)) =>
        if tag == V1_COL_NULL then Some((ColValue(column, COL_NULL, 0, []), b2))
        else if 1 <= tag <= 4 then GetValue(column, tag, 0, b2)
        else None
  }

  function GetColumn(version: byte, buf: Bytes): (r: Option<(ColValue, Bytes)>)
    ensures r.Some? ==> |r.value.1| < |buf|
  {
    if version == WIRE_VERSION_V1 then GetColV1(buf) else GetCol(buf)
  }

  function ColReader(version: byte): Reader<ColValue> { (b: Bytes) => GetColumn(version, b) }

  function GetColumns(version: byte, buf: Bytes): (r: Option<(seq<ColValue>, Bytes)>)
    ensures r.Some? ==> |r.value.1| < |buf|
  {
    match GetUvarint(buf)
    case None => None
    case Some((n, rest)) =>
      var r := Many(ColReader(version), rest, n, []);
      if r.Some? then ManyShrinks(ColReader(version), rest, n, []); r else None
  }

  // ---------------------------------------------------------------------
  // Patch ranges
  // ---------------------------------------------------------------------

  function PutRange(r: PatchRange, rest: Bytes): Bytes { Uvarint(r.offset) + Framed(r.bytes, rest) }

  function RangeWriter(): Writer<PatchRange> { (x: PatchRange, b: Bytes) => PutRange(x, b) }

  function RangeReader(): Reader<PatchRange> { (b: Bytes) => GetRange(b) }

  function PutRanges(rs: seq<PatchRange>, rest: Bytes): Bytes { Uvarint(|rs|) + PutAll(RangeWriter(), rs, rest) }

  function GetRange(buf: Bytes): (r: Option<(PatchRange, Bytes)>)
    ensures r.Some? ==> |r.value.1| < |buf|
  {
    match GetUvarint(buf)
    case None => None
    case Some((offset, b1)) =>
      match GetFramed(b1)
      case None => None
      case Some((bytes, rest)) => Some((PatchRange(offset, bytes), rest))
  }

  function GetRanges(buf: Bytes): (r: Option<(seq<PatchRange>, Bytes)>)
    ensures r.Some? ==> |r.value.1| <= |buf|
  {
    match GetUvarint(buf)
    case None => None
    case Some((n, rest)) =>
      var r := Many(RangeReader(), rest, n, []);
      if r.Some? then ManyShrinks(RangeReader(), rest, n, []); r else None
  }

  // ---------------------------------------------------------------------
  // Records
  // ---------------------------------------------------------------------

  function OpOf(b: Body): byte {
    match b
    case Insert(_) => 1
    case Update(_) => 2
    case Delete => 3
    case BlobPatch(_, _) => 4
  }

  function PutBody(b: Body, rest: Bytes): Bytes {
    match b
    case Insert(image) => PutColumns(image, rest)
    case Update(changed) => PutColumns(changed, rest)
    case Delete => Uvarint(0) + rest
    case BlobPatch(col, ranges) => col + PutRanges(ranges, rest)
  }

  function PutRecord(r: Record, rest: Bytes): (b: Bytes)
    ensures |b| > 0
  {
    [OpOf(r.body)] + (r.table + Framed(r.pk, Uvarint(r.cl) + PutBody(r.body, rest)))
  }

  function PutRecords(rs: seq<Record>, rest: Bytes): Bytes {
    if rs == [] then rest else PutRecord(rs[0], PutRecords(rs[1..], rest))
  }

  function GetBody(version: byte, op: byte, buf: Bytes): (r: Option<(Body, Bytes)>)
    ensures r.Some? ==> |r.value.1| <= |buf|
  {
    if op == 1 || op == 2 then
      match GetColumns(version, buf)
      case None => None
      case Some((cols, rest)) => Some((if op == 1 then Insert(cols) else Update(cols), rest))
    else if op == 3 then
      match GetUvarint(buf)
      case None => None
      case Some((n, rest)) => if n != 0 then None else Some((Delete, rest))
    else if op == 4 then GetPatch(buf)
    else None
  }

  function GetPatch(buf: Bytes): (r: Option<(Body, Bytes)>)
    ensures r.Some? ==> |r.value.1| <= |buf|
  {
    match Take(buf, 16)
    case None => None
    case Some((col, b1)) =>
      match GetRanges(b1)
      case None => None
      case Some((ranges, rest)) => Some((BlobPatch(col, ranges), rest))
  }

  function GetRecord(version: byte, buf: Bytes): (r: Option<(Record, Bytes)>)
    ensures r.Some? ==> |r.value.1| < |buf|
  {
    match TakeByte(buf)
    case None => None
    case Some((op, b1)) =>
      match Take(b1, 16)
      case None => None
      case Some((table, b2)) =>
        match GetFramed(b2)
        case None => None
        case Some((pk, b3)) =>
          match GetUvarint(b3)
          case None => None
          case Some((cl, b4)) =>
            match GetBody(version, op, b4)
            case None => None
            case Some((body, rest)) => Some((Record(table, pk, cl, body), rest))
  }

  /** Records up to the end of the payload, onto acc. */
  function GetRecords(version: byte, buf: Bytes, acc: seq<Record>): Option<seq<Record>>
    decreases |buf|
  {
    if |buf| == 0 then Some(acc)
    else
      match GetRecord(version, buf)
      case None => None
      case Some((r, rest)) => GetRecords(version, rest, acc + [r])
  }

  // ---------------------------------------------------------------------
  // Reading undoes writing
  // ---------------------------------------------------------------------

  /** Bytes carried on a NULL column are not written. */
  function Normal(c: ColValue): ColValue { if c.typeTag == COL_NULL then c.(bytes := []) else c }

  function NormalCols(cols: seq<ColValue>): seq<ColValue> { Mapped(c => Normal(c), cols) }

  function NormalBody(b: Body): Body {
    match b
    case Insert(image) => Insert(NormalCols(image))
    case Update(changed) => Update(NormalCols(changed))
    case _ => b
  }

  function NormalRecord(r: Record): Record { r.(body := NormalBody(r.body)) }

  function NormalRecords(rs: seq<Record>): seq<Record> { Mapped(r => NormalRecord(r), rs) }

  /** Lengths are 64-bit. */
  predicate SizedCols(cols: seq<ColValue>) { |cols| < TWO_64 && forall c :: c in cols ==> |c.bytes| < TWO_64 }

  predicate SizedBody(b: Body) {
    match b
    case Insert(image) => SizedCols(image)
    case Update(changed) => SizedCols(changed)
    case Delete => true
    case BlobPatch(_, ranges) => |ranges| < TWO_64 && forall x :: x in ranges ==> |x.bytes| < TWO_64
  }

  predicate Sized(r: Record) { |r.pk| < TWO_64 && SizedBody(r.body) }

  lemma {:induction false} GetColUndoes(c: ColValue, rest: Bytes)
    requires |c.bytes| < TWO_64
    ensures GetCol(PutCol(c, rest)) == Some((Normal(c), rest))
  {
    var b3 := if c.typeTag == COL_NULL then rest else Framed(c.bytes, rest);
    TakeAll(c.column, BigEndian(c.typeTag, 4) + ([c.format] + b3));
    GetU32Undoes(c.typeTag, [c.format] + b3);
    TakeFirst(c.format, b3);
    if c.typeTag != COL_NULL { GetFramedUndoes(c.bytes, rest); }
  }

  lemma {:induction false} GetColumnsUndoes(cols: seq<ColValue>, rest: Bytes)
    requires SizedCols(cols)
    ensures GetColumns(WIRE_VERSION, PutColumns(cols, rest)) == Some((NormalCols(cols), rest))
  {
    var put, get, ok, seen := ColWriter(), ColReader(WIRE_VERSION), (c: ColValue) => true, (c: ColValue) => Normal(c);
    GetUvarintUndoes(|cols|, PutAll(put, cols, rest));
    forall c, more | c in cols ensures get(put(c, more)) == if ok(c) then Some((seen(c), more)) else None { GetColUndoes(c, more); }
    ManyUndoes(get, put, ok, seen, cols, rest, []);
    AllAreOk(ok, cols);
    Unit(NormalCols(cols));
  }

  lemma GetRangeUndoes(x: PatchRange, rest: Bytes)
    requires |x.bytes| < TWO_64
    ensures GetRange(PutRange(x, rest)) == Some((x, rest))
  {
    GetUvarintUndoes(x.offset, Framed(x.bytes, rest));
    GetFramedUndoes(x.bytes, rest);
  }

  lemma GetRangesUndoes(rs: seq<PatchRange>, rest: Bytes)
    requires |rs| < TWO_64 && forall x :: x in rs ==> |x.bytes| < TWO_64
    ensures GetRanges(PutRanges(rs, rest)) == Some((rs, rest))
  {
    var put, get := RangeWriter(), RangeReader();
    GetUvarintUndoes(|rs|, PutAll(put, rs, rest));
    forall x, more | x in rs ensures get(put(x, more)) == Some((x, more)) { GetRangeUndoes(x, more); }
    ManyUndoesAll(get, put, rs, rest, []);
    Unit(rs);
  }

  lemma GetBodyUndoes(b: Body, rest: Bytes)
    requires SizedBody(b)
    ensures GetBody(WIRE_VERSION, OpOf(b), PutBody(b, rest)) == Some((NormalBody(b), rest))
  {
    match b
    case Insert(image) => GetColumnsUndoes(image, rest);
    case Update(changed) => GetColumnsUndoes(changed, rest);
    case Delete => GetUvarintUndoes(0, rest);
    case BlobPatch(col, ranges) =>
      TakeAll(col, PutRanges(ranges, rest));
      GetRangesUndoes(ranges, rest);
  }

  lemma {:induction false} GetRecordUndoes(r: Record, rest: Bytes)
    requires Sized(r)
    ensures GetRecord(WIRE_VERSION, PutRecord(r, rest)) == Some((NormalRecord(r), rest))
  {
    var b4 := PutBody(r.body, rest);
    var b2 := Framed(r.pk, Uvarint(r.cl) + b4);
    TakeFirst(OpOf(r.body), r.table + b2);
    TakeAll(r.table, b2);
    GetFramedUndoes(r.pk, Uvarint(r.cl) + b4);
    GetUvarintUndoes(r.cl, b4);
    GetBodyUndoes(r.body, rest);
  }

  /** The record stream reads back as it was written, up to bytes carried on NULL columns. */
  lemma {:induction false} GetRecordsUndoes(rs: seq<Record>, acc: seq<Record>)
    requires forall r :: r in rs ==> Sized(r)
    ensures GetRecords(WIRE_VERSION, PutRecords(rs, []), acc) == Some(acc + NormalRecords(rs))
    decreases |rs|
  {
    if rs == [] {
      Unit(acc);
    } else {
      GetRecordUndoes(rs[0], PutRecords(rs[1..], []));
      GetRecordsUndoes(rs[1..], acc + [NormalRecord(rs[0])]);
      Assoc(acc, [NormalRecord(rs[0])], NormalRecords(rs[1..]));
    }
  }

  // ---------------------------------------------------------------------
  // Legacy payloads
  // ---------------------------------------------------------------------

  predicate Clean(c: ColValue) { Normal(c) == c && |c.bytes| < TWO_64 }

  predicate CleanCols(cols: seq<ColValue>) { forall c :: c in cols ==> Clean(c) }

  predicate CleanBody(b: Body) { SizedBody(b) && (b.Insert? ==> CleanCols(b.image)) && (b.Update? ==> CleanCols(b.changed)) }

  predicate CleanRecord(r: Record) { |r.pk| < TWO_64 && CleanBody(r.body) }

  lemma CleanColsAreNormal(cols: seq<ColValue>)
    requires CleanCols(cols)
    ensures NormalCols(cols) == cols
  {
    MappedAt((c: ColValue) => Normal(c), cols);
    assert forall i :: 0 <= i < |cols| ==> Clean(cols[i]);
  }

  lemma CleanRecordsAreNormal(rs: seq<Record>)
    requires forall r :: r in rs ==> CleanRecord(r)
    ensures NormalRecords(rs) == rs
  {
    MappedAt((r: Record) => NormalRecord(r), rs);
    forall i | 0 <= i < |rs| ensures NormalRecord(rs[i]) == rs[i] { CleanRecordIsNormal(rs[i]); }
  }

  lemma CleanRecordIsNormal(r: Record)
    requires CleanRecord(r)
    ensures NormalRecord(r) == r
  {
    if r.body.Insert? { CleanColsAreNormal(r.body.image); }
    if r.body.Update? { CleanColsAreNormal(r.body.changed); }
  }

  lemma ReadBodyIsClean(version: byte, op: byte, buf: Bytes)
    requires GetBody(version, op, buf).Some?
    ensures CleanBody(GetBody(version, op, buf).value.0)
  {
    if op == 1 || op == 2 {
      var (n, rest) := GetUvarint(buf).value;
      ManyHolds(ColReader(version), (c: ColValue) => Clean(c), rest, n, []);
    } else if op == 4 {
      var (n, rest) := GetUvarint(Take(buf, 16).value.1).value;
      ManyHolds(RangeReader(), (x: PatchRange) => |x.bytes| < TWO_64, rest, n, []);
    }
  }

  lemma ReadRecordIsClean(version: byte, buf: Bytes)
    requires GetRecord(version, buf).Some?
    ensures CleanRecord(GetRecord(version, buf).value.0)
  {
    var (op, b1) := TakeByte(buf).value;
    var b3 := GetFramed(Take(b1, 16).value.1).value.1;
    ReadBodyIsClean(version, op, GetUvarint(b3).value.1);
  }

  lemma {:induction false} ReadRecordsAreClean(version: byte, buf: Bytes, acc: seq<Record>)
    requires (forall r :: r in acc ==> CleanRecord(r)) && GetRecords(version, buf, acc).Some?
    ensures forall r :: r in GetRecords(version, buf, acc).value ==> CleanRecord(r)
    decreases |buf|
  {
    if |buf| > 0 {
      ReadRecordIsClean(version, buf);
      var (r, rest) := GetRecord(version, buf).value;
      ReadRecordsAreClean(version, rest, acc + [r]);
    }
  }

  /** Every payload that reads under either version is carried unchanged by the current one. */
  lemma {:induction false} LegacyNormalises(version: byte, payload: Bytes)
    requires GetRecords(version, payload, []).Some?
    ensures var rs := GetRecords(version, payload, []).value; GetRecords(WIRE_VERSION, PutRecords(rs, []), []) == Some(rs)
  {
    var rs := GetRecords(version, payload, []).value;
    ReadRecordsAreClean(version, payload, []);
    CleanRecordsAreNormal(rs);
    GetRecordsUndoes(rs, []);
    assert [] + rs == rs;
  }

  /** An operation outside the four, and a delete that announces columns, are refused under either version. */
  lemma {:induction false} UnknownRecordIsRefused(version: byte, op: byte, table: Id16, pk: Bytes, cl: uint64, n: uint64, rest: Bytes)
    requires |pk| < TWO_64 && (op == 0 || op > 4 || (op == 3 && n != 0))
    ensures GetRecord(version, [op] + (table + Framed(pk, Uvarint(cl) + (Uvarint(n) + rest)))).None?
  {
    var b4 := Uvarint(n) + rest;
    var b2 := Framed(pk, Uvarint(cl) + b4);
    TakeFirst(op, table + b2);
    TakeAll(table, b2);
    GetFramedUndoes(pk, Uvarint(cl) + b4);
    GetUvarintUndoes(cl, b4);
    GetUvarintUndoes(n, rest);
  }

  /** The layout older nodes wrote: a one-byte storage class, 5 for NULL, and no format. */
  function PutColV1(c: ColValue, rest: Bytes): Bytes
    requires Legacy(c)
  {
    c.column + ([if c.typeTag == 0 then 5 else c.typeTag] + (if c.typeTag == 0 then rest else Framed(c.bytes, rest)))
  }

  predicate Legacy(c: ColValue) { c.typeTag <= 4 && c.format == 0 && |c.bytes| < TWO_64 }

  type LegacyCol = c: ColValue | Legacy(c) witness ColValue(seq(16, _ => 0), 0, 0, [])

  datatype LegacyBody = OldInsert(image: seq<LegacyCol>) | OldUpdate(changed: seq<LegacyCol>) | OldDelete | OldPatch(col: Id16, ranges: seq<PatchRange>)

  datatype LegacyRecord = LegacyRecord(table: Id16, pk: Bytes, cl: uint64, body: LegacyBody)

  function LegacyWriter(): Writer<LegacyCol> { (c: LegacyCol, b: Bytes) => PutColV1(c, b) }

  function PutLegacyColumns(cols: seq<LegacyCol>, rest: Bytes): Bytes { Uvarint(|cols|) + PutAll(LegacyWriter(), cols, rest) }

  function LegacyOp(b: LegacyBody): byte { match b case OldInsert(_) => 1 case OldUpdate(_) => 2 case OldDelete => 3 case OldPatch(_, _) => 4 }

  function PutLegacyBody(b: LegacyBody, rest: Bytes): Bytes {
    match b
    case OldInsert(image) => PutLegacyColumns(image, rest)
    case OldUpdate(changed) => PutLegacyColumns(changed, rest)
    case OldDelete => Uvarint(0) + rest
    case OldPatch(col, ranges) => col + PutRanges(ranges, rest)
  }

  function PutLegacyRecord(r: LegacyRecord, rest: Bytes): Bytes {
    [LegacyOp(r.body)] + (r.table + Framed(r.pk, Uvarint(r.cl) + PutLegacyBody(r.body, rest)))
  }

  function PutLegacyRecords(rs: seq<LegacyRecord>): Bytes {
    if rs == [] then [] else PutLegacyRecord(rs[0], PutLegacyRecords(rs[1..]))
  }

  function Seen(cols: seq<LegacyCol>): seq<ColValue> { Mapped((c: LegacyCol) => Normal(c), cols) }

  /** What a legacy record says. */
  function Upgraded(r: LegacyRecord): Record {
    Record(r.table, r.pk, r.cl, UpgradedBody(r.body))
  }

  function UpgradedBody(b: LegacyBody): Body {
    match b
    case OldInsert(image) => Insert(Seen(image))
    case OldUpdate(changed) => Update(Seen(changed))
    case OldDelete => Delete
    case OldPatch(col, ranges) => BlobPatch(col, ranges)
  }

  predicate SizedLegacyBody(b: LegacyBody) {
    match b
    case OldInsert(image) => |image| < TWO_64
    case OldUpdate(changed) => |changed| < TWO_64
    case OldDelete => true
    case OldPatch(_, ranges) => |ranges| < TWO_64 && forall x :: x in ranges ==> |x.bytes| < TWO_64
  }

  predicate SizedLegacy(r: LegacyRecord) { |r.pk| < TWO_64 && SizedLegacyBody(r.body) }

  /** A legacy column reads as what was written, and any other storage class is refused. */
  lemma {:induction false} LegacyColumnReads(c: LegacyCol, column: Id16, tag: byte, rest: Bytes)
    ensures GetColumn(1, PutColV1(c, rest)) == Some((Normal(c), rest))
    ensures tag == 0 || tag > 5 ==> GetColumn(1, column + ([tag] + rest)).None?
  {
    var b2 := if c.typeTag == 0 then rest else Framed(c.bytes, rest);
    var class_: byte := if c.typeTag == 0 then 5 else c.typeTag;
    TakeAll(c.column, [class_] + b2);
    TakeFirst(class_, b2);
    if c.typeTag != 0 { GetFramedUndoes(c.bytes, rest); }
    TakeAll(column, [tag] + rest);
    TakeFirst(tag, rest);
  }

  lemma {:induction false} LegacyColumnsRead(cols: seq<LegacyCol>, rest: Bytes)
    requires |cols| < TWO_64
    ensures GetColumns(1, PutLegacyColumns(cols, rest)) == Some((Seen(cols), rest))
  {
    var put, get, ok, seen := LegacyWriter(), ColReader(1), (c: LegacyCol) => true, (c: LegacyCol) => Normal(c);
    GetUvarintUndoes(|cols|, PutAll(put, cols, rest));
    forall c, more | c in cols ensures get(put(c, more)) == if ok(c) then Some((seen(c), more)) else None {
      LegacyColumnReads(c, c.column, 0, more);
    }
    ManyUndoes(get, put, ok, seen, cols, rest, []);
    AllAreOk(ok, cols);
    Unit(Seen(cols));
  }

  lemma LegacyBodyReads(b: LegacyBody, rest: Bytes)
    requires SizedLegacyBody(b)
    ensures GetBody(1, LegacyOp(b), PutLegacyBody(b, rest)) == Some((UpgradedBody(b), rest))
  {
    match b
    case OldInsert(image) => LegacyColumnsRead(image, rest);
    case OldUpdate(changed) => LegacyColumnsRead(changed, rest);
    case OldDelete => GetUvarintUndoes(0, rest);
    case OldPatch(col, ranges) =>
      TakeAll(col, PutRanges(ranges, rest));
      GetRangesUndoes(ranges, rest);
  }

  lemma LegacyRecordReads(r: LegacyRecord, rest: Bytes)
    requires SizedLegacy(r)
    ensures GetRecord(1, PutLegacyRecord(r, rest)) == Some((Upgraded(r), rest))
  {
    var b4 := PutLegacyBody(r.body, rest);
    var b2 := Framed(r.pk, Uvarint(r.cl) + b4);
    TakeFirst(LegacyOp(r.body), r.table + b2);
    TakeAll(r.table, b2);
    GetFramedUndoes(r.pk, Uvarint(r.cl) + b4);
    GetUvarintUndoes(r.cl, b4);
    LegacyBodyReads(r.body, rest);
  }

  /** A payload in the legacy layout reads as what it says. */
  lemma {:induction false} LegacyRecordsRead(rs: seq<LegacyRecord>, acc: seq<Record>)
    requires forall r :: r in rs ==> SizedLegacy(r)
    ensures GetRecords(1, PutLegacyRecords(rs), acc) == Some(acc + Mapped((r: LegacyRecord) => Upgraded(r), rs))
    decreases |rs|
  {
    if rs == [] {
      Unit(acc);
    } else {
      LegacyRecordReads(rs[0], PutLegacyRecords(rs[1..]));
      LegacyRecordsRead(rs[1..], acc + [Upgraded(rs[0])]);
      Assoc(acc, [Upgraded(rs[0])], Mapped((r: LegacyRecord) => Upgraded(r), rs[1..]));
    }
  }

  // ---------------------------------------------------------------------
  // The loops
  // ---------------------------------------------------------------------

  lemma PutColAppends(c: ColValue, rest: Bytes)
    ensures PutCol(c, rest) == PutCol(c, []) + rest
  {
    var v, f, t := if c.typeTag == COL_NULL then [] else Framed(c.bytes, []), [c.format], BigEndian(c.typeTag, 4);
    FramedAppends(c.bytes, rest);
    Unit(rest);
    Assoc(f, v, rest);
    Assoc(t, f + v, rest);
    Assoc(c.column, t + (f + v), rest);
  }

  lemma PutColumnsAppends(cols: seq<ColValue>, rest: Bytes)
    ensures PutColumns(cols, rest) == PutColumns(cols, []) + rest
  {
    var put := ColWriter();
    forall c, more | c in cols ensures put(c, more) == put(c, []) + more { PutColAppends(c, more); }
    PutAllAppends(put, cols, rest);
    Assoc(Uvarint(|cols|), PutAll(put, cols, []), rest);
  }

  method EncodeColumn(buf: Bytes, c: ColValue) returns (out: Bytes)
    ensures out == buf + PutCol(c, [])
  {
    ghost var v := if c.typeTag == COL_NULL then [] else Framed(c.bytes, []);
    Assoc(buf, c.column, BigEndian(c.typeTag, 4) + ([c.format] + v));
    out := buf + c.column;
    Assoc(out, BigEndian(c.typeTag, 4), [c.format] + v);
    out := out + BigEndian(c.typeTag, 4);
    Assoc(out, [c.format], v);
    out := out + [c.format];
    Unit(out);
    if c.typeTag == COL_NULL { return; }
    Assoc(out, Uvarint(|c.bytes|), c.bytes + []);
    Unit(c.bytes);
    out := out + Uvarint(|c.bytes|) + c.bytes;
  }

  method EncodeColumns(buf: Bytes, cols: seq<ColValue>) returns (out: Bytes)
    ensures out == buf + PutColumns(cols, [])
  {
    Assoc(buf, Uvarint(|cols|), PutAll(ColWriter(), cols, []));
    out := buf + Uvarint(|cols|);
    assert cols[0..] == cols;
    for i := 0 to |cols|
      invariant out + PutAll(ColWriter(), cols[i..], []) == buf + PutColumns(cols, [])
    {
      ghost var more := PutAll(ColWriter(), cols[i + 1..], []);
      assert cols[i..][1..] == cols[i + 1..];
      PutColAppends(cols[i], more);
      Assoc(out, PutCol(cols[i], []), more);
      out := EncodeColumn(out, cols[i]);
    }
    Unit(out);
  }

  lemma PutRangeAppends(x: PatchRange, rest: Bytes)
    ensures PutRange(x, rest) == PutRange(x, []) + rest
  {
    FramedAppends(x.bytes, rest);
    Assoc(Uvarint(x.offset), Framed(x.bytes, []), rest);
  }

  lemma PutRangesAppends(rs: seq<PatchRange>, rest: Bytes)
    ensures PutRanges(rs, rest) == PutRanges(rs, []) + rest
  {
    var put := RangeWriter();
    forall x, more | x in rs ensures put(x, more) == put(x, []) + more { PutRangeAppends(x, more); }
    PutAllAppends(put, rs, rest);
    Assoc(Uvarint(|rs|), PutAll(put, rs, []), rest);
  }

  method EncodeRanges(buf: Bytes, rs: seq<PatchRange>) returns (out: Bytes)
    ensures out == buf + PutRanges(rs, [])
  {
    Assoc(buf, Uvarint(|rs|), PutAll(RangeWriter(), rs, []));
    forall x, more | x in rs ensures RangeWriter()(x, more) == RangeWriter()(x, []) + more { PutRangeAppends(x, more); }
    out := AppendAll(RangeWriter(), buf + Uvarint(|rs|), rs);
  }

  lemma PutBodyAppends(b: Body, rest: Bytes)
    ensures PutBody(b, rest) == PutBody(b, []) + rest
  {
    match b
    case Insert(image) => PutColumnsAppends(image, rest);
    case Update(changed) => PutColumnsAppends(changed, rest);
    case Delete => Unit(Uvarint(0));
    case BlobPatch(col, ranges) =>
      PutRangesAppends(ranges, rest);
      Assoc(col, PutRanges(ranges, []), rest);
  }

  lemma PutRecordAppends(r: Record, rest: Bytes)
    ensures PutRecord(r, rest) == PutRecord(r, []) + rest
  {
    var b, cl := PutBody(r.body, []), Uvarint(r.cl);
    PutBodyAppends(r.body, rest);
    Assoc(cl, b, rest);
    FramedAppends(r.pk, cl + b + rest);
    FramedAppends(r.pk, cl + b);
    Assoc(Framed(r.pk, []), cl + b, rest);
    Assoc(r.table, Framed(r.pk, cl + b), rest);
    Assoc([OpOf(r.body)], r.table + Framed(r.pk, cl + b), rest);
  }

  /** Op, table, key and causal length come before the body. */
  lemma RecordHead(buf: Bytes, r: Record)
    ensures buf + [OpOf(r.body)] + r.table + Uvarint(|r.pk|) + r.pk + Uvarint(r.cl) + PutBody(r.body, []) == buf + PutRecord(r, [])
  {
    var body := PutBody(r.body, []);
    var b4 := Uvarint(r.cl) + body;
    var b3 := r.pk + b4;
    Assoc(buf, [OpOf(r.body)], r.table + (Uvarint(|r.pk|) + b3));
    Assoc(buf + [OpOf(r.body)], r.table, Uvarint(|r.pk|) + b3);
    Assoc(buf + [OpOf(r.body)] + r.table, Uvarint(|r.pk|), b3);
    Assoc(buf + [OpOf(r.body)] + r.table + Uvarint(|r.pk|), r.pk, b4);
    Assoc(buf + [OpOf(r.body)] + r.table + Uvarint(|r.pk|) + r.pk, Uvarint(r.cl), body);
  }

  method EncodeRecord(buf: Bytes, r: Record) returns (out: Bytes)
    ensures out == buf + PutRecord(r, [])
  {
    RecordHead(buf, r);
    var head := buf + [OpOf(r.body)] + r.table + Uvarint(|r.pk|) + r.pk + Uvarint(r.cl);
    match r.body {
      case Insert(image) => out := EncodeColumns(head, image);
      case Update(changed) => out := EncodeColumns(head, changed);
      case Delete =>
        Unit(Uvarint(0));
        out := head + Uvarint(0);
      case BlobPatch(col, ranges) =>
        Assoc(head, col, PutRanges(ranges, []));
        out := EncodeRanges(head + col, ranges);
    }
  }

  method EncodeRecords(buf: Bytes, recs: seq<Record>) returns (out: Bytes)
    ensures out == buf + PutRecords(recs, [])
  {
    out := buf;
    assert recs[0..] == recs;
    for i := 0 to |recs|
      invariant out + PutRecords(recs[i..], []) == buf + PutRecords(recs, [])
    {
      ghost var more := PutRecords(recs[i + 1..], []);
      assert recs[i..][1..] == recs[i + 1..];
      PutRecordAppends(recs[i], more);
      Assoc(out, PutRecord(recs[i], []), more);
      out := EncodeRecord(out, recs[i]);
    }
    Unit(out);
  }

  // ---------------------------------------------------------------------
  // The decoder that allocates first
  // ---------------------------------------------------------------------

  /** What the decoder comes to: a value, an error, or a panic. */
  datatype Answer<+T> = Ok(value: T) | Malformed | Panics

  function Answered<T>(r: Option<T>): Answer<T> { if r.Some? then Ok(r.value) else Malformed }

  /** The longest column and range lists the allocator makes room for. */
  datatype Limits = Limits(cols: nat, ranges: nat)

  function AllocColumns(version: byte, buf: Bytes, room: Limits): (r: Answer<(seq<ColValue>, Bytes)>)
    ensures r.Ok? ==> |r.value.1| <= |buf|
  {
    match GetUvarint(buf)
    case None => Malformed
    case Some((n, rest)) =>
      if n > room.cols then Panics
      else
        var r := Many(ColReader(version), rest, n, []);
        if r.Some? then ManyShrinks(ColReader(version), rest, n, []); Ok(r.value) else Malformed
  }

  function AllocRanges(buf: Bytes, room: Limits): (r: Answer<(seq<PatchRange>, Bytes)>)
    ensures r.Ok? ==> |r.value.1| <= |buf|
  {
    match GetUvarint(buf)
    case None => Malformed
    case Some((n, rest)) =>
      if n > room.ranges then Panics
      else
        var r := Many(RangeReader(), rest, n, []);
        if r.Some? then ManyShrinks(RangeReader(), rest, n, []); Ok(r.value) else Malformed
  }

  function AllocBody(version: byte, op: byte, buf: Bytes, room: Limits): (r: Answer<(Body, Bytes)>)
    ensures r.Ok? ==> |r.value.1| <= |buf|
  {
    if op == 1 || op == 2 then
      match AllocColumns(version, buf, room)
      case Panics => Panics
      case Malformed => Malformed
      case Ok((cols, rest)) => Ok((if op == 1 then Insert(cols) else Update(cols), rest))
    else if op == 4 then
      match Take(buf, 16)
      case None => Malformed
      case Some((col, b)) =>
        match AllocRanges(b, room)
        case Panics => Panics
        case Malformed => Malformed
        case Ok((ranges, rest)) => Ok((BlobPatch(col, ranges), rest))
    else Answered(GetBody(version, op, buf))
  }

  /** What comes before the body: op, table, key and causal length. */
  datatype RecordHeader = RecordHeader(op: byte, table: Id16, pk: Bytes, cl: uint64)

  function GetRecordHeader(buf: Bytes): (r: Option<(RecordHeader, Bytes)>)
    ensures r.Some? ==> |r.value.1| < |buf|
  {
    match TakeByte(buf)
    case None => None
    case Some((op, b1)) =>
      match Take(b1, 16)
      case None => None
      case Some((table, b2)) =>
        match GetFramed(b2)
        case None => None
        case Some((pk, b3)) =>
          match GetUvarint(b3)
          case None => None
          case Some((cl, b4)) => Some((RecordHeader(op, table, pk, cl), b4))
  }

  function AllocRecord(version: byte, buf: Bytes, room: Limits): (r: Answer<(Record, Bytes)>)
    ensures r.Ok? ==> |r.value.1| < |buf|
  {
    match GetRecordHeader(buf)
    case None => Malformed
    case Some((h, b)) =>
      match AllocBody(version, h.op, b, room)
      case Panics => Panics
      case Malformed => Malformed
      case Ok((body, rest)) => Ok((Record(h.table, h.pk, h.cl, body), rest))
  }

  function AllocRecords(version: byte, buf: Bytes, room: Limits, acc: seq<Record>): Answer<seq<Record>>
    decreases |buf|
  {
    if |buf| == 0 then Ok(acc)
    else
      match AllocRecord(version, buf, room)
      case Panics => Panics
      case Malformed => Malformed
      case Ok((r, rest)) => AllocRecords(version, rest, room, acc + [r])
  }

  /** The list count the record at the front of buf announces is more than there is room for. */
  predicate Overflows(buf: Bytes, room: Limits) {
    var h := GetRecordHeader(buf);
    h.Some? && BodyOverflows(h.value.0.op, h.value.1, room)
  }

  predicate BodyOverflows(op: byte, buf: Bytes, room: Limits) {
    if op == 1 || op == 2 then CountPast(buf, room.cols)
    else if op == 4 then |buf| >= 16 && CountPast(buf[16..], room.ranges)
    else false
  }

  predicate CountPast(buf: Bytes, limit: nat) { GetUvarint(buf).Some? && GetUvarint(buf).value.0 > limit }

  lemma AllocRecordIs(version: byte, buf: Bytes, room: Limits)
    ensures AllocRecord(version, buf, room) == if Overflows(buf, room) then Panics else Answered(GetRecord(version, buf))
  {
    var h := GetRecordHeader(buf);
    if h.Some? { AllocBodyIs(version, h.value.0.op, h.value.1, room); }
  }

  lemma AllocBodyIs(version: byte, op: byte, buf: Bytes, room: Limits)
    ensures AllocBody(version, op, buf, room) == if BodyOverflows(op, buf, room) then Panics else Answered(GetBody(version, op, buf))
  {
  }

  /** What is left of the payload once k records are read. */
  function Skip(version: byte, buf: Bytes, k: nat): Option<Bytes>
    decreases k
  {
    if k == 0 then Some(buf)
    else if |buf| == 0 then None
    else
      match GetRecord(version, buf)
      case None => None
      case Some((_, rest)) => Skip(version, rest, k - 1)
  }

  /** The payload reads up to some record whose list count is more than there is room for. */
  ghost predicate Chokes(version: byte, buf: Bytes, room: Limits) { exists k: nat :: ChokesAt(version, buf, room, k) }

  predicate ChokesAt(version: byte, buf: Bytes, room: Limits, k: nat) {
    var rest := Skip(version, buf, k);
    rest.Some? && rest.value != [] && Overflows(rest.value, room)
  }

  lemma ChokesLater(version: byte, buf: Bytes, room: Limits, rest: Bytes)
    requires |buf| > 0 && GetRecord(version, buf).Some? && GetRecord(version, buf).value.1 == rest && !Overflows(buf, room)
    ensures Chokes(version, buf, room) <==> Chokes(version, rest, room)
  {
    if k: nat :| ChokesAt(version, buf, room, k) {
      assert k > 0 && ChokesAt(version, rest, room, k - 1);
    }
    if k: nat :| ChokesAt(version, rest, room, k) {
      assert ChokesAt(version, buf, room, k + 1);
    }
  }

  lemma ChokesHere(version: byte, buf: Bytes, room: Limits)
    requires |buf| > 0
    ensures Overflows(buf, room) ==> Chokes(version, buf, room)
    ensures GetRecord(version, buf).None? && !Overflows(buf, room) ==> !Chokes(version, buf, room)
  {
    if Overflows(buf, room) { assert ChokesAt(version, buf, room, 0); }
    if GetRecord(version, buf).None? && !Overflows(buf, room) {
      forall k: nat ensures !ChokesAt(version, buf, room, k) {}
    }
  }

  lemma EmptyIsFine(version: byte, room: Limits)
    ensures !Chokes(version, [], room)
  {
    forall k: nat ensures !ChokesAt(version, [], room, k) {}
  }

  /** The decoder panics exactly on the payloads that choke it, and otherwise gives the reader's answer. */
  lemma {:induction false} PanicsIff(version: byte, buf: Bytes, room: Limits, acc: seq<Record>)
    ensures AllocRecords(version, buf, room, acc) ==
            if Chokes(version, buf, room) then Panics else Answered(GetRecords(version, buf, acc))
    decreases |buf|
  {
    if |buf| == 0 {
      EmptyIsFine(version, room);
    } else {
      AllocRecordIs(version, buf, room);
      ChokesHere(version, buf, room);
      var r := GetRecord(version, buf);
      if r.Some? && !Overflows(buf, room) {
        ChokesLater(version, buf, room, r.value.1);
        PanicsIff(version, r.value.1, room, acc + [r.value.0]);
      }
    }
  }

  /** A list longer than the bytes it is read from does not read: every element takes a byte. */
  lemma {:induction false} TooMany<T>(get: Reader<T>, buf: Bytes, n: nat, acc: seq<T>)
    requires forall b :: get(b).Some? ==> |get(b).value.1| < |b|
    requires n > |buf|
    ensures Many(get, buf, n, acc) == None
    decreases n
  {
    var r := get(buf);
    if r.Some? { TooMany(get, r.value.1, n - 1, acc + [r.value.0]); }
  }

  /** Refusing a count that the remaining bytes cannot hold, before making room for it, changes no result. */
  lemma {:induction false} GuardChangesNothing(version: byte, buf: Bytes)
    ensures GetUvarint(buf).Some? && GetUvarint(buf).value.0 > |GetUvarint(buf).value.1| ==> GetColumns(version, buf) == None && GetRanges(buf) == None
  {
    if GetUvarint(buf).Some? {
      var (n, rest) := GetUvarint(buf).value;
      if n > |rest| {
        TooMany(ColReader(version), rest, n, []);
        TooMany(RangeReader(), rest, n, []);
      }
    }
  }

  predicate RoomFor(room: Limits, n: nat) { room.cols >= n && room.ranges >= n }

  lemma {:induction false} OverflowIsMalformed(version: byte, buf: Bytes, room: Limits)
    requires RoomFor(room, |buf|) && Overflows(buf, room)
    ensures GetRecord(version, buf) == None
  {
    var (h, b) := GetRecordHeader(buf).value;
    if h.op == 4 { GuardChangesNothing(version, b[16..]); } else { GuardChangesNothing(version, b); }
  }

  /** With room for as many elements as the payload has bytes, no payload that reads panics. */
  lemma {:induction false} PanicIsMalformed(version: byte, buf: Bytes, room: Limits, acc: seq<Record>)
    requires RoomFor(room, |buf|) && Chokes(version, buf, room)
    ensures GetRecords(version, buf, acc) == None
    decreases |buf|
  {
    if |buf| == 0 {
      EmptyIsFine(version, room);
    } else if Overflows(buf, room) {
      OverflowIsMalformed(version, buf, room);
    } else {
      ChokesHere(version, buf, room);
      var r := GetRecord(version, buf);
      if r.Some? {
        ChokesLater(version, buf, room, r.value.1);
        PanicIsMalformed(version, r.value.1, room, acc + [r.value.0]);
      }
    }
  }

  /** An insert that announces 2^63 columns. */
  function HugeInsert(table: Id16): Bytes { [1] + (table + Framed([], Uvarint(0) + Uvarint(0x8000_0000_0000_0000))) }

  /** It panics wherever 2^63 columns are too many, which is everywhere, and is no more than malformed. */
  lemma {:induction false} HugeCountPanics(version: byte, table: Id16, room: Limits)
    requires room.cols < 0x8000_0000_0000_0000
    ensures AllocRecords(version, HugeInsert(table), room, []) == Panics
    ensures GetRecords(version, HugeInsert(table), []) == None
  {
    var buf, count := HugeInsert(table), Uvarint(0x8000_0000_0000_0000);
    var b2 := Framed([], Uvarint(0) + count);
    TakeFirst(1, table + b2);
    TakeAll(table, b2);
    GetFramedUndoes([], Uvarint(0) + count);
    GetUvarintUndoes(0, count);
    Unit(count);
    GetUvarintUndoes(0x8000_0000_0000_0000, []);
    assert Overflows(buf, room);
    assert ChokesAt(version, buf, room, 0);
    PanicsIff(version, buf, room, []);
    GuardChangesNothing(version, count);
  }

  method DecodeColumns(version: byte, buf: Bytes, room: Limits) returns (r: Answer<(seq<ColValue>, Bytes)>)
    ensures r == AllocColumns(version, buf, room)
  {
    var count := GetUvarint(buf);
    if count.None? { return Malformed; }
    if count.value.0 > room.cols { return Panics; }
    var cols := ReadMany(ColReader(version), count.value.1, count.value.0);
    r := Answered(cols);
  }

  method DecodeRecords(version: byte, payload: Bytes, room: Limits) returns (r: Answer<seq<Record>>)
    ensures r == AllocRecords(version, payload, room, [])
  {
    var recs, buf := [], payload;
    while |buf| > 0
      invariant AllocRecords(version, buf, room, recs) == AllocRecords(version, payload, room, [])
      decreases |buf|
    {
      var rec := AllocRecord(version, buf, room);
      match rec {
        case Panics => return Panics;
        case Malformed => return Malformed;
        case Ok((record, rest)) => recs, buf := recs + [record], rest;
      }
    }
    r := Ok(recs);
  }

  // ---------------------------------------------------------------------
  // The frame
  // ---------------------------------------------------------------------

  type Deps = map<uint16, uint64>

  datatype Dep = Dep(chain: uint16, seqno: uint64)

  datatype Changeset = Changeset(origin: uint64, seqno: uint64, clock: Clock, deps: Deps, cluster: Id16, records: seq<Record>)

  type Crc = Bytes -> uint64

  lemma {:induction false} LeastOf(keys: set<uint16>) returns (m: uint16)
    requires keys != {}
    ensures m in keys && forall k :: k in keys ==> m <= k
    decreases |keys|
  {
    var x :| x in keys;
    var rest := keys - {x};
    m := x;
    if rest != {} {
      var r := LeastOf(rest);
      if r < x { m := r; }
    }
    forall k | k in keys ensures m <= k { if k != x { assert k in rest; } }
  }

  function Least(keys: set<uint16>): (m: uint16)
    requires keys != {}
    ensures m in keys && forall k :: k in keys ==> m <= k
  {
    assert exists m :: m in keys && forall k :: k in keys ==> m <= k by { var m := LeastOf(keys); }
    var m :| m in keys && forall k :: k in keys ==> m <= k;
    m
  }

  lemma OneLess(deps: Deps, m: uint16)
    requires m in deps
    ensures deps == (deps - {m})[m := deps[m]] && |deps| == |deps - {m}| + 1
  {
    assert deps == (deps - {m})[m := deps[m]];
  }

  /** The dependencies in ascending order of chain, one each. */
  function Sorted(deps: Deps): (ds: seq<Dep>)
    ensures |ds| == |deps|
    decreases |deps|
  {
    if deps == map[] then []
    else
      var m := Least(deps.Keys);
      OneLess(deps, m);
      [Dep(m, deps[m])] + Sorted(deps - {m})
  }

  function PutDeps(ds: seq<Dep>, rest: Bytes): Bytes {
    if ds == [] then rest else BigEndian(ds[0].chain, 2) + (BigEndian(ds[0].seqno, 8) + PutDeps(ds[1..], rest))
  }

  /** n more dependencies into acc; a repeated chain keeps the last one. */
  function GetDeps(buf: Bytes, n: nat, acc: Deps): (r: Option<(Deps, Bytes)>)
    ensures r.Some? ==> |r.value.1| == |buf| - 10 * n
    decreases n
  {
    if n == 0 then Some((acc, buf))
    else
      match GetU16(buf)
      case None => None
      case Some((chain, b1)) =>
        match GetU64(b1)
        case None => None
        case Some((seqno, rest)) => GetDeps(rest, n - 1, acc[chain := seqno])
  }

  method DecodeDeps(buf: Bytes, n: nat) returns (r: Option<(Deps, Bytes)>)
    ensures r == GetDeps(buf, n, map[])
  {
    var deps: Deps, rest := map[], buf;
    for i := 0 to n
      invariant GetDeps(rest, n - i, deps) == GetDeps(buf, n, map[])
    {
      var chain := GetU16(rest);
      if chain.None? { return None; }
      var seqno := GetU64(chain.value.1);
      if seqno.None? { return None; }
      deps, rest := deps[chain.value.0 := seqno.value.0], seqno.value.1;
    }
    r := Some((deps, rest));
  }

  datatype Head = Head(origin: uint64, seqno: uint64, packed: uint64, cluster: Id16, deps: Deps)

  /** Origin, sequence number and packed clock. */
  function PutStamp(origin: uint64, seqno: uint64, packed: uint64, rest: Bytes): Bytes {
    BigEndian(origin, 8) + (BigEndian(seqno, 8) + (BigEndian(packed, 8) + rest))
  }

  function GetStamp(buf: Bytes): (r: Option<((uint64, uint64, uint64), Bytes)>)
    ensures r.Some? ==> |r.value.1| <= |buf|
  {
    match GetU64(buf)
    case None => None
    case Some((origin, b1)) =>
      match GetU64(b1)
      case None => None
      case Some((seqno, b2)) =>
        match GetU64(b2)
        case None => None
        case Some((packed, rest)) => Some(((origin, seqno, packed), rest))
  }

  lemma GetStampUndoes(origin: uint64, seqno: uint64, packed: uint64, rest: Bytes)
    ensures GetStamp(PutStamp(origin, seqno, packed, rest)) == Some(((origin, seqno, packed), rest))
  {
    GetU64Undoes(origin, BigEndian(seqno, 8) + (BigEndian(packed, 8) + rest));
    GetU64Undoes(seqno, BigEndian(packed, 8) + rest);
    GetU64Undoes(packed, rest);
  }

  function PutMembers(cluster: Id16, ds: seq<Dep>, rest: Bytes): Bytes
    requires |ds| <= 255
  {
    cluster + ([|ds|] + PutDeps(ds, rest))
  }

  function PutHead(origin: uint64, seqno: uint64, packed: uint64, cluster: Id16, ds: seq<Dep>, rest: Bytes): Bytes
    requires |ds| <= 255
  {
    PutStamp(origin, seqno, packed, PutMembers(cluster, ds, rest))
  }

  function GetHead(buf: Bytes): (r: Option<(Head, Bytes)>)
    ensures r.Some? ==> |r.value.1| <= |buf|
  {
    match GetStamp(buf)
    case None => None
    case Some((stamp, b)) => GetMembers(stamp.0, stamp.1, stamp.2, b)
  }

  function GetMembers(origin: uint64, seqno: uint64, packed: uint64, buf: Bytes): (r: Option<(Head, Bytes)>)
    ensures r.Some? ==> |r.value.1| <= |buf|
  {
    match Take(buf, 16)
    case None => None
    case Some((cluster, b1)) =>
      match TakeByte(b1)
      case None => None
      case Some((n, b2)) =>
        match GetDeps(b2, n, map[])
        case None => None
        case Some((deps, rest)) => Some((Head(origin, seqno, packed, cluster, deps), rest))
  }

  function PackedClock(c: Clock): uint64
    requires Packable(c)
  {
    PackIsOrderIsomorphism(c, c, 0);
    Pack(c)
  }

  predicate Buildable(cs: Changeset) { Packable(cs.clock) && |cs.deps| <= 255 }

  function HeadBytes(cs: Changeset, rest: Bytes): Bytes
    requires Buildable(cs)
  {
    [WIRE_VERSION] + PutHead(cs.origin, cs.seqno, PackedClock(cs.clock), cs.cluster, Sorted(cs.deps), rest)
  }

  function Tail(cs: Changeset): Bytes { var payload := PutRecords(cs.records, []); Uvarint(|payload|) + (payload + []) }

  /** The frame: head, checksum of everything else, framed payload. */
  function Encode(cs: Changeset, crc: Crc): Bytes
    requires Buildable(cs)
  {
    HeadBytes(cs, BigEndian(crc(HeadBytes(cs, []) + Tail(cs)), 8) + Tail(cs))
  }

  function Decode(input: Bytes, crc: Crc): Option<Changeset> {
    if |input| < 50 || (input[0] != WIRE_VERSION && input[0] != WIRE_VERSION_V1) then None
    else
      match GetHead(input[1..])
      case None => None
      case Some((head, b)) => DecodeRest(input[0], head, input[..|input| - |b|], b, crc)
  }

  /** Checksum, framed payload, nothing after it, and the records. */
  function DecodeRest(version: byte, head: Head, before: Bytes, b: Bytes, crc: Crc): Option<Changeset> {
    match GetU64(b)
    case None => None
    case Some((expected, after)) =>
      match GetFramed(after)
      case None => None
      case Some((payload, trailing)) =>
        if trailing != [] || crc(before + after) != expected then None
        else
          match GetRecords(version, payload, [])
          case None => None
          case Some(records) => Some(Changeset(head.origin, head.seqno, UnpackClock(head.packed), head.deps, head.cluster, records))
  }

  /** The head and the records' bytes of a frame that is whole. */
  function Payload(input: Bytes, crc: Crc): (r: Option<(Head, Bytes)>)
    ensures r.Some? ==> |r.value.1| <= |input|
  {
    if |input| < 50 || (input[0] != WIRE_VERSION && input[0] != WIRE_VERSION_V1) then None
    else
      match GetHead(input[1..])
      case None => None
      case Some((head, b)) =>
        match GetU64(b)
        case None => None
        case Some((expected, after)) =>
          match GetFramed(after)
          case None => None
          case Some((payload, trailing)) =>
            if trailing != [] || crc(input[..|input| - |b|] + after) != expected then None else Some((head, payload))
  }

  function AllocDecode(input: Bytes, crc: Crc, room: Limits): Answer<Changeset> {
    match Payload(input, crc)
    case None => Malformed
    case Some((head, payload)) =>
      match AllocRecords(input[0], payload, room, [])
      case Panics => Panics
      case Malformed => Malformed
      case Ok(records) => Ok(Changeset(head.origin, head.seqno, UnpackClock(head.packed), head.deps, head.cluster, records))
  }

  /** A frame panics exactly when it is whole, checksum included, and its payload chokes the decoder;
      otherwise the answer is Decode's. */
  lemma {:induction false} DecodePanicsIff(input: Bytes, crc: Crc, room: Limits)
    ensures AllocDecode(input, crc, room) ==
            if Payload(input, crc).Some? && Chokes(input[0], Payload(input, crc).value.1, room) then Panics else Answered(Decode(input, crc))
  {
    var p := Payload(input, crc);
    if p.Some? { PanicsIff(input[0], p.value.1, room, []); }
  }

  /** With room for as many elements as the frame has bytes, every frame that decodes is decoded. */
  lemma {:induction false} RoomyDecode(input: Bytes, crc: Crc, room: Limits)
    requires RoomFor(room, |input|) && Decode(input, crc).Some?
    ensures AllocDecode(input, crc, room) == Ok(Decode(input, crc).value)
  {
    DecodePanicsIff(input, crc, room);
    var payload := Payload(input, crc).value.1;
    if Chokes(input[0], payload, room) { PanicIsMalformed(input[0], payload, room, []); }
  }

  // Dependencies ------------------------------------------------------------

  function Folded(acc: Deps, ds: seq<Dep>): Deps
    decreases |ds|
  {
    if ds == [] then acc else Folded(acc[ds[0].chain := ds[0].seqno], ds[1..])
  }

  lemma {:induction false} GetDepsUndoes(ds: seq<Dep>, rest: Bytes, acc: Deps)
    ensures GetDeps(PutDeps(ds, rest), |ds|, acc) == Some((Folded(acc, ds), rest))
    decreases |ds|
  {
    if ds != [] {
      GetU16Undoes(ds[0].chain, BigEndian(ds[0].seqno, 8) + PutDeps(ds[1..], rest));
      GetU64Undoes(ds[0].seqno, PutDeps(ds[1..], rest));
      GetDepsUndoes(ds[1..], rest, acc[ds[0].chain := ds[0].seqno]);
    }
  }

  lemma {:induction false} PutDepsAppends(ds: seq<Dep>, rest: Bytes)
    ensures PutDeps(ds, rest) == PutDeps(ds, []) + rest
    decreases |ds|
  {
    if ds == [] {
      Unit(rest);
    } else {
      var more := PutDeps(ds[1..], []);
      PutDepsAppends(ds[1..], rest);
      Assoc(BigEndian(ds[0].seqno, 8), more, rest);
      Assoc(BigEndian(ds[0].chain, 2), BigEndian(ds[0].seqno, 8) + more, rest);
    }
  }

  lemma AddedOneByOne(acc: Deps, deps: Deps, m: uint16)
    requires m in deps
    ensures acc[m := deps[m]] + (deps - {m}) == acc + deps
  {
  }

  /** Folding the sorted list into any map adds the dependencies. */
  lemma {:induction false} SortedFolds(acc: Deps, deps: Deps)
    ensures Folded(acc, Sorted(deps)) == acc + deps
    decreases |deps|
  {
    if deps == map[] {
      assert acc + deps == acc;
    } else {
      var m := Least(deps.Keys);
      var rest := deps - {m};
      OneLess(deps, m);
      SortedFolds(acc[m := deps[m]], rest);
      assert Sorted(deps)[1..] == Sorted(rest);
      AddedOneByOne(acc, deps, m);
    }
  }

  lemma {:induction false} SortedHolds(deps: Deps, d: Dep)
    requires d in Sorted(deps)
    ensures d.chain in deps
    decreases |deps|
  {
    if deps != map[] {
      var m := Least(deps.Keys);
      OneLess(deps, m);
      if d != Dep(m, deps[m]) { SortedHolds(deps - {m}, d); }
    }
  }

  lemma {:induction false} SortedAscends(deps: Deps, i: nat, j: nat)
    requires i < j < |deps|
    ensures Sorted(deps)[i].chain < Sorted(deps)[j].chain
    decreases |deps|
  {
    var m := Least(deps.Keys);
    var rest := deps - {m};
    OneLess(deps, m);
    if i == 0 { SortedHolds(rest, Sorted(rest)[j - 1]); } else { SortedAscends(rest, i - 1, j - 1); }
  }

  lemma {:induction false} ReadDepsAreFew(buf: Bytes, n: nat, acc: Deps)
    requires GetDeps(buf, n, acc).Some?
    ensures |GetDeps(buf, n, acc).value.0| <= |acc| + n
    decreases n
  {
    if n > 0 {
      var (chain, b1) := GetU16(buf).value;
      var (seqno, rest) := GetU64(b1).value;
      ReadDepsAreFew(rest, n - 1, acc[chain := seqno]);
    }
  }

  // Round trip --------------------------------------------------------------

  lemma MembersUndone(origin: uint64, seqno: uint64, packed: uint64, cluster: Id16, n: byte, d: Bytes, deps: Deps, rest: Bytes)
    requires GetDeps(d, n, map[]) == Some((deps, rest))
    ensures GetMembers(origin, seqno, packed, cluster + ([n] + d)) == Some((Head(origin, seqno, packed, cluster, deps), rest))
  {
    TakeAll(cluster, [n] + d);
    TakeFirst(n, d);
  }

  lemma GetMembersUndoes(origin: uint64, seqno: uint64, packed: uint64, cluster: Id16, ds: seq<Dep>, rest: Bytes)
    requires |ds| <= 255
    ensures GetMembers(origin, seqno, packed, PutMembers(cluster, ds, rest))
            == Some((Head(origin, seqno, packed, cluster, Folded(map[], ds)), rest))
  {
    GetDepsUndoes(ds, rest, map[]);
    MembersUndone(origin, seqno, packed, cluster, |ds|, PutDeps(ds, rest), Folded(map[], ds), rest);
  }

  lemma GetHeadUndoes(origin: uint64, seqno: uint64, packed: uint64, cluster: Id16, ds: seq<Dep>, rest: Bytes)
    requires |ds| <= 255
    ensures GetHead(PutHead(origin, seqno, packed, cluster, ds, rest)) == Some((Head(origin, seqno, packed, cluster, Folded(map[], ds)), rest))
  {
    GetStampUndoes(origin, seqno, packed, PutMembers(cluster, ds, rest));
    GetMembersUndoes(origin, seqno, packed, cluster, ds, rest);
  }

  lemma PutHeadAppends(origin: uint64, seqno: uint64, packed: uint64, cluster: Id16, ds: seq<Dep>, rest: Bytes)
    requires |ds| <= 255
    ensures PutHead(origin, seqno, packed, cluster, ds, rest) == PutHead(origin, seqno, packed, cluster, ds, []) + rest
    ensures |PutHead(origin, seqno, packed, cluster, ds, [])| >= 41
  {
    var d := PutDeps(ds, []);
    var o, s, p := BigEndian(origin, 8), BigEndian(seqno, 8), BigEndian(packed, 8);
    PutDepsAppends(ds, rest);
    Assoc([|ds|], d, rest);
    Assoc(cluster, [|ds|] + d, rest);
    Assoc(p, cluster + ([|ds|] + d), rest);
    Assoc(s, p + (cluster + ([|ds|] + d)), rest);
    Assoc(o, s + (p + (cluster + ([|ds|] + d))), rest);
  }

  /** Decoding inverts building, up to the bytes carried on NULL columns. */
  lemma {:induction false} DecodeUndoesEncode(cs: Changeset, crc: Crc)
    requires Buildable(cs) && |PutRecords(cs.records, [])| < TWO_64 && forall r :: r in cs.records ==> Sized(r)
    ensures Decode(Encode(cs, crc), crc) == Some(cs.(records := NormalRecords(cs.records)))
  {
    var ds, payload, packed := Sorted(cs.deps), PutRecords(cs.records, []), PackedClock(cs.clock);
    var tail, sum := Tail(cs), crc(HeadBytes(cs, []) + Tail(cs));
    var b := BigEndian(sum, 8) + tail;
    PackIsOrderIsomorphism(cs.clock, cs.clock, 0);
    TakeFirst(WIRE_VERSION, PutHead(cs.origin, cs.seqno, packed, cs.cluster, ds, b));
    GetHeadUndoes(cs.origin, cs.seqno, packed, cs.cluster, ds, b);
    PutHeadAppends(cs.origin, cs.seqno, packed, cs.cluster, ds, b);
    FoldIsDeps(cs.deps);
    var input := Encode(cs, crc);
    HeadIsBefore(cs, b, input);
    RestUndoes(cs, Head(cs.origin, cs.seqno, packed, cs.cluster, cs.deps), HeadBytes(cs, []), crc);
  }

  /** A frame with any checksum word and anything after its payload decodes only if nothing is after it and the word
      is the checksum of everything else; and no other version is read at all. */
  lemma {:induction false} FrameIsChecked(cs: Changeset, crc: Crc, sum: uint64, extra: Bytes, version: byte, rest: Bytes)
    requires Buildable(cs) && |PutRecords(cs.records, [])| < TWO_64
    ensures var tail := Framed(PutRecords(cs.records, []), extra);
            extra != [] || sum != crc(HeadBytes(cs, []) + tail) ==> Decode(HeadBytes(cs, BigEndian(sum, 8) + tail), crc) == None
    ensures version != 1 && version != 2 ==> Decode([version] + rest, crc) == None
  {
    var ds, packed, tail := Sorted(cs.deps), PackedClock(cs.clock), Framed(PutRecords(cs.records, []), extra);
    var b := BigEndian(sum, 8) + tail;
    TakeFirst(WIRE_VERSION, PutHead(cs.origin, cs.seqno, packed, cs.cluster, ds, b));
    GetHeadUndoes(cs.origin, cs.seqno, packed, cs.cluster, ds, b);
    HeadIsBefore(cs, b, HeadBytes(cs, b));
    GetU64Undoes(sum, tail);
    GetFramedUndoes(PutRecords(cs.records, []), extra);
  }

  lemma FoldIsDeps(deps: Deps)
    ensures Folded(map[], Sorted(deps)) == deps
  {
    SortedFolds(map[], deps);
    assert map[] + deps == deps;
  }

  lemma HeadIsBefore(cs: Changeset, b: Bytes, input: Bytes)
    requires Buildable(cs) && input == HeadBytes(cs, b)
    ensures input == HeadBytes(cs, []) + b && |HeadBytes(cs, [])| >= 42 && input[..|input| - |b|] == HeadBytes(cs, [])
  {
    var ds := Sorted(cs.deps);
    PutHeadAppends(cs.origin, cs.seqno, PackedClock(cs.clock), cs.cluster, ds, b);
    var h := PutHead(cs.origin, cs.seqno, PackedClock(cs.clock), cs.cluster, ds, []);
    Assoc([WIRE_VERSION], h, b);
    TakeAll([WIRE_VERSION] + h, b);
  }

  lemma RestUndoes(cs: Changeset, head: Head, before: Bytes, crc: Crc)
    requires Packable(cs.clock) && head == Head(cs.origin, cs.seqno, PackedClock(cs.clock), cs.cluster, cs.deps)
    requires |PutRecords(cs.records, [])| < TWO_64 && forall r :: r in cs.records ==> Sized(r)
    ensures DecodeRest(WIRE_VERSION, head, before, BigEndian(crc(before + Tail(cs)), 8) + Tail(cs), crc)
            == Some(cs.(records := NormalRecords(cs.records)))
  {
    GetU64Undoes(crc(before + Tail(cs)), Tail(cs));
    GetFramedUndoes(PutRecords(cs.records, []), []);
    GetRecordsUndoes(cs.records, []);
    assert [] + NormalRecords(cs.records) == NormalRecords(cs.records);
    PackIsOrderIsomorphism(cs.clock, cs.clock, 0);
  }

  lemma ReadHeadHasFewDeps(buf: Bytes)
    requires GetHead(buf).Some?
    ensures |GetHead(buf).value.0.deps| <= 255
  {
    var b := GetStamp(buf).value.1;
    var (n, ds) := TakeByte(Take(b, 16).value.1).value;
    ReadDepsAreFew(ds, n, map[]);
  }

  /** Whatever decodes, under either version, is rebuilt and decoded to the same changeset. */
  lemma {:induction false} ReencodingIsStable(input: Bytes, crc: Crc)
    requires Decode(input, crc).Some? && |PutRecords(Decode(input, crc).value.records, [])| < TWO_64
    ensures var cs := Decode(input, crc).value; Buildable(cs) && Decode(Encode(cs, crc), crc) == Some(cs)
  {
    var cs := Decode(input, crc).value;
    var (head, b) := GetHead(input[1..]).value;
    var payload := GetFramed(GetU64(b).value.1).value.0;
    ReadHeadHasFewDeps(input[1..]);
    ReadRecordsAreClean(input[0], payload, []);
    CleanRecordsAreNormal(cs.records);
    DecodeUndoesEncode(cs, crc);
  }

  // Build -------------------------------------------------------------------

  datatype BuildResult = Built(bytes: Bytes) | OriginMismatch | TooManyDeps | Panic

  /** The producer's entry point: the stamp must carry the dot's origin, at most 255 dependencies fit, and a
      clock outside the wire range panics. */
  method Build(origin: uint64, seqno: uint64, stamp: Stamp, deps: Deps, cluster: Id16, records: seq<Record>, crc: Crc)
    returns (r: BuildResult)
    ensures var cs := Changeset(origin, seqno, stamp.clock, deps, cluster, records);
            r == if stamp.origin != origin then OriginMismatch
                 else if |deps| > 255 then TooManyDeps
                 else if !Packable(stamp.clock) then Panic
                 else Built(Encode(cs, crc))
  {
    if stamp.origin != origin { return OriginMismatch; }
    if |deps| > 255 { return TooManyDeps; }
    if !Packable(stamp.clock) { return Panic; }
    ghost var cs := Changeset(origin, seqno, stamp.clock, deps, cluster, records);
    var payload := EncodeRecords([], records);
    var head := [WIRE_VERSION] + PutHead(origin, seqno, PackedClock(stamp.clock), cluster, Sorted(deps), []);
    var tail := Uvarint(|payload|) + payload;
    FrameParts(cs, crc, payload);
    r := Built(head + (BigEndian(crc(head + tail), 8) + tail));
  }

  /** The frame is its head, the checksum slot and the framed payload, one after the other. */
  lemma {:induction false} FrameParts(cs: Changeset, crc: Crc, payload: Bytes)
    requires Buildable(cs) && payload == [] + PutRecords(cs.records, [])
    ensures var head, tail := HeadBytes(cs, []), Uvarint(|payload|) + payload;
            Encode(cs, crc) == head + (BigEndian(crc(head + tail), 8) + tail)
  {
    Unit(PutRecords(cs.records, []));
    Unit(payload);
    var b := BigEndian(crc(HeadBytes(cs, []) + Tail(cs)), 8) + Tail(cs);
    HeadIsBefore(cs, b, HeadBytes(cs, b));
  }
}
