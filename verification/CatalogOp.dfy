/** The catalog operations of the schema log and their wire forms (crdt/catalog_op.go): the framed form with
    its extension area, and the legacy form, which is only ever read. Every malformed input is one error. */
module CatalogOps {
  import opened Base
  import opened Wire
  import Predicate

  const ZERO_ID: Id16 := Predicate.ZERO_ID

  type int64 = x: int | -0x8000_0000_0000_0000 <= x < 0x8000_0000_0000_0000

  const SENTINEL: byte := 0xC0

  const CREATE_TABLE: byte := 1
  const ADD_COLUMN: byte := 2
  const RENAME_TABLE: byte := 3
  const RENAME_COLUMN: byte := 4
  const DROP_COLUMN: byte := 5
  const DROP_TABLE: byte := 6
  const ADD_UNIQUE_KEY: byte := 7
  const DROP_UNIQUE_KEY: byte := 8
  const CREATE_INDEX: byte := 9
  const CREATE_TRIGGER: byte := 15
  const DROP_TRIGGER: byte := 16
  const BUNDLE: byte := 17
  const SET_CLOCK_GROUP: byte := 18
  const ALTER_COLUMN: byte := 19

  const MIN_VERSION: nat := 4
  const MAX_VERSION: nat := 5

  /** The version an op of this kind is written under: only altered columns need the newer one. */
  function OpVersion(kind: byte): nat { if kind == ALTER_COLUMN then 5 else 4 }

  datatype Column = Column(id: Id16, name: Bytes, ordinal: int64, typ: Bytes, notNull: bool, isPK: bool, generated: bool,
                           pkPos: int64, dflt: Bytes, clockGroup: Bytes, collation: byte)

  datatype Member = Member(column: Id16, ordinal: int64)

  datatype Key = Key(keyID: Id16, members: seq<Member>, coordinated: bool, pred: Option<Predicate.Expr>)

  /** The kind selects which fields are meaningful. */
  datatype Op = Op(kind: byte, tableID: Id16, tableName: Bytes, columnID: Id16, columnName: Bytes, columns: seq<Column>,
                   withoutRowid: bool, keys: seq<Key>, keyID: Id16, rawSQL: Bytes, objectName: Bytes, subOps: seq<Op>, clockGroup: Bytes)

  function Blank(kind: byte): Op { Op(kind, ZERO_ID, [], ZERO_ID, [], [], false, [], ZERO_ID, [], [], [], []) }

  /** Which key fields a layout carries: both in the framed form, by flag bits in the legacy one. */
  datatype Layout = Layout(coord: bool, pred: bool)

  const FRAMED := Layout(true, true)

  // ---------------------------------------------------------------------
  // Scalars
  // ---------------------------------------------------------------------

  /** A signed number travels as its 64-bit two's complement. */
  function ToU64(x: int64): uint64 { if x < 0 then x + TWO_64 else x }

  function FromU64(n: uint64): int64 { if n >= 0x8000_0000_0000_0000 then n - TWO_64 else n }

  function PutInt(x: int64, rest: Bytes): Bytes { Uvarint(ToU64(x)) + rest }

  function GetInt(buf: Bytes): (r: Option<(int64, Bytes)>)
    ensures r.Some? ==> |r.value.1| < |buf|
  {
    match GetUvarint(buf)
    case None => None
    case Some((n, rest)) => Some((FromU64(n), rest))
  }

  lemma GetIntUndoes(x: int64, rest: Bytes)
    ensures GetInt(PutInt(x, rest)) == Some((x, rest))
  {
    GetUvarintUndoes(ToU64(x), rest);
  }

  function PutBool(b: bool, rest: Bytes): Bytes { [if b then 1 else 0] + rest }

  function GetBool(buf: Bytes): (r: Option<(bool, Bytes)>)
    ensures r.Some? ==> |r.value.1| < |buf|
  {
    match TakeByte(buf)
    case None => None
    case Some((b, rest)) => Some((b != 0, rest))
  }

  lemma GetBoolUndoes(b: bool, rest: Bytes)
    ensures GetBool(PutBool(b, rest)) == Some((b, rest))
  {
    TakeFirst(if b then 1 else 0, rest);
  }

  // ---------------------------------------------------------------------
  // Columns
  // ---------------------------------------------------------------------

  function Flags(c: Column): byte { (if c.notNull then 1 else 0) + (if c.isPK then 2 else 0) + (if c.generated then 4 else 0) }

  function PutColumn(c: Column, rest: Bytes): (b: Bytes)
    ensures |b| > |rest|
  {
    c.id + Framed(c.name, PutInt(c.ordinal, Framed(c.typ, PutAttributes(c, rest))))
  }

  function PutAttributes(c: Column, rest: Bytes): (b: Bytes)
    ensures |b| > |rest|
  {
    [Flags(c)] + PutInt(c.pkPos, PutTexts(c.dflt, c.clockGroup, c.collation, rest))
  }

  function PutTexts(dflt: Bytes, group: Bytes, coll: byte, rest: Bytes): Bytes { Framed(dflt, Framed(group, [coll] + rest)) }

  function GetTexts(buf: Bytes): (r: Option<((Bytes, Bytes, byte), Bytes)>)
    ensures r.Some? ==> |r.value.1| <= |buf|
  {
    match GetFramed(buf)
    case None => None
    case Some((dflt, b1)) =>
      match GetFramed(b1)
      case None => None
      case Some((group, b2)) =>
        match TakeByte(b2)
        case None => None
        case Some((coll, rest)) => Some(((dflt, group, coll), rest))
  }

  lemma GetTextsUndoes(dflt: Bytes, group: Bytes, coll: byte, rest: Bytes)
    requires |dflt| < TWO_64 && |group| < TWO_64
    ensures GetTexts(PutTexts(dflt, group, coll, rest)) == Some(((dflt, group, coll), rest))
  {
    GetFramedUndoes(dflt, Framed(group, [coll] + rest));
    GetFramedUndoes(group, [coll] + rest);
    TakeFirst(coll, rest);
  }

  function GetColumn(buf: Bytes): (r: Option<(Column, Bytes)>)
    ensures r.Some? ==> |r.value.1| < |buf|
  {
    match Take(buf, 16)
    case None => None
    case Some((id, b1)) =>
      match GetFramed(b1)
      case None => None
      case Some((name, b2)) =>
        match GetInt(b2)
        case None => None
        case Some((ordinal, b3)) =>
          match GetFramed(b3)
          case None => None
          case Some((typ, b4)) => GetAttributes(id, name, ordinal, typ, b4)
  }

  /** Flag bits above the three known ones are refused. */
  function GetAttributes(id: Id16, name: Bytes, ordinal: int64, typ: Bytes, buf: Bytes): (r: Option<(Column, Bytes)>)
    ensures r.Some? ==> |r.value.1| <= |buf|
  {
    match TakeByte(buf)
    case None => None
    case Some((flags, b1)) =>
      if flags > 7 then None
      else
        match GetInt(b1)
        case None => None
        case Some((pkPos, b2)) =>
          match GetTexts(b2)
          case None => None
          case Some((t, rest)) => Some((WithFlags(id, name, ordinal, typ, flags, pkPos, t.0, t.1, t.2), rest))
  }

  function WithFlags(id: Id16, name: Bytes, ordinal: int64, typ: Bytes, flags: byte, pkPos: int64, dflt: Bytes, group: Bytes, coll: byte): Column {
    Column(id, name, ordinal, typ, flags % 2 == 1, flags / 2 % 2 == 1, flags / 4 % 2 == 1, pkPos, dflt, group, coll)
  }

  lemma FlagsUndone(c: Column)
    ensures Flags(c) <= 7 && WithFlags(c.id, c.name, c.ordinal, c.typ, Flags(c), c.pkPos, c.dflt, c.clockGroup, c.collation) == c
  {
  }

  predicate ColumnOk(c: Column) { |c.name| < TWO_64 && |c.typ| < TWO_64 && |c.dflt| < TWO_64 && |c.clockGroup| < TWO_64 }

  lemma GetAttributesUndoes(c: Column, rest: Bytes)
    requires ColumnOk(c)
    ensures GetAttributes(c.id, c.name, c.ordinal, c.typ, PutAttributes(c, rest)) == Some((c, rest))
  {
    var b2 := PutTexts(c.dflt, c.clockGroup, c.collation, rest);
    FlagsUndone(c);
    TakeFirst(Flags(c), PutInt(c.pkPos, b2));
    GetIntUndoes(c.pkPos, b2);
    GetTextsUndoes(c.dflt, c.clockGroup, c.collation, rest);
  }

  lemma GetColumnUndoes(c: Column, rest: Bytes)
    requires ColumnOk(c)
    ensures GetColumn(PutColumn(c, rest)) == Some((c, rest))
  {
    var b4 := PutAttributes(c, rest);
    var b3 := Framed(c.typ, b4);
    var b2 := PutInt(c.ordinal, b3);
    TakeAll(c.id, Framed(c.name, b2));
    GetFramedUndoes(c.name, b2);
    GetIntUndoes(c.ordinal, b3);
    GetFramedUndoes(c.typ, b4);
    GetAttributesUndoes(c, rest);
  }

  function ColumnWriter(): Writer<Column> { (c: Column, b: Bytes) => PutColumn(c, b) }

  function ColumnReader(): Reader<Column> { (b: Bytes) => GetColumn(b) }

  function PutColumns(cols: seq<Column>, rest: Bytes): Bytes { Uvarint(|cols|) + PutAll(ColumnWriter(), cols, rest) }

  /** A count beyond the bytes left is refused before it is used. */
  function GetColumns(buf: Bytes): Option<(seq<Column>, Bytes)> {
    match GetUvarint(buf)
    case None => None
    case Some((n, b)) => if n > |b| then None else Many(ColumnReader(), b, n, [])
  }

  predicate ColumnsOk(cols: seq<Column>) { |cols| < TWO_64 && forall c :: c in cols ==> ColumnOk(c) }

  lemma {:induction false} GetColumnsUndoes(cols: seq<Column>, rest: Bytes)
    requires ColumnsOk(cols)
    ensures GetColumns(PutColumns(cols, rest)) == Some((cols, rest))
  {
    var put, get := ColumnWriter(), ColumnReader();
    GetUvarintUndoes(|cols|, PutAll(put, cols, rest));
    PutAllIsLong(put, cols, rest);
    forall c, more | c in cols ensures get(put(c, more)) == Some((c, more)) { GetColumnUndoes(c, more); }
    ManyUndoesAll(get, put, cols, rest, []);
    Unit(cols);
  }

  // ---------------------------------------------------------------------
  // Keys
  // ---------------------------------------------------------------------

  function PutMember(m: Member, rest: Bytes): (b: Bytes)
    ensures |b| > |rest|
  {
    m.column + PutInt(m.ordinal, rest)
  }

  function MemberWriter(): Writer<Member> { (m: Member, b: Bytes) => PutMember(m, b) }

  function MemberReader(): Reader<Member> { (b: Bytes) => GetMember(b) }

  function PutMembers(ms: seq<Member>, rest: Bytes): Bytes { Uvarint(|ms|) + PutAll(MemberWriter(), ms, rest) }

  function GetMember(buf: Bytes): (r: Option<(Member, Bytes)>)
    ensures r.Some? ==> |r.value.1| < |buf|
  {
    match Take(buf, 16)
    case None => None
    case Some((column, b)) =>
      match GetInt(b)
      case None => None
      case Some((ordinal, rest)) => Some((Member(column, ordinal), rest))
  }

  function GetMembers(buf: Bytes): Option<(seq<Member>, Bytes)> {
    match GetUvarint(buf)
    case None => None
    case Some((n, b)) => if n > |b| then None else Many(MemberReader(), b, n, [])
  }

  lemma GetMemberUndoes(m: Member, rest: Bytes)
    ensures GetMember(PutMember(m, rest)) == Some((m, rest))
  {
    TakeAll(m.column, PutInt(m.ordinal, rest));
    GetIntUndoes(m.ordinal, rest);
  }

  lemma GetMembersUndoes(ms: seq<Member>, rest: Bytes)
    requires |ms| < TWO_64
    ensures GetMembers(PutMembers(ms, rest)) == Some((ms, rest))
  {
    var put, get := MemberWriter(), MemberReader();
    GetUvarintUndoes(|ms|, PutAll(put, ms, rest));
    PutAllIsLong(put, ms, rest);
    forall m, more | m in ms ensures get(put(m, more)) == Some((m, more)) { GetMemberUndoes(m, more); }
    ManyUndoesAll(get, put, ms, rest, []);
    Unit(ms);
  }

  predicate KeyOk(k: Key) { |k.members| < TWO_64 && Predicate.WellFormedOption(k.pred) }

  /** What one key carries besides its id, in a layout. */
  function PutKeyBody(k: Key, l: Layout, rest: Bytes): Bytes
    requires KeyOk(k)
  {
    var tail := PutMembers(k.members, rest);
    var pred := if l.pred then Predicate.PutPredicate(k.pred, tail) else tail;
    if l.coord then PutBool(k.coordinated, pred) else pred
  }

  function GetKeyBody(id: Id16, l: Layout, buf: Bytes): Option<(Key, Bytes)> {
    if l.coord then
      match GetBool(buf)
      case None => None
      case Some((coordinated, b)) => GetKeyPred(id, coordinated, l, b)
    else GetKeyPred(id, false, l, buf)
  }

  function GetKeyPred(id: Id16, coordinated: bool, l: Layout, buf: Bytes): Option<(Key, Bytes)> {
    if l.pred then
      match Predicate.GetPredicate(buf)
      case None => None
      case Some((pred, b)) => GetKeyTail(id, coordinated, pred, b)
    else GetKeyTail(id, coordinated, None, buf)
  }

  function GetKeyTail(id: Id16, coordinated: bool, pred: Option<Predicate.Expr>, buf: Bytes): Option<(Key, Bytes)> {
    match GetMembers(buf)
    case None => None
    case Some((members, rest)) => Some((Key(id, members, coordinated, pred), rest))
  }

  /** The key as a layout shows it, under the given id. */
  function SeenKey(k: Key, l: Layout, id: Id16): Key
    requires KeyOk(k)
  {
    Key(id, k.members, l.coord && k.coordinated, if l.pred then Predicate.NormalOption(k.pred) else None)
  }

  /** A layout that carries the predicate can only carry one within the node limit. */
  predicate ReadableKey(k: Key, l: Layout)
    requires KeyOk(k)
  {
    l.pred ==> Predicate.Small(k.pred)
  }

  lemma GetKeyBodyUndoes(k: Key, l: Layout, id: Id16, rest: Bytes)
    requires KeyOk(k)
    ensures GetKeyBody(id, l, PutKeyBody(k, l, rest)) == if ReadableKey(k, l) then Some((SeenKey(k, l, id), rest)) else None
  {
    var tail := PutMembers(k.members, rest);
    GetMembersUndoes(k.members, rest);
    if l.pred { Predicate.PredicateRoundTripIff(k.pred, tail); }
    if l.coord { GetBoolUndoes(k.coordinated, if l.pred then Predicate.PutPredicate(k.pred, tail) else tail); }
  }

  /** One key under its own id. */
  function PutKey(k: Key, l: Layout, rest: Bytes): Bytes
    requires KeyOk(k)
  {
    k.keyID + PutKeyBody(k, l, rest)
  }

  function KeyWriter(l: Layout): Writer<Key> { (k: Key, b: Bytes) => if KeyOk(k) then PutKey(k, l, b) else b }

  function PutKeys(ks: seq<Key>, l: Layout, rest: Bytes): Bytes { Uvarint(|ks|) + PutAll(KeyWriter(l), ks, rest) }

  function GetKey(buf: Bytes, l: Layout): Option<(Key, Bytes)> {
    match Take(buf, 16)
    case None => None
    case Some((id, b)) => GetKeyBody(id, l, b)
  }

  function KeyReader(l: Layout): Reader<Key> { (b: Bytes) => GetKey(b, l) }

  function GetKeys(buf: Bytes, l: Layout): Option<(seq<Key>, Bytes)> {
    match GetUvarint(buf)
    case None => None
    case Some((n, b)) => if n > |b| then None else Many(KeyReader(l), b, n, [])
  }

  predicate KeysOk(ks: seq<Key>) { |ks| < TWO_64 && forall k :: k in ks ==> KeyOk(k) }

  function KeySeen(l: Layout): Key -> Key { (k: Key) => if KeyOk(k) then SeenKey(k, l, k.keyID) else k }

  function SeenKeys(ks: seq<Key>, l: Layout): seq<Key> { Mapped(KeySeen(l), ks) }

  function KeyReadable(l: Layout): Key -> bool { (k: Key) => KeyOk(k) && ReadableKey(k, l) }

  predicate ReadableKeys(ks: seq<Key>, l: Layout) { AllOk(KeyReadable(l), ks) }

  lemma GetKeyUndoes(k: Key, l: Layout, more: Bytes)
    requires KeyOk(k)
    ensures GetKey(PutKey(k, l, more), l) == if ReadableKey(k, l) then Some((SeenKey(k, l, k.keyID), more)) else None
  {
    TakeAll(k.keyID, PutKeyBody(k, l, more));
    GetKeyBodyUndoes(k, l, k.keyID, more);
  }

  lemma PutKeyAppends(k: Key, l: Layout, rest: Bytes)
    requires KeyOk(k)
    ensures PutKey(k, l, rest) == PutKey(k, l, []) + rest && |PutKey(k, l, rest)| > |rest|
  {
    PutKeyBodyAppends(k, l, rest);
    Assoc(k.keyID, PutKeyBody(k, l, []), rest);
  }

  lemma {:induction false} GetKeysUndoes(ks: seq<Key>, l: Layout, rest: Bytes)
    requires KeysOk(ks)
    ensures GetKeys(PutKeys(ks, l, rest), l) == if ReadableKeys(ks, l) then Some((SeenKeys(ks, l), rest)) else None
  {
    var put, get, ok, seen := KeyWriter(l), KeyReader(l), KeyReadable(l), KeySeen(l);
    GetUvarintUndoes(|ks|, PutAll(put, ks, rest));
    forall k, more | k in ks ensures |put(k, more)| > |more| { PutKeyAppends(k, l, more); }
    PutAllIsLong(put, ks, rest);
    forall k, more | k in ks ensures get(put(k, more)) == if ok(k) then Some((seen(k), more)) else None { GetKeyUndoes(k, l, more); }
    ManyUndoes(get, put, ok, seen, ks, rest, []);
    Unit(SeenKeys(ks, l));
  }

  // ---------------------------------------------------------------------
  // Bodies
  // ---------------------------------------------------------------------

  predicate HasTable(kind: byte) { 1 <= kind <= 8 || kind == CREATE_TRIGGER || kind == DROP_TRIGGER || kind == SET_CLOCK_GROUP || kind == ALTER_COLUMN }

  predicate IsObject(kind: byte) { CREATE_INDEX <= kind <= DROP_TRIGGER }

  predicate HasColumns(kind: byte) { kind == CREATE_TABLE || kind == ADD_COLUMN || kind == ALTER_COLUMN }

  predicate Simple(kind: byte) { 1 <= kind <= ALTER_COLUMN && kind != BUNDLE }

  /** What the encoder asks of the fields the kind uses: 64-bit lengths, well-formed keys, one key to add. */
  predicate BodyOk(op: Op) {
    && Simple(op.kind)
    && |op.tableName| < TWO_64 && |op.columnName| < TWO_64 && |op.rawSQL| < TWO_64 && |op.objectName| < TWO_64 && |op.clockGroup| < TWO_64
    && (HasColumns(op.kind) ==> ColumnsOk(op.columns))
    && (op.kind == CREATE_TABLE ==> KeysOk(op.keys))
    && (op.kind == ADD_UNIQUE_KEY ==> |op.keys| == 1 && KeyOk(op.keys[0]))
  }

  function PutBody(op: Op, l: Layout, rest: Bytes): Bytes
    requires BodyOk(op)
  {
    if HasTable(op.kind) then op.tableID + PutFields(op, l, rest) else PutFields(op, l, rest)
  }

  /** The fields after the table id. */
  function PutFields(op: Op, l: Layout, rest: Bytes): Bytes
    requires BodyOk(op)
  {
    if op.kind == CREATE_TABLE then Framed(op.tableName, PutColumns(op.columns, PutKeys(op.keys, l, PutBool(op.withoutRowid, rest))))
    else if op.kind == ADD_COLUMN || op.kind == ALTER_COLUMN then PutColumns(op.columns, rest)
    else if op.kind == RENAME_TABLE then Framed(op.tableName, rest)
    else if op.kind == RENAME_COLUMN then op.columnID + Framed(op.columnName, rest)
    else if op.kind == DROP_COLUMN then op.columnID + rest
    else if op.kind == DROP_TABLE then rest
    else if op.kind == SET_CLOCK_GROUP then Framed(op.clockGroup, rest)
    else if op.kind == ADD_UNIQUE_KEY then op.keyID + PutKeyBody(op.keys[0], l, rest)
    else if op.kind == DROP_UNIQUE_KEY then op.keyID + rest
    else Framed(op.objectName, Framed(op.rawSQL, rest))
  }

  function GetBody(kind: byte, l: Layout, buf: Bytes): Option<(Op, Bytes)> {
    if !Simple(kind) then None
    else if HasTable(kind) then
      match Take(buf, 16)
      case None => None
      case Some((table, b)) => GetFields(Blank(kind).(tableID := table), l, b)
    else GetFields(Blank(kind), l, buf)
  }

  function GetFields(o: Op, l: Layout, buf: Bytes): Option<(Op, Bytes)> {
    if o.kind == CREATE_TABLE then GetCreateTable(o, l, buf)
    else if o.kind == ADD_COLUMN || o.kind == ALTER_COLUMN then
      match GetColumns(buf) case None => None case Some((cols, rest)) => Some((o.(columns := cols), rest))
    else if o.kind == RENAME_TABLE then
      match GetFramed(buf) case None => None case Some((name, rest)) => Some((o.(tableName := name), rest))
    else if o.kind == RENAME_COLUMN || o.kind == DROP_COLUMN then GetColumnRef(o, buf)
    else if o.kind == DROP_TABLE then Some((o, buf))
    else if o.kind == SET_CLOCK_GROUP then
      match GetFramed(buf) case None => None case Some((group, rest)) => Some((o.(clockGroup := group), rest))
    else if o.kind == ADD_UNIQUE_KEY || o.kind == DROP_UNIQUE_KEY then GetKeyRef(o, l, buf)
    else GetObject(o, buf)
  }

  function GetCreateTable(o: Op, l: Layout, buf: Bytes): Option<(Op, Bytes)> {
    match GetFramed(buf)
    case None => None
    case Some((name, b1)) =>
      match GetColumns(b1)
      case None => None
      case Some((cols, b2)) =>
        match GetKeys(b2, l)
        case None => None
        case Some((keys, b3)) =>
          match GetBool(b3)
          case None => None
          case Some((w, rest)) => Some((o.(tableName := name, columns := cols, keys := keys, withoutRowid := w), rest))
  }

  function GetColumnRef(o: Op, buf: Bytes): Option<(Op, Bytes)> {
    match Take(buf, 16)
    case None => None
    case Some((column, b)) =>
      if o.kind == DROP_COLUMN then Some((o.(columnID := column), b))
      else
        match GetFramed(b)
        case None => None
        case Some((name, rest)) => Some((o.(columnID := column, columnName := name), rest))
  }

  function GetKeyRef(o: Op, l: Layout, buf: Bytes): Option<(Op, Bytes)> {
    match Take(buf, 16)
    case None => None
    case Some((id, b)) =>
      if o.kind == DROP_UNIQUE_KEY then Some((o.(keyID := id), b))
      else
        match GetKeyBody(id, l, b)
        case None => None
        case Some((k, rest)) => Some((o.(keyID := id, keys := [k]), rest))
  }

  function GetObject(o: Op, buf: Bytes): Option<(Op, Bytes)> {
    match GetFramed(buf)
    case None => None
    case Some((name, b)) =>
      match GetFramed(b)
      case None => None
      case Some((sql, rest)) => Some((o.(objectName := name, rawSQL := sql), rest))
  }

  /** Of the fields after the table id, those the kind uses, as a layout shows them. */
  function ShownFields(op: Op, l: Layout, o: Op): Op
    requires BodyOk(op)
  {
    if op.kind == CREATE_TABLE then
      o.(tableName := op.tableName, columns := op.columns, keys := SeenKeys(op.keys, l), withoutRowid := op.withoutRowid)
    else if op.kind == ADD_COLUMN || op.kind == ALTER_COLUMN then o.(columns := op.columns)
    else if op.kind == RENAME_TABLE then o.(tableName := op.tableName)
    else if op.kind == RENAME_COLUMN then o.(columnID := op.columnID, columnName := op.columnName)
    else if op.kind == DROP_COLUMN then o.(columnID := op.columnID)
    else if op.kind == DROP_TABLE then o
    else if op.kind == SET_CLOCK_GROUP then o.(clockGroup := op.clockGroup)
    else if op.kind == ADD_UNIQUE_KEY then o.(keyID := op.keyID, keys := [SeenKey(op.keys[0], l, op.keyID)])
    else if op.kind == DROP_UNIQUE_KEY then o.(keyID := op.keyID)
    else o.(objectName := op.objectName, rawSQL := op.rawSQL)
  }

  /** The op with the fields its kind ignores cleared, as a layout shows it. */
  function Shown(op: Op, l: Layout): Op
    requires BodyOk(op)
  {
    ShownFields(op, l, if HasTable(op.kind) then Blank(op.kind).(tableID := op.tableID) else Blank(op.kind))
  }

  predicate ReadableBody(op: Op, l: Layout)
    requires BodyOk(op)
  {
    && (op.kind == CREATE_TABLE ==> ReadableKeys(op.keys, l))
    && (op.kind == ADD_UNIQUE_KEY ==> ReadableKey(op.keys[0], l))
  }

  lemma GetCreateTableUndoes(op: Op, l: Layout, o: Op, rest: Bytes)
    requires BodyOk(op) && op.kind == CREATE_TABLE
    ensures GetCreateTable(o, l, PutFields(op, l, rest)) == if ReadableBody(op, l) then Some((ShownFields(op, l, o), rest)) else None
  {
    var b3 := PutBool(op.withoutRowid, rest);
    var b2 := PutKeys(op.keys, l, b3);
    var b1 := PutColumns(op.columns, b2);
    GetFramedUndoes(op.tableName, b1);
    GetColumnsUndoes(op.columns, b2);
    GetKeysUndoes(op.keys, l, b3);
    GetBoolUndoes(op.withoutRowid, rest);
  }

  lemma GetRefsUndo(op: Op, l: Layout, o: Op, rest: Bytes)
    requires BodyOk(op) && o.kind == op.kind
    ensures op.kind == RENAME_COLUMN || op.kind == DROP_COLUMN ==> GetColumnRef(o, PutFields(op, l, rest)) == Some((ShownFields(op, l, o), rest))
    ensures op.kind == DROP_UNIQUE_KEY ==> GetKeyRef(o, l, PutFields(op, l, rest)) == Some((ShownFields(op, l, o), rest))
    ensures IsObject(op.kind) ==> GetObject(o, PutFields(op, l, rest)) == Some((ShownFields(op, l, o), rest))
  {
    TakeAll(op.columnID, if op.kind == DROP_COLUMN then rest else Framed(op.columnName, rest));
    GetFramedUndoes(op.columnName, rest);
    TakeAll(op.keyID, rest);
    GetFramedUndoes(op.objectName, Framed(op.rawSQL, rest));
    GetFramedUndoes(op.rawSQL, rest);
  }

  lemma GetAddedKeyUndoes(op: Op, l: Layout, o: Op, rest: Bytes)
    requires BodyOk(op) && op.kind == ADD_UNIQUE_KEY && o.kind == op.kind
    ensures GetKeyRef(o, l, PutFields(op, l, rest)) == if ReadableBody(op, l) then Some((ShownFields(op, l, o), rest)) else None
  {
    AddedFields(op, l, o, rest);
    AddedKey(o, l, op.keyID, PutKeyBody(op.keys[0], l, rest));
    GetKeyBodyUndoes(op.keys[0], l, op.keyID, rest);
  }

  lemma AddedFields(op: Op, l: Layout, o: Op, rest: Bytes)
    requires BodyOk(op) && op.kind == ADD_UNIQUE_KEY
    ensures PutFields(op, l, rest) == op.keyID + PutKeyBody(op.keys[0], l, rest)
    ensures ShownFields(op, l, o) == o.(keyID := op.keyID, keys := [SeenKey(op.keys[0], l, op.keyID)])
  {
  }

  lemma AddedKey(o: Op, l: Layout, id: Id16, b: Bytes)
    requires o.kind == ADD_UNIQUE_KEY
    ensures GetKeyRef(o, l, id + b) ==
            match GetKeyBody(id, l, b) case None => None case Some((k, rest)) => Some((o.(keyID := id, keys := [k]), rest))
  {
    TakeAll(id, b);
  }

  lemma GetFieldsUndoes(op: Op, l: Layout, o: Op, rest: Bytes)
    requires BodyOk(op) && o.kind == op.kind
    ensures GetFields(o, l, PutFields(op, l, rest)) == if ReadableBody(op, l) then Some((ShownFields(op, l, o), rest)) else None
  {
    if op.kind == CREATE_TABLE { GetCreateTableUndoes(op, l, o, rest); }
    else if HasColumns(op.kind) { GetColumnsUndoes(op.columns, rest); }
    else if op.kind == RENAME_TABLE { GetFramedUndoes(op.tableName, rest); }
    else if op.kind == SET_CLOCK_GROUP { GetFramedUndoes(op.clockGroup, rest); }
    else if op.kind == ADD_UNIQUE_KEY { GetAddedKeyUndoes(op, l, o, rest); }
    else { GetRefsUndo(op, l, o, rest); }
  }

  /** A body reads back as its layout shows it, exactly when its predicates keep within the node limit. */
  lemma {:induction false} GetBodyUndoes(op: Op, l: Layout, rest: Bytes)
    requires BodyOk(op)
    ensures GetBody(op.kind, l, PutBody(op, l, rest)) == if ReadableBody(op, l) then Some((Shown(op, l), rest)) else None
  {
    if HasTable(op.kind) {
      TakeAll(op.tableID, PutFields(op, l, rest));
      GetFieldsUndoes(op, l, Blank(op.kind).(tableID := op.tableID), rest);
    } else {
      GetFieldsUndoes(op, l, Blank(op.kind), rest);
    }
  }

  // ---------------------------------------------------------------------
  // Whole ops
  // ---------------------------------------------------------------------

  /** The envelope: sentinel, version, kind; then the body, then whatever follows it. */
  function Envelope(kind: byte, body: Bytes): (b: Bytes)
    ensures |b| > 0
  {
    [SENTINEL] + (Uvarint(OpVersion(kind)) + (Uvarint(kind) + body))
  }

  function PutSimple(op: Op, rest: Bytes): (b: Bytes)
    requires BodyOk(op)
    ensures |b| > 0
  {
    Envelope(op.kind, PutBody(op, FRAMED, rest))
  }

  /** A sub-op of a bundle travels as its own length-framed envelope. */
  predicate SubOk(op: Op) { BodyOk(op) && |PutSimple(op, [])| < TWO_64 }

  function SubWriter(): Writer<Op> { (o: Op, b: Bytes) => if SubOk(o) then Framed(PutSimple(o, []), b) else b }

  function PutSubs(subs: seq<Op>, rest: Bytes): Bytes { PutAll(SubWriter(), subs, rest) }

  /** The ops the encoder accepts: simple ones, and bundles of simple ones. */
  predicate Encodable(op: Op) {
    if op.kind == BUNDLE then |op.subOps| < TWO_64 && forall o :: o in op.subOps ==> SubOk(o) else BodyOk(op)
  }

  /** The framed op with an extension area after it. */
  function PutOp(op: Op, ext: Bytes): (b: Bytes)
    requires Encodable(op)
    ensures |b| > 0
  {
    if op.kind == BUNDLE then Envelope(BUNDLE, Uvarint(|op.subOps|) + PutSubs(op.subOps, ext)) else PutSimple(op, ext)
  }

  function Encode(op: Op): Bytes
    requires Encodable(op)
  {
    PutOp(op, [])
  }

  /** Extension entries to the end of the buffer: a tag of at least one, a length, that many bytes. */
  predicate Extensions(buf: Bytes)
    decreases |buf|
  {
    if |buf| == 0 then true
    else
      match GetUvarint(buf)
      case None => false
      case Some((tag, b1)) =>
        if tag == 0 then false
        else
          match GetFramed(b1)
          case None => false
          case Some((_, rest)) => Extensions(rest)
  }

  function GetKind(buf: Bytes): Option<(byte, Bytes)> {
    match GetUvarint(buf)
    case None => None
    case Some((version, b1)) =>
      if version < MIN_VERSION || version > MAX_VERSION then None
      else
        match GetUvarint(b1)
        case None => None
        case Some((kind, b2)) => if kind == 0 || kind > 0xFF then None else Some((kind, b2))
  }

  /** Either format; a bundle only where one is allowed. */
  function DecodeOp(buf: Bytes, allowBundle: bool): Option<Op>
    decreases allowBundle, 3
  {
    if |buf| < 1 then None
    else if buf[0] == SENTINEL then
      match GetKind(buf[1..])
      case None => None
      case Some((kind, b)) =>
        match GetAny(kind, FRAMED, b, allowBundle)
        case None => None
        case Some((op, ext)) => if Extensions(ext) then Some(op) else None
    else
      match GetAny(buf[0] % 64, LegacyLayout(buf[0]), buf[1..], allowBundle)
      case None => None
      case Some((op, rest)) => if rest == [] then Some(op) else None
  }

  /** The legacy kind byte: the high bits say which key fields are carried. */
  function LegacyLayout(b: byte): Layout { Layout(b >= 128, b / 64 % 2 == 1) }

  function GetAny(kind: byte, l: Layout, buf: Bytes, allowBundle: bool): Option<(Op, Bytes)>
    decreases allowBundle, 2
  {
    if kind == BUNDLE then if allowBundle then GetBundle(buf) else None else GetBody(kind, l, buf)
  }

  function GetBundle(buf: Bytes): Option<(Op, Bytes)>
    decreases true, 1
  {
    match GetUvarint(buf)
    case None => None
    case Some((n, b)) =>
      if n > |b| then None
      else
        match Many(SubReader(), b, n, [])
        case None => None
        case Some((subs, rest)) => Some((Blank(BUNDLE).(subOps := subs), rest))
  }

  function SubReader(): Reader<Op>
    decreases true, 0
  {
    (b: Bytes) => GetSub(b)
  }

  function GetSub(buf: Bytes): Option<(Op, Bytes)>
    decreases false, 4
  {
    match GetFramed(buf)
    case None => None
    case Some((sub, rest)) =>
      match DecodeOp(sub, false)
      case None => None
      case Some(op) => Some((op, rest))
  }

  lemma GetKindUndoes(kind: byte, body: Bytes)
    requires kind > 0
    ensures GetKind(Uvarint(OpVersion(kind)) + (Uvarint(kind) + body)) == Some((kind, body))
  {
    GetUvarintUndoes(OpVersion(kind), Uvarint(kind) + body);
    GetUvarintUndoes(kind, body);
  }

  lemma DecodeEnvelope(kind: byte, body: Bytes, allowBundle: bool)
    requires kind > 0
    ensures DecodeOp(Envelope(kind, body), allowBundle) ==
            match GetAny(kind, FRAMED, body, allowBundle)
            case None => None
            case Some((op, ext)) => if Extensions(ext) then Some(op) else None
  {
    TakeFirst(SENTINEL, Uvarint(OpVersion(kind)) + (Uvarint(kind) + body));
    GetKindUndoes(kind, body);
  }

  lemma DecodeSimpleUndoes(op: Op, ext: Bytes, allowBundle: bool)
    requires BodyOk(op)
    ensures DecodeOp(PutSimple(op, ext), allowBundle) == if ReadableBody(op, FRAMED) && Extensions(ext) then Some(Shown(op, FRAMED)) else None
  {
    DecodeEnvelope(op.kind, PutBody(op, FRAMED, ext), allowBundle);
    GetBodyUndoes(op, FRAMED, ext);
  }

  function SubShown(): Op -> Op { (o: Op) => if SubOk(o) then Shown(o, FRAMED) else o }

  function ShownSubs(subs: seq<Op>): seq<Op> { Mapped(SubShown(), subs) }

  function SubReadable(): Op -> bool { (o: Op) => SubOk(o) && ReadableBody(o, FRAMED) }

  predicate ReadableSubs(subs: seq<Op>) { AllOk(SubReadable(), subs) }

  lemma GetSubUndoes(op: Op, more: Bytes)
    requires SubOk(op)
    ensures GetSub(Framed(PutSimple(op, []), more)) == if ReadableBody(op, FRAMED) then Some((Shown(op, FRAMED), more)) else None
  {
    GetFramedUndoes(PutSimple(op, []), more);
    DecodeSimpleUndoes(op, [], false);
  }

  lemma GetBundleUndoes(subs: seq<Op>, rest: Bytes)
    requires |subs| < TWO_64 && forall o :: o in subs ==> SubOk(o)
    ensures GetBundle(Uvarint(|subs|) + PutSubs(subs, rest)) ==
            if ReadableSubs(subs) then Some((Blank(BUNDLE).(subOps := ShownSubs(subs)), rest)) else None
  {
    var put, get, ok, seen := SubWriter(), SubReader(), SubReadable(), SubShown();
    GetUvarintUndoes(|subs|, PutSubs(subs, rest));
    forall o, more | o in subs ensures |put(o, more)| > |more| { FramedAppends(PutSimple(o, []), more); }
    PutAllIsLong(put, subs, rest);
    forall o, more | o in subs ensures get(put(o, more)) == if ok(o) then Some((seen(o), more)) else None { GetSubUndoes(o, more); }
    ManyUndoes(get, put, ok, seen, subs, rest, []);
    Unit(ShownSubs(subs));
  }

  /** The op with the fields its kind ignores cleared. */
  function Normal(op: Op): Op
    requires Encodable(op)
  {
    if op.kind == BUNDLE then Blank(BUNDLE).(subOps := ShownSubs(op.subOps)) else Shown(op, FRAMED)
  }

  /** Every predicate it carries keeps within 256 nodes. */
  predicate Readable(op: Op)
    requires Encodable(op)
  {
    if op.kind == BUNDLE then ReadableSubs(op.subOps) else ReadableBody(op, FRAMED)
  }

  /** Decoding undoes encoding up to ignored fields, whatever follows, exactly when that is a well-formed
      extension area and every predicate keeps within the node limit. */
  lemma {:induction false} OpRoundTripIff(op: Op, ext: Bytes)
    requires Encodable(op)
    ensures DecodeOp(PutOp(op, ext), true) == if Readable(op) && Extensions(ext) then Some(Normal(op)) else None
  {
    if op.kind == BUNDLE {
      DecodeEnvelope(BUNDLE, Uvarint(|op.subOps|) + PutSubs(op.subOps, ext), true);
      GetBundleUndoes(op.subOps, ext);
    } else {
      DecodeSimpleUndoes(op, ext, true);
    }
  }

  // Extension entries -------------------------------------------------------

  datatype Ext = Ext(tag: uint64, bytes: Bytes)

  predicate ExtOk(x: Ext) { x.tag >= 1 && |x.bytes| < TWO_64 }

  function PutExts(xs: seq<Ext>): Bytes { if xs == [] then [] else Uvarint(xs[0].tag) + Framed(xs[0].bytes, PutExts(xs[1..])) }

  /** Any list of well-formed entries is a well-formed extension area. */
  lemma {:induction false} ExtsAreExtensions(xs: seq<Ext>)
    requires forall x :: x in xs ==> ExtOk(x)
    ensures Extensions(PutExts(xs))
    decreases |xs|
  {
    if xs != [] {
      assert ExtOk(xs[0]);
      ExtsAreExtensions(xs[1..]);
      GetUvarintUndoes(xs[0].tag, Framed(xs[0].bytes, PutExts(xs[1..])));
      GetFramedUndoes(xs[0].bytes, PutExts(xs[1..]));
    }
  }

  function PutExtsThen(xs: seq<Ext>, rest: Bytes): Bytes {
    if xs == [] then rest else Uvarint(xs[0].tag) + Framed(xs[0].bytes, PutExtsThen(xs[1..], rest))
  }

  /** An entry with tag zero, or one cut short, after any entries spoils the area. */
  lemma {:induction false} BadEntryIsRefused(xs: seq<Ext>, tag: uint64, n: uint64, bytes: Bytes)
    requires (forall x :: x in xs ==> ExtOk(x)) && (tag == 0 || |bytes| < n)
    ensures !Extensions(PutExtsThen(xs, Uvarint(tag) + (Uvarint(n) + bytes)))
    decreases |xs|
  {
    var bad := Uvarint(tag) + (Uvarint(n) + bytes);
    if xs == [] {
      GetUvarintUndoes(tag, Uvarint(n) + bytes);
      GetUvarintUndoes(n, bytes);
    } else {
      var more := PutExtsThen(xs[1..], bad);
      assert ExtOk(xs[0]);
      BadEntryIsRefused(xs[1..], tag, n, bytes);
      GetUvarintUndoes(xs[0].tag, Framed(xs[0].bytes, more));
      GetFramedUndoes(xs[0].bytes, more);
    }
  }

  // What is written -----------------------------------------------------------

  /** A framed op announces the oldest version that knows its kind: 5 for altered columns, 4 for the rest. */
  lemma {:induction false} OldestVersionIsWritten(op: Op, ext: Bytes)
    requires Encodable(op)
    ensures |PutOp(op, ext)| >= 3 && PutOp(op, ext)[..3] == [0xC0, if op.kind == 19 then 5 else 4, op.kind]
  {
  }

  /** Every kind from 1 to 19 travels, here with nothing in it: a bundle of nothing, and one key to add. */
  lemma {:induction false} EveryKindTravels(kind: byte, key: Key)
    requires 1 <= kind <= 19 && KeyOk(key) && key.pred == None
    ensures var op := if kind == 7 then Blank(kind).(keys := [key]) else Blank(kind);
            Encodable(op) && DecodeOp(Encode(op), true) == Some(if kind == 7 then op.(keys := [key.(keyID := ZERO_ID)]) else op)
  {
    var op := if kind == 7 then Blank(kind).(keys := [key]) else Blank(kind);
    if kind != BUNDLE { BareOpIsShown(op, key); }
    OpRoundTripIff(op, []);
  }

  lemma BareOpIsShown(op: Op, key: Key)
    requires Simple(op.kind) && KeyOk(key) && key.pred == None && op == if op.kind == 7 then Blank(7).(keys := [key]) else Blank(op.kind)
    ensures BodyOk(op) && ReadableBody(op, FRAMED)
    ensures Shown(op, FRAMED) == if op.kind == 7 then op.(keys := [key.(keyID := ZERO_ID)]) else op
  {
  }

  // What is refused -----------------------------------------------------------

  /** Only versions 4 and 5 and the kinds up to 19 are known; nothing else decodes, whatever follows. */
  lemma {:induction false} UnknownEnvelopeIsRefused(version: uint64, kind: uint64, body: Bytes, allowBundle: bool)
    requires !(4 <= version <= 5) || !(1 <= kind <= 19)
    ensures DecodeOp([0xC0] + (Uvarint(version) + (Uvarint(kind) + body)), allowBundle) == None
  {
    TakeFirst(0xC0, Uvarint(version) + (Uvarint(kind) + body));
    GetUvarintUndoes(version, Uvarint(kind) + body);
    GetUvarintUndoes(kind, body);
  }

  /** A legacy kind byte whose low six bits are no known kind, and an empty buffer, are refused. */
  lemma {:induction false} UnknownLegacyKindIsRefused(b: byte, body: Bytes, allowBundle: bool)
    requires b != 0xC0 && !(1 <= b % 64 <= 19)
    ensures DecodeOp([b] + body, allowBundle) == None && DecodeOp([], allowBundle) == None
  {
    TakeFirst(b, body);
  }

  /** A legacy op is the whole buffer: anything after it is refused. */
  lemma {:induction false} LegacyTrailingIsRefused(op: Op, l: Layout, rest: Bytes, allowBundle: bool)
    requires BodyOk(op) && rest != []
    ensures DecodeOp([LegacyByte(op.kind, l)] + PutBody(op, l, rest), allowBundle) == None
  {
    LegacyByteUndone(op.kind, l);
    TakeFirst(LegacyByte(op.kind, l), PutBody(op, l, rest));
    GetBodyUndoes(op, l, rest);
  }

  /** A column whose flag byte has a bit no version defines is refused. */
  lemma {:induction false} UnknownFlagsAreRefused(c: Column, flags: byte, rest: Bytes)
    requires ColumnOk(c) && flags >= 8
    ensures GetColumn(c.id + Framed(c.name, PutInt(c.ordinal, Framed(c.typ, [flags] + rest)))) == None
  {
    var b4 := [flags] + rest;
    var b3 := Framed(c.typ, b4);
    var b2 := PutInt(c.ordinal, b3);
    TakeAll(c.id, Framed(c.name, b2));
    GetFramedUndoes(c.name, b2);
    GetIntUndoes(c.ordinal, b3);
    GetFramedUndoes(c.typ, b4);
    TakeFirst(flags, rest);
  }

  /** A flag byte that is not zero is true. */
  lemma {:induction false} AnyNonZeroIsTrue(b: byte, rest: Bytes)
    ensures GetBool([b] + rest) == Some((b != 0, rest))
  {
    TakeFirst(b, rest);
  }

  // The legacy format -------------------------------------------------------

  function LegacyByte(kind: byte, l: Layout): byte
    requires kind < 64
  {
    kind + (if l.coord then 128 else 0) + (if l.pred then 64 else 0)
  }

  function PutLegacy(op: Op, l: Layout): Bytes
    requires BodyOk(op)
  {
    [LegacyByte(op.kind, l)] + PutBody(op, l, [])
  }

  lemma LegacyByteUndone(kind: byte, l: Layout)
    requires 0 < kind < 64
    ensures LegacyByte(kind, l) % 64 == kind && LegacyLayout(LegacyByte(kind, l)) == l && LegacyByte(kind, l) != SENTINEL
  {
  }

  lemma {:induction false} LegacySimpleUndoes(op: Op, l: Layout, allowBundle: bool)
    requires BodyOk(op)
    ensures DecodeOp(PutLegacy(op, l), allowBundle) == if ReadableBody(op, l) then Some(Shown(op, l)) else None
  {
    LegacyByteUndone(op.kind, l);
    TakeFirst(LegacyByte(op.kind, l), PutBody(op, l, []));
    GetBodyUndoes(op, l, []);
  }

  /** A bundle inside a bundle is refused, in either format and with whatever body. */
  lemma {:induction false} NestedBundleIsRefused(body: Bytes, l: Layout)
    ensures DecodeOp(Envelope(BUNDLE, body), false) == None
    ensures DecodeOp([LegacyByte(BUNDLE, l)] + body, false) == None
  {
    DecodeEnvelope(BUNDLE, body, false);
    LegacyByteUndone(BUNDLE, l);
    TakeFirst(LegacyByte(BUNDLE, l), body);
  }

  // Bundles of either format ------------------------------------------------

  /** How a sub-op travels: framed, with an extension area, or legacy. */
  datatype Form = InFrame(ext: Bytes) | InLegacy(layout: Layout)

  datatype Sub = Sub(op: Op, form: Form)

  function LayoutOf(f: Form): Layout { if f.InFrame? then FRAMED else f.layout }

  function PutSubForm(x: Sub): Bytes
    requires BodyOk(x.op)
  {
    if x.form.InFrame? then PutSimple(x.op, x.form.ext) else PutLegacy(x.op, x.form.layout)
  }

  predicate MixedOk(x: Sub) { BodyOk(x.op) && |PutSubForm(x)| < TWO_64 && (x.form.InFrame? ==> Extensions(x.form.ext)) }

  function MixedWriter(): Writer<Sub> { (x: Sub, b: Bytes) => if MixedOk(x) then Framed(PutSubForm(x), b) else b }

  function MixedReadable(): Sub -> bool { (x: Sub) => MixedOk(x) && ReadableBody(x.op, LayoutOf(x.form)) }

  function MixedShown(): Sub -> Op { (x: Sub) => if MixedOk(x) then Shown(x.op, LayoutOf(x.form)) else x.op }

  function PutMixed(subs: seq<Sub>, rest: Bytes): Bytes { Uvarint(|subs|) + PutAll(MixedWriter(), subs, rest) }

  predicate MixedBundle(subs: seq<Sub>) { |subs| < TWO_64 && forall x :: x in subs ==> MixedOk(x) }

  function MixedMeans(subs: seq<Sub>): Op { Blank(BUNDLE).(subOps := Mapped(MixedShown(), subs)) }

  lemma GetMixedUndoes(x: Sub, more: Bytes)
    requires MixedOk(x)
    ensures GetSub(Framed(PutSubForm(x), more)) ==
            if ReadableBody(x.op, LayoutOf(x.form)) then Some((Shown(x.op, LayoutOf(x.form)), more)) else None
  {
    GetFramedUndoes(PutSubForm(x), more);
    if x.form.InFrame? { DecodeSimpleUndoes(x.op, x.form.ext, false); } else { LegacySimpleUndoes(x.op, x.form.layout, false); }
  }

  lemma GetMixedBundleUndoes(subs: seq<Sub>, rest: Bytes)
    requires MixedBundle(subs)
    ensures GetBundle(PutMixed(subs, rest)) == if AllOk(MixedReadable(), subs) then Some((MixedMeans(subs), rest)) else None
  {
    var put, get, ok, seen := MixedWriter(), SubReader(), MixedReadable(), MixedShown();
    GetUvarintUndoes(|subs|, PutAll(put, subs, rest));
    forall x, more | x in subs ensures |put(x, more)| > |more| { FramedAppends(PutSubForm(x), more); }
    PutAllIsLong(put, subs, rest);
    forall x, more | x in subs ensures get(put(x, more)) == if ok(x) then Some((seen(x), more)) else None { GetMixedUndoes(x, more); }
    ManyUndoes(get, put, ok, seen, subs, rest, []);
    Unit(Mapped(seen, subs));
  }

  /** A bundle in either format, with sub-ops in either format and extension areas wherever a frame allows
      one, reads back as each sub-op's layout shows it, exactly when every predicate keeps within the limit. */
  lemma {:induction false} BundleRoundTripIff(subs: seq<Sub>, l: Layout, ext: Bytes)
    requires MixedBundle(subs) && Extensions(ext)
    ensures DecodeOp([LegacyByte(BUNDLE, l)] + PutMixed(subs, []), true) == if AllOk(MixedReadable(), subs) then Some(MixedMeans(subs)) else None
    ensures DecodeOp(Envelope(BUNDLE, PutMixed(subs, ext)), true) == if AllOk(MixedReadable(), subs) then Some(MixedMeans(subs)) else None
  {
    LegacyByteUndone(BUNDLE, l);
    TakeFirst(LegacyByte(BUNDLE, l), PutMixed(subs, []));
    GetMixedBundleUndoes(subs, []);
    DecodeEnvelope(BUNDLE, PutMixed(subs, ext), true);
    GetMixedBundleUndoes(subs, ext);
  }

  /** An op of any kind in the legacy format, with every sub-op in the given layout. */
  function LegacySubs(ops: seq<Op>, l: Layout): seq<Sub> { Mapped((o: Op) => Sub(o, InLegacy(l)), ops) }

  predicate LegacyEncodable(op: Op, l: Layout) {
    if op.kind == BUNDLE then MixedBundle(LegacySubs(op.subOps, l)) else BodyOk(op)
  }

  function EncodeLegacy(op: Op, l: Layout): Bytes
    requires LegacyEncodable(op, l)
  {
    if op.kind == BUNDLE then [LegacyByte(BUNDLE, l)] + PutMixed(LegacySubs(op.subOps, l), []) else PutLegacy(op, l)
  }

  /** What the legacy reader makes of it. */
  function LegacyMeans(op: Op, l: Layout): Option<Op>
    requires LegacyEncodable(op, l)
  {
    if op.kind == BUNDLE then
      var subs := LegacySubs(op.subOps, l);
      if AllOk(MixedReadable(), subs) then Some(MixedMeans(subs)) else None
    else if ReadableBody(op, l) then Some(Shown(op, l))
    else None
  }

  /** An op of any kind written in any of the four legacy layouts is never taken for a framed one, and reads
      back as that layout shows it, exactly when every predicate the layout carries keeps within the limit. */
  lemma {:induction false} LegacyRoundTripIff(op: Op, l: Layout)
    requires LegacyEncodable(op, l)
    ensures EncodeLegacy(op, l)[0] != SENTINEL && DecodeOp(EncodeLegacy(op, l), true) == LegacyMeans(op, l)
  {
    LegacyByteUndone(op.kind, l);
    if op.kind == BUNDLE { BundleRoundTripIff(LegacySubs(op.subOps, l), l, []); } else { LegacySimpleUndoes(op, l, true); }
  }

  lemma {:induction false} LegacySubsShow(ops: seq<Op>)
    requires forall o :: o in ops ==> SubOk(o) && MixedOk(Sub(o, InLegacy(FRAMED)))
    ensures Mapped(MixedShown(), LegacySubs(ops, FRAMED)) == ShownSubs(ops)
    ensures AllOk(MixedReadable(), LegacySubs(ops, FRAMED)) <==> ReadableSubs(ops)
    decreases |ops|
  {
    if ops != [] {
      LegacySubsShow(ops[1..]);
      assert LegacySubs(ops, FRAMED)[1..] == LegacySubs(ops[1..], FRAMED);
    }
  }

  /** With both flags set the legacy format and the framed one decode to the same op, bundles included. */
  lemma {:induction false} FormatsAgree(op: Op)
    requires Encodable(op) && LegacyEncodable(op, FRAMED)
    ensures DecodeOp(EncodeLegacy(op, FRAMED), true) == DecodeOp(Encode(op), true)
  {
    OpRoundTripIff(op, []);
    LegacyRoundTripIff(op, FRAMED);
    if op.kind == BUNDLE {
      var subs := LegacySubs(op.subOps, FRAMED);
      MappedAt((o: Op) => Sub(o, InLegacy(FRAMED)), op.subOps);
      forall o | o in op.subOps ensures MixedOk(Sub(o, InLegacy(FRAMED))) {
        var i :| 0 <= i < |op.subOps| && op.subOps[i] == o;
        assert subs[i] in subs;
      }
      LegacySubsShow(op.subOps);
    }
  }

  // ---------------------------------------------------------------------
  // Writing appends
  // ---------------------------------------------------------------------

  lemma PutAttributesAppends(c: Column, rest: Bytes)
    ensures PutAttributes(c, rest) == PutAttributes(c, []) + rest
  {
    var coll, group := [c.collation], Framed(c.clockGroup, []);
    var pos, dflt := Uvarint(ToU64(c.pkPos)), Framed(c.dflt, []);
    Unit(coll);
    FramedAppends(c.clockGroup, coll + rest);
    FramedAppends(c.clockGroup, coll);
    Assoc(group, coll, rest);
    FramedAppends(c.dflt, group + coll + rest);
    FramedAppends(c.dflt, group + coll);
    Assoc(dflt, group + coll, rest);
    Assoc(pos, dflt + (group + coll), rest);
    Assoc([Flags(c)], pos + (dflt + (group + coll)), rest);
  }

  lemma PutColumnAppends(c: Column, rest: Bytes)
    ensures PutColumn(c, rest) == PutColumn(c, []) + rest
  {
    var attrs, ord := PutAttributes(c, []), Uvarint(ToU64(c.ordinal));
    PutAttributesAppends(c, rest);
    FramedAppends(c.typ, attrs + rest);
    FramedAppends(c.typ, attrs);
    var typ := Framed(c.typ, attrs);
    Assoc(Framed(c.typ, []), attrs, rest);
    Assoc(ord, typ, rest);
    FramedAppends(c.name, ord + typ + rest);
    FramedAppends(c.name, ord + typ);
    Assoc(Framed(c.name, []), ord + typ, rest);
    Assoc(c.id, Framed(c.name, ord + typ), rest);
  }

  lemma PutColumnsAppends(cols: seq<Column>, rest: Bytes)
    ensures PutColumns(cols, rest) == PutColumns(cols, []) + rest
  {
    var put := ColumnWriter();
    forall c, more | c in cols ensures put(c, more) == put(c, []) + more { PutColumnAppends(c, more); }
    PutAllAppends(put, cols, rest);
    Assoc(Uvarint(|cols|), PutAll(put, cols, []), rest);
  }

  lemma PutMemberAppends(m: Member, rest: Bytes)
    ensures PutMember(m, rest) == PutMember(m, []) + rest
  {
    Unit(Uvarint(ToU64(m.ordinal)));
    Assoc(m.column, Uvarint(ToU64(m.ordinal)), rest);
  }

  lemma PutMembersAppends(ms: seq<Member>, rest: Bytes)
    ensures PutMembers(ms, rest) == PutMembers(ms, []) + rest
  {
    var put := MemberWriter();
    forall m, more | m in ms ensures put(m, more) == put(m, []) + more { PutMemberAppends(m, more); }
    PutAllAppends(put, ms, rest);
    Assoc(Uvarint(|ms|), PutAll(put, ms, []), rest);
  }

  lemma PutKeyBodyAppends(k: Key, l: Layout, rest: Bytes)
    requires KeyOk(k)
    ensures PutKeyBody(k, l, rest) == PutKeyBody(k, l, []) + rest
  {
    var ms := PutMembers(k.members, []);
    PutMembersAppends(k.members, rest);
    var head: Bytes := if l.pred then Predicate.PutPredicate(k.pred, []) else [];
    if l.pred {
      Predicate.PutPredicateAppends(k.pred, ms + rest);
      Predicate.PutPredicateAppends(k.pred, ms);
      Assoc(head, ms, rest);
    }
    Unit(ms);
    Assoc([if k.coordinated then 1 else 0], if l.pred then head + ms else ms, rest);
  }

  lemma PutKeysAppends(ks: seq<Key>, l: Layout, rest: Bytes)
    requires KeysOk(ks)
    ensures PutKeys(ks, l, rest) == PutKeys(ks, l, []) + rest
  {
    var put := KeyWriter(l);
    forall k, more | k in ks ensures put(k, more) == put(k, []) + more { PutKeyAppends(k, l, more); }
    PutAllAppends(put, ks, rest);
    Assoc(Uvarint(|ks|), PutAll(put, ks, []), rest);
  }

  lemma PutTableAppends(op: Op, l: Layout, rest: Bytes)
    requires BodyOk(op) && op.kind == CREATE_TABLE
    ensures PutFields(op, l, rest) == PutFields(op, l, []) + rest
  {
    var w: Bytes := [if op.withoutRowid then 1 else 0];
    Unit(w);
    PutKeysAppends(op.keys, l, w + rest);
    PutKeysAppends(op.keys, l, w);
    Assoc(PutKeys(op.keys, l, []), w, rest);
    var keys := PutKeys(op.keys, l, w);
    PutColumnsAppends(op.columns, keys + rest);
    PutColumnsAppends(op.columns, keys);
    var cols := PutColumns(op.columns, []);
    Assoc(cols, keys, rest);
    FramedAppends(op.tableName, cols + keys + rest);
    FramedAppends(op.tableName, cols + keys);
    Assoc(Framed(op.tableName, []), cols + keys, rest);
  }

  lemma PutFieldsAppends(op: Op, l: Layout, rest: Bytes)
    requires BodyOk(op)
    ensures PutFields(op, l, rest) == PutFields(op, l, []) + rest
  {
    if op.kind == CREATE_TABLE {
      PutTableAppends(op, l, rest);
    } else if HasColumns(op.kind) {
      PutColumnsAppends(op.columns, rest);
    } else if op.kind == RENAME_TABLE {
      FramedAppends(op.tableName, rest);
    } else if op.kind == RENAME_COLUMN {
      FramedAppends(op.columnName, rest);
      Assoc(op.columnID, Framed(op.columnName, []), rest);
    } else if op.kind == SET_CLOCK_GROUP {
      FramedAppends(op.clockGroup, rest);
    } else if op.kind == ADD_UNIQUE_KEY {
      PutKeyBodyAppends(op.keys[0], l, rest);
      Assoc(op.keyID, PutKeyBody(op.keys[0], l, []), rest);
    } else if IsObject(op.kind) {
      var sql := Framed(op.rawSQL, []);
      FramedAppends(op.rawSQL, rest);
      FramedAppends(op.objectName, sql + rest);
      FramedAppends(op.objectName, sql);
      Assoc(Framed(op.objectName, []), sql, rest);
    } else {
      Unit(rest);
      Unit(op.columnID);
      Unit(op.keyID);
    }
  }

  lemma EnvelopeAppends(kind: byte, body: Bytes, rest: Bytes)
    ensures Envelope(kind, body + rest) == Envelope(kind, body) + rest
  {
    Assoc(Uvarint(kind), body, rest);
    Assoc(Uvarint(OpVersion(kind)), Uvarint(kind) + body, rest);
    Assoc([SENTINEL], Uvarint(OpVersion(kind)) + (Uvarint(kind) + body), rest);
  }

  lemma PutSubsAppends(subs: seq<Op>, rest: Bytes)
    requires forall o :: o in subs ==> SubOk(o)
    ensures PutSubs(subs, rest) == PutSubs(subs, []) + rest
  {
    var put := SubWriter();
    forall o, more | o in subs ensures put(o, more) == put(o, []) + more { FramedAppends(PutSimple(o, []), more); }
    PutAllAppends(put, subs, rest);
  }

  /** An extension area is written by appending it to the encoded op. */
  lemma {:induction false} ExtensionsAreAppended(op: Op, ext: Bytes)
    requires Encodable(op)
    ensures PutOp(op, ext) == Encode(op) + ext
  {
    if op.kind == BUNDLE {
      PutSubsAppends(op.subOps, ext);
      Assoc(Uvarint(|op.subOps|), PutSubs(op.subOps, []), ext);
      EnvelopeAppends(BUNDLE, Uvarint(|op.subOps|) + PutSubs(op.subOps, []), ext);
    } else {
      PutFieldsAppends(op, FRAMED, ext);
      Assoc(op.tableID, PutFields(op, FRAMED, []), ext);
      EnvelopeAppends(op.kind, PutBody(op, FRAMED, []), ext);
    }
  }

  /** Appending well-formed extension entries to an encoded op does not change what it decodes to. */
  lemma {:induction false} ExtensionsAreIgnored(op: Op, xs: seq<Ext>)
    requires Encodable(op) && forall x :: x in xs ==> ExtOk(x)
    ensures DecodeOp(Encode(op) + PutExts(xs), true) == DecodeOp(Encode(op), true)
    ensures DecodeOp(Encode(op), true) == if Readable(op) then Some(Normal(op)) else None
  {
    ExtsAreExtensions(xs);
    ExtensionsAreAppended(op, PutExts(xs));
    OpRoundTripIff(op, PutExts(xs));
    OpRoundTripIff(op, []);
  }

  // ---------------------------------------------------------------------
  // The loops
  // ---------------------------------------------------------------------

  method AppendColumns(buf: Bytes, cols: seq<Column>) returns (out: Bytes)
    ensures out == buf + PutColumns(cols, [])
  {
    Assoc(buf, Uvarint(|cols|), PutAll(ColumnWriter(), cols, []));
    forall c, more | c in cols ensures ColumnWriter()(c, more) == ColumnWriter()(c, []) + more { PutColumnAppends(c, more); }
    out := AppendAll(ColumnWriter(), buf + Uvarint(|cols|), cols);
  }

  method AppendKeys(buf: Bytes, ks: seq<Key>) returns (out: Bytes)
    requires KeysOk(ks)
    ensures out == buf + PutKeys(ks, FRAMED, [])
  {
    Assoc(buf, Uvarint(|ks|), PutAll(KeyWriter(FRAMED), ks, []));
    forall k, more | k in ks ensures KeyWriter(FRAMED)(k, more) == KeyWriter(FRAMED)(k, []) + more { PutKeyAppends(k, FRAMED, more); }
    out := AppendAll(KeyWriter(FRAMED), buf + Uvarint(|ks|), ks);
  }

  method ReadColumns(buf: Bytes) returns (r: Option<(seq<Column>, Bytes)>)
    ensures r == GetColumns(buf)
  {
    var count := GetUvarint(buf);
    if count.None? || count.value.0 > |count.value.1| { return None; }
    r := ReadMany(ColumnReader(), count.value.1, count.value.0);
  }

  method ReadKeys(buf: Bytes, l: Layout) returns (r: Option<(seq<Key>, Bytes)>)
    ensures r == GetKeys(buf, l)
  {
    var count := GetUvarint(buf);
    if count.None? || count.value.0 > |count.value.1| { return None; }
    r := ReadMany(KeyReader(l), count.value.1, count.value.0);
  }

  /** The loop over the extension area. */
  method SkipExtensions(buf: Bytes) returns (ok: bool)
    ensures ok == Extensions(buf)
  {
    var rest := buf;
    while |rest| > 0
      invariant Extensions(rest) == Extensions(buf)
      decreases |rest|
    {
      var tag := GetUvarint(rest);
      if tag.None? || tag.value.0 == 0 { return false; }
      var entry := GetFramed(tag.value.1);
      if entry.None? { return false; }
      rest := entry.value.1;
    }
    ok := true;
  }

  /** The loop over a bundle's sub-ops. */
  method ReadBundle(buf: Bytes) returns (r: Option<(Op, Bytes)>)
    ensures r == GetBundle(buf)
  {
    var count := GetUvarint(buf);
    if count.None? || count.value.0 > |count.value.1| { return None; }
    var subs := ReadMany(SubReader(), count.value.1, count.value.0);
    if subs.None? { return None; }
    r := Some((Blank(BUNDLE).(subOps := subs.value.0), subs.value.1));
  }
}
