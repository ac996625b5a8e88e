/** Which rows a unique key covers (crdt/unique_predicate.go, crdt/collation.go): the condition as a tree, what
    it means on a row in three-valued logic, and its wire form. Comparing REAL values is a parameter. */
module Predicate {
  import opened Base
  import opened Wire

  const ZERO_ID: Id16 := [0, 0, 0, 0, 0, 0, 0, 0, 0, 0, 0, 0, 0, 0, 0, 0]

  /** A literal or a column value: storage class and bytes. */
  datatype Value = Value(typeTag: uint32, bytes: Bytes)

  const COL_NULL: uint32 := 0
  const COL_INT: uint32 := 1
  const COL_REAL: uint32 := 2
  const COL_TEXT: uint32 := 3
  const COL_BLOB: uint32 := 4

  const IS_NULL: byte := 1
  const IS_NOT_NULL: byte := 2
  const EQ: byte := 3
  const NE: byte := 4
  const LT: byte := 5
  const LE: byte := 6
  const GT: byte := 7
  const GE: byte := 8
  const IN: byte := 9
  const NOT_IN: byte := 10
  const AND: byte := 11
  const OR: byte := 12
  const NOT: byte := 13

  const MAX_NODES: nat := 256

  /** One node; which fields matter depends on op. */
  datatype Expr = Expr(op: byte, col: Id16, lits: seq<Value>, kids: seq<Expr>, coll: byte)

  predicate IsCmp(op: byte) { EQ <= op <= GE }

  predicate IsIn(op: byte) { op == IN || op == NOT_IN }

  predicate IsJunction(op: byte) { op == AND || op == OR }

  /** What evaluation and encoding rely on: NOT has its kid, a comparison its literal. */
  predicate Shaped(e: Expr)
    decreases e
  {
    && (e.op == NOT ==> |e.kids| >= 1)
    && (IsCmp(e.op) ==> |e.lits| >= 1)
    && (IsJunction(e.op) || e.op == NOT ==> forall i :: 0 <= i < |e.kids| ==> Shaped(e.kids[i]))
  }

  // ---------------------------------------------------------------------
  // Comparison
  // ---------------------------------------------------------------------

  const NOCASE: byte := 1
  const RTRIM: byte := 2

  /** Byte order: the first difference decides, and a proper prefix is less. */
  function CompareBytes(a: Bytes, b: Bytes): int {
    if a == [] && b == [] then 0
    else if a == [] then -1
    else if b == [] then 1
    else if a[0] != b[0] then if a[0] < b[0] then -1 else 1
    else CompareBytes(a[1..], b[1..])
  }

  function Fold(s: Bytes): (r: Bytes)
    ensures |r| == |s|
  {
    if s == [] then [] else [if 65 <= s[0] <= 90 then s[0] + 32 else s[0]] + Fold(s[1..])
  }

  function Trim(s: Bytes): Bytes { if s != [] && s[|s| - 1] == 32 then Trim(s[..|s| - 1]) else s }

  function CompareText(coll: byte, a: Bytes, b: Bytes): int {
    if coll == NOCASE then CompareBytes(Fold(a), Fold(b))
    else if coll == RTRIM then CompareBytes(Trim(a), Trim(b))
    else CompareBytes(a, b)
  }

  /** The last eight bytes as a two's-complement number. */
  function DecodeInt(b: Bytes): int {
    Widths();
    var v := FromBigEndian(if |b| > 8 then b[|b| - 8..] else b);
    if v >= TWO_64 / 2 then v - TWO_64 else v
  }

  function ClassRank(tag: uint32): nat {
    if tag == COL_INT || tag == COL_REAL then 0 else if tag == COL_TEXT then 1 else 2
  }

  /** How two numbers compare when at least one is REAL. */
  type RealOrder = (Value, Value) -> int

  function Compare(a: Value, b: Value, coll: byte, reals: RealOrder): int {
    if ClassRank(a.typeTag) != ClassRank(b.typeTag) then if ClassRank(a.typeTag) < ClassRank(b.typeTag) then -1 else 1
    else if a.typeTag == COL_INT && b.typeTag == COL_INT then
      var x, y := DecodeInt(a.bytes), DecodeInt(b.bytes);
      if x < y then -1 else if x > y then 1 else 0
    else if a.typeTag == COL_INT || a.typeTag == COL_REAL then reals(a, b)
    else if a.typeTag == COL_TEXT then CompareText(coll, a.bytes, b.bytes)
    else CompareBytes(a.bytes, b.bytes)
  }

  // ---------------------------------------------------------------------
  // Three-valued meaning
  // ---------------------------------------------------------------------

  datatype Tri = False | True | Unknown

  function FromBool(b: bool): Tri { if b then True else False }

  function Negation(t: Tri): Tri { match t case False => True case True => False case Unknown => Unknown }

  /** Kleene conjunction and disjunction of a set of truth values. */
  function AllOf(ts: set<Tri>): Tri { if False in ts then False else if Unknown in ts then Unknown else True }

  function AnyOf(ts: set<Tri>): Tri { if True in ts then True else if Unknown in ts then Unknown else False }

  function CmpMeans(op: byte, col: Value, lit: Value, coll: byte, reals: RealOrder): Tri {
    if col.typeTag == COL_NULL || lit.typeTag == COL_NULL then Unknown
    else
      var c := Compare(col, lit, coll, reals);
      if op == EQ then FromBool(c == 0)
      else if op == NE then FromBool(c != 0)
      else if op == LT then FromBool(c < 0)
      else if op == LE then FromBool(c <= 0)
      else if op == GT then FromBool(c > 0)
      else if op == GE then FromBool(c >= 0)
      else Unknown
  }

  predicate Matches(col: Value, lit: Value, coll: byte, reals: RealOrder) {
    lit.typeTag != COL_NULL && Compare(col, lit, coll, reals) == 0
  }

  /** SQL's IN: an unknown probe is unknown, a match is true, and a miss next to a NULL element is unknown. */
  ghost function InMeans(col: Value, lits: seq<Value>, coll: byte, reals: RealOrder): Tri {
    if col.typeTag == COL_NULL then Unknown
    else if exists i :: 0 <= i < |lits| && Matches(col, lits[i], coll, reals) then True
    else if exists i :: 0 <= i < |lits| && lits[i].typeTag == COL_NULL then Unknown
    else False
  }

  /** SQL's NOT IN: true only of a probe that is known and differs from every element, all of them known. */
  ghost function NotInMeans(col: Value, lits: seq<Value>, coll: byte, reals: RealOrder): Tri {
    if col.typeTag == COL_NULL then Unknown
    else if forall i :: 0 <= i < |lits| ==> lits[i].typeTag != COL_NULL && !Matches(col, lits[i], coll, reals) then True
    else if exists i :: 0 <= i < |lits| && Matches(col, lits[i], coll, reals) then False
    else Unknown
  }

  type Row = Id16 -> Value

  ghost function KidMeanings(e: Expr, row: Row, reals: RealOrder): set<Tri>
    requires Shaped(e) && IsJunction(e.op)
    decreases e, 0
  {
    set i | 0 <= i < |e.kids| :: Means(e.kids[i], row, reals)
  }

  /** The SQL meaning of a predicate on a row. */
  ghost function Means(e: Expr, row: Row, reals: RealOrder): Tri
    requires Shaped(e)
    decreases e, 1
  {
    if e.op == AND then AllOf(KidMeanings(e, row, reals))
    else if e.op == OR then AnyOf(KidMeanings(e, row, reals))
    else if e.op == NOT then Negation(Means(e.kids[0], row, reals))
    else if e.op == IS_NULL then FromBool(row(e.col).typeTag == COL_NULL)
    else if e.op == IS_NOT_NULL then FromBool(row(e.col).typeTag != COL_NULL)
    else if IsCmp(e.op) then CmpMeans(e.op, row(e.col), e.lits[0], e.coll, reals)
    else if e.op == IN then InMeans(row(e.col), e.lits, e.coll, reals)
    else if e.op == NOT_IN then NotInMeans(row(e.col), e.lits, e.coll, reals)
    else Unknown
  }

  // ---------------------------------------------------------------------
  // Evaluation
  // ---------------------------------------------------------------------

  /** evalIn: stops at the first match. */
  method EvalIn(op: byte, col: Value, lits: seq<Value>, coll: byte, reals: RealOrder) returns (t: Tri)
    requires IsIn(op)
    ensures t == if op == IN then InMeans(col, lits, coll, reals) else NotInMeans(col, lits, coll, reals)
  {
    if col.typeTag == COL_NULL { return Unknown; }
    var sawNull := false;
    for i := 0 to |lits|
      invariant forall j :: 0 <= j < i ==> !Matches(col, lits[j], coll, reals)
      invariant sawNull <==> exists j :: 0 <= j < i && lits[j].typeTag == COL_NULL
    {
      if lits[i].typeTag == COL_NULL {
        sawNull := true;
        continue;
      }
      if Compare(col, lits[i], coll, reals) == 0 { return FromBool(op == IN); }
    }
    if sawNull { return Unknown; }
    t := FromBool(op == NOT_IN);
  }

  /** The short-circuit loops compute the Kleene connectives. */
  method Eval(e: Expr, row: Row, reals: RealOrder) returns (t: Tri)
    requires Shaped(e)
    ensures t == Means(e, row, reals)
    decreases e
  {
    if e.op == AND {
      t := True;
      for i := 0 to |e.kids|
        invariant forall j :: 0 <= j < i ==> Means(e.kids[j], row, reals) != False
        invariant t == if exists j :: 0 <= j < i && Means(e.kids[j], row, reals) == Unknown then Unknown else True
      {
        var k := Eval(e.kids[i], row, reals);
        if k == False { return False; }
        if k == Unknown { t := Unknown; }
      }
    } else if e.op == OR {
      t := False;
      for i := 0 to |e.kids|
        invariant forall j :: 0 <= j < i ==> Means(e.kids[j], row, reals) != True
        invariant t == if exists j :: 0 <= j < i && Means(e.kids[j], row, reals) == Unknown then Unknown else False
      {
        var k := Eval(e.kids[i], row, reals);
        if k == True { return True; }
        if k == Unknown { t := Unknown; }
      }
    } else if e.op == NOT {
      var k := Eval(e.kids[0], row, reals);
      t := Negation(k);
    } else if e.op == IS_NULL {
      t := FromBool(row(e.col).typeTag == COL_NULL);
    } else if e.op == IS_NOT_NULL {
      t := FromBool(row(e.col).typeTag != COL_NULL);
    } else if IsCmp(e.op) {
      t := CmpMeans(e.op, row(e.col), e.lits[0], e.coll, reals);
    } else if IsIn(e.op) {
      t := EvalIn(e.op, row(e.col), e.lits, e.coll, reals);
    } else {
      t := Unknown;
    }
  }

  /** Whether a row takes part: no predicate, or one that is true, not merely unknown. */
  method Participates(p: Option<Expr>, row: Row, reals: RealOrder) returns (b: bool)
    requires p.Some? ==> Shaped(p.value)
    ensures b <==> p.None? || Means(p.value, row, reals) == True
  {
    if p.None? { return true; }
    var t := Eval(p.value, row, reals);
    b := t == True;
  }

  // ---------------------------------------------------------------------
  // Laws
  // ---------------------------------------------------------------------

  /** The order of the kids of AND and OR does not matter, nor does repeating one. */
  lemma {:induction false} JunctionIgnoresOrder(e: Expr, f: Expr, row: Row, reals: RealOrder)
    requires Shaped(e) && Shaped(f) && IsJunction(e.op) && f.op == e.op
    requires (forall k :: k in e.kids <==> k in f.kids)
    ensures Means(e, row, reals) == Means(f, row, reals)
  {
    forall t ensures t in KidMeanings(e, row, reals) <==> t in KidMeanings(f, row, reals) {
      KidMeaningsInclude(e, f, row, reals, t);
      KidMeaningsInclude(f, e, row, reals, t);
    }
    assert KidMeanings(e, row, reals) == KidMeanings(f, row, reals);
  }

  lemma KidMeaningsInclude(e: Expr, f: Expr, row: Row, reals: RealOrder, t: Tri)
    requires Shaped(e) && Shaped(f) && IsJunction(e.op) && IsJunction(f.op) && (forall k :: k in e.kids ==> k in f.kids)
    ensures t in KidMeanings(e, row, reals) ==> t in KidMeanings(f, row, reals)
  {
    if t in KidMeanings(e, row, reals) {
      var i :| 0 <= i < |e.kids| && Means(e.kids[i], row, reals) == t;
      var k := e.kids[i];
      assert k in e.kids && k in f.kids;
      var j :| 0 <= j < |f.kids| && f.kids[j] == k;
    }
  }

  function Leaf(op: byte, col: Id16, lits: seq<Value>, coll: byte): Expr { Expr(op, col, lits, [], coll) }

  /** NOT IN, read on its own, is the negation of IN on every row. */
  lemma {:induction false} NotInNegatesIn(col: Id16, lits: seq<Value>, coll: byte, row: Row, reals: RealOrder)
    ensures Means(Leaf(NOT_IN, col, lits, coll), row, reals)
            == Means(Expr(NOT, ZERO_ID, [], [Leaf(IN, col, lits, coll)], 0), row, reals)
  {
  }

  function Equalities(col: Id16, lits: seq<Value>, coll: byte): (ks: seq<Expr>)
    ensures |ks| == |lits| && forall i :: 0 <= i < |lits| ==> ks[i] == Leaf(EQ, col, [lits[i]], coll)
  {
    seq(|lits|, (i: nat) requires i < |lits| => Leaf(EQ, col, [lits[i]], coll))
  }

  function Disjunction(col: Id16, lits: seq<Value>, coll: byte): Expr { Expr(OR, ZERO_ID, [], Equalities(col, lits, coll), 0) }

  lemma EqualityMeans(col: Id16, lit: Value, coll: byte, row: Row, reals: RealOrder)
    ensures Means(Leaf(EQ, col, [lit], coll), row, reals) ==
            if row(col).typeTag == COL_NULL || lit.typeTag == COL_NULL then Unknown
            else FromBool(Matches(row(col), lit, coll, reals))
  {
  }

  lemma DisjunctionHas(col: Id16, lits: seq<Value>, coll: byte, row: Row, reals: RealOrder, t: Tri)
    requires Shaped(Disjunction(col, lits, coll))
    ensures t in KidMeanings(Disjunction(col, lits, coll), row, reals) <==>
            exists i :: 0 <= i < |lits| && Means(Leaf(EQ, col, [lits[i]], coll), row, reals) == t
  {
    var e := Disjunction(col, lits, coll);
    if t in KidMeanings(e, row, reals) {
      var i :| 0 <= i < |e.kids| && Means(e.kids[i], row, reals) == t;
      assert e.kids[i] == Leaf(EQ, col, [lits[i]], coll);
    }
    if i :| 0 <= i < |lits| && Means(Leaf(EQ, col, [lits[i]], coll), row, reals) == t {
      assert e.kids[i] == Leaf(EQ, col, [lits[i]], coll);
    }
  }

  lemma DisjunctionIsShaped(col: Id16, lits: seq<Value>, coll: byte)
    ensures Shaped(Disjunction(col, lits, coll))
  {
    var e := Disjunction(col, lits, coll);
    forall i | 0 <= i < |e.kids| ensures Shaped(e.kids[i]) { assert e.kids[i] == Leaf(EQ, col, [lits[i]], coll); }
  }

  lemma DisjunctionIsTrueIff(col: Id16, lits: seq<Value>, coll: byte, row: Row, reals: RealOrder)
    requires Shaped(Disjunction(col, lits, coll))
    ensures True in KidMeanings(Disjunction(col, lits, coll), row, reals) <==>
            row(col).typeTag != COL_NULL && exists i :: 0 <= i < |lits| && Matches(row(col), lits[i], coll, reals)
  {
    DisjunctionHas(col, lits, coll, row, reals, True);
    forall i | 0 <= i < |lits|
      ensures Means(Leaf(EQ, col, [lits[i]], coll), row, reals) == True <==> row(col).typeTag != COL_NULL && Matches(row(col), lits[i], coll, reals)
    {
      EqualityMeans(col, lits[i], coll, row, reals);
    }
  }

  predicate Undecided(col: Value, lit: Value) { col.typeTag == COL_NULL || lit.typeTag == COL_NULL }

  lemma DisjunctionIsUnknownIff(col: Id16, lits: seq<Value>, coll: byte, row: Row, reals: RealOrder)
    requires Shaped(Disjunction(col, lits, coll))
    ensures Unknown in KidMeanings(Disjunction(col, lits, coll), row, reals) <==>
            exists i :: 0 <= i < |lits| && Undecided(row(col), lits[i])
  {
    DisjunctionHas(col, lits, coll, row, reals, Unknown);
    forall i | 0 <= i < |lits|
      ensures Means(Leaf(EQ, col, [lits[i]], coll), row, reals) == Unknown <==> Undecided(row(col), lits[i])
    {
      EqualityMeans(col, lits[i], coll, row, reals);
    }
  }

  /** IN is the disjunction of its equalities, NULL elements included, exactly unless the list is empty and
      the probe NULL. */
  lemma {:induction false} InIsAnyEqualityIff(col: Id16, lits: seq<Value>, coll: byte, row: Row, reals: RealOrder)
    ensures Shaped(Disjunction(col, lits, coll))
    ensures Means(Leaf(IN, col, lits, coll), row, reals) == Means(Disjunction(col, lits, coll), row, reals)
            <==> lits != [] || row(col).typeTag != COL_NULL
  {
    DisjunctionIsShaped(col, lits, coll);
    DisjunctionIsTrueIff(col, lits, coll, row, reals);
    DisjunctionIsUnknownIff(col, lits, coll, row, reals);
    if lits != [] && row(col).typeTag == COL_NULL { assert Undecided(row(col), lits[0]); }
  }

  // ---------------------------------------------------------------------
  // The wire form
  // ---------------------------------------------------------------------

  predicate HasBytes(tag: uint32) { COL_INT <= tag <= COL_BLOB }

  function PutLiteral(v: Value, rest: Bytes): (b: Bytes)
    ensures |b| > |rest|
  {
    [v.typeTag % 256] + (if HasBytes(v.typeTag) then Framed(v.bytes, rest) else rest)
  }

  function GetLiteral(buf: Bytes): (r: Option<(Value, Bytes)>)
    ensures r.Some? ==> |r.value.1| < |buf|
  {
    match TakeByte(buf)
    case None => None
    case Some((tag, b)) =>
      if tag == COL_NULL then Some((Value(tag, []), b))
      else if HasBytes(tag) then
        match GetFramed(b)
        case None => None
        case Some((bytes, rest)) => Some((Value(tag, bytes), rest))
      else None
  }

  function LiteralWriter(): Writer<Value> { (v: Value, b: Bytes) => PutLiteral(v, b) }

  function LiteralReader(): Reader<Value> { (b: Bytes) => GetLiteral(b) }

  function PutLiterals(lits: seq<Value>, rest: Bytes): (b: Bytes)
    ensures |b| >= |lits| + |rest|
  {
    PutAllIsLong(LiteralWriter(), lits, rest);
    PutAll(LiteralWriter(), lits, rest)
  }

  /** What follows the op byte of a leaf. */
  function PutOperands(e: Expr, rest: Bytes): (b: Bytes)
    requires Shaped(e) && !IsJunction(e.op) && e.op != NOT
    ensures |b| >= |rest|
  {
    if e.op == IS_NULL || e.op == IS_NOT_NULL then e.col + rest
    else if IsCmp(e.op) then e.col + PutLiteral(e.lits[0], [e.coll] + rest)
    else if IsIn(e.op) then e.col + (Uvarint(|e.lits|) + PutLiterals(e.lits, [e.coll] + rest))
    else rest
  }

  /** A node: op, then what its op uses. An unknown op is written bare. */
  function PutExpr(e: Expr, rest: Bytes): (b: Bytes)
    requires Shaped(e)
    ensures |b| > |rest|
    decreases e, |e.kids| + 1
  {
    [e.op] + (
      if IsJunction(e.op) then Uvarint(|e.kids|) + PutKids(e, 0, rest)
      else if e.op == NOT then PutExpr(e.kids[0], rest)
      else PutOperands(e, rest))
  }

  /** The kids of e from the i-th on. */
  function PutKids(e: Expr, i: nat, rest: Bytes): (b: Bytes)
    requires Shaped(e) && IsJunction(e.op) && i <= |e.kids|
    ensures |b| >= |e.kids| - i + |rest|
    decreases e, |e.kids| - i
  {
    if i == |e.kids| then rest else PutExpr(e.kids[i], PutKids(e, i + 1, rest))
  }

  /** A node and the count of nodes read so far, itself included; None once the count passes the limit. */
  function GetExpr(buf: Bytes, n: nat): (r: Option<(Expr, Bytes, nat)>)
    ensures r.Some? ==> |r.value.1| < |buf|
    decreases |buf|, 0
  {
    if n + 1 > MAX_NODES then None
    else
      match TakeByte(buf)
      case None => None
      case Some((op, b)) =>
        if IsJunction(op) then GetJunction(op, b, n + 1)
        else if op == NOT then
          match GetExpr(b, n + 1)
          case None => None
          case Some((k, rest, m)) => Some((Expr(NOT, ZERO_ID, [], [k], 0), rest, m))
        else
          match GetLeaf(op, b)
          case None => None
          case Some((e, rest)) => Some((e, rest, n + 1))
  }

  function GetJunction(op: byte, b: Bytes, n: nat): (r: Option<(Expr, Bytes, nat)>)
    ensures r.Some? ==> |r.value.1| <= |b|
    decreases |b|, 2
  {
    match GetUvarint(b)
    case None => None
    case Some((count, b')) =>
      if count == 0 || count > |b'| then None
      else
        match GetKids(b', n, count, [])
        case None => None
        case Some((kids, rest, m)) => Some((Expr(op, ZERO_ID, [], kids, 0), rest, m))
  }

  function GetKids(buf: Bytes, n: nat, count: nat, acc: seq<Expr>): (r: Option<(seq<Expr>, Bytes, nat)>)
    ensures r.Some? ==> |r.value.1| <= |buf|
    decreases |buf|, 1
  {
    if count == 0 then Some((acc, buf, n))
    else
      match GetExpr(buf, n)
      case None => None
      case Some((k, rest, m)) => GetKids(rest, m, count - 1, acc + [k])
  }

  function GetLeaf(op: byte, b: Bytes): (r: Option<(Expr, Bytes)>)
    ensures r.Some? ==> |r.value.1| <= |b|
  {
    if op != IS_NULL && op != IS_NOT_NULL && !IsCmp(op) && !IsIn(op) then None
    else
      match Take(b, 16)
      case None => None
      case Some((col, b1)) =>
        if op == IS_NULL || op == IS_NOT_NULL then Some((Leaf(op, col, [], 0), b1))
        else if IsCmp(op) then
          match GetLiteral(b1)
          case None => None
          case Some((lit, b2)) =>
            match TakeByte(b2)
            case None => None
            case Some((coll, rest)) => Some((Leaf(op, col, [lit], coll), rest))
        else GetInList(op, col, b1)
  }

  function GetInList(op: byte, col: Id16, b: Bytes): (r: Option<(Expr, Bytes)>)
    ensures r.Some? ==> |r.value.1| <= |b|
  {
    match GetUvarint(b)
    case None => None
    case Some((count, b1)) =>
      if count > |b1| then None
      else
        match Many(LiteralReader(), b1, count, [])
        case None => None
        case Some((lits, b2)) =>
          ManyShrinks(LiteralReader(), b1, count, []);
          match TakeByte(b2)
          case None => None
          case Some((coll, rest)) => Some((Leaf(op, col, lits, coll), rest))
  }

  // ---------------------------------------------------------------------
  // Reading undoes writing
  // ---------------------------------------------------------------------

  predicate LiteralOk(v: Value) { v.typeTag <= COL_BLOB && |v.bytes| < TWO_64 }

  /** What admission produces: known ops, non-empty junctions, the four storage classes or NULL, 64-bit lengths. */
  predicate WellFormed(e: Expr)
    decreases e
  {
    && Shaped(e) && IS_NULL <= e.op <= NOT
    && (IsJunction(e.op) ==> 1 <= |e.kids| < TWO_64 && forall i :: 0 <= i < |e.kids| ==> WellFormed(e.kids[i]))
    && (e.op == NOT ==> WellFormed(e.kids[0]))
    && (IsCmp(e.op) ==> LiteralOk(e.lits[0]))
    && (IsIn(e.op) ==> |e.lits| < TWO_64 && forall v :: v in e.lits ==> LiteralOk(v))
  }

  /** Bytes carried on a NULL literal are not written. */
  function Plain(v: Value): Value { if v.typeTag == COL_NULL then v.(bytes := []) else v }

  function PlainAll(lits: seq<Value>): seq<Value> { Mapped(v => Plain(v), lits) }

  /** The node with the fields its op ignores cleared. */
  function Normal(e: Expr): Expr
    requires Shaped(e)
    decreases e, |e.kids| + 1
  {
    if IsJunction(e.op) then Expr(e.op, ZERO_ID, [], NormalKids(e, 0), 0)
    else if e.op == NOT then Expr(NOT, ZERO_ID, [], [Normal(e.kids[0])], 0)
    else if e.op == IS_NULL || e.op == IS_NOT_NULL then Leaf(e.op, e.col, [], 0)
    else if IsCmp(e.op) then Leaf(e.op, e.col, [Plain(e.lits[0])], e.coll)
    else if IsIn(e.op) then Leaf(e.op, e.col, PlainAll(e.lits), e.coll)
    else e
  }

  function NormalKids(e: Expr, i: nat): (ks: seq<Expr>)
    requires Shaped(e) && IsJunction(e.op) && i <= |e.kids|
    ensures |ks| == |e.kids| - i && forall j :: 0 <= j < |ks| ==> ks[j] == Normal(e.kids[i + j])
    decreases e, |e.kids| - i
  {
    if i == |e.kids| then [] else [Normal(e.kids[i])] + NormalKids(e, i + 1)
  }

  /** How many nodes are written. */
  function Nodes(e: Expr): (n: nat)
    requires Shaped(e)
    ensures n >= 1
    decreases e, |e.kids| + 1
  {
    if IsJunction(e.op) then 1 + KidNodes(e, 0) else if e.op == NOT then 1 + Nodes(e.kids[0]) else 1
  }

  function KidNodes(e: Expr, i: nat): nat
    requires Shaped(e) && IsJunction(e.op) && i <= |e.kids|
    decreases e, |e.kids| - i
  {
    if i == |e.kids| then 0 else Nodes(e.kids[i]) + KidNodes(e, i + 1)
  }

  lemma GetLiteralUndoes(v: Value, rest: Bytes)
    requires LiteralOk(v)
    ensures GetLiteral(PutLiteral(v, rest)) == Some((Plain(v), rest))
  {
    TakeFirst(v.typeTag, if HasBytes(v.typeTag) then Framed(v.bytes, rest) else rest);
    if HasBytes(v.typeTag) { GetFramedUndoes(v.bytes, rest); }
  }

  lemma GetLiteralsUndoes(lits: seq<Value>, rest: Bytes)
    requires forall v :: v in lits ==> LiteralOk(v)
    ensures Many(LiteralReader(), PutLiterals(lits, rest), |lits|, []) == Some((PlainAll(lits), rest))
  {
    var put, get, ok, seen := LiteralWriter(), LiteralReader(), (v: Value) => true, (v: Value) => Plain(v);
    forall v, more | v in lits ensures get(put(v, more)) == if ok(v) then Some((seen(v), more)) else None { GetLiteralUndoes(v, more); }
    ManyUndoes(get, put, ok, seen, lits, rest, []);
    AllAreOk(ok, lits);
    Unit(PlainAll(lits));
  }

  lemma GetLeafUndoes(e: Expr, rest: Bytes)
    requires WellFormed(e) && !IsJunction(e.op) && e.op != NOT
    ensures GetLeaf(e.op, PutOperands(e, rest)) == Some((Normal(e), rest))
  {
    if e.op == IS_NULL || e.op == IS_NOT_NULL {
      TakeAll(e.col, rest);
    } else if IsCmp(e.op) {
      TakeAll(e.col, PutLiteral(e.lits[0], [e.coll] + rest));
      GetLiteralUndoes(e.lits[0], [e.coll] + rest);
      TakeFirst(e.coll, rest);
    } else {
      TakeAll(e.col, Uvarint(|e.lits|) + PutLiterals(e.lits, [e.coll] + rest));
      GetInListUndoes(e, rest);
    }
  }

  lemma GetInListUndoes(e: Expr, rest: Bytes)
    requires WellFormed(e) && IsIn(e.op)
    ensures GetInList(e.op, e.col, Uvarint(|e.lits|) + PutLiterals(e.lits, [e.coll] + rest))
            == Some((Leaf(e.op, e.col, PlainAll(e.lits), e.coll), rest))
  {
    GetUvarintUndoes(|e.lits|, PutLiterals(e.lits, [e.coll] + rest));
    GetLiteralsUndoes(e.lits, [e.coll] + rest);
    TakeFirst(e.coll, rest);
  }

  lemma JunctionUndone(e: Expr, rest: Bytes, n: nat)
    requires WellFormed(e) && IsJunction(e.op)
    ensures GetJunction(e.op, Uvarint(|e.kids|) + PutKids(e, 0, rest), n) ==
            match GetKids(PutKids(e, 0, rest), n, |e.kids|, [])
            case None => None
            case Some((kids, after, m)) => Some((Expr(e.op, ZERO_ID, [], kids, 0), after, m))
  {
    GetUvarintUndoes(|e.kids|, PutKids(e, 0, rest));
  }

  lemma JunctionExpr(e: Expr, rest: Bytes, n: nat)
    requires WellFormed(e) && IsJunction(e.op) && n + 1 <= MAX_NODES
    ensures GetExpr(PutExpr(e, rest), n) == GetJunction(e.op, Uvarint(|e.kids|) + PutKids(e, 0, rest), n + 1)
  {
    TakeFirst(e.op, Uvarint(|e.kids|) + PutKids(e, 0, rest));
  }

  lemma NotExpr(e: Expr, rest: Bytes, n: nat)
    requires WellFormed(e) && e.op == NOT && n + 1 <= MAX_NODES
    ensures GetExpr(PutExpr(e, rest), n) ==
            match GetExpr(PutExpr(e.kids[0], rest), n + 1)
            case None => None
            case Some((k, after, m)) => Some((Expr(NOT, ZERO_ID, [], [k], 0), after, m))
  {
    TakeFirst(e.op, PutExpr(e.kids[0], rest));
  }

  lemma LeafExpr(e: Expr, rest: Bytes, n: nat)
    requires WellFormed(e) && !IsJunction(e.op) && e.op != NOT && n + 1 <= MAX_NODES
    ensures GetExpr(PutExpr(e, rest), n) == Some((Normal(e), rest, n + 1))
  {
    TakeFirst(e.op, PutOperands(e, rest));
    GetLeafUndoes(e, rest);
  }

  /** What reading a written node gives, from a count of n. */
  function Expected(e: Expr, rest: Bytes, n: nat): Option<(Expr, Bytes, nat)>
    requires Shaped(e)
  {
    if n + Nodes(e) <= MAX_NODES then Some((Normal(e), rest, n + Nodes(e))) else None
  }

  lemma JunctionCase(e: Expr, rest: Bytes, n: nat)
    requires WellFormed(e) && IsJunction(e.op) && n + 1 <= MAX_NODES
    requires GetKids(PutKids(e, 0, rest), n + 1, |e.kids|, []) ==
             if n + 1 + KidNodes(e, 0) <= MAX_NODES then Some(([] + NormalKids(e, 0), rest, n + 1 + KidNodes(e, 0))) else None
    ensures GetExpr(PutExpr(e, rest), n) == Expected(e, rest, n)
  {
    JunctionExpr(e, rest, n);
    JunctionUndone(e, rest, n + 1);
    Unit(NormalKids(e, 0));
  }

  lemma NotCase(e: Expr, rest: Bytes, n: nat)
    requires WellFormed(e) && e.op == NOT && n + 1 <= MAX_NODES
    requires GetExpr(PutExpr(e.kids[0], rest), n + 1) == Expected(e.kids[0], rest, n + 1)
    ensures GetExpr(PutExpr(e, rest), n) == Expected(e, rest, n)
  {
    NotExpr(e, rest, n);
  }

  lemma LeafCase(e: Expr, rest: Bytes, n: nat)
    requires WellFormed(e) && !IsJunction(e.op) && e.op != NOT && n + 1 <= MAX_NODES
    ensures GetExpr(PutExpr(e, rest), n) == Expected(e, rest, n)
  {
    LeafExpr(e, rest, n);
  }

  /** A written predicate reads back, with ignored fields cleared, exactly when it keeps within the node limit. */
  lemma {:induction false} GetExprUndoes(e: Expr, rest: Bytes, n: nat)
    requires WellFormed(e)
    ensures GetExpr(PutExpr(e, rest), n) == Expected(e, rest, n)
    decreases e, |e.kids| + 1
  {
    if n + 1 <= MAX_NODES {
      if IsJunction(e.op) {
        GetKidsUndoes(e, 0, rest, n + 1, []);
        JunctionCase(e, rest, n);
      } else if e.op == NOT {
        GetExprUndoes(e.kids[0], rest, n + 1);
        NotCase(e, rest, n);
      } else {
        LeafCase(e, rest, n);
      }
    }
  }

  lemma {:induction false} GetKidsUndoes(e: Expr, i: nat, rest: Bytes, n: nat, acc: seq<Expr>)
    requires WellFormed(e) && IsJunction(e.op) && i <= |e.kids|
    ensures GetKids(PutKids(e, i, rest), n, |e.kids| - i, acc)
            == if i == |e.kids| || n + KidNodes(e, i) <= MAX_NODES then Some((acc + NormalKids(e, i), rest, n + KidNodes(e, i))) else None
    decreases e, |e.kids| - i
  {
    if i == |e.kids| {
      Unit(acc);
    } else {
      GetExprUndoes(e.kids[i], PutKids(e, i + 1, rest), n);
      GetKidsUndoes(e, i + 1, rest, n + Nodes(e.kids[i]), acc + [Normal(e.kids[i])]);
      Assoc(acc, [Normal(e.kids[i])], NormalKids(e, i + 1));
    }
  }

  // Whole predicates --------------------------------------------------------

  function PutPredicate(p: Option<Expr>, rest: Bytes): Bytes
    requires p.Some? ==> Shaped(p.value)
  {
    if p.None? then [0] + rest else [1] + PutExpr(p.value, rest)
  }

  function GetPredicate(buf: Bytes): (r: Option<(Option<Expr>, Bytes)>)
    ensures r.Some? ==> |r.value.1| < |buf|
  {
    match TakeByte(buf)
    case None => None
    case Some((present, b)) =>
      if present == 0 then Some((None, b))
      else
        match GetExpr(b, 0)
        case None => None
        case Some((e, rest, _)) => Some((Some(e), rest))
  }

  predicate WellFormedOption(p: Option<Expr>) { p.Some? ==> WellFormed(p.value) }

  function NormalOption(p: Option<Expr>): Option<Expr>
    requires WellFormedOption(p)
  {
    if p.None? then None else Some(Normal(p.value))
  }

  predicate Small(p: Option<Expr>)
    requires WellFormedOption(p)
  {
    p.Some? ==> Nodes(p.value) <= 256
  }

  /** An op no version defines, a junction of nothing and a literal of no storage class are refused. */
  lemma {:induction false} UnknownNodeIsRefused(op: byte, tag: byte, col: Id16, rest: Bytes, n: nat)
    ensures !(1 <= op <= 13) ==> GetExpr([op] + rest, n).None?
    ensures op == 11 || op == 12 ==> GetExpr([op] + (Uvarint(0) + rest), n).None?
    ensures 3 <= op <= 8 && tag > 4 ==> GetExpr([op] + (col + ([tag] + rest)), n).None?
  {
    TakeFirst(op, rest);
    TakeFirst(op, Uvarint(0) + rest);
    GetUvarintUndoes(0, rest);
    TakeFirst(op, col + ([tag] + rest));
    TakeAll(col, [tag] + rest);
    TakeFirst(tag, rest);
  }

  /** The predicate codec round-trips exactly the predicates of at most 256 nodes. */
  lemma {:induction false} PredicateRoundTripIff(p: Option<Expr>, rest: Bytes)
    requires WellFormedOption(p)
    ensures GetPredicate(PutPredicate(p, rest)) == if Small(p) then Some((NormalOption(p), rest)) else None
  {
    if p.None? {
      TakeFirst(0, rest);
    } else {
      TakeFirst(1, PutExpr(p.value, rest));
      GetExprUndoes(p.value, rest, 0);
    }
  }

  lemma PlainMeans(col: Value, lits: seq<Value>, coll: byte, reals: RealOrder)
    ensures InMeans(col, PlainAll(lits), coll, reals) == InMeans(col, lits, coll, reals)
    ensures NotInMeans(col, PlainAll(lits), coll, reals) == NotInMeans(col, lits, coll, reals)
  {
    var ps := PlainAll(lits);
    MappedAt((v: Value) => Plain(v), lits);
    forall i | 0 <= i < |lits|
      ensures Matches(col, ps[i], coll, reals) == Matches(col, lits[i], coll, reals) && (ps[i].typeTag == COL_NULL <==> lits[i].typeTag == COL_NULL)
    {
    }
  }

  /** What travels means the same on every row. */
  lemma {:induction false} NormalMeansTheSame(e: Expr, row: Row, reals: RealOrder)
    requires Shaped(e)
    ensures Shaped(Normal(e)) && Means(Normal(e), row, reals) == Means(e, row, reals)
    decreases e
  {
    if IsJunction(e.op) {
      var f := Normal(e);
      forall i | 0 <= i < |e.kids| ensures Shaped(f.kids[i]) && Means(f.kids[i], row, reals) == Means(e.kids[i], row, reals) {
        assert f.kids[i] == Normal(e.kids[0 + i]);
        NormalMeansTheSame(e.kids[i], row, reals);
      }
      SameKidMeanings(e, f, row, reals);
    } else if e.op == NOT {
      NormalMeansTheSame(e.kids[0], row, reals);
    } else if IsIn(e.op) {
      PlainMeans(row(e.col), e.lits, e.coll, reals);
    }
  }

  lemma SameKidMeanings(e: Expr, f: Expr, row: Row, reals: RealOrder)
    requires Shaped(e) && Shaped(f) && IsJunction(e.op) && f.op == e.op && |f.kids| == |e.kids|
    requires forall i :: 0 <= i < |e.kids| ==> Means(f.kids[i], row, reals) == Means(e.kids[i], row, reals)
    ensures KidMeanings(f, row, reals) == KidMeanings(e, row, reals)
  {
    forall t | t in KidMeanings(e, row, reals) ensures t in KidMeanings(f, row, reals) {
      var i :| 0 <= i < |e.kids| && Means(e.kids[i], row, reals) == t;
      assert Means(f.kids[i], row, reals) == t;
    }
    forall t | t in KidMeanings(f, row, reals) ensures t in KidMeanings(e, row, reals) {
      var i :| 0 <= i < |f.kids| && Means(f.kids[i], row, reals) == t;
      assert Means(e.kids[i], row, reals) == t;
    }
  }

  /** Encoding and decoding a predicate changes no row's participation. */
  lemma {:induction false} WireKeepsMeaning(e: Expr, row: Row, reals: RealOrder)
    requires WellFormed(e) && Nodes(e) <= MAX_NODES
    ensures var r := GetPredicate(PutPredicate(Some(e), []));
            && r.Some? && r.value.0.Some? && Shaped(r.value.0.value)
            && Means(r.value.0.value, row, reals) == Means(e, row, reals)
  {
    PredicateRoundTripIff(Some(e), []);
    NormalMeansTheSame(e, row, reals);
  }

  // ---------------------------------------------------------------------
  // The decoding loops
  // ---------------------------------------------------------------------

  /** decodePredExpr: recursive descent with a shared node counter. */
  method DecodeExpr(buf: Bytes, n: nat) returns (r: Option<(Expr, Bytes, nat)>)
    ensures r == GetExpr(buf, n)
    decreases |buf|
  {
    if n + 1 > MAX_NODES || |buf| < 1 { return None; }
    var op, b := buf[0], buf[1..];
    if IsJunction(op) {
      var count := GetUvarint(b);
      if count.None? || count.value.0 == 0 || count.value.0 > |count.value.1| { return None; }
      var kids: seq<Expr>, rest: Bytes, m: nat := [], count.value.1, n + 1;
      var i := 0;
      while i < count.value.0
        invariant 0 <= i <= count.value.0 && |rest| < |buf|
        invariant GetKids(rest, m, count.value.0 - i, kids) == GetKids(count.value.1, n + 1, count.value.0, [])
        decreases count.value.0 - i
      {
        var k := DecodeExpr(rest, m);
        if k.None? { return None; }
        kids, rest, m, i := kids + [k.value.0], k.value.1, k.value.2, i + 1;
      }
      r := Some((Expr(op, ZERO_ID, [], kids, 0), rest, m));
    } else if op == NOT {
      var k := DecodeExpr(b, n + 1);
      if k.None? { return None; }
      r := Some((Expr(NOT, ZERO_ID, [], [k.value.0], 0), k.value.1, k.value.2));
    } else {
      var e := GetLeaf(op, b);
      if e.None? { return None; }
      r := Some((e.value.0, e.value.1, n + 1));
    }
  }

  /** A chain of 256 NOTs around a NULL test is one node over the limit. */
  function Nots(k: nat): (e: Expr)
    ensures WellFormed(e) && Nodes(e) == k + 1
  {
    if k == 0 then Leaf(IS_NULL, ZERO_ID, [], 0) else Expr(NOT, ZERO_ID, [], [Nots(k - 1)], 0)
  }

  lemma {:induction false} DeepPredicateIsUnreadable(k: nat)
    requires k >= MAX_NODES
    ensures GetPredicate(PutPredicate(Some(Nots(k)), [])) == None
  {
    PredicateRoundTripIff(Some(Nots(k)), []);
  }

  // ---------------------------------------------------------------------
  // Writing appends
  // ---------------------------------------------------------------------

  lemma PutLiteralAppends(v: Value, rest: Bytes)
    ensures PutLiteral(v, rest) == PutLiteral(v, []) + rest
  {
    FramedAppends(v.bytes, rest);
    Unit(rest);
    Assoc([v.typeTag % 256], if HasBytes(v.typeTag) then Framed(v.bytes, []) else [], rest);
  }

  lemma PutLiteralsAppends(lits: seq<Value>, rest: Bytes)
    ensures PutLiterals(lits, rest) == PutLiterals(lits, []) + rest
  {
    var put := LiteralWriter();
    forall v, more | v in lits ensures put(v, more) == put(v, []) + more { PutLiteralAppends(v, more); }
    PutAllAppends(put, lits, rest);
  }

  lemma PutOperandsAppends(e: Expr, rest: Bytes)
    requires Shaped(e) && !IsJunction(e.op) && e.op != NOT
    ensures PutOperands(e, rest) == PutOperands(e, []) + rest
  {
    Unit(rest);
    Unit(e.col);
    Unit([e.coll]);
    if IsCmp(e.op) {
      PutLiteralAppends(e.lits[0], [e.coll] + rest);
      PutLiteralAppends(e.lits[0], [e.coll]);
      Assoc(PutLiteral(e.lits[0], []), [e.coll], rest);
      Assoc(e.col, PutLiteral(e.lits[0], [e.coll]), rest);
    } else if IsIn(e.op) {
      PutLiteralsAppends(e.lits, [e.coll] + rest);
      PutLiteralsAppends(e.lits, [e.coll]);
      Assoc(PutLiterals(e.lits, []), [e.coll], rest);
      Assoc(Uvarint(|e.lits|), PutLiterals(e.lits, [e.coll]), rest);
      Assoc(e.col, Uvarint(|e.lits|) + PutLiterals(e.lits, [e.coll]), rest);
    }
  }

  lemma {:induction false} PutExprAppends(e: Expr, rest: Bytes)
    requires Shaped(e)
    ensures PutExpr(e, rest) == PutExpr(e, []) + rest
    decreases e, |e.kids| + 1
  {
    if IsJunction(e.op) {
      PutKidsAppends(e, 0, rest);
      Assoc(Uvarint(|e.kids|), PutKids(e, 0, []), rest);
      Assoc([e.op], Uvarint(|e.kids|) + PutKids(e, 0, []), rest);
    } else if e.op == NOT {
      PutExprAppends(e.kids[0], rest);
      Assoc([e.op], PutExpr(e.kids[0], []), rest);
    } else {
      PutOperandsAppends(e, rest);
      Assoc([e.op], PutOperands(e, []), rest);
    }
  }

  lemma {:induction false} PutKidsAppends(e: Expr, i: nat, rest: Bytes)
    requires Shaped(e) && IsJunction(e.op) && i <= |e.kids|
    ensures PutKids(e, i, rest) == PutKids(e, i, []) + rest
    decreases e, |e.kids| - i
  {
    if i == |e.kids| {
      Unit(rest);
    } else {
      var more := PutKids(e, i + 1, []);
      PutKidsAppends(e, i + 1, rest);
      PutExprAppends(e.kids[i], more + rest);
      PutExprAppends(e.kids[i], more);
      Assoc(PutExpr(e.kids[i], []), more, rest);
    }
  }

  lemma PutPredicateAppends(p: Option<Expr>, rest: Bytes)
    requires p.Some? ==> Shaped(p.value)
    ensures PutPredicate(p, rest) == PutPredicate(p, []) + rest
  {
    if p.Some? {
      PutExprAppends(p.value, rest);
      Assoc([1], PutExpr(p.value, []), rest);
    } else {
      Unit([0]);
    }
  }

  /** encode: recursive, appending to the buffer. */
  method EncodeExpr(buf: Bytes, e: Expr) returns (out: Bytes)
    requires Shaped(e)
    ensures out == buf + PutExpr(e, [])
    decreases e
  {
    out := buf + [e.op];
    if IsJunction(e.op) {
      Assoc(buf, [e.op], Uvarint(|e.kids|) + PutKids(e, 0, []));
      Assoc(out, Uvarint(|e.kids|), PutKids(e, 0, []));
      out := out + Uvarint(|e.kids|);
      for i := 0 to |e.kids|
        invariant out + PutKids(e, i, []) == buf + PutExpr(e, [])
      {
        ghost var more := PutKids(e, i + 1, []);
        PutExprAppends(e.kids[i], more);
        Assoc(out, PutExpr(e.kids[i], []), more);
        out := EncodeExpr(out, e.kids[i]);
      }
      Unit(out);
    } else if e.op == NOT {
      Assoc(buf, [e.op], PutExpr(e.kids[0], []));
      out := EncodeExpr(out, e.kids[0]);
    } else {
      Assoc(buf, [e.op], PutOperands(e, []));
      out := out + PutOperands(e, []);
    }
  }
}
