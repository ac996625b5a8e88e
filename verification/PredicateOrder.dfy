/** What comparing two column values means, said without the comparison itself: the storage classes in order,
    integers by value, bytes by the first difference, text as its collation reads it
    (crdt/unique_predicate.go, crdt/collation.go). */
module PredicateOrder {
  import opened Base
  import opened Wire
  import opened Predicate

  // ---------------------------------------------------------------------
  // Bytes
  // ---------------------------------------------------------------------

  /** a ends where b goes on, or is less where they first differ. */
  predicate DiffersAt(a: Bytes, b: Bytes, k: nat) { k <= |a| && k < |b| && a[..k] == b[..k] && (k == |a| || a[k] < b[k]) }

  ghost predicate Precedes(a: Bytes, b: Bytes) { exists k: nat :: DiffersAt(a, b, k) }

  lemma ConsPrefix(x: byte, a: Bytes, k: nat)
    requires k <= |a|
    ensures ([x] + a)[..k + 1] == [x] + a[..k] && a[..k] == ([x] + a)[..k + 1][1..]
  {
  }

  lemma PrecedesTail(x: byte, a: Bytes, b: Bytes)
    ensures Precedes([x] + a, [x] + b) <==> Precedes(a, b)
  {
    var c, d := [x] + a, [x] + b;
    if Precedes(a, b) {
      var k: nat :| DiffersAt(a, b, k);
      ConsPrefix(x, a, k);
      ConsPrefix(x, b, k);
      assert DiffersAt(c, d, k + 1);
    }
    if Precedes(c, d) {
      var k: nat :| DiffersAt(c, d, k);
      ConsPrefix(x, a, k - 1);
      ConsPrefix(x, b, k - 1);
      assert DiffersAt(a, b, k - 1);
    }
  }

  /** memcmp is that order. */
  lemma {:induction false} BytesOrder(a: Bytes, b: Bytes)
    ensures CompareBytes(a, b) < 0 <==> Precedes(a, b)
    ensures CompareBytes(a, b) == 0 <==> a == b
    ensures CompareBytes(a, b) > 0 <==> Precedes(b, a)
    decreases |a|
  {
    if a == [] || b == [] {
      if a != b { assert DiffersAt(if a == [] then a else b, if a == [] then b else a, 0); }
    } else if a[0] != b[0] {
      assert DiffersAt(if a[0] < b[0] then a else b, if a[0] < b[0] then b else a, 0);
      FirstDecides(a, b);
      FirstDecides(b, a);
    } else {
      BytesOrder(a[1..], b[1..]);
      assert a == [a[0]] + a[1..] && b == [a[0]] + b[1..];
      PrecedesTail(a[0], a[1..], b[1..]);
      PrecedesTail(a[0], b[1..], a[1..]);
    }
  }

  lemma FirstDecides(a: Bytes, b: Bytes)
    requires a != [] && b != [] && a[0] != b[0]
    ensures Precedes(a, b) <==> a[0] < b[0]
  {
    if a[0] < b[0] { assert DiffersAt(a, b, 0); }
  }

  lemma {:induction false} PrecedesIsTransitive(a: Bytes, b: Bytes, c: Bytes)
    requires Precedes(a, b) && Precedes(b, c)
    ensures Precedes(a, c)
  {
    var i: nat :| DiffersAt(a, b, i);
    var j: nat :| DiffersAt(b, c, j);
    var k := if i <= j then i else j;
    assert a[..k] == b[..i][..k] && c[..k] == b[..j][..k];
    assert b[..i][..k] == b[..k] && b[..j][..k] == b[..k];
    assert DiffersAt(a, c, k);
  }

  // ---------------------------------------------------------------------
  // Text
  // ---------------------------------------------------------------------

  /** r is s with A to Z, and nothing else, in lower case. */
  predicate LowerOf(s: Bytes, r: Bytes) {
    |r| == |s| && forall i :: 0 <= i < |s| ==> r[i] == if 'A' as int <= s[i] <= 'Z' as int then s[i] - 'A' as int + 'a' as int else s[i]
  }

  /** r is s without the spaces it ends in. */
  predicate TrimmedOf(s: Bytes, r: Bytes) {
    r <= s && (forall i :: |r| <= i < |s| ==> s[i] == ' ' as int) && (r != [] ==> r[|r| - 1] != ' ' as int)
  }

  /** foldNocase */
  method FoldNocase(s: Bytes) returns (out: Bytes)
    ensures LowerOf(s, out) && out == Fold(s)
  {
    FoldMeans(s);
    out := [];
    for i := 0 to |s|
      invariant |out| == i && forall j :: 0 <= j < i ==> out[j] == Fold(s)[j]
    {
      var b := s[i];
      if 'A' as int <= b <= 'Z' as int { b := b + ('a' as int - 'A' as int); }
      out := out + [b];
    }
  }

  lemma {:induction false} FoldMeans(s: Bytes)
    ensures LowerOf(s, Fold(s))
    decreases |s|
  {
    if s != [] {
      FoldMeans(s[1..]);
      forall i | 0 < i < |s| ensures Fold(s)[i] == Fold(s[1..])[i - 1] && s[i] == s[1..][i - 1] {}
    }
  }

  /** rtrim */
  method Rtrim(s: Bytes) returns (r: Bytes)
    ensures TrimmedOf(s, r) && r == Trim(s)
  {
    var n := |s|;
    assert s[..n] == s;
    while n > 0 && s[n - 1] == ' ' as int
      invariant 0 <= n <= |s| && (forall i :: n <= i < |s| ==> s[i] == ' ' as int)
      invariant Trim(s[..n]) == Trim(s)
    {
      assert s[..n][..n - 1] == s[..n - 1];
      n := n - 1;
    }
    r := s[..n];
  }

  lemma {:induction false} TrimMeans(s: Bytes)
    ensures TrimmedOf(s, Trim(s))
    decreases |s|
  {
    if s != [] && s[|s| - 1] == 32 { TrimMeans(s[..|s| - 1]); }
  }

  lemma TrimmedIsUnique(s: Bytes, r: Bytes, q: Bytes)
    requires TrimmedOf(s, r) && TrimmedOf(s, q)
    ensures r == q
  {
  }

  /** r is what collation coll reads in s. */
  predicate ReadAs(coll: byte, s: Bytes, r: Bytes) {
    if coll == 1 then LowerOf(s, r) else if coll == 2 then TrimmedOf(s, r) else r == s
  }

  /** Every text is read in one way, and texts compare like what is read in them. */
  lemma {:induction false} TextOrder(coll: byte, a: Bytes, b: Bytes, r: Bytes, q: Bytes)
    requires ReadAs(coll, a, r) && ReadAs(coll, b, q)
    ensures CompareText(coll, a, b) < 0 <==> Precedes(r, q)
    ensures CompareText(coll, a, b) == 0 <==> r == q
    ensures CompareText(coll, a, b) > 0 <==> Precedes(q, r)
  {
    FoldMeans(a);
    FoldMeans(b);
    TrimMeans(a);
    TrimMeans(b);
    if coll == 1 {
      assert r == Fold(a) && q == Fold(b);
    } else if coll == 2 {
      TrimmedIsUnique(a, r, Trim(a));
      TrimmedIsUnique(b, q, Trim(b));
    }
    BytesOrder(r, q);
  }

  lemma TextIsRead(coll: byte, s: Bytes) returns (r: Bytes)
    ensures ReadAs(coll, s, r)
  {
    FoldMeans(s);
    TrimMeans(s);
    r := if coll == 1 then Fold(s) else if coll == 2 then Trim(s) else s;
  }

  // ---------------------------------------------------------------------
  // Integers
  // ---------------------------------------------------------------------

  /** A signed 64-bit integer as the eight bytes of its two's complement. */
  function IntBytes(x: int): Bytes
    requires -0x8000_0000_0000_0000 <= x < 0x8000_0000_0000_0000
  {
    BigEndian(if x < 0 then x + TWO_64 else x, 8)
  }

  lemma {:induction false} DecodeIntUndoes(x: int)
    requires -0x8000_0000_0000_0000 <= x < 0x8000_0000_0000_0000
    ensures DecodeInt(IntBytes(x)) == x
  {
    Widths();
    BigEndianRoundTrip(if x < 0 then x + TWO_64 else x, 8);
  }

  lemma {:induction false} LastEight(b: Bytes)
    requires |b| > 8
    ensures FromBigEndian(b) % TWO_64 == FromBigEndian(b[|b| - 8..])
  {
    Widths();
    SplitBigEndian(b[..|b| - 8], b[|b| - 8..]);
    assert b == b[..|b| - 8] + b[|b| - 8..];
    var hi, lo := FromBigEndian(b[..|b| - 8]), FromBigEndian(b[|b| - 8..]);
    RemainderOf(hi, lo);
  }

  lemma RemainderOf(hi: nat, lo: nat)
    requires lo < TWO_64
    ensures (hi * TWO_64 + lo) % TWO_64 == lo
  {
  }

  lemma {:induction false} SplitBigEndian(a: Bytes, b: Bytes)
    ensures FromBigEndian(a + b) == FromBigEndian(a) * Pow256(|b|) + FromBigEndian(b)
    decreases |b|
  {
    if b == [] {
      assert a + b == a;
    } else {
      var n := |b| - 1;
      SplitBigEndian(a, b[..n]);
      assert (a + b)[..|a + b| - 1] == a + b[..n] && (a + b)[|a + b| - 1] == b[n];
      Regroup(FromBigEndian(a), Pow256(n), FromBigEndian(b[..n]), b[n]);
    }
  }

  lemma Regroup(x: nat, p: nat, y: nat, z: nat)
    ensures (x * p + y) * 256 + z == x * (256 * p) + (y * 256 + z)
  {
  }

  /** decodeInt: shifts every byte into one 64-bit word. */
  method ReadInt(b: Bytes) returns (x: int)
    ensures x == DecodeInt(b)
  {
    Widths();
    var v := 0;
    for i := 0 to |b|
      invariant v == FromBigEndian(b[..i]) % TWO_64
    {
      assert b[..i + 1][..i] == b[..i];
      ShiftIn(FromBigEndian(b[..i]), b[i]);
      v := (v * 256 + b[i]) % TWO_64;
    }
    assert b[..|b|] == b;
    WordOf(b);
    x := if v >= TWO_64 / 2 then v - TWO_64 else v;
  }

  lemma ShiftIn(x: nat, c: byte)
    ensures (x % TWO_64 * 256 + c) % TWO_64 == (x * 256 + c) % TWO_64
  {
    var q := x / TWO_64;
    assert x * 256 + c == q * 256 * TWO_64 + (x % TWO_64 * 256 + c);
    AddedMultiples(q * 256, x % TWO_64 * 256 + c);
  }

  lemma AddedMultiples(q: nat, r: nat)
    ensures (q * TWO_64 + r) % TWO_64 == r % TWO_64
    decreases q
  {
    if q > 0 {
      AddedMultiples(q - 1, r);
      assert (q * TWO_64 + r) == ((q - 1) * TWO_64 + r) + TWO_64;
    }
  }

  lemma WordOf(b: Bytes)
    ensures FromBigEndian(b) % TWO_64 == FromBigEndian(if |b| > 8 then b[|b| - 8..] else b)
  {
    Widths();
    if |b| > 8 { LastEight(b); } else { PowGrows(|b|, 8); }
  }

  lemma {:induction false} PowGrows(i: nat, j: nat)
    requires i <= j
    ensures Pow256(i) <= Pow256(j)
    decreases j
  {
    if i < j { PowGrows(i, j - 1); }
  }

  // ---------------------------------------------------------------------
  // Values
  // ---------------------------------------------------------------------

  predicate IsNumber(v: Value) { v.typeTag == COL_INT || v.typeTag == COL_REAL }

  predicate Exact(a: Value, b: Value) { a.typeTag == COL_INT && b.typeTag == COL_INT }

  /** a sorts before b: numbers before text, text before the rest; integers by value, text as it is read, the
      rest by bytes. How a REAL compares is not said. */
  ghost predicate Below(a: Value, b: Value, coll: byte) {
    if IsNumber(a) then !IsNumber(b) || (Exact(a, b) && DecodeInt(a.bytes) < DecodeInt(b.bytes))
    else if IsNumber(b) then false
    else if a.typeTag == COL_TEXT then
      b.typeTag == COL_TEXT ==> exists r, q :: ReadAs(coll, a.bytes, r) && ReadAs(coll, b.bytes, q) && Precedes(r, q)
    else b.typeTag != COL_TEXT && Precedes(a.bytes, b.bytes)
  }

  /** a and b are the same to a comparison. */
  ghost predicate Alike(a: Value, b: Value, coll: byte) {
    if IsNumber(a) then Exact(a, b) && DecodeInt(a.bytes) == DecodeInt(b.bytes)
    else if IsNumber(b) then false
    else if a.typeTag == COL_TEXT then b.typeTag == COL_TEXT && exists r :: ReadAs(coll, a.bytes, r) && ReadAs(coll, b.bytes, r)
    else b.typeTag != COL_TEXT && a.bytes == b.bytes
  }

  /** One of them is REAL and both are numbers. */
  predicate Inexact(a: Value, b: Value) { IsNumber(a) && IsNumber(b) && !Exact(a, b) }

  lemma TextCompare(a: Value, b: Value, coll: byte)
    requires a.typeTag == COL_TEXT && b.typeTag == COL_TEXT
    ensures CompareText(coll, a.bytes, b.bytes) < 0 <==> Below(a, b, coll)
    ensures CompareText(coll, a.bytes, b.bytes) == 0 <==> Alike(a, b, coll)
  {
    var r := TextIsRead(coll, a.bytes);
    var q := TextIsRead(coll, b.bytes);
    TextOrder(coll, a.bytes, b.bytes, r, q);
    forall r, q | ReadAs(coll, a.bytes, r) && ReadAs(coll, b.bytes, q)
      ensures CompareText(coll, a.bytes, b.bytes) < 0 <==> Precedes(r, q)
      ensures CompareText(coll, a.bytes, b.bytes) == 0 <==> r == q
    {
      TextOrder(coll, a.bytes, b.bytes, r, q);
    }
  }

  lemma TextOpposite(a: Value, b: Value, coll: byte)
    requires a.typeTag == COL_TEXT && b.typeTag == COL_TEXT
    ensures CompareText(coll, a.bytes, b.bytes) > 0 <==> Below(b, a, coll)
  {
    var r := TextIsRead(coll, a.bytes);
    var q := TextIsRead(coll, b.bytes);
    TextOrder(coll, a.bytes, b.bytes, r, q);
    TextOrder(coll, b.bytes, a.bytes, q, r);
    TextCompare(b, a, coll);
  }

  /** Comparing two values that are not NULL decides between below, alike and above. */
  lemma {:induction false} CompareDecides(a: Value, b: Value, coll: byte, reals: RealOrder)
    requires a.typeTag != COL_NULL && b.typeTag != COL_NULL && !Inexact(a, b)
    ensures Compare(a, b, coll, reals) < 0 <==> Below(a, b, coll)
    ensures Compare(a, b, coll, reals) == 0 <==> Alike(a, b, coll)
    ensures Compare(a, b, coll, reals) > 0 <==> Below(b, a, coll)
  {
    if a.typeTag == COL_TEXT && b.typeTag == COL_TEXT {
      TextCompare(a, b, coll);
      TextOpposite(a, b, coll);
    } else {
      BytesOrder(a.bytes, b.bytes);
    }
  }

  /** A comparison in a predicate, on every row. NULL on either side is unknown. LT, EQ and GT say below, alike
      and above, in whichever way REAL values compare, and GE, NE and LE are their negations. */
  lemma {:induction false} ComparisonMeans(op: byte, col: Id16, lit: Value, coll: byte, row: Row, reals: RealOrder)
    requires IsCmp(op)
    ensures var v, t := row(col), Means(Leaf(op, col, [lit], coll), row, reals);
            if v.typeTag == COL_NULL || lit.typeTag == COL_NULL then t == Unknown
            else
              var less := if Inexact(v, lit) then reals(v, lit) < 0 else Below(v, lit, coll);
              var same := if Inexact(v, lit) then reals(v, lit) == 0 else Alike(v, lit, coll);
              var more := if Inexact(v, lit) then reals(v, lit) > 0 else Below(lit, v, coll);
              && (t == True || t == False)
              && (op == LT ==> (t == True <==> less)) && (op == GE ==> (t == True <==> !less))
              && (op == EQ ==> (t == True <==> same)) && (op == NE ==> (t == True <==> !same))
              && (op == GT ==> (t == True <==> more)) && (op == LE ==> (t == True <==> !more))
  {
    var v := row(col);
    if v.typeTag != COL_NULL && lit.typeTag != COL_NULL && !Inexact(v, lit) { CompareDecides(v, lit, coll, reals); }
  }

  /** On integers every operator is the operator on the numbers. */
  lemma {:induction false} IntegersCompare(col: Id16, x: int, y: int, coll: byte, row: Row, reals: RealOrder)
    requires -0x8000_0000_0000_0000 <= x < 0x8000_0000_0000_0000 && -0x8000_0000_0000_0000 <= y < 0x8000_0000_0000_0000
    requires row(col) == Value(COL_INT, IntBytes(x))
    ensures var lit := Value(COL_INT, IntBytes(y));
            && (Means(Leaf(LT, col, [lit], coll), row, reals) == True <==> x < y)
            && (Means(Leaf(LE, col, [lit], coll), row, reals) == True <==> x <= y)
            && (Means(Leaf(EQ, col, [lit], coll), row, reals) == True <==> x == y)
            && (Means(Leaf(NE, col, [lit], coll), row, reals) == True <==> x != y)
            && (Means(Leaf(GE, col, [lit], coll), row, reals) == True <==> x >= y)
            && (Means(Leaf(GT, col, [lit], coll), row, reals) == True <==> x > y)
  {
    DecodeIntUndoes(x);
    DecodeIntUndoes(y);
  }

  predicate Compares(code: byte, x: int, y: int) {
    if code == 3 then x == y
    else if code == 4 then x != y
    else if code == 5 then x < y
    else if code == 6 then x <= y
    else if code == 7 then x > y
    else x >= y
  }

  /** From the bytes to the row: codes 3 to 8 on an integer column and literal are =, <>, <, <=, > and >=. */
  lemma {:induction false} WireComparison(code: byte, col: Id16, x: int, y: int, coll: byte, rest: Bytes, row: Row, reals: RealOrder)
    requires -0x8000_0000_0000_0000 <= x < 0x8000_0000_0000_0000 && -0x8000_0000_0000_0000 <= y < 0x8000_0000_0000_0000
    requires 3 <= code <= 8 && row(col) == Value(1, IntBytes(x))
    ensures var r := GetExpr([code] + (col + ([1] + Framed(IntBytes(y), [coll] + rest))), 0);
            r.Some? && r.value.1 == rest && Shaped(r.value.0) && (Means(r.value.0, row, reals) == True <==> Compares(code, x, y))
  {
    var b2 := Framed(IntBytes(y), [coll] + rest);
    TakeFirst(code, col + ([1] + b2));
    TakeAll(col, [1] + b2);
    TakeFirst(1, b2);
    GetFramedUndoes(IntBytes(y), [coll] + rest);
    TakeFirst(coll, rest);
    var e := Leaf(code, col, [Value(1, IntBytes(y))], coll);
    assert GetExpr([code] + (col + ([1] + b2)), 0) == Some((e, rest, 1));
    IntegersCompare(col, x, y, coll, row, reals);
  }

  /** Without REAL values the order of a column is total and transitive under every collation. */
  lemma {:induction false} OrderIsTotal(a: Value, b: Value, c: Value, coll: byte)
    requires a.typeTag != COL_NULL && b.typeTag != COL_NULL && c.typeTag != COL_NULL
    requires a.typeTag != COL_REAL && b.typeTag != COL_REAL && c.typeTag != COL_REAL
    ensures Below(a, b, coll) || Alike(a, b, coll) || Below(b, a, coll)
    ensures !(Below(a, b, coll) && Below(b, a, coll)) && !(Below(a, b, coll) && Alike(a, b, coll))
    ensures Below(a, b, coll) && Below(b, c, coll) ==> Below(a, c, coll)
  {
    CompareDecides(a, b, coll, (x, y) => 0);
    if Below(a, b, coll) && Below(b, c, coll) { BelowIsTransitive(a, b, c, coll); }
  }

  lemma BelowIsTransitive(a: Value, b: Value, c: Value, coll: byte)
    requires a.typeTag != COL_REAL && b.typeTag != COL_REAL && c.typeTag != COL_REAL && Below(a, b, coll) && Below(b, c, coll)
    ensures Below(a, c, coll)
  {
    if a.typeTag == COL_TEXT && c.typeTag == COL_TEXT {
      var r := TextIsRead(coll, a.bytes);
      var q := TextIsRead(coll, b.bytes);
      var p := TextIsRead(coll, c.bytes);
      TextOrder(coll, a.bytes, b.bytes, r, q);
      TextOrder(coll, b.bytes, c.bytes, q, p);
      TextCompare(a, b, coll);
      TextCompare(b, c, coll);
      PrecedesIsTransitive(r, q, p);
    } else if !IsNumber(a) && a.typeTag != COL_TEXT {
      PrecedesIsTransitive(a.bytes, b.bytes, c.bytes);
    }
  }
}
