/** The byte-level vocabulary of the codecs: big-endian integers, unsigned varints and length-framed bytes.
    A reader takes the front of a buffer and returns what is left, or None when the buffer is too short or
    malformed. A writer takes the bytes that follow, so that reading undoes writing step by step. */
module Wire {
  import opened Base

  type uint64 = x: int | 0 <= x < TWO_64

  type uint32 = x: int | 0 <= x < TWO_32

  type uint16 = x: int | 0 <= x < 0x1_0000

  lemma Assoc<T>(a: seq<T>, b: seq<T>, c: seq<T>)
    ensures a + (b + c) == a + b + c
  {
  }

  lemma Unit<T>(a: seq<T>)
    ensures a + [] == a && [] + a == a
  {
  }

  lemma Shift<T>(acc: seq<T>, xs: seq<T>)
    requires xs != []
    ensures acc + [xs[0]] + xs[1..] == acc + xs
  {
  }

  // ---------------------------------------------------------------------
  // Fixed lengths
  // ---------------------------------------------------------------------

  function Take(buf: Bytes, n: nat): (r: Option<(Bytes, Bytes)>)
    ensures r.Some? <==> n <= |buf|
    ensures r.Some? ==> |r.value.0| == n && |r.value.1| == |buf| - n
  {
    if |buf| < n then None else Some((buf[..n], buf[n..]))
  }

  lemma TakeAll(a: Bytes, rest: Bytes)
    ensures Take(a + rest, |a|) == Some((a, rest))
  {
    assert (a + rest)[..|a|] == a && (a + rest)[|a|..] == rest;
  }

  function TakeByte(buf: Bytes): (r: Option<(byte, Bytes)>)
    ensures r.Some? ==> |r.value.1| == |buf| - 1
  {
    if |buf| == 0 then None else Some((buf[0], buf[1..]))
  }

  lemma TakeFirst(b: byte, rest: Bytes)
    ensures TakeByte([b] + rest) == Some((b, rest))
  {
    assert ([b] + rest)[1..] == rest;
  }

  // ---------------------------------------------------------------------
  // Big-endian integers
  // ---------------------------------------------------------------------

  function Pow256(w: nat): (p: nat)
    ensures p > 0
  {
    if w == 0 then 1 else 256 * Pow256(w - 1)
  }

  /** The low w bytes of n, most significant first. */
  function BigEndian(n: nat, w: nat): (b: Bytes)
    ensures |b| == w
  {
    if w == 0 then [] else BigEndian(n / 256, w - 1) + [n % 256]
  }

  function FromBigEndian(b: Bytes): (n: nat)
    ensures n < Pow256(|b|)
  {
    if b == [] then 0 else FromBigEndian(b[..|b| - 1]) * 256 + b[|b| - 1]
  }

  /** A fixed-width integer survives exactly when it fits its width. */
  lemma {:induction false} BigEndianRoundTrip(n: nat, w: nat)
    ensures FromBigEndian(BigEndian(n, w)) == n <==> n < Pow256(w)
    decreases w
  {
    if w > 0 {
      BigEndianRoundTrip(n / 256, w - 1);
      var b := BigEndian(n, w);
      assert b[..w - 1] == BigEndian(n / 256, w - 1) && b[w - 1] == n % 256;
    }
  }

  function GetFixed(buf: Bytes, w: nat): (r: Option<(nat, Bytes)>)
    ensures r.Some? ==> |r.value.1| == |buf| - w && r.value.0 < Pow256(w)
  {
    match Take(buf, w)
    case None => None
    case Some((b, rest)) => Some((FromBigEndian(b), rest))
  }

  lemma GetFixedUndoes(n: nat, w: nat, rest: Bytes)
    requires n < Pow256(w)
    ensures GetFixed(BigEndian(n, w) + rest, w) == Some((n, rest))
  {
    TakeAll(BigEndian(n, w), rest);
    BigEndianRoundTrip(n, w);
  }

  lemma Widths()
    ensures Pow256(1) == 256 && Pow256(2) == 0x1_0000 && Pow256(4) == TWO_32 && Pow256(8) == TWO_64
  {
    assert Pow256(3) == 256 * Pow256(2) && Pow256(5) == 256 * Pow256(4) && Pow256(6) == 256 * Pow256(5) && Pow256(7) == 256 * Pow256(6);
  }

  function GetU64(buf: Bytes): (r: Option<(uint64, Bytes)>)
    ensures r.Some? ==> |r.value.1| == |buf| - 8
  {
    Widths();
    match GetFixed(buf, 8)
    case None => None
    case Some((n, rest)) => Some((n, rest))
  }

  lemma GetU64Undoes(n: uint64, rest: Bytes)
    ensures GetU64(BigEndian(n, 8) + rest) == Some((n, rest))
  {
    Widths();
    GetFixedUndoes(n, 8, rest);
  }

  function GetU32(buf: Bytes): (r: Option<(uint32, Bytes)>)
    ensures r.Some? ==> |r.value.1| == |buf| - 4
  {
    Widths();
    match GetFixed(buf, 4)
    case None => None
    case Some((n, rest)) => Some((n, rest))
  }

  lemma GetU32Undoes(n: uint32, rest: Bytes)
    ensures GetU32(BigEndian(n, 4) + rest) == Some((n, rest))
  {
    Widths();
    GetFixedUndoes(n, 4, rest);
  }

  function GetU16(buf: Bytes): (r: Option<(uint16, Bytes)>)
    ensures r.Some? ==> |r.value.1| == |buf| - 2
  {
    Widths();
    match GetFixed(buf, 2)
    case None => None
    case Some((n, rest)) => Some((n, rest))
  }

  lemma GetU16Undoes(n: uint16, rest: Bytes)
    ensures GetU16(BigEndian(n, 2) + rest) == Some((n, rest))
  {
    Widths();
    GetFixedUndoes(n, 2, rest);
  }

  // ---------------------------------------------------------------------
  // Unsigned varints
  // ---------------------------------------------------------------------

  /** Seven bits at a time, least significant first, the high bit set on all but the last byte. */
  function Uvarint(x: nat): (b: Bytes)
    ensures |b| > 0
  {
    if x < 128 then [x] else [x % 128 + 128] + Uvarint(x / 128)
  }

  /** What a varint may still hold once k of its bytes are read. */
  function Room(k: nat): (n: nat)
    requires k <= 9
    ensures n >= 2
    decreases 9 - k
  {
    if k == 9 then 2 else 128 * Room(k + 1)
  }

  lemma RoomIs64Bits()
    ensures Room(0) == TWO_64
  {
    assert Room(8) == 256 && Room(7) == 128 * Room(8) && Room(6) == 128 * Room(7) && Room(5) == 128 * Room(6);
    assert Room(4) == 128 * Room(5) && Room(3) == 128 * Room(4) && Room(2) == 128 * Room(3) && Room(1) == 128 * Room(2);
  }

  /** The k-th byte onwards: at most ten bytes, and the tenth at most one. */
  function ReadUvarint(buf: Bytes, k: nat): (r: Option<(nat, Bytes)>)
    requires k <= 10
    ensures r.Some? ==> |r.value.1| < |buf| && k <= 9 && r.value.0 < Room(k)
    decreases |buf|
  {
    if |buf| == 0 || k == 10 then None
    else if buf[0] < 128 then if k == 9 && buf[0] > 1 then None else Some((buf[0], buf[1..]))
    else
      match ReadUvarint(buf[1..], k + 1)
      case None => None
      case Some((high, rest)) => Some((buf[0] - 128 + 128 * high, rest))
  }

  /** A varint that is read fits 64 bits. */
  function GetUvarint(buf: Bytes): (r: Option<(uint64, Bytes)>)
    ensures r.Some? ==> |r.value.1| < |buf|
  {
    RoomIs64Bits();
    match ReadUvarint(buf, 0)
    case None => None
    case Some((x, rest)) => Some((x, rest))
  }

  lemma {:induction false} ReadUndoesUvarint(x: nat, k: nat, rest: Bytes)
    requires k <= 9 && x < Room(k)
    ensures ReadUvarint(Uvarint(x) + rest, k) == Some((x, rest))
    decreases x
  {
    if x < 128 {
      assert (Uvarint(x) + rest)[1..] == rest;
    } else {
      ReadUndoesUvarint(x / 128, k + 1, rest);
      assert (Uvarint(x) + rest)[1..] == Uvarint(x / 128) + rest;
    }
  }

  /** Every 64-bit value survives its varint. */
  lemma {:induction false} GetUvarintUndoes(x: nat, rest: Bytes)
    requires x < TWO_64
    ensures GetUvarint(Uvarint(x) + rest) == Some((x, rest))
  {
    RoomIs64Bits();
    ReadUndoesUvarint(x, 0, rest);
  }

  /** A varint that goes on for ten bytes or ends in a tenth byte above one does not fit 64 bits and is refused. */
  lemma {:induction false} OverlongVarintIsRefused(high: Bytes, last: byte, rest: Bytes, k: nat)
    requires k <= 9 && |high| == 9 - k && (forall i :: 0 <= i < |high| ==> high[i] >= 128) && last > 1
    ensures ReadUvarint(high + ([last] + rest), k) == None
    ensures k == 0 ==> GetUvarint(high + ([last] + rest)) == None
    decreases |high|
  {
    var buf := high + ([last] + rest);
    if high == [] {
      assert buf[0] == last;
    } else {
      OverlongVarintIsRefused(high[1..], last, rest, k + 1);
      assert buf[1..] == high[1..] + ([last] + rest);
    }
  }

  // ---------------------------------------------------------------------
  // Length-framed bytes
  // ---------------------------------------------------------------------

  function Framed(b: Bytes, rest: Bytes): Bytes { Uvarint(|b|) + (b + rest) }

  function GetFramed(buf: Bytes): (r: Option<(Bytes, Bytes)>)
    ensures r.Some? ==> |r.value.0| + |r.value.1| < |buf| && |r.value.0| < TWO_64
  {
    match GetUvarint(buf)
    case None => None
    case Some((n, rest)) => Take(rest, n)
  }

  lemma {:induction false} GetFramedUndoes(b: Bytes, rest: Bytes)
    requires |b| < TWO_64
    ensures GetFramed(Framed(b, rest)) == Some((b, rest))
  {
    GetUvarintUndoes(|b|, b + rest);
    TakeAll(b, rest);
  }

  lemma FramedAppends(b: Bytes, rest: Bytes)
    ensures Framed(b, rest) == Framed(b, []) + rest
  {
    Unit(b);
    Assoc(Uvarint(|b|), b, rest);
  }

  // ---------------------------------------------------------------------
  // Counted lists
  // ---------------------------------------------------------------------

  type Reader<T> = Bytes -> Option<(T, Bytes)>

  /** n more elements onto acc. */
  function Many<T>(get: Reader<T>, buf: Bytes, n: nat, acc: seq<T>): Option<(seq<T>, Bytes)>
    decreases n
  {
    if n == 0 then Some((acc, buf))
    else
      match get(buf)
      case None => None
      case Some((x, rest)) => Many(get, rest, n - 1, acc + [x])
  }

  /** The counting loop. */
  method ReadMany<T>(get: Reader<T>, buf: Bytes, n: nat) returns (r: Option<(seq<T>, Bytes)>)
    ensures r == Many(get, buf, n, [])
  {
    var xs: seq<T>, rest: Bytes := [], buf;
    for i := 0 to n
      invariant Many(get, rest, n - i, xs) == Many(get, buf, n, [])
    {
      var x := get(rest);
      if x.None? { return None; }
      xs, rest := xs + [x.value.0], x.value.1;
    }
    r := Some((xs, rest));
  }

  type Writer<!S> = (S, Bytes) -> Bytes

  function PutAll<S>(put: Writer<S>, xs: seq<S>, rest: Bytes): Bytes {
    if xs == [] then rest else put(xs[0], PutAll(put, xs[1..], rest))
  }

  predicate AllOk<S>(ok: S -> bool, xs: seq<S>) { xs == [] || (ok(xs[0]) && AllOk(ok, xs[1..])) }

  function Mapped<S, T>(f: S -> T, xs: seq<S>): seq<T> { if xs == [] then [] else [f(xs[0])] + Mapped(f, xs[1..]) }

  lemma {:induction false} MappedAt<S, T>(f: S -> T, xs: seq<S>)
    ensures |Mapped(f, xs)| == |xs| && forall i :: 0 <= i < |xs| ==> Mapped(f, xs)[i] == f(xs[i])
    decreases |xs|
  {
    if xs != [] { MappedAt(f, xs[1..]); }
  }

  lemma {:induction false} AllAreOk<S>(ok: S -> bool, xs: seq<S>)
    requires forall x :: x in xs ==> ok(x)
    ensures AllOk(ok, xs)
    decreases |xs|
  {
    if xs != [] { AllAreOk(ok, xs[1..]); }
  }

  /** What holds of every element that can be read holds of every list that can be read. */
  lemma {:induction false} ManyHolds<T>(get: Reader<T>, good: T -> bool, buf: Bytes, n: nat, acc: seq<T>)
    requires forall b :: get(b).Some? ==> good(get(b).value.0)
    requires (forall x :: x in acc ==> good(x)) && Many(get, buf, n, acc).Some?
    ensures var xs := Many(get, buf, n, acc).value.0; |xs| == |acc| + n && forall x :: x in xs ==> good(x)
    decreases n
  {
    if n > 0 {
      var (x, rest) := get(buf).value;
      ManyHolds(get, good, rest, n - 1, acc + [x]);
    }
  }

  /** Reading a list leaves no more than there was. */
  lemma {:induction false} ManyShrinks<T>(get: Reader<T>, buf: Bytes, n: nat, acc: seq<T>)
    requires forall b :: get(b).Some? ==> |get(b).value.1| <= |b|
    requires Many(get, buf, n, acc).Some?
    ensures |Many(get, buf, n, acc).value.1| <= |buf|
    decreases n
  {
    if n > 0 {
      var (x, rest) := get(buf).value;
      ManyShrinks(get, rest, n - 1, acc + [x]);
    }
  }

  /** If reading undoes writing for one element, where it can be read at all, it does for a list. */
  lemma {:induction false} ManyUndoes<S, T>(get: Reader<T>, put: Writer<S>, ok: S -> bool, seen: S -> T, xs: seq<S>, rest: Bytes, acc: seq<T>)
    requires forall x, more :: x in xs ==> get(put(x, more)) == if ok(x) then Some((seen(x), more)) else None
    ensures Many(get, PutAll(put, xs, rest), |xs|, acc) == if AllOk(ok, xs) then Some((acc + Mapped(seen, xs), rest)) else None
    decreases |xs|
  {
    if xs == [] {
      Unit(acc);
    } else {
      var x, more := xs[0], PutAll(put, xs[1..], rest);
      assert get(put(x, more)) == if ok(x) then Some((seen(x), more)) else None;
      ManyUndoes(get, put, ok, seen, xs[1..], rest, acc + [seen(x)]);
      Assoc(acc, [seen(x)], Mapped(seen, xs[1..]));
    }
  }

  lemma {:induction false} ManyUndoesAll<T>(get: Reader<T>, put: Writer<T>, xs: seq<T>, rest: Bytes, acc: seq<T>)
    requires forall x, more :: x in xs ==> get(put(x, more)) == Some((x, more))
    ensures Many(get, PutAll(put, xs, rest), |xs|, acc) == Some((acc + xs, rest))
    decreases |xs|
  {
    if xs == [] {
      Unit(acc);
    } else {
      var x, more := xs[0], PutAll(put, xs[1..], rest);
      assert get(put(x, more)) == Some((x, more));
      ManyUndoesAll(get, put, xs[1..], rest, acc + [x]);
      Shift(acc, xs);
    }
  }

  /** Elements of at least one byte make a list at least as long as its count. */
  lemma {:induction false} PutAllIsLong<S>(put: Writer<S>, xs: seq<S>, rest: Bytes)
    requires forall x, more :: x in xs ==> |put(x, more)| > |more|
    ensures |PutAll(put, xs, rest)| >= |xs| + |rest|
    decreases |xs|
  {
    if xs != [] {
      PutAllIsLong(put, xs[1..], rest);
      assert |put(xs[0], PutAll(put, xs[1..], rest))| > |PutAll(put, xs[1..], rest)|;
    }
  }

  lemma {:induction false} PutAllAppends<S>(put: Writer<S>, xs: seq<S>, rest: Bytes)
    requires forall x, more :: x in xs ==> put(x, more) == put(x, []) + more
    ensures PutAll(put, xs, rest) == PutAll(put, xs, []) + rest
    decreases |xs|
  {
    if xs == [] {
      Unit(rest);
    } else {
      var x, more := xs[0], PutAll(put, xs[1..], []);
      PutAllAppends(put, xs[1..], rest);
      assert put(x, more + rest) == put(x, []) + (more + rest);
      assert put(x, more) == put(x, []) + more;
      Assoc(put(x, []), more, rest);
    }
  }

  /** The appending loop. */
  method AppendAll<S>(put: Writer<S>, buf: Bytes, xs: seq<S>) returns (out: Bytes)
    requires forall x, more :: x in xs ==> put(x, more) == put(x, []) + more
    ensures out == buf + PutAll(put, xs, [])
  {
    out := buf;
    assert xs[0..] == xs;
    for i := 0 to |xs|
      invariant out + PutAll(put, xs[i..], []) == buf + PutAll(put, xs, [])
    {
      ghost var more := PutAll(put, xs[i + 1..], []);
      assert xs[i..][1..] == xs[i + 1..];
      assert xs[i] in xs && put(xs[i], more) == put(xs[i], []) + more;
      Assoc(out, put(xs[i], []), more);
      out := out + put(xs[i], []);
    }
    Unit(out);
  }
}
