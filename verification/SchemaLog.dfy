/** The schema log's two backends: the in-memory compare-and-swap log and one object per event
    (schemalog/local.go, schemalog/s3.go, schemalog/tcp.go). An object-store failure other than a missing
    or an existing object is not part of the model. */
module SchemaLog {
  import opened Base
  import opened Wire

  datatype Event = Event(schemaSeq: nat, parentSeq: nat, catalogOp: Bytes, rawSQL: Bytes)

  datatype Result<+T> = Ok(value: T) | HeadMoved | Corrupt

  const MAX: nat := TWO_64 - 1

  const MAX_FRAME: nat := 0x400_0000

  const HEADER: nat := 24

  // ---------------------------------------------------------------------
  // Event bodies
  // ---------------------------------------------------------------------

  function EncodeEvent(e: Event): Bytes {
    BigEndian(e.schemaSeq, 8) + (BigEndian(e.parentSeq, 8) + (BigEndian(|e.catalogOp|, 4) + (BigEndian(|e.rawSQL|, 4) +
      (e.catalogOp + (e.rawSQL + [])))))
  }

  function DecodeEvent(body: Bytes): (r: Option<Event>)
    ensures r.Some? ==> HEADER + |r.value.catalogOp| + |r.value.rawSQL| <= |body|
  {
    match GetFixed(body, 8)
    case None => None
    case Some((seqno, b1)) =>
      match GetFixed(b1, 8)
      case None => None
      case Some((parent, b2)) =>
        match GetFixed(b2, 4)
        case None => None
        case Some((opLen, b3)) =>
          match GetFixed(b3, 4)
          case None => None
          case Some((rawLen, b4)) => DecodeBody(seqno, parent, opLen, rawLen, b4)
  }

  function DecodeBody(seqno: nat, parent: nat, opLen: nat, rawLen: nat, b: Bytes): (r: Option<Event>)
    ensures r.Some? ==> |r.value.catalogOp| + |r.value.rawSQL| <= |b|
  {
    match Take(b, opLen)
    case None => None
    case Some((op, b')) =>
      match Take(b', rawLen)
      case None => None
      case Some((raw, _)) => Some(Event(seqno, parent, op, raw))
  }

  predicate Numbered(e: Event) { e.schemaSeq <= MAX && e.parentSeq <= MAX }

  /** Reading an object stops at the frame limit. */
  function Limited(body: Bytes): Bytes { if |body| > MAX_FRAME then body[..MAX_FRAME] else body }

  predicate Fits(e: Event) { HEADER + |e.catalogOp| + |e.rawSQL| <= MAX_FRAME }

  lemma DecodeUndoesEncode(e: Event)
    requires Numbered(e) && Fits(e)
    ensures DecodeEvent(EncodeEvent(e)) == Some(e)
  {
    Widths();
    var b5 := e.catalogOp + (e.rawSQL + []);
    var b4 := BigEndian(|e.rawSQL|, 4) + b5;
    var b3 := BigEndian(|e.catalogOp|, 4) + b4;
    var b2 := BigEndian(e.parentSeq, 8) + b3;
    GetFixedUndoes(e.schemaSeq, 8, b2);
    GetFixedUndoes(e.parentSeq, 8, b3);
    GetFixedUndoes(|e.catalogOp|, 4, b4);
    GetFixedUndoes(|e.rawSQL|, 4, b5);
    TakeAll(e.catalogOp, e.rawSQL + []);
    TakeAll(e.rawSQL, []);
  }

  /** A stored event reads back exactly when its body is within the frame limit. */
  lemma {:induction false} EventRoundTripIff(e: Event)
    requires Numbered(e)
    ensures DecodeEvent(Limited(EncodeEvent(e))) == Some(e) <==> Fits(e)
  {
    if Fits(e) { DecodeUndoesEncode(e); }
  }

  /** Bytes after the event, within the frame limit or past it, are not looked at. */
  lemma {:induction false} TrailingIsIgnored(e: Event, extra: Bytes)
    requires Numbered(e) && Fits(e)
    ensures DecodeEvent(Limited(EncodeEvent(e) + extra)) == Some(e)
  {
    var n := |EncodeEvent(e)|;
    var kept := if n + |extra| > MAX_FRAME then extra[..MAX_FRAME - n] else extra;
    assert Limited(EncodeEvent(e) + extra) == EncodeEvent(e) + kept;
    DecodeUndoesMore(e, kept);
  }

  lemma DecodeUndoesMore(e: Event, rest: Bytes)
    requires Numbered(e) && Fits(e)
    ensures DecodeEvent(EncodeEvent(e) + rest) == Some(e)
  {
    Widths();
    var b5 := e.catalogOp + (e.rawSQL + rest);
    var b4 := BigEndian(|e.rawSQL|, 4) + b5;
    var b3 := BigEndian(|e.catalogOp|, 4) + b4;
    var b2 := BigEndian(e.parentSeq, 8) + b3;
    assert EncodeEvent(e) + rest == BigEndian(e.schemaSeq, 8) + b2;
    GetFixedUndoes(e.schemaSeq, 8, b2);
    GetFixedUndoes(e.parentSeq, 8, b3);
    GetFixedUndoes(|e.catalogOp|, 4, b4);
    GetFixedUndoes(|e.rawSQL|, 4, b5);
    TakeAll(e.catalogOp, e.rawSQL + rest);
    TakeAll(e.rawSQL, rest);
  }

  // ---------------------------------------------------------------------
  // Object keys
  // ---------------------------------------------------------------------

  const DIGITS := "0123456789abcdef"

  /** The low w hexadecimal digits of n. */
  function Hex(n: nat, w: nat): (s: string)
    ensures |s| == w
  {
    if w == 0 then [] else Hex(n / 16, w - 1) + [DIGITS[n % 16]]
  }

  function Pow16(w: nat): (p: nat)
    ensures p > 0
  {
    if w == 0 then 1 else 16 * Pow16(w - 1)
  }

  function KeyFor(seqno: nat): string { "events/" + Hex(seqno, 16) + ".bin" }

  /** Distinct digits are distinct characters. */
  lemma DigitsAreDistinct(a: nat, b: nat)
    requires a < 16 && b < 16 && DIGITS[a] == DIGITS[b]
    ensures a == b
  {
  }

  lemma {:induction false} HexIsInjective(m: nat, n: nat, w: nat)
    requires m < Pow16(w) && n < Pow16(w) && Hex(m, w) == Hex(n, w)
    ensures m == n
    decreases w
  {
    if w > 0 {
      var s, t := Hex(m, w), Hex(n, w);
      assert s[..w - 1] == Hex(m / 16, w - 1) && t[..w - 1] == Hex(n / 16, w - 1);
      assert s[w - 1] == DIGITS[m % 16] && t[w - 1] == DIGITS[n % 16];
      DigitsAreDistinct(m % 16, n % 16);
      HexIsInjective(m / 16, n / 16, w - 1);
    }
  }

  lemma Pow16Is64Bits()
    ensures Pow16(16) == TWO_64
  {
    assert Pow16(4) == 0x1_0000 && Pow16(5) == 16 * Pow16(4) && Pow16(6) == 16 * Pow16(5) && Pow16(7) == 16 * Pow16(6);
    assert Pow16(8) == 16 * Pow16(7) && Pow16(9) == 16 * Pow16(8) && Pow16(10) == 16 * Pow16(9) && Pow16(11) == 16 * Pow16(10);
    assert Pow16(12) == 16 * Pow16(11) && Pow16(13) == 16 * Pow16(12) && Pow16(14) == 16 * Pow16(13) && Pow16(15) == 16 * Pow16(14);
  }

  /** 0 to 9, then a to f. */
  function HexDigit(d: nat): char
    requires d < 16
  {
    if d < 10 then '0' + d as char else 'a' + (d - 10) as char
  }

  lemma {:induction false} HexAt(n: nat, w: nat, i: nat)
    requires i < w
    ensures Hex(n, w)[i] == HexDigit(n / Pow16(w - 1 - i) % 16)
    decreases w
  {
    var front := Hex(n / 16, w - 1);
    assert Hex(n, w) == front + [DIGITS[n % 16]];
    if i < w - 1 {
      HexAt(n / 16, w - 1, i);
      assert Hex(n, w)[i] == front[i] && Pow16(w - 1 - i) == 16 * Pow16(w - 2 - i);
      DivideTwice(n, Pow16(w - 2 - i));
    } else {
      DigitIs(n % 16);
    }
  }

  lemma DigitIs(d: nat)
    requires d < 16
    ensures DIGITS[d] == HexDigit(d)
  {
  }

  lemma DivideTwice(n: nat, p: nat)
    requires p > 0
    ensures n / 16 / p == n / (16 * p)
  {
    var q, r := n / 16, n % 16;
    assert n == 16 * q + r && q == q / p * p + q % p;
    var x := q / p;
    assert 16 * q == 16 * p * x + 16 * (q % p);
    assert n == (16 * p) * x + (16 * (q % p) + r) && 16 * (q % p) + r < 16 * p;
    Quotient(n, 16 * p, x, 16 * (q % p) + r);
  }

  lemma Quotient(n: nat, d: nat, x: nat, r: nat)
    requires n == d * x + r && r < d
    ensures n / d == x
  {
    var y := n / d;
    assert n == d * y + n % d;
    StepApart(d, x, y);
    StepApart(d, y, x);
  }

  lemma StepApart(d: nat, x: nat, y: nat)
    ensures x < y ==> d * x + d <= d * y
  {
    if x < y { assert d * (x + 1) <= d * y; }
  }

  /** The key is the sequence number in sixteen hexadecimal digits, most significant first, between its two ends. */
  lemma {:induction false} KeyIsPaddedHex(n: nat, i: nat)
    requires n <= MAX && i < 16
    ensures |KeyFor(n)| == 27 && KeyFor(n)[..7] == "events/" && KeyFor(n)[23..] == ".bin"
    ensures KeyFor(n)[7 + i] == HexDigit(n / Pow16(15 - i) % 16)
  {
    HexAt(n, 16, i);
  }

  /** Every 64-bit sequence number has its own key. */
  lemma {:induction false} KeysAreDistinct(m: nat, n: nat)
    requires m <= MAX && n <= MAX && KeyFor(m) == KeyFor(n)
    ensures m == n
  {
    Pow16Is64Bits();
    assert KeyFor(m)[7..23] == Hex(m, 16) && KeyFor(n)[7..23] == Hex(n, 16);
    HexIsInjective(m, n, 16);
  }

  // ---------------------------------------------------------------------
  // The in-memory log
  // ---------------------------------------------------------------------

  function HeadOf(events: seq<Event>): nat { if events == [] then 0 else events[|events| - 1].schemaSeq }

  function Succ(n: nat): nat { if n == MAX then 0 else n + 1 }

  function LocalAppend(events: seq<Event>, parent: nat, op: Bytes, raw: Bytes): (seq<Event>, Result<nat>) {
    var next := Succ(HeadOf(events));
    if parent != HeadOf(events) then (events, HeadMoved) else (events + [Event(next, parent, op, raw)], Ok(next))
  }

  /** The events above from that the scan of events[i..] adds to out before out reaches the limit. */
  function Scan(events: seq<Event>, i: nat, from: nat, limit: nat, out: seq<Event>): seq<Event>
    requires i <= |events|
    decreases |events| - i
  {
    if i == |events| then out
    else if events[i].schemaSeq <= from then Scan(events, i + 1, from, limit, out)
    else if |out| + 1 >= limit then out + [events[i]]
    else Scan(events, i + 1, from, limit, out + [events[i]])
  }

  function LocalRead(events: seq<Event>, from: nat, limit: int): seq<Event> {
    if limit <= 0 then [] else Scan(events, 0, from, limit, [])
  }

  class Local {
    var events: seq<Event>

    constructor ()
      ensures events == []
    {
      events := [];
    }

    method Append(parent: nat, op: Bytes, raw: Bytes) returns (r: Result<nat>)
      modifies this
      ensures (events, r) == old(LocalAppend(events, parent, op, raw))
    {
      var head := 0;
      if |events| > 0 { head := events[|events| - 1].schemaSeq; }
      if parent != head { return HeadMoved; }
      var next := Succ(head);
      events := events + [Event(next, parent, op, raw)];
      r := Ok(next);
    }

    method Read(from: nat, limit: int) returns (out: seq<Event>)
      ensures out == LocalRead(events, from, limit)
    {
      out := [];
      if limit <= 0 { return; }
      for i := 0 to |events|
        invariant Scan(events, i, from, limit, out) == LocalRead(events, from, limit)
      {
        if events[i].schemaSeq > from {
          out := out + [events[i]];
          if |out| >= limit { return; }
        }
      }
    }
  }

  // ---------------------------------------------------------------------
  // The object-per-event log
  // ---------------------------------------------------------------------

  type Objects = map<string, Bytes>

  function S3Append(objects: Objects, parent: nat, op: Bytes, raw: Bytes): (Objects, Result<nat>) {
    var next := Succ(parent);
    if KeyFor(next) in objects then (objects, HeadMoved)
    else (objects[KeyFor(next) := EncodeEvent(Event(next, parent, op, raw))], Ok(next))
  }

  datatype Lookup = Missing | Bad | Got(event: Event)

  /** Fetching the object of one sequence number. */
  function Get(objects: Objects, n: nat): Lookup {
    if KeyFor(n) !in objects then Missing
    else
      match DecodeEvent(Limited(objects[KeyFor(n)]))
      case None => Bad
      case Some(e) => if e.schemaSeq != n then Bad else Got(e)
  }

  /** The events at seqno, seqno + 1, ... until one is missing or out reaches the limit. */
  function Walk(get: nat -> Lookup, seqno: nat, limit: nat, out: seq<Event>): Result<seq<Event>>
    decreases limit - |out|
  {
    if seqno == 0 || |out| >= limit then Ok(out)
    else
      match get(seqno)
      case Missing => Ok(out)
      case Bad => Corrupt
      case Got(e) => Walk(get, Succ(seqno), limit, out + [e])
  }

  function Getter(objects: Objects): nat -> Lookup { (n: nat) => Get(objects, n) }

  function S3Read(objects: Objects, from: nat, limit: int): Result<seq<Event>> {
    if limit <= 0 then Ok([]) else Walk(Getter(objects), Succ(from), limit, [])
  }

  class S3 {
    var objects: Objects

    constructor ()
      ensures objects == map[]
    {
      objects := map[];
    }

    method Append(parent: nat, op: Bytes, raw: Bytes) returns (r: Result<nat>)
      modifies this
      ensures (objects, r) == old(S3Append(objects, parent, op, raw))
    {
      var next := Succ(parent);
      if KeyFor(next) in objects { return HeadMoved; }
      objects := objects[KeyFor(next) := EncodeEvent(Event(next, parent, op, raw))];
      r := Ok(next);
    }

    method GetEvent(seqno: nat) returns (found: Lookup)
      ensures found == Get(objects, seqno)
    {
      var key := KeyFor(seqno);
      if key !in objects { return Missing; }
      var e := DecodeEvent(Limited(objects[key]));
      if e.None? || e.value.schemaSeq != seqno { return Bad; }
      found := Got(e.value);
    }

    method Read(from: nat, limit: int) returns (r: Result<seq<Event>>)
      ensures r == S3Read(objects, from, limit)
    {
      if limit <= 0 { return Ok([]); }
      var out := [];
      var seqno := Succ(from);
      ghost var get := Getter(objects);
      while seqno != 0 && |out| < limit
        invariant Walk(get, seqno, limit, out) == Walk(get, Succ(from), limit, [])
        decreases limit - |out|
      {
        var found := GetEvent(seqno);
        assert found == get(seqno);
        if found.Missing? { return Ok(out); }
        if found.Bad? { return Corrupt; }
        out := out + [found.event];
        seqno := Succ(seqno);
      }
      r := Ok(out);
    }
  }

  // ---------------------------------------------------------------------
  // Agreement
  // ---------------------------------------------------------------------

  /** The chain is dense: sequence numbers 1, 2, ... each naming the one before as its parent. */
  predicate Dense(events: seq<Event>) {
    |events| <= MAX && forall i :: 0 <= i < |events| ==> events[i].schemaSeq == i + 1 && events[i].parentSeq == i
  }

  /** What the object log should answer for sequence number n. */
  function Want(events: seq<Event>, n: nat): Lookup { if 1 <= n <= |events| then Got(events[n - 1]) else Missing }

  /** The events form a dense chain, and each sequence number fetches its event and nothing else does. */
  ghost predicate Agree(events: seq<Event>, objects: Objects) {
    Dense(events) && forall n: nat :: n <= MAX ==> Get(objects, n) == Want(events, n)
  }

  /** When a caller's append keeps the two logs in step: the parent is not past the head, and an event that
      is going to be written fits the frame limit. */
  predicate InStep(events: seq<Event>, parent: nat, op: Bytes, raw: Bytes) {
    parent <= |events| && (parent == |events| ==> HEADER + |op| + |raw| <= MAX_FRAME)
  }

  /** A new object changes what its own sequence number fetches and no other. */
  lemma GetAfterPut(objects: Objects, m: nat, e: Event, n: nat)
    requires m <= MAX && n <= MAX && Numbered(e) && e.schemaSeq == m
    ensures var after := objects[KeyFor(m) := EncodeEvent(e)];
            if n == m then Get(after, n) == Got(e) <==> Fits(e) else Get(after, n) == Get(objects, n)
  {
    if n == m { EventRoundTripIff(e); } else if KeyFor(n) == KeyFor(m) { KeysAreDistinct(n, m); }
  }

  lemma AppendAtHead(events: seq<Event>, objects: Objects, e: Event)
    requires Agree(events, objects) && |events| < MAX && e.schemaSeq == |events| + 1 && e.parentSeq == |events|
    ensures Agree(events + [e], objects[KeyFor(|events| + 1) := EncodeEvent(e)]) <==> Fits(e)
  {
    var m, after := |events| + 1, objects[KeyFor(|events| + 1) := EncodeEvent(e)];
    forall n: nat | n <= MAX ensures Get(after, n) == Want(events + [e], n) <==> (n == m ==> Fits(e)) {
      GetAfterPut(objects, m, e, n);
      assert Get(objects, n) == Want(events, n);
    }
    assert Get(after, m) == Want(events + [e], m) <==> Fits(e);
  }

  /** An append gives the same answer on both backends and leaves them in agreement exactly when it is in step. */
  lemma {:induction false} AppendAgreesIff(events: seq<Event>, objects: Objects, parent: nat, op: Bytes, raw: Bytes)
    requires Agree(events, objects) && |events| < MAX && parent <= MAX
    ensures var (events', r) := LocalAppend(events, parent, op, raw);
            var (objects', q) := S3Append(objects, parent, op, raw);
            r == q && Agree(events', objects') <==> InStep(events, parent, op, raw)
  {
    var h, next := |events|, Succ(parent);
    assert HeadOf(events) == h;
    assert Get(objects, next) == Want(events, next);
    assert KeyFor(next) in objects <==> 1 <= next <= h;
    if parent == h { AppendAtHead(events, objects, Event(h + 1, h, op, raw)); }
  }

  lemma {:induction false} WalkAgrees(events: seq<Event>, get: nat -> Lookup, from: nat, limit: nat, out: seq<Event>, n: nat)
    requires Dense(events) && |events| < MAX && |out| < limit && from <= n <= |events|
    requires forall k: nat :: k <= MAX ==> get(k) == Want(events, k)
    ensures Walk(get, n + 1, limit, out) == Ok(Scan(events, n, from, limit, out))
    decreases |events| - n
  {
    assert get(n + 1) == Want(events, n + 1);
    if n < |events| && |out| + 1 < limit { WalkAgrees(events, get, from, limit, out + [events[n]], n + 1); }
  }

  lemma {:induction false} ScanSkips(events: seq<Event>, from: nat, limit: nat, i: nat)
    requires Dense(events) && i <= |events| && i <= from
    ensures Scan(events, i, from, limit, []) == Scan(events, if from <= |events| then from else |events|, from, limit, [])
    decreases |events| - i
  {
    if i < |events| && i < from { ScanSkips(events, from, limit, i + 1); }
  }

  /** A read gives the same answer on both backends, from any point and with any limit. */
  lemma {:induction false} ReadAgrees(events: seq<Event>, objects: Objects, from: nat, limit: int)
    requires Agree(events, objects) && |events| < MAX && from <= MAX
    ensures S3Read(objects, from, limit) == Ok(LocalRead(events, from, limit))
  {
    if limit > 0 {
      ScanSkips(events, from, limit, 0);
      var get := Getter(objects);
      assert get(Succ(from)) == Want(events, Succ(from));
      if from <= |events| { WalkAgrees(events, get, from, limit, [], from); }
    }
  }

  // ---------------------------------------------------------------------
  // Runs
  // ---------------------------------------------------------------------

  datatype Step = Append(parent: nat, op: Bytes, raw: Bytes) | Read(from: nat, limit: int)

  datatype Pair = Pair(events: seq<Event>, objects: Objects)

  predicate Allowed(p: Pair, t: Step) {
    match t
    case Append(parent, op, raw) => |p.events| + 1 < MAX && InStep(p.events, parent, op, raw)
    case Read(from, _) => from <= MAX
  }

  function Next(p: Pair, t: Step): Pair {
    match t
    case Append(parent, op, raw) => Pair(LocalAppend(p.events, parent, op, raw).0, S3Append(p.objects, parent, op, raw).0)
    case Read(_, _) => p
  }

  predicate SameAnswer(p: Pair, t: Step) {
    match t
    case Append(parent, op, raw) => LocalAppend(p.events, parent, op, raw).1 == S3Append(p.objects, parent, op, raw).1
    case Read(from, limit) => S3Read(p.objects, from, limit) == Ok(LocalRead(p.events, from, limit))
  }

  /** Every step of the run, from the state reached so far, is one a caller may take. */
  predicate AllAllowed(p: Pair, steps: seq<Step>)
    decreases |steps|
  {
    steps == [] || (Allowed(p, steps[0]) && AllAllowed(Next(p, steps[0]), steps[1..]))
  }

  predicate AllSame(p: Pair, steps: seq<Step>)
    decreases |steps|
  {
    steps == [] || (SameAnswer(p, steps[0]) && AllSame(Next(p, steps[0]), steps[1..]))
  }

  function After(p: Pair, steps: seq<Step>): Pair
    decreases |steps|
  {
    if steps == [] then p else After(Next(p, steps[0]), steps[1..])
  }

  /** Over every run whose appends are in step, both backends give the same answers throughout, and the
      chain stays dense. */
  lemma {:induction false} BackendsAgree(p: Pair, steps: seq<Step>)
    requires Agree(p.events, p.objects) && |p.events| < MAX && AllAllowed(p, steps)
    ensures AllSame(p, steps) && Agree(After(p, steps).events, After(p, steps).objects)
    decreases |steps|
  {
    if steps != [] {
      match steps[0] {
        case Append(parent, op, raw) => AppendAgreesIff(p.events, p.objects, parent, op, raw);
        case Read(from, limit) => ReadAgrees(p.events, p.objects, from, limit);
      }
      BackendsAgree(Next(p, steps[0]), steps[1..]);
    }
  }

  /** An append past the head: refused by one backend, accepted by the other, which now has a gap. */
  lemma {:induction false} AppendPastTheHead()
    ensures LocalAppend([], 5, [], []).1 == HeadMoved && S3Append(map[], 5, [], []).1 == Ok(6)
    ensures S3Read(S3Append(map[], 5, [], []).0, 0, 1) == Ok([])
  {
    if KeyFor(1) == KeyFor(6) { KeysAreDistinct(1, 6); }
  }
}
