/** The lossy change feed: a fixed ring of slots, a reader that drains it into notifications, and
    bounded per-subscriber channels (notify/writer.go, notify/reader.go, sqlite/subscribe.go). An append is one step. */
module Notify {
  import opened Base

  const TABLE_NAME_MAX: nat := 32

  const PK_MAX: nat := 72

  datatype Change = Change(origin: nat, seqno: nat, table: Bytes, op: nat, pk: Bytes)

  function Cut(b: Bytes, n: nat): Bytes { if |b| > n then b[..n] else b }

  /** A change as its slot keeps it: table name and key cut to their inline budgets. */
  function Stored(c: Change): Change { c.(table := Cut(c.table, TABLE_NAME_MAX), pk := Cut(c.pk, PK_MAX)) }

  /** One batch of changes sharing an origin and sequence number, or the marker that something was dropped. */
  datatype Notification = Lossy | Batch(origin: nat, seqno: nat, changes: seq<Change>)

  // ---------------------------------------------------------------------
  // The ring
  // ---------------------------------------------------------------------

  /** The remainder of x by n, as repeated subtraction; RemainderIsMod ties it to the operator. */
  function Remainder(x: nat, n: nat): (r: nat)
    requires n > 0
    ensures r < n && r <= x
  {
    if x < n then x else Remainder(x - n, n)
  }

  /** x truncated to 32 bits. */
  function Wrap(x: nat): nat { Remainder(x, TWO_32) }

  /** The slot of the k-th change past head, in 32-bit arithmetic. */
  function SlotOf(head: nat, k: nat, numSlots: nat): (i: nat)
    requires numSlots > 0
    ensures i < numSlots
  {
    Remainder(Wrap(head + k), numSlots)
  }

  function WriteSlots(slots: seq<Change>, head: nat, changes: seq<Change>): (r: seq<Change>)
    requires |slots| > 0
    ensures |r| == |slots|
  {
    if changes == [] then slots
    else
      var n := |changes| - 1;
      WriteSlots(slots, head, changes[..n])[SlotOf(head, n, |slots|) := Stored(changes[n])]
  }

  function ReadSlots(slots: seq<Change>, head: nat, n: nat): (r: seq<Change>)
    requires |slots| > 0
    ensures |r| == n
  {
    if n == 0 then [] else ReadSlots(slots, head, n - 1) + [slots[SlotOf(head, n - 1, |slots|)]]
  }

  predicate SameBatch(a: Change, b: Change) { a.origin == b.origin && a.seqno == b.seqno }

  /** The end of the run of changes at i that share i's origin and sequence number, from j on. */
  function RunEnd(cs: seq<Change>, i: nat, j: nat): (e: nat)
    requires i < j <= |cs|
    ensures j <= e <= |cs|
    decreases |cs| - j
  {
    if j < |cs| && SameBatch(cs[j], cs[i]) then RunEnd(cs, i, j + 1) else j
  }

  /** The changes from i on, grouped into notifications. */
  function Grouped(cs: seq<Change>, i: nat): seq<Notification>
    requires i <= |cs|
    decreases |cs| - i
  {
    if i == |cs| then []
    else
      var j := RunEnd(cs, i, i + 1);
      [Batch(cs[i].origin, cs[i].seqno, cs[i..j])] + Grouped(cs, j)
  }

  datatype RingState = RingState(slots: seq<Change>, head: nat, generation: nat)

  datatype ReaderState = ReaderState(lastSeen: nat, generation: nat)

  function AfterAppend(r: RingState, changes: seq<Change>): RingState
    requires |r.slots| > 0
  {
    r.(slots := WriteSlots(r.slots, r.head, changes), head := Wrap(r.head + |changes|))
  }

  /** How far the head is ahead, in 32-bit arithmetic. */
  function Delta(head: nat, lastSeen: nat): nat { Wrap(head + TWO_32 - Wrap(lastSeen)) }

  /** tryDrainLocked: a restart and an overrun each surface as one Lossy notification. */
  function Drained(rd: ReaderState, r: RingState): (ReaderState, seq<Notification>)
    requires |r.slots| > 0
  {
    var delta := Delta(r.head, rd.lastSeen);
    if r.generation != rd.generation then (ReaderState(r.head, r.generation), [Lossy])
    else if r.head == rd.lastSeen then (rd, [])
    else if delta > |r.slots| then (rd.(lastSeen := r.head), [Lossy])
    else (rd.(lastSeen := r.head), Grouped(ReadSlots(r.slots, rd.lastSeen, delta), 0))
  }

  class Feed {
    const numSlots: nat
    const slots: array<Change>
    var head: nat
    var generation: nat

    ghost predicate Valid()
      reads this
    {
      slots.Length == numSlots > 0 && head < TWO_32
    }

    function State(): RingState
      reads this, slots
    {
      RingState(slots[..], head, generation)
    }

    /** A writer that opens the feed rewrites the header: head zero, one generation on. */
    constructor (numSlots: nat, priorGeneration: nat, blank: Change)
      requires numSlots > 0
      ensures Valid() && head == 0 && generation == priorGeneration + 1 && this.numSlots == numSlots && fresh(slots)
    {
      this.numSlots, head, generation := numSlots, 0, priorGeneration + 1;
      slots := new Change[numSlots](_ => blank);
    }

    method Append(changes: seq<Change>)
      requires Valid()
      modifies this, slots
      ensures Valid() && State() == old(AfterAppend(State(), changes))
    {
      if |changes| == 0 { return; }
      ghost var before := slots[..];
      for i := 0 to |changes|
        invariant slots[..] == WriteSlots(before, head, changes[..i]) && head == old(head) && generation == old(generation)
      {
        assert changes[..i + 1][..i] == changes[..i];
        slots[SlotOf(head, i, numSlots)] := Stored(changes[i]);
      }
      assert changes[..|changes|] == changes;
      head := Wrap(head + |changes|);
    }
  }

  class Reader {
    var lastSeen: nat
    var generation: nat

    constructor (feed: Feed)
      ensures lastSeen == feed.head && generation == feed.generation
    {
      lastSeen, generation := feed.head, feed.generation;
    }

    function State(): ReaderState
      reads this
    {
      ReaderState(lastSeen, generation)
    }

    method TryDrain(feed: Feed) returns (notifs: seq<Notification>)
      requires feed.Valid()
      modifies this
      ensures (State(), notifs) == old(Drained(State(), feed.State()))
    {
      if feed.generation != generation {
        generation, lastSeen := feed.generation, feed.head;
        return [Lossy];
      }
      if feed.head == lastSeen { return []; }
      var delta := Delta(feed.head, lastSeen);
      if delta > feed.numSlots {
        lastSeen := feed.head;
        return [Lossy];
      }
      var scratch := [];
      for i := 0 to delta
        invariant scratch == ReadSlots(feed.slots[..], lastSeen, i) && lastSeen == old(lastSeen) && generation == old(generation)
      {
        scratch := scratch + [feed.slots[SlotOf(lastSeen, i, feed.numSlots)]];
      }
      lastSeen := feed.head;
      notifs := Group(scratch);
    }
  }

  method Group(scratch: seq<Change>) returns (notifs: seq<Notification>)
    ensures notifs == Grouped(scratch, 0)
  {
    notifs := [];
    var i := 0;
    while i < |scratch|
      invariant i <= |scratch| && notifs + Grouped(scratch, i) == Grouped(scratch, 0)
    {
      var j := i + 1;
      while j < |scratch| && SameBatch(scratch[j], scratch[i])
        invariant i < j <= |scratch| && RunEnd(scratch, i, j) == RunEnd(scratch, i, i + 1)
      {
        j := j + 1;
      }
      var batch := Batch(scratch[i].origin, scratch[i].seqno, scratch[i..j]);
      assert notifs + ([batch] + Grouped(scratch, j)) == notifs + [batch] + Grouped(scratch, j);
      notifs := notifs + [batch];
      i := j;
    }
  }

  // ---------------------------------------------------------------------
  // Subscriptions
  // ---------------------------------------------------------------------

  /** None subscribes to every table. */
  type Filter = Option<set<Bytes>>

  predicate Passes(f: Filter, c: Change) { f.None? || c.table in f.value }

  function Kept(f: Filter, cs: seq<Change>): seq<Change> {
    if cs == [] then []
    else
      var init, c := cs[..|cs| - 1], cs[|cs| - 1];
      if Passes(f, c) then Kept(f, init) + [c] else Kept(f, init)
  }

  /** projectNotification: None when nothing passes the filter. */
  function Projected(f: Filter, n: Notification): Option<Notification> {
    match n
    case Lossy => Some(Lossy)
    case Batch(origin, seqno, changes) =>
      var kept := Kept(f, changes);
      if kept == [] then None else Some(Batch(origin, seqno, kept))
  }

  method Project(f: Filter, raw: Notification) returns (n: Option<Notification>)
    ensures n == Projected(f, raw)
  {
    if raw.Lossy? { return Some(Lossy); }
    var changes := [];
    for i := 0 to |raw.changes|
      invariant changes == Kept(f, raw.changes[..i])
    {
      assert raw.changes[..i + 1][..i] == raw.changes[..i];
      if Passes(f, raw.changes[i]) {
        changes := changes + [raw.changes[i]];
      }
    }
    assert raw.changes[..|raw.changes|] == raw.changes;
    n := if changes == [] then None else Some(Batch(raw.origin, raw.seqno, changes));
  }

  datatype SubState = SubState(ch: seq<Notification>, capacity: nat, closed: bool, dropped: bool)

  function AfterDeliver(s: SubState, n: Notification): SubState {
    if s.closed then s
    else if s.dropped && |s.ch| >= s.capacity then s
    else
      var marked := if s.dropped then s.(ch := s.ch + [Lossy], dropped := false) else s;
      if |marked.ch| < s.capacity then marked.(ch := marked.ch + [n]) else marked.(dropped := true)
  }

  class Subscription {
    const filter: Filter
    const capacity: nat
    var ch: seq<Notification>
    var closed: bool
    var dropped: bool

    constructor (filter: Filter, bufferSize: int)
      ensures State() == SubState([], if bufferSize <= 0 then 64 else bufferSize, false, false) && this.filter == filter
    {
      this.filter := filter;
      capacity := if bufferSize <= 0 then 64 else bufferSize;
      ch, closed, dropped := [], false, false;
    }

    function State(): SubState
      reads this
    {
      SubState(ch, capacity, closed, dropped)
    }

    method TryDeliver(n: Notification)
      modifies this
      ensures State() == old(AfterDeliver(State(), n))
    {
      if closed { return; }
      if dropped {
        if |ch| >= capacity { return; }
        ch := ch + [Lossy];
        dropped := false;
      }
      if |ch| < capacity { ch := ch + [n]; } else { dropped := true; }
    }

    method Close()
      modifies this
      ensures State() == old(State()).(closed := true)
    {
      closed := true;
    }
  }
}
