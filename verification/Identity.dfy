/** The hybrid clock, the arbitration stamp and their order (crdt/identity.go). */
module Identity {

  const MAX_WALL := 0x7fff_ffff_ffff      // 47 bits
  const MAX_LOGICAL := 0xffff             // 16 bits

  datatype Clock = Clock(wall: int, logical: int)

  datatype Stamp = Stamp(clock: Clock, origin: nat)

  const ZERO_STAMP := Stamp(Clock(0, 0), 0)

  predicate Less(a: Clock, b: Clock) {
    if a.wall != b.wall then a.wall < b.wall else a.logical < b.logical
  }

  function Forward(a: Clock, b: Clock): Clock {
    if Less(a, b) then b else a
  }

  /** Strict dominance: lexicographic on (wall, logical, origin). */
  predicate Dominates(a: Stamp, b: Stamp) {
    if a.clock.wall != b.clock.wall then a.clock.wall > b.clock.wall
    else if a.clock.logical != b.clock.logical then a.clock.logical > b.clock.logical
    else a.origin > b.origin
  }

  predicate Packable(c: Clock) {
    0 <= c.wall <= MAX_WALL && 0 <= c.logical <= MAX_LOGICAL
  }

  /** The 8-byte wire form; the source panics outside the packable range. */
  function Pack(c: Clock): nat
    requires Packable(c)
  {
    c.wall * 0x1_0000 + c.logical
  }

  /** Bit 63 of the wire form is ignored. */
  function UnpackClock(v: nat): Clock {
    Clock((v / 0x1_0000) % (MAX_WALL + 1), v % 0x1_0000)
  }

  /** The wire form is an order isomorphism between packable clocks and 63-bit words. */
  lemma {:induction false} PackIsOrderIsomorphism(a: Clock, b: Clock, v: nat)
    requires Packable(a) && Packable(b) && v < 0x8000_0000_0000_0000
    ensures Pack(a) < 0x8000_0000_0000_0000 && UnpackClock(Pack(a)) == a
    ensures Packable(UnpackClock(v)) && Pack(UnpackClock(v)) == v
    ensures UnpackClock(v + 0x8000_0000_0000_0000) == UnpackClock(v)
    ensures Less(a, b) <==> Pack(a) < Pack(b)
    ensures Pack(Forward(a, b)) == if Pack(a) < Pack(b) then Pack(b) else Pack(a)
  {
    assert v / 0x1_0000 < MAX_WALL + 1;
    assert (v + 0x8000_0000_0000_0000) / 0x1_0000 == v / 0x1_0000 + (MAX_WALL + 1);
    assert Pack(a) / 0x1_0000 == a.wall && Pack(a) % 0x1_0000 == a.logical;
  }

  /** On the wire a stamp is later when its packed clock is larger, or equal with a larger origin. */
  predicate Later(a: Stamp, b: Stamp)
    requires Packable(a.clock) && Packable(b.clock)
  {
    Pack(a.clock) > Pack(b.clock) || (Pack(a.clock) == Pack(b.clock) && a.origin > b.origin)
  }

  /** Dominance is the clock order with the origin as tie-break, and on wire clocks the order of the packed words. */
  lemma {:induction false} DominatesIsLater(a: Stamp, b: Stamp)
    ensures Dominates(a, b) <==> Less(b.clock, a.clock) || (a.clock == b.clock && a.origin > b.origin)
    ensures Packable(a.clock) && Packable(b.clock) ==> (Dominates(a, b) <==> Later(a, b))
  {
    if Packable(a.clock) && Packable(b.clock) {
      PackIsOrderIsomorphism(a.clock, b.clock, 0);
      PackIsOrderIsomorphism(b.clock, a.clock, 0);
    }
  }
}
