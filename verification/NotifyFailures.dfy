/** Where the change feed breaks its promise: concrete runs in which a subscriber misses a change and is not
    told, and what it takes for a restart to be harmless. */
module NotifyFailures {
  import opened Base
  import opened Notify
  import opened NotifyRuns

  lemma RunSnoc(states: seq<World>, steps: seq<Step>, t: Step, w: World)
    requires Run(states, steps) && Takes(states[|steps|], t, w)
    ensures Run(states + [w], steps + [t])
  {
    var ss, ts := states + [w], steps + [t];
    forall k: nat | k < |ts| ensures StepAt(ss, ts, k) { if k < |steps| { assert StepAt(states, steps, k); } }
  }

  // ---------------------------------------------------------------------
  // Outside the window
  // ---------------------------------------------------------------------

  /** The reader did not take a raised generation with a head that is yet to be reset. */
  predicate OnTrack(w: World) {
    w.reader.generation == w.ring.generation ==> if w.phase.Bumped? then w.reader.lastSeen == 0 else Aligned(w)
  }

  /** A drain between the two stores, while the old head is not zero. */
  predicate InWindow(w: World) { w.phase.Bumped? && w.ring.head != 0 }

  lemma {:induction false} TrackStep(w: World, t: Step)
    requires RingInv(w) && OnTrack(w) && Enabled(w, t) && (t.Drain? ==> !InWindow(w))
    ensures OnTrack(Next(w, t))
  {
    RemainderIsMod(0, TWO_32);
    if t.Drain? && w.phase.Serving? { RemainderIsMod(|w.log| - w.base, TWO_32); }
  }

  lemma ServingIsClearIff(w: World)
    requires RingInv(w) && OnTrack(w) && w.phase.Serving?
    ensures Clear(w) <==> w.reader.generation != w.ring.generation || !Lapped(w.ring, w.log, w.seen)
  {
    if w.reader.generation == w.ring.generation { CarriedUnread(w.reader, w.ring, w.log, w.base, w.seen); }
  }

  /** As long as no drain falls into the window, a reader is never misled by a restart: between restarts a drain
      is clear if and only if the reader is a generation behind or was not lapped. */
  lemma {:induction false} OutsideTheWindow(states: seq<World>, steps: seq<Step>, k: nat)
    requires ClearRun(states, steps) && k <= |steps| && OnTrack(states[0])
    requires forall i: nat :: i < k && steps[i].Drain? ==> !InWindow(states[i])
    ensures var w := states[k];
            && OnTrack(w) && w.seen <= |w.log|
            && (w.phase.Serving? ==> (Clear(w) <==> w.reader.generation != w.ring.generation || !Lapped(w.ring, w.log, w.seen)))
    decreases k
  {
    RunInv(states, steps, k);
    if k > 0 {
      OutsideTheWindow(states, steps, k - 1);
      RunInv(states, steps, k - 1);
      assert StepAt(states, steps, k - 1);
      TrackStep(states[k - 1], steps[k - 1]);
    }
    if states[k].phase.Serving? { ServingIsClearIff(states[k]); }
  }

  // ---------------------------------------------------------------------
  // A drain inside a restart
  // ---------------------------------------------------------------------

  /** A one-slot feed with one change in it, and a subscription that has seen it or not. */
  function OneChange(a: Change, seen: nat): World {
    World(RingState([Stored(a)], 1, 1), Serving, [a], [Stored(a)], 0, ReaderState(seen, 1), seen, [], None,
          SubState([], 64, false, false), [], [], seen)
  }

  lemma OneChangeInit(a: Change, seen: nat)
    requires seen <= 1
    ensures Init(OneChange(a, seen))
  {
    var w := OneChange(a, seen);
    assert w.log[0..] == w.log;
    assert StoredAll(w.sent) == w.log;
  }

  /** Wiped, generation raised, drained, told Lossy: the reader holds the new generation and the old head. */
  function Misled(a: Change): World {
    OneChange(a, 1).(ring := RingState(Blanks(1), 1, 2), phase := Bumped, base := 1, reader := ReaderState(1, 2), received := [Lossy], times := [1])
  }

  lemma MisledRun(a: Change) returns (states: seq<World>, steps: seq<Step>)
    ensures Run(states, steps) && states[0] == OneChange(a, 1) && states[|steps|] == Misled(a)
  {
    OneChangeInit(a, 1);
    var w0 := OneChange(a, 1);
    var w1 := Next(w0, Wipe);
    var w2 := Next(w1, Bump);
    var w3 := Next(w2, Drain);
    var w4 := Next(w3, Deliver);
    var w5 := Next(w4, Receive);
    assert w3.inbox == [Lossy] && w4.sub.ch == [Lossy] && w5.received == [Lossy];
    states, steps := [w0], [];
    RunSnoc(states, steps, Wipe, w1); states, steps := states + [w1], steps + [Wipe];
    RunSnoc(states, steps, Bump, w2); states, steps := states + [w2], steps + [Bump];
    RunSnoc(states, steps, Drain, w3); states, steps := states + [w3], steps + [Drain];
    RunSnoc(states, steps, Deliver, w4); states, steps := states + [w4], steps + [Deliver];
    RunSnoc(states, steps, Receive, w5); states, steps := states + [w5], steps + [Receive];
  }

  /** The head is reset and c appended: the head is back where the reader saw it, and a drain yields nothing. */
  function Missed(a: Change, c: Change): World {
    Misled(a).(ring := RingState([Stored(c)], 1, 2), phase := Serving, sent := [a, c], log := [Stored(a), Stored(c)], seen := 2)
  }

  lemma MissedRun(a: Change, c: Change) returns (states: seq<World>, steps: seq<Step>)
    ensures Run(states, steps) && states[0] == OneChange(a, 1) && states[|steps|] == Missed(a, c)
  {
    states, steps := MisledRun(a);
    var w1 := Next(Misled(a), Reset);
    var w2 := Next(w1, Append([c]));
    AppendOne(w1, c);
    var w3 := Next(w2, Drain);
    assert [a] + [c] == [a, c] && [Stored(a)] + [Stored(c)] == [Stored(a), Stored(c)];
    assert w3 == Missed(a, c);
    RunSnoc(states, steps, Reset, w1); states, steps := states + [w1], steps + [Reset];
    RunSnoc(states, steps, Append([c]), w2); states, steps := states + [w2], steps + [Append([c])];
    RunSnoc(states, steps, Drain, w3); states, steps := states + [w3], steps + [Drain];
  }

  lemma AppendOne(w: World, c: Change)
    requires w.phase.Serving? && |w.ring.slots| == 1 && w.ring.head < 5
    ensures Next(w, Append([c])) ==
            w.(ring := RingState([Stored(c)], w.ring.head + 1, w.ring.generation), sent := w.sent + [c], log := w.log + [Stored(c)])
  {
    assert [c][..0] == [];
    assert StoredAll([c]) == [Stored(c)];
    var slots := WriteSlots(w.ring.slots, w.ring.head, [c]);
    assert slots == w.ring.slots[0 := Stored(c)] == [Stored(c)];
  }

  /** Then d is appended and its batch received. */
  function Skipping(a: Change, c: Change, d: Change): World {
    Missed(a, c).(ring := RingState([Stored(d)], 2, 2), sent := [a, c, d], log := [Stored(a), Stored(c), Stored(d)], reader := ReaderState(2, 2),
                  seen := 3, received := [Lossy, Batch(d.origin, d.seqno, [Stored(d)])], times := [1, 3])
  }

  lemma Small(x: nat)
    requires x < TWO_32
    ensures Wrap(x) == x
  {
  }

  lemma DrainOne(rd: ReaderState, r: RingState, d: Change)
    requires r == RingState([d], 2, 2) && rd == ReaderState(1, 2)
    ensures Drained(rd, r) == (ReaderState(2, 2), [Batch(d.origin, d.seqno, [d])])
  {
    var slots := [d];
    Small(2);
    Small(1);
    DeltaIs(2, 1);
    assert Delta(2, 1) == 1;
    assert ReadSlots(slots, 1, 1) == ReadSlots(slots, 1, 0) + [slots[SlotOf(1, 0, 1)]] == slots;
    assert RunEnd(slots, 0, 1) == 1 && slots[0..1] == slots;
    assert Grouped(slots, 1) == [];
    assert Grouped(slots, 0) == [Batch(d.origin, d.seqno, slots)];
    assert Drained(rd, r).1 == Grouped(ReadSlots(slots, 1, 1), 0);
  }

  lemma SkippingRun(a: Change, c: Change, d: Change) returns (states: seq<World>, steps: seq<Step>)
    ensures Run(states, steps) && states[0] == OneChange(a, 1) && states[|steps|] == Skipping(a, c, d)
  {
    states, steps := MissedRun(a, c);
    var w0, batch := Missed(a, c), Batch(d.origin, d.seqno, [Stored(d)]);
    AppendOne(w0, d);
    var w1 := Next(w0, Append([d]));
    DrainOne(w1.reader, w1.ring, Stored(d));
    var w2 := Next(w1, Drain);
    KeptAll([Stored(d)]);
    var w3 := Next(w2, Deliver);
    var w4 := Next(w3, Receive);
    assert w2.inbox == [batch] && w3.sub.ch == [batch] && w3.inbox == [];
    assert w4 == Skipping(a, c, d);
    RunSnoc(states, steps, Append([d]), w1); states, steps := states + [w1], steps + [Append([d])];
    RunSnoc(states, steps, Drain, w2); states, steps := states + [w2], steps + [Drain];
    RunSnoc(states, steps, Deliver, w3); states, steps := states + [w3], steps + [Deliver];
    RunSnoc(states, steps, Receive, w4); states, steps := states + [w4], steps + [Receive];
  }

  /** The marker was received before c was appended, and the batch after it is d's: c is missing between them. */
  lemma SkippingIsSilent(a: Change, c: Change, d: Change, cuts: seq<nat>, upTo: nat)
    requires c.seqno != d.seqno
    ensures Quiet(Skipping(a, c, d)) && !Told(Skipping(a, c, d), 1, cuts, upTo)
  {
    var w, n := Skipping(a, c, d), Batch(d.origin, d.seqno, [Stored(d)]);
    assert w.received == [Lossy, n] && w.times[0] == 1;
    if |cuts| == 3 && cuts[0] == 1 && cuts[1] <= 1 { NotJustTheLast(w.log, n, cuts, upTo); }
  }

  lemma NotJustTheLast(log: seq<Change>, n: Notification, cuts: seq<nat>, upTo: nat)
    requires |log| == 3 && n.Batch? && n.changes == [log[2]] && log[1] != log[2] && |cuts| == 3 && cuts[0] == 1 && cuts[1] <= 1
    ensures !Accounts(log, None, [Lossy, n], cuts, upTo)
  {
    var out := [Lossy, n];
    if StandsFor(log, None, out[0], cuts[0], cuts[0 + 1]) && StandsFor(log, None, out[1], cuts[1], cuts[1 + 1]) {
      KeptAll(log[1..cuts[2]]);
    }
  }

  /** A drain between raising the generation and resetting the head loses a change with no marker after it. */
  lemma {:induction false} RestartLosesAChange(a: Change, c: Change, d: Change) returns (states: seq<World>, steps: seq<Step>)
    requires c.seqno != d.seqno
    ensures Run(states, steps) && Quiet(states[|steps|])
    ensures states[|steps|].sent == [a, c, d] && states[|steps|].seen == 3 && states[|steps|].received == [Lossy, Batch(d.origin, d.seqno, [Stored(d)])]
    ensures forall cuts, upTo :: !Told(states[|steps|], states[0].start, cuts, upTo)
  {
    states, steps := SkippingRun(a, c, d);
    forall cuts, upTo ensures !Told(Skipping(a, c, d), 1, cuts, upTo) { SkippingIsSilent(a, c, d, cuts, upTo); }
    SkippingIsSilent(a, c, d, [], 0);
  }

  /** A drain between wiping the slots and raising the generation reports a blank change in the place of a. */
  lemma {:induction false} WipedSlotsReadAsChanges(a: Change)
    ensures var w := OneChange(a, 0);
            && Init(w) && Enabled(w, Wipe) && Drained(w.reader, Next(w, Wipe).ring).1 == [Batch(0, 0, Blanks(1))]
            && (Clear(Next(w, Wipe)) <==> Stored(a) == Blanks(1)[0])
  {
    var w := OneChange(a, 0);
    OneChangeInit(a, 0);
    var u := Next(w, Wipe);
    DeltaIs(1, 0);
    BlanksRead(1, 0, 1);
    var bs := Blanks(1);
    assert RunEnd(bs, 0, 1) == 1 && bs[0..1] == bs;
    assert Grouped(bs, 0) == [Batch(0, 0, bs)] + Grouped(bs, 1);
    assert u.log[0..] == [Stored(a)] && bs == [bs[0]];
  }

  // ---------------------------------------------------------------------
  // A drop nothing follows
  // ---------------------------------------------------------------------

  /** Something the filter lets through is delivered to an open channel with room. */
  predicate Announces(w: World, t: Step) {
    t.Deliver? && w.inbox != [] && Projected(w.filter, w.inbox[0]).Some? && !w.sub.closed && |w.sub.ch| < w.sub.capacity
  }

  lemma DropStep(w: World, t: Step)
    requires Enabled(w, t) && |w.ring.slots| > 0
    ensures Out(w) <= Out(Next(w, t))
    ensures w.sub.dropped && Announces(w, t) ==> Out(w) + [Lossy] <= Out(Next(w, t))
    ensures w.sub.dropped && !Announces(w, t) ==> Next(w, t).sub.dropped && Out(Next(w, t)) == Out(w)
  {
  }

  ghost predicate Announced(states: seq<World>, steps: seq<Step>, i: nat, j: nat)
    requires i <= j <= |steps| < |states|
  {
    exists k: nat :: i <= k < j && Announces(states[k], steps[k])
  }

  /** A dropped batch is announced, and anything at all follows it to the subscriber, if and only if something the
      filter lets through is delivered while the channel is open and has room. */
  lemma {:induction false} DropIsAnnouncedIff(states: seq<World>, steps: seq<Step>, i: nat, j: nat)
    requires Run(states, steps) && i <= j <= |steps| && states[i].sub.dropped
    ensures Out(states[i]) + [Lossy] <= Out(states[j]) <==> Announced(states, steps, i, j)
    ensures Out(states[i]) == Out(states[j]) && states[j].sub.dropped <==> !Announced(states, steps, i, j)
    decreases j
  {
    if i < j {
      var k := j - 1;
      DropIsAnnouncedIff(states, steps, i, k);
      assert StepAt(states, steps, k);
      DropStep(states[k], steps[k]);
      assert Announced(states, steps, i, j) <==> Announced(states, steps, i, k) || Announces(states[k], steps[k]);
    }
  }

  /** A two-slot feed and a subscription with room for one notification. */
  function Narrow(): World {
    World(RingState(Blanks(2), 0, 1), Serving, [], [], 0, ReaderState(0, 1), 0, [], None, SubState([], 1, false, false), [], [], 0)
  }

  lemma NarrowInit()
    ensures Init(Narrow())
  {
    WindowsFitIff(2);
    assert Narrow().log[0..] == [];
  }

  function BatchOf(c: Change): Notification { Batch(c.origin, c.seqno, [Stored(c)]) }

  /** Both changes appended and drained. */
  function TwoDrained(c: Change, d: Change): World {
    Narrow().(ring := RingState([Stored(c), Stored(d)], 2, 1), sent := [c, d], log := [Stored(c), Stored(d)], reader := ReaderState(2, 1),
              seen := 2, inbox := [BatchOf(c), BatchOf(d)])
  }

  lemma AppendTwo(c: Change, d: Change)
    ensures Next(Narrow(), Append([c, d])) ==
            Narrow().(ring := RingState([Stored(c), Stored(d)], 2, 1), sent := [c, d], log := [Stored(c), Stored(d)])
  {
    assert [c, d][..1] == [c] && [c][..0] == [];
    assert StoredAll([c, d]) == [Stored(c), Stored(d)];
    Small(0);
    Small(1);
    Small(2);
    assert SlotOf(0, 0, 2) == 0 && SlotOf(0, 1, 2) == 1;
    assert WriteSlots(Blanks(2), 0, [c]) == Blanks(2)[0 := Stored(c)];
    var slots := WriteSlots(Blanks(2), 0, [c, d]);
    assert slots == Blanks(2)[0 := Stored(c)][1 := Stored(d)] == [Stored(c), Stored(d)];
  }

  lemma GroupTwo(slots: seq<Change>)
    requires |slots| == 2 && !SameBatch(slots[1], slots[0])
    ensures Grouped(slots, 0) ==
            [Batch(slots[0].origin, slots[0].seqno, [slots[0]]), Batch(slots[1].origin, slots[1].seqno, [slots[1]])]
  {
    assert RunEnd(slots, 0, 1) == 1 && RunEnd(slots, 1, 2) == 2 && slots[0..1] == [slots[0]] && slots[1..2] == [slots[1]];
    assert Grouped(slots, 2) == [] && Grouped(slots, 1) == [Batch(slots[1].origin, slots[1].seqno, [slots[1]])];
  }

  lemma DrainTwo(rd: ReaderState, r: RingState, c: Change, d: Change)
    requires c.seqno != d.seqno && r == RingState([c, d], 2, 1) && rd == ReaderState(0, 1)
    ensures Drained(rd, r) == (ReaderState(2, 1), [Batch(c.origin, c.seqno, [c]), Batch(d.origin, d.seqno, [d])])
  {
    var slots := [c, d];
    Small(0);
    Small(1);
    Small(2);
    DeltaIs(2, 0);
    assert Delta(2, 0) == 2 && SlotOf(0, 0, 2) == 0 && SlotOf(0, 1, 2) == 1;
    ReadTwo(slots, 0);
    assert ReadSlots(slots, 0, 2) == slots;
    GroupTwo(slots);
    assert Drained(rd, r).1 == Grouped(ReadSlots(slots, 0, 2), 0);
  }

  lemma TwoDrainedRun(c: Change, d: Change) returns (states: seq<World>, steps: seq<Step>)
    requires c.seqno != d.seqno
    ensures ClearRun(states, steps) && states[0] == Narrow() && states[|steps|] == TwoDrained(c, d)
  {
    NarrowInit();
    var w0 := Narrow();
    var w1 := Next(w0, Append([c, d]));
    AppendTwo(c, d);
    DrainTwo(w1.reader, w1.ring, Stored(c), Stored(d));
    var w2 := Next(w1, Drain);
    assert w2 == TwoDrained(c, d);
    states, steps := [w0], [];
    RunSnoc(states, steps, Append([c, d]), w1); states, steps := states + [w1], steps + [Append([c, d])];
    RunSnoc(states, steps, Drain, w2); states, steps := states + [w2], steps + [Drain];
    assert forall k: nat :: k < |steps| ==> ClearAt(states, steps, k);
  }

  lemma ClearSnoc(states: seq<World>, steps: seq<Step>, t: Step, w: World)
    requires ClearRun(states, steps) && Takes(states[|steps|], t, w) && !t.Drain?
    ensures ClearRun(states + [w], steps + [t])
  {
    RunSnoc(states, steps, t, w);
    var ss, ts := states + [w], steps + [t];
    forall k: nat | k < |ts| ensures ClearAt(ss, ts, k) { if k < |steps| { assert ClearAt(states, steps, k); } }
  }

  /** The channel fills, d's batch is dropped, the subscriber drains the channel and nothing follows: every
      drain was clear, nothing is on its way, and the subscriber is never told. */
  lemma {:induction false} DropIsNeverTold(c: Change, d: Change) returns (states: seq<World>, steps: seq<Step>)
    requires c.seqno != d.seqno
    ensures ClearRun(states, steps) && states[0].start == 0
    ensures var w := states[|steps|];
            && w.sent == [c, d] && w.seen == 2 && w.received == [BatchOf(c)] && w.inbox == [] && w.sub.ch == [] && !w.sub.closed
            && forall cuts :: Accounts(w.log, w.filter, w.received, cuts, w.seen) ==> cuts[0] != 0
  {
    states, steps := TwoDrainedRun(c, d);
    var w0 := TwoDrained(c, d);
    KeptAll([Stored(c)]);
    KeptAll([Stored(d)]);
    var w1 := Next(w0, Deliver);
    var w2 := Next(w1, Deliver);
    var w3 := Next(w2, Receive);
    assert w1.sub.ch == [BatchOf(c)] && w1.inbox == [BatchOf(d)] && w2.inbox == [] && w2.sub.dropped && w3.sub.ch == [];
    ClearSnoc(states, steps, Deliver, w1); states, steps := states + [w1], steps + [Deliver];
    ClearSnoc(states, steps, Deliver, w2); states, steps := states + [w2], steps + [Deliver];
    ClearSnoc(states, steps, Receive, w3); states, steps := states + [w3], steps + [Receive];
    forall cuts | Accounts(w3.log, None, w3.received, cuts, 2) ensures cuts[0] != 0 { OneOfTwo(c, d, cuts); }
  }

  lemma OneOfTwo(c: Change, d: Change, cuts: seq<nat>)
    requires Accounts([Stored(c), Stored(d)], None, [BatchOf(c)], cuts, 2)
    ensures cuts[0] != 0
  {
    var log := [Stored(c), Stored(d)];
    assert StandsFor(log, None, BatchOf(c), cuts[0], cuts[0 + 1]);
    KeptAll(log[cuts[0]..cuts[1]]);
    KeptAll(log[cuts[1]..2]);
  }
}
