/** Whole histories of the byte-range layer: replicas that saw the same writes hold the same
    entry list and the same blob, whatever the order, the repeats and the prunes in between. */
module IntervalHistory {
  import opened Base
  import opened Identity
  import opened IntervalMaps

  // ---------------------------------------------------------------------
  // The per-byte meaning of a set of writes
  // ---------------------------------------------------------------------

  /** r is the highest stamp that covers off among the writes that dominate the baseline. */
  ghost predicate IsHighest(ws: seq<Write>, b: Stamp, off: nat, r: Option<Stamp>) {
    match r
    case None => forall w :: w in ws && InRange(w.range, off) ==> !Dominates(w.stamp, b)
    case Some(s) =>
      && Dominates(s, b)
      && (exists w :: w in ws && InRange(w.range, off) && w.stamp == s)
      && (forall w :: w in ws && InRange(w.range, off) ==> !Dominates(w.stamp, s))
  }

  lemma HighestIsUnique(ws: seq<Write>, vs: seq<Write>, b: Stamp, off: nat, r: Option<Stamp>, q: Option<Stamp>)
    requires forall w :: w in ws <==> w in vs
    requires IsHighest(ws, b, off, r) && IsHighest(vs, b, off, q)
    ensures r == q
  {
  }

  ghost predicate Means(es: seq<Entry>, h: History) {
    Canonical(es) && forall off: nat :: IsHighest(h.writes, h.baseline, off, Look(es, off))
  }

  // ---------------------------------------------------------------------
  // Runs of Apply, Prune and Clip
  // ---------------------------------------------------------------------

  /** What a list stands for: the writes seen, cut at every truncation, and the current baseline. */
  datatype History = History(writes: seq<Write>, baseline: Stamp)

  datatype Op = Put(w: Write) | Raise(floor: Stamp) | Truncate(maxEnd: nat)

  function ClipWrite(w: Write, n: nat): Write {
    Write(ByteRange(w.range.start, Min(w.range.end, n)), w.stamp)
  }

  function ClipWrites(ws: seq<Write>, n: nat): (r: seq<Write>)
    ensures |r| == |ws| && forall i :: 0 <= i < |ws| ==> r[i] == ClipWrite(ws[i], n)
  {
    seq(|ws|, i requires 0 <= i < |ws| => ClipWrite(ws[i], n))
  }

  function Next(h: History, op: Op): History {
    match op
    case Put(w) => h.(writes := h.writes + [w])
    case Raise(f) => h.(baseline := f)
    case Truncate(n) => h.(writes := ClipWrites(h.writes, n))
  }

  function HistoryOf(h: History, ops: seq<Op>): History {
    if ops == [] then h else Next(HistoryOf(h, ops[..|ops| - 1]), ops[|ops| - 1])
  }

  /** One call on the map: Apply under the current baseline, Prune to a floor at or above it, or Clip. */
  ghost predicate Step(pre: seq<Entry>, h: History, op: Op, post: seq<Entry>) {
    match op
    case Put(w) => Applied(pre, w, h.baseline, post)
    case Raise(f) => !Dominates(h.baseline, f) && post == PruneSpec(pre, f)
    case Truncate(n) => post == ClipSpec(pre, n)
  }

  /** states[k] is the entry list after the first k calls on a new map. */
  ghost predicate Run(ops: seq<Op>, b: Stamp, states: seq<seq<Entry>>) {
    && |states| == |ops| + 1 && states[0] == []
    && forall k :: 0 <= k < |ops| ==> Step(states[k], HistoryOf(History([], b), ops[..k]), ops[k], states[k + 1])
  }

  // ---------------------------------------------------------------------
  // Each call preserves the meaning
  // ---------------------------------------------------------------------

  lemma PutMeans(pre: seq<Entry>, h: History, w: Write, post: seq<Entry>)
    requires Means(pre, h) && Applied(pre, w, h.baseline, post)
    ensures Means(post, Next(h, Put(w)))
  {
    var ws := h.writes + [w];
    forall off: nat ensures IsHighest(ws, h.baseline, off, Look(post, off)) {
      PutHighest(h.writes, w, h.baseline, off, Look(pre, off));
    }
  }

  lemma PutHighest(ws: seq<Write>, w: Write, b: Stamp, off: nat, r: Option<Stamp>)
    requires IsHighest(ws, b, off, r)
    ensures IsHighest(ws + [w], b, off, After(r, w, b, off))
  {
    assert w in ws + [w];
    assert forall v :: v in ws + [w] <==> v in ws || v == w;
  }

  lemma {:induction false} PruneLooks(es: seq<Entry>, f: Stamp, off: nat)
    requires Ordered(es)
    ensures Look(PruneSpec(es, f), off) ==
            if Look(es, off).Some? && Dominates(Look(es, off).value, f) then Look(es, off) else None
    decreases |es|
  {
    if es != [] {
      var n := |es| - 1;
      var kept := if Dominates(es[n].stamp, f) then [es[n]] else [];
      PruneLooks(es[..n], f, off);
      assert es == es[..n] + [es[n]];
      LookConcat(es[..n], [es[n]], off);
      LookConcat(PruneSpec(es[..n], f), kept, off);
      LookIsAnEntry(es[..n], off);
    }
  }

  lemma {:induction false} PruneCanonical(es: seq<Entry>, f: Stamp)
    requires Canonical(es)
    ensures Canonical(PruneSpec(es, f))
    ensures PruneSpec(es, f) != [] ==>
              es != [] && PruneSpec(es, f)[|PruneSpec(es, f)| - 1].range.end <= es[|es| - 1].range.end
    ensures PruneSpec(es, f) != [] && PruneSpec(es, f)[|PruneSpec(es, f)| - 1].range.end == es[|es| - 1].range.end ==>
              PruneSpec(es, f)[|PruneSpec(es, f)| - 1] == es[|es| - 1]
    decreases |es|
  {
    if es != [] {
      var m := |es| - 1;
      PruneCanonical(es[..m], f);
      if Dominates(es[m].stamp, f) { CanonicalSnoc(PruneSpec(es[..m], f), es[m]); }
    }
  }

  lemma RaiseMeans(pre: seq<Entry>, h: History, f: Stamp)
    requires Means(pre, h) && !Dominates(h.baseline, f)
    ensures Means(PruneSpec(pre, f), Next(h, Raise(f)))
  {
    PruneCanonical(pre, f);
    forall off: nat ensures IsHighest(h.writes, f, off, Look(PruneSpec(pre, f), off)) {
      PruneLooks(pre, f, off);
    }
  }

  lemma {:induction false} ClipLooks(es: seq<Entry>, n: nat, off: nat)
    ensures Look(ClipSpec(es, n), off) == if off < n then Look(es, off) else None
    decreases |es|
  {
    if es != [] {
      var front, e := es[..|es| - 1], es[|es| - 1];
      ClipLooks(front, n, off);
      ClipOneLooks(front, ClipSpec(front, n), e, n, off);
      assert es == front + [e];
    }
  }

  lemma ClipOneLooks(front: seq<Entry>, clipped: seq<Entry>, e: Entry, n: nat, off: nat)
    requires Look(clipped, off) == if off < n then Look(front, off) else None
    ensures Look(clipped + ClipEntry(e, n), off) == if off < n then Look(front + [e], off) else None
  {
    LookConcat(front, [e], off);
    LookConcat(clipped, ClipEntry(e, n), off);
  }

  /** c is what clipping leaves of es: it stops by n and by the end of es. */
  predicate ClippedForm(c: seq<Entry>, es: seq<Entry>, n: nat) {
    && Canonical(c)
    && (c != [] ==>
          var last := c[|c| - 1];
          && es != [] && last.range.end <= n && last.range.end <= es[|es| - 1].range.end
          && (last.range.end == es[|es| - 1].range.end ==> last.stamp == es[|es| - 1].stamp))
  }

  lemma {:induction false} ClipCanonical(es: seq<Entry>, n: nat)
    requires Canonical(es)
    ensures ClippedForm(ClipSpec(es, n), es, n)
    decreases |es|
  {
    if es != [] {
      var front, e := es[..|es| - 1], es[|es| - 1];
      ClipCanonical(front, n);
      ClipOneCanonical(es, ClipSpec(front, n), n);
    }
  }

  lemma {:induction false} ClipOneCanonical(es: seq<Entry>, c: seq<Entry>, n: nat)
    requires Canonical(es) && es != [] && ClippedForm(c, es[..|es| - 1], n)
    ensures ClippedForm(c + ClipEntry(es[|es| - 1], n), es, n)
  {
    var e := es[|es| - 1];
    if e.range.start < n {
      CanonicalSnoc(c, Entry(ByteRange(e.range.start, Min(e.range.end, n)), e.stamp));
    } else {
      assert c + ClipEntry(e, n) == c;
    }
  }

  lemma TruncateMeans(pre: seq<Entry>, h: History, n: nat)
    requires Means(pre, h)
    ensures Means(ClipSpec(pre, n), Next(h, Truncate(n)))
  {
    ClipCanonical(pre, n);
    forall off: nat ensures IsHighest(ClipWrites(h.writes, n), h.baseline, off, Look(ClipSpec(pre, n), off)) {
      ClipLooks(pre, n, off);
      ClipHighest(h.writes, h.baseline, off, Look(pre, off), n);
    }
  }

  lemma ClipHighest(ws: seq<Write>, b: Stamp, off: nat, r: Option<Stamp>, n: nat)
    requires IsHighest(ws, b, off, r)
    ensures IsHighest(ClipWrites(ws, n), b, off, if off < n then r else None)
  {
    var cs := ClipWrites(ws, n);
    if off < n && r.Some? {
      var w :| w in ws && InRange(w.range, off) && w.stamp == r.value;
      var i :| 0 <= i < |ws| && ws[i] == w;
      assert cs[i] in cs && InRange(cs[i].range, off);
    }
  }

  // ---------------------------------------------------------------------
  // Main results
  // ---------------------------------------------------------------------

  /** After any run the list is canonical and means, at every byte, the highest covering write. */
  lemma {:induction false} RunMeans(ops: seq<Op>, b: Stamp, states: seq<seq<Entry>>, n: nat)
    requires Run(ops, b, states) && n <= |ops|
    ensures Means(states[n], HistoryOf(History([], b), ops[..n]))
    decreases n
  {
    if n > 0 {
      RunMeans(ops, b, states, n - 1);
      var h := HistoryOf(History([], b), ops[..n - 1]);
      assert ops[..n][..n - 1] == ops[..n - 1];
      match ops[n - 1]
      case Put(w) => PutMeans(states[n - 1], h, w, states[n - 1 + 1]);
      case Raise(f) => RaiseMeans(states[n - 1], h, f);
      case Truncate(m) => TruncateMeans(states[n - 1], h, m);
    }
  }

  predicate OnWire(h: History) { Packable(h.baseline.clock) && forall w :: w in h.writes ==> Packable(w.stamp.clock) }

  /** After any run a byte carries the stamp of a write that covers it, later than the baseline and than no
      other such write is later, in the order of the packed clocks; and nothing only if there is none. */
  lemma {:induction false} LatestClockWins(ops: seq<Op>, b: Stamp, states: seq<seq<Entry>>, off: nat)
    requires Run(ops, b, states) && OnWire(HistoryOf(History([], b), ops))
    ensures var h, r := HistoryOf(History([], b), ops), Look(states[|ops|], off);
            && (r.None? <==> forall w :: w in h.writes && InRange(w.range, off) ==> !Later(w.stamp, h.baseline))
            && (r.Some? ==> exists w :: w in h.writes && InRange(w.range, off) && w.stamp == r.value && Later(w.stamp, h.baseline)
                              && forall v :: v in h.writes && InRange(v.range, off) ==> !Later(v.stamp, w.stamp))
  {
    RunMeans(ops, b, states, |ops|);
    assert ops[..|ops|] == ops;
    var h, r := HistoryOf(History([], b), ops), Look(states[|ops|], off);
    assert IsHighest(h.writes, h.baseline, off, r);
    forall w | w in h.writes ensures Later(w.stamp, h.baseline) <==> Dominates(w.stamp, h.baseline) { DominatesIsLater(w.stamp, h.baseline); }
    if r.Some? {
      var w :| w in h.writes && InRange(w.range, off) && w.stamp == r.value;
      forall v | v in h.writes && InRange(v.range, off) ensures !Later(v.stamp, w.stamp) { DominatesIsLater(v.stamp, w.stamp); }
    }
  }

  /** Of two writes to a byte the one with the later packed clock wins, in whichever order they arrive. */
  lemma {:induction false} LaterOfTwoWins(w: Write, v: Write, b: Stamp, off: nat, states: seq<seq<Entry>>, swapped: seq<seq<Entry>>)
    requires Run([Put(w), Put(v)], b, states) && Run([Put(v), Put(w)], b, swapped)
    requires InRange(w.range, off) && InRange(v.range, off) && Packable(w.stamp.clock) && Packable(v.stamp.clock) && Packable(b.clock)
    requires Pack(b.clock) < Pack(v.stamp.clock) < Pack(w.stamp.clock)
    ensures Look(states[2], off) == Look(swapped[2], off) == Some(w.stamp)
  {
    HistoryOfPuts([w, v], b);
    HistoryOfPuts([v, w], b);
    assert Puts([w, v]) == [Put(w), Put(v)] && Puts([v, w]) == [Put(v), Put(w)];
    assert w in [w, v] && v in [w, v] && w in [v, w] && v in [v, w];
    LatestClockWins([Put(w), Put(v)], b, states, off);
    LatestClockWins([Put(v), Put(w)], b, swapped, off);
  }

  /** Two runs whose histories hold the same writes, in any order and with any repeats, over the same
      final baseline end in the identical entry list. */
  lemma {:induction false} Convergence(ops: seq<Op>, b: Stamp, states: seq<seq<Entry>>, ops': seq<Op>, b': Stamp, states': seq<seq<Entry>>)
    requires Run(ops, b, states) && Run(ops', b', states')
    requires forall w :: w in HistoryOf(History([], b), ops).writes <==> w in HistoryOf(History([], b'), ops').writes
    requires HistoryOf(History([], b), ops).baseline == HistoryOf(History([], b'), ops').baseline
    ensures states[|ops|] == states'[|ops'|]
  {
    RunMeans(ops, b, states, |ops|);
    RunMeans(ops', b', states', |ops'|);
    assert ops[..|ops|] == ops && ops'[..|ops'|] == ops';
    var h, h' := HistoryOf(History([], b), ops), HistoryOf(History([], b'), ops');
    var e, e' := states[|ops|], states'[|ops'|];
    forall off: nat ensures Look(e, off) == Look(e', off) {
      HighestIsUnique(h.writes, h'.writes, h.baseline, off, Look(e, off), Look(e', off));
    }
    CanonicalIsUnique(e, e');
  }

  function Puts(ws: seq<Write>): (ops: seq<Op>)
    ensures |ops| == |ws| && forall i :: 0 <= i < |ws| ==> ops[i] == Put(ws[i])
  {
    seq(|ws|, i requires 0 <= i < |ws| => Put(ws[i]))
  }

  lemma {:induction false} HistoryOfPuts(ws: seq<Write>, b: Stamp)
    ensures HistoryOf(History([], b), Puts(ws)) == History(ws, b)
    decreases |ws|
  {
    if ws != [] {
      var n := |ws| - 1;
      HistoryOfPuts(ws[..n], b);
      assert Puts(ws)[..n] == Puts(ws[..n]);
      assert ws == ws[..n] + [ws[n]];
    }
  }

  /** Writes under b pruned to f are exactly the writes under f. */
  lemma {:induction false} PruneCommutes(ws: seq<Write>, b: Stamp, f: Stamp, states: seq<seq<Entry>>, again: seq<seq<Entry>>)
    requires !Dominates(b, f)
    requires Run(Puts(ws), b, states) && Run(Puts(ws), f, again)
    ensures PruneSpec(states[|ws|], f) == again[|ws|]
  {
    var ops := Puts(ws) + [Raise(f)];
    HistoryOfPuts(ws, b);
    HistoryOfPuts(ws, f);
    ExtendRun(Puts(ws), b, states, Raise(f), PruneSpec(states[|ws|], f));
    Convergence(ops, b, states + [PruneSpec(states[|ws|], f)], Puts(ws), f, again);
  }

  /** A clipped map is exactly the map of the writes cut at n, and equals the old one below n. */
  lemma {:induction false} ClipCommutes(ws: seq<Write>, b: Stamp, n: nat, states: seq<seq<Entry>>, again: seq<seq<Entry>>)
    requires Run(Puts(ws), b, states) && Run(Puts(ClipWrites(ws, n)), b, again)
    ensures ClipSpec(states[|ws|], n) == again[|ws|]
    ensures forall off: nat :: Look(again[|ws|], off) == if off < n then Look(states[|ws|], off) else None
  {
    var ops := Puts(ws) + [Truncate(n)];
    HistoryOfPuts(ws, b);
    HistoryOfPuts(ClipWrites(ws, n), b);
    ExtendRun(Puts(ws), b, states, Truncate(n), ClipSpec(states[|ws|], n));
    Convergence(ops, b, states + [ClipSpec(states[|ws|], n)], Puts(ClipWrites(ws, n)), b, again);
    RunMeans(Puts(ws), b, states, |ws|);
    forall off: nat ensures Look(again[|ws|], off) == if off < n then Look(states[|ws|], off) else None {
      ClipLooks(states[|ws|], n, off);
    }
  }

  lemma ExtendRun(ops: seq<Op>, b: Stamp, states: seq<seq<Entry>>, op: Op, post: seq<Entry>)
    requires Run(ops, b, states)
    requires Step(states[|ops|], HistoryOf(History([], b), ops), op, post)
    ensures Run(ops + [op], b, states + [post])
    ensures HistoryOf(History([], b), ops + [op]) == Next(HistoryOf(History([], b), ops), op)
  {
    var all, ss := ops + [op], states + [post];
    assert all[..|ops|] == ops;
    forall k | 0 <= k < |all| ensures Step(ss[k], HistoryOf(History([], b), all[..k]), all[k], ss[k + 1]) {
      if k < |ops| { assert all[..k] == ops[..k]; }
    }
  }

  /** The ops whose floors only ever rise, which is what pruning is for. */
  ghost predicate Rising(ops: seq<Op>, b: Stamp) {
    forall k :: 0 <= k < |ops| && ops[k].Raise? ==> !Dominates(HistoryOf(History([], b), ops[..k]).baseline, ops[k].floor)
  }

  /** Replays any sequence of calls on the object: the runs above are the runs of the code. */
  method Replay(ops: seq<Op>, b: Stamp) returns (m: IntervalMap, ghost states: seq<seq<Entry>>)
    requires Rising(ops, b)
    ensures Run(ops, b, states) && m.entries == states[|ops|]
  {
    m := new IntervalMap();
    states := [[]];
    var baseline := b;
    for i := 0 to |ops|
      invariant |states| == i + 1 && m.entries == states[i]
      invariant Run(ops[..i], b, states) && baseline == HistoryOf(History([], b), ops[..i]).baseline
    {
      RunMeans(ops[..i], b, states, i);
      assert ops[..i][..i] == ops[..i];
      ghost var h := HistoryOf(History([], b), ops[..i]);
      match ops[i] {
        case Put(w) =>
          var won := m.Apply(w.range.start, w.range.end, w.stamp, baseline);
          assert Write(ByteRange(w.range.start, w.range.end), w.stamp) == w;
        case Raise(floor) =>
          m.Prune(floor);
          baseline := floor;
        case Truncate(maxEnd) => m.Clip(maxEnd);
      }
      assert Step(states[i], h, ops[i], m.entries);
      ExtendRun(ops[..i], b, states, ops[i], m.entries);
      assert ops[..i + 1] == ops[..i] + [ops[i]];
      states := states + [m.entries];
    }
    assert ops[..|ops|] == ops;
  }

  // ---------------------------------------------------------------------
  // The blob written through the won ranges
  // ---------------------------------------------------------------------

  datatype Patch = Patch(start: nat, bytes: seq<int>, stamp: Stamp)

  function AsWrite(p: Patch): Write { Write(ByteRange(p.start, p.start + |p.bytes|), p.stamp) }

  function AsWrites(ps: seq<Patch>): (ws: seq<Write>)
    ensures |ws| == |ps| && forall i :: 0 <= i < |ps| ==> ws[i] == AsWrite(ps[i])
  {
    seq(|ps|, i requires 0 <= i < |ps| => AsWrite(ps[i]))
  }

  predicate Carries(p: Patch, off: nat) { p.start <= off < p.start + |p.bytes| }

  function ByteAt(p: Patch, off: nat): int
    requires Carries(p, off)
  {
    p.bytes[off - p.start]
  }

  /** Stamps identify patches: two patches with one stamp agree wherever both carry a byte. */
  ghost predicate Consistent(ps: seq<Patch>) {
    forall p, q, off: nat {:trigger Carries(p, off), Carries(q, off)} ::
      p in ps && q in ps && p.stamp == q.stamp && Carries(p, off) && Carries(q, off) ==> ByteAt(p, off) == ByteAt(q, off)
  }

  datatype Replica = Replica(entries: seq<Entry>, blob: nat -> int)

  /** One patch delivered: Apply, then only the won bytes are written through. */
  ghost predicate Delivered(pre: Replica, p: Patch, b: Stamp, won: seq<ByteRange>, post: Replica) {
    && Applied(pre.entries, AsWrite(p), b, post.entries)
    && WonExactly(pre.entries, AsWrite(p), b, won)
    && forall off: nat :: post.blob(off) == if InRanges(won, off) && Carries(p, off) then ByteAt(p, off) else pre.blob(off)
  }

  ghost predicate BlobRun(ps: seq<Patch>, b: Stamp, wons: seq<seq<ByteRange>>, reps: seq<Replica>) {
    && |wons| == |ps| && |reps| == |ps| + 1 && reps[0].entries == []
    && forall k :: 0 <= k < |ps| ==> Delivered(reps[k], ps[k], b, wons[k], reps[k + 1])
  }

  /** blob holds, at off, the byte of the highest patch covering it, or the initial byte if there is none. */
  ghost predicate HoldsWinner(ps: seq<Patch>, init: nat -> int, r: Replica, off: nat) {
    match Look(r.entries, off)
    case None => r.blob(off) == init(off)
    case Some(s) => exists p :: p in ps && Carries(p, off) && p.stamp == s && r.blob(off) == ByteAt(p, off)
  }

  lemma {:induction false} BlobHoldsWinner(ps: seq<Patch>, b: Stamp, wons: seq<seq<ByteRange>>, reps: seq<Replica>, n: nat, off: nat)
    requires BlobRun(ps, b, wons, reps) && n <= |ps|
    ensures HoldsWinner(ps[..n], reps[0].blob, reps[n], off)
    decreases n
  {
    if n > 0 {
      BlobHoldsWinner(ps, b, wons, reps, n - 1, off);
      var p, pre, post := ps[n - 1], reps[n - 1], reps[n - 1 + 1];
      assert Delivered(pre, p, b, wons[n - 1], post);
      assert ps[..n] == ps[..n - 1] + [p];
      assert InRange(AsWrite(p).range, off) <==> Carries(p, off);
      assert Look(post.entries, off) == After(Look(pre.entries, off), AsWrite(p), b, off);
    }
  }

  /** Every delivery order, with any duplicates, leaves every replica with the same entries and the
      same blob: at each byte the content of the highest-stamped patch covering it. */
  lemma {:induction false} BlobConvergence(ps: seq<Patch>, wons: seq<seq<ByteRange>>, reps: seq<Replica>,
                        ps': seq<Patch>, wons': seq<seq<ByteRange>>, reps': seq<Replica>, b: Stamp)
    requires BlobRun(ps, b, wons, reps) && BlobRun(ps', b, wons', reps')
    requires forall p :: p in ps <==> p in ps'
    requires Consistent(ps)
    requires forall off: nat :: reps[0].blob(off) == reps'[0].blob(off)
    ensures reps[|ps|].entries == reps'[|ps'|].entries
    ensures forall off: nat :: reps[|ps|].blob(off) == reps'[|ps'|].blob(off)
    ensures forall off: nat, p :: p in ps && Carries(p, off) && Look(reps[|ps|].entries, off) == Some(p.stamp) ==>
              reps[|ps|].blob(off) == ByteAt(p, off)
  {
    EntriesOfBlobRun(ps, b, wons, reps);
    EntriesOfBlobRun(ps', b, wons', reps');
    var (ss, ss') := (EntryStates(reps), EntryStates(reps'));
    HistoryOfPuts(AsWrites(ps), b);
    HistoryOfPuts(AsWrites(ps'), b);
    SameWrites(ps, ps');
    SameWrites(ps', ps);
    Convergence(Puts(AsWrites(ps)), b, ss, Puts(AsWrites(ps')), b, ss');
    assert ps[..|ps|] == ps && ps'[..|ps'|] == ps';
    forall off: nat
      ensures reps[|ps|].blob(off) == reps'[|ps'|].blob(off)
      ensures forall p :: p in ps && Carries(p, off) && Look(reps[|ps|].entries, off) == Some(p.stamp) ==>
                reps[|ps|].blob(off) == ByteAt(p, off)
    {
      BlobHoldsWinner(ps, b, wons, reps, |ps|, off);
      BlobHoldsWinner(ps', b, wons', reps', |ps'|, off);
    }
  }

  function EntryStates(reps: seq<Replica>): (ss: seq<seq<Entry>>)
    ensures |ss| == |reps| && forall i :: 0 <= i < |reps| ==> ss[i] == reps[i].entries
  {
    seq(|reps|, i requires 0 <= i < |reps| => reps[i].entries)
  }

  lemma SameWrites(ps: seq<Patch>, ps': seq<Patch>)
    requires forall p :: p in ps ==> p in ps'
    ensures forall w :: w in AsWrites(ps) ==> w in AsWrites(ps')
  {
    forall w | w in AsWrites(ps) ensures w in AsWrites(ps') {
      var i :| 0 <= i < |ps| && AsWrites(ps)[i] == w;
      assert ps[i] in ps';
      var j :| 0 <= j < |ps'| && ps'[j] == ps[i];
      assert AsWrites(ps')[j] == w;
    }
  }

  lemma EntriesOfBlobRun(ps: seq<Patch>, b: Stamp, wons: seq<seq<ByteRange>>, reps: seq<Replica>)
    requires BlobRun(ps, b, wons, reps)
    ensures Run(Puts(AsWrites(ps)), b, EntryStates(reps))
  {
    var ops, ss := Puts(AsWrites(ps)), EntryStates(reps);
    forall k | 0 <= k < |ops| ensures Step(ss[k], HistoryOf(History([], b), ops[..k]), ops[k], ss[k + 1]) {
      assert ops[..k] == Puts(AsWrites(ps)[..k]);
      HistoryOfPuts(AsWrites(ps)[..k], b);
      assert Delivered(reps[k], ps[k], b, wons[k], reps[k + 1]);
    }
  }
}
