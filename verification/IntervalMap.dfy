/** The byte-range layer: a sorted interval list that behaves as a per-byte
    last-writer-wins map (crdt/interval_impl.go, crdt/interval.go). */
module IntervalMaps {
  import opened Base
  import opened Identity

  datatype ByteRange = ByteRange(start: nat, end: nat)

  datatype Entry = Entry(range: ByteRange, stamp: Stamp)

  predicate InRange(r: ByteRange, off: nat) { r.start <= off < r.end }

  predicate InRanges(rs: seq<ByteRange>, off: nat) {
    exists i :: 0 <= i < |rs| && InRange(rs[i], off)
  }

  /** Sorted, non-empty and pairwise disjoint. */
  predicate OrderedRanges(rs: seq<ByteRange>) {
    && (forall i :: 0 <= i < |rs| ==> rs[i].start < rs[i].end)
    && (forall i, j :: 0 <= i < j < |rs| ==> rs[i].end <= rs[j].start)
  }

  predicate Ordered(es: seq<Entry>) {
    && (forall i :: 0 <= i < |es| ==> es[i].range.start < es[i].range.end)
    && (forall i, j :: 0 <= i < j < |es| ==> es[i].range.end <= es[j].range.start)
  }

  /** The stored form: ordered, with byte-contiguous equal-stamp neighbours merged. */
  predicate Canonical(es: seq<Entry>) {
    && Ordered(es)
    && (forall i :: 0 <= i < |es| - 1 ==>
          es[i].range.end == es[i + 1].range.start ==> es[i].stamp != es[i + 1].stamp)
  }

  /** What a list means at one byte. */
  function Look(es: seq<Entry>, off: nat): Option<Stamp> {
    if es == [] then None
    else if InRange(es[0].range, off) then Some(es[0].stamp)
    else Look(es[1..], off)
  }

  lemma LookConcat(a: seq<Entry>, b: seq<Entry>, off: nat)
    ensures Look(a + b, off) == if Look(a, off).Some? then Look(a, off) else Look(b, off)
  {
    if a == [] {
      assert a + b == b;
    } else {
      assert (a + b)[1..] == a[1..] + b;
      LookConcat(a[1..], b, off);
    }
  }

  lemma LookIsAnEntry(es: seq<Entry>, off: nat)
    ensures Look(es, off).Some? ==>
              exists i :: 0 <= i < |es| && InRange(es[i].range, off) && es[i].stamp == Look(es, off).value
    ensures Look(es, off).None? ==> forall i :: 0 <= i < |es| ==> !InRange(es[i].range, off)
  {
    if es != [] && !InRange(es[0].range, off) {
      LookIsAnEntry(es[1..], off);
      if Look(es, off).Some? {
        var i :| 0 <= i < |es[1..]| && InRange(es[1..][i].range, off) && es[1..][i].stamp == Look(es, off).value;
        assert es[i + 1] == es[1..][i];
      } else {
        forall i | 0 <= i < |es| ensures !InRange(es[i].range, off) {
          if i > 0 { assert es[i] == es[1..][i - 1]; }
        }
      }
    }
  }

  lemma {:induction false} LookNone(es: seq<Entry>, off: nat)
    requires forall k :: 0 <= k < |es| ==> !InRange(es[k].range, off)
    ensures Look(es, off) == None
    decreases |es|
  {
    if es != [] { LookNone(es[1..], off); }
  }

  /** In an ordered list the entry that contains a byte decides it. */
  lemma LookAt(es: seq<Entry>, i: nat, off: nat)
    requires Ordered(es) && i < |es| && InRange(es[i].range, off)
    ensures Look(es, off) == Some(es[i].stamp)
  {
    LookIsAnEntry(es, off);
  }

  // ---------------------------------------------------------------------
  // Canonical lists are determined by their meaning
  // ---------------------------------------------------------------------

  lemma LookTail(es: seq<Entry>, off: nat)
    requires Ordered(es) && es != []
    ensures Ordered(es[1..])
    ensures off < es[0].range.end ==> Look(es[1..], off) == None
    ensures off >= es[0].range.end ==> Look(es[1..], off) == Look(es, off)
  {
    LookIsAnEntry(es[1..], off);
    assert forall i :: 0 <= i < |es[1..]| ==> es[1..][i] == es[i + 1];
  }

  lemma FirstCovered(a: seq<Entry>, b: seq<Entry>)
    requires Ordered(a) && Ordered(b) && a != []
    requires forall off: nat :: Look(a, off) == Look(b, off)
    ensures b != [] && b[0].range.start <= a[0].range.start
  {
    LookIsAnEntry(b, a[0].range.start);
    assert Look(a, a[0].range.start) == Look(b, a[0].range.start);
  }

  lemma FirstEnd(a: seq<Entry>, b: seq<Entry>)
    requires Canonical(a) && Canonical(b) && a != [] && b != []
    requires a[0].range.start == b[0].range.start && a[0].stamp == b[0].stamp
    requires forall off: nat :: Look(a, off) == Look(b, off)
    ensures a[0].range.end >= b[0].range.end
  {
    var off := a[0].range.end;
    LookIsAnEntry(a, off);
    if |a| > 1 && Look(a, off).Some? {
      var i :| 0 <= i < |a| && InRange(a[i].range, off) && a[i].stamp == Look(a, off).value;
      assert i == 1 && off == a[0 + 1].range.start;
    }
    assert Look(a, off) == Look(b, off);
  }

  /** Two canonical lists with the same meaning at every byte are the same list. */
  lemma {:induction false} CanonicalIsUnique(a: seq<Entry>, b: seq<Entry>)
    requires Canonical(a) && Canonical(b)
    requires forall off: nat :: Look(a, off) == Look(b, off)
    ensures a == b
  {
    if a == [] {
      if b != [] { FirstCovered(b, a); }
    } else {
      FirstCovered(a, b);
      FirstCovered(b, a);
      assert Look(a, a[0].range.start) == Look(b, b[0].range.start);
      FirstEnd(a, b);
      FirstEnd(b, a);
      forall off: nat ensures Look(a[1..], off) == Look(b[1..], off) {
        LookTail(a, off);
        LookTail(b, off);
      }
      LookTail(a, 0);
      LookTail(b, 0);
      TailCanonical(a);
      TailCanonical(b);
      CanonicalIsUnique(a[1..], b[1..]);
      assert a == [a[0]] + a[1..] && b == [b[0]] + b[1..];
    }
  }

  lemma TailCanonical(a: seq<Entry>)
    requires Canonical(a) && a != []
    ensures Canonical(a[1..])
  {
    forall i | 0 <= i < |a[1..]| - 1
      ensures a[1..][i].range.end == a[1..][i + 1].range.start ==> a[1..][i].stamp != a[1..][i + 1].stamp
    {
      assert a[1..][i] == a[i + 1] && a[1..][i + 1] == a[i + 1 + 1];
    }
  }

  // ---------------------------------------------------------------------
  // What one write does at one byte
  // ---------------------------------------------------------------------

  /** c wins a byte iff it strictly dominates what is there: the stored stamp, or the baseline in a gap. */
  predicate Wins(c: Stamp, prior: Option<Stamp>, baseline: Stamp) {
    Dominates(c, if prior.Some? then prior.value else baseline)
  }

  datatype Write = Write(range: ByteRange, stamp: Stamp)

  function After(prior: Option<Stamp>, w: Write, baseline: Stamp, off: nat): Option<Stamp> {
    if InRange(w.range, off) && Wins(w.stamp, prior, baseline) then Some(w.stamp) else prior
  }

  /** `post` is the canonical list that means `pre` with one write applied. */
  ghost predicate Applied(pre: seq<Entry>, w: Write, baseline: Stamp, post: seq<Entry>) {
    && Canonical(post)
    && forall off: nat :: Look(post, off) == After(Look(pre, off), w, baseline, off)
  }

  /** `won` lists exactly the bytes the write wins, in order and inside the write's range. */
  ghost predicate WonExactly(pre: seq<Entry>, w: Write, baseline: Stamp, won: seq<ByteRange>) {
    && OrderedRanges(won)
    && (forall i :: 0 <= i < |won| ==> w.range.start <= won[i].start && won[i].end <= w.range.end)
    && forall off: nat :: InRanges(won, off) <==> InRange(w.range, off) && Wins(w.stamp, Look(pre, off), baseline)
  }

  function PruneSpec(es: seq<Entry>, floor: Stamp): seq<Entry> {
    if es == [] then []
    else
      var n := |es| - 1;
      PruneSpec(es[..n], floor) + (if Dominates(es[n].stamp, floor) then [es[n]] else [])
  }

  function ClipEntry(e: Entry, maxEnd: nat): seq<Entry> {
    if e.range.start >= maxEnd then []
    else [Entry(ByteRange(e.range.start, Min(e.range.end, maxEnd)), e.stamp)]
  }

  function ClipSpec(es: seq<Entry>, maxEnd: nat): seq<Entry> {
    if es == [] then [] else ClipSpec(es[..|es| - 1], maxEnd) + ClipEntry(es[|es| - 1], maxEnd)
  }

  // ---------------------------------------------------------------------
  // The merge loop
  // ---------------------------------------------------------------------

  function Min(a: nat, b: nat): nat { if a < b then a else b }

  function Segment(lo: nat, hi: nat, s: Stamp): (es: seq<Entry>)
  {
    if lo < hi then [Entry(ByteRange(lo, hi), s)] else []
  }

  /** Entry e split against the write from the cursor on: the part below the write, the gap the
      write claims, the overlap, the part above the write. */
  function Split(e: Entry, w: Write, baseline: Stamp, cur: nat): seq<Entry>
    requires cur < w.range.end
  {
    var lo := if cur < e.range.start then Min(e.range.start, w.range.end) else cur;
    Segment(e.range.start, cur, e.stamp)
    + (if Dominates(w.stamp, baseline) then Segment(cur, lo, w.stamp) else [])
    + Segment(lo, Min(e.range.end, w.range.end), if Dominates(w.stamp, e.stamp) then w.stamp else e.stamp)
    + Segment(w.range.end, e.range.end, e.stamp)
  }

  function Gained(e: Entry, w: Write, baseline: Stamp, cur: nat): seq<ByteRange>
    requires cur < w.range.end
  {
    var lo := if cur < e.range.start then Min(e.range.start, w.range.end) else cur;
    var hi := Min(e.range.end, w.range.end);
    (if Dominates(w.stamp, baseline) && cur < lo then [ByteRange(cur, lo)] else [])
    + (if Dominates(w.stamp, e.stamp) && lo < hi then [ByteRange(lo, hi)] else [])
  }

  lemma LookSegment(lo: nat, hi: nat, s: Stamp, off: nat)
    ensures Look(Segment(lo, hi, s), off) == if lo <= off < hi then Some(s) else None
  {
  }

  /** What the split of e means at one byte. */
  lemma SplitAt(e: Entry, w: Write, baseline: Stamp, cur: nat, off: nat)
    requires w.range.start <= cur < w.range.end && cur < e.range.end
    requires e.range.start < w.range.end && e.range.start < e.range.end
    ensures var own := if InRange(e.range, off) then Some(e.stamp) else None;
            Look(Split(e, w, baseline, cur), off) ==
            if cur <= off < Min(e.range.end, w.range.end) then After(own, w, baseline, off) else own
  {
    var lo := if cur < e.range.start then Min(e.range.start, w.range.end) else cur;
    var hi := Min(e.range.end, w.range.end);
    var a := Segment(e.range.start, cur, e.stamp);
    var b := if Dominates(w.stamp, baseline) then Segment(cur, lo, w.stamp) else [];
    var c := Segment(lo, hi, if Dominates(w.stamp, e.stamp) then w.stamp else e.stamp);
    var d := Segment(w.range.end, e.range.end, e.stamp);
    LookConcat(a + b + c, d, off);
    LookConcat(a + b, c, off);
    LookConcat(a, b, off);
  }

  lemma SplitOrdered(e: Entry, w: Write, baseline: Stamp, cur: nat)
    requires w.range.start <= cur < w.range.end && cur < e.range.end
    requires e.range.start < w.range.end && e.range.start < e.range.end
    ensures Ordered(Split(e, w, baseline, cur))
    ensures forall k :: 0 <= k < |Split(e, w, baseline, cur)| ==>
              && Min(e.range.start, cur) <= Split(e, w, baseline, cur)[k].range.start
              && Split(e, w, baseline, cur)[k].range.end <= e.range.end
  {
  }

  lemma CanonicalSnoc(front: seq<Entry>, e: Entry)
    requires Canonical(front) && e.range.start < e.range.end
    requires front != [] ==>
               var last := front[|front| - 1];
               last.range.end <= e.range.start && (last.range.end == e.range.start ==> last.stamp != e.stamp)
    ensures Canonical(front + [e])
  {
    OrderedConcat(front, [e], e.range.start);
  }

  lemma OrderedConcat(a: seq<Entry>, b: seq<Entry>, mid: nat)
    requires Ordered(a) && Ordered(b)
    requires forall k :: 0 <= k < |a| ==> a[k].range.end <= mid
    requires forall k :: 0 <= k < |b| ==> mid <= b[k].range.start
    ensures Ordered(a + b)
  {
  }

  lemma InRangesConcat(a: seq<ByteRange>, b: seq<ByteRange>, off: nat)
    ensures InRanges(a + b, off) <==> InRanges(a, off) || InRanges(b, off)
  {
    if InRanges(a, off) {
      var i :| 0 <= i < |a| && InRange(a[i], off);
      assert (a + b)[i] == a[i];
    }
    if InRanges(b, off) {
      var i :| 0 <= i < |b| && InRange(b[i], off);
      assert (a + b)[|a| + i] == b[i];
    }
  }

  lemma GainedAt(e: Entry, w: Write, baseline: Stamp, cur: nat, off: nat)
    requires w.range.start <= cur < w.range.end && cur < e.range.end
    requires e.range.start < w.range.end && e.range.start < e.range.end
    ensures InRanges(Gained(e, w, baseline, cur), off) <==>
            && cur <= off < Min(e.range.end, w.range.end)
            && Wins(w.stamp, if InRange(e.range, off) then Some(e.stamp) else None, baseline)
  {
    var lo := if cur < e.range.start then Min(e.range.start, w.range.end) else cur;
    var hi := Min(e.range.end, w.range.end);
    var g := if Dominates(w.stamp, baseline) && cur < lo then [ByteRange(cur, lo)] else [];
    var o := if Dominates(w.stamp, e.stamp) && lo < hi then [ByteRange(lo, hi)] else [];
    InRangesConcat(g, o, off);
    assert g != [] && InRange(g[0], off) ==> InRanges(g, off);
    assert o != [] && InRange(o[0], off) ==> InRanges(o, off);
  }

  /** `out` means: the merged value on [start, cur), the first i entries elsewhere. */
  ghost predicate Merged(out: seq<Entry>, es: seq<Entry>, i: nat, w: Write, baseline: Stamp, cur: nat)
    requires i <= |es|
  {
    forall off: nat :: Look(out, off) ==
      if w.range.start <= off < cur then After(Look(es, off), w, baseline, off) else Look(es[..i], off)
  }

  ghost predicate WonUpTo(won: seq<ByteRange>, es: seq<Entry>, w: Write, baseline: Stamp, cur: nat) {
    && OrderedRanges(won)
    && (forall k :: 0 <= k < |won| ==> w.range.start <= won[k].start && won[k].end <= cur)
    && forall off: nat :: InRanges(won, off) <==>
         w.range.start <= off < cur && Wins(w.stamp, Look(es, off), baseline)
  }

  /** The cursor sits between the entries consumed and the next one. */
  predicate CursorAt(es: seq<Entry>, i: nat, w: Write, cur: nat) {
    && Ordered(es) && i <= |es| && w.range.start <= cur <= w.range.end
    && (i < |es| ==> es[i].range.end > cur)
    && (i > 0 ==> es[i - 1].range.end <= cur || cur == w.range.end)
    && (i < |es| && es[i].range.start < cur ==> cur == w.range.start || cur == w.range.end)
  }

  lemma OwnValue(es: seq<Entry>, i: nat, w: Write, cur: nat, off: nat)
    requires CursorAt(es, i, w, cur) && i < |es| && cur < w.range.end
    requires cur <= off < es[i].range.end
    ensures Look(es, off) == if InRange(es[i].range, off) then Some(es[i].stamp) else None
    ensures Look(es[..i], off) == None
  {
    LookIsAnEntry(es, off);
    LookIsAnEntry(es[..i], off);
  }

  /** Appending the split of the next entry advances the merge by one entry. */
  lemma MergeAdvances(out: seq<Entry>, es: seq<Entry>, i: nat, w: Write, baseline: Stamp, cur: nat)
    requires CursorAt(es, i, w, cur) && i < |es| && cur < w.range.end && es[i].range.start < w.range.end
    requires Merged(out, es, i, w, baseline, cur)
    ensures Merged(out + Split(es[i], w, baseline, cur), es, i + 1, w, baseline, Min(es[i].range.end, w.range.end))
    ensures CursorAt(es, i + 1, w, Min(es[i].range.end, w.range.end))
  {
    var e, upTo, segs := es[i], Min(es[i].range.end, w.range.end), Split(es[i], w, baseline, cur);
    assert es[..i + 1] == es[..i] + [e];
    forall off: nat
      ensures Look(out + segs, off) ==
              if w.range.start <= off < upTo then After(Look(es, off), w, baseline, off) else Look(es[..i + 1], off)
    {
      LookConcat(out, segs, off);
      SplitAt(e, w, baseline, cur, off);
      LookConcat(es[..i], [e], off);
      LookIsAnEntry(es[..i], off);
      if cur <= off < upTo { OwnValue(es, i, w, cur, off); }
    }
  }

  lemma WonAdvances(won: seq<ByteRange>, es: seq<Entry>, i: nat, w: Write, baseline: Stamp, cur: nat)
    requires CursorAt(es, i, w, cur) && i < |es| && cur < w.range.end && es[i].range.start < w.range.end
    requires WonUpTo(won, es, w, baseline, cur)
    ensures WonUpTo(won + Gained(es[i], w, baseline, cur), es, w, baseline, Min(es[i].range.end, w.range.end))
  {
    var e, upTo, more := es[i], Min(es[i].range.end, w.range.end), Gained(es[i], w, baseline, cur);
    forall off: nat
      ensures InRanges(won + more, off) <==> w.range.start <= off < upTo && Wins(w.stamp, Look(es, off), baseline)
    {
      InRangesConcat(won, more, off);
      GainedAt(e, w, baseline, cur, off);
      if cur <= off < upTo { OwnValue(es, i, w, cur, off); }
    }
  }

  /** The trailing gap and the entries past the write complete the merge. */
  lemma MergeFinishes(out: seq<Entry>, es: seq<Entry>, i: nat, w: Write, baseline: Stamp, cur: nat)
    requires CursorAt(es, i, w, cur) && (i < |es| ==> es[i].range.start >= w.range.end)
    requires Merged(out, es, i, w, baseline, cur)
    ensures var gap := if Dominates(w.stamp, baseline) then Segment(cur, w.range.end, w.stamp) else [];
            forall off: nat :: Look(out + gap + es[i..], off) == After(Look(es, off), w, baseline, off)
  {
    var gap := if Dominates(w.stamp, baseline) then Segment(cur, w.range.end, w.stamp) else [];
    forall off: nat ensures Look(out + gap + es[i..], off) == After(Look(es, off), w, baseline, off) {
      MergeFinishesAt(out, gap, es, i, w, baseline, cur, off);
    }
  }

  lemma {:induction false} MergeFinishesAt(out: seq<Entry>, gap: seq<Entry>, es: seq<Entry>, i: nat, w: Write, baseline: Stamp, cur: nat, off: nat)
    requires CursorAt(es, i, w, cur) && (i < |es| ==> es[i].range.start >= w.range.end)
    requires gap == if Dominates(w.stamp, baseline) then Segment(cur, w.range.end, w.stamp) else []
    requires Look(out, off) ==
             if w.range.start <= off < cur then After(Look(es, off), w, baseline, off) else Look(es[..i], off)
    ensures Look(out + gap + es[i..], off) == After(Look(es, off), w, baseline, off)
  {
    LookConcat(out + gap, es[i..], off);
    LookConcat(out, gap, off);
    LookSegment(cur, w.range.end, w.stamp, off);
    LookPastWrite(es, i, w, cur, off);
  }

  lemma {:induction false} LookPastWrite(es: seq<Entry>, i: nat, w: Write, cur: nat, off: nat)
    requires CursorAt(es, i, w, cur) && (i < |es| ==> es[i].range.start >= w.range.end)
    ensures Look(es, off) == if Look(es[..i], off).Some? then Look(es[..i], off) else Look(es[i..], off)
    ensures off < w.range.end ==> Look(es[i..], off) == None
    ensures cur <= off < w.range.end ==> Look(es[..i], off) == None
  {
    LookHalves(es, i, off);
    if off < w.range.end { NoneFrom(es, i, w.range.end, off); }
    if cur <= off < w.range.end { NoneUpTo(es, i, off); }
  }

  lemma {:induction false} LookHalves(es: seq<Entry>, i: nat, off: nat)
    requires i <= |es|
    ensures Look(es, off) == if Look(es[..i], off).Some? then Look(es[..i], off) else Look(es[i..], off)
  {
    LookConcat(es[..i], es[i..], off);
    assert es[..i] + es[i..] == es;
  }

  lemma {:induction false} NoneFrom(es: seq<Entry>, i: nat, bound: nat, off: nat)
    requires Ordered(es) && i <= |es| && (i < |es| ==> es[i].range.start >= bound) && off < bound
    ensures Look(es[i..], off) == None
  {
    assert forall k :: i <= k < |es| ==> bound <= es[k].range.start;
    LookNone(es[i..], off);
  }

  lemma {:induction false} NoneUpTo(es: seq<Entry>, i: nat, off: nat)
    requires Ordered(es) && i <= |es| && (i > 0 ==> es[i - 1].range.end <= off)
    ensures Look(es[..i], off) == None
  {
    assert forall k :: 0 <= k < i ==> es[k].range.end <= off;
    LookNone(es[..i], off);
  }

  lemma WonFinishes(won: seq<ByteRange>, es: seq<Entry>, i: nat, w: Write, baseline: Stamp, cur: nat)
    requires CursorAt(es, i, w, cur) && (i < |es| ==> es[i].range.start >= w.range.end)
    requires WonUpTo(won, es, w, baseline, cur)
    ensures var gap := if cur < w.range.end && Dominates(w.stamp, baseline) then [ByteRange(cur, w.range.end)] else [];
            WonExactly(es, w, baseline, won + gap)
  {
    var gap := if cur < w.range.end && Dominates(w.stamp, baseline) then [ByteRange(cur, w.range.end)] else [];
    forall off: nat
      ensures InRanges(won + gap, off) <==> InRange(w.range, off) && Wins(w.stamp, Look(es, off), baseline)
    {
      InRangesConcat(won, gap, off);
      LookIsAnEntry(es, off);
      assert gap != [] && InRange(gap[0], off) ==> InRanges(gap, off);
    }
  }

  /** Everything emitted is ordered and ends where the entries consumed end. */
  predicate EndsBy(out: seq<Entry>, es: seq<Entry>, i: nat)
    requires i <= |es|
  {
    Ordered(out) && forall k :: 0 <= k < |out| ==> i > 0 && out[k].range.end <= es[i - 1].range.end
  }

  lemma {:induction false} OutAdvances(out: seq<Entry>, es: seq<Entry>, i: nat, w: Write, baseline: Stamp, cur: nat)
    requires CursorAt(es, i, w, cur) && i < |es| && cur < w.range.end && es[i].range.start < w.range.end
    requires EndsBy(out, es, i)
    ensures EndsBy(out + Split(es[i], w, baseline, cur), es, i + 1)
  {
    SplitOrdered(es[i], w, baseline, cur);
    OrderedConcat(out, Split(es[i], w, baseline, cur), if i > 0 then es[i - 1].range.end else 0);
  }

  lemma {:induction false} OutFinishes(out: seq<Entry>, es: seq<Entry>, i: nat, w: Write, baseline: Stamp, cur: nat)
    requires CursorAt(es, i, w, cur) && (i < |es| ==> es[i].range.start >= w.range.end)
    requires EndsBy(out, es, i) && (cur == w.range.end ==> i > 0 && es[i - 1].range.end >= cur)
    ensures var gap := if Dominates(w.stamp, baseline) then Segment(cur, w.range.end, w.stamp) else [];
            Ordered(out + gap + es[i..])
  {
    var gap := if Dominates(w.stamp, baseline) then Segment(cur, w.range.end, w.stamp) else [];
    if gap == [] {
      assert out + gap == out;
      OrderedConcat(out, es[i..], if i > 0 then es[i - 1].range.end else 0);
    } else {
      OrderedConcat(out, gap, cur);
      OrderedConcat(out + gap, es[i..], w.range.end);
    }
  }

  lemma {:induction false} NothingApplied(es: seq<Entry>, w: Write, baseline: Stamp)
    requires Canonical(es) && w.range.start >= w.range.end
    ensures Applied(es, w, baseline, es) && WonExactly(es, w, baseline, [])
  {
  }

  datatype Progress = Progress(out: seq<Entry>, won: seq<ByteRange>, cur: nat)

  function ConsumeOne(p: Progress, e: Entry, w: Write, baseline: Stamp): Progress {
    if e.range.end <= w.range.start || p.cur >= w.range.end then p.(out := p.out + [e])
    else Progress(p.out + Split(e, w, baseline, p.cur), p.won + Gained(e, w, baseline, p.cur), Min(e.range.end, w.range.end))
  }

  /** The loop state once the first i entries, all starting below the write's end, are consumed. */
  function Consumed(es: seq<Entry>, i: nat, w: Write, baseline: Stamp): (p: Progress)
    requires i <= |es|
  {
    if i == 0 then Progress([], [], w.range.start)
    else ConsumeOne(Consumed(es, i - 1, w, baseline), es[i - 1], w, baseline)
  }

  /** i entries, all starting below the write's end, are consumed and the next one reaches past its start. */
  predicate Reached(es: seq<Entry>, i: nat, w: Write) {
    && Ordered(es) && i <= |es| && w.range.start < w.range.end
    && (i > 0 ==> es[i - 1].range.start < w.range.end)
    && (i < |es| ==> es[i].range.end > w.range.start)
  }

  /** The entries up to i all end before the write, if the last of them does. */
  lemma AllBefore(es: seq<Entry>, i: nat, w: Write, baseline: Stamp)
    requires Ordered(es) && i <= |es| && (i == 0 || es[i - 1].range.end <= w.range.start)
    ensures Consumed(es, i, w, baseline) == Progress(es[..i], [], w.range.start)
  {
    forall k | 0 <= k < i ensures es[k].range.end <= w.range.start { if k < i - 1 { assert es[k].range.end <= es[i - 1].range.start; } }
    ConsumedBefore(es, i, w, baseline);
  }

  /** The write overlaps entry i - 1: what was consumed before it, and how consuming it goes. */
  lemma Overlapping(es: seq<Entry>, i: nat, w: Write, baseline: Stamp) returns (p: Progress)
    requires 0 < i && Reached(es, i, w) && es[i - 1].range.end > w.range.start
    ensures Reached(es, i - 1, w) && p == Consumed(es, i - 1, w, baseline) && w.range.start <= p.cur < Min(es[i - 1].range.end, w.range.end)
    ensures Consumed(es, i, w, baseline) ==
            Progress(p.out + Split(es[i - 1], w, baseline, p.cur), p.won + Gained(es[i - 1], w, baseline, p.cur), Min(es[i - 1].range.end, w.range.end))
  {
    p := Consumed(es, i - 1, w, baseline);
    if i > 1 { assert es[i - 2].range.end <= es[i - 1].range.start; }
    ConsumedCursor(es, i - 1, w, baseline);
  }

  lemma CursorAdvances(es: seq<Entry>, i: nat, w: Write)
    requires 0 < i && Reached(es, i, w) && es[i - 1].range.end > w.range.start
    ensures CursorAt(es, i, w, Min(es[i - 1].range.end, w.range.end))
  {
    if i < |es| { assert es[i - 1].range.end <= es[i].range.start; }
  }

  lemma CursorBefore(es: seq<Entry>, i: nat, w: Write)
    requires Reached(es, i, w) && (i == 0 || es[i - 1].range.end <= w.range.start)
    ensures CursorAt(es, i, w, w.range.start) && EndsBy(es[..i], es, i)
  {
    forall k | 0 <= k < i ensures es[k].range.end <= es[i - 1].range.end { if k < i - 1 { assert es[k].range.end <= es[i - 1].range.start; } }
  }

  lemma {:induction false} ConsumedCursorAt(es: seq<Entry>, i: nat, w: Write, baseline: Stamp)
    requires Reached(es, i, w)
    ensures CursorAt(es, i, w, Consumed(es, i, w, baseline).cur)
    ensures Consumed(es, i, w, baseline).cur == w.range.end ==> i > 0 && es[i - 1].range.end >= w.range.end
    ensures EndsBy(Consumed(es, i, w, baseline).out, es, i)
    decreases i
  {
    if i == 0 || es[i - 1].range.end <= w.range.start {
      AllBefore(es, i, w, baseline);
      CursorBefore(es, i, w);
    } else {
      var p := Overlapping(es, i, w, baseline);
      ConsumedCursorAt(es, i - 1, w, baseline);
      CursorAdvances(es, i, w);
      OutAdvances(p.out, es, i - 1, w, baseline, p.cur);
    }
  }

  /** Consuming entries keeps the per-byte meaning of the merge. */
  lemma {:induction false} ConsumedIsMerged(es: seq<Entry>, i: nat, w: Write, baseline: Stamp)
    requires Reached(es, i, w)
    ensures Merged(Consumed(es, i, w, baseline).out, es, i, w, baseline, Consumed(es, i, w, baseline).cur)
    decreases i
  {
    if i == 0 || es[i - 1].range.end <= w.range.start {
      AllBefore(es, i, w, baseline);
    } else {
      var p := Overlapping(es, i, w, baseline);
      ConsumedIsMerged(es, i - 1, w, baseline);
      ConsumedCursorAt(es, i - 1, w, baseline);
      MergeAdvances(p.out, es, i - 1, w, baseline, p.cur);
    }
  }

  lemma {:induction false} ConsumedIsWon(es: seq<Entry>, i: nat, w: Write, baseline: Stamp)
    requires Reached(es, i, w)
    ensures WonUpTo(Consumed(es, i, w, baseline).won, es, w, baseline, Consumed(es, i, w, baseline).cur)
    decreases i
  {
    if i == 0 || es[i - 1].range.end <= w.range.start {
      AllBefore(es, i, w, baseline);
    } else {
      var p := Overlapping(es, i, w, baseline);
      ConsumedIsWon(es, i - 1, w, baseline);
      ConsumedCursorAt(es, i - 1, w, baseline);
      WonAdvances(p.won, es, i - 1, w, baseline, p.cur);
    }
  }

  lemma {:induction false} ConsumedBefore(es: seq<Entry>, i: nat, w: Write, baseline: Stamp)
    requires Ordered(es) && i <= |es|
    requires forall k :: 0 <= k < i ==> es[k].range.end <= w.range.start
    ensures Consumed(es, i, w, baseline) == Progress(es[..i], [], w.range.start)
    decreases i
  {
    if i > 0 {
      ConsumedBefore(es, i - 1, w, baseline);
      assert es[..i] == es[..i - 1] + [es[i - 1]];
    }
  }

  lemma {:induction false} ConsumedCursor(es: seq<Entry>, i: nat, w: Write, baseline: Stamp)
    requires Ordered(es) && i < |es| && w.range.start < w.range.end
    requires es[i].range.start < w.range.end && es[i].range.end > w.range.start
    ensures w.range.start <= Consumed(es, i, w, baseline).cur < Min(es[i].range.end, w.range.end)
    decreases i
  {
    if i > 0 {
      assert es[i - 1].range.end <= es[i].range.start;
      if es[i - 1].range.end > w.range.start { ConsumedCursor(es, i - 1, w, baseline); }
      else { ConsumedBefore(es, i, w, baseline); }
    }
  }

  /** The list before coalescing: what was consumed, the trailing gap, the entries past the write. */
  function WithRest(es: seq<Entry>, i: nat, w: Write, baseline: Stamp): seq<Entry>
    requires i <= |es|
  {
    var p := Consumed(es, i, w, baseline);
    p.out + (if Dominates(w.stamp, baseline) then Segment(p.cur, w.range.end, w.stamp) else []) + es[i..]
  }

  function WithLastGain(es: seq<Entry>, i: nat, w: Write, baseline: Stamp): seq<ByteRange>
    requires i <= |es|
  {
    var p := Consumed(es, i, w, baseline);
    p.won + if p.cur < w.range.end && Dominates(w.stamp, baseline) then [ByteRange(p.cur, w.range.end)] else []
  }

  lemma {:induction false} ApplyFinishes(es: seq<Entry>, i: nat, w: Write, baseline: Stamp)
    requires Reached(es, i, w) && (i < |es| ==> es[i].range.start >= w.range.end)
    ensures Ordered(WithRest(es, i, w, baseline))
    ensures forall off: nat :: Look(WithRest(es, i, w, baseline), off) == After(Look(es, off), w, baseline, off)
    ensures WonExactly(es, w, baseline, WithLastGain(es, i, w, baseline))
  {
    var p := Consumed(es, i, w, baseline);
    ConsumedCursorAt(es, i, w, baseline);
    ConsumedIsMerged(es, i, w, baseline);
    ConsumedIsWon(es, i, w, baseline);
    MergeFinishes(p.out, es, i, w, baseline, p.cur);
    WonFinishes(p.won, es, i, w, baseline, p.cur);
    OutFinishes(p.out, es, i, w, baseline, p.cur);
  }

  lemma ConsumedStep(es: seq<Entry>, i: nat, w: Write, baseline: Stamp)
    requires Reached(es, i, w) && i < |es| && es[i].range.start < w.range.end
    ensures Reached(es, i + 1, w)
    ensures w.range.start <= Consumed(es, i, w, baseline).cur < Min(es[i].range.end, w.range.end)
    ensures Consumed(es, i + 1, w, baseline) == ConsumeOne(Consumed(es, i, w, baseline), es[i], w, baseline)
  {
    ConsumedCursor(es, i, w, baseline);
  }

  method CopyBefore(es: seq<Entry>, start: nat) returns (out: seq<Entry>, i: nat)
    requires Ordered(es)
    ensures i <= |es| && out == es[..i]
    ensures forall k :: 0 <= k < i ==> es[k].range.end <= start
    ensures i < |es| ==> es[i].range.end > start
  {
    out, i := [], 0;
    while i < |es| && es[i].range.end <= start
      invariant i <= |es| && out == es[..i]
      invariant forall k :: 0 <= k < i ==> es[k].range.end <= start
    {
      out := out + [es[i]];
      i := i + 1;
    }
  }

  /** One iteration of the merge loop: split e against the write from the cursor on. */
  method Overlay(p: Progress, e: Entry, w: Write, baseline: Stamp) returns (q: Progress)
    requires w.range.start <= p.cur < w.range.end && p.cur < e.range.end
    requires e.range.start < w.range.end && e.range.start < e.range.end
    ensures q == ConsumeOne(p, e, w, baseline)
  {
    var c, end, cur := w.stamp, w.range.end, p.cur;
    var segs: seq<Entry>, gained: seq<ByteRange> := [], [];
    if e.range.start < cur {
      segs := segs + [Entry(ByteRange(e.range.start, cur), e.stamp)];
    }
    var gapEnd := Min(e.range.start, end);
    if cur < gapEnd {
      if Dominates(c, baseline) {
        segs, gained := segs + [Entry(ByteRange(cur, gapEnd), c)], gained + [ByteRange(cur, gapEnd)];
      }
      cur := gapEnd;
    }
    var ovEnd := Min(e.range.end, end);
    if cur < ovEnd {
      if Dominates(c, e.stamp) {
        segs, gained := segs + [Entry(ByteRange(cur, ovEnd), c)], gained + [ByteRange(cur, ovEnd)];
      } else {
        segs := segs + [Entry(ByteRange(cur, ovEnd), e.stamp)];
      }
      cur := ovEnd;
    }
    if e.range.end > end {
      segs := segs + [Entry(ByteRange(end, e.range.end), e.stamp)];
    }
    assert segs == Split(e, w, baseline, p.cur);
    assert gained == Gained(e, w, baseline, p.cur);
    q := Progress(p.out + segs, p.won + gained, cur);
  }

  /** Merges every entry that overlaps the write, from index from on. */
  method MergeOverlaps(es: seq<Entry>, from: nat, w: Write, baseline: Stamp) returns (p: Progress, i: nat)
    requires Ordered(es) && from <= |es| && w.range.start < w.range.end
    requires Reached(es, from, w) && Consumed(es, from, w, baseline) == Progress(es[..from], [], w.range.start)
    ensures Reached(es, i, w) && (i < |es| ==> es[i].range.start >= w.range.end)
    ensures p == Consumed(es, i, w, baseline)
  {
    p, i := Progress(es[..from], [], w.range.start), from;
    while i < |es| && es[i].range.start < w.range.end
      invariant Reached(es, i, w)
      invariant p == Consumed(es, i, w, baseline)
    {
      ConsumedStep(es, i, w, baseline);
      p := Overlay(p, es[i], w, baseline);
      i := i + 1;
    }
  }

  /** Copies the entries before the write, merges every entry that overlaps it, claims the
      trailing gap and copies the rest. */
  method Merge(es: seq<Entry>, w: Write, baseline: Stamp) returns (out: seq<Entry>, won: seq<ByteRange>, i: nat)
    requires Ordered(es) && w.range.start < w.range.end
    ensures Reached(es, i, w) && (i < |es| ==> es[i].range.start >= w.range.end)
    ensures out == WithRest(es, i, w, baseline)
    ensures won == WithLastGain(es, i, w, baseline)
  {
    out, i := CopyBefore(es, w.range.start);
    ConsumedBefore(es, i, w, baseline);
    var p;
    p, i := MergeOverlaps(es, i, w, baseline);
    out, won := p.out, p.won;
    if p.cur < w.range.end && Dominates(w.stamp, baseline) {
      won := won + [ByteRange(p.cur, w.range.end)];
      out := out + [Entry(ByteRange(p.cur, w.range.end), w.stamp)];
    }
    assert out == p.out + if Dominates(w.stamp, baseline) then Segment(p.cur, w.range.end, w.stamp) else [];
    out := out + es[i..];
  }

  /** Adjacent equal-stamp neighbours merged, left to right. */
  function CoalesceSpec(es: seq<Entry>): (out: seq<Entry>)
    ensures es != [] ==> out != []
  {
    if |es| <= 1 then es
    else
      Absorb(CoalesceSpec(es[..|es| - 1]), es[|es| - 1])
  }

  lemma {:induction false} CoalescePreserves(es: seq<Entry>)
    requires Ordered(es)
    ensures Canonical(CoalesceSpec(es))
    ensures es != [] ==> CoalesceSpec(es)[|CoalesceSpec(es)| - 1].range.end == es[|es| - 1].range.end
    ensures forall off: nat :: Look(CoalesceSpec(es), off) == Look(es, off)
    decreases |es|
  {
    if |es| > 1 {
      var front, e := es[..|es| - 1], es[|es| - 1];
      var c := CoalesceSpec(front);
      CoalescePreserves(front);
      CoalesceOne(c, e);
      assert CoalesceSpec(es) == Absorb(c, e) && es == front + [e];
      forall off: nat ensures Look(Absorb(c, e), off) == Look(front + [e], off) {
        LookConcat(front, [e], off);
        LookConcat(c, [e], off);
      }
    }
  }

  function Absorb(out: seq<Entry>, e: Entry): seq<Entry>
    requires out != []
  {
    var last := out[|out| - 1];
    if last.range.end == e.range.start && last.stamp == e.stamp
    then out[|out| - 1 := Entry(ByteRange(last.range.start, e.range.end), last.stamp)]
    else out + [e]
  }

  lemma {:induction false} CoalesceOne(out: seq<Entry>, e: Entry)
    requires Canonical(out) && out != [] && e.range.start < e.range.end
    requires out[|out| - 1].range.end <= e.range.start
    ensures Canonical(Absorb(out, e))
    ensures forall off: nat :: Look(Absorb(out, e), off) == Look(out + [e], off)
  {
    var last, front := out[|out| - 1], out[..|out| - 1];
    if Absorb(out, e) != out + [e] {
      var merged := Entry(ByteRange(last.range.start, e.range.end), last.stamp);
      assert Absorb(out, e) == front + [merged] && out == front + [last];
      forall off: nat ensures Look(Absorb(out, e), off) == Look(out + [e], off) {
        LookConcat(front, [merged], off);
        LookConcat(front, [last], off);
        LookConcat(out, [e], off);
      }
    } else {
      CanonicalSnoc(out, e);
    }
  }

  method Coalesce(entries: seq<Entry>) returns (out: seq<Entry>)
    ensures out == CoalesceSpec(entries)
  {
    if |entries| <= 1 { return entries; }
    out := entries[..1];
    for i := 1 to |entries|
      invariant out == CoalesceSpec(entries[..i])
    {
      assert entries[..i + 1][..i] == entries[..i];
      var e := entries[i];
      var last := out[|out| - 1];
      if last.range.end == e.range.start && last.stamp == e.stamp {
        out := out[|out| - 1 := Entry(ByteRange(last.range.start, e.range.end), last.stamp)];
      } else {
        out := out + [e];
      }
    }
    assert entries[..|entries|] == entries;
  }

  class IntervalMap {
    var entries: seq<Entry>

    constructor ()
      ensures entries == []
    {
      entries := [];
    }

    /** Binary search for the first entry that starts past off. */
    method FirstAfter(off: nat) returns (i: nat)
      requires Ordered(entries)
      ensures i <= |entries|
      ensures forall k :: 0 <= k < i ==> entries[k].range.start <= off
      ensures forall k :: i <= k < |entries| ==> entries[k].range.start > off
    {
      var hi := |entries|;
      i := 0;
      while i < hi
        invariant i <= hi <= |entries|
        invariant forall k :: 0 <= k < i ==> entries[k].range.start <= off
        invariant forall k :: hi <= k < |entries| ==> entries[k].range.start > off
      {
        var mid := (i + hi) / 2;
        if entries[mid].range.start > off { hi := mid; } else { i := mid + 1; }
      }
    }

    /** The effective stamp at off; the zero stamp where no entry covers it. */
    method At(off: nat) returns (s: Stamp)
      requires Canonical(entries)
      ensures s == match Look(entries, off) case Some(v) => v case None => ZERO_STAMP
    {
      var i := FirstAfter(off);
      LookIsAnEntry(entries, off);
      if i == 0 { return ZERO_STAMP; }
      var e := entries[i - 1];
      if off < e.range.end {
        LookAt(entries, i - 1, off);
        return e.stamp;
      }
      return ZERO_STAMP;
    }

    /** Integrates a write of c over [start, end): entries become the canonical list of the
        per-byte merge, and the result lists exactly the bytes c won. */
    method Apply(start: nat, end: nat, c: Stamp, baseline: Stamp) returns (won: seq<ByteRange>)
      requires Canonical(entries)
      modifies this
      ensures Applied(old(entries), Write(ByteRange(start, end), c), baseline, entries)
      ensures WonExactly(old(entries), Write(ByteRange(start, end), c), baseline, won)
    {
      var w := Write(ByteRange(start, end), c);
      if start >= end {
        NothingApplied(entries, w, baseline);
        return [];
      }
      var out, i;
      out, won, i := Merge(entries, w, baseline);
      ApplyFinishes(entries, i, w, baseline);
      CoalescePreserves(out);
      entries := Coalesce(out);
    }

    method Prune(floor: Stamp)
      modifies this
      ensures entries == PruneSpec(old(entries), floor)
    {
      var out: seq<Entry> := [];
      for i := 0 to |entries|
        invariant entries == old(entries)
        invariant out == PruneSpec(entries[..i], floor)
      {
        assert entries[..i + 1][..i] == entries[..i];
        if Dominates(entries[i].stamp, floor) { out := out + [entries[i]]; }
      }
      assert entries[..|entries|] == entries;
      entries := out;
    }

    method Clip(maxEnd: nat)
      modifies this
      ensures entries == ClipSpec(old(entries), maxEnd)
    {
      var out: seq<Entry> := [];
      for i := 0 to |entries|
        invariant entries == old(entries)
        invariant out == ClipSpec(entries[..i], maxEnd)
      {
        assert entries[..i + 1][..i] == entries[..i];
        var e := entries[i];
        if e.range.start >= maxEnd { continue; }
        if e.range.end > maxEnd { e := Entry(ByteRange(e.range.start, maxEnd), e.stamp); }
        out := out + [e];
      }
      assert entries[..|entries|] == entries;
      entries := out;
    }
  }
}
