/** Sets of sequence numbers as sorted inclusive ranges: the incremental SeqSet (crdt/causal.go) and the
    sort-based MergeIntervals (transport/transport.go). Sequence numbers are 64-bit; additions wrap. */
module RangeSets {

  const MAX: nat := 0xFFFF_FFFF_FFFF_FFFF

  type Seq = x: int | 0 <= x <= MAX

  datatype Range = Range(lo: Seq, hi: Seq)

  /** v + 1 in 64-bit arithmetic. */
  function Succ(v: Seq): Seq { if v == MAX then 0 else v + 1 }

  predicate In(r: Range, v: int) { r.lo <= v <= r.hi }

  predicate Has(rs: seq<Range>, v: int) { exists i :: 0 <= i < |rs| && In(rs[i], v) }

  /** Non-empty, sorted, neither overlapping nor adjacent. */
  predicate Canonical(rs: seq<Range>) {
    && (forall i :: 0 <= i < |rs| ==> rs[i].lo <= rs[i].hi)
    && (forall i, j :: 0 <= i < j < |rs| ==> rs[i].hi + 1 < rs[j].lo)
  }

  ghost predicate SameSet(a: seq<Range>, b: seq<Range>) { forall v :: Has(a, v) <==> Has(b, v) }

  lemma HasTail(rs: seq<Range>, v: int)
    requires |rs| > 0
    ensures Has(rs, v) <==> In(rs[0], v) || Has(rs[1..], v)
  {
    if Has(rs[1..], v) {
      var i :| 0 <= i < |rs[1..]| && In(rs[1..][i], v);
      assert In(rs[i + 1], v);
    }
    if Has(rs, v) && !In(rs[0], v) {
      var i :| 0 <= i < |rs| && In(rs[i], v);
      assert In(rs[1..][i - 1], v);
    }
  }

  lemma TailIsAbove(rs: seq<Range>, v: int)
    requires Canonical(rs) && |rs| > 0 && Has(rs[1..], v)
    ensures v > rs[0].hi + 1
  {
    var i :| 0 <= i < |rs[1..]| && In(rs[1..][i], v);
    assert rs[1..][i] == rs[i + 1];
  }

  lemma HeadIsTheSame(a: seq<Range>, b: seq<Range>)
    requires Canonical(a) && Canonical(b) && SameSet(a, b) && |a| > 0 && |b| > 0
    ensures a[0] == b[0]
  {
    HasTail(a, b[0].lo);
    HasTail(b, a[0].lo);
    assert In(a[0], a[0].lo) && In(b[0], b[0].lo) && Has(a, b[0].lo) && Has(b, a[0].lo);
    HeadReaches(a, b);
    HeadReaches(b, a);
  }

  /** The first range of b does not end before that of a. */
  lemma HeadReaches(a: seq<Range>, b: seq<Range>)
    requires Canonical(a) && Canonical(b) && SameSet(a, b) && |a| > 0 && |b| > 0
    ensures a[0].lo >= b[0].lo && a[0].hi <= b[0].hi
  {
    assert In(a[0], a[0].lo) && Has(b, a[0].lo);
    HasTail(b, a[0].lo);
    if Has(b[1..], a[0].lo) {
      TailIsAbove(b, a[0].lo);
      assert In(b[0], b[0].lo) && Has(a, b[0].lo);
      HasTail(a, b[0].lo);
      if Has(a[1..], b[0].lo) { TailIsAbove(a, b[0].lo); }
    }
    if a[0].hi > b[0].hi {
      var v := b[0].hi + 1;
      if a[0].lo <= b[0].hi + 1 {
        assert In(a[0], v) && Has(b, v);
        HasTail(b, v);
        if Has(b[1..], v) { TailIsAbove(b, v); }
      }
    }
  }

  lemma FirstIsIn(a: seq<Range>)
    requires Canonical(a) && |a| > 0
    ensures Has(a, a[0].lo)
  {
    assert In(a[0], a[0].lo);
  }

  /** The canonical form is determined by the set. */
  lemma {:induction false} CanonicalIsUnique(a: seq<Range>, b: seq<Range>)
    requires Canonical(a) && Canonical(b) && SameSet(a, b)
    ensures a == b
    decreases |a|
  {
    if |a| == 0 {
      if |b| > 0 { FirstIsIn(b); }
    } else if |b| == 0 {
      FirstIsIn(a);
    } else {
      HeadIsTheSame(a, b);
      forall v ensures Has(a[1..], v) <==> Has(b[1..], v) {
        HasTail(a, v);
        HasTail(b, v);
        if Has(a[1..], v) { TailIsAbove(a, v); }
        if Has(b[1..], v) { TailIsAbove(b, v); }
      }
      CanonicalIsUnique(a[1..], b[1..]);
      assert a == [a[0]] + a[1..] && b == [b[0]] + b[1..];
    }
  }

  // ---------------------------------------------------------------------
  // SeqSet
  // ---------------------------------------------------------------------

  /** The index of the first range that starts above v. */
  function FirstAbove(rs: seq<Range>, v: Seq): (i: nat)
    ensures i <= |rs| && (i < |rs| ==> rs[i].lo > v) && (i > 0 ==> rs[i - 1].lo <= v)
  {
    if |rs| == 0 || rs[0].lo > v then 0 else FirstAbove(rs[1..], v) + 1
  }

  lemma FirstAboveIsUnique(rs: seq<Range>, v: Seq, i: nat)
    requires Canonical(rs) && i <= |rs| && (i < |rs| ==> rs[i].lo > v) && (i > 0 ==> rs[i - 1].lo <= v)
    ensures i == FirstAbove(rs, v)
  {
    var k := FirstAbove(rs, v);
    assert Canonical(rs) && k <= |rs|;
  }

  /** The predecessor is the only range that can hold v. */
  lemma HasMeansFound(rs: seq<Range>, v: Seq)
    requires Canonical(rs)
    ensures Has(rs, v) <==> var i := FirstAbove(rs, v); i > 0 && v <= rs[i - 1].hi
  {
    var i := FirstAbove(rs, v);
    if i > 0 && v <= rs[i - 1].hi { assert In(rs[i - 1], v); }
    if Has(rs, v) {
      var k :| 0 <= k < |rs| && In(rs[k], v);
      assert k < i - 1 ==> rs[k].hi + 1 < rs[i - 1].lo;
      assert i < k ==> rs[i].hi + 1 < rs[k].lo;
    }
  }

  predicate PrevAdj(rs: seq<Range>, v: Seq) { var i := FirstAbove(rs, v); i > 0 && Succ(rs[i - 1].hi) == v }

  predicate NextAdj(rs: seq<Range>, v: Seq) { var i := FirstAbove(rs, v); i < |rs| && Succ(v) == rs[i].lo }

  /** v joined with the neighbours it touches replaces rs[From..To]. */
  function From(rs: seq<Range>, v: Seq): nat { if PrevAdj(rs, v) then FirstAbove(rs, v) - 1 else FirstAbove(rs, v) }

  function To(rs: seq<Range>, v: Seq): nat { if NextAdj(rs, v) then FirstAbove(rs, v) + 1 else FirstAbove(rs, v) }

  function Joined(rs: seq<Range>, v: Seq): Range {
    var i := FirstAbove(rs, v);
    Range(if PrevAdj(rs, v) then rs[i - 1].lo else v, if NextAdj(rs, v) then rs[i].hi else v)
  }

  function Insert(rs: seq<Range>, v: Seq): seq<Range> {
    var i := FirstAbove(rs, v);
    if i > 0 && v <= rs[i - 1].hi then rs else rs[..From(rs, v)] + [Joined(rs, v)] + rs[To(rs, v)..]
  }

  lemma HasConcat(a: seq<Range>, b: seq<Range>, v: int)
    ensures Has(a + b, v) <==> Has(a, v) || Has(b, v)
  {
    if Has(a + b, v) {
      var i :| 0 <= i < |a + b| && In((a + b)[i], v);
      if i < |a| { assert In(a[i], v); } else { assert In(b[i - |a|], v); }
    }
    if Has(a, v) { var i :| 0 <= i < |a| && In(a[i], v); assert In((a + b)[i], v); }
    if Has(b, v) { var i :| 0 <= i < |b| && In(b[i], v); assert In((a + b)[i + |a|], v); }
  }

  /** Replacing the middle of a range list changes membership as it changes the middle's. */
  lemma HasMiddle(a: seq<Range>, m: seq<Range>, b: seq<Range>, v: int)
    ensures Has(a + m + b, v) <==> Has(a, v) || Has(m, v) || Has(b, v)
  {
    HasConcat(a + m, b, v);
    HasConcat(a, m, v);
  }

  lemma HasOne(r: Range, v: int)
    ensures Has([r], v) <==> In(r, v)
  {
    if In(r, v) { assert In([r][0], v); }
  }

  lemma SplicedAt(rs: seq<Range>, a: nat, r: Range, b: nat, i: nat)
    requires a <= b <= |rs| && i < a + 1 + (|rs| - b)
    ensures (rs[..a] + [r] + rs[b..])[i] == if i < a then rs[i] else if i == a then r else rs[i - a - 1 + b]
  {
  }

  /** The range put in stays clear of the ranges before and after it. */
  lemma Clear(rs: seq<Range>, a: nat, r: Range, b: nat, k: nat)
    requires Canonical(rs) && a <= b <= |rs| && k < |rs|
    requires a > 0 ==> rs[a - 1].hi + 1 < r.lo
    requires b < |rs| ==> r.hi + 1 < rs[b].lo
    ensures k < a ==> rs[k].hi + 1 < r.lo
    ensures k >= b ==> r.hi + 1 < rs[k].lo
  {
    if k < a - 1 { assert rs[k].hi + 1 < rs[a - 1].lo; }
    if k > b { assert rs[b].hi + 1 < rs[k].lo; }
  }

  lemma SpliceIsCanonical(rs: seq<Range>, a: nat, r: Range, b: nat)
    requires Canonical(rs) && a <= b <= |rs| && r.lo <= r.hi
    requires a > 0 ==> rs[a - 1].hi + 1 < r.lo
    requires b < |rs| ==> r.hi + 1 < rs[b].lo
    ensures Canonical(rs[..a] + [r] + rs[b..])
  {
    var t := rs[..a] + [r] + rs[b..];
    forall i | 0 <= i < |t| ensures t[i].lo <= t[i].hi { SplicedAt(rs, a, r, b, i); }
    forall i, j | 0 <= i < j < |t| ensures t[i].hi + 1 < t[j].lo {
      SplicedAt(rs, a, r, b, i);
      SplicedAt(rs, a, r, b, j);
      if i < a { Clear(rs, a, r, b, i); }
      if j > a { Clear(rs, a, r, b, j - a - 1 + b); }
    }
  }

  lemma {:induction false} InsertIsCanonical(rs: seq<Range>, v: Seq)
    requires Canonical(rs)
    ensures Canonical(Insert(rs, v))
  {
    var i := FirstAbove(rs, v);
    if !(i > 0 && v <= rs[i - 1].hi) {
      assert i > 1 ==> rs[i - 2].hi + 1 < rs[i - 1].lo;
      assert i + 1 < |rs| ==> rs[i].hi + 1 < rs[i + 1].lo;
      SpliceIsCanonical(rs, From(rs, v), Joined(rs, v), To(rs, v));
    }
  }

  /** A value joined with the ranges that end just below and start just above it. */
  lemma JoinMeans(p: seq<Range>, q: seq<Range>, v: Seq, u: int)
    requires |p| <= 1 && |q| <= 1
    requires |p| == 1 ==> p[0].lo <= p[0].hi && p[0].hi + 1 == v
    requires |q| == 1 ==> q[0].lo <= q[0].hi && v + 1 == q[0].lo
    ensures In(Range(if |p| == 1 then p[0].lo else v, if |q| == 1 then q[0].hi else v), u) <==> Has(p + q, u) || u == v
  {
    HasConcat(p, q, u);
    if |p| == 1 { assert p == [p[0]]; HasOne(p[0], u); }
    if |q| == 1 { assert q == [q[0]]; HasOne(q[0], u); }
  }

  lemma SliceSplit(rs: seq<Range>, a: nat, i: nat, b: nat)
    requires a <= i <= b <= |rs|
    ensures rs[a..b] == rs[a..i] + rs[i..b]
  {
  }

  lemma JoinedMeans(rs: seq<Range>, v: Seq, u: int)
    requires Canonical(rs) && var i := FirstAbove(rs, v); !(i > 0 && v <= rs[i - 1].hi)
    ensures In(Joined(rs, v), u) <==> Has(rs[From(rs, v)..To(rs, v)], u) || u == v
  {
    var i, a, b := FirstAbove(rs, v), From(rs, v), To(rs, v);
    SliceSplit(rs, a, i, b);
    if PrevAdj(rs, v) { assert rs[a..i] == [rs[i - 1]]; }
    if NextAdj(rs, v) { assert rs[i..b] == [rs[i]]; }
    JoinMeans(rs[a..i], rs[i..b], v, u);
  }

  /** Adding v adds exactly v, for every 64-bit v. */
  lemma {:induction false} InsertMeans(rs: seq<Range>, v: Seq, u: int)
    requires Canonical(rs)
    ensures Has(Insert(rs, v), u) <==> Has(rs, u) || u == v
  {
    var i := FirstAbove(rs, v);
    if i > 0 && v <= rs[i - 1].hi {
      assert In(rs[i - 1], v);
    } else {
      var a, b := From(rs, v), To(rs, v);
      assert rs == rs[..a] + rs[a..b] + rs[b..];
      HasMiddle(rs[..a], rs[a..b], rs[b..], u);
      HasMiddle(rs[..a], [Joined(rs, v)], rs[b..], u);
      HasOne(Joined(rs, v), u);
      JoinedMeans(rs, v, u);
    }
  }

  function InsertAll(rs: seq<Range>, vs: seq<Seq>): seq<Range> {
    if vs == [] then rs else Insert(InsertAll(rs, vs[..|vs| - 1]), vs[|vs| - 1])
  }

  /** A SeqSet built by any run of Adds holds exactly what was added, in canonical form. */
  lemma {:induction false} InsertAllMeans(rs: seq<Range>, vs: seq<Seq>)
    requires Canonical(rs)
    ensures Canonical(InsertAll(rs, vs))
    ensures forall u :: Has(InsertAll(rs, vs), u) <==> Has(rs, u) || u in vs
    decreases |vs|
  {
    if vs != [] {
      var init, v := vs[..|vs| - 1], vs[|vs| - 1];
      InsertAllMeans(rs, init);
      InsertIsCanonical(InsertAll(rs, init), v);
      assert vs == init + [v];
      forall u ensures Has(InsertAll(rs, vs), u) <==> Has(rs, u) || u in vs { InsertMeans(InsertAll(rs, init), v, u); }
    }
  }

  /** PromoteContiguous as a function: the new head and what is left of the set. */
  function Promote(rs: seq<Range>, above: Seq): (Seq, seq<Range>) {
    if |rs| == 0 || rs[0].lo != Succ(above) then (above, rs) else (rs[0].hi, rs[1..])
  }

  /** Head prefix plus exception set. */
  predicate Applied(head: Seq, rs: seq<Range>, v: int) { 0 <= v <= head || Has(rs, v) }

  /** The head wraps to below itself: it is the largest value and the set has a first range that starts at zero and stops short. */
  predicate HeadWraps(rs: seq<Range>, above: Seq) { above == MAX && |rs| > 0 && rs[0].lo == 0 && rs[0].hi < MAX }

  lemma PromoteAt(rs: seq<Range>, above: Seq, v: int)
    requires Canonical(rs) && !HeadWraps(rs, above)
    ensures Applied(Promote(rs, above).0, Promote(rs, above).1, v) <==> Applied(above, rs, v)
  {
    if |rs| > 0 { HasTail(rs, v); }
    if |rs| > 0 && above == MAX && Has(rs[1..], v) { TailIsAbove(rs, v); }
  }

  /** Promotion conserves head-plus-set exactly when the head does not wrap. */
  lemma {:induction false} PromoteConserves(rs: seq<Range>, above: Seq)
    requires Canonical(rs)
    ensures (forall v :: Applied(Promote(rs, above).0, Promote(rs, above).1, v) <==> Applied(above, rs, v)) <==> !HeadWraps(rs, above)
  {
    if HeadWraps(rs, above) {
      var v := rs[0].hi + 1;
      if Has(rs[1..], v) { TailIsAbove(rs, v); }
      assert Applied(above, rs, v) && !Applied(Promote(rs, above).0, Promote(rs, above).1, v);
    } else {
      forall v ensures Applied(Promote(rs, above).0, Promote(rs, above).1, v) <==> Applied(above, rs, v) { PromoteAt(rs, above, v); }
    }
  }

  /** With the set above the head, promotion leaves a gap right above the new head: nothing more could be promoted. */
  lemma {:induction false} PromoteIsMaximal(rs: seq<Range>, above: Seq)
    requires Canonical(rs) && forall v :: Has(rs, v) ==> v > above
    ensures var (head, rest) := Promote(rs, above);
            && above <= head && Canonical(rest)
            && forall v :: Has(rest, v) ==> v > head + 1
  {
    var (head, rest) := Promote(rs, above);
    if |rs| > 0 { FirstIsIn(rs); }
    forall v | Has(rest, v) ensures v > head + 1 {
      if |rs| > 0 {
        HasTail(rs, v);
        if Has(rs[1..], v) { TailIsAbove(rs, v); }
      }
    }
  }

  class SeqSet {
    var ranges: seq<Range>

    constructor ()
      ensures ranges == []
    {
      ranges := [];
    }

    /** sort.Search for the first range with Lo > v. */
    method Search(v: Seq) returns (i: nat)
      requires Canonical(ranges)
      ensures i == FirstAbove(ranges, v)
    {
      var lo, hi := 0, |ranges|;
      while lo < hi
        invariant lo <= hi <= |ranges|
        invariant (forall k :: 0 <= k < lo ==> ranges[k].lo <= v) && (forall k :: hi <= k < |ranges| ==> ranges[k].lo > v)
      {
        var mid := (lo + hi) / 2;
        if ranges[mid].lo > v { hi := mid; } else { lo := mid + 1; }
      }
      i := lo;
      FirstAboveIsUnique(ranges, v, i);
    }

    method Contains(v: Seq) returns (r: bool)
      requires Canonical(ranges)
      ensures r == Has(ranges, v)
    {
      var i := Search(v);
      r := i > 0 && v <= ranges[i - 1].hi;
      HasMeansFound(ranges, v);
    }

    method Add(v: Seq)
      requires Canonical(ranges)
      modifies this
      ensures ranges == old(Insert(ranges, v))
      ensures Canonical(ranges) && forall u :: Has(ranges, u) <==> old(Has(ranges, u)) || u == v
    {
      ghost var before := ranges;
      Place(v);
      InsertIsCanonical(before, v);
      forall u ensures Has(ranges, u) <==> Has(before, u) || u == v { InsertMeans(before, v, u); }
    }

    method Place(v: Seq)
      requires Canonical(ranges)
      modifies this
      ensures ranges == old(Insert(ranges, v))
    {
      var i := Search(v);
      var prevAdj := false;
      if i > 0 {
        if v <= ranges[i - 1].hi { return; }
        prevAdj := Succ(ranges[i - 1].hi) == v;
      }
      var nextAdj := i < |ranges| && Succ(v) == ranges[i].lo;
      Splice(v, i, prevAdj, nextAdj);
    }

    /** The four ways v joins its neighbours. */
    method Splice(v: Seq, i: nat, prevAdj: bool, nextAdj: bool)
      requires i <= |ranges| && (prevAdj ==> i > 0) && (nextAdj ==> i < |ranges|)
      modifies this
      ensures var a, b := if prevAdj then i - 1 else i, if nextAdj then i + 1 else i;
              var joined := Range(if prevAdj then old(ranges)[i - 1].lo else v, if nextAdj then old(ranges)[i].hi else v);
              ranges == old(ranges)[..a] + [joined] + old(ranges)[b..]
    {
      if prevAdj && nextAdj {
        ranges := ranges[i - 1 := Range(ranges[i - 1].lo, ranges[i].hi)];
        ranges := ranges[..i] + ranges[i + 1..];
      } else if prevAdj {
        ranges := ranges[i - 1 := Range(ranges[i - 1].lo, v)];
      } else if nextAdj {
        ranges := ranges[i := Range(v, ranges[i].hi)];
      } else {
        ranges := ranges[..i] + [Range(v, v)] + ranges[i..];
      }
    }

    method PromoteContiguous(above: Seq) returns (head: Seq)
      requires Canonical(ranges)
      modifies this
      ensures Canonical(ranges) && (head, ranges) == old(Promote(ranges, above))
    {
      if |ranges| == 0 || ranges[0].lo != Succ(above) { return above; }
      head := ranges[0].hi;
      ranges := ranges[1..];
    }
  }

  // ---------------------------------------------------------------------
  // MergeIntervals
  // ---------------------------------------------------------------------

  predicate SortedByLo(rs: seq<Range>) { forall i, j :: 0 <= i < j < |rs| ==> rs[i].lo <= rs[j].lo }

  predicate NonEmpty(rs: seq<Range>) { forall i :: 0 <= i < |rs| ==> rs[i].lo <= rs[i].hi }

  function MergeStep(out: seq<Range>, r: Range): seq<Range> {
    var n := |out|;
    if n > 0 && r.lo <= Succ(out[n - 1].hi) then
      if r.hi > out[n - 1].hi then out[..n - 1] + [Range(out[n - 1].lo, r.hi)] else out
    else out + [r]
  }

  /** The first k ranges merged. */
  function MergeTo(rs: seq<Range>, k: nat): (out: seq<Range>)
    requires k <= |rs|
    ensures |out| <= k && (k > 0 ==> |out| > 0)
  {
    if k == 0 then [] else MergeStep(MergeTo(rs, k - 1), rs[k - 1])
  }

  function MergeAll(rs: seq<Range>): seq<Range> { MergeTo(rs, |rs|) }

  /** The compaction of a list the library has sorted: it overwrites the front of the slice it is reading. */
  method MergeIntervals(a: array<Range>) returns (n: nat)
    requires SortedByLo(a[..])
    modifies a
    ensures n <= a.Length && a[..n] == MergeAll(old(a[..]))
  {
    n := 0;
    ghost var was := a[..];
    for i := 0 to a.Length
      invariant n <= i && (forall k :: i <= k < a.Length ==> a[k] == was[k]) && a[..n] == MergeTo(was, i)
    {
      n := MergeOne(a, n, i);
    }
  }

  method MergeOne(a: array<Range>, n: nat, i: nat) returns (n': nat)
    requires n <= i < a.Length
    modifies a
    ensures n' <= i + 1 && a[..n'] == MergeStep(old(a[..n]), old(a[i])) && forall k :: i < k < a.Length ==> a[k] == old(a[k])
  {
    var r := a[i];
    n' := n;
    ghost var out := a[..n];
    if n > 0 && r.lo <= Succ(a[n - 1].hi) {
      if r.hi > a[n - 1].hi {
        a[n - 1] := Range(a[n - 1].lo, r.hi);
        assert a[..n] == out[..n - 1] + [Range(out[n - 1].lo, r.hi)];
      }
    } else {
      a[n] := r;
      n' := n + 1;
      assert a[..n'] == out + [r];
    }
  }

  /** No range that reaches the largest value is followed by one that starts above zero. */
  predicate Mergeable(rs: seq<Range>) { forall i, j :: 0 <= i < j < |rs| && rs[i].hi == MAX ==> rs[j].lo == 0 }

  /** What r meets when it is merged: an earlier start, and no successor of the largest value. */
  predicate Follows(out: seq<Range>, r: Range) {
    r.lo <= r.hi && (|out| > 0 ==> out[|out| - 1].lo <= r.lo && (out[|out| - 1].hi == MAX ==> r.lo == 0))
  }

  lemma MergeStepIsCanonical(out: seq<Range>, r: Range)
    requires Canonical(out) && Follows(out, r)
    ensures Canonical(MergeStep(out, r)) && MergeStep(out, r)[|MergeStep(out, r)| - 1].lo <= r.lo
  {
    var n, t := |out|, MergeStep(out, r);
    forall i, j | 0 <= i < j < |t| ensures t[i].hi + 1 < t[j].lo {
      if j == n && i < n - 1 { assert out[i].hi + 1 < out[n - 1].lo; }
    }
  }

  lemma MergeStepMeans(out: seq<Range>, r: Range, v: int)
    requires Canonical(out) && Follows(out, r)
    ensures Has(MergeStep(out, r), v) <==> Has(out, v) || In(r, v)
  {
    var n := |out|;
    HasConcat(out, [r], v);
    HasOne(r, v);
    if n > 0 {
      assert out == out[..n - 1] + [out[n - 1]];
      HasConcat(out[..n - 1], [out[n - 1]], v);
      HasOne(out[n - 1], v);
      HasConcat(out[..n - 1], [Range(out[n - 1].lo, r.hi)], v);
      HasOne(Range(out[n - 1].lo, r.hi), v);
    }
  }

  predicate Reaches(rs: seq<Range>, k: nat)
    requires k <= |rs|
  {
    exists i :: 0 <= i < k && rs[i].hi == MAX
  }

  predicate HasTo(rs: seq<Range>, k: nat, v: int)
    requires k <= |rs|
  {
    exists i :: 0 <= i < k && In(rs[i], v)
  }

  /** What the merge of the first k ranges keeps. */
  predicate Merged(rs: seq<Range>, k: nat, out: seq<Range>)
    requires k <= |rs|
  {
    && Canonical(out) && (Full(out) ==> Reaches(rs, k))
    && if k == 0 then out == [] else |out| > 0 && out[|out| - 1].lo <= rs[k - 1].lo
  }

  lemma MergedFollows(rs: seq<Range>, k: nat, out: seq<Range>)
    requires SortedByLo(rs) && NonEmpty(rs) && Mergeable(rs) && k < |rs| && Merged(rs, k, out)
    ensures Follows(out, rs[k])
  {
    if k > 0 { assert rs[k - 1].lo <= rs[k].lo; }
    if Full(out) {
      var i :| 0 <= i < k && rs[i].hi == MAX;
      assert rs[k].lo == 0;
    }
  }

  lemma MergedStep(rs: seq<Range>, k: nat, out: seq<Range>)
    requires k < |rs| && Merged(rs, k, out) && Follows(out, rs[k])
    ensures Merged(rs, k + 1, MergeStep(out, rs[k]))
  {
    MergeStepIsCanonical(out, rs[k]);
  }

  lemma {:induction false} MergeIsCanonical(rs: seq<Range>, k: nat)
    requires SortedByLo(rs) && NonEmpty(rs) && Mergeable(rs) && k <= |rs|
    ensures Merged(rs, k, MergeTo(rs, k))
  {
    if k > 0 {
      MergeIsCanonical(rs, k - 1);
      MergedFollows(rs, k - 1, MergeTo(rs, k - 1));
      MergedStep(rs, k - 1, MergeTo(rs, k - 1));
    }
  }

  lemma HasToStep(rs: seq<Range>, k: nat, v: int)
    requires 0 < k <= |rs|
    ensures HasTo(rs, k, v) <==> HasTo(rs, k - 1, v) || In(rs[k - 1], v)
  {
  }

  lemma MergeMeansStep(rs: seq<Range>, k: nat, out: seq<Range>, v: int)
    requires 0 < k <= |rs| && Canonical(out) && Follows(out, rs[k - 1]) && (Has(out, v) <==> HasTo(rs, k - 1, v))
    ensures Has(MergeStep(out, rs[k - 1]), v) <==> HasTo(rs, k, v)
  {
    MergeStepMeans(out, rs[k - 1], v);
    HasToStep(rs, k, v);
  }

  /** The merged list of a mergeable input denotes the union of its ranges. */
  lemma {:induction false} MergeMeans(rs: seq<Range>, k: nat, v: int)
    requires SortedByLo(rs) && NonEmpty(rs) && Mergeable(rs) && k <= |rs|
    ensures Has(MergeTo(rs, k), v) <==> HasTo(rs, k, v)
  {
    if k > 0 {
      var out := MergeTo(rs, k - 1);
      MergeMeans(rs, k - 1, v);
      MergeIsCanonical(rs, k - 1);
      MergedFollows(rs, k - 1, out);
      MergeMeansStep(rs, k, out, v);
    }
  }

  predicate Broken(out: seq<Range>) { exists k :: 0 <= k < |out| - 1 && out[k].hi == MAX }

  predicate Full(out: seq<Range>) { |out| > 0 && out[|out| - 1].hi == MAX }

  lemma BrokenStays(out: seq<Range>, r: Range)
    ensures Broken(out) ==> Broken(MergeStep(out, r))
    ensures Full(out) ==> Full(MergeStep(out, r)) || Broken(MergeStep(out, r))
    ensures Full(out) && r.lo > 0 ==> Broken(MergeStep(out, r))
    ensures r.hi == MAX ==> Full(MergeStep(out, r))
  {
    var t := MergeStep(out, r);
    if Broken(out) { var k :| 0 <= k < |out| - 1 && out[k].hi == MAX; assert t[k].hi == MAX; }
    if Full(out) && r.lo > 0 { assert t[|out| - 1].hi == MAX; }
  }

  /** A list that reaches the largest value before its k-th range starts above zero. */
  predicate Overruns(rs: seq<Range>, k: nat)
    requires k <= |rs|
  {
    exists i, j :: 0 <= i < j < k && rs[i].hi == MAX && rs[j].lo != 0
  }

  lemma {:induction false} OverrunBreaks(rs: seq<Range>, k: nat)
    requires k <= |rs|
    ensures Overruns(rs, k) ==> Broken(MergeTo(rs, k))
    ensures Reaches(rs, k) ==> Full(MergeTo(rs, k)) || Broken(MergeTo(rs, k))
  {
    if k > 0 {
      OverrunBreaks(rs, k - 1);
      BrokenStays(MergeTo(rs, k - 1), rs[k - 1]);
    }
  }

  /** Sorted non-empty ranges merge into the canonical form of their union exactly when no range that
      reaches the largest value is followed by one starting above zero. */
  lemma {:induction false} MergeIsCanonicalIff(rs: seq<Range>)
    requires SortedByLo(rs) && NonEmpty(rs)
    ensures Canonical(MergeAll(rs)) && SameSet(MergeAll(rs), rs) <==> Mergeable(rs)
  {
    if Mergeable(rs) {
      MergeIsCanonical(rs, |rs|);
      forall v ensures Has(MergeAll(rs), v) <==> Has(rs, v) { MergeMeans(rs, |rs|, v); }
    } else {
      OverrunBreaks(rs, |rs|);
      var out := MergeAll(rs);
      var k :| 0 <= k < |out| - 1 && out[k].hi == MAX;
      assert out[k + 1].lo <= MAX;
    }
  }

  /** The two structures agree: merging ranges, in whatever order they came and however ties were sorted,
      yields the list a SeqSet reaches by adding every element one at a time in any order, exactly when the
      sorted list is mergeable. */
  lemma {:induction false} RangeSetsAgreeIff(sorted: seq<Range>, rs: seq<Range>, vs: seq<Seq>)
    requires multiset(sorted) == multiset(rs) && SortedByLo(sorted) && NonEmpty(rs)
    requires forall v :: v in vs <==> Has(rs, v)
    ensures MergeAll(sorted) == InsertAll([], vs) <==> Mergeable(sorted)
  {
    forall i | 0 <= i < |sorted| ensures sorted[i] in rs { assert sorted[i] in multiset(sorted); }
    forall i | 0 <= i < |rs| ensures rs[i] in sorted { assert rs[i] in multiset(rs); }
    forall v ensures Has(sorted, v) <==> Has(rs, v) { HasPermuted(sorted, rs, v); HasPermuted(rs, sorted, v); }
    MergeIsCanonicalIff(sorted);
    InsertAllMeans([], vs);
    if Mergeable(sorted) {
      CanonicalIsUnique(MergeAll(sorted), InsertAll([], vs));
    }
  }

  lemma HasPermuted(a: seq<Range>, b: seq<Range>, v: int)
    requires forall i :: 0 <= i < |a| ==> a[i] in b
    ensures Has(a, v) ==> Has(b, v)
  {
    if Has(a, v) {
      var i :| 0 <= i < |a| && In(a[i], v);
      var j :| 0 <= j < |b| && b[j] == a[i];
      assert In(b[j], v);
    }
  }

  /** A range up to the largest value swallows nothing: Hi + 1 wraps to zero and the next range is kept. */
  lemma {:induction false} MergeAtTheTop()
    ensures var rs := [Range(5, MAX), Range(7, 9)]; MergeAll(rs) == rs && !Canonical(MergeAll(rs))
  {
    var rs := [Range(5, MAX), Range(7, 9)];
    assert MergeTo(rs, 0) == [] && MergeTo(rs, 1) == [Range(5, MAX)];
  }

  /** A head at the largest value with the set starting at zero moves backwards. */
  lemma {:induction false} PromoteAtTheTop()
    ensures Canonical([Range(0, 5)]) && Promote([Range(0, 5)], MAX) == (5, [])
  {
    assert [Range(0, 5)][1..] == [];
  }
}
