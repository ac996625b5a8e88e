/** No silent loss, end to end: whatever the ring or a full channel skips between two notifications a
    subscriber receives is announced by a Lossy marker between them. */
module NotifyRuns {
  import opened Base
  import opened Notify

  // ---------------------------------------------------------------------
  // Slots
  // ---------------------------------------------------------------------

  /** The slot of the p-th change of a generation. */
  function Slot(p: nat, numSlots: nat): (i: nat)
    requires numSlots > 0
    ensures i < numSlots
  {
    Remainder(Wrap(p), numSlots)
  }

  ghost predicate WindowsFit(numSlots: nat)
    requires numSlots > 0
  {
    forall p: nat, q: nat :: p < q < p + numSlots ==> Slot(p, numSlots) != Slot(q, numSlots)
  }

  lemma AtLeast(k: int, n: nat)
    requires k >= 1
    ensures k * n >= n
  {
    assert k * n == (k - 1) * n + n;
    assert (k - 1) * n >= 0;
  }

  lemma ModIs(x: nat, q: nat, r: nat, n: nat)
    requires r < n && x == q * n + r
    ensures x % n == r
  {
    var d, e := x / n, x % n;
    assert x == d * n + e;
    assert (d - q) * n == r - e && (q - d) * n == e - r;
    if d > q { AtLeast(d - q, n); }
    if q > d { AtLeast(q - d, n); }
  }

  lemma {:induction false} RemainderIsMod(x: nat, n: nat)
    requires n > 0
    ensures Remainder(x, n) == x % n
    decreases x
  {
    if x >= n {
      RemainderIsMod(x - n, n);
      var q, r := (x - n) / n, (x - n) % n;
      assert x - n == q * n + r;
      assert x == (q + 1) * n + r;
      ModIs(x, q + 1, r, n);
    } else {
      ModIs(x, 0, x, n);
    }
  }

  lemma Factor(a: nat, b: nat, c: nat, n: nat)
    ensures a * (b * n) + c * n == (a * b + c) * n
  {
  }

  lemma ModOfMultiple(p: nat, n: nat, m: nat)
    requires n > 0 && m > 0 && m % n == 0
    ensures p % m % n == p % n
  {
    var a, b, r := p / m, m / n, p % m;
    var c, e := r / n, r % n;
    Factor(a, b, c, n);
    ModIs(p, a * b + c, e, n);
  }

  lemma ModDistinct(p: nat, q: nat, n: nat)
    requires n > 0 && p < q < p + n
    ensures p % n != q % n
  {
    var a, b := p / n, q / n;
    assert p == a * n + p % n && q == b * n + q % n;
    assert (b - a) * n == q - p - (q % n - p % n);
    if b - a >= 1 { AtLeast(b - a, n); }
    if a - b >= 1 { AtLeast(a - b, n); assert (a - b) * n == -((b - a) * n); }
  }

  lemma SlotIsMod(p: nat, numSlots: nat)
    requires numSlots > 0
    ensures Slot(p, numSlots) == p % TWO_32 % numSlots
  {
    RemainderIsMod(p, TWO_32);
    RemainderIsMod(p % TWO_32, numSlots);
  }

  /** The slots of any window of numSlots changes are distinct exactly when the slot count divides 2^32. */
  lemma {:induction false} WindowsFitIff(numSlots: nat)
    requires 0 < numSlots <= TWO_32
    ensures WindowsFit(numSlots) <==> TWO_32 % numSlots == 0
  {
    if TWO_32 % numSlots == 0 {
      forall p: nat, q: nat | p < q < p + numSlots ensures Slot(p, numSlots) != Slot(q, numSlots) {
        SlotIsMod(p, numSlots);
        SlotIsMod(q, numSlots);
        ModOfMultiple(p, numSlots, TWO_32);
        ModOfMultiple(q, numSlots, TWO_32);
        ModDistinct(p, q, numSlots);
      }
    } else {
      var p: nat := TWO_32 - TWO_32 % numSlots;
      assert p == (TWO_32 / numSlots) * numSlots;
      ModIs(p, TWO_32 / numSlots, 0, numSlots);
      SlotIsMod(p, numSlots);
      SlotIsMod(TWO_32, numSlots);
      assert Slot(p, numSlots) == 0 == Slot(TWO_32, numSlots);
    }
  }

  /** The ring holds the last numSlots changes of the log, each in its slot. */
  ghost predicate Mirrors(slots: seq<Change>, log: seq<Change>) {
    |slots| > 0 && forall p: nat :: |log| - |slots| <= p < |log| ==> slots[Slot(p, |slots|)] == log[p]
  }

  lemma MirrorsOne(slots: seq<Change>, log: seq<Change>, c: Change)
    requires Mirrors(slots, log) && WindowsFit(|slots|)
    ensures Mirrors(slots[Slot(|log|, |slots|) := c], log + [c])
  {
    var n, after := |slots|, slots[Slot(|log|, |slots|) := c];
    forall p: nat | |log| + 1 - n <= p < |log| + 1 ensures after[Slot(p, n)] == (log + [c])[p] {
      if p < |log| { assert Slot(p, n) != Slot(|log|, n); }
    }
  }

  function StoredAll(cs: seq<Change>): (r: seq<Change>)
    ensures |r| == |cs| && forall i :: 0 <= i < |cs| ==> r[i] == Stored(cs[i])
  {
    seq(|cs|, (i: nat) requires i < |cs| => Stored(cs[i]))
  }

  lemma StoredConcat(x: seq<Change>, y: seq<Change>)
    ensures StoredAll(x + y) == StoredAll(x) + StoredAll(y)
  {
  }

  lemma SlotOfHead(m: nat, k: nat, n: nat)
    requires n > 0
    ensures SlotOf(Wrap(m), k, n) == Slot(m + k, n)
  {
    AppendedHead(m, k);
  }

  lemma AppendedHead(m: nat, k: nat)
    ensures Wrap(Wrap(m) + k) == Wrap(m + k)
  {
    RemainderIsMod(m, TWO_32);
    RemainderIsMod(m % TWO_32 + k, TWO_32);
    RemainderIsMod(m + k, TWO_32);
    var q, r := m / TWO_32, m % TWO_32;
    assert m + k == q * TWO_32 + (r + k);
    var p, e := (r + k) / TWO_32, (r + k) % TWO_32;
    ModIs(m + k, q + p, e, TWO_32);
  }

  lemma {:induction false} AppendMirrors(slots: seq<Change>, log: seq<Change>, changes: seq<Change>)
    requires Mirrors(slots, log) && WindowsFit(|slots|)
    ensures Mirrors(WriteSlots(slots, Wrap(|log|), changes), log + StoredAll(changes))
    decreases |changes|
  {
    if changes == [] {
      assert log + [] == log;
    } else {
      var n := |changes| - 1;
      var init, c := changes[..n], changes[n];
      AppendMirrors(slots, log, init);
      SlotOfHead(|log|, n, |slots|);
      MirrorsOne(WriteSlots(slots, Wrap(|log|), init), log + StoredAll(init), Stored(c));
      assert log + StoredAll(init) + [Stored(c)] == log + StoredAll(changes);
    }
  }

  lemma {:induction false} ReadMirrors(slots: seq<Change>, log: seq<Change>, from: nat, n: nat)
    requires Mirrors(slots, log) && from + n <= |log| && |log| - from <= |slots|
    ensures ReadSlots(slots, Wrap(from), n) == log[from..from + n]
  {
    if n > 0 {
      ReadMirrors(slots, log, from, n - 1);
      SlotOfHead(from, n - 1, |slots|);
      assert slots[Slot(from + n - 1, |slots|)] == log[from + n - 1];
      assert log[from..from + n] == log[from..from + (n - 1)] + [log[from + n - 1]];
    }
  }

  // ---------------------------------------------------------------------
  // Accounting
  // ---------------------------------------------------------------------

  /** n stands for log[lo..hi]: a batch is what the filter keeps of it, a Lossy marker may skip it. */
  predicate StandsFor(log: seq<Change>, f: Filter, n: Notification, lo: nat, hi: nat) {
    lo <= hi <= |log| && (n.Batch? ==> n.changes == Kept(f, log[lo..hi]))
  }

  /** The notifications account for log[cuts[0]..b]: they stand, in order and without gaps, for the
      stretches between the cuts, and the filter keeps nothing of what follows the last one. */
  predicate Accounts(log: seq<Change>, f: Filter, out: seq<Notification>, cuts: seq<nat>, b: nat) {
    && |cuts| == |out| + 1
    && (forall i :: 0 <= i < |out| ==> StandsFor(log, f, out[i], cuts[i], cuts[i + 1]))
    && cuts[|out|] <= b <= |log| && Kept(f, log[cuts[|out|]..b]) == []
  }

  lemma {:induction false} KeptConcat(f: Filter, x: seq<Change>, y: seq<Change>)
    ensures Kept(f, x + y) == Kept(f, x) + Kept(f, y)
    decreases |y|
  {
    if y == [] {
      assert x + y == x;
    } else {
      var init, c := y[..|y| - 1], y[|y| - 1];
      KeptConcat(f, x, init);
      assert (x + y)[..|x + y| - 1] == x + init;
    }
  }

  lemma KeptSpan(f: Filter, log: seq<Change>, a: nat, m: nat, b: nat)
    requires a <= m <= b <= |log|
    ensures Kept(f, log[a..b]) == Kept(f, log[a..m]) + Kept(f, log[m..b])
  {
    KeptConcat(f, log[a..m], log[m..b]);
    assert log[a..m] + log[m..b] == log[a..b];
  }

  /** One more notification, for all of log[b..c]. */
  lemma AccountsMore(log: seq<Change>, f: Filter, out: seq<Notification>, cuts: seq<nat>, b: nat, n: Notification, c: nat)
    requires Accounts(log, f, out, cuts, b) && StandsFor(log, f, n, b, c)
    ensures Accounts(log, f, out + [n], cuts + [c], c)
  {
    var last := cuts[|out|];
    KeptSpan(f, log, last, b, c);
    assert log[c..c] == [];
    assert StandsFor(log, f, n, last, c);
    forall i | 0 <= i < |out + [n]| ensures StandsFor(log, f, (out + [n])[i], (cuts + [c])[i], (cuts + [c])[i + 1]) {
      if i < |out| { assert StandsFor(log, f, out[i], cuts[i], cuts[i + 1]); }
    }
  }

  /** Changes the filter drops need no notification. */
  lemma AccountsFiltered(log: seq<Change>, f: Filter, out: seq<Notification>, cuts: seq<nat>, b: nat, c: nat)
    requires Accounts(log, f, out, cuts, b) && b <= c <= |log| && Kept(f, log[b..c]) == []
    ensures Accounts(log, f, out, cuts, c)
  {
    KeptSpan(f, log, cuts[|out|], b, c);
  }

  lemma AccountsGrown(log: seq<Change>, more: seq<Change>, f: Filter, out: seq<Notification>, cuts: seq<nat>, b: nat)
    requires Accounts(log, f, out, cuts, b)
    ensures Accounts(log + more, f, out, cuts, b)
  {
    forall i | 0 <= i < |out| ensures StandsFor(log + more, f, out[i], cuts[i], cuts[i + 1]) {
      assert StandsFor(log, f, out[i], cuts[i], cuts[i + 1]);
      assert (log + more)[cuts[i]..cuts[i + 1]] == log[cuts[i]..cuts[i + 1]];
    }
    assert (log + more)[cuts[|out|]..b] == log[cuts[|out|]..b];
  }

  /** Any prefix of the notifications accounts for a prefix of the log. */
  lemma AccountsPrefix(log: seq<Change>, f: Filter, x: seq<Notification>, y: seq<Notification>, cuts: seq<nat>, b: nat)
    requires Accounts(log, f, x + y, cuts, b)
    ensures cuts[|x|] <= |log| && Accounts(log, f, x, cuts[..|x| + 1], cuts[|x|])
  {
    forall i | 0 <= i < |x| ensures StandsFor(log, f, x[i], cuts[i], cuts[i + 1]) {
      assert StandsFor(log, f, (x + y)[i], cuts[i], cuts[i + 1]);
    }
    if y != [] { assert StandsFor(log, f, (x + y)[|x|], cuts[|x|], cuts[|x| + 1]); }
    assert log[cuts[|x|]..cuts[|x|]] == [];
  }

  /** The first notification can be taken off, with the stretch it stands for. */
  lemma AccountsRest(log: seq<Change>, f: Filter, out: seq<Notification>, cuts: seq<nat>, b: nat)
    requires Accounts(log, f, out, cuts, b) && out != []
    ensures StandsFor(log, f, out[0], cuts[0], cuts[1]) && Accounts(log, f, out[1..], cuts[1..], b)
  {
    assert StandsFor(log, f, out[0], cuts[0], cuts[0 + 1]);
    forall i | 0 <= i < |out[1..]| ensures StandsFor(log, f, out[1..][i], cuts[1..][i], cuts[1..][i + 1]) {
      assert StandsFor(log, f, out[i + 1], cuts[i + 1], cuts[i + 1 + 1]);
    }
  }

  lemma {:induction false} KeptAll(cs: seq<Change>)
    ensures Kept(None, cs) == cs
    decreases |cs|
  {
    if cs != [] { KeptAll(cs[..|cs| - 1]); }
  }

  lemma SliceOfSlice(log: seq<Change>, from: nat, n: nat, i: nat, j: nat)
    requires from + n <= |log| && i <= j <= n
    ensures log[from..from + n][i..j] == log[from + i..from + j]
  {
    var a, b := log[from..from + n][i..j], log[from + i..from + j];
    assert |a| == |b|;
    forall k | 0 <= k < |a| ensures a[k] == b[k] {}
  }

  lemma AccountsCons(log: seq<Change>, f: Filter, n: Notification, a: nat, out: seq<Notification>, cuts: seq<nat>, b: nat)
    requires Accounts(log, f, out, cuts, b) && StandsFor(log, f, n, a, cuts[0])
    ensures Accounts(log, f, [n] + out, [a] + cuts, b)
  {
    forall i | 0 <= i < |[n] + out| ensures StandsFor(log, f, ([n] + out)[i], ([a] + cuts)[i], ([a] + cuts)[i + 1]) {
      if i > 0 { assert StandsFor(log, f, out[i - 1], cuts[i - 1], cuts[i - 1 + 1]); }
    }
  }

  /** Accounts of adjoining stretches join; without a filter every cut is exact. */
  lemma AccountsJoin(log: seq<Change>, x: seq<Notification>, cx: seq<nat>, b: nat, y: seq<Notification>, cy: seq<nat>, c: nat)
    requires Accounts(log, None, x, cx, b) && Accounts(log, None, y, cy, c) && cy[0] == b
    ensures Accounts(log, None, x + y, cx + cy[1..], c) && (cx + cy[1..])[0] == cx[0]
  {
    KeptAll(log[cx[|x|]..b]);
    assert cx[|x|] == b;
    var out, cuts := x + y, cx + cy[1..];
    forall i | 0 <= i < |out| ensures StandsFor(log, None, out[i], cuts[i], cuts[i + 1]) {
      if i < |x| {
        assert StandsFor(log, None, x[i], cx[i], cx[i + 1]);
      } else {
        assert StandsFor(log, None, y[i - |x|], cy[i - |x|], cy[i - |x| + 1]);
      }
    }
  }

  /** Grouping loses nothing and keeps the order. */
  lemma {:induction false} GroupedAccounts(log: seq<Change>, from: nat, cs: seq<Change>, i: nat) returns (cuts: seq<nat>)
    requires from + |cs| <= |log| && cs == log[from..from + |cs|] && i <= |cs|
    ensures Accounts(log, None, Grouped(cs, i), cuts, from + |cs|) && cuts[0] == from + i
    decreases |cs| - i
  {
    if i == |cs| {
      cuts := [from + i];
      assert log[from + i..from + |cs|] == [];
    } else {
      var j := RunEnd(cs, i, i + 1);
      var rest := GroupedAccounts(log, from, cs, j);
      SliceOfSlice(log, from, |cs|, i, j);
      cuts := BatchCons(log, Batch(cs[i].origin, cs[i].seqno, cs[i..j]), from + i, from + j, Grouped(cs, j), rest, from + |cs|);
    }
  }

  lemma BatchCons(log: seq<Change>, n: Notification, a: nat, m: nat, out: seq<Notification>, rest: seq<nat>, b: nat) returns (cuts: seq<nat>)
    requires a <= m <= |log| && n.Batch? && n.changes == log[a..m] && Accounts(log, None, out, rest, b) && rest[0] == m
    ensures Accounts(log, None, [n] + out, cuts, b) && cuts[0] == a
  {
    KeptAll(log[a..m]);
    AccountsCons(log, None, n, a, out, rest, b);
    cuts := [a] + rest;
  }

  // ---------------------------------------------------------------------
  // Draining
  // ---------------------------------------------------------------------

  /** The ring holds the changes of the current generation, which start at `base` in the log. */
  ghost predicate Carries(r: RingState, log: seq<Change>, base: nat) {
    base <= |log| && |r.slots| > 0 && Mirrors(r.slots, log[base..]) && r.head == Wrap(|log| - base)
  }

  /** The reader stands at `seen`, by the head it last saw if its generation is current. */
  predicate StandsAt(rd: ReaderState, r: RingState, log: seq<Change>, base: nat, seen: nat) {
    seen <= |log| && (rd.generation == r.generation ==> base <= seen && rd.lastSeen == Wrap(seen - base))
  }

  lemma DeltaIs(m: nat, s: nat)
    requires s <= m
    ensures Delta(Wrap(m), Wrap(s)) == Wrap(m - s)
  {
    var r, u := m % TWO_32, s % TWO_32;
    RemainderIsMod(m, TWO_32);
    RemainderIsMod(s, TWO_32);
    RemainderIsMod(u, TWO_32);
    RemainderIsMod(r + TWO_32 - u, TWO_32);
    RemainderIsMod(m - s, TWO_32);
    var q, e := (m - s) / TWO_32, (m - s) % TWO_32;
    var a, b := m / TWO_32, s / TWO_32;
    assert r + TWO_32 - u == (q - a + b + 1) * TWO_32 + e;
    assert 0 < r + TWO_32 - u < 2 * TWO_32;
    ModIs(r + TWO_32 - u, q - a + b + 1, e, TWO_32);
  }

  /** What a drain of the current generation yields: all of log[seen..], or a Lossy marker, unless the
      32-bit distance is too short for the real one. */
  predicate Lapped(r: RingState, log: seq<Change>, seen: nat)
    requires seen <= |log|
  {
    |log| - seen >= TWO_32 && Wrap(|log| - seen) <= |r.slots|
  }

  lemma ReadsTail(slots: seq<Change>, log: seq<Change>, at: nat, d: nat)
    requires Mirrors(slots, log) && at <= |log| && d == Wrap(|log| - at) && d <= |slots|
    ensures d <= |log| && ReadSlots(slots, Wrap(at), d) == log[|log| - d..]
  {
    ModWraps(at, |log|, d);
    ReadMirrors(slots, log, |log| - d, d);
    assert log[|log| - d..|log| - d + d] == log[|log| - d..];
  }

  lemma TailOfTail(log: seq<Change>, base: nat, d: nat)
    requires base <= |log| && d <= |log| - base
    ensures log[base..][|log| - base - d..] == log[|log| - d..]
  {
  }

  /** What a drain does, by the true distance d between the reader and the head. */
  lemma DrainShape(rd: ReaderState, r: RingState, m: nat, at: nat)
    requires |r.slots| > 0 && rd.generation == r.generation && at <= m && r.head == Wrap(m) && rd.lastSeen == Wrap(at)
    ensures var d := Wrap(m - at);
            Drained(rd, r).1 == if d == 0 then [] else if d > |r.slots| then [Lossy] else Grouped(ReadSlots(r.slots, Wrap(at), d), 0)
  {
    DeltaIs(m, at);
    ModWraps(at, m, Wrap(m - at));
  }

  lemma RingReads(r: RingState, log: seq<Change>, base: nat, seen: nat)
    requires Carries(r, log, base) && base <= seen <= |log| && Wrap(|log| - seen) <= |r.slots|
    ensures ReadSlots(r.slots, Wrap(seen - base), Wrap(|log| - seen)) == log[|log| - Wrap(|log| - seen)..]
  {
    var d := Wrap(|log| - seen);
    assert |log[base..]| - (seen - base) == |log| - seen;
    ReadsTail(r.slots, log[base..], seen - base, d);
    TailOfTail(log, base, d);
  }

  /** What a drain of the current generation yields, by the 32-bit distance to the head. */
  function Yield(r: RingState, log: seq<Change>, seen: nat): seq<Notification>
    requires seen <= |log|
  {
    var d := Wrap(|log| - seen);
    if d == 0 then [] else if d > |r.slots| then [Lossy] else Grouped(log[|log| - d..], 0)
  }

  lemma {:induction false} DrainReads(rd: ReaderState, r: RingState, log: seq<Change>, base: nat, seen: nat)
    requires Carries(r, log, base) && StandsAt(rd, r, log, base, seen) && rd.generation == r.generation
    ensures Drained(rd, r).1 == Yield(r, log, seen)
  {
    var m, at := |log| - base, seen - base;
    assert m - at == |log| - seen;
    DrainShape(rd, r, m, at);
    if Wrap(|log| - seen) <= |r.slots| { RingReads(r, log, base, seen); }
  }

  lemma ModWraps(at: nat, m: nat, d: nat)
    requires at <= m && d == Wrap(m - at)
    ensures d <= m && Wrap(at) == Wrap(m - d)
  {
    RemainderIsMod(m - at, TWO_32);
    RemainderIsMod(at, TWO_32);
    RemainderIsMod(m - d, TWO_32);
    var q, r, p := (m - at) / TWO_32, at % TWO_32, at / TWO_32;
    assert m - d == (q + p) * TWO_32 + r;
    ModIs(m - d, q + p, r, TWO_32);
  }

  lemma AllSince(log: seq<Change>, seen: nat) returns (cuts: seq<nat>)
    requires seen <= |log|
    ensures Accounts(log, None, Grouped(log[seen..], 0), cuts, |log|) && cuts[0] == seen
  {
    assert log[seen..seen + |log[seen..]|] == log[seen..];
    cuts := GroupedAccounts(log, seen, log[seen..], 0);
  }

  lemma LossyAccounts(log: seq<Change>, seen: nat) returns (cuts: seq<nat>)
    requires seen <= |log|
    ensures Accounts(log, None, [Lossy], cuts, |log|) && cuts[0] == seen
  {
    assert log[|log|..|log|] == [];
    cuts := [seen, |log|];
  }

  /** The changes the batches carry, one after the other. */
  function Flat(ns: seq<Notification>): seq<Change> {
    if ns == [] then [] else (if ns[0].Batch? then ns[0].changes else []) + Flat(ns[1..])
  }

  lemma {:induction false} AccountsFlat(log: seq<Change>, ns: seq<Notification>, cuts: seq<nat>, b: nat)
    requires Accounts(log, None, ns, cuts, b) && forall n :: n in ns ==> n.Batch?
    ensures cuts[0] <= b && Flat(ns) == log[cuts[0]..b]
    decreases |ns|
  {
    if ns == [] {
      KeptAll(log[cuts[0]..b]);
    } else {
      AccountsRest(log, None, ns, cuts, b);
      AccountsFlat(log, ns[1..], cuts[1..], b);
      KeptAll(log[cuts[0]..cuts[1]]);
      assert log[cuts[0]..cuts[1]] + log[cuts[1]..b] == log[cuts[0]..b];
    }
  }

  lemma {:induction false} GroupedFlat(cs: seq<Change>, i: nat)
    requires i <= |cs|
    ensures Flat(Grouped(cs, i)) == cs[i..] && forall n :: n in Grouped(cs, i) ==> n.Batch?
    decreases |cs| - i
  {
    if i < |cs| {
      var j := RunEnd(cs, i, i + 1);
      GroupedFlat(cs, j);
      assert Grouped(cs, i)[1..] == Grouped(cs, j) && cs[i..j] + cs[j..] == cs[i..];
    }
  }

  /** A slot keeps a change whole if and only if its table name is at most 32 bytes and its key at most 72; of longer
      ones it keeps the first so many bytes, and of the rest everything. */
  lemma {:induction false} SlotKeepsIff(c: Change)
    ensures Stored(c) == c <==> |c.table| <= 32 && |c.pk| <= 72
    ensures var s := Stored(c);
            && s.table <= c.table && |s.table| == (if |c.table| < 32 then |c.table| else 32)
            && s.pk <= c.pk && |s.pk| == (if |c.pk| < 72 then |c.pk| else 72)
            && s.(table := c.table, pk := c.pk) == c
  {
  }

  /** A batch carries changes of its own origin and sequence number. */
  predicate Uniform(n: Notification) {
    n.Batch? && n.changes != [] && forall c :: c in n.changes ==> c.origin == n.origin && c.seqno == n.seqno
  }

  lemma {:induction false} RunIsUniform(cs: seq<Change>, i: nat, j: nat)
    requires i < j <= |cs| && forall k :: i <= k < j ==> cs[k].origin == cs[i].origin && cs[k].seqno == cs[i].seqno
    ensures var e := RunEnd(cs, i, j);
            && (forall k :: i <= k < e ==> cs[k].origin == cs[i].origin && cs[k].seqno == cs[i].seqno)
            && (e < |cs| ==> cs[e].origin != cs[i].origin || cs[e].seqno != cs[i].seqno)
    decreases |cs| - j
  {
    if j < |cs| && SameBatch(cs[j], cs[i]) { RunIsUniform(cs, i, j + 1); }
  }

  /** Every batch of a drain is one transaction's changes of one origin, and as many as follow one another. */
  lemma {:induction false} BatchesAreRuns(cs: seq<Change>, i: nat)
    requires i <= |cs|
    ensures var ns := Grouped(cs, i);
            && (forall k :: 0 <= k < |ns| ==> Uniform(ns[k]))
            && (forall k :: 0 < k < |ns| ==> ns[k - 1].origin != ns[k].origin || ns[k - 1].seqno != ns[k].seqno)
            && (i < |cs| ==> ns != [] && ns[0].origin == cs[i].origin && ns[0].seqno == cs[i].seqno)
    decreases |cs| - i
  {
    if i < |cs| {
      RunIsUniform(cs, i, i + 1);
      var j := RunEnd(cs, i, i + 1);
      BatchesAreRuns(cs, j);
      assert Grouped(cs, i) == [Batch(cs[i].origin, cs[i].seqno, cs[i..j])] + Grouped(cs, j);
    }
  }

  ghost predicate Accountable(log: seq<Change>, ns: seq<Notification>, from: nat) {
    exists cuts :: Accounts(log, None, ns, cuts, |log|) && cuts[0] == from
  }

  /** What a reader of the current generation takes out of the ring. */
  function Unread(rd: ReaderState, r: RingState): seq<Change>
    requires |r.slots| > 0
  {
    if r.head == rd.lastSeen then [] else ReadSlots(r.slots, rd.lastSeen, Delta(r.head, rd.lastSeen))
  }

  predicate SaysLossy(rd: ReaderState, r: RingState)
    requires |r.slots| > 0
  {
    rd.generation != r.generation || (r.head != rd.lastSeen && Delta(r.head, rd.lastSeen) > |r.slots|)
  }

  /** Whatever state reader and ring are in, a drain accounts for what was appended since `seen` exactly when
      it says Lossy or takes out just those changes. */
  lemma {:induction false} DrainAccountsIff(rd: ReaderState, r: RingState, log: seq<Change>, seen: nat)
    requires |r.slots| > 0 && seen <= |log|
    ensures Accountable(log, Drained(rd, r).1, seen) <==> SaysLossy(rd, r) || Unread(rd, r) == log[seen..]
  {
    if SaysLossy(rd, r) {
      var cuts := LossyAccounts(log, seen);
    } else {
      var xs := Unread(rd, r);
      assert Drained(rd, r).1 == Grouped(xs, 0);
      if xs == log[seen..] {
        var cuts := AllSince(log, seen);
      } else if Accountable(log, Grouped(xs, 0), seen) {
        var cuts :| Accounts(log, None, Grouped(xs, 0), cuts, |log|) && cuts[0] == seen;
        assert xs[0..] == xs && log[seen..|log|] == log[seen..];
        GroupedFlat(xs, 0);
        AccountsFlat(log, Grouped(xs, 0), cuts, |log|);
      }
    }
  }

  /** A drain of the current generation accounts for everything appended since the last one exactly when
      the reader was not lapped by 2^32 or more with a distance that looks short. */
  lemma {:induction false} DrainIsHonestIff(rd: ReaderState, r: RingState, log: seq<Change>, base: nat, seen: nat)
    requires Carries(r, log, base) && StandsAt(rd, r, log, base, seen) && rd.generation == r.generation
    ensures Accountable(log, Drained(rd, r).1, seen) <==> !Lapped(r, log, seen)
  {
    DrainAccountsIff(rd, r, log, seen);
    CarriedUnread(rd, r, log, base, seen);
  }

  /** The 32-bit distance, and what lies in it, of a reader that stands where it should. */
  lemma CarriedUnread(rd: ReaderState, r: RingState, log: seq<Change>, base: nat, seen: nat)
    requires Carries(r, log, base) && base <= seen <= |log| && rd.lastSeen == Wrap(seen - base)
    ensures Delta(r.head, rd.lastSeen) == Wrap(|log| - seen) && (r.head == rd.lastSeen <==> Wrap(|log| - seen) == 0)
    ensures Wrap(|log| - seen) <= |r.slots| ==> Unread(rd, r) == log[|log| - Wrap(|log| - seen)..]
    ensures Wrap(|log| - seen) <= |log| - seen && (|log| - seen < TWO_32 ==> Wrap(|log| - seen) == |log| - seen)
  {
    SteadyDistance(|log| - base, seen - base, r.head, rd.lastSeen);
    assert |log| - base - (seen - base) == |log| - seen;
    if Wrap(|log| - seen) <= |r.slots| { RingReads(r, log, base, seen); }
  }

  lemma SteadyDistance(m: nat, at: nat, head: nat, lastSeen: nat)
    requires at <= m && head == Wrap(m) && lastSeen == Wrap(at)
    ensures Delta(head, lastSeen) == Wrap(m - at) && (head == lastSeen <==> Wrap(m - at) == 0)
  {
    DeltaIs(m, at);
    ModWraps(at, m, Wrap(m - at));
    if head == lastSeen { SameHead(head); }
  }

  lemma SameHead(h: nat)
    requires h < TWO_32
    ensures Delta(h, h) == 0
  {
    RemainderIsMod(h, TWO_32);
    RemainderIsMod(TWO_32, TWO_32);
  }

  // ---------------------------------------------------------------------
  // Runs
  // ---------------------------------------------------------------------

  /** A writer that opens the feed makes three stores a reader can look between: it wipes the slots, raises
      the generation and resets the head. */
  datatype Phase = Serving | Wiped | Bumped

  /** The feed, the dispatcher and one subscription. `sent` is everything appended and `log` the same as
      stored; `base` where the current generation starts in it; `seen` how far the reader has come; `inbox`
      what it has drained and not dispatched; `received` what the subscriber took off its channel and `times`
      how far the reader had come each time; `start` where the log stood when the subscription began. */
  datatype World = World(ring: RingState, phase: Phase, sent: seq<Change>, log: seq<Change>, base: nat, reader: ReaderState, seen: nat,
                         inbox: seq<Notification>, filter: Filter, sub: SubState,
                         received: seq<Notification>, times: seq<nat>, start: nat)

  datatype Step = Append(changes: seq<Change>) | Wipe | Bump | Reset | Drain | Deliver | Receive | Close

  /** A ring no change was written to yet. */
  function Blanks(n: nat): (slots: seq<Change>)
    ensures |slots| == n
  {
    seq(n, _ => Change(0, 0, [], 0, []))
  }

  predicate Enabled(w: World, t: Step) {
    match t
    case Append(_) => w.phase.Serving?
    case Wipe => w.phase.Serving?
    case Bump => w.phase.Wiped?
    case Reset => w.phase.Bumped?
    case Deliver => w.inbox != []
    case Receive => w.sub.ch != []
    case _ => true
  }

  function Next(w: World, t: Step): World
    requires Enabled(w, t) && |w.ring.slots| > 0
  {
    match t
    case Append(changes) => w.(ring := AfterAppend(w.ring, changes), sent := w.sent + changes, log := w.log + StoredAll(changes))
    case Wipe => w.(ring := w.ring.(slots := Blanks(|w.ring.slots|)), phase := Wiped)
    case Bump => w.(ring := w.ring.(generation := w.ring.generation + 1), base := |w.log|, phase := Bumped)
    case Reset => w.(ring := w.ring.(head := 0), phase := Serving)
    case Drain =>
      var (reader, ns) := Drained(w.reader, w.ring);
      w.(reader := reader, seen := |w.log|, inbox := w.inbox + ns)
    case Deliver =>
      var n := Projected(w.filter, w.inbox[0]);
      w.(inbox := w.inbox[1..], sub := if n.Some? then AfterDeliver(w.sub, n.value) else w.sub)
    case Receive => w.(received := w.received + [w.sub.ch[0]], times := w.times + [w.seen], sub := w.sub.(ch := w.sub.ch[1..]))
    case Close => w.(sub := w.sub.(closed := true))
  }

  /** Everything handed to the subscriber, taken or still in the channel. */
  function Out(w: World): seq<Notification> { w.received + w.sub.ch }

  /** The reader's head is the one it should have seen. */
  predicate Aligned(w: World) { w.base <= w.seen && w.reader.lastSeen == Wrap(w.seen - w.base) }

  /** The reader took the new generation with the old head, and has taken nothing since. */
  predicate Astray(w: World) { w.seen == w.base && 0 < w.reader.lastSeen < TWO_32 }

  ghost predicate FeedInv(w: World) {
    && w.log == StoredAll(w.sent) && w.base <= |w.log| && |w.ring.slots| > 0 && WindowsFit(|w.ring.slots|) && w.ring.head < TWO_32
    && match w.phase
       case Serving => Carries(w.ring, w.log, w.base)
       case Wiped => w.ring.slots == Blanks(|w.ring.slots|) && w.ring.head == Wrap(|w.log| - w.base)
       case Bumped => w.ring.slots == Blanks(|w.ring.slots|) && w.base == |w.log|
  }

  predicate ReaderInv(w: World) {
    && w.seen <= |w.log| && w.reader.generation <= w.ring.generation
    && (w.reader.generation == w.ring.generation ==>
          if w.phase.Bumped? then w.seen == |w.log| && w.reader.lastSeen == w.ring.head else Aligned(w) || Astray(w))
  }

  ghost predicate RingInv(w: World) { FeedInv(w) && ReaderInv(w) }

  // When a drain is true ----------------------------------------------------

  /** What tells whether a drain taken now is true: the reader is a generation behind, or too far behind to
      read; or the restart has raised the generation and nothing can be appended; or the reader is aligned,
      less than 2^32 behind, and the slots have not been wiped over anything that differs from a blank. */
  predicate Clear(w: World)
    requires w.seen <= |w.log|
  {
    || w.reader.generation != w.ring.generation
    || w.phase.Bumped?
    || Delta(w.ring.head, w.reader.lastSeen) > |w.ring.slots|
    || (Aligned(w) && |w.log| - w.seen < TWO_32 && (w.phase.Wiped? ==> w.log[w.seen..] == Blanks(|w.log| - w.seen)))
  }

  lemma {:induction false} BlanksRead(n: nat, head: nat, d: nat)
    requires n > 0
    ensures ReadSlots(Blanks(n), head, d) == Blanks(d)
    decreases d
  {
    if d > 0 {
      BlanksRead(n, head, d - 1);
      assert Blanks(d) == Blanks(d - 1) + [Change(0, 0, [], 0, [])];
    }
  }

  lemma WipedTrueIff(w: World)
    requires RingInv(w) && w.phase.Wiped? && w.reader.generation == w.ring.generation && Aligned(w)
    ensures SaysLossy(w.reader, w.ring) || Unread(w.reader, w.ring) == w.log[w.seen..] <==> Clear(w)
  {
    var d, delta := |w.log| - w.seen, Delta(w.ring.head, w.reader.lastSeen);
    SteadyDistance(|w.log| - w.base, w.seen - w.base, w.ring.head, w.reader.lastSeen);
    assert |w.log| - w.base - (w.seen - w.base) == d;
    BlanksRead(|w.ring.slots|, w.reader.lastSeen, delta);
    RemainderIsMod(d, TWO_32);
    assert Blanks(0) == [];
  }

  lemma AstrayDistance(m: nat, h: nat)
    requires 0 < h < TWO_32
    ensures Delta(Wrap(m), h) != m && (Wrap(m) == h ==> m != 0)
  {
    var x := Wrap(m);
    RemainderIsMod(m, TWO_32);
    RemainderIsMod(h, TWO_32);
    RemainderIsMod(x + TWO_32 - h, TWO_32);
  }

  lemma AstrayTrueIff(w: World)
    requires RingInv(w) && !w.phase.Bumped? && w.reader.generation == w.ring.generation && Astray(w)
    ensures SaysLossy(w.reader, w.ring) || Unread(w.reader, w.ring) == w.log[w.seen..] <==> Clear(w)
  {
    var m, h := |w.log| - w.base, w.reader.lastSeen;
    AstrayDistance(m, h);
    RemainderIsMod(0, TWO_32);
    if w.ring.head == h { SameHead(h); }
    assert |w.log[w.seen..]| == m;
    assert !Aligned(w);
  }

  lemma ServingTrueIff(w: World)
    requires RingInv(w) && w.phase.Serving? && w.reader.generation == w.ring.generation && Aligned(w)
    ensures SaysLossy(w.reader, w.ring) || Unread(w.reader, w.ring) == w.log[w.seen..] <==> Clear(w)
  {
    CarriedUnread(w.reader, w.ring, w.log, w.base, w.seen);
  }

  /** At every point of every run, through restarts, a drain accounts for what was appended since the last
      one if and only if it is clear. */
  lemma {:induction false} DrainIsTrueIff(w: World)
    requires RingInv(w)
    ensures Accountable(w.log, Drained(w.reader, w.ring).1, w.seen) <==> Clear(w)
  {
    DrainAccountsIff(w.reader, w.ring, w.log, w.seen);
    if w.reader.generation == w.ring.generation && !w.phase.Bumped? {
      if Astray(w) { AstrayTrueIff(w); } else if w.phase.Wiped? { WipedTrueIff(w); } else { ServingTrueIff(w); }
    }
  }

  // The invariant -----------------------------------------------------------

  /** Nothing was received before the reader had come as far as the stretch it stands for. */
  predicate InTime(cuts: seq<nat>, times: seq<nat>) { |times| < |cuts| && forall i :: 0 <= i < |times| ==> cuts[i + 1] <= times[i] }

  /** The subscriber's notifications account for the log up to y, the inbox for what lies between x and
      the reader, and y trails x only while a drop waits to be announced or the subscription is over. */
  ghost predicate Flow(w: World, cuts: seq<nat>, y: nat, pending: seq<nat>) {
    && Accounts(w.log, w.filter, Out(w), cuts, y) && cuts[0] == w.start && |w.times| == |w.received| && InTime(cuts, w.times)
    && Accounts(w.log, None, w.inbox, pending, w.seen) && y <= pending[0]
    && (!w.sub.dropped && !w.sub.closed ==> y == pending[0])
  }

  ghost predicate Inv(w: World) {
    RingInv(w) && exists cuts, y, pending :: Flow(w, cuts, y, pending)
  }

  /** A subscription begins where the reader stands, with nothing in flight. */
  ghost predicate Init(w: World) {
    && RingInv(w) && w.seen == w.start && w.inbox == [] && w.received == [] && w.times == []
    && w.sub.ch == [] && !w.sub.closed && !w.sub.dropped
  }

  lemma InitInv(w: World)
    requires Init(w)
    ensures Inv(w)
  {
    assert w.log[w.start..w.start] == [];
    assert Flow(w, [w.start], w.start, [w.start]);
  }

  lemma TailOfConcat(log: seq<Change>, more: seq<Change>, base: nat)
    requires base <= |log|
    ensures (log + more)[base..] == log[base..] + more
  {
  }

  lemma AppendCarries(r: RingState, log: seq<Change>, base: nat, changes: seq<Change>)
    requires Carries(r, log, base) && WindowsFit(|r.slots|)
    ensures Carries(AfterAppend(r, changes), log + StoredAll(changes), base)
  {
    var current, more := log[base..], StoredAll(changes);
    AppendMirrors(r.slots, current, changes);
    TailOfConcat(log, more, base);
    AppendedHead(|current|, |changes|);
  }

  lemma AppendInv(w: World, changes: seq<Change>)
    requires Inv(w) && Enabled(w, Append(changes))
    ensures Inv(Next(w, Append(changes)))
  {
    AppendCarries(w.ring, w.log, w.base, changes);
    StoredConcat(w.sent, changes);
    var cuts, y, pending :| Flow(w, cuts, y, pending);
    AppendFlow(w, changes, cuts, y, pending);
  }

  lemma AppendFlow(w: World, changes: seq<Change>, cuts: seq<nat>, y: nat, pending: seq<nat>)
    requires Flow(w, cuts, y, pending) && Enabled(w, Append(changes)) && |w.ring.slots| > 0
    ensures Flow(Next(w, Append(changes)), cuts, y, pending)
  {
    var more := StoredAll(changes);
    AccountsGrown(w.log, more, w.filter, Out(w), cuts, y);
    AccountsGrown(w.log, more, None, w.inbox, pending, w.seen);
  }

  /** The three stores of a restart touch nothing but the ring. */
  lemma RestartInv(w: World, t: Step)
    requires Inv(w) && (t.Wipe? || t.Bump? || t.Reset?) && Enabled(w, t)
    ensures Inv(Next(w, t))
  {
    var w' := Next(w, t);
    RestartRing(w, t);
    var cuts, y, pending :| Flow(w, cuts, y, pending);
    assert Flow(w', cuts, y, pending);
  }

  lemma RestartRing(w: World, t: Step)
    requires RingInv(w) && (t.Wipe? || t.Bump? || t.Reset?) && Enabled(w, t)
    ensures RingInv(Next(w, t))
  {
    assert w.log[|w.log|..] == [];
    RemainderIsMod(0, TWO_32);
  }

  lemma DrainRing(w: World)
    requires RingInv(w)
    ensures RingInv(Next(w, Drain))
  {
    RemainderIsMod(|w.log| - w.base, TWO_32);
    if w.reader.generation == w.ring.generation && w.phase.Bumped? { SameHead(w.ring.head); }
  }

  lemma DrainInv(w: World)
    requires Inv(w) && Clear(w)
    ensures Inv(Next(w, Drain))
  {
    var w' := Next(w, Drain);
    DrainRing(w);
    DrainIsTrueIff(w);
    var cuts, y, pending :| Flow(w, cuts, y, pending);
    var more :| Accounts(w.log, None, Drained(w.reader, w.ring).1, more, |w.log|) && more[0] == w.seen;
    AccountsJoin(w.log, w.inbox, pending, w.seen, Drained(w.reader, w.ring).1, more, |w.log|);
    assert Flow(w', cuts, y, pending + more[1..]);
  }

  lemma ReceiveInv(w: World)
    requires Inv(w) && Enabled(w, Receive)
    ensures Inv(Next(w, Receive))
  {
    var cuts, y, pending :| Flow(w, cuts, y, pending);
    ReceiveFlow(w, cuts, y, pending);
  }

  lemma ReceiveFlow(w: World, cuts: seq<nat>, y: nat, pending: seq<nat>)
    requires Flow(w, cuts, y, pending) && Enabled(w, Receive) && |w.ring.slots| > 0
    ensures Flow(Next(w, Receive), cuts, y, pending)
  {
    assert Out(Next(w, Receive)) == Out(w);
    AccountsOrdered(w.log, w.filter, Out(w), cuts, y, |w.received| + 1);
    AccountsOrdered(w.log, None, w.inbox, pending, w.seen, 0);
  }

  lemma CloseInv(w: World)
    requires Inv(w)
    ensures Inv(Next(w, Close))
  {
    var cuts, y, pending :| Flow(w, cuts, y, pending);
    CloseFlow(w, cuts, y, pending);
  }

  lemma CloseFlow(w: World, cuts: seq<nat>, y: nat, pending: seq<nat>)
    requires Flow(w, cuts, y, pending) && |w.ring.slots| > 0
    ensures Flow(Next(w, Close), cuts, y, pending)
  {
  }

  /** One delivery attempt of a notification that stands for log[x..z]. */
  lemma DeliverAccounts(log: seq<Change>, f: Filter, got: seq<Notification>, s: SubState, n: Notification, cuts: seq<nat>, y: nat, x: nat, z: nat)
    returns (cuts': seq<nat>, y': nat)
    requires Accounts(log, f, got + s.ch, cuts, y) && y <= x && (!s.dropped && !s.closed ==> y == x) && StandsFor(log, f, n, x, z)
    ensures var s' := AfterDeliver(s, n);
            && Accounts(log, f, got + s'.ch, cuts', y') && cuts <= cuts' && y' <= z
            && s'.closed == s.closed && (!s'.dropped && !s'.closed ==> y' == z)
  {
    cuts', y' := cuts, y;
    var out, s' := got + s.ch, AfterDeliver(s, n);
    if !s.closed && !(s.dropped && |s.ch| >= s.capacity) {
      if s.dropped {
        AccountsMore(log, f, out, cuts', y, Lossy, x);
        out, cuts', y' := out + [Lossy], cuts' + [x], x;
        assert out == got + (s.ch + [Lossy]);
      }
      if !s'.dropped {
        AccountsMore(log, f, out, cuts', x, n, z);
        cuts', y' := cuts' + [z], z;
        assert got + s'.ch == out + [n];
      }
    }
  }

  lemma DeliverInv(w: World)
    requires Inv(w) && Enabled(w, Deliver)
    ensures Inv(Next(w, Deliver))
  {
    var cuts, y, pending :| Flow(w, cuts, y, pending);
    var cuts', y' := DeliverFlow(w, cuts, y, pending);
  }

  lemma DeliverFlow(w: World, cuts: seq<nat>, y: nat, pending: seq<nat>) returns (cuts': seq<nat>, y': nat)
    requires Flow(w, cuts, y, pending) && Enabled(w, Deliver) && |w.ring.slots| > 0
    ensures Flow(Next(w, Deliver), cuts', y', pending[1..])
  {
    var x, z := pending[0], pending[1];
    AccountsRest(w.log, None, w.inbox, pending, w.seen);
    KeptAll(w.log[x..z]);
    var n := Projected(w.filter, w.inbox[0]);
    cuts', y' := cuts, y;
    if n.Some? {
      cuts', y' := DeliverAccounts(w.log, w.filter, w.received, w.sub, n.value, cuts, y, x, z);
    } else if y == x {
      AccountsFiltered(w.log, w.filter, Out(w), cuts, y, z);
      y' := z;
    }
  }

  /** Every step keeps the accounting, but for a drain that is not clear. */
  lemma {:induction false} StepInv(w: World, t: Step)
    requires Inv(w) && Enabled(w, t) && (t.Drain? ==> Clear(w))
    ensures Inv(Next(w, t))
  {
    match t
    case Append(changes) => AppendInv(w, changes);
    case Wipe => RestartInv(w, t);
    case Bump => RestartInv(w, t);
    case Reset => RestartInv(w, t);
    case Drain => DrainInv(w);
    case Deliver => DeliverInv(w);
    case Receive => ReceiveInv(w);
    case Close => CloseInv(w);
  }

  predicate Takes(w: World, t: Step, w': World) { Enabled(w, t) && |w.ring.slots| > 0 && w' == Next(w, t) }

  ghost predicate StepAt(states: seq<World>, steps: seq<Step>, k: nat)
    requires k < |steps| < |states|
  {
    Takes(states[k], steps[k], states[k + 1])
  }

  ghost predicate Run(states: seq<World>, steps: seq<Step>) {
    |states| == |steps| + 1 && Init(states[0]) && forall k: nat :: k < |steps| ==> StepAt(states, steps, k)
  }

  predicate ClearAt(states: seq<World>, steps: seq<Step>, k: nat)
    requires k < |steps| < |states|
  {
    steps[k].Drain? ==> states[k].seen <= |states[k].log| && Clear(states[k])
  }

  /** A run whose drains are clear. */
  ghost predicate ClearRun(states: seq<World>, steps: seq<Step>) {
    Run(states, steps) && forall k: nat :: k < |steps| ==> ClearAt(states, steps, k)
  }

  lemma {:induction false} RunInv(states: seq<World>, steps: seq<Step>, k: nat)
    requires ClearRun(states, steps) && k <= |steps|
    ensures Inv(states[k]) && states[k].filter == states[0].filter && states[k].start == states[0].start
  {
    if k == 0 {
      InitInv(states[0]);
    } else {
      RunInv(states, steps, k - 1);
      assert StepAt(states, steps, k - 1) && ClearAt(states, steps, k - 1);
      StepInv(states[k - 1], steps[k - 1]);
    }
  }

  /** Nothing is on its way to the subscriber, and nothing it missed waits to be announced. */
  predicate Quiet(w: World) { w.inbox == [] && w.sub.ch == [] && !w.sub.dropped && !w.sub.closed }

  /** What the subscriber received accounts for the log up to upTo, each notification for changes that had
      been drained by the time it was received; and in a quiet state for all that was drained. */
  ghost predicate Told(w: World, start: nat, cuts: seq<nat>, upTo: nat) {
    && Accounts(w.log, w.filter, w.received, cuts, upTo) && cuts[0] == start && InTime(cuts, w.times)
    && upTo <= w.seen && (Quiet(w) ==> upTo == w.seen)
  }

  /** At every point of every run whose drains are clear: batches in append order, with nothing the filter
      keeps missing between them unless a Lossy marker stands there, and nothing missing after the last
      one once all is quiet. */
  lemma {:induction false} NoSilentLoss(states: seq<World>, steps: seq<Step>, k: nat) returns (cuts: seq<nat>, upTo: nat)
    requires ClearRun(states, steps) && k <= |steps|
    ensures Told(states[k], states[0].start, cuts, upTo)
  {
    RunInv(states, steps, k);
    var w := states[k];
    var c, y, pending :| Flow(w, c, y, pending);
    AccountsPrefix(w.log, w.filter, w.received, w.sub.ch, c, y);
    cuts, upTo := c[..|w.received| + 1], c[|w.received|];
    AccountsOrdered(w.log, w.filter, Out(w), c, y, |w.received|);
    AccountsOrdered(w.log, None, w.inbox, pending, w.seen, 0);
    if Quiet(w) {
      assert Out(w) == w.received && cuts == c;
      KeptAll(w.log[pending[0]..w.seen]);
      upTo := w.seen;
    }
  }

  lemma {:induction false} AccountsOrdered(log: seq<Change>, f: Filter, out: seq<Notification>, cuts: seq<nat>, b: nat, i: nat)
    requires Accounts(log, f, out, cuts, b) && i <= |out|
    ensures cuts[i] <= b
    decreases |out| - i
  {
    if i < |out| {
      assert StandsFor(log, f, out[i], cuts[i], cuts[i + 1]);
      AccountsOrdered(log, f, out, cuts, b, i + 1);
    }
  }

  // ---------------------------------------------------------------------
  // Names cut to the slot budget
  // ---------------------------------------------------------------------

  predicate NamesFit(f: Filter) { f.None? || forall t :: t in f.value ==> |t| < TABLE_NAME_MAX }

  /** Every subscribed name over the budget is subscribed to in its cut form as well. */
  predicate CutNamesToo(f: Filter) {
    f.None? || forall t :: t in f.value && |t| > TABLE_NAME_MAX ==> t[..TABLE_NAME_MAX] in f.value
  }

  function Named(t: Bytes): Change { Change(0, 0, t, 0, []) }

  /** Filtering the stored names is filtering the full ones exactly when every subscribed name is shorter
      than the budget: a name of the full budget also catches longer names that start with it. */
  lemma {:induction false} FilterIsExactIff(f: Filter)
    ensures (forall c :: Passes(f, Stored(c)) <==> Passes(f, c)) <==> NamesFit(f)
  {
    if f.Some? && !NamesFit(f) {
      var t :| t in f.value && |t| >= TABLE_NAME_MAX;
      var cut := t[..TABLE_NAME_MAX];
      if |t| > TABLE_NAME_MAX && cut !in f.value {
        assert Passes(f, Named(t)) && !Passes(f, Stored(Named(t)));
      } else {
        if |t| == TABLE_NAME_MAX { assert cut == t; }
        LongerName(f, cut);
      }
    }
  }

  /** Some name that starts with the cut one and is not subscribed to comes through as if it were. */
  lemma LongerName(f: Filter, cut: Bytes)
    requires f.Some? && cut in f.value && |cut| == TABLE_NAME_MAX
    ensures exists c :: Passes(f, Stored(c)) && !Passes(f, c)
  {
    var t := Unsubscribed(f.value, cut, 1);
    assert t[..TABLE_NAME_MAX] == cut;
    assert Passes(f, Stored(Named(t))) && !Passes(f, Named(t));
  }

  /** A finite set misses some extension of a name. */
  lemma {:induction false} Unsubscribed(names: set<Bytes>, cut: Bytes, n: nat) returns (t: Bytes)
    requires n >= 1
    ensures t !in names && |t| >= |cut| + n && t[..|cut|] == cut
    decreases names
  {
    t := cut + seq(n, _ => 0);
    if t in names {
      var u := Unsubscribed(names - {t}, cut, n + 1);
      t := u;
    }
  }

  /** No change of a subscribed table is filtered out exactly when cut names are subscribed to as well. */
  lemma {:induction false} FilterHidesNothingIff(f: Filter)
    ensures (forall c :: Passes(f, c) ==> Passes(f, Stored(c))) <==> CutNamesToo(f)
  {
    if !CutNamesToo(f) {
      var t :| t in f.value && |t| > TABLE_NAME_MAX && t[..TABLE_NAME_MAX] !in f.value;
      assert Passes(f, Named(t)) && !Passes(f, Stored(Named(t)));
    }
  }

  lemma {:induction false} KeptStored(f: Filter, cs: seq<Change>)
    requires NamesFit(f)
    ensures Kept(f, StoredAll(cs)) == StoredAll(Kept(f, cs))
    decreases |cs|
  {
    if cs != [] {
      var init, c := cs[..|cs| - 1], cs[|cs| - 1];
      KeptStored(f, init);
      FilterIsExactIff(f);
      assert Passes(f, Stored(c)) <==> Passes(f, c);
      assert StoredAll(cs)[..|cs| - 1] == StoredAll(init);
      StoredConcat(Kept(f, init), [c]);
      assert StoredAll([c]) == [Stored(c)];
    }
  }

  lemma StoredSlice(cs: seq<Change>, lo: nat, hi: nat)
    requires lo <= hi <= |cs|
    ensures StoredAll(cs)[lo..hi] == StoredAll(cs[lo..hi])
  {
  }

  /** n stands for sent[lo..hi] as it was appended: a batch is what the filter keeps of it, as stored. */
  predicate StandsForSent(sent: seq<Change>, f: Filter, n: Notification, lo: nat, hi: nat) {
    lo <= hi <= |sent| && (n.Batch? ==> n.changes == StoredAll(Kept(f, sent[lo..hi])))
  }

  predicate AccountsForSent(sent: seq<Change>, f: Filter, out: seq<Notification>, cuts: seq<nat>, b: nat) {
    && |cuts| == |out| + 1
    && (forall i :: 0 <= i < |out| ==> StandsForSent(sent, f, out[i], cuts[i], cuts[i + 1]))
    && cuts[|out|] <= b <= |sent| && Kept(f, sent[cuts[|out|]..b]) == []
  }

  lemma {:induction false} AccountsLift(sent: seq<Change>, f: Filter, out: seq<Notification>, cuts: seq<nat>, b: nat)
    requires NamesFit(f) && Accounts(StoredAll(sent), f, out, cuts, b)
    ensures AccountsForSent(sent, f, out, cuts, b)
  {
    var log := StoredAll(sent);
    forall i | 0 <= i < |out| ensures StandsForSent(sent, f, out[i], cuts[i], cuts[i + 1]) {
      assert StandsFor(log, f, out[i], cuts[i], cuts[i + 1]);
      StoredSlice(sent, cuts[i], cuts[i + 1]);
      KeptStored(f, sent[cuts[i]..cuts[i + 1]]);
    }
    StoredSlice(sent, cuts[|out|], b);
    KeptStored(f, sent[cuts[|out|]..b]);
  }

  /** With every subscribed name under the budget the promise holds of the changes as they were appended. */
  lemma {:induction false} NoSilentLossAsSent(states: seq<World>, steps: seq<Step>, k: nat) returns (cuts: seq<nat>, upTo: nat)
    requires ClearRun(states, steps) && k <= |steps| && NamesFit(states[0].filter)
    ensures var w := states[k];
            && AccountsForSent(w.sent, w.filter, w.received, cuts, upTo) && cuts[0] == states[0].start && InTime(cuts, w.times)
            && upTo <= w.seen && (Quiet(w) ==> upTo == w.seen)
  {
    cuts, upTo := NoSilentLoss(states, steps, k);
    RunInv(states, steps, k);
    AccountsLift(states[k].sent, states[k].filter, states[k].received, cuts, upTo);
  }

  lemma {:induction false} KeptHas(f: Filter, cs: seq<Change>, p: nat)
    requires p < |cs| && Passes(f, cs[p])
    ensures cs[p] in Kept(f, cs)
    decreases |cs|
  {
    if p < |cs| - 1 { KeptHas(f, cs[..|cs| - 1], p); }
  }

  /** The p-th change of the log is in a batch that was received, or a marker stands where it would be. */
  ghost predicate Heard(log: seq<Change>, out: seq<Notification>, cuts: seq<nat>, p: nat)
    requires p < |log| && |cuts| == |out| + 1
  {
    exists i :: 0 <= i < |out| && cuts[i] <= p < cuts[i + 1] && (out[i].Lossy? || log[p] in out[i].changes)
  }

  lemma {:induction false} AccountsTell(log: seq<Change>, f: Filter, out: seq<Notification>, cuts: seq<nat>, b: nat, p: nat, i: nat)
    requires Accounts(log, f, out, cuts, b) && i <= |out| && cuts[i] <= p < b && Passes(f, log[p])
    ensures Heard(log, out, cuts, p)
    decreases |out| - i
  {
    if i == |out| {
      KeptHas(f, log[cuts[i]..b], p - cuts[i]);
    } else {
      assert StandsFor(log, f, out[i], cuts[i], cuts[i + 1]);
      if p < cuts[i + 1] {
        KeptHas(f, log[cuts[i]..cuts[i + 1]], p - cuts[i]);
      } else {
        AccountsTell(log, f, out, cuts, b, p, i + 1);
      }
    }
  }

  /** Every change of a subscribed table that was drained since the start is heard of. */
  ghost predicate HeardOfAll(w: World, start: nat, cuts: seq<nat>) {
    && |w.log| == |w.sent| && start <= w.seen <= |w.log| && |cuts| == |w.received| + 1 && cuts[0] == start
    && forall p: nat :: start <= p < w.seen && Passes(w.filter, w.sent[p]) ==> Heard(w.log, w.received, cuts, p)
  }

  lemma {:induction false} SubscribedIsTold(states: seq<World>, steps: seq<Step>, k: nat) returns (cuts: seq<nat>)
    requires ClearRun(states, steps) && k <= |steps| && CutNamesToo(states[0].filter) && Quiet(states[k])
    ensures HeardOfAll(states[k], states[0].start, cuts)
  {
    var w, upTo := states[k], 0;
    cuts, upTo := NoSilentLoss(states, steps, k);
    RunInv(states, steps, k);
    FilterHidesNothingIff(w.filter);
    AccountsOrdered(w.log, w.filter, w.received, cuts, upTo, 0);
    forall p: nat | cuts[0] <= p < w.seen && Passes(w.filter, w.sent[p]) ensures Heard(w.log, w.received, cuts, p) {
      assert w.log[p] == Stored(w.sent[p]);
      AccountsTell(w.log, w.filter, w.received, cuts, upTo, p, 0);
    }
  }

  /** The same of the last state of a run. */
  ghost predicate TellsAll(states: seq<World>, steps: seq<Step>)
    requires |states| == |steps| + 1
  {
    Quiet(states[|steps|]) ==> exists cuts :: HeardOfAll(states[|steps|], states[0].start, cuts)
  }

  ghost predicate AlwaysTold(f: Filter) {
    forall states: seq<World>, steps: seq<Step> :: ClearRun(states, steps) && states[0].filter == f ==> TellsAll(states, steps)
  }

  /** A subscriber hears of every change of its tables in every quiet state of every run if and only if the
      names over the budget are subscribed to in their cut form as well. */
  lemma {:induction false} SubscribedIsToldIff(f: Filter)
    ensures AlwaysTold(f) <==> CutNamesToo(f)
  {
    if CutNamesToo(f) {
      forall states: seq<World>, steps: seq<Step> | ClearRun(states, steps) && states[0].filter == f ensures TellsAll(states, steps) {
        if Quiet(states[|steps|]) { var cuts := SubscribedIsTold(states, steps, |steps|); }
      }
    } else {
      var states, steps, c := HiddenChangeIsLost(f);
      var w, p := states[|steps|], |states[0].sent|;
      assert w.sent[p] == c && !TellsAll(states, steps);
    }
  }

  /** Otherwise a run loses a change of a subscribed table without a marker: it is appended, drained and
      filtered out, and nothing is left to come. */
  lemma {:induction false} HiddenChangeIsLost(f: Filter) returns (states: seq<World>, steps: seq<Step>, c: Change)
    requires !CutNamesToo(f)
    ensures ClearRun(states, steps) && states[0].filter == f && Passes(f, c) && states[0].start == |states[0].sent|
    ensures var w := states[|steps|];
            w.sent == states[0].sent + [c] && w.seen == |w.sent| && w.received == [] && Quiet(w) && w.filter == f
  {
    var t :| t in f.value && |t| > TABLE_NAME_MAX && t[..TABLE_NAME_MAX] !in f.value;
    c := Named(t);
    var w0, w1, w2, w3 := Fresh(f), Appended(f, c), Read(f, c), Dropped(f, c);
    FreshInit(f);
    OneAppended(f, c);
    OneDrained(f, c);
    OneFiltered(f, c);
    states, steps := [w0, w1, w2, w3], [Append([c]), Drain, Deliver];
    ThreeSteps(w0, w1, w2, w3, steps);
    assert forall k: nat :: k < |steps| ==> ClearAt(states, steps, k);
  }

  lemma ThreeSteps(w0: World, w1: World, w2: World, w3: World, steps: seq<Step>)
    requires |steps| == 3 && Init(w0) && Takes(w0, steps[0], w1) && Takes(w1, steps[1], w2) && Takes(w2, steps[2], w3)
    ensures Run([w0, w1, w2, w3], steps)
  {
    var states := [w0, w1, w2, w3];
    assert StepAt(states, steps, 0) && StepAt(states, steps, 1) && StepAt(states, steps, 2);
  }

  /** A one-slot feed and a new subscription. */
  function Fresh(f: Filter): World {
    World(RingState(Blanks(1), 0, 1), Serving, [], [], 0, ReaderState(0, 1), 0, [], f, SubState([], 64, false, false), [], [], 0)
  }

  function Appended(f: Filter, c: Change): World { Fresh(f).(ring := RingState([Stored(c)], 1, 1), sent := [c], log := [Stored(c)]) }

  function Read(f: Filter, c: Change): World {
    Appended(f, c).(reader := ReaderState(1, 1), seen := 1, inbox := [Batch(c.origin, c.seqno, [Stored(c)])])
  }

  function Dropped(f: Filter, c: Change): World { Read(f, c).(inbox := []) }

  lemma FreshInit(f: Filter)
    ensures Init(Fresh(f))
  {
    assert Fresh(f).log[0..] == [];
  }

  lemma OneFiltered(f: Filter, c: Change)
    requires !Passes(f, Stored(c))
    ensures Takes(Read(f, c), Deliver, Dropped(f, c))
  {
    assert [Stored(c)][..0] == [];
    assert Kept(f, [Stored(c)]) == [];
  }

  lemma OneAppended(f: Filter, c: Change)
    ensures Takes(Fresh(f), Append([c]), Appended(f, c))
  {
    assert [c][..0] == [];
    var u := Next(Fresh(f), Append([c]));
    assert u.ring.slots == [Stored(c)] && u.log == [Stored(c)] && u.sent == [c];
  }

  lemma OneDrained(f: Filter, c: Change)
    ensures Takes(Appended(f, c), Drain, Read(f, c)) && Clear(Appended(f, c))
  {
    var slots := [Stored(c)];
    DeltaIs(1, 0);
    assert ReadSlots(slots, 0, 1) == ReadSlots(slots, 0, 0) + [slots[SlotOf(0, 0, 1)]] == slots;
    assert RunEnd(slots, 0, 1) == 1 && slots[0..1] == slots;
    assert Grouped(slots, 0) == [Batch(c.origin, c.seqno, slots)] + Grouped(slots, 1);
  }

  /** A subscriber to a name of the full budget hears of every table whose name goes on from it. */
  lemma {:induction false} FullNameCatchesOthers(name: Bytes, more: Bytes)
    requires |name| == TABLE_NAME_MAX && more != []
    ensures Passes(Some({name}), Stored(Named(name + more))) && !Passes(Some({name}), Named(name + more))
  {
    assert (name + more)[..TABLE_NAME_MAX] == name && |name + more| > |name|;
  }

  /** A subscriber to a table whose name is over the budget never hears of it, and no Lossy marker is sent. */
  lemma {:induction false} LongNamesAreFilteredOut(c: Change)
    requires |c.table| > TABLE_NAME_MAX
    ensures Passes(Some({c.table}), c) && Kept(Some({c.table}), [Stored(c)]) == []
  {
    assert |Stored(c).table| == TABLE_NAME_MAX;
    assert [Stored(c)][..0] == [];
  }

  // ---------------------------------------------------------------------
  // Concrete rings that fail
  // ---------------------------------------------------------------------

  /** In a ring of three slots the changes just before and just after the head wraps share a slot: the
      first one reads back as the second. */
  lemma {:induction false} ThreeSlotsCollide(slots: seq<Change>, generation: nat, a: Change, b: Change)
    requires |slots| == 3
    ensures !WindowsFit(|slots|)
    ensures var r := AfterAppend(RingState(slots, TWO_32 - 1, generation), [a, b]);
            ReadSlots(r.slots, TWO_32 - 1, 2) == [Stored(b), Stored(b)]
  {
    var n, head := |slots|, TWO_32 - 1;
    WindowsFitIff(n);
    assert TWO_32 % n == 1;
    SlotIsMod(head, n);
    SlotIsMod(head + 1, n);
    assert SlotOf(head, 0, n) == Slot(head, n) == 0 && SlotOf(head, 1, n) == Slot(head + 1, n) == 0;
    assert [a, b][..1] == [a] && [a][..0] == [];
    var r := AfterAppend(RingState(slots, head, generation), [a, b]);
    assert r.slots[0] == Stored(b);
    ReadTwo(r.slots, head);
  }

  lemma ReadTwo(slots: seq<Change>, head: nat)
    requires |slots| > 0
    ensures ReadSlots(slots, head, 2) == [slots[SlotOf(head, 0, |slots|)], slots[SlotOf(head, 1, |slots|)]]
  {
    assert ReadSlots(slots, head, 1) == ReadSlots(slots, head, 0) + [slots[SlotOf(head, 0, |slots|)]];
  }

  /** A reader exactly 2^32 changes behind sees the head it last saw and reports nothing. */
  lemma {:induction false} LappedReaderHearsNothing(c: Change)
    ensures var r, rd, log := RingState([c], 0, 1), ReaderState(0, 1), seq(TWO_32, _ => c);
            Carries(r, log, 0) && StandsAt(rd, r, log, 0, 0) && Drained(rd, r).1 == [] && !Accountable(log, [], 0)
  {
    var r, rd, log := RingState([c], 0, 1), ReaderState(0, 1), seq(TWO_32, _ => c);
    RemainderIsMod(|log|, TWO_32);
    assert log[0..] == log;
    DrainIsHonestIff(rd, r, log, 0, 0);
  }
}
