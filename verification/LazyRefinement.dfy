/** The lazy file reads like the fully restored file, over every run of handlers on many mounts. */
module LazyRefinement {
  import opened Base
  import opened LazyFile

  // ---------------------------------------------------------------------
  // Pages and bytes
  // ---------------------------------------------------------------------

  lemma MulMono(a: nat, b: nat, ps: nat)
    requires a <= b
    ensures a * ps <= b * ps
  {
  }

  lemma PageSpan(ps: nat, i: nat, p: nat)
    requires ps > 0 && p >= 1
    ensures PageAt(ps, i) == p <==> (p - 1) * ps <= i < (p - 1) * ps + ps
    ensures PageAt(ps, i) == p ==> i % ps == i - (p - 1) * ps
  {
    var q := i / ps;
    assert i == q * ps + i % ps;
    assert (q + 1) * ps == q * ps + ps && (p - 1) * ps + ps == p * ps;
    if q < p - 1 { MulMono(q + 1, p - 1, ps); }
    if q > p - 1 { MulMono(p, q, ps); }
  }

  lemma PageFits(mf: Manifest, p: nat)
    requires HasPage(mf, p)
    ensures Start(mf, p) + mf.pageSize <= mf.commit * mf.pageSize
  {
    MulMono(p, mf.commit, mf.pageSize);
    assert (p - 1) * mf.pageSize + mf.pageSize == p * mf.pageSize;
  }

  // ---------------------------------------------------------------------
  // The plain file a mount stands for
  // ---------------------------------------------------------------------

  function PageBytes(m: MountState, p: nat): Bytes
    requires p >= 1
  {
    Slice(m.backing, Start(m.mf, p), m.mf.pageSize)
  }

  /** What the page store promises: the lock page is not listed and every listed page that decodes has the page size. */
  ghost predicate Sound(store: Store, mf: Manifest) {
    && mf.pageSize > 0 && mf.commit < TWO_32 - 1 && LockPage(mf.pageSize) !in mf.pages
    && forall p :: p in mf.pages && store(mf.pages[p], p).Some? ==> |store(mf.pages[p], p).value| == mf.pageSize
  }

  /** A set clean bit means present and equal to the manifest page. */
  ghost predicate CleanInv(store: Store, m: MountState) {
    && Sound(store, m.mf) && m.mf.commit * m.mf.pageSize <= |m.backing|
    && (forall p :: p in m.present ==> HasPage(m.mf, p)) && m.clean <= m.present
    && (forall p :: p in m.clean ==> Fetch(store, m.mf, p) == Some(PageBytes(m, p)))
  }

  /** A missing page is a hole. */
  ghost predicate HoleInv(m: MountState) {
    forall p: nat :: HasPage(m.mf, p) && p !in m.present ==> PageBytes(m, p) == Zeros(m.mf.pageSize)
  }

  ghost predicate Inv(store: Store, m: MountState) { CleanInv(store, m) && HoleInv(m) }

  /** A page without data is all zeros. */
  ghost predicate ExtentInv(m: MountState) {
    forall p: nat :: HasPage(m.mf, p) && p !in m.extents ==> PageBytes(m, p) == Zeros(m.mf.pageSize)
  }

  /** The byte the manifest promises at i; zero where the page cannot be fetched. */
  function ManifestAt(store: Store, mf: Manifest, i: nat): byte
    requires mf.pageSize > 0
  {
    var d := Fetch(store, mf, PageAt(mf.pageSize, i));
    if d.Some? then d.value[i % mf.pageSize] else 0
  }

  /** The page that holds byte 0x4000_0000 is SQLite's lock page: it is zeros and never fetched. Any other byte is
      the one the store decodes from where its own page is listed. */
  lemma {:induction false} ManifestMeans(store: Store, mf: Manifest, i: nat)
    requires mf.pageSize > 0 && i < mf.commit * mf.pageSize
    ensures var p := i / mf.pageSize + 1;
            if (p - 1) * mf.pageSize <= 0x4000_0000 < p * mf.pageSize then Fetch(store, mf, p) == Some(Zeros(mf.pageSize)) && ManifestAt(store, mf, i) == 0
            else if p in mf.pages && store(mf.pages[p], p).Some? && |store(mf.pages[p], p).value| == mf.pageSize
            then ManifestAt(store, mf, i) == store(mf.pages[p], p).value[i - (p - 1) * mf.pageSize]
            else Fetch(store, mf, p).None?
  {
    PastTheEnd(mf, i);
    var ps, p := mf.pageSize, i / mf.pageSize + 1;
    assert i == (p - 1) * ps + i % ps;
    HoldsByte(ps, p, 0x4000_0000);
  }

  lemma HoldsByte(ps: nat, p: nat, b: nat)
    requires ps > 0 && p >= 1
    ensures (p - 1) * ps <= b < p * ps <==> p == b / ps + 1
  {
    var q := b / ps;
    assert b == q * ps + b % ps;
    if p - 1 < q { assert p * ps <= q * ps; } else if p - 1 > q { assert (q + 1) * ps <= (p - 1) * ps; }
  }

  /** The byte a fully materialised file has: the backing file's where the page is present, the manifest's where not. */
  function PlainAt(store: Store, m: MountState, i: nat): byte
    requires m.mf.pageSize > 0 && i < |m.backing|
  {
    var p := PageAt(m.mf.pageSize, i);
    if p > m.mf.commit || p in m.present then m.backing[i] else ManifestAt(store, m.mf, i)
  }

  function Plain(store: Store, m: MountState): (f: Bytes)
    requires m.mf.pageSize > 0
    ensures |f| == |m.backing|
    ensures forall i :: 0 <= i < |f| ==> f[i] == PlainAt(store, m, i)
  {
    seq(|m.backing|, (i: nat) requires i < |m.backing| => PlainAt(store, m, i))
  }

  // ---------------------------------------------------------------------
  // Faulting changes nothing a reader can see
  // ---------------------------------------------------------------------

  lemma PageByte(m: MountState, p: nat, i: nat)
    requires m.mf.pageSize > 0 && HasPage(m.mf, p) && m.mf.commit * m.mf.pageSize <= |m.backing| && PageAt(m.mf.pageSize, i) == p
    ensures i < |m.backing| && i % m.mf.pageSize < |PageBytes(m, p)| == m.mf.pageSize && PageBytes(m, p)[i % m.mf.pageSize] == m.backing[i]
  {
    PageFits(m.mf, p);
    PageSpan(m.mf.pageSize, i, p);
  }

  /** Two pages are equal if their bytes are, wherever they lie in the file. */
  lemma SamePage(m: MountState, p: nat, d: Bytes)
    requires m.mf.pageSize > 0 && HasPage(m.mf, p) && m.mf.commit * m.mf.pageSize <= |m.backing| && |d| == m.mf.pageSize
    ensures PageBytes(m, p) == d <==> forall i: nat :: PageAt(m.mf.pageSize, i) == p ==> i < |m.backing| && m.backing[i] == d[i % m.mf.pageSize]
  {
    var ps, s := m.mf.pageSize, Start(m.mf, p);
    PageFits(m.mf, p);
    if PageBytes(m, p) == d {
      forall i: nat | PageAt(ps, i) == p ensures i < |m.backing| && m.backing[i] == d[i % ps] { PageByte(m, p, i); }
    }
    if forall i: nat :: PageAt(ps, i) == p ==> i < |m.backing| && m.backing[i] == d[i % ps] {
      forall k | 0 <= k < ps ensures PageBytes(m, p)[k] == d[k] {
        PageSpan(ps, s + k, p);
        PageByte(m, p, s + k);
      }
    }
  }

  /** Writes outside a page leave the page alone. */
  lemma PageUntouched(m: MountState, e: MountState, p: nat)
    requires e.mf == m.mf && m.mf.pageSize > 0 && HasPage(m.mf, p)
    requires m.mf.commit * m.mf.pageSize <= |m.backing| <= |e.backing|
    requires forall i: nat :: i < |m.backing| && PageAt(m.mf.pageSize, i) == p ==> e.backing[i] == m.backing[i]
    ensures PageBytes(e, p) == PageBytes(m, p)
  {
    PageFits(m.mf, p);
    var ps, s := m.mf.pageSize, Start(m.mf, p);
    forall i | s <= i < s + ps ensures e.backing[i] == m.backing[i] { PageSpan(ps, i, p); }
    assert PageBytes(m, p) == m.backing[s..s + ps] && PageBytes(e, p) == e.backing[s..s + ps];
  }

  lemma FilledAt(store: Store, m: MountState, p: nat, d: Bytes, i: nat)
    requires CleanInv(store, m) && HasPage(m.mf, p) && |d| == m.mf.pageSize && i < |m.backing|
    ensures |Filled(m, p, d).backing| == |m.backing|
    ensures Filled(m, p, d).backing[i] == if PageAt(m.mf.pageSize, i) == p then d[i % m.mf.pageSize] else m.backing[i]
  {
    PageFits(m.mf, p);
    PageSpan(m.mf.pageSize, i, p);
  }

  lemma FilledPage(store: Store, m: MountState, p: nat, d: Bytes, q: nat)
    requires CleanInv(store, m) && HasPage(m.mf, p) && HasPage(m.mf, q) && |d| == m.mf.pageSize
    ensures PageBytes(Filled(m, p, d), q) == if q == p then d else PageBytes(m, q)
  {
    PageFits(m.mf, p);
    var e := Filled(m, p, d);
    if q == p {
      assert PageBytes(e, p) == d;
    } else {
      forall i: nat | i < |m.backing| && PageAt(m.mf.pageSize, i) == q ensures e.backing[i] == m.backing[i] { FilledAt(store, m, p, d, i); }
      PageUntouched(m, e, q);
    }
  }

  lemma FilledInv(store: Store, m: MountState, p: nat, d: Bytes)
    requires CleanInv(store, m) && HasPage(m.mf, p) && Fetch(store, m.mf, p) == Some(d)
    ensures CleanInv(store, Filled(m, p, d)) && (HoleInv(m) ==> HoleInv(Filled(m, p, d))) && (ExtentInv(m) ==> ExtentInv(Filled(m, p, d)))
  {
    var e := Filled(m, p, d);
    PageFits(m.mf, p);
    forall q | q in e.clean ensures Fetch(store, e.mf, q) == Some(PageBytes(e, q)) { FilledPage(store, m, p, d, q); }
    forall q: nat | HasPage(e.mf, q) && (q !in e.present || q !in e.extents) ensures PageBytes(e, q) == PageBytes(m, q) { FilledPage(store, m, p, d, q); }
  }

  lemma FilledPlain(store: Store, m: MountState, p: nat, d: Bytes)
    requires CleanInv(store, m) && HasPage(m.mf, p) && p !in m.present && Fetch(store, m.mf, p) == Some(d)
    ensures Plain(store, Filled(m, p, d)) == Plain(store, m)
  {
    var e := Filled(m, p, d);
    PageFits(m.mf, p);
    forall i | 0 <= i < |m.backing| ensures PlainAt(store, e, i) == PlainAt(store, m, i) { FilledAt(store, m, p, d, i); }
  }

  /** A clean sibling's page is the page the store would have answered. */
  lemma {:induction false} CloneIsFetch(store: Store, m: MountState, src: MountState, p: nat)
    requires Sound(store, m.mf) && CleanInv(store, src) && HasPage(m.mf, p) && Cloned(m, Some(src), p).Some?
    ensures Fetch(store, m.mf, p) == Cloned(m, Some(src), p)
  {
    var d := Fetch(store, src.mf, p);
    assert d == Some(PageBytes(src, p)) && d == store(m.mf.pages[p], p);
  }

  /** Every sibling a fault can meet tells the truth with its clean bits. */
  ghost predicate SoundEnv(store: Store, env: Env) {
    forall p: nat :: env.sibling(p).Some? ==> CleanInv(store, env.sibling(p).value)
  }

  /** e is m with the pages in `pages` fetched: nothing a reader can see has changed. */
  ghost predicate Fetched(store: Store, m: MountState, e: MountState, pages: set<nat>)
    requires m.mf.pageSize > 0
  {
    && CleanInv(store, e) && (HoleInv(m) ==> HoleInv(e)) && (ExtentInv(m) ==> ExtentInv(e)) && e.mf == m.mf && |e.backing| == |m.backing|
    && e.present == m.present + pages && e.clean == m.clean + pages && e.extents == m.extents + pages
    && Plain(store, e) == Plain(store, m)
  }

  lemma {:induction false} FaultRefines(store: Store, m: MountState, env: Env, p: nat)
    requires CleanInv(store, m) && SoundEnv(store, env) && HasPage(m.mf, p) && p !in m.present
    ensures var r := Fault(store, m, env, p); r.Some? ==> Fetched(store, m, r.value, {p}) && Fetch(store, m.mf, p).Some?
  {
    var c := Cloned(m, env.sibling(p), p);
    if c.Some? { CloneIsFetch(store, m, env.sibling(p).value, p); }
    var d := Fetch(store, m.mf, p);
    if d.Some? {
      FilledInv(store, m, p, d.value);
      FilledPlain(store, m, p, d.value);
    }
  }

  predicate Between(lo: nat, p: nat, hi: int) { lo <= p <= hi }

  function Interval(lo: nat, hi: int): set<nat> { set p: nat | lo <= p <= hi && Between(lo, p, hi) }

  lemma IntervalStep(lo: nat, hi: int)
    ensures Interval(lo, hi) == if lo <= hi then {lo} + Interval(lo + 1, hi) else {}
  {
  }

  /** e is m after some faults: nothing a reader can see has changed. */
  ghost predicate SameFile(store: Store, m: MountState, e: MountState)
    requires m.mf.pageSize > 0
  {
    && CleanInv(store, e) && (HoleInv(m) ==> HoleInv(e)) && (ExtentInv(m) ==> ExtentInv(e)) && (Matched(m) ==> Matched(e))
    && e.mf == m.mf && Plain(store, e) == Plain(store, m)
  }

  /** The presence bits are those a fresh mount would read off the file. */
  ghost predicate Matched(m: MountState) { forall p: nat :: HasPage(m.mf, p) ==> (p in m.present <==> p in m.extents) }

  lemma {:induction false} EnsureRefines(store: Store, m: MountState, env: Env, lo: nat, hi: nat)
    requires CleanInv(store, m) && SoundEnv(store, env) && 1 <= lo && hi <= m.mf.commit
    ensures var (e, ok) := Ensure(store, m, env, lo, hi);
            SameFile(store, m, e) && (ok ==> e.present == m.present + Interval(lo, hi))
    decreases hi + 1 - lo
  {
    IntervalStep(lo, hi);
    if lo <= hi {
      if lo in m.present {
        EnsureRefines(store, m, env, lo + 1, hi);
      } else {
        EnsureFaults(store, m, env, lo, hi);
      }
    }
  }

  lemma {:induction false} EnsureFaults(store: Store, m: MountState, env: Env, lo: nat, hi: nat)
    requires CleanInv(store, m) && SoundEnv(store, env) && 1 <= lo <= hi <= m.mf.commit && lo !in m.present
    ensures var (e, ok) := Ensure(store, m, env, lo, hi);
            SameFile(store, m, e) && (ok ==> e.present == m.present + ({lo} + Interval(lo + 1, hi)))
    decreases hi + 1 - lo, 0
  {
    FaultRefines(store, m, env, lo);
    var r := Fault(store, m, env, lo);
    if r.Some? {
      EnsureRefines(store, r.value, env, lo + 1, hi);
      SetsJoin(m.present, {lo}, Interval(lo + 1, hi));
    }
  }

  lemma SetsJoin(a: set<nat>, b: set<nat>, c: set<nat>)
    ensures a + b + c == a + (b + c)
  {
  }

  // ---------------------------------------------------------------------
  // Page numbers in 32 bits
  // ---------------------------------------------------------------------

  /** Every page the n bytes at off lie on has a 32-bit number. */
  predicate Addressable(mf: Manifest, off: nat, n: nat) { off + n <= (TWO_32 - 1) * mf.pageSize }

  lemma PageMono(ps: nat, i: nat, j: nat)
    requires ps > 0 && i <= j
    ensures PageAt(ps, i) <= PageAt(ps, j)
  {
    var a, b := i / ps, j / ps;
    assert i == a * ps + i % ps && j == b * ps + j % ps;
    assert (b + 1) * ps == b * ps + ps;
    if b < a { MulMono(b + 1, a, ps); }
  }

  /** A page number that fits 32 bits is computed exactly. */
  lemma PgnoIsExact(mf: Manifest, i: nat)
    requires mf.pageSize > 0 && PageAt(mf.pageSize, i) < TWO_32
    ensures Pgno(mf, i) == PageAt(mf.pageSize, i)
  {
  }

  lemma AddressablePages(mf: Manifest, off: nat, n: nat, i: nat)
    requires mf.pageSize > 0 && Addressable(mf, off, n) && off <= i < off + n
    ensures PageAt(mf.pageSize, i) < TWO_32
  {
    var q, ps := i / mf.pageSize, mf.pageSize;
    assert i == q * ps + i % ps;
    if q >= TWO_32 - 1 { MulMono(TWO_32 - 1, q, ps); }
  }

  // ---------------------------------------------------------------------
  // Reads
  // ---------------------------------------------------------------------

  /** The last page number wrapped below a page the read covers, which is missing and not all zero there. */
  ghost predicate ReadSkips(store: Store, m: MountState, off: nat, n: nat)
    requires m.mf.pageSize > 0
  {
    n > 0 && exists i: nat :: off <= i < off + n && Skipped(store, m, off, n, i)
  }

  predicate Skipped(store: Store, m: MountState, off: nat, n: nat, i: nat)
    requires m.mf.pageSize > 0 && n > 0
  {
    var p := PageAt(m.mf.pageSize, i);
    HasPage(m.mf, p) && p !in m.present && p > Pgno(m.mf, off + n - 1) && ManifestAt(store, m.mf, i) != 0
  }

  /** A byte of the read comes from the backing file as the plain file has it, unless it was skipped. */
  lemma ReadAt(store: Store, m: MountState, e: MountState, off: nat, n: nat, i: nat)
    requires CleanInv(store, e) && HoleInv(e) && e.mf == m.mf && off <= i < off + n && i < |e.backing|
    requires e.present == m.present + Interval(Max1(Pgno(m.mf, off)), Min(Pgno(m.mf, off + n - 1), m.mf.commit))
    ensures Plain(store, e)[i] == e.backing[i] <==> !Skipped(store, m, off, n, i)
  {
    var ps, p := m.mf.pageSize, PageAt(m.mf.pageSize, i);
    PageMono(ps, off, i);
    if HasPage(m.mf, p) {
      PgnoIsExact(m.mf, off);
      PageByte(e, p, i);
    }
  }

  /** A read changes no byte of the plain file, and what it returns is what the plain file holds exactly
      unless it skips a page. */
  lemma {:induction false} ReadRefinesIff(store: Store, m: MountState, env: Env, off: nat, n: nat)
    requires Inv(store, m) && SoundEnv(store, env)
    ensures var (e, r) := AfterRead(store, m, env, off, n);
            && Inv(store, e) && Plain(store, e) == Plain(store, m) && e.mf == m.mf
            && (r.Done? ==> (r.value == Slice(Plain(store, m), off, n) <==> !ReadSkips(store, m, off, n)))
  {
    if n > 0 {
      var last := off + n - 1;
      var lo, hi := Max1(Pgno(m.mf, off)), Min(Pgno(m.mf, last), m.mf.commit);
      EnsureRefines(store, m, env, lo, hi);
      var (e, ok) := Ensure(store, m, env, lo, hi);
      if ok { ReadSlice(store, m, e, off, n); }
    }
  }

  lemma ReadSlice(store: Store, m: MountState, e: MountState, off: nat, n: nat)
    requires n > 0 && CleanInv(store, e) && HoleInv(e) && e.mf == m.mf
    requires e.present == m.present + Interval(Max1(Pgno(m.mf, off)), Min(Pgno(m.mf, off + n - 1), m.mf.commit))
    ensures Slice(e.backing, off, n) == Slice(Plain(store, e), off, n) <==> !ReadSkips(store, m, off, n)
  {
    var f := Plain(store, e);
    if ReadSkips(store, m, off, n) {
      var i: nat :| off <= i < off + n && Skipped(store, m, off, n, i);
      PageByte(e, PageAt(m.mf.pageSize, i), i);
      ReadAt(store, m, e, off, n, i);
      SlicesDiffer(e.backing, f, off, n, i);
    } else {
      forall i | off <= i < off + n && i < |f| ensures f[i] == e.backing[i] { ReadAt(store, m, e, off, n, i); }
      SlicesAgree(e.backing, f, off, n);
    }
  }

  lemma SlicesDiffer(a: Bytes, b: Bytes, off: nat, n: nat, i: nat)
    requires |a| == |b| && off <= i < off + n && i < |a| && a[i] != b[i]
    ensures Slice(a, off, n) != Slice(b, off, n)
  {
    assert Slice(a, off, n)[i - off] == a[i] && Slice(b, off, n)[i - off] == b[i];
  }

  lemma SlicesAgree(a: Bytes, b: Bytes, off: nat, n: nat)
    requires |a| == |b| && forall i :: off <= i < off + n && i < |a| ==> a[i] == b[i]
    ensures Slice(a, off, n) == Slice(b, off, n)
  {
  }

  lemma {:induction false} AddressableReadsAll(store: Store, m: MountState, off: nat, n: nat)
    requires m.mf.pageSize > 0 && Addressable(m.mf, off, n)
    ensures !ReadSkips(store, m, off, n)
  {
    if ReadSkips(store, m, off, n) {
      var i: nat :| off <= i < off + n && Skipped(store, m, off, n, i);
      AddressablePages(m.mf, off, n, off + n - 1);
      PgnoIsExact(m.mf, off + n - 1);
      PageMono(m.mf.pageSize, i, off + n - 1);
    }
  }

  // ---------------------------------------------------------------------
  // What a write does to each page
  // ---------------------------------------------------------------------

  /** The page holds a byte of the write. */
  predicate Covers(mf: Manifest, data: Bytes, off: nat, p: nat)
    requires mf.pageSize > 0 && |data| > 0
  {
    HasPage(mf, p) && PageAt(mf.pageSize, off) <= p <= PageAt(mf.pageSize, off + |data| - 1)
  }

  /** The pages the write marks present and no longer clean, by their 32-bit numbers. */
  function Marks(mf: Manifest, data: Bytes, off: nat): set<nat>
    requires mf.pageSize > 0 && |data| > 0
  {
    Touched(mf, Pgno(mf, off), Pgno(mf, off + |data| - 1))
  }

  /** The page is one the write fetches first, because it starts or ends inside it. */
  predicate Edge(mf: Manifest, data: Bytes, off: nat, p: nat)
    requires mf.pageSize > 0 && |data| > 0
  {
    var lo, hi := Pgno(mf, off), Pgno(mf, off + |data| - 1);
    HasPage(mf, p) && ((off % mf.pageSize != 0 && p == lo) || ((off + |data|) % mf.pageSize != 0 && hi != lo && p == hi))
  }

  /** The page is missing and not fetched first. */
  predicate StaysMissing(m: MountState, data: Bytes, off: nat, p: nat)
    requires m.mf.pageSize > 0 && |data| > 0
  {
    HasPage(m.mf, p) && p !in m.present && !Edge(m.mf, data, off, p)
  }

  predicate Real(data: Bytes, off: nat, i: nat) { off <= i < off + |data| }

  /** The write puts a byte on the page that differs from the manifest's. */
  ghost predicate Changes(store: Store, mf: Manifest, data: Bytes, off: nat, p: nat)
    requires mf.pageSize > 0
  {
    exists i: nat :: Real(data, off, i) && PageAt(mf.pageSize, i) == p && data[i - off] != ManifestAt(store, mf, i)
  }

  // ---------------------------------------------------------------------
  // How a write can go wrong
  // ---------------------------------------------------------------------

  /** A write that starts on a page boundary, is shorter than the page, and meets it missing. */
  predicate ShortAligned(m: MountState, data: Bytes, off: nat)
    requires m.mf.pageSize > 0
  {
    var p := PageAt(m.mf.pageSize, off);
    0 < |data| < m.mf.pageSize && off % m.mf.pageSize == 0 && HasPage(m.mf, p) && p !in m.present
  }

  /** Such a write on a page whose remaining bytes are not all zero: the page is not faulted in first. */
  ghost predicate LosesTail(store: Store, m: MountState, data: Bytes, off: nat)
    requires m.mf.pageSize > 0
  {
    && ShortAligned(m, data, off)
    && var page := Fetch(store, m.mf, PageAt(m.mf.pageSize, off));
       page.Some? && exists k :: |data| <= k < m.mf.pageSize && page.value[k] != 0
  }

  /** A missing page the write does not reach, and which is not all zero, is marked present. */
  ghost predicate HidesPage(store: Store, m: MountState, data: Bytes, off: nat)
    requires m.mf.pageSize > 0
  {
    |data| > 0 && exists p :: p in Marks(m.mf, data, off) && StaysMissing(m, data, off, p) && !Covers(m.mf, data, off, p) && Shows(store, m.mf, p)
  }

  ghost predicate Shows(store: Store, mf: Manifest, p: nat)
    requires mf.pageSize > 0
  {
    exists i: nat :: PageAt(mf.pageSize, i) == p && ManifestAt(store, mf, i) != 0
  }

  /** A missing page the write changes is not marked present: the manifest's page is read back over it. */
  ghost predicate LeavesStale(store: Store, m: MountState, data: Bytes, off: nat)
    requires m.mf.pageSize > 0
  {
    |data| > 0 && exists p :: Covers(m.mf, data, off, p) && p !in Marks(m.mf, data, off) && StaysMissing(m, data, off, p) && Changes(store, m.mf, data, off, p)
  }

  /** A page the write changes stays marked clean. */
  ghost predicate StaleClean(store: Store, m: MountState, data: Bytes, off: nat)
    requires m.mf.pageSize > 0
  {
    |data| > 0 && exists p ::
      && Covers(m.mf, data, off, p) && p !in Marks(m.mf, data, off) && Changes(store, m.mf, data, off, p)
      && (p in m.clean || (p !in m.present && Edge(m.mf, data, off, p)))
  }

  /** A missing page that is not marked present gets a byte that is not zero. */
  ghost predicate FillsHole(m: MountState, data: Bytes, off: nat)
    requires m.mf.pageSize > 0
  {
    |data| > 0 && exists i: nat ::
      && Real(data, off, i) && PageAt(m.mf.pageSize, i) !in Marks(m.mf, data, off)
      && StaysMissing(m, data, off, PageAt(m.mf.pageSize, i)) && data[i - off] != 0
  }

  /** Any of the three ways in which the bytes read back come out wrong. */
  ghost predicate Garbles(store: Store, m: MountState, data: Bytes, off: nat)
    requires m.mf.pageSize > 0
  {
    LosesTail(store, m, data, off) || HidesPage(store, m, data, off) || LeavesStale(store, m, data, off)
  }

  // ---------------------------------------------------------------------
  // The edge faults
  // ---------------------------------------------------------------------

  function EdgeSet(m: MountState, p: nat, partial: bool): set<nat> { if partial && HasPage(m.mf, p) && p !in m.present then {p} else {} }

  /** Page zero is no page: asking for it is an error. */
  lemma EdgeRefines(store: Store, m: MountState, env: Env, p: nat, partial: bool)
    requires CleanInv(store, m) && SoundEnv(store, env)
    ensures var (e, ok) := FaultEdge(store, m, env, p, partial);
            if ok then Fetched(store, m, e, EdgeSet(m, p, partial)) && (partial ==> p >= 1) else e == m
  {
    if partial && HasPage(m.mf, p) && p !in m.present { FaultRefines(store, m, env, p); }
    assert m.present + {} == m.present && m.clean + {} == m.clean && m.extents + {} == m.extents;
  }

  /** The pages a successful write has fetched before it writes. */
  function EdgePages(m: MountState, data: Bytes, off: nat): set<nat>
    requires m.mf.pageSize > 0 && |data| > 0
  {
    set p | p in Interval(1, m.mf.commit) && p !in m.present && Edge(m.mf, data, off, p)
  }

  function First(m: MountState, off: nat): bool
    requires m.mf.pageSize > 0
  {
    off % m.mf.pageSize != 0
  }

  function Last(m: MountState, data: Bytes, off: nat): bool
    requires m.mf.pageSize > 0 && |data| > 0
  {
    (off + |data|) % m.mf.pageSize != 0 && Pgno(m.mf, off + |data| - 1) != Pgno(m.mf, off)
  }

  lemma EdgeSets(m: MountState, e: MountState, data: Bytes, off: nat)
    requires m.mf.pageSize > 0 && |data| > 0 && e.mf == m.mf && e.present == m.present + EdgeSet(m, Pgno(m.mf, off), First(m, off))
    ensures EdgeSet(m, Pgno(m.mf, off), First(m, off)) + EdgeSet(e, Pgno(m.mf, off + |data| - 1), Last(m, data, off)) == EdgePages(m, data, off)
  {
  }

  lemma FetchedTwice(store: Store, m: MountState, e: MountState, f: MountState, a: set<nat>, b: set<nat>)
    requires m.mf.pageSize > 0 && e.mf == m.mf && Fetched(store, m, e, a) && Fetched(store, e, f, b)
    ensures Fetched(store, m, f, a + b)
  {
  }

  /** A write either fails, and then nothing a reader can see has changed, or fetches its edges and writes. */
  lemma WriteShape(store: Store, m: MountState, env: Env, data: Bytes, off: nat) returns (e: MountState)
    requires CleanInv(store, m) && SoundEnv(store, env) && |data| > 0
    ensures var (w, r) := AfterWrite(store, m, env, data, off);
            && (r.Done? ==> Fetched(store, m, e, EdgePages(m, data, off)) && w == Written(e, data, off, Pgno(m.mf, off), Pgno(m.mf, off + |data| - 1)))
            && (r.EIO? ==> w == e && exists pages :: Fetched(store, m, e, pages))
  {
    var lo, hi, first, last := Pgno(m.mf, off), Pgno(m.mf, off + |data| - 1), First(m, off), Last(m, data, off);
    EdgeRefines(store, m, env, lo, first);
    var (m1, ok1) := FaultEdge(store, m, env, lo, first);
    e := m1;
    if ok1 {
      EdgeRefines(store, m1, env, hi, last);
      var (m2, ok2) := FaultEdge(store, m1, env, hi, last);
      e := m2;
      EdgeSets(m, m1, data, off);
      if ok2 { FetchedTwice(store, m, m1, m2, EdgeSet(m, lo, first), EdgeSet(m1, hi, last)); }
    } else {
      assert Fetched(store, m, m, {}) by { assert m.present + {} == m.present && m.clean + {} == m.clean && m.extents + {} == m.extents; }
    }
  }

  // ---------------------------------------------------------------------
  // The write itself
  // ---------------------------------------------------------------------

  /** The byte at i after the write, for a missing page and for any other. */
  lemma WrittenAt(store: Store, m: MountState, data: Bytes, off: nat, lo: nat, hi: nat, i: nat)
    requires CleanInv(store, m) && HoleInv(m) && |data| > 0 && i < |Overwrite(m.backing, data, off)|
    ensures var p, want := PageAt(m.mf.pageSize, i), Overwrite(Plain(store, m), data, off);
            PlainAt(store, Written(m, data, off, lo, hi), i) ==
              if !HasPage(m.mf, p) || p in m.present then want[i]
              else if p in Touched(m.mf, lo, hi) then (if Real(data, off, i) then want[i] else 0)
              else ManifestAt(store, m.mf, i)
    ensures var p, want := PageAt(m.mf.pageSize, i), Overwrite(Plain(store, m), data, off);
            HasPage(m.mf, p) && p !in m.present ==> want[i] == if Real(data, off, i) then data[i - off] else ManifestAt(store, m.mf, i)
  {
    var p := PageAt(m.mf.pageSize, i);
    if HasPage(m.mf, p) { PageByte(m, p, i); }
  }

  /** The byte at i of a missing page comes out wrong: unwritten but marked, or written but not marked. */
  predicate Wrong(store: Store, m: MountState, data: Bytes, off: nat, marks: set<nat>, i: nat)
    requires m.mf.pageSize > 0
  {
    var p := PageAt(m.mf.pageSize, i);
    && HasPage(m.mf, p) && p !in m.present
    && if p in marks then !Real(data, off, i) && ManifestAt(store, m.mf, i) != 0
       else Real(data, off, i) && data[i - off] != ManifestAt(store, m.mf, i)
  }

  ghost predicate SomeWrong(store: Store, m: MountState, data: Bytes, off: nat, marks: set<nat>)
    requires m.mf.pageSize > 0
  {
    exists i: nat :: Wrong(store, m, data, off, marks, i)
  }

  lemma WrittenRefinesIff(store: Store, m: MountState, data: Bytes, off: nat, lo: nat, hi: nat)
    requires CleanInv(store, m) && HoleInv(m) && |data| > 0
    ensures Plain(store, Written(m, data, off, lo, hi)) == Overwrite(Plain(store, m), data, off)
            <==> !SomeWrong(store, m, data, off, Touched(m.mf, lo, hi))
  {
    var w, want, marks := Written(m, data, off, lo, hi), Overwrite(Plain(store, m), data, off), Touched(m.mf, lo, hi);
    if i: nat :| Wrong(store, m, data, off, marks, i) {
      PageByte(m, PageAt(m.mf.pageSize, i), i);
      WrittenAt(store, m, data, off, lo, hi, i);
      assert Plain(store, w)[i] != want[i];
    } else {
      forall i | 0 <= i < |w.backing| ensures PlainAt(store, w, i) == want[i] {
        WrittenAt(store, m, data, off, lo, hi, i);
        assert !Wrong(store, m, data, off, marks, i);
      }
    }
  }

  lemma AlignedStart(ps: nat, off: nat, i: nat)
    requires ps > 0 && off % ps == 0 && PageAt(ps, i) == PageAt(ps, off)
    ensures off <= i && i % ps == i - off
  {
    PageSpan(ps, i, PageAt(ps, off));
    PageSpan(ps, off, PageAt(ps, off));
  }

  lemma AlignedEnd(ps: nat, end: nat, i: nat)
    requires ps > 0 && end > 0 && end % ps == 0 && PageAt(ps, i) == PageAt(ps, end - 1)
    ensures i < end
  {
    var p := PageAt(ps, end - 1);
    PageSpan(ps, i, p);
    PageSpan(ps, end - 1, p);
    PageSpan(ps, end, p);
    PageMono(ps, end - 1, end);
  }

  lemma AlignedOffset(ps: nat, off: nat, k: nat)
    requires ps > 0 && off % ps == 0 && k < ps
    ensures PageAt(ps, off + k) == PageAt(ps, off) && (off + k) % ps == k
  {
    var p := PageAt(ps, off);
    PageSpan(ps, off, p);
    PageSpan(ps, off + k, p);
  }

  /** A page the write reaches has a page number the write computes exactly from its start on. */
  lemma CoveredIsExact(mf: Manifest, data: Bytes, off: nat, p: nat)
    requires mf.pageSize > 0 && mf.commit < TWO_32 - 1 && |data| > 0 && Covers(mf, data, off, p)
    ensures Pgno(mf, off) == PageAt(mf.pageSize, off)
    ensures PageAt(mf.pageSize, off + |data| - 1) < TWO_32 ==> Pgno(mf, off + |data| - 1) == PageAt(mf.pageSize, off + |data| - 1)
  {
    PgnoIsExact(mf, off);
    if PageAt(mf.pageSize, off + |data| - 1) < TWO_32 { PgnoIsExact(mf, off + |data| - 1); }
  }

  lemma RealIsCovered(mf: Manifest, data: Bytes, off: nat, i: nat)
    requires mf.pageSize > 0 && Real(data, off, i) && HasPage(mf, PageAt(mf.pageSize, i))
    ensures Covers(mf, data, off, PageAt(mf.pageSize, i))
  {
    PageMono(mf.pageSize, off, i);
    PageMono(mf.pageSize, i, off + |data| - 1);
  }

  /** A missing page that is reached but not filled, and is no edge, is exactly the short aligned case. */
  lemma OnlyShortAligned(m: MountState, data: Bytes, off: nat, i: nat)
    requires m.mf.pageSize > 0 && m.mf.commit < TWO_32 - 1 && |data| > 0 && !Real(data, off, i)
    requires StaysMissing(m, data, off, PageAt(m.mf.pageSize, i)) && Covers(m.mf, data, off, PageAt(m.mf.pageSize, i))
    ensures ShortAligned(m, data, off) && PageAt(m.mf.pageSize, i) == PageAt(m.mf.pageSize, off)
    ensures |data| <= i % m.mf.pageSize == i - off
  {
    var ps, end := m.mf.pageSize, off + |data|;
    var p, lo, hi := PageAt(ps, i), PageAt(ps, off), PageAt(ps, end - 1);
    CoveredIsExact(m.mf, data, off, p);
    if i < off { PageMono(ps, i, off); } else { PageMono(ps, end - 1, i); }
    if p == lo && off % ps == 0 { AlignedStart(ps, off, i); }
    if p == hi && end % ps == 0 { AlignedEnd(ps, end, i); }
    PageSpan(ps, i, p);
    PageSpan(ps, off, lo);
  }

  lemma LosesTailIsWrong(store: Store, m: MountState, e: MountState, data: Bytes, off: nat) returns (i: nat)
    requires Sound(store, m.mf) && LosesTail(store, m, data, off) && e.mf == m.mf && e.present == m.present + EdgePages(m, data, off)
    ensures Wrong(store, e, data, off, Marks(m.mf, data, off), i)
  {
    var ps, p := m.mf.pageSize, PageAt(m.mf.pageSize, off);
    var k: nat :| |data| <= k < ps && Fetch(store, m.mf, p).value[k] != 0;
    AlignedOffset(ps, off, k);
    AlignedOffset(ps, off, |data| - 1);
    assert off + (|data| - 1) == off + |data| - 1;
    PgnoIsExact(m.mf, off);
    PgnoIsExact(m.mf, off + |data| - 1);
    i := off + k;
  }

  lemma HidesPageIsWrong(store: Store, m: MountState, e: MountState, data: Bytes, off: nat) returns (i: nat)
    requires Sound(store, m.mf) && HidesPage(store, m, data, off) && e.mf == m.mf && e.present == m.present + EdgePages(m, data, off)
    ensures Wrong(store, e, data, off, Marks(m.mf, data, off), i)
  {
    var p :| p in Marks(m.mf, data, off) && StaysMissing(m, data, off, p) && !Covers(m.mf, data, off, p) && Shows(store, m.mf, p);
    i :| PageAt(m.mf.pageSize, i) == p && ManifestAt(store, m.mf, i) != 0;
    if Real(data, off, i) { RealIsCovered(m.mf, data, off, i); }
  }

  lemma LeavesStaleIsWrong(store: Store, m: MountState, e: MountState, data: Bytes, off: nat) returns (i: nat)
    requires Sound(store, m.mf) && LeavesStale(store, m, data, off) && e.mf == m.mf && e.present == m.present + EdgePages(m, data, off)
    ensures Wrong(store, e, data, off, Marks(m.mf, data, off), i)
  {
    var p :| Covers(m.mf, data, off, p) && p !in Marks(m.mf, data, off) && StaysMissing(m, data, off, p) && Changes(store, m.mf, data, off, p);
    i :| Real(data, off, i) && PageAt(m.mf.pageSize, i) == p && data[i - off] != ManifestAt(store, m.mf, i);
  }

  lemma WrongHasACause(store: Store, m: MountState, e: MountState, data: Bytes, off: nat, i: nat)
    requires Sound(store, m.mf) && |data| > 0 && e.mf == m.mf && e.present == m.present + EdgePages(m, data, off)
    requires Wrong(store, e, data, off, Marks(m.mf, data, off), i)
    ensures LosesTail(store, m, data, off) || HidesPage(store, m, data, off) || LeavesStale(store, m, data, off)
  {
    var p := PageAt(m.mf.pageSize, i);
    assert StaysMissing(m, data, off, p);
    if Real(data, off, i) {
      RealIsCovered(m.mf, data, off, i);
      assert Changes(store, m.mf, data, off, p);
    } else if Covers(m.mf, data, off, p) {
      OnlyShortAligned(m, data, off, i);
    } else {
      assert Shows(store, m.mf, p);
    }
  }

  /** A write that succeeds does to the plain file what pwrite does if and only if it loses no tail, hides
      no page and leaves none stale; one that fails leaves the plain file alone. */
  lemma {:induction false} WriteRefinesIff(store: Store, m: MountState, env: Env, data: Bytes, off: nat)
    requires Inv(store, m) && SoundEnv(store, env)
    ensures var (w, r) := AfterWrite(store, m, env, data, off);
            && w.mf == m.mf
            && (r.Done? ==> (Plain(store, w) == Overwrite(Plain(store, m), data, off) <==> !Garbles(store, m, data, off)))
            && (r.EIO? ==> Inv(store, w) && Plain(store, w) == Plain(store, m))
  {
    if |data| > 0 {
      var e := WriteShape(store, m, env, data, off);
      if AfterWrite(store, m, env, data, off).1.Done? { EdgedWriteRefinesIff(store, m, e, data, off); }
    }
  }

  lemma EdgedWriteRefinesIff(store: Store, m: MountState, e: MountState, data: Bytes, off: nat)
    requires Inv(store, m) && |data| > 0 && Fetched(store, m, e, EdgePages(m, data, off))
    ensures Plain(store, Written(e, data, off, Pgno(m.mf, off), Pgno(m.mf, off + |data| - 1))) == Overwrite(Plain(store, m), data, off) <==>
            !Garbles(store, m, data, off)
  {
    WrittenRefinesIff(store, e, data, off, Pgno(m.mf, off), Pgno(m.mf, off + |data| - 1));
    WrongIff(store, m, e, data, off);
  }

  lemma WrongIff(store: Store, m: MountState, e: MountState, data: Bytes, off: nat)
    requires Sound(store, m.mf) && |data| > 0 && e.mf == m.mf && e.present == m.present + EdgePages(m, data, off)
    ensures SomeWrong(store, e, data, off, Marks(m.mf, data, off)) <==> Garbles(store, m, data, off)
  {
    if LosesTail(store, m, data, off) {
      var i := LosesTailIsWrong(store, m, e, data, off);
    } else if HidesPage(store, m, data, off) {
      var i := HidesPageIsWrong(store, m, e, data, off);
    } else if LeavesStale(store, m, data, off) {
      var i := LeavesStaleIsWrong(store, m, e, data, off);
    } else if i: nat :| Wrong(store, e, data, off, Marks(m.mf, data, off), i) {
      WrongHasACause(store, m, e, data, off, i);
    }
  }

  // ---------------------------------------------------------------------
  // Clean bits and holes after a write
  // ---------------------------------------------------------------------

  lemma WrittenByte(m: MountState, data: Bytes, off: nat, lo: nat, hi: nat, i: nat)
    requires m.mf.pageSize > 0 && |data| > 0 && i < |m.backing|
    ensures |m.backing| <= |Written(m, data, off, lo, hi).backing|
    ensures Written(m, data, off, lo, hi).backing[i] == if Real(data, off, i) then data[i - off] else m.backing[i]
  {
  }

  /** A page that was the manifest's is still, after the write, exactly when the write changes no byte of it. */
  lemma CleanAfter(store: Store, m: MountState, data: Bytes, off: nat, lo: nat, hi: nat, p: nat)
    requires CleanInv(store, m) && |data| > 0 && p in m.clean
    ensures Fetch(store, m.mf, p) == Some(PageBytes(Written(m, data, off, lo, hi), p)) <==> !Changes(store, m.mf, data, off, p)
  {
    var w, ps, d := Written(m, data, off, lo, hi), m.mf.pageSize, Fetch(store, m.mf, p).value;
    forall i: nat | PageAt(ps, i) == p
      ensures i < |m.backing| && w.backing[i] == (if Real(data, off, i) then data[i - off] else d[i % ps]) && ManifestAt(store, m.mf, i) == d[i % ps]
    {
      PageByte(m, p, i);
      WrittenByte(m, data, off, lo, hi, i);
    }
    SamePage(w, p, d);
    if Changes(store, m.mf, data, off, p) {
      var i: nat :| Real(data, off, i) && PageAt(ps, i) == p && data[i - off] != ManifestAt(store, m.mf, i);
      assert w.backing[i] != d[i % ps];
    }
  }

  /** A write that succeeds keeps every clean bit true if and only if it leaves none on a page it changed. */
  lemma {:induction false} WriteKeepsCleanIff(store: Store, m: MountState, env: Env, data: Bytes, off: nat)
    requires CleanInv(store, m) && SoundEnv(store, env)
    ensures var (w, r) := AfterWrite(store, m, env, data, off);
            && w.mf == m.mf
            && (r.Done? ==> (CleanInv(store, w) <==> !StaleClean(store, m, data, off)))
            && (r.EIO? ==> CleanInv(store, w))
  {
    if |data| > 0 {
      var e := WriteShape(store, m, env, data, off);
      if AfterWrite(store, m, env, data, off).1.Done? { WrittenCleanIff(store, m, e, data, off); }
    }
  }

  predicate StaysClean(m: MountState, data: Bytes, off: nat, p: nat)
    requires m.mf.pageSize > 0 && |data| > 0
  {
    (p in m.clean || (p !in m.present && Edge(m.mf, data, off, p))) && p !in Marks(m.mf, data, off)
  }

  lemma WrittenCleanIff(store: Store, m: MountState, e: MountState, data: Bytes, off: nat)
    requires CleanInv(store, m) && |data| > 0 && Fetched(store, m, e, EdgePages(m, data, off))
    ensures CleanInv(store, Written(e, data, off, Pgno(m.mf, off), Pgno(m.mf, off + |data| - 1))) <==> !StaleClean(store, m, data, off)
  {
    var lo, hi := Pgno(m.mf, off), Pgno(m.mf, off + |data| - 1);
    var w := Written(e, data, off, lo, hi);
    forall p | p in w.clean ensures StaysClean(m, data, off, p) && p in e.clean {}
    if StaleClean(store, m, data, off) {
      var p :| Covers(m.mf, data, off, p) && p !in Marks(m.mf, data, off) && Changes(store, m.mf, data, off, p)
               && (p in m.clean || (p !in m.present && Edge(m.mf, data, off, p)));
      assert p in w.clean && p in e.clean;
      CleanAfter(store, e, data, off, lo, hi, p);
    } else {
      forall p | p in w.clean ensures Fetch(store, w.mf, p) == Some(PageBytes(w, p)) {
        CleanAfter(store, e, data, off, lo, hi, p);
        if Changes(store, m.mf, data, off, p) { ChangedIsCovered(store, m.mf, data, off, p); }
      }
    }
  }

  lemma ChangedIsCovered(store: Store, mf: Manifest, data: Bytes, off: nat, p: nat)
    requires mf.pageSize > 0 && HasPage(mf, p) && Changes(store, mf, data, off, p)
    ensures |data| > 0 && Covers(mf, data, off, p)
  {
    var i: nat :| Real(data, off, i) && PageAt(mf.pageSize, i) == p && data[i - off] != ManifestAt(store, mf, i);
    RealIsCovered(mf, data, off, i);
  }

  /** The missing pages are still holes after the write exactly when it puts only zeros on them. */
  lemma WrittenHoleIff(store: Store, m: MountState, e: MountState, data: Bytes, off: nat)
    requires Inv(store, m) && |data| > 0 && Fetched(store, m, e, EdgePages(m, data, off))
    ensures HoleInv(Written(e, data, off, Pgno(m.mf, off), Pgno(m.mf, off + |data| - 1))) <==> !FillsHole(m, data, off)
  {
    var ps, lo, hi := m.mf.pageSize, Pgno(m.mf, off), Pgno(m.mf, off + |data| - 1);
    var w := Written(e, data, off, lo, hi);
    if FillsHole(m, data, off) {
      var i: nat :| Real(data, off, i) && PageAt(ps, i) !in Marks(m.mf, data, off) && StaysMissing(m, data, off, PageAt(ps, i)) && data[i - off] != 0;
      var p := PageAt(ps, i);
      HoleAfter(store, e, data, off, lo, hi, p);
      assert p !in w.present && !OnlyZeros(ps, data, off, p);
    } else {
      forall p: nat | HasPage(w.mf, p) && p !in w.present ensures PageBytes(w, p) == Zeros(ps) {
        HoleAfter(store, e, data, off, lo, hi, p);
        assert StaysMissing(m, data, off, p) && p !in Marks(m.mf, data, off);
      }
    }
  }

  ghost predicate OnlyZeros(ps: nat, data: Bytes, off: nat, p: nat)
    requires ps > 0
  {
    forall i: nat :: PageAt(ps, i) == p && Real(data, off, i) ==> data[i - off] == 0
  }

  lemma HoleAfter(store: Store, m: MountState, data: Bytes, off: nat, lo: nat, hi: nat, p: nat)
    requires CleanInv(store, m) && HoleInv(m) && |data| > 0 && HasPage(m.mf, p) && p !in m.present
    ensures PageBytes(Written(m, data, off, lo, hi), p) == Zeros(m.mf.pageSize) <==> OnlyZeros(m.mf.pageSize, data, off, p)
  {
    var w, ps := Written(m, data, off, lo, hi), m.mf.pageSize;
    forall i: nat | PageAt(ps, i) == p ensures i < |m.backing| && w.backing[i] == if Real(data, off, i) then data[i - off] else 0 {
      PageByte(m, p, i);
      WrittenByte(m, data, off, lo, hi, i);
    }
    SamePage(w, p, Zeros(ps));
  }

  /** What a caller checks before a write. */
  ghost predicate Harmless(store: Store, m: MountState, data: Bytes, off: nat)
    requires m.mf.pageSize > 0
  {
    !Garbles(store, m, data, off) && !StaleClean(store, m, data, off) && !FillsHole(m, data, off)
  }

  /** A write that succeeds is a pwrite on the plain file and keeps the mount sound if and only if it is harmless. */
  lemma {:induction false} WriteIsSoundIff(store: Store, m: MountState, env: Env, data: Bytes, off: nat)
    requires Inv(store, m) && SoundEnv(store, env)
    ensures var (w, r) := AfterWrite(store, m, env, data, off);
            r.Done? ==> (w.mf == m.mf && Inv(store, w) && Plain(store, w) == Overwrite(Plain(store, m), data, off) <==> Harmless(store, m, data, off))
  {
    WriteRefinesIff(store, m, env, data, off);
    WriteKeepsCleanIff(store, m, env, data, off);
    if |data| > 0 {
      var e := WriteShape(store, m, env, data, off);
      if AfterWrite(store, m, env, data, off).1.Done? { WrittenHoleIff(store, m, e, data, off); }
    }
  }

  /** Within 32-bit page numbers a lost tail is all that can go wrong. */
  lemma {:induction false} AddressableMarks(store: Store, m: MountState, data: Bytes, off: nat)
    requires Sound(store, m.mf) && Addressable(m.mf, off, |data|)
    ensures !HidesPage(store, m, data, off) && !LeavesStale(store, m, data, off) && !StaleClean(store, m, data, off) && !FillsHole(m, data, off)
  {
    if |data| > 0 {
      AddressablePages(m.mf, off, |data|, off);
      AddressablePages(m.mf, off, |data|, off + |data| - 1);
      PgnoIsExact(m.mf, off);
      PgnoIsExact(m.mf, off + |data| - 1);
      forall p: nat ensures p in Marks(m.mf, data, off) <==> Covers(m.mf, data, off, p) {}
      forall i: nat | Real(data, off, i) && HasPage(m.mf, PageAt(m.mf.pageSize, i)) ensures PageAt(m.mf.pageSize, i) in Marks(m.mf, data, off) {
        RealIsCovered(m.mf, data, off, i);
      }
    }
  }

  // ---------------------------------------------------------------------
  // Remounting
  // ---------------------------------------------------------------------

  /** A page with data but no presence bit, or the other way round, that shows which. */
  ghost predicate RemountShifts(store: Store, m: MountState)
    requires m.mf.pageSize > 0
  {
    exists i: nat :: Shifts(store, m, i)
  }

  predicate Shifts(store: Store, m: MountState, i: nat)
    requires m.mf.pageSize > 0
  {
    var p := PageAt(m.mf.pageSize, i);
    HasPage(m.mf, p) && i < |m.backing| && (p in m.present) != (p in m.extents) && m.backing[i] != ManifestAt(store, m.mf, i)
  }

  /** A remount always leaves a sound mount, and one that stands for the same file if and only if no page's
      presence bit and data disagree where it shows. */
  lemma {:induction false} RemountRefinesIff(store: Store, m: MountState)
    requires CleanInv(store, m) && ExtentInv(m)
    ensures Inv(store, Remounted(m)) && ExtentInv(Remounted(m)) && Matched(Remounted(m))
    ensures Plain(store, Remounted(m)) == Plain(store, m) <==> !RemountShifts(store, m)
  {
    var e := Remounted(m);
    forall p: nat | HasPage(m.mf, p) ensures PageBytes(e, p) == PageBytes(m, p) {}
    if RemountShifts(store, m) {
      var i: nat :| Shifts(store, m, i);
      assert Plain(store, e)[i] != Plain(store, m)[i];
    } else {
      forall i | 0 <= i < |m.backing| ensures PlainAt(store, e, i) == PlainAt(store, m, i) { assert !Shifts(store, m, i); }
    }
  }

  lemma MatchedDoesNotShift(store: Store, m: MountState)
    requires m.mf.pageSize > 0 && Matched(m)
    ensures !RemountShifts(store, m)
  {
  }

  /** Every write leaves data on the pages it reaches. */
  lemma WrittenExtents(store: Store, m: MountState, data: Bytes, off: nat, lo: nat, hi: nat)
    requires CleanInv(store, m) && ExtentInv(m) && |data| > 0
    ensures ExtentInv(Written(m, data, off, lo, hi))
  {
    var w, ps := Written(m, data, off, lo, hi), m.mf.pageSize;
    forall p: nat | HasPage(w.mf, p) && p !in w.extents ensures PageBytes(w, p) == PageBytes(m, p) {
      forall i: nat | i < |m.backing| && PageAt(ps, i) == p ensures w.backing[i] == m.backing[i] {
        WrittenByte(m, data, off, lo, hi, i);
        if Real(data, off, i) { RealIsCovered(m.mf, data, off, i); }
      }
      PageUntouched(m, w, p);
    }
  }

  /** Whatever the answer, extents stay true; and within 32-bit page numbers presence bits stay what a
      remount would read off the file. */
  lemma {:induction false} WriteKeepsExtents(store: Store, m: MountState, env: Env, data: Bytes, off: nat)
    requires CleanInv(store, m) && SoundEnv(store, env) && ExtentInv(m)
    ensures var (w, r) := AfterWrite(store, m, env, data, off);
            ExtentInv(w) && (Matched(m) && Addressable(m.mf, off, |data|) ==> Matched(w))
  {
    if |data| > 0 {
      var e := WriteShape(store, m, env, data, off);
      if AfterWrite(store, m, env, data, off).1.Done? {
        WrittenExtents(store, e, data, off, Pgno(m.mf, off), Pgno(m.mf, off + |data| - 1));
        if Addressable(m.mf, off, |data|) { AddressableSpans(m.mf, data, off); }
      }
    }
  }

  lemma AddressableSpans(mf: Manifest, data: Bytes, off: nat)
    requires mf.pageSize > 0 && |data| > 0 && Addressable(mf, off, |data|)
    ensures Marks(mf, data, off) == Spans(mf, off, |data|)
  {
    AddressablePages(mf, off, |data|, off);
    AddressablePages(mf, off, |data|, off + |data| - 1);
    PgnoIsExact(mf, off);
    PgnoIsExact(mf, off + |data| - 1);
  }

  // ---------------------------------------------------------------------
  // Runs on many mounts
  // ---------------------------------------------------------------------

  type Id = string

  /** One handler on one mount and its answer: `pick` says which mount each clone attempt finds, `answers`
      which fetches succeed. */
  datatype Step =
    | Read(id: Id, off: nat, n: nat, result: Outcome<Bytes>, pick: nat -> Option<Id>, answers: nat -> bool)
    | Write(id: Id, data: Bytes, off: nat, acked: Outcome<nat>, pick: nat -> Option<Id>, answers: nat -> bool)
    | Remount(id: Id)

  type Mounts = map<Id, MountState>

  /** The clone provider skips the requester. */
  function EnvOf(mounts: Mounts, t: Step): Env {
    if t.Remount? then Env((p: nat) => None, (p: nat) => false)
    else Env((p: nat) => var s := t.pick(p); if s.Some? && s.value != t.id && s.value in mounts then Some(mounts[s.value]) else None, t.answers)
  }

  /** The handler runs, and the step carries its answer. */
  ghost predicate Takes(store: Store, mounts: Mounts, t: Step, after: Mounts) {
    && t.id in mounts && mounts[t.id].mf.pageSize > 0
    && var m, env := mounts[t.id], EnvOf(mounts, t);
       match t
       case Read(id, off, n, result, _, _) =>
         var (e, r) := AfterRead(store, m, env, off, n);
         after == mounts[id := e] && result == r
       case Write(id, data, off, acked, _, _) =>
         var (e, r) := AfterWrite(store, m, env, data, off);
         after == mounts[id := e] && acked == r
       case Remount(id) => after == mounts[id := Remounted(m)]
  }

  ghost predicate AllClean(store: Store, mounts: Mounts) { forall id :: id in mounts ==> CleanInv(store, mounts[id]) && ExtentInv(mounts[id]) }

  ghost predicate AllSound(store: Store, mounts: Mounts) { forall id :: id in mounts ==> Inv(store, mounts[id]) && ExtentInv(mounts[id]) }

  // Clean bits --------------------------------------------------------------

  /** A step of any kind, but for an acknowledged write that leaves a clean bit on a page it changed. */
  ghost predicate CleanStep(store: Store, mounts: Mounts, t: Step, after: Mounts) {
    && Takes(store, mounts, t, after)
    && (t.Write? && t.acked.Done? ==> !StaleClean(store, mounts[t.id], t.data, t.off))
  }

  lemma {:induction false} ReadKeepsClean(store: Store, m: MountState, env: Env, off: nat, n: nat)
    requires CleanInv(store, m) && SoundEnv(store, env)
    ensures SameFile(store, m, AfterRead(store, m, env, off, n).0)
  {
    if n > 0 { EnsureRefines(store, m, env, Max1(Pgno(m.mf, off)), Min(Pgno(m.mf, off + n - 1), m.mf.commit)); }
  }

  lemma CleanStepKeeps(store: Store, mounts: Mounts, t: Step, after: Mounts)
    requires AllClean(store, mounts) && CleanStep(store, mounts, t, after)
    ensures after.Keys == mounts.Keys && AllClean(store, after)
  {
    var env := EnvOf(mounts, t);
    assert SoundEnv(store, env);
    match t
    case Read(k, off, n, _, _, _) => ReadKeepsClean(store, mounts[k], env, off, n);
    case Write(k, data, off, _, _, _) =>
      WriteKeepsCleanIff(store, mounts[k], env, data, off);
      WriteKeepsExtents(store, mounts[k], env, data, off);
    case Remount(k) => RemountRefinesIff(store, mounts[k]);
  }

  ghost predicate CleanRun(store: Store, states: seq<Mounts>, steps: seq<Step>) {
    && |states| == |steps| + 1 && AllClean(store, states[0])
    && forall k: nat :: k < |steps| ==> CleanStepAt(store, states, steps, k)
  }

  ghost predicate CleanStepAt(store: Store, states: seq<Mounts>, steps: seq<Step>, k: nat)
    requires k < |steps| < |states|
  {
    CleanStep(store, states[k], steps[k], states[k + 1])
  }

  lemma {:induction false} CleanRunKeeps(store: Store, states: seq<Mounts>, steps: seq<Step>, k: nat)
    requires CleanRun(store, states, steps) && k <= |steps|
    ensures AllClean(store, states[k])
    decreases k
  {
    if k > 0 {
      CleanRunKeeps(store, states, steps, k - 1);
      assert CleanStepAt(store, states, steps, k - 1);
      CleanStepKeeps(store, states[k - 1], steps[k - 1], states[k]);
    }
  }

  /** A clean bit is never wrong: the page is present and is the manifest's page, at every point of every
      run, next to lost tails, hidden pages and skipped reads as well. */
  lemma {:induction false} CleanMeansManifest(store: Store, states: seq<Mounts>, steps: seq<Step>, k: nat, id: Id, p: nat)
    requires CleanRun(store, states, steps) && k <= |steps| && id in states[k] && p in states[k][id].clean
    ensures p in states[k][id].present && HasPage(states[k][id].mf, p) && states[k][id].mf.pageSize > 0
    ensures Fetch(store, states[k][id].mf, p) == Some(PageBytes(states[k][id], p))
  {
    CleanRunKeeps(store, states, steps, k);
  }

  // Contents ----------------------------------------------------------------

  /** A step of any kind, but for an acknowledged write that is not harmless and a remount that shifts a page. */
  ghost predicate SoundStep(store: Store, mounts: Mounts, t: Step, after: Mounts) {
    && Takes(store, mounts, t, after)
    && (t.Write? && t.acked.Done? ==> Harmless(store, mounts[t.id], t.data, t.off))
    && (t.Remount? ==> !RemountShifts(store, mounts[t.id]))
  }

  /** The same step on a plain file: an acknowledged write is a pwrite, anything else changes nothing. */
  function PlainNext(file: Bytes, t: Step, id: Id): Bytes {
    if t.Write? && t.id == id && t.acked.Done? then Overwrite(file, t.data, t.off) else file
  }

  function PlainRun(file: Bytes, steps: seq<Step>, id: Id): Bytes {
    if steps == [] then file else PlainNext(PlainRun(file, steps[..|steps| - 1], id), steps[|steps| - 1], id)
  }

  lemma PlainRunStep(file: Bytes, steps: seq<Step>, k: nat, id: Id)
    requires 0 < k <= |steps|
    ensures PlainRun(file, steps[..k], id) == PlainNext(PlainRun(file, steps[..k - 1], id), steps[k - 1], id)
  {
    assert steps[..k][..k - 1] == steps[..k - 1];
  }

  lemma StepRefines(store: Store, mounts: Mounts, t: Step, after: Mounts, id: Id)
    requires AllSound(store, mounts) && SoundStep(store, mounts, t, after) && id in mounts
    ensures id in after && Inv(store, after[id]) && ExtentInv(after[id]) && Plain(store, after[id]) == PlainNext(Plain(store, mounts[id]), t, id)
    ensures t.Read? && t.result.Done? ==>
              (t.result.value == Slice(Plain(store, mounts[t.id]), t.off, t.n) <==> !ReadSkips(store, mounts[t.id], t.off, t.n))
  {
    var env := EnvOf(mounts, t);
    assert SoundEnv(store, env);
    match t
    case Read(k, off, n, _, _, _) =>
      ReadRefinesIff(store, mounts[k], env, off, n);
      ReadKeepsClean(store, mounts[k], env, off, n);
    case Write(k, data, off, _, _, _) =>
      WriteIsSoundIff(store, mounts[k], env, data, off);
      WriteRefinesIff(store, mounts[k], env, data, off);
      WriteKeepsExtents(store, mounts[k], env, data, off);
    case Remount(k) => RemountRefinesIff(store, mounts[k]);
  }

  ghost predicate StepAt(store: Store, states: seq<Mounts>, steps: seq<Step>, k: nat)
    requires k < |steps| < |states|
  {
    SoundStep(store, states[k], steps[k], states[k + 1])
  }

  ghost predicate Run(store: Store, states: seq<Mounts>, steps: seq<Step>) {
    && |states| == |steps| + 1 && AllSound(store, states[0])
    && forall k: nat :: k < |steps| ==> StepAt(store, states, steps, k)
  }

  lemma StepAtRefines(store: Store, states: seq<Mounts>, steps: seq<Step>, k: nat, id: Id)
    requires k < |steps| < |states| && StepAt(store, states, steps, k) && AllSound(store, states[k]) && id in states[k]
    ensures states[k + 1].Keys == states[k].Keys && Inv(store, states[k + 1][id]) && ExtentInv(states[k + 1][id])
    ensures Plain(store, states[k + 1][id]) == PlainNext(Plain(store, states[k][id]), steps[k], id)
  {
    StepRefines(store, states[k], steps[k], states[k + 1], id);
  }

  lemma {:induction false} RunSound(store: Store, states: seq<Mounts>, steps: seq<Step>, k: nat)
    requires Run(store, states, steps) && k <= |steps|
    ensures states[k].Keys == states[0].Keys && AllSound(store, states[k])
    decreases k
  {
    if k > 0 {
      RunSound(store, states, steps, k - 1);
      StepAtSound(store, states, steps, k - 1);
    }
  }

  lemma StepAtSound(store: Store, states: seq<Mounts>, steps: seq<Step>, k: nat)
    requires k < |steps| < |states| && StepAt(store, states, steps, k) && AllSound(store, states[k])
    ensures states[k + 1].Keys == states[k].Keys && AllSound(store, states[k + 1])
  {
    var after := states[k + 1];
    assert after.Keys == states[k].Keys;
    forall id | id in after ensures Inv(store, after[id]) && ExtentInv(after[id]) { StepAtRefines(store, states, steps, k, id); }
  }

  lemma StandsStep(store: Store, states: seq<Mounts>, steps: seq<Step>, id: Id, k: nat, file: Bytes)
    requires 0 < k <= |steps| < |states| && StepAt(store, states, steps, k - 1) && AllSound(store, states[k - 1]) && id in states[k - 1]
    requires Plain(store, states[k - 1][id]) == PlainRun(file, steps[..k - 1], id)
    ensures id in states[k] && Inv(store, states[k][id]) && Plain(store, states[k][id]) == PlainRun(file, steps[..k], id)
  {
    StepAtRefines(store, states, steps, k - 1, id);
    PlainRunStep(file, steps, k, id);
  }

  /** Over every run whose acknowledged writes are harmless, every mount stands for the plain file with the
      same acknowledged writes. */
  lemma {:induction false} RunRefines(store: Store, states: seq<Mounts>, steps: seq<Step>, id: Id, k: nat)
    requires Run(store, states, steps) && k <= |steps| && id in states[0]
    ensures id in states[k] && Inv(store, states[k][id])
    ensures Plain(store, states[k][id]) == PlainRun(Plain(store, states[0][id]), steps[..k], id)
    decreases k
  {
    if k == 0 {
      assert steps[..0] == [];
    } else {
      RunRefines(store, states, steps, id, k - 1);
      RunSound(store, states, steps, k - 1);
      StandsStep(store, states, steps, id, k, Plain(store, states[0][id]));
    }
  }

  /** Every read of such a run that succeeds returns what that plain file holds, exactly unless it skips a page. */
  lemma {:induction false} ReadsReadThePlainFileIff(store: Store, states: seq<Mounts>, steps: seq<Step>, k: nat)
    requires Run(store, states, steps) && k < |steps| && steps[k].Read? && steps[k].result.Done?
    ensures var t := steps[k];
            && t.id in states[0] && states[0][t.id].mf.pageSize > 0 && t.id in states[k] && states[k][t.id].mf.pageSize > 0
            && (t.result.value == Slice(PlainRun(Plain(store, states[0][t.id]), steps[..k], t.id), t.off, t.n)
                <==> !ReadSkips(store, states[k][t.id], t.off, t.n))
  {
    RunSound(store, states, steps, k);
    assert StepAt(store, states, steps, k);
    RunRefines(store, states, steps, steps[k].id, k);
    StepRefines(store, states[k], steps[k], states[k + 1], steps[k].id);
  }

  // Remounts of ordinary runs -----------------------------------------------

  predicate Ordinary(mounts: Mounts, t: Step) { t.Write? ==> t.id in mounts && Addressable(mounts[t.id].mf, t.off, |t.data|) }

  predicate OrdinaryAt(states: seq<Mounts>, steps: seq<Step>, k: nat)
    requires k < |steps| < |states|
  {
    Ordinary(states[k], steps[k])
  }

  ghost predicate AllMatched(mounts: Mounts) { forall id :: id in mounts ==> Matched(mounts[id]) }

  lemma MatchedStep(store: Store, mounts: Mounts, t: Step, after: Mounts)
    requires AllClean(store, mounts) && AllMatched(mounts) && Takes(store, mounts, t, after) && Ordinary(mounts, t)
    ensures AllMatched(after)
  {
    var env := EnvOf(mounts, t);
    assert SoundEnv(store, env);
    match t
    case Read(k, off, n, _, _, _) => ReadKeepsClean(store, mounts[k], env, off, n);
    case Write(k, data, off, _, _, _) => WriteKeepsExtents(store, mounts[k], env, data, off);
    case Remount(k) => RemountRefinesIff(store, mounts[k]);
  }

  /** As long as writes keep within 32-bit page numbers, no remount at any point of any run shifts a page,
      lost tails or not. */
  lemma {:induction false} RemountsAreSafe(store: Store, states: seq<Mounts>, steps: seq<Step>, k: nat, id: Id)
    requires CleanRun(store, states, steps) && AllMatched(states[0]) && k <= |steps| && id in states[k]
    requires forall i: nat :: i < k ==> OrdinaryAt(states, steps, i)
    ensures states[k][id].mf.pageSize > 0 && !RemountShifts(store, states[k][id])
  {
    StaysMatched(store, states, steps, k);
    CleanRunKeeps(store, states, steps, k);
    MatchedDoesNotShift(store, states[k][id]);
  }

  lemma {:induction false} StaysMatched(store: Store, states: seq<Mounts>, steps: seq<Step>, k: nat)
    requires CleanRun(store, states, steps) && AllMatched(states[0]) && k <= |steps|
    requires forall i: nat :: i < k ==> OrdinaryAt(states, steps, i)
    ensures AllMatched(states[k])
    decreases k
  {
    if k > 0 {
      StaysMatched(store, states, steps, k - 1);
      CleanRunKeeps(store, states, steps, k - 1);
      assert CleanStepAt(store, states, steps, k - 1) && OrdinaryAt(states, steps, k - 1);
      MatchedStep(store, states[k - 1], steps[k - 1], states[k]);
    }
  }
}
