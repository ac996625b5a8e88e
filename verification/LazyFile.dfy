/** The lazily restored database file: a sparse backing file whose missing pages are fetched from the
    object store, or cloned from a sibling mount, when a request needs them (lazyrestore/mount.go,
    lazyrestore/mount_clone.go, lazyrestore/prepare.go). `MountState` is one mount as a value and `Mount` the
    object whose handlers update it in place. Whether an object-store fetch answers and which sibling a
    clone attempt finds are parameters of every handler. */
module LazyFile {
  import opened Base

  const PENDING_BYTE: nat := 0x4000_0000

  /** Where a page's encoded bytes lie. */
  datatype Loc = Loc(key: string, offset: int, size: int)

  datatype Manifest = Manifest(pageSize: nat, commit: nat, pages: map<nat, Loc>)

  /** What reading a location and decoding it as page pgno yields. */
  type Store = (Loc, nat) -> Option<Bytes>

  function LockPage(ps: nat): nat
    requires ps > 0
  {
    PENDING_BYTE / ps + 1
  }

  function Zeros(n: nat): (z: Bytes)
    ensures |z| == n
  {
    seq(n, _ => 0)
  }

  /** The page the manifest promises, or None when fetching it is an error. */
  function Fetch(store: Store, mf: Manifest, pgno: nat): (r: Option<Bytes>)
    requires mf.pageSize > 0
    ensures r.Some? ==> 1 <= pgno <= mf.commit && |r.value| == mf.pageSize
  {
    if pgno < 1 || pgno > mf.commit then None
    else if pgno == LockPage(mf.pageSize) then Some(Zeros(mf.pageSize))
    else if pgno !in mf.pages then None
    else
      var d := store(mf.pages[pgno], pgno);
      if d.Some? && |d.value| == mf.pageSize then d else None
  }

  /** A mount: its manifest, the backing file, the presence bits and the clean bits, and the pages on which
      the backing file has data rather than a hole. A page is a whole number of file-system blocks. */
  datatype MountState = MountState(mf: Manifest, backing: Bytes, present: set<nat>, clean: set<nat>, extents: set<nat>)

  /** NewMount: presence is read off the file's extents and no page is clean. */
  function Mounted(mf: Manifest, backing: Bytes, extents: set<nat>): MountState {
    MountState(mf, backing, set p | p in extents && HasPage(mf, p), {}, extents)
  }

  function Remounted(m: MountState): MountState { Mounted(m.mf, m.backing, m.extents) }

  // ---------------------------------------------------------------------
  // Plain files
  // ---------------------------------------------------------------------

  function Min(a: nat, b: nat): nat { if a <= b then a else b }

  /** pwrite: the file grows with zeros to reach the data. */
  function Overwrite(file: Bytes, data: Bytes, off: nat): (r: Bytes)
    ensures |r| == if |data| == 0 || off + |data| <= |file| then |file| else off + |data|
    ensures forall i :: 0 <= i < |r| ==> r[i] == if off <= i < off + |data| then data[i - off] else if i < |file| then file[i] else 0
  {
    if |data| == 0 then file
    else
      var padded := if |file| < off + |data| then file + Zeros(off + |data| - |file|) else file;
      padded[..off] + data + padded[off + |data|..]
  }

  /** pread: what the file has of the n bytes at off. */
  function Slice(file: Bytes, off: nat, n: nat): Bytes { file[Min(off, |file|)..Min(off + n, |file|)] }

  // ---------------------------------------------------------------------
  // Faulting
  // ---------------------------------------------------------------------

  function Start(mf: Manifest, pgno: nat): nat
    requires pgno >= 1
  {
    (pgno - 1) * mf.pageSize
  }

  /** pageBitmap.set: out-of-range page numbers are ignored. */
  function WithPage(bits: set<nat>, commit: nat, pgno: nat): set<nat> { if 1 <= pgno <= commit then bits + {pgno} else bits }

  predicate CanCloneFrom(src: MountState, pgno: nat, loc: Loc) {
    && 1 <= pgno <= src.mf.commit && pgno in src.mf.pages && src.mf.pages[pgno] == loc
    && pgno in src.present && pgno in src.clean
  }

  /** What one page fault meets: the sibling the clone provider finds, and whether the store answers. */
  datatype Env = Env(sibling: nat -> Option<MountState>, answers: nat -> bool)

  /** The page of a clean sibling, when the clone attempt goes through. */
  function Cloned(m: MountState, src: Option<MountState>, pgno: nat): Option<Bytes> {
    if pgno >= 1 && pgno in m.mf.pages && src.Some? && CanCloneFrom(src.value, pgno, m.mf.pages[pgno])
       && Start(src.value.mf, pgno) + m.mf.pageSize <= |src.value.backing|
    then Some(Slice(src.value.backing, Start(src.value.mf, pgno), m.mf.pageSize))
    else None
  }

  function Filled(m: MountState, pgno: nat, data: Bytes): MountState
    requires pgno >= 1
  {
    m.(backing := Overwrite(m.backing, data, Start(m.mf, pgno)),
       present := WithPage(m.present, m.mf.commit, pgno),
       clean := WithPage(m.clean, m.mf.commit, pgno),
       extents := WithPage(m.extents, m.mf.commit, pgno))
  }

  /** faultPage: a sibling's page, else the store's; None is an error. */
  function Fault(store: Store, m: MountState, env: Env, pgno: nat): Option<MountState>
    requires m.mf.pageSize > 0
  {
    var cloned := Cloned(m, env.sibling(pgno), pgno);
    if cloned.Some? then Some(Filled(m, pgno, cloned.value))
    else if !env.answers(pgno) then None
    else
      match Fetch(store, m.mf, pgno)
      case None => None
      case Some(data) => Some(Filled(m, pgno, data))
  }

  datatype Outcome<+T> = Done(value: T) | EIO

  /** The fault loop over pages lo..hi. */
  function Ensure(store: Store, m: MountState, env: Env, lo: nat, hi: nat): (MountState, bool)
    requires m.mf.pageSize > 0
    decreases hi + 1 - lo
  {
    if lo > hi then (m, true)
    else if lo in m.present then Ensure(store, m, env, lo + 1, hi)
    else
      match Fault(store, m, env, lo)
      case None => (m, false)
      case Some(m') => Ensure(store, m', env, lo + 1, hi)
  }

  /** uint32(off / ps) + 1 in 32-bit arithmetic. */
  function Pgno(mf: Manifest, off: nat): nat
    requires mf.pageSize > 0
  {
    (off / mf.pageSize % TWO_32 + 1) % TWO_32
  }

  function Max1(p: nat): nat { if p < 1 then 1 else p }

  /** ensurePagesPresent. */
  function EnsureRange(store: Store, m: MountState, env: Env, off: nat, n: nat): (MountState, bool)
    requires m.mf.pageSize > 0
  {
    if n == 0 then (m, true)
    else Ensure(store, m, env, Max1(Pgno(m.mf, off)), Min(Pgno(m.mf, off + n - 1), m.mf.commit))
  }

  function AfterRead(store: Store, m: MountState, env: Env, off: nat, n: nat): (MountState, Outcome<Bytes>)
    requires m.mf.pageSize > 0
  {
    var (m', ok) := EnsureRange(store, m, env, off, n);
    (m', if ok then Done(Slice(m'.backing, off, n)) else EIO)
  }

  /** The edge pages a write faults in first: the first if the write starts inside it, the last if it ends inside it. */
  function FaultEdge(store: Store, m: MountState, env: Env, pgno: nat, partial: bool): (MountState, bool)
    requires m.mf.pageSize > 0
  {
    if partial && pgno <= m.mf.commit && pgno !in m.present then
      match Fault(store, m, env, pgno)
      case None => (m, false)
      case Some(m') => (m', true)
    else (m, true)
  }

  predicate HasPage(mf: Manifest, p: int) { 1 <= p <= mf.commit }

  function Touched(mf: Manifest, lo: nat, hi: int): set<nat> { set p: nat | lo <= p <= hi && HasPage(mf, p) }

  function PageAt(ps: nat, i: nat): nat
    requires ps > 0
  {
    i / ps + 1
  }

  /** The pages the n bytes at off lie on. */
  function Spans(mf: Manifest, off: nat, n: nat): set<nat>
    requires mf.pageSize > 0 && n > 0
  {
    Touched(mf, PageAt(mf.pageSize, off), PageAt(mf.pageSize, off + n - 1))
  }

  function Written(m: MountState, data: Bytes, off: nat, lo: nat, hi: nat): MountState
    requires m.mf.pageSize > 0 && |data| > 0
  {
    m.(backing := Overwrite(m.backing, data, off), extents := m.extents + Spans(m.mf, off, |data|),
       present := m.present + Touched(m.mf, lo, hi), clean := m.clean - Touched(m.mf, lo, hi))
  }

  function AfterWrite(store: Store, m: MountState, env: Env, data: Bytes, off: nat): (MountState, Outcome<nat>)
    requires m.mf.pageSize > 0
  {
    if |data| == 0 then (m, Done(0))
    else
      var ps, lo, hi := m.mf.pageSize, Pgno(m.mf, off), Pgno(m.mf, off + |data| - 1);
      var (m1, ok1) := FaultEdge(store, m, env, lo, off % ps != 0);
      if !ok1 then (m1, EIO)
      else
        var (m2, ok2) := FaultEdge(store, m1, env, hi, (off + |data|) % ps != 0 && hi != lo);
        if !ok2 then (m2, EIO) else (Written(m2, data, off, lo, hi), Done(|data|))
  }

  // ---------------------------------------------------------------------
  // Seeding the presence bits
  // ---------------------------------------------------------------------

  /** A stretch of the backing file that holds data, as the file system reports it. */
  datatype Extent = Extent(start: nat, end: nat)

  predicate Ascending(es: seq<Extent>) {
    && (forall k :: 0 <= k < |es| ==> es[k].start < es[k].end)
    && (forall j, k :: 0 <= j < k < |es| ==> es[j].end <= es[k].start)
  }

  /** Some data lies on the page. */
  predicate DataOn(mf: Manifest, es: seq<Extent>, p: nat)
    requires mf.pageSize > 0 && Ascending(es)
  {
    exists k :: 0 <= k < |es| && p in Spans(mf, es[k].start, es[k].end - es[k].start)
  }

  /** Past the last page there is nothing to mark. */
  lemma PastTheEnd(mf: Manifest, off: nat)
    requires mf.pageSize > 0
    ensures off >= mf.commit * mf.pageSize <==> PageAt(mf.pageSize, off) > mf.commit
  {
    var q, ps := off / mf.pageSize, mf.pageSize;
    assert off == q * ps + off % ps;
    if q >= mf.commit { assert q * ps >= mf.commit * ps; } else { assert (q + 1) * ps <= mf.commit * ps; }
  }

  lemma LastPage(mf: Manifest)
    requires mf.commit >= 1 && mf.pageSize > 0
    ensures mf.commit * mf.pageSize >= 1 && PageAt(mf.pageSize, mf.commit * mf.pageSize - 1) == mf.commit
  {
    assert mf.commit * mf.pageSize == (mf.commit - 1) * mf.pageSize + mf.pageSize;
    PastTheEnd(mf, mf.commit * mf.pageSize - 1);
    PastTheEnd(mf.(commit := mf.commit - 1), mf.commit * mf.pageSize - 1);
  }

  lemma TouchedBeyond(mf: Manifest, lo: nat, hi: nat)
    requires hi >= mf.commit
    ensures Touched(mf, lo, hi) == Touched(mf, lo, mf.commit)
  {
  }

  lemma ClampedSpan(mf: Manifest, e: Extent, end: nat)
    requires mf.pageSize > 0 && e.start < e.end && e.start < mf.commit * mf.pageSize && end == Min(e.end, mf.commit * mf.pageSize)
    ensures Touched(mf, PageAt(mf.pageSize, e.start), PageAt(mf.pageSize, end - 1)) == Spans(mf, e.start, e.end - e.start)
  {
    if end < e.end {
      PastTheEnd(mf, e.start);
      PastTheEnd(mf, e.end - 1);
      LastPage(mf);
      TouchedBeyond(mf, PageAt(mf.pageSize, e.start), PageAt(mf.pageSize, e.end - 1));
    }
  }

  method MarkPages(mf: Manifest, bits: set<nat>, first: nat, last: nat) returns (r: set<nat>)
    ensures r == bits + Touched(mf, first, last)
  {
    r := bits;
    var pgno := first;
    TouchedStep(mf, first, first);
    while pgno <= last
      invariant first <= pgno && (first <= last ==> pgno <= last + 1) && (first > last ==> pgno == first)
      invariant r == bits + Touched(mf, first, pgno - 1)
    {
      TouchedStep(mf, first, pgno);
      r := WithPage(r, mf.commit, pgno);
      pgno := pgno + 1;
    }
    TouchedEnds(mf, first, pgno, last);
  }

  /** newPageBitmapFromFile: the walk over the data extents marks exactly the pages that hold data. */
  method SeedBitmap(mf: Manifest, es: seq<Extent>) returns (bits: set<nat>)
    requires mf.pageSize > 0 && Ascending(es)
    ensures forall p :: p in bits <==> DataOn(mf, es, p)
  {
    bits := {};
    var total := mf.commit * mf.pageSize;
    for k := 0 to |es|
      invariant forall p :: p in bits <==> exists j :: 0 <= j < k && p in Spans(mf, es[j].start, es[j].end - es[j].start)
    {
      if es[k].start >= total {
        forall j | k <= j < |es| ensures Spans(mf, es[j].start, es[j].end - es[j].start) == {} {
          PastTheEnd(mf, es[j].start);
        }
        return;
      }
      var end := Min(es[k].end, total);
      ClampedSpan(mf, es[k], end);
      bits := MarkPages(mf, bits, PageAt(mf.pageSize, es[k].start), PageAt(mf.pageSize, end - 1));
    }
  }

  // ---------------------------------------------------------------------
  // The mount object
  // ---------------------------------------------------------------------

  lemma TouchedStep(mf: Manifest, lo: nat, pgno: nat)
    requires lo <= pgno
    ensures Touched(mf, lo, pgno) == WithPage(Touched(mf, lo, pgno - 1), mf.commit, pgno)
    ensures Touched(mf, lo, lo - 1) == {}
  {
  }

  lemma TouchedEnds(mf: Manifest, lo: nat, pgno: nat, hi: nat)
    requires lo <= pgno && (pgno == hi + 1 || (pgno > mf.commit && pgno <= hi) || (pgno == lo && lo > hi))
    ensures Touched(mf, lo, pgno - 1) == Touched(mf, lo, hi)
  {
  }

  class Mount {
    const store: Store
    const mf: Manifest
    var backing: Bytes
    var bitmap: set<nat>
    var cleanBitmap: set<nat>
    var extents: set<nat>

    function State(): MountState
      reads this
    {
      MountState(mf, backing, bitmap, cleanBitmap, extents)
    }

    /** A mount starts with the presence bits the file's data extents show and no clean bits. */
    constructor (store: Store, mf: Manifest, backing: Bytes, extents: set<nat>)
      requires mf.pageSize > 0
      ensures this.store == store && State() == Mounted(mf, backing, extents)
    {
      this.store, this.mf, this.backing, this.extents, this.cleanBitmap := store, mf, backing, extents, {};
      this.bitmap := set p | p in extents && HasPage(mf, p);
    }

    method Read(off: nat, n: nat, env: Env) returns (r: Outcome<Bytes>)
      requires mf.pageSize > 0
      modifies this
      ensures (State(), r) == old(AfterRead(store, State(), env, off, n))
    {
      var ok := EnsurePagesPresent(off, n, env);
      if !ok { return EIO; }
      r := Done(Slice(backing, off, n));
    }

    method EnsurePagesPresent(off: nat, n: nat, env: Env) returns (ok: bool)
      requires mf.pageSize > 0
      modifies this
      ensures (State(), ok) == old(EnsureRange(store, State(), env, off, n))
    {
      if n == 0 { return true; }
      var lo, hi := Pgno(mf, off), Pgno(mf, off + n - 1);
      if lo < 1 { lo := 1; }
      if hi > mf.commit { hi := mf.commit; }
      var pgno := lo;
      while pgno <= hi
        invariant Ensure(store, State(), env, pgno, hi) == old(Ensure(store, State(), env, lo, hi))
        decreases hi + 1 - pgno
      {
        if pgno !in bitmap {
          var fine := FaultPage(pgno, env);
          if !fine { return false; }
        }
        pgno := pgno + 1;
      }
      ok := true;
    }

    method FaultPage(pgno: nat, env: Env) returns (ok: bool)
      requires mf.pageSize > 0
      modifies this
      ensures var r := old(Fault(store, State(), env, pgno));
              ok == r.Some? && State() == if ok then r.value else old(State())
    {
      var page := Cloned(State(), env.sibling(pgno), pgno);
      if page.None? {
        if !env.answers(pgno) { return false; }
        page := Fetch(store, mf, pgno);
        if page.None? { return false; }
      }
      backing := Overwrite(backing, page.value, Start(mf, pgno));
      extents := WithPage(extents, mf.commit, pgno);
      bitmap, cleanBitmap := WithPage(bitmap, mf.commit, pgno), WithPage(cleanBitmap, mf.commit, pgno);
      ok := true;
    }

    /** Faults in a page the write covers in part, unless it is there or past the end. */
    method FaultPartial(pgno: nat, partial: bool, env: Env) returns (ok: bool)
      requires mf.pageSize > 0
      modifies this
      ensures (State(), ok) == old(FaultEdge(store, State(), env, pgno, partial))
    {
      ok := true;
      if partial && pgno <= mf.commit && pgno !in bitmap { ok := FaultPage(pgno, env); }
    }

    method Write(data: Bytes, off: nat, env: Env) returns (r: Outcome<nat>)
      requires mf.pageSize > 0
      modifies this
      ensures (State(), r) == old(AfterWrite(store, State(), env, data, off))
    {
      if |data| == 0 { return Done(0); }
      var lo, hi := Pgno(mf, off), Pgno(mf, off + |data| - 1);
      var startPartial, endPartial := off % mf.pageSize != 0, (off + |data|) % mf.pageSize != 0;
      var fine := FaultPartial(lo, startPartial, env);
      if !fine { return EIO; }
      fine := FaultPartial(hi, endPartial && hi != lo, env);
      if !fine { return EIO; }
      ClearClean(lo, hi);
      backing, extents := Overwrite(backing, data, off), extents + Spans(mf, off, |data|);
      SetPresent(lo, hi);
      r := Done(|data|);
    }

    /** The loop that clears the clean bits of the pages about to be written. */
    method ClearClean(lo: nat, hi: nat)
      modifies `cleanBitmap
      ensures cleanBitmap == old(cleanBitmap) - Touched(mf, lo, hi)
    {
      var pgno := lo;
      TouchedStep(mf, lo, lo);
      while pgno <= hi && pgno <= mf.commit
        invariant lo <= pgno && (lo <= hi ==> pgno <= hi + 1) && (lo > hi ==> pgno == lo)
        invariant cleanBitmap == old(cleanBitmap) - Touched(mf, lo, pgno - 1)
        decreases hi + 1 - pgno
      {
        TouchedStep(mf, lo, pgno);
        if HasPage(mf, pgno) { cleanBitmap := cleanBitmap - {pgno}; }
        pgno := pgno + 1;
      }
      TouchedEnds(mf, lo, pgno, hi);
    }

    /** The loop that marks the written pages present. */
    method SetPresent(lo: nat, hi: nat)
      modifies `bitmap
      ensures bitmap == old(bitmap) + Touched(mf, lo, hi)
    {
      var pgno := lo;
      TouchedStep(mf, lo, lo);
      while pgno <= hi && pgno <= mf.commit
        invariant lo <= pgno && (lo <= hi ==> pgno <= hi + 1) && (lo > hi ==> pgno == lo)
        invariant bitmap == old(bitmap) + Touched(mf, lo, pgno - 1)
        decreases hi + 1 - pgno
      {
        TouchedStep(mf, lo, pgno);
        bitmap := WithPage(bitmap, mf.commit, pgno);
        pgno := pgno + 1;
      }
      TouchedEnds(mf, lo, pgno, hi);
    }
  }
}
