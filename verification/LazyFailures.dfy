/** Where the lazily restored file breaks its promise: writes, reads and remounts, on mounts as the restore
    leaves them, that a plain file would answer differently. Page 1 is fetched before the first mount and
    every page but the lock page is listed. */
module LazyFailures {
  import opened Base
  import opened LazyFile
  import opened LazyRefinement

  predicate PageSizeOk(ps: nat) { 512 <= ps <= 65536 }

  function Sevens(ps: nat): (d: Bytes)
    ensures |d| == ps && forall i :: 0 <= i < ps ==> d[i] == 7
  {
    seq(ps, _ => 7)
  }

  /** A store whose every page is sevens. */
  function SevenStore(ps: nat): Store { (l: Loc, p: nat) => Some(Sevens(ps)) }

  lemma LockPageIsFar(ps: nat)
    requires PageSizeOk(ps)
    ensures 2 < LockPage(ps) < TWO_32 - 2
  {
    var q := PENDING_BYTE / ps;
    assert PENDING_BYTE == q * ps + PENDING_BYTE % ps;
    if q < 2 { MulMono(q, 1, ps); }
  }

  /** What the restore leaves: page 1 fetched, nothing clean, every page but the lock page listed. */
  ghost predicate Prepared(m: MountState) {
    && m.mf.pageSize > 0 && 1 in m.present && m.present == m.extents && m.clean <= m.present
    && forall p: nat :: HasPage(m.mf, p) && p != LockPage(m.mf.pageSize) ==> p in m.mf.pages
  }

  // ---------------------------------------------------------------------
  // Two pages
  // ---------------------------------------------------------------------

  /** A file of two pages, the second not fetched yet. */
  function TwoPages(ps: nat): MountState {
    MountState(Manifest(ps, 2, map[1 := Loc("base", 0, 64), 2 := Loc("base", 64, 64)]), Sevens(ps) + Zeros(ps), {1}, {}, {1})
  }

  lemma TwoPagesInv(ps: nat)
    requires PageSizeOk(ps)
    ensures Prepared(TwoPages(ps)) && Inv(SevenStore(ps), TwoPages(ps)) && Fetch(SevenStore(ps), TwoPages(ps).mf, 2) == Some(Sevens(ps))
  {
    var m := TwoPages(ps);
    LockPageIsFar(ps);
    forall p: nat | HasPage(m.mf, p) && p !in m.present ensures PageBytes(m, p) == Zeros(ps) { assert p == 2; }
  }

  /** One byte written at the start of the missing page: the byte after it reads zero from then on. */
  lemma {:induction false} AlignedShortWriteLosesTheTail(env: Env, ps: nat)
    requires PageSizeOk(ps)
    ensures var store, m := SevenStore(ps), TwoPages(ps);
            var (w, r) := AfterWrite(store, m, env, [9], ps);
            && Prepared(m) && Inv(store, m) && r == Done(1) && w.mf == m.mf && |w.backing| == |m.backing| == 2 * ps
            && PlainAt(store, m, ps + 1) == 7 && PlainAt(store, w, ps + 1) == 0
  {
    var store, m := SevenStore(ps), TwoPages(ps);
    TwoPagesInv(ps);
    PageSpan(ps, ps, 2);
    PageSpan(ps, ps + 1, 2);
    PgnoIsExact(m.mf, ps);
    assert 2 in Touched(m.mf, 2, 2);
  }

  /** A page written just past the last 32-bit page number: page 2 is marked present unfetched. */
  lemma {:induction false} WideWriteMarksAnotherPage(env: Env, ps: nat)
    requires PageSizeOk(ps)
    ensures var store, m := SevenStore(ps), TwoPages(ps);
            var (w, r) := AfterWrite(store, m, env, Zeros(ps), ps * (TWO_32 + 1));
            && Prepared(m) && Inv(store, m) && r == Done(ps) && w.mf == m.mf && |w.backing| >= |m.backing| == 2 * ps
            && PlainAt(store, m, ps) == 7 && PlainAt(store, w, ps) == 0
  {
    var store, m, off := SevenStore(ps), TwoPages(ps), ps * (TWO_32 + 1);
    TwoPagesInv(ps);
    PageSpan(ps, ps, 2);
    PageSpan(ps, off, TWO_32 + 2);
    PageSpan(ps, off + ps - 1, TWO_32 + 2);
    PageSpan(ps, off + ps, TWO_32 + 3);
    assert Pgno(m.mf, off) == 2 && Pgno(m.mf, off + ps - 1) == 2 && 2 in Touched(m.mf, 2, 2);
  }

  // ---------------------------------------------------------------------
  // The largest file
  // ---------------------------------------------------------------------

  const TOP: nat := TWO_32 - 2

  function AllListed(ps: nat): map<nat, Loc>
    requires ps > 0
  {
    map p | p in Interval(1, TOP) && p != LockPage(ps) :: Loc("base", 0, 64)
  }

  /** The largest file there can be, with its last page fetched as well, or only its first. */
  function WideFile(ps: nat, fetched: bool): MountState
    requires ps > 0
  {
    var pages := if fetched then {1, TOP} else {1};
    MountState(Manifest(ps, TOP, AllListed(ps)),
               seq(TOP * ps, (i: nat) => if i < ps || (fetched && i >= (TOP - 1) * ps) then 7 else 0),
               pages, if fetched then {TOP} else {}, pages)
  }

  lemma WideFileHoles(ps: nat, fetched: bool)
    requires PageSizeOk(ps)
    ensures HoleInv(WideFile(ps, fetched))
  {
    var m := WideFile(ps, fetched);
    forall p: nat | HasPage(m.mf, p) && p !in m.present ensures PageBytes(m, p) == Zeros(ps) {
      PageFits(m.mf, p);
      MulMono(1, p - 1, ps);
      if p < TOP { MulMono(p, TOP - 1, ps); assert Start(m.mf, p) + ps == p * ps; }
    }
  }

  lemma WideFileInv(ps: nat, fetched: bool)
    requires PageSizeOk(ps)
    ensures Prepared(WideFile(ps, fetched)) && Inv(SevenStore(ps), WideFile(ps, fetched))
    ensures Fetch(SevenStore(ps), WideFile(ps, fetched).mf, TOP) == Some(Sevens(ps))
  {
    var store, m := SevenStore(ps), WideFile(ps, fetched);
    LockPageIsFar(ps);
    if fetched { assert PageBytes(m, TOP) == Sevens(ps); }
    WideFileHoles(ps, fetched);
  }

  /** Where the last page starts, and what the page numbers of three pages written there come to. */
  lemma TopPages(ps: nat, mf: Manifest)
    requires PageSizeOk(ps) && mf.pageSize == ps && mf.commit == TOP
    ensures var off := (TOP - 1) * ps;
            && PageAt(ps, off) == TOP && Pgno(mf, off) == TOP && Pgno(mf, off + 3 * ps - 1) == 0
            && off % ps == 0 && (off + 3 * ps) % ps == 0 && Touched(mf, TOP, 0) == {}
  {
    var off := (TOP - 1) * ps;
    PageSpan(ps, off, TOP);
    PgnoIsExact(mf, off);
    PageSpan(ps, off + 3 * ps - 1, TWO_32);
    PageSpan(ps, off + 3 * ps, TWO_32 + 1);
  }

  /** Three pages written over the end of that file: the last page number wraps to zero, no page is marked,
      and a page that is no longer the manifest's stays clean, for a sibling to clone. */
  lemma {:induction false} WideWriteLeavesACleanBit(env: Env, ps: nat, data: Bytes)
    requires PageSizeOk(ps) && |data| == 3 * ps && data[0] == 9
    ensures var store, m := SevenStore(ps), WideFile(ps, true);
            var (w, r) := AfterWrite(store, m, env, data, (TOP - 1) * ps);
            && Prepared(m) && Inv(store, m) && r == Done(3 * ps) && w.mf == m.mf
            && TOP in w.clean && Fetch(store, m.mf, TOP) != Some(PageBytes(w, TOP))
  {
    var store, m, off := SevenStore(ps), WideFile(ps, true), (TOP - 1) * ps;
    WideFileInv(ps, true);
    TopPages(ps, m.mf);
    var w := Written(m, data, off, TOP, 0);
    WrittenByte(m, data, off, TOP, 0, off);
    PageByte(w, TOP, off);
  }

  /** The same write with that page missing is forgotten, the manifest's page reads back; and a remount,
      which finds data there, brings it back. */
  lemma {:induction false} WideWriteIsForgotten(env: Env, ps: nat, data: Bytes)
    requires PageSizeOk(ps) && |data| == 3 * ps && data[0] == 9
    ensures var store, m, off := SevenStore(ps), WideFile(ps, false), (TOP - 1) * ps;
            var (w, r) := AfterWrite(store, m, env, data, off);
            && Prepared(m) && Inv(store, m) && r == Done(3 * ps) && w.mf == m.mf && off < |m.backing| <= |w.backing|
            && PlainAt(store, w, off) == 7 && Overwrite(Plain(store, m), data, off)[off] == 9
            && PlainAt(store, Remounted(w), off) == 9
  {
    var store, m, off := SevenStore(ps), WideFile(ps, false), (TOP - 1) * ps;
    WideFileInv(ps, false);
    TopPages(ps, m.mf);
    WrittenByte(m, data, off, TOP, 0, off);
    PageMono(ps, off, off + |data| - 1);
    assert TOP in Spans(m.mf, off, |data|);
  }

  /** Three pages read there: no page is fetched, and the missing one reads as zeros. */
  lemma {:induction false} WideReadSkipsAPage(env: Env, ps: nat)
    requires PageSizeOk(ps)
    ensures var store, m, off := SevenStore(ps), WideFile(ps, false), (TOP - 1) * ps;
            var (e, r) := AfterRead(store, m, env, off, 3 * ps);
            && Prepared(m) && Inv(store, m) && e == m && off < |m.backing| && PlainAt(store, m, off) == 7
            && r.Done? && |r.value| == ps && r.value[0] == 0
  {
    var m := WideFile(ps, false);
    WideFileInv(ps, false);
    TopPages(ps, m.mf);
  }
}
