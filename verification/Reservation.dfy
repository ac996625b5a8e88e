/** The leaseholder's reservation state: the taken-set, the release hold, the servable keys and the
    duplicate fence (unique/reservation.go). `Table` is the state as a value with one function per
    operation; `ReservationTable` is the object the source updates in place, each method proved
    against its function. The clock reading every operation takes is a parameter. */
module Reservation {
  import opened Base

  datatype Claim = Claim(table: Id16, key: Id16, value: Bytes, owner: Bytes, prev: Bytes)

  datatype KeyRef = KeyRef(table: Id16, key: Id16)

  datatype Snapshot = Snapshot(keys: seq<KeyRef>, claims: seq<Claim>)

  /** A live reservation; an entry that is not backed is a grant whose row was not seen yet. */
  datatype Taken = Taken(owner: Bytes, grantedUS: int, backed: bool)

  /** A released value awaiting reuse. */
  datatype Hold = Hold(owner: Bytes, releaseUS: int)

  datatype Table = Table(taken: map<Bytes, Taken>, quarantined: map<Bytes, Hold>,
                         servable: set<Bytes>, fenced: set<Bytes>, stopped: bool, quarantineUS: int)

  datatype Verdict = Granted | NotServing | Conflict(claim: Claim)

  /** Table || Key || Value: unambiguous because the first two are fixed-width. */
  function ClaimKey(c: Claim): Bytes { c.table + c.key + c.value }

  function KeyRefKey(table: Id16, key: Id16): Bytes { table + key }

  lemma {:induction false} ClaimKeyIsUnambiguous(c: Claim, d: Claim)
    requires ClaimKey(c) == ClaimKey(d)
    ensures c.table == d.table && c.key == d.key && c.value == d.value
  {
    assert c.table == ClaimKey(c)[..16] && c.key == ClaimKey(c)[16..32] && c.value == ClaimKey(c)[32..];
    assert d.table == ClaimKey(d)[..16] && d.key == ClaimKey(d)[16..32] && d.value == ClaimKey(d)[32..];
  }

  // ---------------------------------------------------------------------
  // Reserve
  // ---------------------------------------------------------------------

  predicate Grantable(t: Table, ck: Bytes, owner: Bytes, prev: Bytes, now: int) {
    if ck in t.fenced then false
    else if ck in t.taken then t.taken[ck].owner == owner || (prev != [] && t.taken[ck].owner == prev)
    else if ck in t.quarantined then
      t.quarantined[ck].owner == owner || now >= t.quarantined[ck].releaseUS + t.quarantineUS
    else true
  }

  predicate Servable(t: Table, c: Claim) { KeyRefKey(c.table, c.key) in t.servable }

  /** The checking pass over claims[i..], where batch holds the owners of the values seen so far. */
  function Check(t: Table, claims: seq<Claim>, i: nat, batch: map<Bytes, Bytes>, now: int): Verdict
    requires i <= |claims|
    decreases |claims| - i
  {
    if i == |claims| then Granted
    else
      var c := claims[i];
      if !Servable(t, c) then NotServing
      else if ClaimKey(c) in batch && batch[ClaimKey(c)] != c.owner then Conflict(c)
      else if !Grantable(t, ClaimKey(c), c.owner, c.prev, now) then Conflict(c)
      else Check(t, claims, i + 1, batch[ClaimKey(c) := c.owner], now)
  }

  function VerdictOf(t: Table, claims: seq<Claim>, now: int): Verdict {
    if t.stopped then NotServing else Check(t, claims, 0, map[], now)
  }

  function InstallOne(t: Table, c: Claim, now: int): Table {
    var ck := ClaimKey(c);
    t.(taken := if ck in t.taken && t.taken[ck].owner == c.owner then t.taken
                else t.taken[ck := Taken(c.owner, now, false)],
       quarantined := t.quarantined - {ck})
  }

  function Install(t: Table, claims: seq<Claim>, now: int): Table {
    if claims == [] then t
    else InstallOne(Install(t, claims[..|claims| - 1], now), claims[|claims| - 1], now)
  }

  function AfterReserve(t: Table, claims: seq<Claim>, now: int): Table {
    if VerdictOf(t, claims, now) == Granted then Install(t, claims, now) else t
  }

  // ---------------------------------------------------------------------
  // Ingest
  // ---------------------------------------------------------------------

  /** The row-backed entries of a snapshot; a later claim on the same value overwrites an earlier one. */
  function Rows(claims: seq<Claim>): map<Bytes, Taken> {
    if claims == [] then map[]
    else
      var c := claims[|claims| - 1];
      Rows(claims[..|claims| - 1])[ClaimKey(c) := Taken(c.owner, 0, true)]
  }

  predicate InFlight(e: Taken, graceUS: int, now: int) { !e.backed && now - e.grantedUS < graceUS }

  /** An entry survives a snapshot on its own when it is a young grant the rows do not already show. */
  predicate Survives(taken: map<Bytes, Taken>, rows: map<Bytes, Taken>, ck: Bytes, graceUS: int, now: int) {
    && ck in taken && InFlight(taken[ck], graceUS, now)
    && (ck in rows ==> rows[ck].owner != taken[ck].owner)
  }

  /** The derived taken-set when every entry but those in `todo` has been looked at. */
  function Derived(taken: map<Bytes, Taken>, rows: map<Bytes, Taken>, todo: set<Bytes>, graceUS: int, now: int): map<Bytes, Taken> {
    map ck | ck in rows.Keys + taken.Keys && (ck in rows || (ck !in todo && Survives(taken, rows, ck, graceUS, now))) ::
      if ck !in todo && Survives(taken, rows, ck, graceUS, now) then taken[ck] else rows[ck]
  }

  /** The release hold when every entry but those in `todo` has been looked at: each one that left is stamped now. */
  function Held(t: Table, rows: map<Bytes, Taken>, todo: set<Bytes>, graceUS: int, now: int): map<Bytes, Hold> {
    map ck | ck in t.quarantined.Keys + t.taken.Keys
             && (ck in t.quarantined || (ck !in todo && Leaves(t.taken, rows, ck, graceUS, now))) ::
      if ck !in todo && Leaves(t.taken, rows, ck, graceUS, now) then Hold(t.taken[ck].owner, now) else t.quarantined[ck]
  }

  predicate Leaves(taken: map<Bytes, Taken>, rows: map<Bytes, Taken>, ck: Bytes, graceUS: int, now: int) {
    ck in taken && ck !in rows && !InFlight(taken[ck], graceUS, now)
  }

  function ClaimKeys(claims: seq<Claim>): set<Bytes> { set c | c in claims :: ClaimKey(c) }

  function RefKeys(keys: seq<KeyRef>): set<Bytes> { set k | k in keys :: KeyRefKey(k.table, k.key) }

  function AfterIngest(t: Table, snap: Snapshot, graceUS: int, dup: seq<Claim>, now: int): Table {
    var rows := Rows(snap.claims);
    t.(taken := Derived(t.taken, rows, {}, graceUS, now),
       quarantined := Held(t, rows, {}, graceUS, now),
       servable := RefKeys(snap.keys),
       fenced := ClaimKeys(dup))
  }

  // ---------------------------------------------------------------------
  // Duplicates, clear, sweep, handoff
  // ---------------------------------------------------------------------

  datatype Scan = Scan(seen: map<Bytes, Bytes>, dup: seq<Claim>)

  function ScanOne(s: Scan, c: Claim): Scan {
    var ck := ClaimKey(c);
    if ck in s.seen && s.seen[ck] != c.owner then s.(dup := s.dup + [c]) else s.(seen := s.seen[ck := c.owner])
  }

  function ScanAll(claims: seq<Claim>): Scan {
    if claims == [] then Scan(map[], []) else ScanOne(ScanAll(claims[..|claims| - 1]), claims[|claims| - 1])
  }

  function DuplicateClaims(claims: seq<Claim>): seq<Claim> { ScanAll(claims).dup }

  function AfterClear(t: Table): Table {
    t.(taken := map[], quarantined := map[], servable := {}, fenced := {})
  }

  function Expired(t: Table, now: int): set<Bytes> {
    set ck | ck in t.quarantined && now >= t.quarantined[ck].releaseUS + t.quarantineUS
  }

  function AfterSweep(t: Table, now: int): Table {
    t.(quarantined := t.quarantined - Expired(t, now))
  }

  datatype TakenSnap = TakenSnap(key: Bytes, owner: Bytes, reservedUS: int)

  datatype HoldSnap = HoldSnap(key: Bytes, owner: Bytes, releaseUS: int)

  /** The serialisable handoff image: no backing evidence and no servable keys. */
  datatype Image = Image(taken: seq<TakenSnap>, quarantined: seq<HoldSnap>)

  function LoadTaken(ts: seq<TakenSnap>, now: int): map<Bytes, Taken> {
    if ts == [] then map[]
    else var s := ts[|ts| - 1]; LoadTaken(ts[..|ts| - 1], now)[s.key := Taken(s.owner, now, false)]
  }

  function LoadHolds(hs: seq<HoldSnap>): map<Bytes, Hold> {
    if hs == [] then map[]
    else var s := hs[|hs| - 1]; LoadHolds(hs[..|hs| - 1])[s.key := Hold(s.owner, s.releaseUS)]
  }

  function AfterLoad(t: Table, image: Image, now: int): Table {
    t.(stopped := false, taken := LoadTaken(image.taken, now), quarantined := LoadHolds(image.quarantined))
  }

  datatype Reserved = Reserved(owner: Bytes, reservedUS: int)

  function TakenMap(ts: seq<TakenSnap>): map<Bytes, Reserved> {
    if ts == [] then map[]
    else var s := ts[|ts| - 1]; TakenMap(ts[..|ts| - 1])[s.key := Reserved(s.owner, s.reservedUS)]
  }

  function ReservedIn(taken: map<Bytes, Taken>, todo: set<Bytes>): map<Bytes, Reserved> {
    map ck | ck in taken && ck !in todo :: Reserved(taken[ck].owner, taken[ck].grantedUS)
  }

  function HeldIn(holds: map<Bytes, Hold>, todo: set<Bytes>): map<Bytes, Hold> {
    map ck | ck in holds && ck !in todo :: holds[ck]
  }

  /** The image lists, in some order, every entry of the table and nothing else. */
  predicate Lists(image: Image, t: Table) {
    && TakenMap(image.taken) == ReservedIn(t.taken, {})
    && LoadHolds(image.quarantined) == t.quarantined
  }

  // ---------------------------------------------------------------------
  // Loops over the maps, in any iteration order
  // ---------------------------------------------------------------------

  method RowsOf(claims: seq<Claim>) returns (rows: map<Bytes, Taken>)
    ensures rows == Rows(claims)
  {
    rows := map[];
    for i := 0 to |claims|
      invariant rows == Rows(claims[..i])
    {
      assert claims[..i + 1][..i] == claims[..i];
      rows := rows[ClaimKey(claims[i]) := Taken(claims[i].owner, 0, true)];
    }
    assert claims[..|claims|] == claims;
  }

  method Derive(t: Table, rows: map<Bytes, Taken>, graceUS: int, now: int)
    returns (newTaken: map<Bytes, Taken>, held: map<Bytes, Hold>)
    ensures newTaken == Derived(t.taken, rows, {}, graceUS, now)
    ensures held == Held(t, rows, {}, graceUS, now)
  {
    DeriveStart(t, rows, graceUS, now);
    newTaken, held := rows, t.quarantined;
    var todo := t.taken.Keys;
    while todo != {}
      invariant todo <= t.taken.Keys
      invariant newTaken == Derived(t.taken, rows, todo, graceUS, now)
      invariant held == Held(t, rows, todo, graceUS, now)
      decreases |todo|
    {
      var ck :| ck in todo;
      DeriveStep(t, rows, todo, ck, graceUS, now);
      newTaken, held := DeriveEntry(newTaken, held, rows, ck, t.taken[ck], graceUS, now);
      todo := todo - {ck};
    }
  }

  /** One entry of the old taken-set against the snapshot's rows. */
  method DeriveEntry(acc: map<Bytes, Taken>, hold: map<Bytes, Hold>, rows: map<Bytes, Taken>, ck: Bytes, e: Taken, graceUS: int, now: int)
    returns (newTaken: map<Bytes, Taken>, held: map<Bytes, Hold>)
    requires ck in rows ==> ck in acc && acc[ck] == rows[ck]
    ensures newTaken == if InFlight(e, graceUS, now) && (ck in rows ==> rows[ck].owner != e.owner) then acc[ck := e] else acc
    ensures held == if ck !in rows && !InFlight(e, graceUS, now) then hold[ck := Hold(e.owner, now)] else hold
  {
    newTaken, held := acc, hold;
    if ck in rows {
      if InFlight(e, graceUS, now) && newTaken[ck].owner != e.owner {
        newTaken := newTaken[ck := e];
      }
    } else if InFlight(e, graceUS, now) {
      newTaken := newTaken[ck := e];
    } else {
      held := held[ck := Hold(e.owner, now)];
    }
  }

  method Unexpired(t: Table, now: int) returns (kept: map<Bytes, Hold>)
    ensures kept == t.quarantined - Expired(t, now)
  {
    kept := t.quarantined;
    var todo := t.quarantined.Keys;
    ghost var done: set<Bytes> := {};
    KeptStart(t, now);
    while todo != {}
      invariant todo <= t.quarantined.Keys && done == t.quarantined.Keys - todo
      invariant kept == Kept(t, done, now)
      decreases |todo|
    {
      var ck :| ck in todo;
      KeptStep(t, done, ck, now);
      if now >= t.quarantined[ck].releaseUS + t.quarantineUS {
        kept := kept - {ck};
      }
      todo, done := todo - {ck}, done + {ck};
    }
  }

  /** The release hold when the entries in `done` have been swept. */
  function Kept(t: Table, done: set<Bytes>, now: int): map<Bytes, Hold> {
    map ck | ck in t.quarantined && !(ck in done && ck in Expired(t, now)) :: t.quarantined[ck]
  }

  lemma KeptStart(t: Table, now: int)
    ensures Kept(t, {}, now) == t.quarantined
    ensures Kept(t, t.quarantined.Keys, now) == t.quarantined - Expired(t, now)
  {
  }

  lemma KeptStep(t: Table, done: set<Bytes>, ck: Bytes, now: int)
    requires ck in t.quarantined && ck !in done
    ensures Kept(t, done + {ck}, now) ==
            if now >= t.quarantined[ck].releaseUS + t.quarantineUS then Kept(t, done, now) - {ck} else Kept(t, done, now)
  {
  }

  method ListTaken(taken: map<Bytes, Taken>) returns (ts: seq<TakenSnap>)
    ensures TakenMap(ts) == ReservedIn(taken, {})
  {
    ts := [];
    var todo := taken.Keys;
    while todo != {}
      invariant todo <= taken.Keys && TakenMap(ts) == ReservedIn(taken, todo)
      decreases |todo|
    {
      var ck :| ck in todo;
      var s := TakenSnap(ck, taken[ck].owner, taken[ck].grantedUS);
      assert (ts + [s])[..|ts|] == ts;
      ts, todo := ts + [s], todo - {ck};
    }
  }

  method ListHolds(holds: map<Bytes, Hold>) returns (hs: seq<HoldSnap>)
    ensures LoadHolds(hs) == holds
  {
    hs := [];
    var todo := holds.Keys;
    while todo != {}
      invariant todo <= holds.Keys && LoadHolds(hs) == HeldIn(holds, todo)
      decreases |todo|
    {
      var ck :| ck in todo;
      var s := HoldSnap(ck, holds[ck].owner, holds[ck].releaseUS);
      assert (hs + [s])[..|hs|] == hs;
      hs, todo := hs + [s], todo - {ck};
    }
  }

  // ---------------------------------------------------------------------
  // The object
  // ---------------------------------------------------------------------

  class ReservationTable {
    var taken: map<Bytes, Taken>
    var quarantined: map<Bytes, Hold>
    var servable: set<Bytes>
    var fenced: set<Bytes>
    var stopped: bool
    const quarantineUS: int

    function State(): Table
      reads this
    {
      Table(taken, quarantined, servable, fenced, stopped, quarantineUS)
    }

    constructor (quarantineUS: int)
      ensures State() == Table(map[], map[], {}, {}, false, quarantineUS)
    {
      this.quarantineUS := quarantineUS;
      taken, quarantined, servable, fenced, stopped := map[], map[], {}, {}, false;
    }

    /** Checks every claim before granting any. */
    method Reserve(claims: seq<Claim>, now: int) returns (verdict: Verdict)
      modifies this
      ensures verdict == VerdictOf(old(State()), claims, now)
      ensures State() == AfterReserve(old(State()), claims, now)
    {
      if stopped { return NotServing; }
      var batch: map<Bytes, Bytes> := map[];
      for i := 0 to |claims|
        invariant State() == old(State())
        invariant Check(State(), claims, 0, map[], now) == Check(State(), claims, i, batch, now)
      {
        var c := claims[i];
        if KeyRefKey(c.table, c.key) !in servable { return NotServing; }
        var ck := ClaimKey(c);
        if ck in batch && batch[ck] != c.owner { return Conflict(c); }
        if !Grantable(State(), ck, c.owner, c.prev, now) { return Conflict(c); }
        batch := batch[ck := c.owner];
      }
      for i := 0 to |claims|
        invariant State() == Install(old(State()), claims[..i], now)
      {
        assert claims[..i + 1][..i] == claims[..i];
        var ck := ClaimKey(claims[i]);
        if ck !in taken || taken[ck].owner != claims[i].owner {
          taken := taken[ck := Taken(claims[i].owner, now, false)];
        }
        quarantined := quarantined - {ck};
      }
      assert claims[..|claims|] == claims;
      return Granted;
    }

    /** Replaces the derived state with one enumeration snapshot. */
    method Ingest(snap: Snapshot, graceUS: int, dup: seq<Claim>, now: int)
      modifies this
      ensures State() == AfterIngest(old(State()), snap, graceUS, dup, now)
    {
      var rows := RowsOf(snap.claims);
      taken, quarantined := Derive(State(), rows, graceUS, now);
      servable := RefKeys(snap.keys);
      fenced := ClaimKeys(dup);
    }

    method Clear()
      modifies this
      ensures State() == AfterClear(old(State()))
    {
      taken, quarantined, servable, fenced := map[], map[], {}, {};
    }

    method Sweep(now: int)
      modifies this
      ensures State() == AfterSweep(old(State()), now)
    {
      quarantined := Unexpired(State(), now);
    }

    /** Stops granting and captures the live state under one lock. */
    method SnapshotAndStop() returns (image: Image)
      modifies this`stopped
      ensures State() == old(State()).(stopped := true)
      ensures Lists(image, State())
    {
      stopped := true;
      var ts := ListTaken(taken);
      var hs := ListHolds(quarantined);
      image := Image(ts, hs);
    }

    /** Installs a handed-off image as the live state; every entry is an unbacked grant as of now. */
    method Load(image: Image, now: int)
      modifies this
      ensures State() == AfterLoad(old(State()), image, now)
    {
      stopped := false;
      taken, quarantined := map[], map[];
      for i := 0 to |image.taken|
        invariant State() == old(State()).(stopped := false, taken := LoadTaken(image.taken[..i], now), quarantined := map[])
      {
        assert image.taken[..i + 1][..i] == image.taken[..i];
        taken := taken[image.taken[i].key := Taken(image.taken[i].owner, now, false)];
      }
      assert image.taken[..|image.taken|] == image.taken;
      for i := 0 to |image.quarantined|
        invariant State() == old(State()).(stopped := false, taken := LoadTaken(image.taken, now),
                                           quarantined := LoadHolds(image.quarantined[..i]))
      {
        assert image.quarantined[..i + 1][..i] == image.quarantined[..i];
        quarantined := quarantined[image.quarantined[i].key := Hold(image.quarantined[i].owner, image.quarantined[i].releaseUS)];
      }
      assert image.quarantined[..|image.quarantined|] == image.quarantined;
    }
  }

  lemma DeriveStart(t: Table, rows: map<Bytes, Taken>, graceUS: int, now: int)
    ensures Derived(t.taken, rows, t.taken.Keys, graceUS, now) == rows
    ensures Held(t, rows, t.taken.Keys, graceUS, now) == t.quarantined
  {
  }

  lemma DeriveStep(t: Table, rows: map<Bytes, Taken>, todo: set<Bytes>, ck: Bytes, graceUS: int, now: int)
    requires ck in todo && ck in t.taken
    ensures ck in rows ==> ck in Derived(t.taken, rows, todo, graceUS, now) && Derived(t.taken, rows, todo, graceUS, now)[ck] == rows[ck]
    ensures Derived(t.taken, rows, todo - {ck}, graceUS, now) ==
            if Survives(t.taken, rows, ck, graceUS, now) then Derived(t.taken, rows, todo, graceUS, now)[ck := t.taken[ck]]
            else Derived(t.taken, rows, todo, graceUS, now)
    ensures Held(t, rows, todo - {ck}, graceUS, now) ==
            if Leaves(t.taken, rows, ck, graceUS, now) then Held(t, rows, todo, graceUS, now)[ck := Hold(t.taken[ck].owner, now)]
            else Held(t, rows, todo, graceUS, now)
  {
  }

  /** The claims on a value some earlier claim gave to another owner. */
  method FindDuplicates(claims: seq<Claim>) returns (dup: seq<Claim>)
    ensures dup == DuplicateClaims(claims)
  {
    var seen: map<Bytes, Bytes> := map[];
    dup := [];
    for i := 0 to |claims|
      invariant ScanAll(claims[..i]) == Scan(seen, dup)
    {
      assert claims[..i + 1][..i] == claims[..i];
      var ck := ClaimKey(claims[i]);
      if ck in seen && seen[ck] != claims[i].owner {
        dup := dup + [claims[i]];
        continue;
      }
      seen := seen[ck := claims[i].owner];
    }
    assert claims[..|claims|] == claims;
  }
}
