/** What the reservation table promises over whole runs: atomic batches, the release hold, the
    duplicate fence, conservation and the handoff (unique/reservation.go). */
module ReservationRuns {
  import opened Base
  import opened Reservation

  // ---------------------------------------------------------------------
  // Batches
  // ---------------------------------------------------------------------

  predicate Served(t: Table, c: Claim) { c.table + c.key in t.servable }

  /** What the table promises of a claim: a fenced value is out of reach; one that is taken goes to its owner or,
      as a transfer, to a claimant that names the owner as its predecessor; one on hold goes to its prior
      owner, or to anyone once the window is over; any other is free. */
  predicate Available(t: Table, c: Claim, now: int) {
    var ck := ClaimKey(c);
    && ck !in t.fenced
    && (ck in t.taken ==> c.owner == t.taken[ck].owner || (c.prev != [] && c.prev == t.taken[ck].owner))
    && (ck !in t.taken && ck in t.quarantined ==>
          c.owner == t.quarantined[ck].owner || t.quarantined[ck].releaseUS + t.quarantineUS <= now)
  }

  /** Claim k raises no objection: its key is served, no earlier claim of the batch gives the value to
      another owner, and the value is available to it. */
  predicate Admissible(t: Table, claims: seq<Claim>, k: nat, now: int)
    requires k < |claims|
  {
    && Served(t, claims[k])
    && (forall j :: 0 <= j < k && ClaimKey(claims[j]) == ClaimKey(claims[k]) ==> claims[j].owner == claims[k].owner)
    && Available(t, claims[k], now)
  }

  /** batch is the checking pass's memory of claims[..i]. */
  predicate Remembers(batch: map<Bytes, Bytes>, claims: seq<Claim>, i: nat)
    requires i <= |claims|
  {
    && (forall j :: 0 <= j < i ==> ClaimKey(claims[j]) in batch && batch[ClaimKey(claims[j])] == claims[j].owner)
    && (forall ck :: ck in batch ==> exists j :: 0 <= j < i && ClaimKey(claims[j]) == ck)
  }

  lemma {:induction false} CheckStopsAtFirst(t: Table, claims: seq<Claim>, i: nat, batch: map<Bytes, Bytes>, now: int, k: nat)
    requires i <= k <= |claims| && Remembers(batch, claims, i)
    requires forall j :: 0 <= j < k ==> Admissible(t, claims, j, now)
    requires k < |claims| ==> !Admissible(t, claims, k, now)
    ensures Check(t, claims, i, batch, now) ==
            if k == |claims| then Granted else if !Served(t, claims[k]) then NotServing else Conflict(claims[k])
    decreases k - i
  {
    if i < k {
      assert Admissible(t, claims, i, now);
      RemembersOneMore(batch, claims, i);
      CheckStopsAtFirst(t, claims, i + 1, batch[ClaimKey(claims[i]) := claims[i].owner], now, k);
    }
  }

  lemma RemembersOneMore(batch: map<Bytes, Bytes>, claims: seq<Claim>, i: nat)
    requires i < |claims| && Remembers(batch, claims, i)
    requires forall j :: 0 <= j < i && ClaimKey(claims[j]) == ClaimKey(claims[i]) ==> claims[j].owner == claims[i].owner
    ensures Remembers(batch[ClaimKey(claims[i]) := claims[i].owner], claims, i + 1)
  {
    var next := batch[ClaimKey(claims[i]) := claims[i].owner];
    forall c | c in next ensures exists j :: 0 <= j < i + 1 && ClaimKey(claims[j]) == c {
      if c == ClaimKey(claims[i]) { assert ClaimKey(claims[i]) == c; }
    }
  }

  /** A batch is judged by its first inadmissible claim: not-serving when its key is not served, a
      conflict naming it otherwise; with none the batch is granted. A stopped table serves nothing. */
  lemma {:induction false} VerdictIsFirstObjection(t: Table, claims: seq<Claim>, now: int, k: nat)
    requires k <= |claims|
    requires forall j :: 0 <= j < k ==> Admissible(t, claims, j, now)
    requires k < |claims| ==> !Admissible(t, claims, k, now)
    ensures VerdictOf(t, claims, now) ==
            if t.stopped then NotServing
            else if k == |claims| then Granted
            else if !Served(t, claims[k]) then NotServing else Conflict(claims[k])
  {
    CheckStopsAtFirst(t, claims, 0, map[], now, k);
  }

  lemma {:induction false} GrantedMeansAdmissible(t: Table, claims: seq<Claim>, now: int)
    ensures VerdictOf(t, claims, now) == Granted <==>
            !t.stopped && forall k :: 0 <= k < |claims| ==> Admissible(t, claims, k, now)
  {
    var k := 0;
    while k < |claims| && Admissible(t, claims, k, now)
      invariant k <= |claims| && forall j :: 0 <= j < k ==> Admissible(t, claims, j, now)
    {
      k := k + 1;
    }
    VerdictIsFirstObjection(t, claims, now, k);
  }

  /** One claim on a running table that serves its key is granted if and only if its value is available to it. */
  lemma {:induction false} SingleClaimIff(t: Table, c: Claim, now: int)
    requires !t.stopped && Served(t, c)
    ensures VerdictOf(t, [c], now) == Granted <==> Available(t, c, now)
    ensures VerdictOf(t, [c], now) != Granted ==> VerdictOf(t, [c], now) == Conflict(c)
  {
    assert [c][0] == c;
    VerdictIsFirstObjection(t, [c], now, if Admissible(t, [c], 0, now) then 1 else 0);
  }

  predicate Mentions(claims: seq<Claim>, ck: Bytes) { exists c :: c in claims && ClaimKey(c) == ck }

  /** No value is given to two owners inside the batch. */
  predicate OneOwnerEach(claims: seq<Claim>) {
    forall c, d :: c in claims && d in claims && ClaimKey(c) == ClaimKey(d) ==> c.owner == d.owner
  }

  lemma {:induction false} InstallAt(t: Table, claims: seq<Claim>, now: int, ck: Bytes)
    requires OneOwnerEach(claims)
    ensures var u := Install(t, claims, now);
            && u.(taken := t.taken, quarantined := t.quarantined) == t
            && (!Mentions(claims, ck) ==>
                  && (ck in u.taken <==> ck in t.taken) && (ck in t.taken ==> u.taken[ck] == t.taken[ck])
                  && (ck in u.quarantined <==> ck in t.quarantined)
                  && (ck in t.quarantined ==> u.quarantined[ck] == t.quarantined[ck]))
            && (forall c :: c in claims && ClaimKey(c) == ck ==>
                  && ck !in u.quarantined && ck in u.taken
                  && u.taken[ck] == if ck in t.taken && t.taken[ck].owner == c.owner then t.taken[ck]
                                    else Taken(c.owner, now, false))
    decreases |claims|
  {
    if claims != [] {
      var n := |claims| - 1;
      var front, last := claims[..n], claims[n];
      assert claims == front + [last];
      InstallAt(t, front, now, ck);
      if ClaimKey(last) == ck && Mentions(front, ck) {
        var c :| c in front && ClaimKey(c) == ck;
        assert c in claims && last in claims;
      }
      assert Mentions(claims, ck) <==> Mentions(front, ck) || ClaimKey(last) == ck by {
        assert last in claims;
        assert forall c :: c in front ==> c in claims;
      }
    }
  }

  /** All or nothing: a refused batch changes nothing; a granted one leaves every claim owned by its
      claimant and out of the release hold, and touches no other value. */
  lemma {:induction false} BatchIsAtomic(t: Table, claims: seq<Claim>, now: int)
    ensures VerdictOf(t, claims, now) != Granted ==> AfterReserve(t, claims, now) == t
    ensures VerdictOf(t, claims, now) == Granted ==>
              var u := AfterReserve(t, claims, now);
              && (forall c :: c in claims ==>
                    ClaimKey(c) in u.taken && u.taken[ClaimKey(c)].owner == c.owner && ClaimKey(c) !in u.quarantined)
              && (forall ck :: ck in u.taken && !Mentions(claims, ck) ==> ck in t.taken && u.taken[ck] == t.taken[ck])
              && (forall ck :: ck in t.taken ==> ck in u.taken)
              && (forall ck :: ck in t.quarantined && !Mentions(claims, ck) ==> ck in u.quarantined && u.quarantined[ck] == t.quarantined[ck])
              && (forall ck :: ck in u.quarantined ==> ck in t.quarantined && u.quarantined[ck] == t.quarantined[ck])
              && u.(taken := t.taken, quarantined := t.quarantined) == t
  {
    if VerdictOf(t, claims, now) == Granted {
      GrantedOneOwner(t, claims, now);
      InstallAt(t, claims, now, []);
      var u := AfterReserve(t, claims, now);
      forall c | c in claims
        ensures ClaimKey(c) in u.taken && u.taken[ClaimKey(c)].owner == c.owner && ClaimKey(c) !in u.quarantined
      {
        InstallAt(t, claims, now, ClaimKey(c));
      }
      forall ck
        ensures ck in u.taken && !Mentions(claims, ck) ==> ck in t.taken && u.taken[ck] == t.taken[ck]
        ensures ck in t.taken ==> ck in u.taken
        ensures ck in t.quarantined && !Mentions(claims, ck) ==> ck in u.quarantined && u.quarantined[ck] == t.quarantined[ck]
        ensures ck in u.quarantined ==> ck in t.quarantined && u.quarantined[ck] == t.quarantined[ck]
      {
        InstallAt(t, claims, now, ck);
      }
    }
  }

  lemma {:induction false} GrantedOneOwner(t: Table, claims: seq<Claim>, now: int)
    requires VerdictOf(t, claims, now) == Granted
    ensures OneOwnerEach(claims)
    ensures forall c :: c in claims ==> Served(t, c) && Available(t, c, now)
  {
    GrantedMeansAdmissible(t, claims, now);
    forall c | c in claims ensures Served(t, c) && Available(t, c, now) {
      var k :| 0 <= k < |claims| && claims[k] == c;
      assert Admissible(t, claims, k, now);
    }
    forall c, d | c in claims && d in claims && ClaimKey(c) == ClaimKey(d) ensures c.owner == d.owner {
      var k :| 0 <= k < |claims| && claims[k] == c;
      var j :| 0 <= j < |claims| && claims[j] == d;
      assert Admissible(t, claims, k, now) && Admissible(t, claims, j, now);
    }
  }

  // ---------------------------------------------------------------------
  // Snapshots: rows and duplicates
  // ---------------------------------------------------------------------

  /** Claim i is the last one on ck. */
  predicate LastOn(claims: seq<Claim>, i: nat, ck: Bytes)
    requires i < |claims|
  {
    ClaimKey(claims[i]) == ck && forall j :: i < j < |claims| ==> ClaimKey(claims[j]) != ck
  }

  lemma {:induction false} RowsAt(claims: seq<Claim>, ck: Bytes)
    ensures ck in Rows(claims) <==> Mentions(claims, ck)
    ensures ck in Rows(claims) ==>
              exists c :: c in claims && ClaimKey(c) == ck && Rows(claims)[ck] == Taken(c.owner, 0, true)
    ensures forall i :: 0 <= i < |claims| && LastOn(claims, i, ck) ==> ck in Rows(claims) && Rows(claims)[ck] == Taken(claims[i].owner, 0, true)
    decreases |claims|
  {
    if claims != [] {
      var n := |claims| - 1;
      var front, last := claims[..n], claims[n];
      assert claims == front + [last] && last in claims;
      RowsAt(front, ck);
      forall i | 0 <= i < n && LastOn(claims, i, ck) ensures LastOn(front, i, ck) {}
      if ck in Rows(front) {
        var c :| c in front && ClaimKey(c) == ck && Rows(front)[ck] == Taken(c.owner, 0, true);
        assert c in claims;
      }
    }
  }

  ghost predicate TwoOwners(claims: seq<Claim>, ck: Bytes) {
    exists c, d :: c in claims && d in claims && ClaimKey(c) == ck && ClaimKey(d) == ck && c.owner != d.owner
  }

  lemma {:induction false} ScanFinds(claims: seq<Claim>, ck: Bytes)
    ensures ck in ScanAll(claims).seen <==> Mentions(claims, ck)
    ensures (exists c :: c in ScanAll(claims).dup && ClaimKey(c) == ck) <==> TwoOwners(claims, ck)
    ensures Mentions(claims, ck) ==> exists c :: c in claims && ClaimKey(c) == ck && c.owner == ScanAll(claims).seen[ck]
    decreases |claims|
  {
    if claims != [] {
      var n := |claims| - 1;
      var front, last := claims[..n], claims[n];
      assert claims == front + [last] && last in claims;
      assert forall c :: c in claims <==> c in front || c == last;
      ScanFinds(front, ck);
      var s := ScanAll(front);
      assert last in s.dup + [last] && forall c :: c in s.dup + [last] <==> c in s.dup || c == last;
      if Mentions(front, ck) {
        var c :| c in front && ClaimKey(c) == ck && c.owner == s.seen[ck];
        assert c in claims;
      }
    }
  }

  /** A value is fenced after a snapshot exactly when the snapshot shows two owners for it. */
  lemma {:induction false} FencedIffTwoOwners(t: Table, snap: Snapshot, graceUS: int, now: int, ck: Bytes)
    ensures ck in AfterIngest(t, snap, graceUS, DuplicateClaims(snap.claims), now).fenced <==> TwoOwners(snap.claims, ck)
  {
    ScanFinds(snap.claims, ck);
  }

  /** The grant is not backed by a row yet and was made less than the grace ago. */
  predicate WithinGrace(e: Taken, graceUS: int, now: int) { !e.backed && now < e.grantedUS + graceUS }

  /** A key is served after a snapshot if and only if the snapshot lists it. */
  lemma {:induction false} ServedIffListed(t: Table, snap: Snapshot, graceUS: int, dup: seq<Claim>, now: int, c: Claim)
    ensures Served(AfterIngest(t, snap, graceUS, dup, now), c) <==> KeyRef(c.table, c.key) in snap.keys
  {
    if KeyRef(c.table, c.key) in snap.keys {
      assert KeyRefKey(c.table, c.key) in RefKeys(snap.keys);
    }
    if Served(AfterIngest(t, snap, graceUS, dup, now), c) {
      var k :| k in snap.keys && KeyRefKey(k.table, k.key) == c.table + c.key;
      assert k.table == KeyRefKey(k.table, k.key)[..16] && k.key == KeyRefKey(k.table, k.key)[16..];
      assert c.table == (c.table + c.key)[..16] && c.key == (c.table + c.key)[16..];
    }
  }

  /** The fate of one value under a snapshot. A grant within the grace keeps its owner, and its entry unless the
      row shown last confirms it. Otherwise the row shown last decides, and with no row the value goes on hold
      under the owner it had. */
  lemma {:induction false} IngestDecides(t: Table, snap: Snapshot, graceUS: int, dup: seq<Claim>, now: int, ck: Bytes)
    ensures var u := AfterIngest(t, snap, graceUS, dup, now);
            && (forall i :: 0 <= i < |snap.claims| && LastOn(snap.claims, i, ck) ==>
                  && ck in u.taken
                  && u.taken[ck] == if ck in t.taken && WithinGrace(t.taken[ck], graceUS, now) && t.taken[ck].owner != snap.claims[i].owner
                                    then t.taken[ck] else Taken(snap.claims[i].owner, 0, true))
            && (!Mentions(snap.claims, ck) && ck in t.taken && WithinGrace(t.taken[ck], graceUS, now) ==>
                  ck in u.taken && u.taken[ck] == t.taken[ck])
            && (!Mentions(snap.claims, ck) && ck in t.taken && !WithinGrace(t.taken[ck], graceUS, now) ==>
                  ck !in u.taken && ck in u.quarantined && u.quarantined[ck] == Hold(t.taken[ck].owner, now))
            && (!Mentions(snap.claims, ck) && ck !in t.taken ==> ck !in u.taken)
  {
    RowsAt(snap.claims, ck);
  }

  /** Nothing is lost: after a snapshot every value that was taken is either still taken (under its
      owner, or under a row's owner) or in the release hold stamped with this tick and its prior owner;
      and everything taken is a row of the snapshot or a grant younger than the grace. */
  lemma {:induction false} IngestConserves(t: Table, snap: Snapshot, graceUS: int, now: int)
    ensures var u := AfterIngest(t, snap, graceUS, DuplicateClaims(snap.claims), now);
            && (forall ck :: ck in t.taken && ck !in u.taken ==>
                  ck in u.quarantined && u.quarantined[ck] == Hold(t.taken[ck].owner, now))
            && (forall ck :: ck in u.taken <==>
                  Mentions(snap.claims, ck) || (ck in t.taken && WithinGrace(t.taken[ck], graceUS, now)))
            && (forall ck :: ck in t.taken && WithinGrace(t.taken[ck], graceUS, now) ==> u.taken[ck].owner == t.taken[ck].owner)
            && (forall ck :: ck in u.taken && u.taken[ck].backed <==>
                  ck in Rows(snap.claims)
                  && !(ck in t.taken && WithinGrace(t.taken[ck], graceUS, now) && Rows(snap.claims)[ck].owner != t.taken[ck].owner))
            && (forall ck :: ck in u.taken && !u.taken[ck].backed ==> ck in t.taken && u.taken[ck] == t.taken[ck])
            && (forall ck :: ck in t.quarantined && (ck !in t.taken || ck in u.taken) ==>
                  ck in u.quarantined && u.quarantined[ck] == t.quarantined[ck])
            && (forall ck :: ck in u.quarantined ==>
                  (ck in t.quarantined && u.quarantined[ck] == t.quarantined[ck]) || (ck in t.taken && ck !in u.taken))
  {
    forall ck ensures ck in Rows(snap.claims) <==> Mentions(snap.claims, ck)
              ensures ck in Rows(snap.claims) ==> Rows(snap.claims)[ck].backed
    {
      RowsAt(snap.claims, ck);
    }
  }

  // ---------------------------------------------------------------------
  // Runs of one leadership
  // ---------------------------------------------------------------------

  datatype Event =
    | Reserving(claims: seq<Claim>, now: int)
    | Ingesting(snap: Snapshot, graceUS: int, now: int)
    | Sweeping(now: int)

  function Step(t: Table, ev: Event): Table {
    match ev
    case Reserving(claims, now) => AfterReserve(t, claims, now)
    case Ingesting(snap, graceUS, now) => AfterIngest(t, snap, graceUS, DuplicateClaims(snap.claims), now)
    case Sweeping(now) => AfterSweep(t, now)
  }

  function After(t: Table, evs: seq<Event>): Table {
    if evs == [] then t else Step(After(t, evs[..|evs| - 1]), evs[|evs| - 1])
  }

  /** The answers a client saw, in order. */
  function Answers(t: Table, evs: seq<Event>): seq<Verdict>
    decreases |evs|
  {
    if evs == [] then []
    else (if evs[0].Reserving? then [VerdictOf(t, evs[0].claims, evs[0].now)] else []) + Answers(Step(t, evs[0]), evs[1..])
  }

  /** The clock never runs backwards. */
  predicate InTimeOrder(evs: seq<Event>, from: int) {
    && (forall i :: 0 <= i < |evs| ==> from <= evs[i].now)
    && (forall i, j :: 0 <= i < j < |evs| ==> evs[i].now <= evs[j].now)
  }

  /** ck is out of the taken-set and held for its prior owner since `at`, or the window is over by now. */
  predicate OnHold(t: Table, ck: Bytes, owner: Bytes, at: int, now: int) {
    && ck !in t.taken
    && (ck in t.quarantined ==> t.quarantined[ck] == Hold(owner, at))
    && (ck !in t.quarantined ==> at + t.quarantineUS <= now)
  }

  lemma StaysOnHold(t: Table, ev: Event, ck: Bytes, owner: Bytes, at: int)
    requires OnHold(t, ck, owner, at, ev.now)
    requires ck !in Step(t, ev).taken
    ensures OnHold(Step(t, ev), ck, owner, at, ev.now) && Step(t, ev).quarantineUS == t.quarantineUS
  {
    match ev
    case Reserving(claims, now) => BatchIsAtomic(t, claims, now);
    case Ingesting(snap, graceUS, now) => IngestConserves(t, snap, graceUS, now);
    case Sweeping(now) =>
  }

  /** ck is out of the taken-set after every prefix of the run. */
  predicate OutThroughout(t: Table, evs: seq<Event>, ck: Bytes) {
    ck !in After(t, evs).taken && (evs != [] ==> OutThroughout(t, evs[..|evs| - 1], ck))
  }

  lemma {:induction false} HoldLasts(t: Table, evs: seq<Event>, ck: Bytes, owner: Bytes, at: int, now: int)
    requires OnHold(t, ck, owner, at, at) && InTimeOrder(evs, at)
    requires at <= now && forall j :: 0 <= j < |evs| ==> evs[j].now <= now
    requires OutThroughout(t, evs, ck)
    ensures OnHold(After(t, evs), ck, owner, at, now) && After(t, evs).quarantineUS == t.quarantineUS
    decreases |evs|
  {
    if evs != [] {
      var n := |evs| - 1;
      HoldLasts(t, evs[..n], ck, owner, at, evs[n].now);
      StaysOnHold(After(t, evs[..n]), evs[n], ck, owner, at);
    }
  }

  /** A value that a snapshot taken at `at` moved out of the taken-set under owner A is granted to nobody
      else before at + quarantineUS while it stays out, whatever is reserved, ingested and swept in
      between; A itself gets it back at once, and from the end of the window anyone does (unless it is fenced). */
  lemma {:induction false} ReleaseHold(t: Table, snap: Snapshot, graceUS: int, at: int, evs: seq<Event>, c: Claim, now: int)
    requires var u := AfterIngest(t, snap, graceUS, DuplicateClaims(snap.claims), at);
             && ClaimKey(c) in t.taken && ClaimKey(c) !in u.taken
             && InTimeOrder(evs, at) && at <= now && (forall j :: 0 <= j < |evs| ==> evs[j].now <= now)
             && OutThroughout(u, evs, ClaimKey(c))
    ensures var v := After(AfterIngest(t, snap, graceUS, DuplicateClaims(snap.claims), at), evs);
            && (forall batch :: c in batch && c.owner != t.taken[ClaimKey(c)].owner && now < at + t.quarantineUS ==>
                  VerdictOf(v, batch, now) != Granted)
            && (!v.stopped && Served(v, c) && ClaimKey(c) !in v.fenced ==>
                  (VerdictOf(v, [c], now) == Granted <==>
                     c.owner == t.taken[ClaimKey(c)].owner || now >= at + t.quarantineUS))
  {
    var u := AfterIngest(t, snap, graceUS, DuplicateClaims(snap.claims), at);
    var ck := ClaimKey(c);
    IngestConserves(t, snap, graceUS, at);
    HoldLasts(u, evs, ck, t.taken[ck].owner, at, now);
    var v := After(u, evs);
    forall batch | c in batch && c.owner != t.taken[ck].owner && now < at + t.quarantineUS
      ensures VerdictOf(v, batch, now) != Granted
    {
      if VerdictOf(v, batch, now) == Granted { GrantedOneOwner(v, batch, now); }
    }
    GrantedMeansAdmissible(v, [c], now);
    assert forall k :: 0 <= k < |[c]| ==> (Admissible(v, [c], k, now) <==> Served(v, c) && Available(v, c, now));
  }

  // ---------------------------------------------------------------------
  // Sweeping changes no decision
  // ---------------------------------------------------------------------

  /** a is b with some holds missing, all of them over by now. */
  predicate SweptOf(a: Table, b: Table, now: int) {
    && a.(quarantined := b.quarantined) == b
    && (forall ck :: ck in a.quarantined ==> ck in b.quarantined && a.quarantined[ck] == b.quarantined[ck])
    && (forall ck :: ck in b.quarantined && ck !in a.quarantined ==> b.quarantined[ck].releaseUS + b.quarantineUS <= now)
  }

  lemma {:induction false} SweptCheck(a: Table, b: Table, claims: seq<Claim>, i: nat, batch: map<Bytes, Bytes>, now: int)
    requires SweptOf(a, b, now) && i <= |claims|
    ensures Check(a, claims, i, batch, now) == Check(b, claims, i, batch, now)
    decreases |claims| - i
  {
    if i < |claims| {
      assert Grantable(a, ClaimKey(claims[i]), claims[i].owner, claims[i].prev, now) ==
             Grantable(b, ClaimKey(claims[i]), claims[i].owner, claims[i].prev, now);
      SweptCheck(a, b, claims, i + 1, batch[ClaimKey(claims[i]) := claims[i].owner], now);
    }
  }

  lemma {:induction false} SweptInstall(a: Table, b: Table, claims: seq<Claim>, now: int)
    requires SweptOf(a, b, now)
    ensures SweptOf(Install(a, claims, now), Install(b, claims, now), now)
    decreases |claims|
  {
    if claims != [] { SweptInstall(a, b, claims[..|claims| - 1], now); }
  }

  lemma SweptStep(a: Table, b: Table, ev: Event)
    requires SweptOf(a, b, ev.now)
    ensures SweptOf(Step(a, ev), Step(b, ev), ev.now)
    ensures SweptOf(AfterSweep(a, ev.now), b, ev.now)
    ensures ev.Reserving? ==> VerdictOf(a, ev.claims, ev.now) == VerdictOf(b, ev.claims, ev.now)
  {
    match ev
    case Reserving(claims, now) =>
      SweptCheck(a, b, claims, 0, map[], now);
      SweptInstall(a, b, claims, now);
    case Ingesting(snap, graceUS, now) =>
    case Sweeping(now) =>
  }

  function WithoutSweeps(evs: seq<Event>): seq<Event> {
    if evs == [] then [] else (if evs[0].Sweeping? then [] else [evs[0]]) + WithoutSweeps(evs[1..])
  }

  lemma {:induction false} SweptAnswers(a: Table, b: Table, evs: seq<Event>, now: int)
    requires SweptOf(a, b, now) && InTimeOrder(evs, now)
    ensures Answers(a, evs) == Answers(b, WithoutSweeps(evs))
    decreases |evs|
  {
    if evs != [] {
      var ev := evs[0];
      assert InTimeOrder(evs[1..], ev.now);
      SweptStep(a, b, ev);
      if ev.Sweeping? {
        assert WithoutSweeps(evs) == WithoutSweeps(evs[1..]);
        SweptAnswers(Step(a, ev), b, evs[1..], ev.now);
      } else {
        assert WithoutSweeps(evs) == [ev] + WithoutSweeps(evs[1..]);
        assert WithoutSweeps(evs)[1..] == WithoutSweeps(evs[1..]);
        SweptAnswers(Step(a, ev), Step(b, ev), evs[1..], ev.now);
      }
    }
  }

  /** Sweeps can be put anywhere in a run, or left out, without changing a single answer. */
  lemma {:induction false} SweepsAreInvisible(t: Table, evs: seq<Event>, from: int)
    requires InTimeOrder(evs, from)
    ensures Answers(t, evs) == Answers(t, WithoutSweeps(evs))
  {
    SweptAnswers(t, t, evs, from);
  }

  // ---------------------------------------------------------------------
  // The order of a snapshot's claims changes no decision
  // ---------------------------------------------------------------------

  /** Equal except for who is recorded as owning the fenced values. */
  ghost predicate SameButFenced(a: Table, b: Table) {
    && a.(taken := b.taken) == b
    && (forall ck :: ck !in a.fenced ==> (ck in a.taken <==> ck in b.taken))
    && (forall ck :: ck !in a.fenced && ck in a.taken ==> a.taken[ck] == b.taken[ck])
  }

  lemma {:induction false} ReorderedIngest(t: Table, keys: seq<KeyRef>, claims: seq<Claim>, keys': seq<KeyRef>, claims': seq<Claim>, graceUS: int, now: int)
    requires forall c :: c in claims <==> c in claims'
    requires forall k :: k in keys <==> k in keys'
    ensures SameButFenced(AfterIngest(t, Snapshot(keys, claims), graceUS, DuplicateClaims(claims), now),
                          AfterIngest(t, Snapshot(keys', claims'), graceUS, DuplicateClaims(claims'), now))
  {
    var a := AfterIngest(t, Snapshot(keys, claims), graceUS, DuplicateClaims(claims), now);
    var b := AfterIngest(t, Snapshot(keys', claims'), graceUS, DuplicateClaims(claims'), now);
    forall ck
      ensures ck in a.fenced <==> ck in b.fenced
      ensures ck in Rows(claims) <==> ck in Rows(claims')
      ensures ck !in a.fenced && ck in Rows(claims) ==> Rows(claims)[ck] == Rows(claims')[ck]
    {
      ReorderedRows(claims, claims', ck);
      FencedIffTwoOwners(t, Snapshot(keys, claims), graceUS, now, ck);
      FencedIffTwoOwners(t, Snapshot(keys', claims'), graceUS, now, ck);
    }
    assert a.fenced == b.fenced;
    assert Rows(claims).Keys == Rows(claims').Keys;
    SameKeysHold(t, Rows(claims), Rows(claims'), graceUS, now);
    SameRowsDerive(t.taken, Rows(claims), Rows(claims'), a.fenced, graceUS, now);
    assert RefKeys(keys) == RefKeys(keys');
  }

  lemma SameKeysHold(t: Table, rows: map<Bytes, Taken>, rows': map<Bytes, Taken>, graceUS: int, now: int)
    requires rows.Keys == rows'.Keys
    ensures Held(t, rows, {}, graceUS, now) == Held(t, rows', {}, graceUS, now)
  {
    assert forall ck :: ck in rows <==> ck in rows';
  }

  lemma SameRowsDerive(taken: map<Bytes, Taken>, rows: map<Bytes, Taken>, rows': map<Bytes, Taken>, fenced: set<Bytes>, graceUS: int, now: int)
    requires rows.Keys == rows'.Keys && forall ck :: ck in rows && ck !in fenced ==> rows[ck] == rows'[ck]
    ensures forall ck :: ck !in fenced ==>
              (ck in Derived(taken, rows, {}, graceUS, now) <==> ck in Derived(taken, rows', {}, graceUS, now))
    ensures forall ck :: ck !in fenced && ck in Derived(taken, rows, {}, graceUS, now) ==>
              Derived(taken, rows, {}, graceUS, now)[ck] == Derived(taken, rows', {}, graceUS, now)[ck]
  {
    assert forall ck :: ck in rows <==> ck in rows';
  }

  lemma ReorderedRows(claims: seq<Claim>, claims': seq<Claim>, ck: Bytes)
    requires forall c :: c in claims <==> c in claims'
    ensures TwoOwners(claims, ck) <==> TwoOwners(claims', ck)
    ensures ck in Rows(claims) <==> ck in Rows(claims')
    ensures !TwoOwners(claims, ck) && ck in Rows(claims) ==> Rows(claims)[ck] == Rows(claims')[ck]
  {
    RowsAt(claims, ck);
    RowsAt(claims', ck);
  }

  lemma {:induction false} FencedCheck(a: Table, b: Table, claims: seq<Claim>, i: nat, batch: map<Bytes, Bytes>, now: int)
    requires SameButFenced(a, b) && i <= |claims|
    ensures Check(a, claims, i, batch, now) == Check(b, claims, i, batch, now)
    decreases |claims| - i
  {
    if i < |claims| {
      assert Grantable(a, ClaimKey(claims[i]), claims[i].owner, claims[i].prev, now) ==
             Grantable(b, ClaimKey(claims[i]), claims[i].owner, claims[i].prev, now);
      FencedCheck(a, b, claims, i + 1, batch[ClaimKey(claims[i]) := claims[i].owner], now);
    }
  }

  lemma {:induction false} FencedInstall(a: Table, b: Table, claims: seq<Claim>, now: int)
    requires SameButFenced(a, b)
    ensures SameButFenced(Install(a, claims, now), Install(b, claims, now))
    decreases |claims|
  {
    if claims != [] { FencedInstall(a, b, claims[..|claims| - 1], now); }
  }

  lemma {:induction false} FencedAnswers(a: Table, b: Table, evs: seq<Event>)
    requires SameButFenced(a, b) && forall i :: 0 <= i < |evs| ==> !evs[i].Ingesting?
    ensures Answers(a, evs) == Answers(b, evs)
    decreases |evs|
  {
    if evs != [] {
      if evs[0].Reserving? {
        FencedCheck(a, b, evs[0].claims, 0, map[], evs[0].now);
        FencedInstall(a, b, evs[0].claims, evs[0].now);
      }
      FencedAnswers(Step(a, evs[0]), Step(b, evs[0]), evs[1..]);
    }
  }

  /** Until the next snapshot every answer is the same for every order of a snapshot's claims. */
  lemma {:induction false} ClaimOrderIsInvisible(t: Table, keys: seq<KeyRef>, claims: seq<Claim>, keys': seq<KeyRef>, claims': seq<Claim>,
                              graceUS: int, now: int, evs: seq<Event>)
    requires forall c :: c in claims <==> c in claims'
    requires forall k :: k in keys <==> k in keys'
    requires forall i :: 0 <= i < |evs| ==> !evs[i].Ingesting?
    ensures Answers(AfterIngest(t, Snapshot(keys, claims), graceUS, DuplicateClaims(claims), now), evs) ==
            Answers(AfterIngest(t, Snapshot(keys', claims'), graceUS, DuplicateClaims(claims'), now), evs)
  {
    ReorderedIngest(t, keys, claims, keys', claims', graceUS, now);
    FencedAnswers(AfterIngest(t, Snapshot(keys, claims), graceUS, DuplicateClaims(claims), now),
                  AfterIngest(t, Snapshot(keys', claims'), graceUS, DuplicateClaims(claims'), now), evs);
  }

  // ---------------------------------------------------------------------
  // Handoff
  // ---------------------------------------------------------------------

  lemma {:induction false} LoadTakenAt(ts: seq<TakenSnap>, now: int)
    ensures LoadTaken(ts, now) == map ck | ck in TakenMap(ts) :: Taken(TakenMap(ts)[ck].owner, now, false)
    decreases |ts|
  {
    if ts != [] { LoadTakenAt(ts[..|ts| - 1], now); }
  }

  /** Loading a captured image restores every owner, as an unbacked grant made now, and the release hold exactly. */
  lemma {:induction false} LoadRestores(image: Image, t: Table, u: Table, now: int)
    requires Lists(image, t)
    ensures AfterLoad(u, image, now) ==
            u.(stopped := false, quarantined := t.quarantined,
               taken := map ck | ck in t.taken :: Taken(t.taken[ck].owner, now, false))
  {
    LoadTakenAt(image.taken, now);
  }

  /** The entry for ck is the one loaded at `at`, untouched. */
  predicate KeptSince(t: Table, ck: Bytes, owner: Bytes, at: int) {
    ck in t.taken && t.taken[ck] == Taken(owner, at, false)
  }

  /** A snapshot whose row for ck names the handed-off owner. */
  predicate Confirms(ev: Event, ck: Bytes, owner: Bytes) {
    ev.Ingesting? && ck in Rows(ev.snap.claims) && Rows(ev.snap.claims)[ck].owner == owner
  }

  /** A claim that asks for ck in the handed-off owner's stead. */
  predicate TakesOver(c: Claim, ck: Bytes, owner: Bytes) {
    ClaimKey(c) == ck && c.owner != owner && c.prev != [] && c.prev == owner
  }

  /** What may follow a load without costing ck its owner: reservations by anyone except one that takes ck
      over, and snapshots that show anything, as long as one that does not confirm the owner comes within
      the grace and before any that does. */
  predicate Lagging(evs: seq<Event>, ck: Bytes, owner: Bytes, at: int) {
    && (forall i :: 0 <= i < |evs| && evs[i].Reserving? ==> forall c :: c in evs[i].claims ==> !TakesOver(c, ck, owner))
    && (forall i :: 0 <= i < |evs| && evs[i].Ingesting? && !Confirms(evs[i], ck, owner) ==> evs[i].now - at < evs[i].graceUS)
    && (forall i, j :: 0 <= i < j < |evs| && evs[j].Ingesting? && Confirms(evs[i], ck, owner) ==> Confirms(evs[j], ck, owner))
  }

  predicate Confirmed(evs: seq<Event>, ck: Bytes, owner: Bytes) { exists i :: 0 <= i < |evs| && Confirms(evs[i], ck, owner) }

  /** A reservation that does not take ck over leaves its entry alone. */
  lemma {:induction false} ReservingKeeps(t: Table, claims: seq<Claim>, now: int, ck: Bytes)
    requires ck in t.taken && forall c :: c in claims ==> !TakesOver(c, ck, t.taken[ck].owner)
    ensures ck in AfterReserve(t, claims, now).taken && AfterReserve(t, claims, now).taken[ck] == t.taken[ck]
  {
    if VerdictOf(t, claims, now) == Granted {
      GrantedOneOwner(t, claims, now);
      InstallAt(t, claims, now, ck);
      if Mentions(claims, ck) {
        var c :| c in claims && ClaimKey(c) == ck;
        assert Available(t, c, now) && !TakesOver(c, ck, t.taken[ck].owner);
      }
    }
  }

  /** Adoption tolerates lag: however many stale snapshots follow the load, whatever they show for the value
      and whatever is reserved in between, the handed-off owner keeps it; and the entry stays the loaded
      one until a snapshot confirms the owner. */
  lemma {:induction false} AdoptionToleratesLag(u: Table, image: Image, t: Table, at: int, evs: seq<Event>, ck: Bytes)
    requires Lists(image, t) && ck in t.taken && Lagging(evs, ck, t.taken[ck].owner, at)
    ensures var v := After(AfterLoad(u, image, at), evs);
            && ck in v.taken && v.taken[ck].owner == t.taken[ck].owner
            && (!Confirmed(evs, ck, t.taken[ck].owner) ==> KeptSince(v, ck, t.taken[ck].owner, at))
    decreases |evs|
  {
    LoadRestores(image, t, u, at);
    if evs != [] {
      var n, owner := |evs| - 1, t.taken[ck].owner;
      var front, last := evs[..n], evs[n];
      AdoptionToleratesLag(u, image, t, at, front, ck);
      var v := After(AfterLoad(u, image, at), front);
      if Confirmed(front, ck, owner) {
        var i :| 0 <= i < |front| && Confirms(front[i], ck, owner);
        assert Confirms(evs[i], ck, owner);
      }
      if last.Reserving? {
        ReservingKeeps(v, last.claims, last.now, ck);
      } else if last.Ingesting? {
        assert Confirms(last, ck, owner) ==> Confirmed(evs, ck, owner);
        RowsAt(last.snap.claims, ck);
      }
    }
  }
}
