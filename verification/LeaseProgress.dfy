/** What must go through. The lease protocol is not only safe: from every reachable state a node that finds the lease
    empty, expired, relinquished or its own takes it with one undisturbed tick, and can go on to serve. Each
    decision on the lease record is stated as exactly when it succeeds (unique/lease.go, unique/leaseholder.go). */
module LeaseProgress {
  import opened Base
  import opened Lease
  import opened LeaseCluster
  import opened LeaseSafety
  import opened Reservation

  // ---------------------------------------------------------------------
  // Decisions on the record
  // ---------------------------------------------------------------------

  /** The lease is empty, the node's own, or has run out; a relinquished one ran out at zero. */
  predicate Obtainable(r: LeaseRecord, n: string, now: int) { r.owner == "" || r.owner == n || r.expiresUS <= now }

  /** Acquiring succeeds if and only if the lease is obtainable, under the next generation. */
  lemma {:induction false} AcquireIff(cur: LeaseRecord, owner: string, addr: string, now: int, ttl: int)
    ensures AcquireNext(cur, owner, addr, now, ttl) ==
            if Obtainable(cur, owner, now) then Some(LeaseRecord(owner, cur.gen + 1, now + ttl, addr)) else None
  {
  }

  /** Renewing succeeds if and only if the record is still of the holder's generation, and moves the expiry alone;
      so does relinquishing, after which anyone can acquire. */
  lemma {:induction false} RenewIff(cur: LeaseRecord, rec: LeaseRecord, now: int, ttl: int, n: string)
    ensures var same := cur.owner == rec.owner && cur.gen == rec.gen;
            && RenewNext(cur, rec, now, ttl) == (if same then Some(LeaseRecord(rec.owner, rec.gen, now + ttl, rec.addr)) else None)
            && (ReleaseNext(cur, rec).Some? <==> same)
            && (same && now >= 0 ==> ReleaseNext(cur, rec).value.gen == rec.gen && Obtainable(ReleaseNext(cur, rec).value, n, now))
  {
  }

  // ---------------------------------------------------------------------
  // Building runs
  // ---------------------------------------------------------------------

  datatype Trace = Trace(states: seq<State>, labels: seq<Label>)

  ghost predicate Runs(cfg: Config, tr: Trace) { Execution(cfg, tr.states, tr.labels) }

  function Last(tr: Trace): State
    requires |tr.states| == |tr.labels| + 1
  {
    tr.states[|tr.labels|]
  }

  predicate Calm(labels: seq<Label>) { forall l :: l in labels ==> !(l.OnLease? && l.act.StopLeading?) }

  predicate Continues(tr: Trace, more: Trace) {
    tr.states <= more.states && tr.labels <= more.labels && (Calm(tr.labels) ==> Calm(more.labels))
  }

  lemma Take(cfg: Config, tr: Trace, l: Label, t: State) returns (more: Trace)
    requires Runs(cfg, tr) && Enabled(cfg, Last(tr), l) && Next(cfg, Last(tr), l) == t
    ensures Runs(cfg, more) && Last(more) == t && more == Trace(tr.states + [t], tr.labels + [l])
    ensures Calm([l]) ==> Continues(tr, more)
  {
    more := Trace(tr.states + [t], tr.labels + [l]);
    assert l in [l];
  }

  function With(s: State, n: string, d: Node): State { s.(nodes := s.nodes[n := d]) }

  lemma WithTwice(s: State, n: string, d: Node, e: Node)
    ensures With(With(s, n, d), n, e) == With(s, n, e)
  {
    assert s.nodes[n := d][n := e] == s.nodes[n := e];
  }

  // ---------------------------------------------------------------------
  // Taking the lease
  // ---------------------------------------------------------------------

  predicate CanContend(s: State, n: string, id: nat, tag: Tag) {
    && n in s.nodes && s.nodes[n].pc.Idle? && !s.nodes[n].isLeader && Obtainable(View(s.cell), n, s.clock)
    && id !in s.puts && tag !in s.issued
  }

  function NextLease(cfg: Config, s: State, n: string, addr: string): LeaseRecord { LeaseRecord(n, View(s.cell).gen + 1, s.clock + cfg.ttl, addr) }

  function Sent(cfg: Config, s: State, n: string, id: nat, addr: string): State {
    s.(puts := s.puts[id := Put(Acquire, n, s.clock, NextLease(cfg, s, n, addr), ViewTag(s.cell))])
  }

  function Written(cfg: Config, s: State, n: string, id: nat, tag: Tag, addr: string): State {
    var rec := NextLease(cfg, s, n, addr);
    Sent(cfg, s, n, id, addr).(cell := Present(rec, tag), issued := s.issued[tag := rec], acks := s.acks + {(id, tag)}, won := s.won + [rec])
  }

  lemma TickStep(cfg: Config, s: State, n: string)
    requires n in s.nodes && s.nodes[n].pc.Idle? && !s.nodes[n].isLeader
    ensures Enabled(cfg, s, OnLease(n, StartTick))
    ensures Next(cfg, s, OnLease(n, StartTick)) == With(s, n, s.nodes[n].(pc := ToAcquire(s.clock)))
  {
  }

  lemma ReadStep(cfg: Config, s: State, n: string, id: nat, tag: Tag, addr: string)
    requires CanContend(s, n, id, tag)
    ensures var t := With(s, n, s.nodes[n].(pc := ToAcquire(s.clock)));
            && Enabled(cfg, t, OnLease(n, ReadToAcquire(id, addr)))
            && Next(cfg, t, OnLease(n, ReadToAcquire(id, addr))) == With(Sent(cfg, s, n, id, addr), n, s.nodes[n].(pc := Acquiring(s.clock, id)))
  {
    WithTwice(Sent(cfg, s, n, id, addr), n, s.nodes[n].(pc := ToAcquire(s.clock)), s.nodes[n].(pc := Acquiring(s.clock, id)));
  }

  lemma WriteStep(cfg: Config, s: State, n: string, id: nat, tag: Tag, addr: string, d: Node)
    requires CanContend(s, n, id, tag)
    ensures var t := With(Sent(cfg, s, n, id, addr), n, d);
            Enabled(cfg, t, Execute(id, tag)) && Next(cfg, t, Execute(id, tag)) == With(Written(cfg, s, n, id, tag, addr), n, d)
  {
  }

  function WonNode(cfg: Config, s: State, n: string, tag: Tag, addr: string): Node
    requires n in s.nodes
  {
    s.nodes[n].(pc := Acquired(s.clock, NextLease(cfg, s, n, addr), tag))
  }

  lemma AnswerStep(cfg: Config, s: State, n: string, id: nat, tag: Tag, addr: string)
    requires CanContend(s, n, id, tag)
    ensures var t := With(Written(cfg, s, n, id, tag, addr), n, s.nodes[n].(pc := Acquiring(s.clock, id)));
            && Enabled(cfg, t, OnLease(n, AckAcquire(tag)))
            && Next(cfg, t, OnLease(n, AckAcquire(tag))) == With(Written(cfg, s, n, id, tag, addr), n, WonNode(cfg, s, n, tag, addr))
  {
    WithTwice(Written(cfg, s, n, id, tag, addr), n, s.nodes[n].(pc := Acquiring(s.clock, id)), WonNode(cfg, s, n, tag, addr));
  }

  lemma Ask(cfg: Config, tr: Trace, n: string, id: nat, tag: Tag, addr: string) returns (more: Trace)
    requires Runs(cfg, tr) && CanContend(Last(tr), n, id, tag)
    ensures Runs(cfg, more) && Continues(tr, more)
    ensures Last(more) == With(Sent(cfg, Last(tr), n, id, addr), n, Last(tr).nodes[n].(pc := Acquiring(Last(tr).clock, id)))
  {
    var s, d := Last(tr), Last(tr).nodes[n];
    TickStep(cfg, s, n);
    more := Take(cfg, tr, OnLease(n, StartTick), With(s, n, d.(pc := ToAcquire(s.clock))));
    ReadStep(cfg, s, n, id, tag, addr);
    more := Take(cfg, more, OnLease(n, ReadToAcquire(id, addr)), With(Sent(cfg, s, n, id, addr), n, d.(pc := Acquiring(s.clock, id))));
  }

  lemma Contend(cfg: Config, tr: Trace, n: string, id: nat, tag: Tag, addr: string) returns (more: Trace)
    requires Runs(cfg, tr) && CanContend(Last(tr), n, id, tag)
    ensures Runs(cfg, more) && Continues(tr, more)
    ensures Last(more) == With(Written(cfg, Last(tr), n, id, tag, addr), n, WonNode(cfg, Last(tr), n, tag, addr))
  {
    var s, d := Last(tr), Last(tr).nodes[n];
    more := Ask(cfg, tr, n, id, tag, addr);
    WriteStep(cfg, s, n, id, tag, addr, d.(pc := Acquiring(s.clock, id)));
    more := Take(cfg, more, Execute(id, tag), With(Written(cfg, s, n, id, tag, addr), n, d.(pc := Acquiring(s.clock, id))));
    AnswerStep(cfg, s, n, id, tag, addr);
    more := Take(cfg, more, OnLease(n, AckAcquire(tag)), With(Written(cfg, s, n, id, tag, addr), n, WonNode(cfg, s, n, tag, addr)));
  }

  // ---------------------------------------------------------------------
  // Leading
  // ---------------------------------------------------------------------

  function Leader(cfg: Config, d: Node, adopted: bool): Node
    requires d.pc.Acquired?
  {
    d.(isLeader := true, lease := d.pc.rec, etag := Some(d.pc.tag), needRebuild := !adopted, pc := Maintaining(d.pc.now),
       serveAfter := if adopted || d.pc.rec.gen <= 1 then d.pc.now else d.pc.now + cfg.drain)
  }

  lemma LookStep(cfg: Config, s: State, n: string, ok: bool)
    requires n in s.nodes && s.nodes[n].pc.Acquired?
    ensures var pc := s.nodes[n].pc;
            && Enabled(cfg, s, OnTable(n, ReadHandoff(ok)))
            && Next(cfg, s, OnTable(n, ReadHandoff(ok))) == With(s, n, s.nodes[n].(pc := Loading(pc.now, pc.rec, pc.tag, if ok then s.handoff else None)))
  {
  }

  lemma DecideStep(cfg: Config, s: State, n: string)
    requires n in s.nodes && s.nodes[n].pc.Loading?
    ensures var d := s.nodes[n];
            && Enabled(cfg, s, OnTable(n, DecideAdopt))
            && (!Adoptable(cfg, d.pc) ==>
                  Next(cfg, s, OnTable(n, DecideAdopt)) == With(s, n, d.(pc := Leading(d.pc.now, d.pc.rec, d.pc.tag, false))))
            && (Adoptable(cfg, d.pc) ==>
                  Next(cfg, s, OnTable(n, DecideAdopt))
                  == With(s, n, d.(pc := Leading(d.pc.now, d.pc.rec, d.pc.tag, true), table := AfterLoad(d.table, d.pc.found.value.image, s.clock))))
  {
  }

  lemma LeadStep(cfg: Config, s: State, n: string, d: Node, adopted: bool)
    requires n in s.nodes && d.pc.Acquired? && s.nodes[n] == d.(pc := Leading(d.pc.now, d.pc.rec, d.pc.tag, adopted))
    ensures Enabled(cfg, s, OnTable(n, Lead))
    ensures Next(cfg, s, OnTable(n, Lead)) == With(s, n, Leader(cfg, d, adopted)).(led := s.led + {d.pc.rec.gen})
  {
  }

  /** The winner finds no handoff and is going to rebuild. */
  lemma TakeOver(cfg: Config, tr: Trace, n: string) returns (more: Trace)
    requires Runs(cfg, tr) && n in Last(tr).nodes && Last(tr).nodes[n].pc.Acquired?
    ensures Runs(cfg, more) && Continues(tr, more)
    ensures var d := Last(tr).nodes[n];
            Last(more) == With(Last(tr), n, Leader(cfg, d, false)).(led := Last(tr).led + {d.pc.rec.gen})
  {
    var s, d := Last(tr), Last(tr).nodes[n];
    var e := d.(pc := Loading(d.pc.now, d.pc.rec, d.pc.tag, None));
    var f := d.(pc := Leading(d.pc.now, d.pc.rec, d.pc.tag, false));
    LookStep(cfg, s, n, false);
    more := Take(cfg, tr, OnTable(n, ReadHandoff(false)), With(s, n, e));
    DecideStep(cfg, With(s, n, e), n);
    WithTwice(s, n, e, f);
    more := Take(cfg, more, OnTable(n, DecideAdopt), With(s, n, f));
    LeadStep(cfg, With(s, n, f), n, d, false);
    WithTwice(s, n, f, Leader(cfg, d, false));
    more := Take(cfg, more, OnTable(n, Lead), With(s, n, Leader(cfg, d, false)).(led := s.led + {d.pc.rec.gen}));
  }

  // ---------------------------------------------------------------------
  // Deriving the table
  // ---------------------------------------------------------------------

  function Cleared(t: Table, rebuild: bool): Table { if rebuild then AfterClear(t) else t }

  function Ingested(cfg: Config, d: Node, snap: Snapshot, now: int): Table {
    AfterIngest(Cleared(d.table, d.needRebuild), snap, cfg.grace, DuplicateClaims(snap.claims), now)
  }

  function DerivedNode(cfg: Config, d: Node, snap: Snapshot, now: int): Node {
    d.(table := AfterSweep(Ingested(cfg, d, snap, now), now), pc := Idle, needRebuild := false)
  }

  function DerivedLedger(cfg: Config, s: State, d: Node, snap: Snapshot): map<nat, map<Bytes, Bytes>> {
    s.ledger[d.lease.gen := StillHeld(GrantsOf(s.ledger, d.lease.gen), Ingested(cfg, d, snap, s.clock).taken)]
  }

  predicate CanDerive(s: State, n: string) {
    n in s.nodes && s.nodes[n].isLeader && s.nodes[n].pc.Maintaining? && s.nodes[n].pc.now >= s.nodes[n].serveAfter
  }

  function Clearing(d: Node, snap: Snapshot): Node { d.(table := Cleared(d.table, d.needRebuild), pc := Ingesting(d.needRebuild, snap)) }

  lemma Enumerates(cfg: Config, tr: Trace, n: string, snap: Snapshot) returns (more: Trace)
    requires Runs(cfg, tr) && CanDerive(Last(tr), n)
    ensures Runs(cfg, more) && Continues(tr, more) && Last(more) == With(Last(tr), n, Clearing(Last(tr).nodes[n], snap))
  {
    var s, d := Last(tr), Last(tr).nodes[n];
    var e, f := d.(pc := Enumerating(d.needRebuild)), d.(pc := Deriving(d.needRebuild, snap));
    more := Take(cfg, tr, OnTable(n, Maintain), With(s, n, e));
    WithTwice(s, n, e, f);
    more := Take(cfg, more, OnTable(n, Enumerate(Some(snap))), With(s, n, f));
    WithTwice(s, n, f, Clearing(d, snap));
    more := Take(cfg, more, OnTable(n, ClearIfRebuild), With(s, n, Clearing(d, snap)));
  }

  lemma IngestStep(cfg: Config, s: State, n: string, d: Node, snap: Snapshot)
    requires n in s.nodes && s.nodes[n] == Clearing(d, snap)
    ensures Enabled(cfg, s, OnTable(n, Ingest))
    ensures Next(cfg, s, OnTable(n, Ingest))
            == With(s, n, d.(table := Ingested(cfg, d, snap, s.clock), pc := Finishing(d.needRebuild))).(ledger := DerivedLedger(cfg, s, d, snap))
  {
  }

  lemma FinishStep(cfg: Config, s: State, n: string, d: Node, snap: Snapshot)
    requires n in s.nodes && s.nodes[n] == d.(table := Ingested(cfg, d, snap, s.clock), pc := Finishing(d.needRebuild))
    ensures Enabled(cfg, s, OnTable(n, Finish))
    ensures Next(cfg, s, OnTable(n, Finish)) == With(s, n, DerivedNode(cfg, d, snap, s.clock))
  {
  }

  /** The leader derives its table from a snapshot. */
  lemma DerivesFrom(cfg: Config, tr: Trace, n: string, snap: Snapshot) returns (more: Trace)
    requires Runs(cfg, tr) && CanDerive(Last(tr), n)
    ensures Runs(cfg, more) && Continues(tr, more)
    ensures var s, d := Last(tr), Last(tr).nodes[n];
            Last(more) == With(s, n, DerivedNode(cfg, d, snap, s.clock)).(ledger := DerivedLedger(cfg, s, d, snap))
  {
    var s, d := Last(tr), Last(tr).nodes[n];
    var f, g := d.(table := Ingested(cfg, d, snap, s.clock), pc := Finishing(d.needRebuild)), DerivedNode(cfg, d, snap, s.clock);
    var ledger := DerivedLedger(cfg, s, d, snap);
    more := Enumerates(cfg, tr, n, snap);
    IngestStep(cfg, With(s, n, Clearing(d, snap)), n, d, snap);
    WithTwice(s, n, Clearing(d, snap), f);
    more := Take(cfg, more, OnTable(n, Ingest), With(s, n, f).(ledger := ledger));
    FinishStep(cfg, With(s, n, f).(ledger := ledger), n, d, snap);
    WithTwice(s, n, f, g);
    more := Take(cfg, more, OnTable(n, Finish), With(s, n, g).(ledger := ledger));
  }

  // ---------------------------------------------------------------------
  // Renewing
  // ---------------------------------------------------------------------

  predicate CanRenew(s: State, n: string, id: nat, tag: Tag) {
    && n in s.nodes && s.nodes[n].pc.Idle? && s.nodes[n].isLeader
    && s.cell.Present? && s.cell.rec == s.nodes[n].lease && s.nodes[n].etag == Some(s.cell.tag) && id !in s.puts && tag !in s.issued
  }

  function Extension(cfg: Config, s: State, n: string): LeaseRecord
    requires n in s.nodes
  {
    s.nodes[n].lease.(expiresUS := s.clock + cfg.ttl)
  }

  function Extended(cfg: Config, s: State, n: string, id: nat, tag: Tag): State
    requires n in s.nodes
  {
    var rec := Extension(cfg, s, n);
    s.(puts := s.puts[id := Put(Renew, n, s.clock, rec, s.nodes[n].etag)], cell := Present(rec, tag), issued := s.issued[tag := rec],
       acks := s.acks + {(id, tag)})
  }

  lemma AsksToRenew(cfg: Config, tr: Trace, n: string, id: nat, tag: Tag) returns (more: Trace)
    requires Runs(cfg, tr) && CanRenew(Last(tr), n, id, tag)
    ensures Runs(cfg, more) && Continues(tr, more)
    ensures var s, d := Last(tr), Last(tr).nodes[n];
            Last(more) == With(s, n, d.(pc := Renewing(s.clock, id))).(puts := s.puts[id := Put(Renew, n, s.clock, Extension(cfg, s, n), d.etag)])
  {
    var s, d := Last(tr), Last(tr).nodes[n];
    more := Take(cfg, tr, OnLease(n, StartTick), With(s, n, d.(pc := ToRenew(s.clock))));
    WithTwice(s, n, d.(pc := ToRenew(s.clock)), d.(pc := Renewing(s.clock, id)));
    more := Take(cfg, more, OnLease(n, ReadToRenew(id)),
                 With(s, n, d.(pc := Renewing(s.clock, id))).(puts := s.puts[id := Put(Renew, n, s.clock, Extension(cfg, s, n), d.etag)]));
  }

  lemma Renews(cfg: Config, tr: Trace, n: string, id: nat, tag: Tag) returns (more: Trace)
    requires Runs(cfg, tr) && CanRenew(Last(tr), n, id, tag)
    ensures Runs(cfg, more) && Continues(tr, more)
    ensures var s, d := Last(tr), Last(tr).nodes[n];
            Last(more) == With(Extended(cfg, s, n, id, tag), n, d.(lease := Extension(cfg, s, n), etag := Some(tag), pc := Maintaining(s.clock)))
  {
    var s, d := Last(tr), Last(tr).nodes[n];
    var e, f := d.(pc := Renewing(s.clock, id)), d.(lease := Extension(cfg, s, n), etag := Some(tag), pc := Maintaining(s.clock));
    more := AsksToRenew(cfg, tr, n, id, tag);
    more := Take(cfg, more, Execute(id, tag), With(Extended(cfg, s, n, id, tag), n, e));
    WithTwice(Extended(cfg, s, n, id, tag), n, e, f);
    more := Take(cfg, more, OnLease(n, AckRenew(tag)), With(Extended(cfg, s, n, id, tag), n, f));
  }

  lemma Waits(cfg: Config, tr: Trace, ticks: nat) returns (more: Trace)
    requires Runs(cfg, tr)
    ensures Runs(cfg, more) && Continues(tr, more) && Last(more) == Last(tr).(clock := Last(tr).clock + ticks)
  {
    more := Take(cfg, tr, Advance(ticks), Last(tr).(clock := Last(tr).clock + ticks));
  }

  // ---------------------------------------------------------------------
  // Main results
  // ---------------------------------------------------------------------

  /** There is always an unused number. */
  lemma Unused(used: set<nat>) returns (x: nat)
    ensures x !in used
    decreases |used|
  {
    if used == {} {
      x := 0;
    } else {
      x := Above(used);
    }
  }

  lemma Above(used: set<nat>) returns (x: nat)
    requires used != {}
    ensures forall y :: y in used ==> y < x
    decreases |used|
  {
    var z :| z in used;
    var rest := used - {z};
    if rest == {} {
      x := z + 1;
      assert used == {z};
    } else {
      var w := Above(rest);
      x := if w > z then w else z + 1;
      forall y | y in used ensures y < x { if y != z { assert y in rest; } }
    }
  }

  /** A node that comes to read the lease sends its write if and only if the lease is obtainable to it under the
      clock reading of its tick; otherwise it goes back to waiting and nothing else changes. */
  lemma {:induction false} ContenderWritesIff(cfg: Config, s: State, n: string, id: nat, addr: string)
    requires n in s.nodes && s.nodes[n].pc.ToAcquire? && id !in s.puts
    ensures var s', now := Next(cfg, s, OnLease(n, ReadToAcquire(id, addr))), s.nodes[n].pc.now;
            if Obtainable(View(s.cell), n, now) then
              && s'.puts == s.puts[id := Put(Acquire, n, now, LeaseRecord(n, View(s.cell).gen + 1, now + cfg.ttl, addr), ViewTag(s.cell))]
              && s'.nodes[n].pc == Acquiring(now, id)
            else s' == With(s, n, s.nodes[n].(pc := Idle))
  {
    AcquireIff(View(s.cell), n, addr, s.nodes[n].pc.now, cfg.ttl);
  }

  /** A leader that comes to read the lease sends its renewal if and only if the record is still of its generation, on
      its own tag where it has one; otherwise it stops leading there and then, as it does when the write is refused. */
  lemma {:induction false} LeaderRenewsIff(cfg: Config, s: State, n: string, id: nat)
    requires n in s.nodes && s.nodes[n].isLeader && id !in s.puts
    ensures s.nodes[n].pc.ToRenew? ==>
              var d, s', now := s.nodes[n], Next(cfg, s, OnLease(n, ReadToRenew(id))), s.nodes[n].pc.now;
              if View(s.cell).owner == d.lease.owner && View(s.cell).gen == d.lease.gen then
                && s'.puts == s.puts[id := Put(Renew, n, now, LeaseRecord(d.lease.owner, d.lease.gen, now + cfg.ttl, d.lease.addr),
                                               if d.etag.Some? then d.etag else ViewTag(s.cell))]
                && s'.nodes[n] == d.(pc := Renewing(now, id))
              else s'.puts == s.puts && StoppedLeading(s', n)
    ensures s.nodes[n].pc.Renewing? && s.nodes[n].pc.id in s.nacks ==> StoppedLeading(Next(cfg, s, OnLease(n, NackRenew)), n)
  {
    RenewIff(View(s.cell), s.nodes[n].lease, if s.nodes[n].pc.ToRenew? then s.nodes[n].pc.now else 0, cfg.ttl, n);
  }

  /** n leads nothing, waits for its next tick and serves nobody. */
  ghost predicate StoppedLeading(s: State, n: string) {
    n in s.nodes && !s.nodes[n].isLeader && !s.nodes[n].needRebuild && s.nodes[n].pc.Idle? && forall g: nat :: !CanServe(s, n, g)
  }

  /** A leader that relinquishes its lease, once the write is executed, leaves it to whoever comes first. */
  lemma {:induction false} ReleaseFreesTheLease(cfg: Config, tr: Trace, n: string, m: string) returns (more: Trace)
    requires Runs(cfg, tr) && n in Last(tr).nodes && Last(tr).nodes[n].pc.Relinquishing?
    requires Last(tr).cell.Present? && Last(tr).cell.rec == Last(tr).nodes[n].lease && Last(tr).nodes[n].etag == Some(Last(tr).cell.tag)
    ensures Runs(cfg, more) && Continues(tr, more)
    ensures Last(more).cell.Present? && Last(more).cell.rec.gen == Last(tr).cell.rec.gen && Obtainable(Last(more).cell.rec, m, Last(more).clock)
  {
    var s, d := Last(tr), Last(tr).nodes[n];
    var id := Unused(s.puts.Keys);
    var tag := Unused(s.issued.Keys);
    var sent := With(s, n, d.(pc := Stopped)).(puts := s.puts[id := Put(Release, n, s.clock, d.lease.(expiresUS := 0), d.etag)]);
    more := Take(cfg, tr, OnLease(n, ReadToRelease(id)), sent);
    more := Take(cfg, more, Execute(id, tag), Executed(sent, id, tag));
    ExecutionInv(cfg, tr.states, tr.labels, |tr.labels|);
  }

  /** From every reachable state: an idle node that does not lead and finds the lease obtainable comes, by one tick
      whose write is executed and acknowledged, to lead the next generation. */
  lemma {:induction false} ObtainableLeaseIsTaken(cfg: Config, tr: Trace, n: string, addr: string) returns (more: Trace)
    requires Runs(cfg, tr) && n in Last(tr).nodes && Last(tr).nodes[n].pc.Idle? && !Last(tr).nodes[n].isLeader
    requires Obtainable(View(Last(tr).cell), n, Last(tr).clock)
    ensures Runs(cfg, more) && Continues(tr, more) && Last(more).clock == Last(tr).clock
    ensures Led(cfg, Last(tr), Last(more), n, addr)
  {
    var id := Unused(Last(tr).puts.Keys);
    var tag := Unused(Last(tr).issued.Keys);
    more := Contend(cfg, tr, n, id, tag, addr);
    more := TakeOver(cfg, more, n);
  }

  /** In t node n has just come to lead the generation after the one stored in s. */
  predicate Led(cfg: Config, s: State, t: State, n: string, addr: string) {
    && t.cell.Present? && t.cell.rec == LeaseRecord(n, GenOf(s.cell) + 1, s.clock + cfg.ttl, addr)
    && n in t.nodes && t.nodes[n].isLeader && t.nodes[n].lease == t.cell.rec && t.nodes[n].etag == Some(t.cell.tag)
    && t.nodes[n].pc == Maintaining(s.clock)
    && t.nodes[n].serveAfter == s.clock + if GenOf(s.cell) > 0 then cfg.drain else 0
  }

  /** A holder that crashed takes its own lease back at once, however long it has left. */
  lemma {:induction false} HolderTakesItBack(cfg: Config, tr: Trace, n: string, addr: string) returns (more: Trace)
    requires Runs(cfg, tr) && n in Last(tr).nodes && Last(tr).cell.Present? && Last(tr).cell.rec.owner == n
    ensures Runs(cfg, more) && Continues(tr, more) && |tr.labels| < |more.labels| && more.labels[|tr.labels|] == OnLease(n, Restart)
    ensures Led(cfg, Last(tr), Last(more), n, addr) && Last(more).clock == Last(tr).clock
  {
    var up := Take(cfg, tr, OnLease(n, Restart), With(Last(tr), n, FreshNode(cfg)));
    more := ObtainableLeaseIsTaken(cfg, up, n, addr);
  }

  /** What a leader still in its drain does: one tick that derives nothing, and waiting. */
  lemma SitsOutDrain(cfg: Config, tr: Trace, n: string, ticks: nat) returns (more: Trace)
    requires Runs(cfg, tr) && n in Last(tr).nodes && Last(tr).nodes[n].isLeader && Last(tr).nodes[n].pc.Maintaining?
    requires Last(tr).nodes[n].pc.now < Last(tr).nodes[n].serveAfter
    ensures Runs(cfg, more) && Continues(tr, more)
    ensures var s, d := Last(tr), Last(tr).nodes[n];
            Last(more) == With(s, n, d.(pc := Idle, table := AfterSweep(d.table, s.clock))).(clock := s.clock + ticks)
  {
    var s, d := Last(tr), Last(tr).nodes[n];
    more := Take(cfg, tr, OnTable(n, Maintain), With(s, n, d.(pc := Idle, table := AfterSweep(d.table, s.clock))));
    more := Waits(cfg, more, ticks);
  }

  /** A new leader gets from its first tick to one past its drain. */
  lemma ReachesService(cfg: Config, s: State, tr: Trace, n: string, addr: string) returns (more: Trace)
    requires Runs(cfg, tr) && Led(cfg, s, Last(tr), n, addr) && Last(tr).clock == s.clock && cfg.ttl > 0
    ensures Runs(cfg, more) && Continues(tr, more) && CanDerive(Last(more), n)
    ensures var d := Last(more).nodes[n];
            d.lease.gen == GenOf(s.cell) + 1 && d.pc.now == Last(more).clock && d.lease.expiresUS == Last(more).clock + cfg.ttl
  {
    more := tr;
    if s.clock < Last(tr).nodes[n].serveAfter {
      more := SitsOutDrain(cfg, tr, n, cfg.drain);
      var id := Unused(Last(more).puts.Keys);
      var tag := Unused(Last(more).issued.Keys);
      more := Renews(cfg, more, n, id, tag);
    }
  }

  /** From every reachable state and on every snapshot: such a node can go on to serve the next generation. */
  lemma {:induction false} ServiceResumes(cfg: Config, tr: Trace, n: string, addr: string, snap: Snapshot) returns (more: Trace)
    requires Runs(cfg, tr) && n in Last(tr).nodes && Last(tr).nodes[n].pc.Idle? && !Last(tr).nodes[n].isLeader
    requires Obtainable(View(Last(tr).cell), n, Last(tr).clock)
    ensures Runs(cfg, more) && Continues(tr, more) && n in Last(more).nodes && CanServe(Last(more), n, GenOf(Last(tr).cell) + 1)
  {
    more := ObtainableLeaseIsTaken(cfg, tr, n, addr);
    more := ReachesService(cfg, Last(tr), more, n, addr);
    more := DerivesFrom(cfg, more, n, snap);
  }
}
