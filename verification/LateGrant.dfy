/** Requests that arrive too late. What decides a request that passed the gate some time ago, and two runs in which
    one value goes to two owners: one whose request is held up for longer than the drain, and one in which a
    leader steps down within its drain, so that its successor adopts a table nobody derived. */
module LateGrant {
  import opened Base
  import opened Lease
  import opened LeaseCluster
  import opened LeaseProgress
  import opened Reservation
  import ReservationRuns

  /** A request that passed the gate is granted, at any later instant, if and only if its node's table has not been
      captured and finds every claim admissible: the lease, its expiry and whoever leads by then have no say. */
  lemma {:induction false} LateGrantIff(cfg: Config, s: State, n: string, gate: Gate)
    requires n in s.nodes && gate in s.nodes[n].gates
    ensures var t := s.nodes[n].table;
            && Enabled(cfg, s, OnTable(n, Grant(gate)))
            && Next(cfg, s, OnTable(n, Grant(gate))).nodes[n].gates == s.nodes[n].gates - multiset{gate}
            && (VerdictOf(t, gate.claims, s.clock) == Granted <==>
                  !t.stopped && forall k :: 0 <= k < |gate.claims| ==> ReservationRuns.Admissible(t, gate.claims, k, s.clock))
            && (VerdictOf(t, gate.claims, s.clock) == Granted ==>
                  forall c :: c in gate.claims ==>
                    ClaimKey(c) in Next(cfg, s, OnTable(n, Grant(gate))).nodes[n].table.taken
                    && Next(cfg, s, OnTable(n, Grant(gate))).nodes[n].table.taken[ClaimKey(c)].owner == c.owner)
  {
    ReservationRuns.GrantedMeansAdmissible(s.nodes[n].table, gate.claims, s.clock);
    ReservationRuns.BatchIsAtomic(s.nodes[n].table, gate.claims, s.clock);
  }

  // ---------------------------------------------------------------------
  // Adopting an empty handoff
  // ---------------------------------------------------------------------

  const EMPTY := Image([], [])

  /** The winner adopts an empty handoff of the generation before. */
  lemma Adopt(cfg: Config, tr: Trace, n: string) returns (more: Trace)
    requires Runs(cfg, tr) && n in Last(tr).nodes && Last(tr).nodes[n].pc.Acquired? && cfg.hasHandoff && Last(tr).nodes[n].pc.rec.gen > 1
    requires Last(tr).handoff == Some(Handoff(Last(tr).nodes[n].pc.rec.gen - 1, EMPTY)) && Blank(Last(tr).nodes[n].table)
    ensures Runs(cfg, more) && Continues(tr, more)
    ensures var d := Last(tr).nodes[n];
            Last(more) == With(Last(tr), n, Leader(cfg, d, true)).(led := Last(tr).led + {d.pc.rec.gen})
  {
    var s, d := Last(tr), Last(tr).nodes[n];
    var e := d.(pc := Loading(d.pc.now, d.pc.rec, d.pc.tag, s.handoff));
    var f := d.(pc := Leading(d.pc.now, d.pc.rec, d.pc.tag, true));
    LookStep(cfg, s, n, true);
    more := Take(cfg, tr, OnTable(n, ReadHandoff(true)), With(s, n, e));
    DecideStep(cfg, With(s, n, e), n);
    WithTwice(s, n, e, f);
    more := Take(cfg, more, OnTable(n, DecideAdopt), With(s, n, f));
    LeadStep(cfg, With(s, n, f), n, d, true);
    WithTwice(s, n, f, Leader(cfg, d, true));
    more := Take(cfg, more, OnTable(n, Lead), With(s, n, Leader(cfg, d, true)).(led := s.led + {d.pc.rec.gen}));
  }

  predicate Blank(t: Table) { t.taken == map[] && t.quarantined == map[] && !t.stopped }

  // ---------------------------------------------------------------------
  // Tables in which nothing is taken
  // ---------------------------------------------------------------------

  function Ready(quarantineUS: int, key: KeyRef): Table { Table(map[], map[], {KeyRefKey(key.table, key.key)}, {}, false, quarantineUS) }

  lemma IngestsNothing(cfg: Config, d: Node, key: KeyRef, now: int)
    requires Blank(d.table)
    ensures AfterSweep(Ingested(cfg, d, Snapshot([key], []), now), now) == Ready(d.table.quarantineUS, key)
  {
    var u := Ingested(cfg, d, Snapshot([key], []), now);
    assert u.taken == map[] && u.quarantined == map[];
    assert key in [key] && u.servable == {KeyRefKey(key.table, key.key)};
    assert u.quarantined - Expired(u, now) == map[];
  }

  /** The leader derives its table from a snapshot that shows the key and no rows. */
  lemma Derives(cfg: Config, tr: Trace, n: string, key: KeyRef) returns (more: Trace)
    requires Runs(cfg, tr) && CanDerive(Last(tr), n)
    requires Blank(Last(tr).nodes[n].table) && GrantsOf(Last(tr).ledger, Last(tr).nodes[n].lease.gen) == map[]
    ensures Runs(cfg, more) && Continues(tr, more)
    ensures var d := Last(tr).nodes[n];
            Last(more) == With(Last(tr), n, d.(table := Ready(d.table.quarantineUS, key), pc := Idle, needRebuild := false))
                          .(ledger := Last(tr).ledger[d.lease.gen := map[]])
  {
    var s, d := Last(tr), Last(tr).nodes[n];
    more := DerivesFrom(cfg, tr, n, Snapshot([key], []));
    IngestsNothing(cfg, d, key, s.clock);
    assert StillHeld(map[], Ingested(cfg, d, Snapshot([key], []), s.clock).taken) == map[];
  }

  // ---------------------------------------------------------------------
  // Serving
  // ---------------------------------------------------------------------

  /** A node that serves generation h from a table in which nothing is taken. */
  predicate Serving(s: State, m: string, h: nat, key: KeyRef) {
    m in s.nodes && CanServe(s, m, h) && s.nodes[m].table == Ready(s.nodes[m].table.quarantineUS, key)
  }

  /** A request at n's table, in which nothing is taken. */
  predicate Pending(s: State, n: string, gate: Gate, key: KeyRef) {
    n in s.nodes && gate in s.nodes[n].gates && s.nodes[n].table == Ready(s.nodes[n].table.quarantineUS, key)
  }

  predicate On(c: Claim, key: KeyRef) { c.table == key.table && c.key == key.key }

  lemma Passes(cfg: Config, tr: Trace, m: string, gate: Gate, key: KeyRef) returns (more: Trace)
    requires Runs(cfg, tr) && Serving(Last(tr), m, gate.gen, key)
    ensures Runs(cfg, more) && Continues(tr, more) && more.labels == tr.labels + [OnTable(m, PassGate(gate))]
    ensures Last(more) == With(Last(tr), m, Last(tr).nodes[m].(gates := Last(tr).nodes[m].gates + multiset{gate}))
    ensures Pending(Last(more), m, gate, key) && Serving(Last(more), m, gate.gen, key)
  {
    var s := Last(tr);
    more := Take(cfg, tr, OnTable(m, PassGate(gate)), With(s, m, s.nodes[m].(gates := s.nodes[m].gates + multiset{gate})));
  }

  lemma ReadyGrants(quarantineUS: int, key: KeyRef, c: Claim, now: int)
    requires On(c, key)
    ensures VerdictOf(Ready(quarantineUS, key), [c], now) == Granted
    ensures var u := AfterReserve(Ready(quarantineUS, key), [c], now); ClaimKey(c) in u.taken && u.taken[ClaimKey(c)].owner == c.owner
  {
    var t := Ready(quarantineUS, key);
    assert ReservationRuns.Admissible(t, [c], 0, now);
    ReservationRuns.GrantedMeansAdmissible(t, [c], now);
    ReservationRuns.BatchIsAtomic(t, [c], now);
    assert c in [c];
  }

  predicate Owns(s: State, n: string, c: Claim) {
    n in s.nodes && ClaimKey(c) in s.nodes[n].table.taken && s.nodes[n].table.taken[ClaimKey(c)].owner == c.owner
  }

  /** A pending request on the key is granted, and no other node notices. */
  lemma Grants(cfg: Config, tr: Trace, n: string, g: nat, c: Claim, key: KeyRef) returns (more: Trace)
    requires Runs(cfg, tr) && Pending(Last(tr), n, Gate(g, [c]), key) && On(c, key)
    ensures VerdictOf(Last(tr).nodes[n].table, [c], Last(tr).clock) == Granted
    ensures Runs(cfg, more) && Continues(tr, more) && more.labels == tr.labels + [OnTable(n, Grant(Gate(g, [c])))]
    ensures Owns(Last(more), n, c) && Last(more).clock == Last(tr).clock
    ensures forall m :: m in Last(tr).nodes ==> m in Last(more).nodes
    ensures forall m :: m in Last(tr).nodes && m != n ==> Last(more).nodes[m] == Last(tr).nodes[m]
    ensures forall h :: CanServe(Last(tr), n, h) ==> CanServe(Last(more), n, h)
  {
    var s, l := Last(tr), OnTable(n, Grant(Gate(g, [c])));
    ReadyGrants(s.nodes[n].table.quarantineUS, key, c, s.clock);
    more := Take(cfg, tr, l, Next(cfg, s, l));
  }

  // ---------------------------------------------------------------------
  // Stepping down
  // ---------------------------------------------------------------------

  predicate CanStepDown(cfg: Config, s: State, n: string, id: nat, tag: Tag) { CanRenew(s, n, id, tag) && Blank(s.nodes[n].table) && cfg.hasHandoff }

  function Gone(d: Node): Node { d.(isLeader := false, pc := Stopped, table := d.table.(stopped := true)) }

  function Published(s: State, n: string): State
    requires n in s.nodes
  {
    var h := Handoff(s.nodes[n].lease.gen, EMPTY);
    s.(writes := s.writes + {h}, captured := s.captured + {h.gen}, handoff := Some(h))
  }

  lemma CaptureStep(cfg: Config, s: State, n: string, d: Node)
    requires n in s.nodes && s.nodes[n] == d.(isLeader := false, pc := Capturing) && Blank(d.table) && cfg.hasHandoff
    ensures Enabled(cfg, s, OnTable(n, Capture(EMPTY)))
    ensures Next(cfg, s, OnTable(n, Capture(EMPTY)))
            == With(s, n, Gone(d).(pc := Relinquishing)).(writes := s.writes + {Handoff(d.lease.gen, EMPTY)}, captured := s.captured + {d.lease.gen})
  {
    assert ReservedIn(d.table.taken, {}) == map[];
  }

  lemma Publishes(cfg: Config, tr: Trace, n: string, id: nat, tag: Tag) returns (more: Trace)
    requires Runs(cfg, tr) && CanStepDown(cfg, Last(tr), n, id, tag)
    ensures Runs(cfg, more) && tr.states <= more.states && tr.labels <= more.labels
    ensures Last(more) == With(Published(Last(tr), n), n, Gone(Last(tr).nodes[n]).(pc := Relinquishing))
  {
    var s, d := Last(tr), Last(tr).nodes[n];
    var e, f, h := d.(isLeader := false, pc := Capturing), Gone(d).(pc := Relinquishing), Handoff(d.lease.gen, EMPTY);
    more := Take(cfg, tr, OnLease(n, StopLeading), With(s, n, e));
    CaptureStep(cfg, With(s, n, e), n, d);
    WithTwice(s, n, e, f);
    more := Take(cfg, more, OnTable(n, Capture(EMPTY)), With(s, n, f).(writes := s.writes + {h}, captured := s.captured + {h.gen}));
    more := Take(cfg, more, LandHandoff(h), With(Published(s, n), n, f));
  }

  function Released(s: State, n: string, id: nat, tag: Tag): State
    requires n in s.nodes
  {
    var rec := s.nodes[n].lease.(expiresUS := 0);
    Published(s, n).(puts := s.puts[id := Put(Release, n, s.clock, rec, s.nodes[n].etag)], cell := Present(rec, tag),
                     issued := s.issued[tag := rec], acks := s.acks + {(id, tag)})
  }

  lemma StepsDown(cfg: Config, tr: Trace, n: string, id: nat, tag: Tag) returns (more: Trace)
    requires Runs(cfg, tr) && CanStepDown(cfg, Last(tr), n, id, tag)
    ensures Runs(cfg, more) && tr.states <= more.states && tr.labels <= more.labels
    ensures Last(more) == With(Released(Last(tr), n, id, tag), n, Gone(Last(tr).nodes[n]))
  {
    var s, d := Last(tr), Last(tr).nodes[n];
    var f, rec := Gone(d).(pc := Relinquishing), d.lease.(expiresUS := 0);
    var sent := Published(s, n).(puts := s.puts[id := Put(Release, n, s.clock, rec, d.etag)]);
    more := Publishes(cfg, tr, n, id, tag);
    WithTwice(sent, n, f, Gone(d));
    more := Take(cfg, more, OnLease(n, ReadToRelease(id)), With(sent, n, Gone(d)));
    more := Take(cfg, more, Execute(id, tag), With(Released(s, n, id, tag), n, Gone(d)));
  }

  // ---------------------------------------------------------------------
  // The two runs
  // ---------------------------------------------------------------------

  predicate Strangers(cfg: Config, s: State, known: set<string>) { forall m :: m in s.nodes && m !in known ==> s.nodes[m] == FreshNode(cfg) }

  ghost predicate NothingGranted(s: State) { forall g :: GrantsOf(s.ledger, g) == map[] }

  /** a leads generation 1 until e, and nobody else has done anything yet. */
  ghost predicate Opening(cfg: Config, s: State, a: string, e: int) {
    && s.cell == Present(LeaseRecord(a, 1, e, ""), 0) && s.puts.Keys == {0} && s.issued.Keys == {0}
    && s.clock >= 0 && a in s.nodes && s.nodes[a].lease == s.cell.rec && Strangers(cfg, s, {a}) && NothingGranted(s)
  }

  lemma Opens(cfg: Config, s0: State, a: string, key: KeyRef) returns (tr: Trace)
    requires Init(cfg, s0) && a in s0.nodes
    ensures Runs(cfg, tr) && Calm(tr.labels) && Last(tr).nodes.Keys == s0.nodes.Keys
    ensures Opening(cfg, Last(tr), a, s0.clock + cfg.ttl) && Serving(Last(tr), a, 1, key) && Last(tr).clock == s0.clock
  {
    tr := Trace([s0], []);
    tr := Contend(cfg, tr, a, 0, 0, "");
    tr := TakeOver(cfg, tr, a);
    tr := Derives(cfg, tr, a, key);
  }

  /** a lets a request through just before its lease runs out. */
  lemma LetsThrough(cfg: Config, s0: State, a: string, key: KeyRef, gate: Gate) returns (tr: Trace, i: nat)
    requires Init(cfg, s0) && a in s0.nodes && gate.gen == 1
    ensures Runs(cfg, tr) && Calm(tr.labels) && Last(tr).nodes.Keys == s0.nodes.Keys
    ensures i < |tr.labels| && tr.labels[i] == OnTable(a, PassGate(gate)) && tr.states[i].clock + 1 == Last(tr).clock
    ensures Opening(cfg, Last(tr), a, Last(tr).clock) && Pending(Last(tr), a, gate, key)
  {
    tr := Opens(cfg, s0, a, key);
    tr := Waits(cfg, tr, cfg.ttl - 1);
    i := |tr.labels|;
    tr := Passes(cfg, tr, a, gate, key);
    tr := Waits(cfg, tr, 1);
  }

  /** b leads generation 2 and is in its drain, with the request still pending at a. */
  ghost predicate Draining(cfg: Config, s: State, a: string, b: string, gate: Gate, key: KeyRef) {
    && Pending(s, a, gate, key) && CanRenew(s, b, 2, 2) && s.puts.Keys == {0, 1} && s.issued.Keys == {0, 1}
    && s.nodes[b].lease.gen == 2 && s.nodes[b].serveAfter == s.clock + cfg.drain && Blank(s.nodes[b].table)
    && s.clock >= 0 && Strangers(cfg, s, {a, b}) && NothingGranted(s)
  }

  lemma Succeeds(cfg: Config, tr: Trace, a: string, b: string, gate: Gate, key: KeyRef) returns (more: Trace)
    requires Runs(cfg, tr) && Opening(cfg, Last(tr), a, Last(tr).clock) && Pending(Last(tr), a, gate, key)
    requires b in Last(tr).nodes && a != b && cfg.drain > 0
    ensures Runs(cfg, more) && Continues(tr, more) && Last(more).clock == Last(tr).clock && Last(more).nodes.Keys == Last(tr).nodes.Keys
    ensures Draining(cfg, Last(more), a, b, gate, key)
  {
    more := Contend(cfg, tr, b, 1, 1, "");
    more := TakeOver(cfg, more, b);
    var s := Last(more);
    assert AfterSweep(s.nodes[b].table, s.clock) == s.nodes[b].table;
    more := Take(cfg, more, OnTable(b, Maintain), With(s, b, s.nodes[b].(pc := Idle)));
  }

  /** b sits its drain out, derives its table and serves. */
  lemma SitsOut(cfg: Config, tr: Trace, a: string, b: string, gate: Gate, key: KeyRef) returns (more: Trace)
    requires Runs(cfg, tr) && cfg.ttl > 0 && cfg.drain > 0 && a != b && Draining(cfg, Last(tr), a, b, gate, key)
    ensures Runs(cfg, more) && Continues(tr, more) && Last(more).clock == Last(tr).clock + cfg.drain
    ensures Pending(Last(more), a, gate, key) && Serving(Last(more), b, 2, key)
  {
    more := Waits(cfg, tr, cfg.drain);
    more := Renews(cfg, more, b, 2, 2);
    more := Derives(cfg, more, b, key);
  }

  lemma LeavesToWinner(cfg: Config, tr: Trace, a: string, b: string, z: string, gate: Gate, key: KeyRef) returns (more: Trace)
    requires Runs(cfg, tr) && cfg.ttl > 0 && cfg.hasHandoff && a != b && b != z && z != a && z in Last(tr).nodes
    requires Draining(cfg, Last(tr), a, b, gate, key)
    ensures Runs(cfg, more) && tr.states <= more.states && tr.labels <= more.labels && Last(more).clock == Last(tr).clock
    ensures Pending(Last(more), a, gate, key) && NothingGranted(Last(more)) && Last(more).handoff == Some(Handoff(2, EMPTY))
    ensures var s := Last(more); z in s.nodes && s.nodes[z] == FreshNode(cfg).(pc := Acquired(s.clock, LeaseRecord(z, 3, s.clock + cfg.ttl, ""), 3))
  {
    more := StepsDown(cfg, tr, b, 2, 2);
    more := Contend(cfg, more, z, 3, 3, "");
  }

  /** b hands on what it has and z adopts it. */
  lemma HandsOn(cfg: Config, tr: Trace, a: string, b: string, z: string, gate: Gate, key: KeyRef) returns (more: Trace)
    requires Runs(cfg, tr) && cfg.ttl > 0 && cfg.hasHandoff && a != b && b != z && z != a && z in Last(tr).nodes
    requires Draining(cfg, Last(tr), a, b, gate, key)
    ensures Runs(cfg, more) && tr.states <= more.states && tr.labels <= more.labels && Last(more).clock == Last(tr).clock
    ensures Pending(Last(more), a, gate, key) && Serving(Last(more), z, 3, key)
  {
    more := LeavesToWinner(cfg, tr, a, b, z, gate, key);
    more := Adopt(cfg, more, z);
    more := Derives(cfg, more, z, key);
  }

  /** The value goes to d at the node that serves, and then to c at a. */
  lemma GrantsTwice(cfg: Config, tr: Trace, a: string, m: string, h: nat, key: KeyRef, c: Claim, d: Claim) returns (more: Trace)
    requires Runs(cfg, tr) && Pending(Last(tr), a, Gate(1, [c]), key) && Serving(Last(tr), m, h, key) && a != m && On(c, key) && On(d, key)
    ensures Runs(cfg, more) && Continues(tr, more)
    ensures GrantedTwice(more, a, m, h, c, d) && more.states[|more.labels| - 1].clock == Last(tr).clock && |tr.labels| < |more.labels| - 1
  {
    more := Passes(cfg, tr, m, Gate(h, [d]), key);
    more := Grants(cfg, more, m, h, d, key);
    more := Grants(cfg, more, a, 1, c, key);
  }

  /** The last step grants c at a, under generation 1, while m serves generation h and has given the value to d. */
  predicate GrantedTwice(tr: Trace, a: string, m: string, h: nat, c: Claim, d: Claim) {
    && |tr.labels| >= 1 && |tr.states| == |tr.labels| + 1
    && var j := |tr.labels| - 1;
       && tr.labels[j] == OnTable(a, Grant(Gate(1, [c]))) && a in tr.states[j].nodes && m in tr.states[j].nodes
       && VerdictOf(tr.states[j].nodes[a].table, [c], tr.states[j].clock) == Granted
       && CanServe(tr.states[j], m, h)
       && Owns(Last(tr), a, c) && Owns(Last(tr), m, d)
  }

  /** Held up for the drain and one tick, a request is granted although its successor serves: c and d may claim
      one value for two owners. Nobody stepped down. */
  lemma {:induction false} LateRequestMakesTwoOwners(cfg: Config, s0: State, a: string, b: string, key: KeyRef, c: Claim, d: Claim)
    returns (tr: Trace, i: nat)
    requires Init(cfg, s0) && a in s0.nodes && b in s0.nodes && a != b && cfg.drain > 0 && On(c, key) && On(d, key)
    ensures Runs(cfg, tr) && Calm(tr.labels) && i < |tr.labels| - 1 && tr.labels[i] == OnTable(a, PassGate(Gate(1, [c])))
    ensures GrantedTwice(tr, a, b, 2, c, d) && tr.states[|tr.labels| - 1].clock == tr.states[i].clock + cfg.drain + 1
  {
    tr, i := LetsThrough(cfg, s0, a, key, Gate(1, [c]));
    tr := Succeeds(cfg, tr, a, b, Gate(1, [c]), key);
    tr := SitsOut(cfg, tr, a, b, Gate(1, [c]), key);
    tr := GrantsTwice(cfg, tr, a, b, 2, key, c, d);
  }

  /** The leader after a steps down within its drain. Its successor adopts a table nobody derived and serves at
      once, so the same happens to a request that arrives within the drain. */
  lemma {:induction false} HastyHandoffMakesTwoOwners(cfg: Config, s0: State, a: string, b: string, z: string, key: KeyRef, c: Claim, d: Claim)
    returns (tr: Trace, i: nat)
    requires Init(cfg, s0) && a in s0.nodes && b in s0.nodes && z in s0.nodes && a != b && b != z && z != a
    requires cfg.hasHandoff && cfg.drain > 1 && On(c, key) && On(d, key)
    ensures Runs(cfg, tr) && i < |tr.labels| - 1 && tr.labels[i] == OnTable(a, PassGate(Gate(1, [c])))
    ensures GrantedTwice(tr, a, z, 3, c, d) && tr.states[|tr.labels| - 1].clock < tr.states[i].clock + cfg.drain
  {
    tr, i := LetsThrough(cfg, s0, a, key, Gate(1, [c]));
    tr := Succeeds(cfg, tr, a, b, Gate(1, [c]), key);
    tr := HandsOn(cfg, tr, a, b, z, Gate(1, [c]), key);
    tr := GrantsTwice(cfg, tr, a, z, 3, key, c, d);
  }
}
