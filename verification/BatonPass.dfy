/** The graceful handoff over every execution of the cluster: what a captured generation granted is
    exactly what its direct successor adopts, and the captured generation grants nothing more. */
module BatonPass {
  import opened Base
  import opened Lease
  import opened LeaseCluster
  import opened LeaseSafety
  import opened Reservation
  import ReservationRuns

  ghost predicate OwnsGen(s: State, m: string, g: nat) {
    exists t :: t in s.issued && s.issued[t].gen == g && s.issued[t].owner == m
  }

  lemma OneOwner(s: State, m: string, k: string, g: nat)
    requires StoreInv(s) && OwnsGen(s, m, g) && OwnsGen(s, k, g)
    ensures m == k
  {
    var t :| t in s.issued && s.issued[t].gen == g && s.issued[t].owner == m;
    var u :| u in s.issued && s.issued[u].gen == g && s.issued[u].owner == k;
  }

  /** The node's table is that of the generation it leads, or is about to be captured. */
  predicate Active(d: Node) { d.isLeader || d.pc.Capturing? }

  predicate Halted(d: Node) { d.table.stopped && (d.pc.Relinquishing? || d.pc.Stopped?) }

  predicate Rebuilds(pc: Pc) { (pc.Enumerating? || pc.Deriving? || pc.Ingesting? || pc.Finishing?) && pc.rebuild }

  predicate Covers(grants: map<Bytes, Bytes>, taken: map<Bytes, Taken>) {
    forall ck :: ck in grants ==> ck in taken && taken[ck].owner == grants[ck]
  }

  ghost predicate LeadsWell(s: State, m: string)
    requires m in s.nodes
  {
    var d := s.nodes[m];
    && (Active(d) ==> OwnsGen(s, m, d.lease.gen) && d.lease.gen in s.led && d.lease.gen !in s.captured
                      && Covers(GrantsOf(s.ledger, d.lease.gen), d.table.taken))
    && (d.isLeader && d.needRebuild ==> GrantsOf(s.ledger, d.lease.gen) == map[])
    && (Rebuilds(d.pc) ==> d.needRebuild)
    && (d.pc.Loading? && d.pc.found.Some? ==> d.pc.found.value in s.writes)
  }

  ghost predicate GatesWell(s: State, m: string)
    requires m in s.nodes
  {
    var d := s.nodes[m];
    forall gate :: gate in d.gates ==>
      && gate.gen in s.led && OwnsGen(s, m, gate.gen)
      && (gate.gen in s.captured ==> Halted(d))
      && (d.isLeader && d.needRebuild ==> gate.gen != d.lease.gen)
  }

  /** The published image holds every grant of its generation. */
  ghost predicate Faithful(s: State, h: Handoff) {
    && h.gen in s.captured
    && forall ck :: ck in GrantsOf(s.ledger, h.gen) ==>
         ck in TakenMap(h.image.taken) && TakenMap(h.image.taken)[ck].owner == GrantsOf(s.ledger, h.gen)[ck]
  }

  ghost predicate HistoryInv(s: State) {
    && (forall g :: g in s.led ==> g <= GenOf(s.cell)) && s.captured <= s.led
    && (forall g :: g !in s.led ==> GrantsOf(s.ledger, g) == map[])
    && (s.handoff.Some? ==> s.handoff.value in s.writes)
    && (forall h :: h in s.writes ==> Faithful(s, h))
  }

  /** A generation not led yet is held only on the way to leading it. */
  ghost predicate NotYetLed(s: State, m: string, r: LeaseRecord) {
    Holds(s, m, r) && !s.nodes[m].isLeader ==> r.gen !in s.led
  }

  ghost predicate BatonInv(s: State) {
    && HistoryInv(s)
    && (forall m :: m in s.nodes ==> LeadsWell(s, m) && GatesWell(s, m))
    && (forall m, r :: NotYetLed(s, m, r))
  }

  // ---------------------------------------------------------------------
  // Frames
  // ---------------------------------------------------------------------

  /** Nothing that concerns a generation m owned has changed. */
  ghost predicate Untouched(s: State, s': State, m: string) {
    && m in s.nodes && m in s'.nodes && s'.nodes[m] == s.nodes[m]
    && s.led <= s'.led && s.writes <= s'.writes
    && (forall t :: t in s.issued ==> t in s'.issued && s'.issued[t] == s.issued[t])
    && (forall g :: OwnsGen(s, m, g) ==> GrantsOf(s'.ledger, g) == GrantsOf(s.ledger, g) && (g in s'.captured ==> g in s.captured))
  }

  lemma OwnsFrame(s: State, s': State, m: string, g: nat)
    requires OwnsGen(s, m, g) && forall t :: t in s.issued ==> t in s'.issued && s'.issued[t] == s.issued[t]
    ensures OwnsGen(s', m, g)
  {
    var t :| t in s.issued && s.issued[t].gen == g && s.issued[t].owner == m;
    assert t in s'.issued;
  }

  lemma MemberFrame(s: State, s': State, m: string)
    requires Untouched(s, s', m) && LeadsWell(s, m) && GatesWell(s, m)
    ensures LeadsWell(s', m) && GatesWell(s', m)
  {
    var d := s.nodes[m];
    if Active(d) { OwnsFrame(s, s', m, d.lease.gen); }
    forall gate | gate in d.gates ensures OwnsGen(s', m, gate.gen) { OwnsFrame(s, s', m, gate.gen); }
  }

  /** The history is the same, and so is every node but n. */
  ghost predicate OnlyNode(s: State, s': State, n: string) {
    && StepOf(s, s', n) && n in s'.nodes
    && s'.led == s.led && s'.captured == s.captured && s'.ledger == s.ledger
    && s'.handoff == s.handoff && s'.writes == s.writes
  }

  lemma OnlyNodeInv(s: State, s': State, n: string)
    requires BatonInv(s) && OnlyNode(s, s', n) && LeadsWell(s', n) && GatesWell(s', n)
    requires forall m, r :: NotYetLed(s', m, r)
    ensures BatonInv(s')
  {
    forall m | m in s'.nodes ensures LeadsWell(s', m) && GatesWell(s', m) {
      if m != n { MemberFrame(s, s', m); }
    }
    forall h | h in s'.writes ensures Faithful(s', h) { assert Faithful(s, h); }
  }

  // ---------------------------------------------------------------------
  // Store steps
  // ---------------------------------------------------------------------

  lemma ExecuteNotYetLed(cfg: Config, s: State, id: nat, tag: Tag, m: string, r: LeaseRecord)
    requires Inv(cfg, s) && BatonInv(s) && Enabled(cfg, s, Execute(id, tag))
    ensures NotYetLed(Executed(s, id, tag), m, r)
  {
    var s' := Executed(s, id, tag);
    if Holds(s', m, r) && !s'.nodes[m].isLeader {
      assert PutInv(cfg, s, id) && NotYetLed(s, m, r) && NodeInv(cfg, s, m);
      if Matches(s.cell, s.puts[id].cond) {
        HoldsAfterExecute(cfg, s, id, tag, m, r);
        ExecuteStore(cfg, s, id, tag);
      } else {
        assert Holds(s, m, r);
      }
    }
  }

  lemma ExecuteHistory(cfg: Config, s: State, id: nat, tag: Tag)
    requires Inv(cfg, s) && HistoryInv(s) && Enabled(cfg, s, Execute(id, tag))
    ensures HistoryInv(Executed(s, id, tag))
  {
    var s' := Executed(s, id, tag);
    StepGeneration(cfg, s, Execute(id, tag));
    forall h | h in s'.writes ensures Faithful(s', h) { assert Faithful(s, h); }
  }

  lemma ExecuteMember(cfg: Config, s: State, id: nat, tag: Tag, m: string)
    requires Inv(cfg, s) && Enabled(cfg, s, Execute(id, tag)) && m in s.nodes && LeadsWell(s, m) && GatesWell(s, m)
    ensures LeadsWell(Executed(s, id, tag), m) && GatesWell(Executed(s, id, tag), m)
  {
    NamesSurvive(s, id, tag);
    MemberFrame(s, Executed(s, id, tag), m);
  }

  lemma ExecuteBaton(cfg: Config, s: State, id: nat, tag: Tag)
    requires Inv(cfg, s) && BatonInv(s) && Enabled(cfg, s, Execute(id, tag))
    ensures BatonInv(Executed(s, id, tag))
  {
    var s' := Executed(s, id, tag);
    ExecuteHistory(cfg, s, id, tag);
    forall m, r ensures NotYetLed(s', m, r) { ExecuteNotYetLed(cfg, s, id, tag, m, r); }
    forall m | m in s'.nodes ensures LeadsWell(s', m) && GatesWell(s', m) { ExecuteMember(cfg, s, id, tag, m); }
  }

  lemma EnvironmentBaton(cfg: Config, s: State, l: Label)
    requires BatonInv(s) && Enabled(cfg, s, l) && (l.Advance? || l.LandHandoff?)
    ensures BatonInv(Next(cfg, s, l))
  {
    var s' := Next(cfg, s, l);
    forall m, r ensures NotYetLed(s', m, r) { assert NotYetLed(s, m, r) && (Holds(s', m, r) ==> Holds(s, m, r)); }
    forall m | m in s'.nodes ensures LeadsWell(s', m) && GatesWell(s', m) { MemberFrame(s, s', m); }
    forall h | h in s'.writes ensures Faithful(s', h) { assert Faithful(s, h); }
  }

  // ---------------------------------------------------------------------
  // Lease steps
  // ---------------------------------------------------------------------

  /** A lease step never starts to lead, and what it holds without leading it held so before. */
  lemma LeaseNotYetLed(cfg: Config, s: State, n: string, act: LeaseAct, m: string, r: LeaseRecord)
    requires Inv(cfg, s) && BatonInv(s) && n in s.nodes && LeaseEnabled(s, n, act)
    ensures NotYetLed(LeaseStep(cfg, s, n, act), m, r)
  {
    var s' := LeaseStep(cfg, s, n, act);
    if Holds(s', m, r) && !s'.nodes[m].isLeader {
      assert NodeInv(cfg, s, m) && NotYetLed(s, m, r);
      LeaseStepShape(cfg, s, n, act);
      if m == n { LeaseHolds(cfg, s, n, act, r); } else { assert Holds(s, m, r); }
    }
  }

  lemma LeaseHolds(cfg: Config, s: State, n: string, act: LeaseAct, r: LeaseRecord)
    requires n in s.nodes && NodeInv(cfg, s, n) && LeaseEnabled(s, n, act) && StoreInv(s)
    requires var s' := LeaseStep(cfg, s, n, act); Holds(s', n, r) && !s'.nodes[n].isLeader
    ensures Holds(s, n, r) && !s.nodes[n].isLeader
  {
    LeaseStepShape(cfg, s, n, act);
    if act.AckAcquire? { assert (s.nodes[n].pc.id, act.tag) in s.acks; }
  }

  /** What a lease step can do to a node: leave its table and requests alone, or wipe it. */
  predicate LeaseShape(d: Node, e: Node) {
    && !Rebuilds(e.pc) && !e.pc.Loading?
    && (Active(e) ==> Active(d) && e.lease.gen == d.lease.gen && e.table == d.table)
    && (e.isLeader && e.needRebuild ==> d.isLeader && d.needRebuild)
    && (e.gates == multiset{} || (e.gates == d.gates && (Halted(d) ==> Halted(e))))
  }

  lemma LeaseNodeShape(cfg: Config, s: State, n: string, act: LeaseAct)
    requires n in s.nodes && NodeInv(cfg, s, n) && LeaseEnabled(s, n, act)
    ensures LeaseShape(s.nodes[n], LeaseNode(cfg, s, n, act))
  {
  }

  lemma LeaseMember(s: State, s': State, n: string)
    requires OnlyNode(s, s', n) && LeaseShape(s.nodes[n], s'.nodes[n])
    requires LeadsWell(s, n) && GatesWell(s, n)
    ensures LeadsWell(s', n) && GatesWell(s', n)
  {
    assert forall g :: OwnsGen(s, n, g) ==> OwnsGen(s', n, g);
  }

  lemma LeaseBaton(cfg: Config, s: State, n: string, act: LeaseAct)
    requires Inv(cfg, s) && BatonInv(s) && n in s.nodes && LeaseEnabled(s, n, act)
    ensures BatonInv(LeaseStep(cfg, s, n, act))
  {
    var s' := LeaseStep(cfg, s, n, act);
    LeaseStepShape(cfg, s, n, act);
    assert NodeInv(cfg, s, n);
    LeaseNodeShape(cfg, s, n, act);
    LeaseMember(s, s', n);
    forall m, r ensures NotYetLed(s', m, r) { LeaseNotYetLed(cfg, s, n, act, m, r); }
    OnlyNodeInv(s, s', n);
  }

  // ---------------------------------------------------------------------
  // Table steps
  // ---------------------------------------------------------------------

  lemma TableHolds(cfg: Config, s: State, n: string, op: TableAct, m: string, r: LeaseRecord)
    requires n in s.nodes && TableEnabled(s, n, op)
    requires var s' := TableStep(cfg, s, n, op); Holds(s', m, r) && !s'.nodes[m].isLeader
    ensures Holds(s, m, r) && !s.nodes[m].isLeader
    ensures op.Lead? ==> m != n
  {
    TableStepShape(cfg, s, n, op);
  }

  predicate Plain(op: TableAct) { op.ReadHandoff? || op.DecideAdopt? || op.Maintain? || op.Enumerate? || op.ClearIfRebuild? || op.Finish? }

  /** The upkeep steps touch the taken-set only to load or clear it, and then nothing is granted under the node's generation. */
  lemma PlainShape(cfg: Config, s: State, n: string, op: TableAct)
    requires n in s.nodes && NodeInv(cfg, s, n) && TableEnabled(s, n, op) && Plain(op)
    requires Rebuilds(s.nodes[n].pc) ==> s.nodes[n].needRebuild
    ensures var d, e := s.nodes[n], TableNode(cfg, s, n, op);
            && e.gates == d.gates && e.isLeader == d.isLeader && !e.pc.Capturing? && !Halted(d) && e.lease == d.lease
            && (e.isLeader ==> e.table.taken == d.table.taken || d.needRebuild)
            && (e.needRebuild ==> d.needRebuild) && (Rebuilds(e.pc) ==> e.needRebuild)
            && (e.pc.Loading? && e.pc.found.Some? ==> s.handoff == e.pc.found)
  {
  }

  lemma PlainMember(cfg: Config, s: State, n: string, op: TableAct)
    requires Inv(cfg, s) && HistoryInv(s) && n in s.nodes && TableEnabled(s, n, op) && Plain(op)
    requires LeadsWell(s, n) && GatesWell(s, n)
    ensures var s' := TableStep(cfg, s, n, op); OnlyNode(s, s', n) && LeadsWell(s', n) && GatesWell(s', n)
  {
    var s' := TableStep(cfg, s, n, op);
    assert NodeInv(cfg, s, n);
    TableStepShape(cfg, s, n, op);
    PlainShape(cfg, s, n, op);
    assert forall g :: OwnsGen(s, n, g) ==> OwnsGen(s', n, g);
  }

  lemma PassGateMember(cfg: Config, s: State, n: string, op: TableAct)
    requires Inv(cfg, s) && n in s.nodes && TableEnabled(s, n, op) && op.PassGate?
    requires LeadsWell(s, n) && GatesWell(s, n)
    ensures var s' := TableStep(cfg, s, n, op); OnlyNode(s, s', n) && LeadsWell(s', n) && GatesWell(s', n)
  {
    var s', d := TableStep(cfg, s, n, op), s.nodes[n];
    TableStepShape(cfg, s, n, op);
    assert NodeInv(cfg, s, n);
    assert s'.nodes[n] == d.(gates := d.gates + multiset{op.gate});
    assert forall g :: OwnsGen(s, n, g) ==> OwnsGen(s', n, g);
  }

  lemma LeadLeads(cfg: Config, s: State, n: string)
    requires Inv(cfg, s) && HistoryInv(s) && n in s.nodes && s.nodes[n].pc.Leading? && NotYetLed(s, n, s.nodes[n].pc.rec)
    ensures LeadsWell(TableStep(cfg, s, n, Lead), n)
  {
    var s', d := TableStep(cfg, s, n, Lead), s.nodes[n];
    assert NodeInv(cfg, s, n) && Holds(s, n, d.pc.rec) && HoldInv(s, n, d.pc.rec);
    assert OwnsGen(s', n, d.pc.rec.gen);
  }

  lemma LeadGates(cfg: Config, s: State, n: string)
    requires n in s.nodes && NodeInv(cfg, s, n) && s.nodes[n].pc.Leading? && GatesWell(s, n) && NotYetLed(s, n, s.nodes[n].pc.rec)
    ensures GatesWell(TableStep(cfg, s, n, Lead), n)
  {
    var s', d := TableStep(cfg, s, n, Lead), s.nodes[n];
    assert Holds(s, n, d.pc.rec);
    assert s'.nodes[n].gates == d.gates && s'.nodes[n].lease == d.pc.rec;
    forall gate | gate in d.gates ensures OwnsGen(s', n, gate.gen) { assert OwnsGen(s, n, gate.gen); }
  }

  lemma LeadNotYetLed(cfg: Config, s: State, n: string, m: string, r: LeaseRecord)
    requires Inv(cfg, s) && BatonInv(s) && n in s.nodes && s.nodes[n].pc.Leading?
    ensures NotYetLed(TableStep(cfg, s, n, Lead), m, r)
  {
    var s' := TableStep(cfg, s, n, Lead);
    if Holds(s', m, r) && !s'.nodes[m].isLeader {
      TableHolds(cfg, s, n, Lead, m, r);
      assert NotYetLed(s, m, r);
      if r.gen == s.nodes[n].pc.rec.gen { SameGenSameNode(cfg, s, m, r, n, s.nodes[n].pc.rec); }
    }
  }

  lemma PlainBaton(cfg: Config, s: State, n: string, op: TableAct)
    requires Inv(cfg, s) && BatonInv(s) && n in s.nodes && TableEnabled(s, n, op) && (Plain(op) || op.PassGate?)
    ensures BatonInv(TableStep(cfg, s, n, op))
  {
    var s' := TableStep(cfg, s, n, op);
    if Plain(op) { PlainMember(cfg, s, n, op); } else { PassGateMember(cfg, s, n, op); }
    forall m, r ensures NotYetLed(s', m, r) {
      if Holds(s', m, r) && !s'.nodes[m].isLeader { TableHolds(cfg, s, n, op, m, r); assert NotYetLed(s, m, r); }
    }
    OnlyNodeInv(s, s', n);
  }

  /** A step of n that extends the history: only generations n owns may be concerned. */
  lemma HistoryStepInv(s: State, s': State, n: string)
    requires StoreInv(s) && BatonInv(s) && StepOf(s, s', n) && n in s'.nodes && s.led <= s'.led && s.writes <= s'.writes
    requires HistoryInv(s') && LeadsWell(s', n) && GatesWell(s', n)
    requires forall g :: !OwnsGen(s, n, g) ==> GrantsOf(s'.ledger, g) == GrantsOf(s.ledger, g) && (g in s'.captured ==> g in s.captured)
    requires forall m, r :: NotYetLed(s', m, r)
    ensures BatonInv(s')
  {
    forall m | m in s'.nodes ensures LeadsWell(s', m) && GatesWell(s', m) {
      if m != n {
        forall g | OwnsGen(s, m, g) ensures GrantsOf(s'.ledger, g) == GrantsOf(s.ledger, g) && (g in s'.captured ==> g in s.captured) {
          if OwnsGen(s, n, g) { OneOwner(s, m, n, g); }
        }
        MemberFrame(s, s', m);
      }
    }
  }

  lemma LeadHistory(cfg: Config, s: State, n: string)
    requires StoreInv(s) && HistoryInv(s) && n in s.nodes && s.nodes[n].pc.Leading? && NodeInv(cfg, s, n)
    ensures HistoryInv(TableStep(cfg, s, n, Lead))
  {
    var s' := TableStep(cfg, s, n, Lead);
    forall h | h in s'.writes ensures Faithful(s', h) { assert Faithful(s, h); }
  }

  lemma LeadBaton(cfg: Config, s: State, n: string)
    requires Inv(cfg, s) && BatonInv(s) && n in s.nodes && s.nodes[n].pc.Leading?
    ensures BatonInv(TableStep(cfg, s, n, Lead))
  {
    var s' := TableStep(cfg, s, n, Lead);
    TableStepShape(cfg, s, n, Lead);
    assert NodeInv(cfg, s, n) && NotYetLed(s, n, s.nodes[n].pc.rec);
    LeadLeads(cfg, s, n);
    LeadGates(cfg, s, n);
    LeadHistory(cfg, s, n);
    forall m, r ensures NotYetLed(s', m, r) { LeadNotYetLed(cfg, s, n, m, r); }
    HistoryStepInv(s, s', n);
  }

  lemma TableNotYetLed(cfg: Config, s: State, n: string, op: TableAct, m: string, r: LeaseRecord)
    requires BatonInv(s) && n in s.nodes && TableEnabled(s, n, op) && !op.Lead?
    ensures NotYetLed(TableStep(cfg, s, n, op), m, r)
  {
    var s' := TableStep(cfg, s, n, op);
    if Holds(s', m, r) && !s'.nodes[m].isLeader { TableHolds(cfg, s, n, op, m, r); assert NotYetLed(s, m, r); }
  }

  lemma IngestHistory(cfg: Config, s: State, n: string)
    requires HistoryInv(s) && n in s.nodes && s.nodes[n].isLeader && TableEnabled(s, n, Ingest) && LeadsWell(s, n)
    ensures var s' := TableStep(cfg, s, n, Ingest);
            HistoryInv(s') && forall g :: !OwnsGen(s, n, g) ==> GrantsOf(s'.ledger, g) == GrantsOf(s.ledger, g)
  {
    var s' := TableStep(cfg, s, n, Ingest);
    assert forall g :: g != s.nodes[n].lease.gen ==> GrantsOf(s'.ledger, g) == GrantsOf(s.ledger, g);
    forall h | h in s'.writes ensures Faithful(s', h) { assert Faithful(s, h); }
  }

  lemma IngestBaton(cfg: Config, s: State, n: string)
    requires Inv(cfg, s) && BatonInv(s) && n in s.nodes && TableEnabled(s, n, Ingest)
    ensures BatonInv(TableStep(cfg, s, n, Ingest))
  {
    var s' := TableStep(cfg, s, n, Ingest);
    assert NodeInv(cfg, s, n) && LeadsWell(s, n) && GatesWell(s, n);
    TableStepShape(cfg, s, n, Ingest);
    IngestMember(cfg, s, n);
    IngestHistory(cfg, s, n);
    forall m, r ensures NotYetLed(s', m, r) { TableNotYetLed(cfg, s, n, Ingest, m, r); }
    HistoryStepInv(s, s', n);
  }

  lemma IngestMember(cfg: Config, s: State, n: string)
    requires n in s.nodes && NodeInv(cfg, s, n) && TableEnabled(s, n, Ingest) && LeadsWell(s, n) && GatesWell(s, n)
    ensures var s' := TableStep(cfg, s, n, Ingest); LeadsWell(s', n) && GatesWell(s', n)
  {
    IngestLeads(cfg, s, n);
    IngestGates(cfg, s, n);
  }

  lemma IngestLeads(cfg: Config, s: State, n: string)
    requires n in s.nodes && NodeInv(cfg, s, n) && TableEnabled(s, n, Ingest) && LeadsWell(s, n)
    ensures LeadsWell(TableStep(cfg, s, n, Ingest), n)
  {
    var s', d := TableStep(cfg, s, n, Ingest), s.nodes[n];
    var e := s'.nodes[n];
    assert e.isLeader && e.lease == d.lease && e.needRebuild == d.needRebuild && e.pc == Finishing(d.pc.rebuild);
    assert GrantsOf(s'.ledger, d.lease.gen) == StillHeld(GrantsOf(s.ledger, d.lease.gen), e.table.taken);
    OwnsFrame(s, s', n, d.lease.gen);
  }

  lemma IngestGates(cfg: Config, s: State, n: string)
    requires n in s.nodes && NodeInv(cfg, s, n) && TableEnabled(s, n, Ingest) && GatesWell(s, n)
    ensures GatesWell(TableStep(cfg, s, n, Ingest), n)
  {
    var s', d := TableStep(cfg, s, n, Ingest), s.nodes[n];
    assert s'.nodes[n].gates == d.gates && s'.nodes[n].lease == d.lease && s'.nodes[n].needRebuild == d.needRebuild;
    forall gate | gate in d.gates ensures OwnsGen(s', n, gate.gen) { OwnsFrame(s, s', n, gate.gen); }
  }

  // Capture ---------------------------------------------------------------

  lemma CaptureMember(cfg: Config, s: State, n: string, op: TableAct)
    requires op.Capture? && n in s.nodes && NodeInv(cfg, s, n) && TableEnabled(s, n, op) && LeadsWell(s, n) && GatesWell(s, n)
    ensures var s' := TableStep(cfg, s, n, op); LeadsWell(s', n) && GatesWell(s', n)
  {
    var s', d := TableStep(cfg, s, n, op), s.nodes[n];
    var e := s'.nodes[n];
    assert !e.isLeader && e.pc == Relinquishing && e.gates == d.gates && (cfg.hasHandoff ==> e.table.stopped);
    assert forall h :: OwnsGen(s, n, h) ==> OwnsGen(s', n, h);
  }

  lemma CaptureHistory(cfg: Config, s: State, n: string, op: TableAct)
    requires op.Capture? && HistoryInv(s) && n in s.nodes && TableEnabled(s, n, op) && LeadsWell(s, n)
    ensures HistoryInv(TableStep(cfg, s, n, op))
  {
    var s', d := TableStep(cfg, s, n, op), s.nodes[n];
    assert s'.ledger == s.ledger;
    forall h | h in s'.writes ensures Faithful(s', h) {
      if h in s.writes { assert Faithful(s, h); } else { CaptureIsFaithful(GrantsOf(s.ledger, h.gen), d.table, h.image); }
    }
  }

  lemma CaptureIsFaithful(grants: map<Bytes, Bytes>, t: Table, image: Image)
    requires Covers(grants, t.taken) && Lists(image, t)
    ensures forall ck :: ck in grants ==> ck in TakenMap(image.taken) && TakenMap(image.taken)[ck].owner == grants[ck]
  {
    assert forall ck :: ck in t.taken ==> ck in ReservedIn(t.taken, {}) && ReservedIn(t.taken, {})[ck].owner == t.taken[ck].owner;
  }

  lemma CaptureBaton(cfg: Config, s: State, n: string, op: TableAct)
    requires op.Capture? && Inv(cfg, s) && BatonInv(s) && n in s.nodes && TableEnabled(s, n, op)
    ensures BatonInv(TableStep(cfg, s, n, op))
  {
    var s' := TableStep(cfg, s, n, op);
    assert NodeInv(cfg, s, n) && LeadsWell(s, n) && GatesWell(s, n);
    TableStepShape(cfg, s, n, op);
    CaptureMember(cfg, s, n, op);
    CaptureHistory(cfg, s, n, op);
    forall m, r ensures NotYetLed(s', m, r) { TableNotYetLed(cfg, s, n, op, m, r); }
    assert s'.ledger == s.ledger && (forall g :: g in s'.captured && g !in s.captured ==> g == s.nodes[n].lease.gen);
    HistoryStepInv(s, s', n);
  }

  // Grant -----------------------------------------------------------------

  lemma {:induction false} InstallCovers(t: Table, claims: seq<Claim>, now: int, grants: map<Bytes, Bytes>)
    requires Covers(grants, t.taken)
    ensures Covers((grants - OwnersOf(claims).Keys) + OwnersOf(claims), Install(t, claims, now).taken)
  {
    if claims != [] {
      var init, c := claims[..|claims| - 1], claims[|claims| - 1];
      InstallCovers(t, init, now, grants);
      var ck := ClaimKey(c);
      var before := (grants - OwnersOf(init).Keys) + OwnersOf(init);
      var after := (grants - OwnersOf(claims).Keys) + OwnersOf(claims);
      forall k | k in after ensures k in Install(t, claims, now).taken && Install(t, claims, now).taken[k].owner == after[k] {
        if k != ck { assert k in before && before[k] == after[k]; }
      }
    }
  }

  /** Installing a batch keeps every other grant of the node's generation in place. */
  lemma InstallKeepsOthers(t: Table, claims: seq<Claim>, now: int, grants: map<Bytes, Bytes>)
    requires Covers(grants, t.taken)
    ensures Covers(grants - OwnersOf(claims).Keys, Install(t, claims, now).taken)
  {
    InstallCovers(t, claims, now, grants);
    var rest, all := grants - OwnersOf(claims).Keys, (grants - OwnersOf(claims).Keys) + OwnersOf(claims);
    assert forall ck :: ck in rest ==> ck in all && all[ck] == rest[ck];
  }

  predicate Granting(s: State, n: string, op: TableAct)
    requires n in s.nodes
  {
    op.Grant? && op.gate in s.nodes[n].gates && VerdictOf(s.nodes[n].table, op.gate.claims, s.clock) == Granted
  }

  /** What a granted batch does to the ledger of each generation. */
  lemma GrantLedger(cfg: Config, s: State, n: string, op: TableAct, g: nat)
    requires n in s.nodes && Granting(s, n, op)
    ensures var grants, owners := GrantsOf(s.ledger, g), OwnersOf(op.gate.claims);
            GrantsOf(LedgerAfter(cfg, s, n, op), g) ==
              if g == op.gate.gen then (if Active(s.nodes[n]) && g == s.nodes[n].lease.gen then grants - owners.Keys else grants) + owners
              else if Active(s.nodes[n]) && g == s.nodes[n].lease.gen then grants - owners.Keys
              else grants
  {
  }

  lemma GrantLeads(cfg: Config, s: State, n: string, op: TableAct)
    requires n in s.nodes && Granting(s, n, op) && LeadsWell(s, n) && GatesWell(s, n)
    ensures LeadsWell(TableStep(cfg, s, n, op), n)
  {
    var s', d := TableStep(cfg, s, n, op), s.nodes[n];
    var e, g := s'.nodes[n], d.lease.gen;
    assert e == d.(table := Install(d.table, op.gate.claims, s.clock), gates := d.gates - multiset{op.gate});
    assert forall h :: OwnsGen(s, n, h) ==> OwnsGen(s', n, h);
    GrantLedger(cfg, s, n, op, g);
    if Active(d) {
      InstallCovers(d.table, op.gate.claims, s.clock, GrantsOf(s.ledger, g));
      InstallKeepsOthers(d.table, op.gate.claims, s.clock, GrantsOf(s.ledger, g));
    }
  }

  lemma GrantGates(cfg: Config, s: State, n: string, op: TableAct)
    requires n in s.nodes && op.Grant? && TableEnabled(s, n, op) && GatesWell(s, n)
    ensures GatesWell(TableStep(cfg, s, n, op), n)
  {
    var s', d := TableStep(cfg, s, n, op), s.nodes[n];
    var e := s'.nodes[n];
    assert e.gates == d.gates - multiset{op.gate} && e.pc == d.pc && e.isLeader == d.isLeader && e.lease == d.lease && e.needRebuild == d.needRebuild;
    assert d.table.stopped ==> e.table == d.table;
    forall gate | gate in e.gates ensures gate in d.gates && OwnsGen(s', n, gate.gen) { assert OwnsGen(s, n, gate.gen); }
  }

  lemma GrantHistory(cfg: Config, s: State, n: string, op: TableAct)
    requires n in s.nodes && Granting(s, n, op) && HistoryInv(s) && LeadsWell(s, n) && GatesWell(s, n)
    ensures HistoryInv(TableStep(cfg, s, n, op))
    ensures forall g :: !OwnsGen(s, n, g) || g in s.captured ==> GrantsOf(TableStep(cfg, s, n, op).ledger, g) == GrantsOf(s.ledger, g)
  {
    var s', d := TableStep(cfg, s, n, op), s.nodes[n];
    assert !d.table.stopped && !Halted(d) && op.gate.gen !in s.captured;
    forall g ensures !OwnsGen(s, n, g) || g in s.captured ==> GrantsOf(s'.ledger, g) == GrantsOf(s.ledger, g)
             ensures g !in s'.led ==> GrantsOf(s'.ledger, g) == map[] {
      GrantLedger(cfg, s, n, op, g);
    }
    forall h | h in s'.writes ensures Faithful(s', h) { assert Faithful(s, h); }
  }

  lemma GrantBaton(cfg: Config, s: State, n: string, op: TableAct)
    requires op.Grant? && Inv(cfg, s) && BatonInv(s) && n in s.nodes && TableEnabled(s, n, op)
    ensures BatonInv(TableStep(cfg, s, n, op))
  {
    var s', d := TableStep(cfg, s, n, op), s.nodes[n];
    assert LeadsWell(s, n) && GatesWell(s, n);
    TableStepShape(cfg, s, n, op);
    GrantGates(cfg, s, n, op);
    forall m, r ensures NotYetLed(s', m, r) { TableNotYetLed(cfg, s, n, op, m, r); }
    if Granting(s, n, op) {
      GrantLeads(cfg, s, n, op);
      GrantHistory(cfg, s, n, op);
      HistoryStepInv(s, s', n);
    } else {
      assert s'.nodes[n] == d.(gates := d.gates - multiset{op.gate});
      assert forall h :: OwnsGen(s, n, h) ==> OwnsGen(s', n, h);
      OnlyNodeInv(s, s', n);
    }
  }

  // ---------------------------------------------------------------------
  // Executions
  // ---------------------------------------------------------------------

  lemma TableBaton(cfg: Config, s: State, n: string, op: TableAct)
    requires Inv(cfg, s) && BatonInv(s) && n in s.nodes && TableEnabled(s, n, op)
    ensures BatonInv(TableStep(cfg, s, n, op))
  {
    match op
    case Lead => LeadBaton(cfg, s, n);
    case Ingest => IngestBaton(cfg, s, n);
    case Capture(_) => CaptureBaton(cfg, s, n, op);
    case Grant(_) => GrantBaton(cfg, s, n, op);
    case _ => PlainBaton(cfg, s, n, op);
  }

  lemma {:induction false} StepBaton(cfg: Config, s: State, l: Label)
    requires Inv(cfg, s) && BatonInv(s) && Enabled(cfg, s, l)
    ensures BatonInv(Next(cfg, s, l))
  {
    match l
    case Execute(id, tag) => ExecuteBaton(cfg, s, id, tag);
    case OnLease(n, act) => LeaseBaton(cfg, s, n, act);
    case OnTable(n, op) => TableBaton(cfg, s, n, op);
    case _ => EnvironmentBaton(cfg, s, l);
  }

  lemma InitBaton(cfg: Config, s: State)
    requires Init(cfg, s)
    ensures BatonInv(s)
  {
  }

  lemma {:induction false} ExecutionBaton(cfg: Config, states: seq<State>, labels: seq<Label>, i: nat)
    requires Execution(cfg, states, labels) && i <= |labels|
    ensures BatonInv(states[i])
    decreases i
  {
    if i == 0 {
      InitBaton(cfg, states[0]);
    } else {
      ExecutionInv(cfg, states, labels, i - 1);
      ExecutionBaton(cfg, states, labels, i - 1);
      StepBaton(cfg, states[i - 1], labels[i - 1]);
      assert states[i - 1 + 1] == Next(cfg, states[i - 1], labels[i - 1]);
    }
  }

  // ---------------------------------------------------------------------
  // Main results
  // ---------------------------------------------------------------------

  /** A direct baton pass loses no grant: everything the captured generation granted and had not released
      is in the adopter's taken-set under the same owner, as an in-flight grant. */
  lemma {:induction false} AdoptionLosesNothing(cfg: Config, states: seq<State>, labels: seq<Label>, i: nat, n: string, ck: Bytes)
    requires Execution(cfg, states, labels) && i < |labels| && labels[i] == OnTable(n, DecideAdopt)
    requires n in states[i].nodes && states[i].nodes[n].pc.Loading? && Adoptable(cfg, states[i].nodes[n].pc)
    requires ck in GrantsOf(states[i].ledger, states[i].nodes[n].pc.rec.gen - 1)
    ensures n in states[i + 1].nodes && ck in states[i + 1].nodes[n].table.taken
    ensures states[i + 1].nodes[n].table.taken[ck] ==
            Taken(GrantsOf(states[i].ledger, states[i].nodes[n].pc.rec.gen - 1)[ck], states[i].clock, false)
  {
    var s := states[i];
    ExecutionBaton(cfg, states, labels, i);
    var h := s.nodes[n].pc.found.value;
    assert LeadsWell(s, n) && Faithful(s, h);
    ReservationRuns.LoadTakenAt(h.image.taken, s.clock);
    assert states[i + 1] == Next(cfg, s, labels[i]);
  }

  lemma QuietLedger(cfg: Config, s: State, n: string, op: TableAct)
    requires n in s.nodes && TableEnabled(s, n, op) && !Granting(s, n, op) && !op.Ingest?
    ensures LedgerAfter(cfg, s, n, op) == s.ledger
  {
  }

  lemma TableFreezes(cfg: Config, s: State, n: string, op: TableAct, g: nat)
    requires n in s.nodes && TableEnabled(s, n, op) && NodeInv(cfg, s, n) && HistoryInv(s) && LeadsWell(s, n) && GatesWell(s, n)
    requires g in s.captured
    ensures GrantsOf(LedgerAfter(cfg, s, n, op), g) == GrantsOf(s.ledger, g)
  {
    if Granting(s, n, op) {
      assert !Halted(s.nodes[n]);
      GrantLedger(cfg, s, n, op, g);
    } else if op.Ingest? {
      OtherLedger(cfg, s, n, g);
    } else {
      QuietLedger(cfg, s, n, op);
    }
  }

  lemma OtherLedger(cfg: Config, s: State, n: string, g: nat)
    requires n in s.nodes && TableEnabled(s, n, Ingest) && g != s.nodes[n].lease.gen
    ensures GrantsOf(LedgerAfter(cfg, s, n, Ingest), g) == GrantsOf(s.ledger, g)
  {
  }

  lemma StepFreezes(cfg: Config, s: State, l: Label, g: nat)
    requires Inv(cfg, s) && BatonInv(s) && Enabled(cfg, s, l) && g in s.captured
    ensures var s' := Next(cfg, s, l); g in s'.captured && GrantsOf(s'.ledger, g) == GrantsOf(s.ledger, g)
  {
    if l.OnTable? {
      assert LeadsWell(s, l.n) && GatesWell(s, l.n) && NodeInv(cfg, s, l.n);
      TableFreezes(cfg, s, l.n, l.op, g);
    }
  }

  /** Once captured, a generation's grants never change again. */
  lemma {:induction false} CapturedIsFrozen(cfg: Config, states: seq<State>, labels: seq<Label>, g: nat, i: nat, j: nat)
    requires Execution(cfg, states, labels) && i <= j <= |labels| && g in states[i].captured
    ensures g in states[j].captured && GrantsOf(states[j].ledger, g) == GrantsOf(states[i].ledger, g)
    decreases j - i
  {
    if i < j {
      CapturedIsFrozen(cfg, states, labels, g, i, j - 1);
      ExecutionInv(cfg, states, labels, j - 1);
      ExecutionBaton(cfg, states, labels, j - 1);
      StepFreezes(cfg, states[j - 1], labels[j - 1], g);
      assert states[j - 1 + 1] == Next(cfg, states[j - 1], labels[j - 1]);
    }
  }

  /** A request that passed the gate of a generation captured since is refused, whenever it arrives. */
  lemma {:induction false} CapturedGrantsNothing(cfg: Config, states: seq<State>, labels: seq<Label>, i: nat, n: string, gate: Gate)
    requires Execution(cfg, states, labels) && i <= |labels| && n in states[i].nodes
    requires gate in states[i].nodes[n].gates && gate.gen in states[i].captured
    ensures VerdictOf(states[i].nodes[n].table, gate.claims, states[i].clock) == NotServing
  {
    ExecutionBaton(cfg, states, labels, i);
    assert GatesWell(states[i], n);
  }

  /** The record an adopter reads was published by a capture of the generation it names, and lists that
      table at that instant. */
  lemma {:induction false} HandoffIsACapture(cfg: Config, states: seq<State>, labels: seq<Label>, i: nat, h: Handoff)
    returns (j: nat, m: string)
    requires Execution(cfg, states, labels) && i <= |labels| && h in states[i].writes
    ensures j < i && labels[j] == OnTable(m, Capture(h.image)) && m in states[j].nodes
    ensures states[j].nodes[m].lease.gen == h.gen && Lists(h.image, states[j].nodes[m].table)
    decreases i
  {
    assert states[i - 1 + 1] == Next(cfg, states[i - 1], labels[i - 1]);
    if h in states[i - 1].writes {
      j, m := HandoffIsACapture(cfg, states, labels, i - 1, h);
    } else {
      j, m := i - 1, labels[i - 1].n;
    }
  }

  /** The baton pass is exact: the adopter starts from the very table its predecessor captured, owner for
      owner and release hold for release hold, and every entry counts as a fresh in-flight grant. */
  lemma {:induction false} AdoptionIsExact(cfg: Config, states: seq<State>, labels: seq<Label>, i: nat, n: string) returns (j: nat, m: string)
    requires Execution(cfg, states, labels) && i < |labels| && labels[i] == OnTable(n, DecideAdopt)
    requires n in states[i].nodes && states[i].nodes[n].pc.Loading? && Adoptable(cfg, states[i].nodes[n].pc)
    ensures j < i && labels[j].OnTable? && labels[j].n == m && labels[j].op.Capture? && m in states[j].nodes
    ensures states[j].nodes[m].lease.gen == states[i].nodes[n].pc.rec.gen - 1
    ensures n in states[i + 1].nodes
    ensures var from, to := states[j].nodes[m].table, states[i + 1].nodes[n].table;
            && to.taken == (map ck | ck in from.taken :: Taken(from.taken[ck].owner, states[i].clock, false))
            && to.quarantined == from.quarantined && !to.stopped
  {
    var s := states[i];
    ExecutionBaton(cfg, states, labels, i);
    assert LeadsWell(s, n);
    var h := s.nodes[n].pc.found.value;
    j, m := HandoffIsACapture(cfg, states, labels, i, h);
    ReservationRuns.LoadRestores(h.image, states[j].nodes[m].table, s.nodes[n].table, s.clock);
    assert states[i + 1] == Next(cfg, s, labels[i]);
  }
}
