/** What the failover drain is for. The gate of a reserve request and its grant are two steps, so a request can
    reach its table after the lease that let it through has expired. If no later leader steps down within its
    own drain, a request granted less than the drain after it passed the gate is granted before any later
    generation serves. */
module DrainWindow {
  import opened Base
  import opened Lease
  import opened LeaseCluster
  import opened LeaseSafety
  import opened BatonPass
  import opened Reservation

  // ---------------------------------------------------------------------
  // Ticks
  // ---------------------------------------------------------------------

  /** A node contends under a clock reading no older than any it wrote under before. */
  ghost predicate TickNode(s: State, m: string)
    requires m in s.nodes
  {
    var pc := s.nodes[m].pc;
    && (pc.ToAcquire? ==> forall id :: id in s.puts && s.puts[id].node == m ==> s.puts[id].now <= pc.now)
    && (pc.Acquiring? ==> pc.id in s.puts && s.puts[pc.id].now == pc.now)
  }

  ghost predicate WrittenBy(s: State, r: LeaseRecord) { exists id :: id in s.puts && s.puts[id].next == r }

  ghost predicate TickInv(s: State) {
    && (s.cell.Present? ==> WrittenBy(s, s.cell.rec))
    && (forall m :: m in s.nodes ==> TickNode(s, m))
  }

  lemma WrittenStays(s: State, s': State, r: LeaseRecord)
    requires WrittenBy(s, r) && forall id :: id in s.puts ==> id in s'.puts && s'.puts[id] == s.puts[id]
    ensures WrittenBy(s', r)
  {
    var id :| id in s.puts && s.puts[id].next == r;
    assert id in s'.puts;
  }

  lemma LeaseTickNode(cfg: Config, s: State, n: string, act: LeaseAct)
    requires Inv(cfg, s) && n in s.nodes && TickNode(s, n) && LeaseEnabled(s, n, act)
    ensures TickNode(LeaseStep(cfg, s, n, act), n)
  {
    LeaseStepShape(cfg, s, n, act);
    forall id | id in s.puts ensures s.puts[id].now <= s.clock { assert PutInv(cfg, s, id); }
  }

  lemma TableTickNode(cfg: Config, s: State, n: string, op: TableAct)
    requires n in s.nodes && TickNode(s, n) && TableEnabled(s, n, op)
    ensures TickNode(TableStep(cfg, s, n, op), n)
  {
  }

  lemma OthersTick(s: State, s': State, n: string)
    requires TickInv(s) && StepOf(s, s', n) && n in s'.nodes && TickNode(s', n)
    ensures TickInv(s')
  {
    if s.cell.Present? { WrittenStays(s, s', s.cell.rec); }
    forall m | m in s'.nodes ensures TickNode(s', m) { if m != n { assert TickNode(s, m); } }
  }

  lemma StoreTick(s: State, s': State)
    requires TickInv(s) && s'.puts == s.puts && s'.nodes == s.nodes
    requires s'.cell == s.cell || (s'.cell.Present? && WrittenBy(s', s'.cell.rec))
    ensures TickInv(s')
  {
    if s'.cell == s.cell && s.cell.Present? { WrittenStays(s, s', s.cell.rec); }
    forall m | m in s'.nodes ensures TickNode(s', m) { assert TickNode(s, m); }
  }

  lemma NodeTick(cfg: Config, s: State, l: Label)
    requires Inv(cfg, s) && TickInv(s) && Enabled(cfg, s, l) && (l.OnLease? || l.OnTable?)
    ensures TickInv(Next(cfg, s, l))
  {
    if l.OnLease? {
      LeaseStepShape(cfg, s, l.n, l.act);
      LeaseTickNode(cfg, s, l.n, l.act);
    } else {
      TableStepShape(cfg, s, l.n, l.op);
      TableTickNode(cfg, s, l.n, l.op);
    }
    OthersTick(s, Next(cfg, s, l), l.n);
  }

  lemma StepTick(cfg: Config, s: State, l: Label)
    requires Inv(cfg, s) && TickInv(s) && Enabled(cfg, s, l)
    ensures TickInv(Next(cfg, s, l))
  {
    match l
    case Execute(id, tag) =>
      assert id in Executed(s, id, tag).puts;
      StoreTick(s, Executed(s, id, tag));
    case OnLease(_, _) => NodeTick(cfg, s, l);
    case OnTable(_, _) => NodeTick(cfg, s, l);
    case _ => StoreTick(s, Next(cfg, s, l));
  }

  lemma {:induction false} ExecutionTick(cfg: Config, states: seq<State>, labels: seq<Label>, i: nat)
    requires Execution(cfg, states, labels) && i <= |labels|
    ensures TickInv(states[i])
    decreases i
  {
    if i > 0 {
      ExecutionTick(cfg, states, labels, i - 1);
      ExecutionInv(cfg, states, labels, i - 1);
      StepTick(cfg, states[i - 1], labels[i - 1]);
      assert states[i - 1 + 1] == Next(cfg, states[i - 1], labels[i - 1]);
    }
  }

  // ---------------------------------------------------------------------
  // After a request passed the gate
  // ---------------------------------------------------------------------

  /** A request passed n's gate for generation g when the clock stood at c. */
  datatype Pass = Pass(n: string, g: nat, c: int)

  ghost predicate LateStore(cfg: Config, s: State, p: Pass) {
    && p.g >= 1 && p.c <= s.clock && s.cell.Present? && s.cell.rec.gen >= p.g && s.cell.rec.expiresUS > p.c
    && (s.cell.rec.gen == p.g ==> s.cell.rec.owner == p.n)
    && (s.cell.rec.gen > p.g ==> s.cell.rec.expiresUS >= p.c + cfg.ttl)
    && (forall x :: x in s.captured ==> x < p.g)
  }

  ghost predicate LateAcks(s: State, p: Pass) {
    forall a :: a in s.acks && a.0 in s.puts && s.puts[a.0].kind.Acquire? && s.puts[a.0].next.gen > p.g ==> s.puts[a.0].now >= p.c
  }

  /** A write that can still succeed contends under a clock reading from c on. */
  ghost predicate LatePut(s: State, id: nat, p: Pass)
    requires id in s.puts
  {
    var w := s.puts[id];
    && (w.kind.Release? ==> w.next.gen < p.g)
    && (w.kind.Acquire? && w.next.gen > p.g ==> w.cond.Some? && w.cond.value in s.issued && (s.issued[w.cond.value].expiresUS > p.c ==> w.now >= p.c))
  }

  /** A node that leads a later generation, or is on its way to, counts its drain from c or later. */
  predicate LateNode(cfg: Config, d: Node, m: string, p: Pass) {
    && (m == p.n && d.pc.ToAcquire? ==> d.pc.now >= p.c)
    && (d.isLeader && d.lease.gen > p.g ==> d.serveAfter >= p.c + cfg.drain)
    && ((d.pc.Acquired? || d.pc.Loading? || d.pc.Leading?) && d.pc.rec.gen > p.g ==> d.pc.now >= p.c)
    && (d.pc.Leading? && d.pc.rec.gen > p.g ==> !d.pc.adopted)
    && (d.pc.Capturing? ==> d.lease.gen < p.g || (m == p.n && d.lease.gen == p.g && cfg.hasHandoff))
    && (d.pc.Relinquishing? ==> d.lease.gen < p.g)
  }

  ghost predicate LateInv(cfg: Config, s: State, p: Pass) {
    && LateStore(cfg, s, p) && LateAcks(s, p) && OwnsGen(s, p.n, p.g)
    && (forall id :: id in s.puts ==> LatePut(s, id, p))
    && (forall m :: m in s.nodes ==> LateNode(cfg, s.nodes[m], m, p))
  }

  /** A leader steps down that should not: of a later generation before its drain is over, or of g itself with
      no handoff to leave its table to. */
  predicate Hasty(cfg: Config, s: State, l: Label, g: nat) {
    && l.OnLease? && l.act.StopLeading? && l.n in s.nodes
    && var d := s.nodes[l.n];
       d.isLeader && ((d.lease.gen > g && s.clock < d.serveAfter) || (d.lease.gen == g && !cfg.hasHandoff))
  }

  /** The request is out of the woods: its generation was captured, or the drain has passed. */
  predicate Over(cfg: Config, s: State, p: Pass) { p.g in s.captured || s.clock >= p.c + cfg.drain }

  // The beginning ---------------------------------------------------------

  lemma PassStore(cfg: Config, s: State, n: string, g: nat)
    requires Inv(cfg, s) && BatonInv(s) && n in s.nodes && CanServe(s, n, g)
    ensures LateStore(cfg, s, Pass(n, g, s.clock)) && GenOf(s.cell) == g && NoWritePast(s, n, g)
    ensures LateAcks(s, Pass(n, g, s.clock)) && OwnsGen(s, n, g)
  {
    var r := s.nodes[n].lease;
    assert Holds(s, n, r) && HoldInv(s, n, r) && LeadsWell(s, n);
    var t :| t in s.issued && s.issued[t] == r;
  }

  lemma PassPut(cfg: Config, s: State, n: string, g: nat, id: nat)
    requires Inv(cfg, s) && s.cell.Present? && s.cell.rec.gen == g && s.cell.rec.owner == n && NoWritePast(s, n, g) && id in s.puts
    ensures LatePut(s, id, Pass(n, g, s.clock))
  {
    assert PutInv(cfg, s, id);
  }

  lemma PassNode(cfg: Config, s: State, n: string, g: nat, m: string)
    requires Inv(cfg, s) && n in s.nodes && CanServe(s, n, g) && m in s.nodes
    requires s.cell.Present? && s.cell.rec.gen == g && s.cell.rec.owner == n
    ensures LateNode(cfg, s.nodes[m], m, Pass(n, g, s.clock))
  {
    assert NodeInv(cfg, s, m) && NodeInv(cfg, s, n);
  }

  lemma PassLate(cfg: Config, s: State, n: string, g: nat)
    requires Inv(cfg, s) && BatonInv(s) && n in s.nodes && CanServe(s, n, g)
    ensures LateInv(cfg, s, Pass(n, g, s.clock))
  {
    var p := Pass(n, g, s.clock);
    PassStore(cfg, s, n, g);
    forall id | id in s.puts ensures LatePut(s, id, p) { PassPut(cfg, s, n, g, id); }
    forall m | m in s.nodes ensures LateNode(cfg, s.nodes[m], m, p) { PassNode(cfg, s, n, g, m); }
  }

  // The steps -------------------------------------------------------------

  lemma ExecuteLateStore(cfg: Config, s: State, id: nat, tag: Tag, p: Pass)
    requires Inv(cfg, s) && LateStore(cfg, s, p) && Enabled(cfg, s, Execute(id, tag)) && LatePut(s, id, p)
    ensures LateStore(cfg, Executed(s, id, tag), p)
  {
    assert PutInv(cfg, s, id);
    if Matches(s.cell, s.puts[id].cond) { ExecuteStore(cfg, s, id, tag); }
  }

  lemma ExecuteLateAcks(cfg: Config, s: State, id: nat, tag: Tag, p: Pass)
    requires StoreInv(s) && LateStore(cfg, s, p) && LateAcks(s, p) && Enabled(cfg, s, Execute(id, tag)) && LatePut(s, id, p)
    ensures LateAcks(Executed(s, id, tag), p)
  {
  }

  lemma PutLateFrame(s: State, s': State, id: nat, p: Pass)
    requires id in s.puts && id in s'.puts && s'.puts[id] == s.puts[id] && LatePut(s, id, p)
    requires forall t :: t in s.issued ==> t in s'.issued && s'.issued[t] == s.issued[t]
    ensures LatePut(s', id, p)
  {
  }

  lemma ExecuteLate(cfg: Config, s: State, id: nat, tag: Tag, p: Pass)
    requires Inv(cfg, s) && LateInv(cfg, s, p) && Enabled(cfg, s, Execute(id, tag))
    ensures LateInv(cfg, Executed(s, id, tag), p)
  {
    var s' := Executed(s, id, tag);
    ExecuteLateStore(cfg, s, id, tag, p);
    ExecuteLateAcks(cfg, s, id, tag, p);
    NamesSurvive(s, id, tag);
    OwnsFrame(s, s', p.n, p.g);
    forall q | q in s'.puts ensures LatePut(s', q, p) { PutLateFrame(s, s', q, p); }
  }

  /** Whoever contends for a generation after g has read the clock since c. */
  lemma ContenderIsLate(cfg: Config, s: State, n: string, act: LeaseAct, p: Pass)
    requires Inv(cfg, s) && TickInv(s) && LateInv(cfg, s, p) && n in s.nodes && LeaseEnabled(s, n, act)
    requires act.ReadToAcquire? && WriteAfter(cfg, s, n, act).Some?
    ensures s.nodes[n].pc.now >= p.c
  {
    assert LateNode(cfg, s.nodes[n], n, p) && TickNode(s, n);
    if s.cell.rec.owner == n && s.cell.rec.gen > p.g {
      var id :| id in s.puts && s.puts[id].next == s.cell.rec;
      assert PutInv(cfg, s, id) && LatePut(s, id, p);
    }
  }

  lemma NewWriteIsLate(cfg: Config, s: State, n: string, act: LeaseAct, p: Pass)
    requires Inv(cfg, s) && TickInv(s) && LateInv(cfg, s, p) && n in s.nodes && LeaseEnabled(s, n, act) && WriteAfter(cfg, s, n, act).Some?
    ensures PutId(act) in LeaseStep(cfg, s, n, act).puts && LatePut(LeaseStep(cfg, s, n, act), PutId(act), p)
  {
    assert LateNode(cfg, s.nodes[n], n, p);
    if act.ReadToAcquire? { ContenderIsLate(cfg, s, n, act, p); }
  }

  lemma LeaseLateNode(cfg: Config, s: State, n: string, act: LeaseAct, p: Pass)
    requires Inv(cfg, s) && TickInv(s) && LateInv(cfg, s, p) && n in s.nodes && LeaseEnabled(s, n, act) && !act.StopLeading?
    ensures LateNode(cfg, LeaseNode(cfg, s, n, act), n, p)
  {
    assert NodeInv(cfg, s, n) && LateNode(cfg, s.nodes[n], n, p) && TickNode(s, n);
    if act.AckAcquire? { assert (s.nodes[n].pc.id, act.tag) in s.acks; }
  }

  lemma StopLateNode(cfg: Config, s: State, n: string, p: Pass)
    requires Inv(cfg, s) && BatonInv(s) && LateInv(cfg, s, p) && n in s.nodes && LeaseEnabled(s, n, StopLeading)
    requires !Hasty(cfg, s, OnLease(n, StopLeading), p.g) && !Over(cfg, s, p)
    ensures LateNode(cfg, LeaseNode(cfg, s, n, StopLeading), n, p)
  {
    var d := s.nodes[n];
    assert NodeInv(cfg, s, n) && LateNode(cfg, d, n, p) && LeadsWell(s, n);
    if d.isLeader && d.lease.gen == p.g { OneOwner(s, n, p.n, p.g); }
  }

  lemma LeaseLatePut(cfg: Config, s: State, n: string, act: LeaseAct, p: Pass, id: nat)
    requires Inv(cfg, s) && TickInv(s) && LateInv(cfg, s, p) && n in s.nodes && LeaseEnabled(s, n, act)
    requires id in LeaseStep(cfg, s, n, act).puts
    ensures LatePut(LeaseStep(cfg, s, n, act), id, p)
  {
    LeaseStepShape(cfg, s, n, act);
    if id in s.puts { PutLateFrame(s, LeaseStep(cfg, s, n, act), id, p); } else { NewWriteIsLate(cfg, s, n, act, p); }
  }

  lemma LeaseLate(cfg: Config, s: State, n: string, act: LeaseAct, p: Pass)
    requires Inv(cfg, s) && BatonInv(s) && TickInv(s) && LateInv(cfg, s, p) && n in s.nodes && LeaseEnabled(s, n, act)
    requires !Hasty(cfg, s, OnLease(n, act), p.g) && !Over(cfg, s, p)
    ensures LateInv(cfg, LeaseStep(cfg, s, n, act), p)
  {
    var s' := LeaseStep(cfg, s, n, act);
    LeaseStepShape(cfg, s, n, act);
    if act.StopLeading? { StopLateNode(cfg, s, n, p); } else { LeaseLateNode(cfg, s, n, act, p); }
    forall id | id in s'.puts ensures LatePut(s', id, p) { LeaseLatePut(cfg, s, n, act, p, id); }
    forall a | a in s'.acks ensures a.0 in s.puts { assert a in s.acks; }
  }

  lemma TableLateNode(cfg: Config, s: State, n: string, op: TableAct, p: Pass)
    requires BatonInv(s) && LateInv(cfg, s, p) && n in s.nodes && TableEnabled(s, n, op)
    requires p.g !in TableStep(cfg, s, n, op).captured
    ensures LateNode(cfg, TableNode(cfg, s, n, op), n, p)
  {
    var d := s.nodes[n];
    assert LateNode(cfg, d, n, p) && LeadsWell(s, n);
    if op.DecideAdopt? && Adoptable(cfg, d.pc) { assert Faithful(s, d.pc.found.value); }
  }

  lemma TableCaptures(cfg: Config, s: State, n: string, op: TableAct, p: Pass)
    requires LateStore(cfg, s, p) && n in s.nodes && TableEnabled(s, n, op) && LateNode(cfg, s.nodes[n], n, p)
    ensures p.g in TableStep(cfg, s, n, op).captured || forall x :: x in TableStep(cfg, s, n, op).captured ==> x < p.g
  {
  }

  lemma ShapedLate(cfg: Config, s: State, s': State, n: string, p: Pass)
    requires LateInv(cfg, s, p) && StepOf(s, s', n) && s'.puts == s.puts && n in s'.nodes && LateNode(cfg, s'.nodes[n], n, p)
    requires forall x :: x in s'.captured ==> x < p.g
    ensures LateInv(cfg, s', p)
  {
    forall id | id in s'.puts ensures LatePut(s', id, p) { PutLateFrame(s, s', id, p); }
  }

  lemma TableLate(cfg: Config, s: State, n: string, op: TableAct, p: Pass)
    requires BatonInv(s) && LateInv(cfg, s, p) && n in s.nodes && TableEnabled(s, n, op)
    ensures LateInv(cfg, TableStep(cfg, s, n, op), p) || p.g in TableStep(cfg, s, n, op).captured
  {
    TableStepShape(cfg, s, n, op);
    TableCaptures(cfg, s, n, op, p);
    if p.g !in TableStep(cfg, s, n, op).captured {
      TableLateNode(cfg, s, n, op, p);
      ShapedLate(cfg, s, TableStep(cfg, s, n, op), n, p);
    }
  }

  lemma ClockLate(cfg: Config, s: State, s': State, p: Pass)
    requires LateInv(cfg, s, p) && s.clock <= s'.clock && s' == s.(clock := s'.clock, handoff := s'.handoff)
    ensures LateInv(cfg, s', p)
  {
    assert OwnsGen(s', p.n, p.g) by { OwnsFrame(s, s', p.n, p.g); }
    forall id | id in s'.puts ensures LatePut(s', id, p) { PutLateFrame(s, s', id, p); }
  }

  lemma StepLate(cfg: Config, s: State, l: Label, p: Pass)
    requires Inv(cfg, s) && BatonInv(s) && TickInv(s) && Enabled(cfg, s, l) && !Hasty(cfg, s, l, p.g)
    requires LateInv(cfg, s, p) || Over(cfg, s, p)
    ensures LateInv(cfg, Next(cfg, s, l), p) || Over(cfg, Next(cfg, s, l), p)
  {
    if !Over(cfg, s, p) {
      match l
      case Execute(id, tag) => ExecuteLate(cfg, s, id, tag, p);
      case OnLease(n, act) => LeaseLate(cfg, s, n, act, p);
      case OnTable(n, op) => TableLate(cfg, s, n, op, p);
      case _ => ClockLate(cfg, s, Next(cfg, s, l), p);
    }
  }

  ghost predicate Patient(cfg: Config, states: seq<State>, labels: seq<Label>, i: nat, j: nat, g: nat)
    requires i <= j <= |labels| && |states| == |labels| + 1
  {
    forall k :: i <= k < j ==> !Hasty(cfg, states[k], labels[k], g)
  }

  lemma {:induction false} LateThrough(cfg: Config, states: seq<State>, labels: seq<Label>, i: nat, j: nat, n: string, g: nat)
    requires Execution(cfg, states, labels) && i <= j <= |labels| && Patient(cfg, states, labels, i, j, g)
    requires n in states[i].nodes && CanServe(states[i], n, g)
    ensures LateInv(cfg, states[j], Pass(n, g, states[i].clock)) || Over(cfg, states[j], Pass(n, g, states[i].clock))
    decreases j
  {
    var k := if i < j then j - 1 else i;
    ExecutionInv(cfg, states, labels, k);
    ExecutionBaton(cfg, states, labels, k);
    if i == j {
      PassLate(cfg, states[i], n, g);
    } else {
      LateThrough(cfg, states, labels, i, k, n, g);
      ExecutionTick(cfg, states, labels, k);
      StepLate(cfg, states[k], labels[k], Pass(n, g, states[i].clock));
      assert states[k + 1] == Next(cfg, states[k], labels[k]);
    }
  }

  /** A request that passed the gate at step i and is granted at step j while a later generation serves took
      the drain or longer, unless a leader stepped down hastily in between. */
  lemma {:induction false} DrainCoversRequests(cfg: Config, states: seq<State>, labels: seq<Label>, i: nat, j: nat, n: string, gate: Gate,
                                               m: string, h: nat)
    requires Execution(cfg, states, labels) && i < j < |labels| && Patient(cfg, states, labels, i, j, gate.gen)
    requires labels[i] == OnTable(n, PassGate(gate)) && labels[j] == OnTable(n, Grant(gate))
    requires VerdictOf(states[j].nodes[n].table, gate.claims, states[j].clock) == Granted
    requires m in states[j].nodes && CanServe(states[j], m, h) && h > gate.gen
    ensures states[j].clock >= states[i].clock + cfg.drain
  {
    var s := states[j];
    assert Enabled(cfg, states[i], labels[i]) && Enabled(cfg, s, labels[j]);
    LateThrough(cfg, states, labels, i, j, n, gate.gen);
    if gate.gen in s.captured { CapturedGrantsNothing(cfg, states, labels, j, n, gate); }
    assert LateInv(cfg, s, Pass(n, gate.gen, states[i].clock)) ==> LateNode(cfg, s.nodes[m], m, Pass(n, gate.gen, states[i].clock));
  }
}
