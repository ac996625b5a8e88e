/** One leader's reign over the reservation table. While a node leads a generation it adopted, what the
    cluster does to its table is a run of the table alone, so the promises about such runs, the handoff and
    mutual exclusion join into one: a value granted before the handoff is given to nobody else after it. */
module Reign {
  import opened Base
  import opened LeaseCluster
  import opened LeaseSafety
  import opened BatonPass
  import opened Reservation
  import ReservationRuns

  type Event = ReservationRuns.Event

  /** The node leads generation g, or has decided how to take its table over and is about to. */
  predicate Reigns(d: Node, g: nat) { (d.pc.Leading? && d.pc.rec.gen == g) || (d.isLeader && d.lease.gen == g) }

  /** It adopted the table and has no rebuild to do. */
  predicate Settled(d: Node) { (d.pc.Leading? ==> d.pc.adopted) && (d.isLeader ==> !d.needRebuild) }

  /** What a step of the cluster does to n's table, as an event of the table alone. */
  function EventsOf(cfg: Config, s: State, n: string, l: Label): (evs: seq<Event>)
    ensures |evs| <= 1
  {
    if n !in s.nodes || !l.OnTable? || l.n != n then []
    else
      var d := s.nodes[n];
      match l.op
      case Maintain => if d.pc.Maintaining? && d.isLeader && d.pc.now >= d.serveAfter then [] else [ReservationRuns.Sweeping(s.clock)]
      case Enumerate(snap) => if snap.Some? then [] else [ReservationRuns.Sweeping(s.clock)]
      case Ingest => if d.pc.Ingesting? then [ReservationRuns.Event.Ingesting(d.pc.snap, cfg.grace, s.clock)] else []
      case Finish => [ReservationRuns.Sweeping(s.clock)]
      case Grant(gate) => [ReservationRuns.Reserving(gate.claims, s.clock)]
      case _ => []
  }

  lemma OneEvent(t: Table, ev: Event)
    ensures ReservationRuns.After(t, [ev]) == ReservationRuns.Step(t, ev)
  {
    assert [ev][..0] == [];
  }

  /** The lease side leaves the table of a reigning node alone. */
  lemma LeaseStepIsNoEvent(cfg: Config, s: State, n: string, act: LeaseAct, g: nat)
    requires n in s.nodes && NodeInv(cfg, s, n) && LeaseEnabled(s, n, act) && Settled(s.nodes[n]) && Reigns(LeaseNode(cfg, s, n, act), g)
    ensures LeaseNode(cfg, s, n, act).table == s.nodes[n].table && Settled(LeaseNode(cfg, s, n, act))
  {
  }

  lemma TableStepIsAnEvent(cfg: Config, s: State, n: string, op: TableAct, g: nat)
    requires n in s.nodes && NodeInv(cfg, s, n) && LeadsWell(s, n) && TableEnabled(s, n, op)
    requires Reigns(s.nodes[n], g) && Settled(s.nodes[n])
    ensures TableAfter(cfg, s, n, op) == ReservationRuns.After(s.nodes[n].table, EventsOf(cfg, s, n, OnTable(n, op)))
    ensures Settled(TableNode(cfg, s, n, op))
  {
    var evs := EventsOf(cfg, s, n, OnTable(n, op));
    if evs != [] { OneEvent(s.nodes[n].table, evs[0]); }
  }

  lemma StepIsAnEvent(cfg: Config, s: State, l: Label, n: string, g: nat)
    requires Inv(cfg, s) && BatonInv(s) && Enabled(cfg, s, l) && n in s.nodes && Reigns(s.nodes[n], g) && Settled(s.nodes[n])
    requires n in Next(cfg, s, l).nodes && Reigns(Next(cfg, s, l).nodes[n], g)
    ensures Settled(Next(cfg, s, l).nodes[n])
    ensures Next(cfg, s, l).nodes[n].table == ReservationRuns.After(s.nodes[n].table, EventsOf(cfg, s, n, l))
  {
    assert NodeInv(cfg, s, n) && LeadsWell(s, n);
    if l.OnLease? && l.n == n {
      LeaseStepIsNoEvent(cfg, s, n, l.act, g);
    } else if l.OnTable? && l.n == n {
      TableStepIsAnEvent(cfg, s, n, l.op, g);
    }
  }

  lemma AfterMore(t: Table, evs: seq<Event>, u: Table, more: seq<Event>, v: Table)
    requires |more| <= 1 && u == ReservationRuns.After(t, evs) && v == ReservationRuns.After(u, more)
    ensures v == ReservationRuns.After(t, evs + more)
  {
    if more == [] {
      assert evs + more == evs;
    } else {
      assert more == [more[0]] && (evs + more)[..|evs|] == evs;
      OneEvent(u, more[0]);
    }
  }

  ghost predicate ReignsThrough(states: seq<State>, n: string, g: nat, i: nat, j: nat)
    requires i <= j < |states|
  {
    forall k :: i <= k <= j ==> n in states[k].nodes && Reigns(states[k].nodes[n], g)
  }

  /** Step k does to n's table what its event says, and leaves n settled if it was. */
  ghost predicate Follows(cfg: Config, states: seq<State>, labels: seq<Label>, n: string, k: nat)
    requires k < |labels| && |states| == |labels| + 1
  {
    var s, s' := states[k], states[k + 1];
    && n in s.nodes && n in s'.nodes
    && (Settled(s.nodes[n]) ==>
          Settled(s'.nodes[n]) && s'.nodes[n].table == ReservationRuns.After(s.nodes[n].table, EventsOf(cfg, s, n, labels[k])))
  }

  lemma ReignFollows(cfg: Config, states: seq<State>, labels: seq<Label>, n: string, g: nat, k: nat)
    requires Execution(cfg, states, labels) && k < |labels| && ReignsThrough(states, n, g, k, k + 1)
    ensures Follows(cfg, states, labels, n, k)
  {
    ExecutionInv(cfg, states, labels, k);
    ExecutionBaton(cfg, states, labels, k);
    assert states[k + 1] == Next(cfg, states[k], labels[k]);
    if Settled(states[k].nodes[n]) { StepIsAnEvent(cfg, states[k], labels[k], n, g); }
  }

  predicate Leads(tables: seq<Table>, evs: seq<seq<Event>>, k: nat)
    requires k < |evs| && |tables| == |evs| + 1
  {
    |evs[k]| <= 1 && tables[k + 1] == ReservationRuns.After(tables[k], evs[k])
  }

  /** Tables that follow one another by events end where the events lead. */
  lemma {:induction false} TablesRun(tables: seq<Table>, evs: seq<seq<Event>>)
    requires |tables| == |evs| + 1
    requires forall k: nat :: k < |evs| ==> Leads(tables, evs, k)
    ensures tables[|evs|] == ReservationRuns.After(tables[0], Joined(evs))
    decreases |evs|
  {
    if evs != [] {
      var n := |evs| - 1;
      var front, before := tables[..n + 1], evs[..n];
      forall k: nat | k < n ensures Leads(front, before, k) { assert Leads(tables, evs, k); }
      TablesRun(front, before);
      assert Leads(tables, evs, n) && front[n] == tables[n];
      AfterMore(tables[0], Joined(evs[..n]), tables[n], evs[n], tables[n + 1]);
    }
  }

  function Joined(evs: seq<seq<Event>>): seq<Event> { if evs == [] then [] else Joined(evs[..|evs| - 1]) + evs[|evs| - 1] }

  function EventsAt(cfg: Config, states: seq<State>, labels: seq<Label>, n: string, i: nat, j: nat): (evs: seq<seq<Event>>)
    requires i <= j <= |labels| && |states| == |labels| + 1
    ensures |evs| == j - i && forall k: nat :: k < j - i ==> evs[k] == EventsOf(cfg, states[i + k], n, labels[i + k])
  {
    seq(j - i, (k: nat) requires k < j - i => EventsOf(cfg, states[i + k], n, labels[i + k]))
  }

  /** The events of n's table between two instants of an execution. */
  function EventsBetween(cfg: Config, states: seq<State>, labels: seq<Label>, n: string, i: nat, j: nat): seq<Event>
    requires i <= j <= |labels| && |states| == |labels| + 1
  {
    Joined(EventsAt(cfg, states, labels, n, i, j))
  }

  ghost predicate SettledAt(states: seq<State>, n: string, k: nat)
    requires k < |states|
  {
    n in states[k].nodes && Settled(states[k].nodes[n])
  }

  lemma {:induction false} StaysSettled(cfg: Config, states: seq<State>, labels: seq<Label>, n: string, i: nat, j: nat)
    requires i <= j <= |labels| && |states| == |labels| + 1 && SettledAt(states, n, i)
    requires forall k: nat :: i <= k < j ==> Follows(cfg, states, labels, n, k)
    ensures SettledAt(states, n, j)
    decreases j
  {
    if i < j {
      StaysSettled(cfg, states, labels, n, i, j - 1);
      assert Follows(cfg, states, labels, n, j - 1);
    }
  }

  function TableAt(states: seq<State>, n: string, k: nat): Table
    requires k < |states| && n in states[k].nodes
  {
    states[k].nodes[n].table
  }

  ghost predicate SettledThrough(states: seq<State>, n: string, i: nat, j: nat)
    requires i <= j < |states|
  {
    forall k: nat :: i <= k <= j ==> SettledAt(states, n, k)
  }

  ghost function TablesAt(states: seq<State>, n: string, i: nat, j: nat): (tables: seq<Table>)
    requires i <= j < |states| && SettledThrough(states, n, i, j)
    ensures |tables| == j - i + 1
    ensures forall k: nat :: k <= j - i ==> SettledAt(states, n, i + k) && tables[k] == TableAt(states, n, i + k)
  {
    seq(j - i + 1, (k: nat) requires k <= j - i && SettledAt(states, n, i + k) => TableAt(states, n, i + k))
  }

  lemma TablesLead(cfg: Config, states: seq<State>, labels: seq<Label>, n: string, i: nat, j: nat, k: nat)
    requires i <= j <= |labels| && |states| == |labels| + 1 && SettledThrough(states, n, i, j) && k < j - i
    requires Follows(cfg, states, labels, n, i + k)
    ensures Leads(TablesAt(states, n, i, j), EventsAt(cfg, states, labels, n, i, j), k)
  {
    var tables := TablesAt(states, n, i, j);
    assert tables[k] == TableAt(states, n, i + k) && tables[k + 1] == TableAt(states, n, i + (k + 1));
    assert i + (k + 1) == i + k + 1;
  }

  lemma ReignTables(cfg: Config, states: seq<State>, labels: seq<Label>, n: string, i: nat, j: nat)
    requires i <= j <= |labels| && |states| == |labels| + 1 && SettledThrough(states, n, i, j)
    requires forall k: nat :: i <= k < j ==> Follows(cfg, states, labels, n, k)
    ensures SettledAt(states, n, i) && SettledAt(states, n, j)
    ensures TableAt(states, n, j) == ReservationRuns.After(TableAt(states, n, i), EventsBetween(cfg, states, labels, n, i, j))
  {
    var tables, evs := TablesAt(states, n, i, j), EventsAt(cfg, states, labels, n, i, j);
    forall k: nat | k < |evs| ensures Leads(tables, evs, k) { TablesLead(cfg, states, labels, n, i, j, k); }
    TablesRun(tables, evs);
    assert tables[0] == TableAt(states, n, i + 0) && tables[j - i] == TableAt(states, n, i + (j - i));
  }

  /** Over a reign that began with an adoption, the cluster runs n's table and nothing else does. */
  lemma {:induction false} ReignIsARun(cfg: Config, states: seq<State>, labels: seq<Label>, n: string, g: nat, i: nat, j: nat)
    requires Execution(cfg, states, labels) && i <= j <= |labels|
    requires ReignsThrough(states, n, g, i, j) && Settled(states[i].nodes[n])
    ensures Settled(states[j].nodes[n])
    ensures states[j].nodes[n].table == ReservationRuns.After(states[i].nodes[n].table, EventsBetween(cfg, states, labels, n, i, j))
  {
    forall k: nat | i <= k < j ensures Follows(cfg, states, labels, n, k) { ReignFollows(cfg, states, labels, n, g, k); }
    forall k: nat | i <= k <= j ensures SettledAt(states, n, k) { StaysSettled(cfg, states, labels, n, i, k); }
    ReignTables(cfg, states, labels, n, i, j);
  }

  /** A value held by its owner goes to nobody else who does not name that owner as its predecessor. */
  lemma {:induction false} HeldIsRefused(t: Table, batch: seq<Claim>, c: Claim, now: int)
    requires c in batch && ClaimKey(c) in t.taken && c.owner != t.taken[ClaimKey(c)].owner
    requires !ReservationRuns.TakesOver(c, ClaimKey(c), t.taken[ClaimKey(c)].owner)
    ensures VerdictOf(t, batch, now) != Granted
  {
    if VerdictOf(t, batch, now) == Granted { ReservationRuns.GrantedOneOwner(t, batch, now); }
  }

  /** The grant of generation g that n found still standing when it adopted g's table at step i. */
  predicate HandedOver(cfg: Config, states: seq<State>, labels: seq<Label>, i: nat, n: string, g: nat, ck: Bytes, owner: Bytes)
    requires i < |labels| && |states| == |labels| + 1
  {
    && labels[i] == OnTable(n, DecideAdopt) && n in states[i].nodes && states[i].nodes[n].pc.Loading?
    && Adoptable(cfg, states[i].nodes[n].pc) && states[i].nodes[n].pc.rec.gen == g + 1
    && ck in GrantsOf(states[i].ledger, g) && GrantsOf(states[i].ledger, g)[ck] == owner
  }

  /** The owner keeps the value throughout the adopter's reign. */
  lemma {:induction false} OwnerSurvivesHandover(cfg: Config, states: seq<State>, labels: seq<Label>, i: nat, j: nat, n: string, g: nat,
                                                 ck: Bytes, owner: Bytes)
    requires Execution(cfg, states, labels) && i < j <= |labels| && HandedOver(cfg, states, labels, i, n, g, ck, owner)
    requires ReignsThrough(states, n, g + 1, i + 1, j)
    requires ReservationRuns.Lagging(EventsBetween(cfg, states, labels, n, i + 1, j), ck, owner, states[i].clock)
    ensures ck in states[j].nodes[n].table.taken && states[j].nodes[n].table.taken[ck].owner == owner
  {
    var s := states[i];
    AdoptionLosesNothing(cfg, states, labels, i, n, ck);
    ExecutionInv(cfg, states, labels, i);
    assert NodeInv(cfg, s, n) && states[i + 1] == Next(cfg, s, labels[i]);
    ReignIsARun(cfg, states, labels, n, g + 1, i + 1, j);
    ExecutionBaton(cfg, states, labels, i);
    assert LeadsWell(s, n);
    var k, m := HandoffIsACapture(cfg, states, labels, i, s.nodes[n].pc.found.value);
    var image, t := s.nodes[n].pc.found.value.image, states[k].nodes[m].table;
    ReservationRuns.LoadRestores(image, t, s.nodes[n].table, s.clock);
    ReservationRuns.AdoptionToleratesLag(s.nodes[n].table, image, t, s.clock, EventsBetween(cfg, states, labels, n, i + 1, j), ck);
  }

  /** The promise of the handover. A value granted under g and still held when n adopts g's table is, as
      long as n reigns and its snapshots lag by less than the grace, granted by n to nobody else; every
      request let through under g itself is refused, wherever it arrives; and while n serves, nobody else
      lets a request through at all. */
  lemma {:induction false} HandedOverValueIsSafe(cfg: Config, states: seq<State>, labels: seq<Label>, i: nat, j: nat, n: string, g: nat,
                                                 ck: Bytes, owner: Bytes)
    requires Execution(cfg, states, labels) && i < j <= |labels| && HandedOver(cfg, states, labels, i, n, g, ck, owner)
    requires ReignsThrough(states, n, g + 1, i + 1, j)
    requires ReservationRuns.Lagging(EventsBetween(cfg, states, labels, n, i + 1, j), ck, owner, states[i].clock)
    ensures forall batch, c :: c in batch && ClaimKey(c) == ck && c.owner != owner && !ReservationRuns.TakesOver(c, ck, owner) ==>
              VerdictOf(states[j].nodes[n].table, batch, states[j].clock) != Granted
    ensures forall m, gate :: m in states[j].nodes && gate in states[j].nodes[m].gates && gate.gen == g ==>
              VerdictOf(states[j].nodes[m].table, gate.claims, states[j].clock) == NotServing
    ensures forall m, h :: m in states[j].nodes && CanServe(states[j], n, g + 1) && CanServe(states[j], m, h) ==> m == n && h == g + 1
  {
    var s := states[j];
    OwnerSurvivesHandover(cfg, states, labels, i, j, n, g, ck, owner);
    forall batch, c | c in batch && ClaimKey(c) == ck && c.owner != owner && !ReservationRuns.TakesOver(c, ck, owner)
      ensures VerdictOf(s.nodes[n].table, batch, s.clock) != Granted
    {
      HeldIsRefused(s.nodes[n].table, batch, c, s.clock);
    }
    ExecutionBaton(cfg, states, labels, i);
    assert LeadsWell(states[i], n) && Faithful(states[i], states[i].nodes[n].pc.found.value);
    CapturedIsFrozen(cfg, states, labels, g, i, j);
    forall m, gate | m in s.nodes && gate in s.nodes[m].gates && gate.gen == g
      ensures VerdictOf(s.nodes[m].table, gate.claims, s.clock) == NotServing
    {
      CapturedGrantsNothing(cfg, states, labels, j, m, gate);
    }
    forall m, h | m in s.nodes && CanServe(s, n, g + 1) && CanServe(s, m, h) ensures m == n && h == g + 1 {
      MutualExclusion(cfg, states, labels, j, n, g + 1, m, h);
    }
  }
}
