/** The lease record and the decisions taken on it (unique/lease.go). */
module Lease {
  import opened Base

  datatype LeaseRecord = LeaseRecord(owner: string, gen: nat, expiresUS: int, addr: string)

  const NO_LEASE := LeaseRecord("", 0, 0, "")

  predicate IsHeld(r: LeaseRecord, now: int) { r.owner != "" && r.expiresUS > now }

  /** The record Acquire writes; None when another owner holds a live lease. */
  function AcquireNext(cur: LeaseRecord, owner: string, addr: string, now: int, ttl: int): Option<LeaseRecord> {
    if IsHeld(cur, now) && cur.owner != owner then None
    else Some(LeaseRecord(owner, cur.gen + 1, now + ttl, addr))
  }

  predicate Moved(cur: LeaseRecord, rec: LeaseRecord) { cur.owner != rec.owner || cur.gen != rec.gen }

  /** The record Renew writes; None when the lease moved on and the holder is fenced. */
  function RenewNext(cur: LeaseRecord, rec: LeaseRecord, now: int, ttl: int): Option<LeaseRecord> {
    if Moved(cur, rec) then None else Some(rec.(expiresUS := now + ttl))
  }

  /** The record Release writes; None when there is nothing left to relinquish. */
  function ReleaseNext(cur: LeaseRecord, rec: LeaseRecord): Option<LeaseRecord> {
    if Moved(cur, rec) then None else Some(rec.(expiresUS := 0))
  }
}

/** The coordinated-uniqueness cluster as a state machine: any number of nodes, one conditional-write
    lease object, one handoff object and one shared non-decreasing clock (unique/leaseholder.go,
    unique/lease.go, unique/handoff.go).

    Every read, conditional write, delivered response, lock-protected table operation and gate check is
    a step of its own, and the steps of different nodes and of a node's request handlers interleave
    freely. A write that was sent can take effect at any later time, any number of times, or never; its
    response can be lost. Nodes can crash and restart at any point. Entity tags are strong validators
    (section 8.8.1 of RFC 9110): equal tags name equal records, and nothing more is assumed of them. */
module LeaseCluster {
  import opened Base
  import opened Lease
  import opened Reservation

  type Tag = nat

  /** The lease object: absent, or a record with its current tag. */
  datatype Cell = Absent | Present(rec: LeaseRecord, tag: Tag)

  datatype Config = Config(ttl: int, drain: int, grace: int, quarantine: int, hasHandoff: bool)

  datatype Kind = Acquire | Renew | Release

  /** A conditional write in flight: on the tag named, or on absence. */
  datatype Put = Put(kind: Kind, node: string, now: int, next: LeaseRecord, cond: Option<Tag>)

  datatype Handoff = Handoff(gen: nat, image: Image)

  /** A reserve request that passed the gate for gen and has not reached the table yet. */
  datatype Gate = Gate(gen: nat, claims: seq<Claim>)

  /** Where a node's maintenance goroutine stands. */
  datatype Pc =
    | Idle
    | ToAcquire(now: int)
    | Acquiring(now: int, id: nat)
    | Acquired(now: int, rec: LeaseRecord, tag: Tag)
    | Loading(now: int, rec: LeaseRecord, tag: Tag, found: Option<Handoff>)
    | Leading(now: int, rec: LeaseRecord, tag: Tag, adopted: bool)
    | ToRenew(now: int)
    | Renewing(now: int, id: nat)
    | Maintaining(now: int)
    | Enumerating(rebuild: bool)
    | Deriving(rebuild: bool, snap: Snapshot)
    | Ingesting(rebuild: bool, snap: Snapshot)
    | Finishing(rebuild: bool)
    | Capturing
    | Relinquishing
    | Stopped

  datatype Node = Node(isLeader: bool, needRebuild: bool, serveAfter: int, lease: LeaseRecord, etag: Option<Tag>,
                       pc: Pc, table: Table, gates: multiset<Gate>)

  /** The last four fields are history: the successful acquisitions in order, the generations led so
      far, the generations whose table was captured, and per generation the grants acknowledged under it
      that its leader has neither transferred nor released since. */
  datatype State = State(clock: int, cell: Cell, issued: map<Tag, LeaseRecord>, puts: map<nat, Put>,
                         acks: set<(nat, Tag)>, nacks: set<nat>, handoff: Option<Handoff>, writes: set<Handoff>,
                         nodes: map<string, Node>,
                         won: seq<LeaseRecord>, led: set<nat>, captured: set<nat>, ledger: map<nat, map<Bytes, Bytes>>)

  function FreshNode(cfg: Config): Node {
    Node(false, false, 0, NO_LEASE, None, Idle, Table(map[], map[], {}, {}, false, cfg.quarantine), multiset{})
  }

  predicate Init(cfg: Config, s: State) {
    && cfg.ttl > 0 && s.clock >= 0 && s.cell == Absent && s.issued == map[] && s.puts == map[] && s.acks == {} && s.nacks == {}
    && s.handoff == None && s.writes == {} && s.won == [] && s.led == {} && s.captured == {} && s.ledger == map[]
    && (forall n :: n in s.nodes ==> n != "" && s.nodes[n] == FreshNode(cfg))
  }

  function View(cell: Cell): LeaseRecord { if cell.Present? then cell.rec else NO_LEASE }

  function ViewTag(cell: Cell): Option<Tag> { if cell.Present? then Some(cell.tag) else None }

  predicate Matches(cell: Cell, cond: Option<Tag>) {
    match cond
    case None => cell.Absent?
    case Some(t) => cell.Present? && cell.tag == t
  }

  /** The gate of leaseRPC.Reserve. */
  predicate CanServe(s: State, n: string, gen: nat)
    requires n in s.nodes
  {
    var d := s.nodes[n];
    d.isLeader && !d.needRebuild && d.lease.gen == gen && s.clock >= d.serveAfter && s.clock < d.lease.expiresUS
  }

  /** The lease side of a node: contending, renewing, stepping down, dying. */
  datatype LeaseAct =
    | StartTick
    | ReadToAcquire(id: nat, addr: string)
    | ReadToRenew(id: nat)
    | ReadToRelease(id: nat)
    | AckAcquire(tag: Tag)
    | AckRenew(tag: Tag)
    | NackRenew
    | GiveUp
    | StopLeading
    | Restart

  /** The table side of a node: taking over, deriving, handing off, serving. */
  datatype TableAct =
    | ReadHandoff(ok: bool)
    | DecideAdopt
    | Lead
    | Maintain
    | Enumerate(snap: Option<Snapshot>)
    | ClearIfRebuild
    | Ingest
    | Finish
    | Capture(image: Image)
    | PassGate(gate: Gate)
    | Grant(gate: Gate)

  datatype Label =
    | Advance(ticks: nat)
    | Execute(id: nat, tag: Tag)
    | LandHandoff(h: Handoff)
    | OnLease(n: string, act: LeaseAct)
    | OnTable(n: string, op: TableAct)

  // ---------------------------------------------------------------------
  // The store
  // ---------------------------------------------------------------------

  /** The store executes one conditional write. */
  function Executed(s: State, id: nat, tag: Tag): State
    requires id in s.puts
  {
    var p := s.puts[id];
    if Matches(s.cell, p.cond) then
      s.(cell := Present(p.next, tag), issued := s.issued[tag := p.next], acks := s.acks + {(id, tag)},
         won := if p.kind.Acquire? then s.won + [p.next] else s.won)
    else s.(nacks := s.nacks + {id})
  }

  // ---------------------------------------------------------------------
  // Lease steps
  // ---------------------------------------------------------------------

  predicate LeaseEnabled(s: State, n: string, act: LeaseAct)
    requires n in s.nodes
  {
    var pc := s.nodes[n].pc;
    match act
    case StartTick => pc.Idle?
    case ReadToAcquire(id, _) => pc.ToAcquire? && id !in s.puts
    case ReadToRenew(id) => pc.ToRenew? && id !in s.puts
    case ReadToRelease(id) => pc.Relinquishing? && id !in s.puts
    case AckAcquire(tag) => pc.Acquiring? && pc.id in s.puts && (pc.id, tag) in s.acks
    case AckRenew(tag) => pc.Renewing? && pc.id in s.puts && (pc.id, tag) in s.acks
    case NackRenew => pc.Renewing? && pc.id in s.nacks
    case GiveUp => pc.ToAcquire? || pc.Acquiring? || pc.ToRenew? || pc.Renewing? || pc.Relinquishing?
    case StopLeading => pc.Idle?
    case Restart => true
  }

  /** The conditional write a read leads to: none when the lease is held, moved on, or not being written. */
  function WriteAfter(cfg: Config, s: State, n: string, act: LeaseAct): Option<Put>
    requires n in s.nodes && LeaseEnabled(s, n, act)
  {
    var d := s.nodes[n];
    var cur, curTag := View(s.cell), ViewTag(s.cell);
    var useTag := if d.etag.Some? then d.etag else curTag;
    match act
    case ReadToAcquire(_, addr) => (
      match AcquireNext(cur, n, addr, d.pc.now, cfg.ttl)
      case None => None
      case Some(next) => Some(Put(Acquire, n, d.pc.now, next, curTag)))
    case ReadToRenew(_) => (
      match RenewNext(cur, d.lease, d.pc.now, cfg.ttl)
      case None => None
      case Some(next) => Some(Put(Renew, n, d.pc.now, next, useTag)))
    case ReadToRelease(_) => (
      match ReleaseNext(cur, d.lease)
      case None => None
      case Some(next) => Some(Put(Release, n, s.clock, next, useTag)))
    case _ => None
  }

  function Fenced(d: Node): Node { d.(isLeader := false, needRebuild := false, pc := Idle) }

  function LeaseNode(cfg: Config, s: State, n: string, act: LeaseAct): Node
    requires n in s.nodes && LeaseEnabled(s, n, act)
  {
    var d := s.nodes[n];
    var sent := WriteAfter(cfg, s, n, act).Some?;
    match act
    case StartTick => d.(pc := if d.isLeader then ToRenew(s.clock) else ToAcquire(s.clock))
    case ReadToAcquire(id, _) => d.(pc := if sent then Acquiring(d.pc.now, id) else Idle)
    case ReadToRenew(id) => if sent then d.(pc := Renewing(d.pc.now, id)) else Fenced(d)
    case ReadToRelease(_) => d.(pc := Stopped)
    case AckAcquire(tag) => d.(pc := Acquired(d.pc.now, s.puts[d.pc.id].next, tag))
    case AckRenew(tag) => d.(lease := s.puts[d.pc.id].next, etag := Some(tag), pc := Maintaining(d.pc.now))
    case NackRenew => Fenced(d)
    case GiveUp => d.(pc := if d.pc.Relinquishing? then Stopped else Idle)
    case StopLeading => d.(isLeader := false, pc := if d.isLeader then Capturing else Stopped)
    case Restart => FreshNode(cfg)
  }

  function PutId(act: LeaseAct): nat {
    match act
    case ReadToAcquire(id, _) => id
    case ReadToRenew(id) => id
    case ReadToRelease(id) => id
    case _ => 0
  }

  function LeaseStep(cfg: Config, s: State, n: string, act: LeaseAct): State
    requires n in s.nodes && LeaseEnabled(s, n, act)
  {
    var write := WriteAfter(cfg, s, n, act);
    s.(nodes := s.nodes[n := LeaseNode(cfg, s, n, act)],
       puts := if write.Some? then s.puts[PutId(act) := write.value] else s.puts)
  }

  // ---------------------------------------------------------------------
  // Table steps
  // ---------------------------------------------------------------------

  predicate TableEnabled(s: State, n: string, op: TableAct)
    requires n in s.nodes
  {
    var d := s.nodes[n];
    match op
    case ReadHandoff(_) => d.pc.Acquired?
    case DecideAdopt => d.pc.Loading?
    case Lead => d.pc.Leading?
    case Maintain => d.pc.Maintaining?
    case Enumerate(_) => d.pc.Enumerating?
    case ClearIfRebuild => d.pc.Deriving?
    case Ingest => d.pc.Ingesting?
    case Finish => d.pc.Finishing?
    case Capture(image) => d.pc.Capturing? && Lists(image, d.table)
    case PassGate(gate) => CanServe(s, n, gate.gen)
    case Grant(gate) => gate in d.gates
  }

  predicate Adoptable(cfg: Config, pc: Pc)
    requires pc.Loading?
  {
    cfg.hasHandoff && pc.rec.gen > 1 && pc.found.Some? && pc.found.value.gen == pc.rec.gen - 1
  }

  function TableAfter(cfg: Config, s: State, n: string, op: TableAct): Table
    requires n in s.nodes && TableEnabled(s, n, op)
  {
    var d := s.nodes[n];
    match op
    case DecideAdopt => if Adoptable(cfg, d.pc) then AfterLoad(d.table, d.pc.found.value.image, s.clock) else d.table
    case Maintain => if d.isLeader && d.pc.now >= d.serveAfter then d.table else AfterSweep(d.table, s.clock)
    case Enumerate(snap) => if snap.Some? then d.table else AfterSweep(d.table, s.clock)
    case ClearIfRebuild => if d.pc.rebuild then AfterClear(d.table) else d.table
    case Ingest => AfterIngest(d.table, d.pc.snap, cfg.grace, DuplicateClaims(d.pc.snap.claims), s.clock)
    case Finish => AfterSweep(d.table, s.clock)
    case Capture(_) => if cfg.hasHandoff then d.table.(stopped := true) else d.table
    case Grant(gate) => AfterReserve(d.table, gate.claims, s.clock)
    case _ => d.table
  }

  function PcAfter(cfg: Config, s: State, n: string, op: TableAct): Pc
    requires n in s.nodes && TableEnabled(s, n, op)
  {
    var d := s.nodes[n];
    match op
    case ReadHandoff(ok) => Loading(d.pc.now, d.pc.rec, d.pc.tag, if ok then s.handoff else None)
    case DecideAdopt => Leading(d.pc.now, d.pc.rec, d.pc.tag, Adoptable(cfg, d.pc))
    case Lead => Maintaining(d.pc.now)
    case Maintain => if d.isLeader && d.pc.now >= d.serveAfter then Enumerating(d.needRebuild) else Idle
    case Enumerate(snap) => if snap.Some? then Deriving(d.pc.rebuild, snap.value) else Idle
    case ClearIfRebuild => Ingesting(d.pc.rebuild, d.pc.snap)
    case Ingest => Finishing(d.pc.rebuild)
    case Finish => Idle
    case Capture(_) => Relinquishing
    case _ => d.pc
  }

  /** The leader state: set by Lead, and cleared of its rebuild duty once the first derivation is in. */
  function LeaderAfter(cfg: Config, d: Node, op: TableAct): Node {
    if op.Lead? && d.pc.Leading? then
      var drain := if d.pc.rec.gen > 1 then cfg.drain else 0;
      d.(isLeader := true, lease := d.pc.rec, etag := Some(d.pc.tag), needRebuild := !d.pc.adopted,
         serveAfter := if d.pc.adopted then d.pc.now else d.pc.now + drain)
    else if op.Finish? && d.pc.Finishing? then d.(needRebuild := d.needRebuild && !d.pc.rebuild)
    else d
  }

  function GatesAfter(d: Node, op: TableAct): multiset<Gate> {
    match op
    case PassGate(gate) => d.gates + multiset{gate}
    case Grant(gate) => d.gates - multiset{gate}
    case _ => d.gates
  }

  function TableNode(cfg: Config, s: State, n: string, op: TableAct): Node
    requires n in s.nodes && TableEnabled(s, n, op)
  {
    LeaderAfter(cfg, s.nodes[n], op).(table := TableAfter(cfg, s, n, op), pc := PcAfter(cfg, s, n, op),
                                      gates := GatesAfter(s.nodes[n], op))
  }

  function GrantsOf(ledger: map<nat, map<Bytes, Bytes>>, g: nat): map<Bytes, Bytes> { if g in ledger then ledger[g] else map[] }

  /** The owners a granted batch leaves behind. */
  function OwnersOf(claims: seq<Claim>): map<Bytes, Bytes> {
    if claims == [] then map[]
    else OwnersOf(claims[..|claims| - 1])[ClaimKey(claims[|claims| - 1]) := claims[|claims| - 1].owner]
  }

  /** The grants that are still in the taken-set under the same owner. */
  function StillHeld(grants: map<Bytes, Bytes>, taken: map<Bytes, Taken>): map<Bytes, Bytes> {
    map ck | ck in grants && ck in taken && taken[ck].owner == grants[ck] :: grants[ck]
  }

  /** A granted batch is recorded under its gate's generation, and a batch let through under an older
      generation takes its values over from the generation now led at the node; a snapshot drops what
      the leader released or reassigned. Clearing a table releases nothing. */
  function LedgerAfter(cfg: Config, s: State, n: string, op: TableAct): map<nat, map<Bytes, Bytes>>
    requires n in s.nodes && TableEnabled(s, n, op)
  {
    var d := s.nodes[n];
    match op
    case Ingest => s.ledger[d.lease.gen := StillHeld(GrantsOf(s.ledger, d.lease.gen), TableAfter(cfg, s, n, op).taken)]
    case Grant(gate) =>
      if VerdictOf(d.table, gate.claims, s.clock) != Granted then s.ledger
      else
        var owners := OwnersOf(gate.claims);
        var kept := if d.isLeader || d.pc.Capturing? then s.ledger[d.lease.gen := GrantsOf(s.ledger, d.lease.gen) - owners.Keys] else s.ledger;
        kept[gate.gen := GrantsOf(kept, gate.gen) + owners]
    case _ => s.ledger
  }

  function TableStep(cfg: Config, s: State, n: string, op: TableAct): State
    requires n in s.nodes && TableEnabled(s, n, op)
  {
    var d := s.nodes[n];
    var publishes := op.Capture? && cfg.hasHandoff;
    s.(nodes := s.nodes[n := TableNode(cfg, s, n, op)],
       led := if op.Lead? then s.led + {d.pc.rec.gen} else s.led,
       writes := if publishes then s.writes + {Handoff(d.lease.gen, op.image)} else s.writes,
       captured := if publishes then s.captured + {d.lease.gen} else s.captured,
       ledger := LedgerAfter(cfg, s, n, op))
  }

  // ---------------------------------------------------------------------
  // Executions
  // ---------------------------------------------------------------------

  predicate Enabled(cfg: Config, s: State, l: Label) {
    match l
    case Advance(_) => true
    case Execute(id, tag) => id in s.puts && (tag in s.issued ==> s.issued[tag] == s.puts[id].next)
    case LandHandoff(h) => h in s.writes
    case OnLease(n, act) => n in s.nodes && LeaseEnabled(s, n, act)
    case OnTable(n, op) => n in s.nodes && TableEnabled(s, n, op)
  }

  function Next(cfg: Config, s: State, l: Label): State
    requires Enabled(cfg, s, l)
  {
    match l
    case Advance(ticks) => s.(clock := s.clock + ticks)
    case Execute(id, tag) => Executed(s, id, tag)
    case LandHandoff(h) => s.(handoff := Some(h))
    case OnLease(n, act) => LeaseStep(cfg, s, n, act)
    case OnTable(n, op) => TableStep(cfg, s, n, op)
  }

  /** states is an execution of the cluster under the given labels. */
  ghost predicate Execution(cfg: Config, states: seq<State>, labels: seq<Label>) {
    && |states| == |labels| + 1 && Init(cfg, states[0])
    && forall i :: 0 <= i < |labels| ==> Enabled(cfg, states[i], labels[i]) && states[i + 1] == Next(cfg, states[i], labels[i])
  }
}
