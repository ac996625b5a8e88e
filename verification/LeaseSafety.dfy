/** Lease mutual exclusion over every execution of the cluster. */
module LeaseSafety {
  import opened Base
  import opened Lease
  import opened LeaseCluster

  function GenOf(cell: Cell): nat { if cell.Present? then cell.rec.gen else 0 }

  ghost predicate Acked(s: State, id: nat) { exists tag :: (id, tag) in s.acks }

  /** m acts on record r, or will once a response already sent reaches it. */
  ghost predicate Holds(s: State, m: string, r: LeaseRecord) {
    && m in s.nodes
    && var d := s.nodes[m];
       || (d.isLeader && r == d.lease)
       || ((d.pc.Acquired? || d.pc.Loading? || d.pc.Leading?) && r == d.pc.rec)
       || ((d.pc.Acquiring? || d.pc.Renewing?) && d.pc.id in s.puts && Acked(s, d.pc.id) && r == s.puts[d.pc.id].next)
  }

  /** Every record ever stored belongs to one owner per generation and is no newer than the stored one. */
  ghost predicate StoreInv(s: State) {
    && s.clock >= 0
    && (s.cell.Present? ==> s.cell.tag in s.issued && s.issued[s.cell.tag] == s.cell.rec)
    && (s.cell.Absent? ==> s.issued == map[])
    && (forall t :: t in s.issued ==> s.issued[t].owner != "" && 1 <= s.issued[t].gen <= GenOf(s.cell))
    && (forall t, u :: t in s.issued && u in s.issued && s.issued[t].gen == s.issued[u].gen ==> s.issued[t].owner == s.issued[u].owner)
    && (forall a :: a in s.acks ==> a.0 in s.puts && a.1 in s.issued && s.issued[a.1] == s.puts[a.0].next)
    && (forall i :: 0 <= i < |s.won| ==> s.won[i].gen <= GenOf(s.cell))
    && (forall i, j :: 0 <= i < j < |s.won| ==> s.won[i].gen < s.won[j].gen)
  }

  ghost predicate PutInv(cfg: Config, s: State, id: nat)
    requires id in s.puts
  {
    var p := s.puts[id];
    && p.now <= s.clock && p.node != "" && p.next.owner == p.node
    && (p.kind.Release? ==> p.next.expiresUS == 0)
    && (!p.kind.Release? ==> p.next.expiresUS == p.now + cfg.ttl)
    && match p.cond
       case None => p.kind.Acquire? && p.next.gen == 1
       case Some(t) =>
         && t in s.issued
         && (p.kind.Acquire? ==> p.next.gen == s.issued[t].gen + 1 && (s.issued[t].owner == p.node || s.issued[t].expiresUS <= p.now))
         && (!p.kind.Acquire? ==> p.next.gen == s.issued[t].gen && s.issued[t].owner == p.node)
         && (p.kind.Renew? ==> s.issued[t].expiresUS <= p.next.expiresUS)
  }

  /** No write of m concerns a generation past g, and m has relinquished none from g on. */
  ghost predicate NoWritePast(s: State, m: string, g: nat) {
    forall id :: id in s.puts && s.puts[id].node == m ==>
      s.puts[id].next.gen <= g && (s.puts[id].kind.Release? ==> s.puts[id].next.gen < g)
  }

  ghost predicate Named(s: State, tag: Option<Tag>, r: LeaseRecord) {
    tag.Some? && tag.value in s.issued && s.issued[tag.value] == r
  }

  ghost predicate NodeInv(cfg: Config, s: State, m: string)
    requires m in s.nodes
  {
    var d := s.nodes[m];
    && m != ""
    && (d.isLeader || d.pc.Capturing? || d.pc.Relinquishing? ==> Named(s, d.etag, d.lease) && d.lease.owner == m)
    && (d.isLeader ==> d.lease.expiresUS <= s.clock + cfg.ttl)
    && match d.pc
       case Idle => true
       case ToAcquire(now) => !d.isLeader && now <= s.clock
       case Acquiring(now, id) =>
         && !d.isLeader && id in s.puts && s.puts[id].kind.Acquire? && s.puts[id].node == m
         && NoWritePast(s, m, s.puts[id].next.gen)
       case Acquired(_, rec, tag) => !d.isLeader && Named(s, Some(tag), rec) && rec.expiresUS <= s.clock + cfg.ttl
       case Loading(_, rec, tag, _) => !d.isLeader && Named(s, Some(tag), rec) && rec.expiresUS <= s.clock + cfg.ttl
       case Leading(_, rec, tag, _) => !d.isLeader && Named(s, Some(tag), rec) && rec.expiresUS <= s.clock + cfg.ttl
       case ToRenew(now) => d.isLeader && now <= s.clock && d.lease.expiresUS <= now + cfg.ttl
       case Renewing(_, id) => d.isLeader && id in s.puts && s.puts[id].kind.Renew? && s.puts[id].node == m && s.puts[id].next.gen == d.lease.gen
       case Maintaining(_) => d.isLeader
       case Enumerating(_) => d.isLeader
       case Deriving(_, _) => d.isLeader
       case Ingesting(_, _) => d.isLeader
       case Finishing(_) => d.isLeader
       case Capturing => !d.isLeader
       case Relinquishing => !d.isLeader
       case Stopped => !d.isLeader
  }

  /** What makes a held record safe: while it is current the store outlives it, and once the store moved
      to a newer generation it has expired. */
  ghost predicate HoldInv(s: State, m: string, r: LeaseRecord) {
    && r.owner == m && (exists t :: t in s.issued && s.issued[t] == r)
    && s.cell.Present?
    && (r.gen == s.cell.rec.gen ==> s.cell.rec.owner == m && s.cell.rec.expiresUS >= r.expiresUS)
    && (r.gen < GenOf(s.cell) ==> r.expiresUS <= s.clock)
    && NoWritePast(s, m, r.gen)
  }

  ghost predicate Inv(cfg: Config, s: State) {
    && cfg.ttl > 0 && StoreInv(s)
    && (forall id :: id in s.puts ==> PutInv(cfg, s, id))
    && (forall m :: m in s.nodes ==> NodeInv(cfg, s, m))
    && (forall m, r :: Holds(s, m, r) ==> HoldInv(s, m, r))
  }

  // ---------------------------------------------------------------------
  // Preservation
  // ---------------------------------------------------------------------

  lemma InitInv(cfg: Config, s: State)
    requires Init(cfg, s)
    ensures Inv(cfg, s)
  {
  }

  /** What m holds after the store executes write id: nothing new, or that write's record. */
  lemma HoldsAfterExecute(cfg: Config, s: State, id: nat, tag: Tag, m: string, r: LeaseRecord)
    requires Inv(cfg, s) && id in s.puts && Matches(s.cell, s.puts[id].cond) && Holds(Executed(s, id, tag), m, r)
    ensures Holds(s, m, r) || (r == s.puts[id].next && s.puts[id].node == m && !s.puts[id].kind.Release? && NoWritePast(s, m, r.gen))
  {
    var s' := Executed(s, id, tag);
    var d := s.nodes[m];
    if !Holds(s, m, r) {
      assert d.pc.id == id by {
        var t :| (d.pc.id, t) in s'.acks;
        assert (d.pc.id, t) in s.acks || d.pc.id == id;
      }
      assert NodeInv(cfg, s, m);
      if d.pc.Renewing? {
        assert Holds(s, m, d.lease);
        assert HoldInv(s, m, d.lease);
      }
    }
  }

  /** A matching write moves the store forward: a new generation, or the same one under the same owner. */
  lemma ExecuteStore(cfg: Config, s: State, id: nat, tag: Tag)
    requires StoreInv(s) && Enabled(cfg, s, Execute(id, tag)) && PutInv(cfg, s, id) && Matches(s.cell, s.puts[id].cond)
    ensures StoreInv(Executed(s, id, tag))
    ensures var p := s.puts[id];
            && p.next.gen == (if p.kind.Acquire? then GenOf(s.cell) + 1 else GenOf(s.cell))
            && (!p.kind.Acquire? ==> s.cell.Present? && s.cell.rec.owner == p.node)
            && (p.kind.Renew? ==> s.cell.rec.expiresUS <= p.next.expiresUS)
            && (p.kind.Acquire? ==> s.cell.Absent? || s.cell.rec.owner == p.node || s.cell.rec.expiresUS <= s.clock)
  {
  }

  lemma NamesSurvive(s: State, id: nat, tag: Tag)
    requires id in s.puts && (tag in s.issued ==> s.issued[tag] == s.puts[id].next)
    ensures forall t :: t in s.issued ==> t in Executed(s, id, tag).issued && Executed(s, id, tag).issued[t] == s.issued[t]
  {
  }

  /** A record held before a write executes is still safe after it. */
  lemma ExecuteKeepsHold(cfg: Config, s: State, id: nat, tag: Tag, m: string, r: LeaseRecord)
    requires StoreInv(s) && Enabled(cfg, s, Execute(id, tag)) && PutInv(cfg, s, id) && Matches(s.cell, s.puts[id].cond)
    requires HoldInv(s, m, r)
    ensures HoldInv(Executed(s, id, tag), m, r)
  {
    var p, s' := s.puts[id], Executed(s, id, tag);
    ExecuteStore(cfg, s, id, tag);
    NamesSurvive(s, id, tag);
    var t :| t in s.issued && s.issued[t] == r;
    assert t in s'.issued && s'.issued[t] == r;
    assert p.node == m && r.gen == GenOf(s.cell) ==> p.kind.Renew?;
  }

  /** s' knows every record, write and instant s knows. */
  ghost predicate Extends(s: State, s': State) {
    && s.clock <= s'.clock
    && (forall t :: t in s.issued ==> t in s'.issued && s'.issued[t] == s.issued[t])
    && (forall id :: id in s.puts ==> id in s'.puts && s'.puts[id] == s.puts[id])
  }

  ghost predicate NoNewWrites(s: State, s': State, m: string) {
    forall id :: id in s'.puts && s'.puts[id].node == m ==> id in s.puts && s'.puts[id] == s.puts[id]
  }

  lemma PutFrame(cfg: Config, s: State, s': State, id: nat)
    requires Extends(s, s') && id in s.puts && PutInv(cfg, s, id)
    ensures id in s'.puts && PutInv(cfg, s', id)
  {
  }

  lemma NodeFrame(cfg: Config, s: State, s': State, m: string)
    requires Extends(s, s') && NoNewWrites(s, s', m) && m in s.nodes && m in s'.nodes && s'.nodes[m] == s.nodes[m]
    requires NodeInv(cfg, s, m)
    ensures NodeInv(cfg, s', m)
  {
  }

  lemma HoldFrame(s: State, s': State, m: string, r: LeaseRecord)
    requires Extends(s, s') && NoNewWrites(s, s', m) && s'.cell == s.cell && HoldInv(s, m, r)
    ensures HoldInv(s', m, r)
  {
    var t :| t in s.issued && s.issued[t] == r;
    assert t in s'.issued && s'.issued[t] == r;
  }

  lemma ExecuteHolds(cfg: Config, s: State, id: nat, tag: Tag, m: string, r: LeaseRecord)
    requires Inv(cfg, s) && Enabled(cfg, s, Execute(id, tag)) && Holds(Executed(s, id, tag), m, r)
    ensures HoldInv(Executed(s, id, tag), m, r)
  {
    var s' := Executed(s, id, tag);
    assert PutInv(cfg, s, id);
    if Matches(s.cell, s.puts[id].cond) {
      HoldsAfterExecute(cfg, s, id, tag, m, r);
      if Holds(s, m, r) {
        ExecuteKeepsHold(cfg, s, id, tag, m, r);
      } else {
        assert s'.issued[tag] == r;
      }
    } else {
      assert Holds(s, m, r);
      HoldFrame(s, s', m, r);
    }
  }

  lemma ExecuteInv(cfg: Config, s: State, id: nat, tag: Tag)
    requires Inv(cfg, s) && Enabled(cfg, s, Execute(id, tag))
    ensures Inv(cfg, Executed(s, id, tag))
  {
    var s' := Executed(s, id, tag);
    assert PutInv(cfg, s, id);
    NamesSurvive(s, id, tag);
    if Matches(s.cell, s.puts[id].cond) { ExecuteStore(cfg, s, id, tag); }
    forall m, r | Holds(s', m, r) ensures HoldInv(s', m, r) { ExecuteHolds(cfg, s, id, tag, m, r); }
    forall i | i in s'.puts ensures PutInv(cfg, s', i) { PutFrame(cfg, s, s', i); }
    forall m | m in s'.nodes ensures NodeInv(cfg, s', m) { NodeFrame(cfg, s, s', m); }
  }

  // Steps of one node -----------------------------------------------------

  /** A step of node n that leaves the store alone and adds at most writes of n. */
  ghost predicate StepOf(s: State, s': State, n: string) {
    && n in s.nodes && s'.nodes.Keys == s.nodes.Keys
    && s'.clock == s.clock && s'.cell == s.cell && s'.issued == s.issued && s'.acks == s.acks && s'.won == s.won
    && (forall id :: id in s.puts ==> id in s'.puts && s'.puts[id] == s.puts[id])
    && (forall id :: id in s'.puts && id !in s.puts ==> s'.puts[id].node == n)
    && (forall m :: m in s.nodes && m != n ==> s'.nodes[m] == s.nodes[m])
  }

  lemma OtherHolds(cfg: Config, s: State, s': State, n: string, m: string, r: LeaseRecord)
    requires Inv(cfg, s) && StepOf(s, s', n) && m != n && Holds(s', m, r)
    ensures HoldInv(s', m, r)
  {
    assert NodeInv(cfg, s, m);
    assert Holds(s, m, r);
    HoldFrame(s, s', m, r);
  }

  /** It suffices to look at the node that moved and at the writes it added. */
  lemma StepOfInv(cfg: Config, s: State, s': State, n: string)
    requires Inv(cfg, s) && StepOf(s, s', n)
    requires NodeInv(cfg, s', n)
    requires forall id :: id in s'.puts && id !in s.puts ==> PutInv(cfg, s', id)
    requires forall r :: Holds(s', n, r) ==> HoldInv(s', n, r)
    ensures Inv(cfg, s')
  {
    assert Extends(s, s') && forall m :: m != n ==> NoNewWrites(s, s', m);
    forall i | i in s'.puts ensures PutInv(cfg, s', i) { if i in s.puts { PutFrame(cfg, s, s', i); } }
    forall m | m in s'.nodes ensures NodeInv(cfg, s', m) { if m != n { NodeFrame(cfg, s, s', m); } }
    forall m, r | Holds(s', m, r) ensures HoldInv(s', m, r) { if m != n { OtherHolds(cfg, s, s', n, m, r); } }
  }

  /** A step that writes nothing and holds nothing new. */
  lemma QuietStepInv(cfg: Config, s: State, s': State, n: string)
    requires Inv(cfg, s) && StepOf(s, s', n) && s'.puts == s.puts
    requires NodeInv(cfg, s', n)
    requires forall r :: Holds(s', n, r) ==> Holds(s, n, r)
    ensures Inv(cfg, s')
  {
    forall r | Holds(s', n, r) ensures HoldInv(s', n, r) { HoldFrame(s, s', n, r); }
    StepOfInv(cfg, s, s', n);
  }

  // Lease steps -----------------------------------------------------------

  /** A lease step replaces n's node and adds at most one write, under an unused id. */
  lemma LeaseStepShape(cfg: Config, s: State, n: string, act: LeaseAct)
    requires n in s.nodes && LeaseEnabled(s, n, act)
    ensures StepOf(s, LeaseStep(cfg, s, n, act), n)
    ensures LeaseStep(cfg, s, n, act).nodes[n] == LeaseNode(cfg, s, n, act)
    ensures var w := WriteAfter(cfg, s, n, act);
            && (w.None? ==> LeaseStep(cfg, s, n, act).puts == s.puts)
            && (w.Some? ==> PutId(act) !in s.puts && LeaseStep(cfg, s, n, act).puts == s.puts[PutId(act) := w.value])
  {
  }

  lemma AcquireSentPut(cfg: Config, s: State, n: string, act: LeaseAct)
    requires Inv(cfg, s) && act.ReadToAcquire? && n in s.nodes && LeaseEnabled(s, n, act) && WriteAfter(cfg, s, n, act).Some?
    ensures act.id in LeaseStep(cfg, s, n, act).puts && PutInv(cfg, LeaseStep(cfg, s, n, act), act.id)
    ensures LeaseStep(cfg, s, n, act).puts[act.id].next.gen == GenOf(s.cell) + 1
  {
    assert NodeInv(cfg, s, n);
  }

  /** No write concerns a generation past the one after the stored one. */
  lemma NoWritePastNext(cfg: Config, s: State, q: nat)
    requires Inv(cfg, s) && q in s.puts
    ensures s.puts[q].next.gen <= GenOf(s.cell) + 1
    ensures s.puts[q].kind.Release? ==> s.puts[q].next.gen <= GenOf(s.cell)
  {
    assert PutInv(cfg, s, q);
  }

  lemma AcquireSentNode(cfg: Config, s: State, n: string, act: LeaseAct)
    requires Inv(cfg, s) && act.ReadToAcquire? && n in s.nodes && LeaseEnabled(s, n, act) && WriteAfter(cfg, s, n, act).Some?
    ensures NodeInv(cfg, LeaseStep(cfg, s, n, act), n)
  {
    var s' := LeaseStep(cfg, s, n, act);
    assert NodeInv(cfg, s, n);
    AcquireSentPut(cfg, s, n, act);
    forall q | q in s.puts ensures s.puts[q].next.gen <= GenOf(s.cell) + 1 && (s.puts[q].kind.Release? ==> s.puts[q].next.gen <= GenOf(s.cell)) {
      NoWritePastNext(cfg, s, q);
    }
  }

  lemma ReadToAcquireInv(cfg: Config, s: State, n: string, act: LeaseAct)
    requires Inv(cfg, s) && act.ReadToAcquire? && n in s.nodes && LeaseEnabled(s, n, act)
    ensures Inv(cfg, LeaseStep(cfg, s, n, act))
  {
    var s', id := LeaseStep(cfg, s, n, act), act.id;
    LeaseStepShape(cfg, s, n, act);
    if WriteAfter(cfg, s, n, act).None? {
      assert NodeInv(cfg, s, n);
      QuietStepInv(cfg, s, s', n);
    } else {
      AcquireSentPut(cfg, s, n, act);
      AcquireSentNode(cfg, s, n, act);
      assert !Acked(s', id);
      StepOfInv(cfg, s, s', n);
    }
  }

  lemma RenewSentPut(cfg: Config, s: State, n: string, act: LeaseAct)
    requires Inv(cfg, s) && act.ReadToRenew? && n in s.nodes && LeaseEnabled(s, n, act) && WriteAfter(cfg, s, n, act).Some?
    ensures act.id in LeaseStep(cfg, s, n, act).puts && PutInv(cfg, LeaseStep(cfg, s, n, act), act.id)
    ensures NodeInv(cfg, LeaseStep(cfg, s, n, act), n)
  {
    assert NodeInv(cfg, s, n);
    assert Holds(s, n, s.nodes[n].lease);
  }

  lemma RenewSentHolds(cfg: Config, s: State, n: string, act: LeaseAct, r: LeaseRecord)
    requires Inv(cfg, s) && act.ReadToRenew? && n in s.nodes && LeaseEnabled(s, n, act) && WriteAfter(cfg, s, n, act).Some?
    requires Holds(LeaseStep(cfg, s, n, act), n, r)
    ensures HoldInv(LeaseStep(cfg, s, n, act), n, r)
  {
    assert NodeInv(cfg, s, n);
    assert !Acked(LeaseStep(cfg, s, n, act), act.id);
    assert Holds(s, n, s.nodes[n].lease) && r == s.nodes[n].lease;
    assert HoldInv(s, n, r);
  }

  lemma ReadToRenewInv(cfg: Config, s: State, n: string, act: LeaseAct)
    requires Inv(cfg, s) && act.ReadToRenew? && n in s.nodes && LeaseEnabled(s, n, act)
    ensures Inv(cfg, LeaseStep(cfg, s, n, act))
  {
    var s' := LeaseStep(cfg, s, n, act);
    LeaseStepShape(cfg, s, n, act);
    if WriteAfter(cfg, s, n, act).None? {
      assert NodeInv(cfg, s, n);
      QuietStepInv(cfg, s, s', n);
    } else {
      RenewSentPut(cfg, s, n, act);
      forall r | Holds(s', n, r) ensures HoldInv(s', n, r) { RenewSentHolds(cfg, s, n, act, r); }
      StepOfInv(cfg, s, s', n);
    }
  }

  lemma ReadToReleaseInv(cfg: Config, s: State, n: string, act: LeaseAct)
    requires Inv(cfg, s) && act.ReadToRelease? && n in s.nodes && LeaseEnabled(s, n, act)
    ensures Inv(cfg, LeaseStep(cfg, s, n, act))
  {
    var s', id := LeaseStep(cfg, s, n, act), act.id;
    LeaseStepShape(cfg, s, n, act);
    assert NodeInv(cfg, s, n);
    if WriteAfter(cfg, s, n, act).None? {
      QuietStepInv(cfg, s, s', n);
    } else {
      assert PutInv(cfg, s', id);
      StepOfInv(cfg, s, s', n);
    }
  }

  lemma AckAcquireInv(cfg: Config, s: State, n: string, act: LeaseAct)
    requires Inv(cfg, s) && act.AckAcquire? && n in s.nodes && LeaseEnabled(s, n, act)
    ensures Inv(cfg, LeaseStep(cfg, s, n, act))
  {
    var s', d := LeaseStep(cfg, s, n, act), s.nodes[n];
    LeaseStepShape(cfg, s, n, act);
    assert NodeInv(cfg, s, n) && PutInv(cfg, s, d.pc.id);
    assert (d.pc.id, act.tag) in s.acks;
    QuietStepInv(cfg, s, s', n);
  }

  lemma AckRenewInv(cfg: Config, s: State, n: string, act: LeaseAct)
    requires Inv(cfg, s) && act.AckRenew? && n in s.nodes && LeaseEnabled(s, n, act)
    ensures Inv(cfg, LeaseStep(cfg, s, n, act))
  {
    var s', d := LeaseStep(cfg, s, n, act), s.nodes[n];
    LeaseStepShape(cfg, s, n, act);
    assert NodeInv(cfg, s, n) && PutInv(cfg, s, d.pc.id);
    assert (d.pc.id, act.tag) in s.acks;
    QuietStepInv(cfg, s, s', n);
  }

  predicate Quiet(act: LeaseAct) { act.StartTick? || act.NackRenew? || act.GiveUp? || act.StopLeading? || act.Restart? }

  lemma QuietLeaseNode(cfg: Config, s: State, n: string, act: LeaseAct)
    requires n in s.nodes && NodeInv(cfg, s, n) && LeaseEnabled(s, n, act) && Quiet(act)
    ensures NodeInv(cfg, LeaseStep(cfg, s, n, act), n)
  {
  }

  lemma QuietLeaseHolds(cfg: Config, s: State, n: string, act: LeaseAct, r: LeaseRecord)
    requires n in s.nodes && NodeInv(cfg, s, n) && LeaseEnabled(s, n, act) && Quiet(act)
    requires Holds(LeaseStep(cfg, s, n, act), n, r)
    ensures Holds(s, n, r)
  {
  }

  lemma QuietLeaseInv(cfg: Config, s: State, n: string, act: LeaseAct)
    requires Inv(cfg, s) && n in s.nodes && LeaseEnabled(s, n, act) && Quiet(act)
    ensures Inv(cfg, LeaseStep(cfg, s, n, act))
  {
    var s' := LeaseStep(cfg, s, n, act);
    LeaseStepShape(cfg, s, n, act);
    QuietLeaseNode(cfg, s, n, act);
    forall r | Holds(s', n, r) ensures Holds(s, n, r) { QuietLeaseHolds(cfg, s, n, act, r); }
    QuietStepInv(cfg, s, s', n);
  }

  lemma LeaseStepInv(cfg: Config, s: State, n: string, act: LeaseAct)
    requires Inv(cfg, s) && n in s.nodes && LeaseEnabled(s, n, act)
    ensures Inv(cfg, LeaseStep(cfg, s, n, act))
  {
    match act
    case ReadToAcquire(_, _) => ReadToAcquireInv(cfg, s, n, act);
    case ReadToRenew(_) => ReadToRenewInv(cfg, s, n, act);
    case ReadToRelease(_) => ReadToReleaseInv(cfg, s, n, act);
    case AckAcquire(_) => AckAcquireInv(cfg, s, n, act);
    case AckRenew(_) => AckRenewInv(cfg, s, n, act);
    case _ => QuietLeaseInv(cfg, s, n, act);
  }

  // Table steps -----------------------------------------------------------

  /** Whatever a table step does to the table, it leaves the lease alone except to start leading. */
  ghost predicate TableShape(d: Node, e: Node) {
    if d.pc.Leading? && !e.pc.Leading? then
      e.isLeader && e.lease == d.pc.rec && e.etag == Some(d.pc.tag) && e.pc.Maintaining?
    else
      && e.isLeader == d.isLeader && e.lease == d.lease && e.etag == d.etag
      && (|| e.pc == d.pc
          || (d.pc.Acquired? && e.pc.Loading? && e.pc.rec == d.pc.rec && e.pc.tag == d.pc.tag)
          || (d.pc.Loading? && e.pc.Leading? && e.pc.rec == d.pc.rec && e.pc.tag == d.pc.tag)
          || (d.pc.Capturing? && e.pc.Relinquishing?)
          || (Serves(d.pc) && (Serves(e.pc) || e.pc.Idle?)))
  }

  predicate Serves(pc: Pc) { pc.Maintaining? || pc.Enumerating? || pc.Deriving? || pc.Ingesting? || pc.Finishing? }

  lemma TableStepShape(cfg: Config, s: State, n: string, op: TableAct)
    requires n in s.nodes && TableEnabled(s, n, op)
    ensures StepOf(s, TableStep(cfg, s, n, op), n)
    ensures TableStep(cfg, s, n, op).puts == s.puts
    ensures TableShape(s.nodes[n], TableStep(cfg, s, n, op).nodes[n])
  {
  }

  /** The record a node is about to lead names its lease. */
  lemma LeadingIsNamed(cfg: Config, s: State, n: string)
    requires Inv(cfg, s) && n in s.nodes && s.nodes[n].pc.Leading?
    ensures s.nodes[n].pc.rec.owner == n
  {
    assert Holds(s, n, s.nodes[n].pc.rec);
    assert HoldInv(s, n, s.nodes[n].pc.rec);
  }

  lemma LeadNode(cfg: Config, s: State, s': State, n: string)
    requires Inv(cfg, s) && StepOf(s, s', n) && s'.puts == s.puts && n in s'.nodes && TableShape(s.nodes[n], s'.nodes[n])
    requires s.nodes[n].pc.Leading? && !s'.nodes[n].pc.Leading?
    ensures NodeInv(cfg, s', n)
  {
    LeadingIsNamed(cfg, s, n);
    assert NodeInv(cfg, s, n);
  }

  lemma OtherTableNode(cfg: Config, s: State, s': State, n: string)
    requires StepOf(s, s', n) && NodeInv(cfg, s, n) && s'.puts == s.puts && n in s'.nodes && TableShape(s.nodes[n], s'.nodes[n])
    requires !(s.nodes[n].pc.Leading? && !s'.nodes[n].pc.Leading?)
    ensures NodeInv(cfg, s', n)
  {
  }

  lemma ShapedHolds(s: State, s': State, n: string, r: LeaseRecord)
    requires StepOf(s, s', n) && s'.puts == s.puts && n in s'.nodes && TableShape(s.nodes[n], s'.nodes[n]) && Holds(s', n, r)
    ensures Holds(s, n, r)
  {
  }

  lemma ShapedStepInv(cfg: Config, s: State, s': State, n: string)
    requires Inv(cfg, s) && StepOf(s, s', n) && s'.puts == s.puts && n in s'.nodes && TableShape(s.nodes[n], s'.nodes[n])
    ensures Inv(cfg, s')
  {
    if s.nodes[n].pc.Leading? && !s'.nodes[n].pc.Leading? {
      LeadNode(cfg, s, s', n);
    } else {
      assert NodeInv(cfg, s, n);
      OtherTableNode(cfg, s, s', n);
    }
    forall r | Holds(s', n, r) ensures Holds(s, n, r) { ShapedHolds(s, s', n, r); }
    QuietStepInv(cfg, s, s', n);
  }

  lemma TableStepInv(cfg: Config, s: State, n: string, op: TableAct)
    requires Inv(cfg, s) && n in s.nodes && TableEnabled(s, n, op)
    ensures Inv(cfg, TableStep(cfg, s, n, op))
  {
    TableStepShape(cfg, s, n, op);
    ShapedStepInv(cfg, s, TableStep(cfg, s, n, op), n);
  }

  lemma ClockInv(cfg: Config, s: State, s': State)
    requires Inv(cfg, s) && s.clock <= s'.clock && s' == s.(clock := s'.clock, handoff := s'.handoff)
    ensures Inv(cfg, s')
  {
    forall i | i in s'.puts ensures PutInv(cfg, s', i) { PutFrame(cfg, s, s', i); }
    forall m | m in s'.nodes ensures NodeInv(cfg, s', m) { NodeFrame(cfg, s, s', m); }
    forall m, r | Holds(s', m, r) ensures HoldInv(s', m, r) { assert Holds(s, m, r); HoldFrame(s, s', m, r); }
  }

  lemma {:induction false} StepInv(cfg: Config, s: State, l: Label)
    requires Inv(cfg, s) && Enabled(cfg, s, l)
    ensures Inv(cfg, Next(cfg, s, l))
  {
    match l
    case Execute(id, tag) => ExecuteInv(cfg, s, id, tag);
    case OnLease(n, act) => LeaseStepInv(cfg, s, n, act);
    case OnTable(n, op) => TableStepInv(cfg, s, n, op);
    case _ => ClockInv(cfg, s, Next(cfg, s, l));
  }

  lemma {:induction false} ExecutionInv(cfg: Config, states: seq<State>, labels: seq<Label>, i: nat)
    requires Execution(cfg, states, labels) && i <= |labels|
    ensures Inv(cfg, states[i])
    decreases i
  {
    if i == 0 {
      InitInv(cfg, states[0]);
    } else {
      ExecutionInv(cfg, states, labels, i - 1);
      StepInv(cfg, states[i - 1], labels[i - 1]);
      assert states[i - 1 + 1] == Next(cfg, states[i - 1], labels[i - 1]);
    }
  }

  // ---------------------------------------------------------------------
  // Main results
  // ---------------------------------------------------------------------

  /** Two nodes that act on the same generation are one node. */
  lemma {:induction false} SameGenSameNode(cfg: Config, s: State, m: string, r: LeaseRecord, k: string, q: LeaseRecord)
    requires Inv(cfg, s) && Holds(s, m, r) && Holds(s, k, q) && r.gen == q.gen
    ensures m == k
  {
    assert HoldInv(s, m, r) && HoldInv(s, k, q);
    var t :| t in s.issued && s.issued[t] == r;
    var u :| u in s.issued && s.issued[u] == q;
  }

  /** At every instant of every execution at most one node passes the gate, and for one generation only. */
  lemma {:induction false} MutualExclusion(cfg: Config, states: seq<State>, labels: seq<Label>, i: nat, m: string, g: nat, k: string, h: nat)
    requires Execution(cfg, states, labels) && i <= |labels|
    requires m in states[i].nodes && k in states[i].nodes && CanServe(states[i], m, g) && CanServe(states[i], k, h)
    ensures m == k && g == h
  {
    var s := states[i];
    ExecutionInv(cfg, states, labels, i);
    var r, q := s.nodes[m].lease, s.nodes[k].lease;
    assert Holds(s, m, r) && Holds(s, k, q);
    assert HoldInv(s, m, r) && HoldInv(s, k, q);
    var t :| t in s.issued && s.issued[t] == r;
    var u :| u in s.issued && s.issued[u] == q;
  }

  lemma StepGeneration(cfg: Config, s: State, l: Label)
    requires Inv(cfg, s) && Enabled(cfg, s, l)
    ensures GenOf(s.cell) <= GenOf(Next(cfg, s, l).cell) && s.won <= Next(cfg, s, l).won
  {
    if l.Execute? && Matches(s.cell, s.puts[l.id].cond) {
      assert PutInv(cfg, s, l.id);
      ExecuteStore(cfg, s, l.id, l.tag);
    }
  }

  /** The stored generation never decreases, and an acquisition once recorded stays. */
  lemma {:induction false} GenerationNeverDecreases(cfg: Config, states: seq<State>, labels: seq<Label>, i: nat, j: nat)
    requires Execution(cfg, states, labels) && i <= j <= |labels|
    ensures GenOf(states[i].cell) <= GenOf(states[j].cell)
    ensures states[i].won <= states[j].won
    decreases j - i
  {
    if i < j {
      GenerationNeverDecreases(cfg, states, labels, i, j - 1);
      ExecutionInv(cfg, states, labels, j - 1);
      StepGeneration(cfg, states[j - 1], labels[j - 1]);
      assert states[j - 1 + 1] == Next(cfg, states[j - 1], labels[j - 1]);
    }
  }

  /** No two successful acquisitions of an execution share a generation, and later ones have larger ones. */
  lemma {:induction false} AcquisitionsAreFenced(cfg: Config, states: seq<State>, labels: seq<Label>, i: nat, a: nat, b: nat)
    requires Execution(cfg, states, labels) && i <= |labels| && a < b < |states[i].won|
    ensures states[i].won[a].gen < states[i].won[b].gen
  {
    ExecutionInv(cfg, states, labels, i);
  }
}
