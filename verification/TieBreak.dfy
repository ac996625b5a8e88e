/** The duplicate-connection tie-break of the mesh (tcpmesh/conn.go, tcpmesh/wire.go). */
module TieBreak {
  import opened Base

  type Id = nat

  /** A connection between two nodes: who dialed whom, and the dialer's nonce, which the acceptor adopts. */
  datatype Conn = Conn(dialer: Id, acceptor: Id, nonce: nat)

  /** The (dialerLow, nonce) pair an endpoint stores on its peer object. */
  datatype Rank = Rank(dialerLow: bool, nonce: nat)

  predicate Joins(c: Conn, x: Id) { x == c.dialer || x == c.acceptor }

  predicate SamePair(c: Conn, d: Conn) { {c.dialer, c.acceptor} == {d.dialer, d.acceptor} }

  /** The remote NodeID endpoint x learns from c's hello. */
  function Remote(x: Id, c: Conn): Id { if x == c.dialer then c.acceptor else c.dialer }

  /** The rank endpoint x computes for c from its own side of the hello exchange. */
  function RankAt(x: Id, c: Conn): Rank {
    var outbound := x == c.dialer;
    Rank(if outbound then x < Remote(x, c) else Remote(x, c) < x, c.nonce)
  }

  predicate Outranks(p: Rank, q: Rank) { if p.dialerLow != q.dialerLow then p.dialerLow else p.nonce > q.nonce }

  /** The verdict of endpoint x on c against d. */
  predicate Beats(x: Id, c: Conn, d: Conn) { Outranks(RankAt(x, c), RankAt(x, d)) }

  /** Both endpoints reach the same verdict, and the connections of a pair are totally ordered by it. */
  lemma {:induction false} VerdictIsShared(x: Id, y: Id, c: Conn, d: Conn, e: Conn)
    requires x != y && c.dialer != c.acceptor
    requires forall k | k in {c, d, e} :: {k.dialer, k.acceptor} == {x, y}
    ensures Beats(x, c, d) == Beats(y, c, d)
    ensures c == d || Beats(x, c, d) || Beats(x, d, c)
    ensures !(Beats(x, c, d) && Beats(x, d, c))
    ensures Beats(x, c, d) && Beats(x, d, e) ==> Beats(x, c, e)
  {
    assert forall k | k in {c, d, e} :: (k.dialer == x && k.acceptor == y) || (k.dialer == y && k.acceptor == x) by {
      forall k | k in {c, d, e} ensures (k.dialer == x && k.acceptor == y) || (k.dialer == y && k.acceptor == x) {
        assert k.dialer in {x, y} && k.acceptor in {x, y} && x in {k.dialer, k.acceptor} && y in {k.dialer, k.acceptor};
      }
    }
  }

  /** What the mesh promises of two dials of one pair: the lower node's goes first, and of one node's the newer. */
  predicate Preferred(c: Conn, d: Conn) { if c.dialer == d.dialer then c.nonce > d.nonce else c.dialer < d.dialer }

  lemma PairEnds(c: Conn, d: Conn)
    requires SamePair(c, d) && d.dialer != d.acceptor
    ensures (c.dialer == d.dialer && c.acceptor == d.acceptor) || (c.dialer == d.acceptor && c.acceptor == d.dialer)
  {
    assert c.dialer in {d.dialer, d.acceptor} && c.acceptor in {d.dialer, d.acceptor};
    assert d.dialer in {c.dialer, c.acceptor} && d.acceptor in {c.dialer, c.acceptor};
  }

  /** That is the verdict of either end. */
  lemma {:induction false} VerdictIsPreference(x: Id, c: Conn, d: Conn)
    requires c.dialer != c.acceptor && SamePair(c, d) && Joins(c, x)
    ensures Beats(x, c, d) <==> Preferred(c, d)
  {
    PairEnds(d, c);
  }

  // ---------------------------------------------------------------------
  // Admission at one endpoint
  // ---------------------------------------------------------------------

  /** A live incumbent that is not outranked vetoes; a retired one never does. */
  predicate Vetoed(x: Id, incumbent: Option<Conn>, retired: bool, c: Conn) {
    incumbent.Some? && !retired && !Beats(x, c, incumbent.value)
  }

  /** The ready set of one endpoint and the peers it has closed. */
  class Mesh {
    const nodeID: Id
    var peersByID: map<Id, Conn>
    var retired: set<Conn>

    constructor (id: Id)
      ensures nodeID == id && peersByID == map[] && retired == {}
    {
      nodeID, peersByID, retired := id, map[], {};
    }

    function Current(y: Id): Option<Conn>
      reads this
    {
      if y in peersByID then Some(peersByID[y]) else None
    }

    /** The admission section: p takes the entry and the incumbent is handed back for closing, or p is
        rejected and the surviving incumbent is returned. */
    method Admit(p: Conn) returns (admitted: bool, other: Option<Conn>)
      modifies `peersByID
      ensures other == old(Current(Remote(nodeID, p)))
      ensures admitted == !Vetoed(nodeID, other, other.Some? && other.value in retired, p)
      ensures peersByID == if admitted then old(peersByID)[Remote(nodeID, p) := p] else old(peersByID)
      ensures p.dialer != p.acceptor && Joins(p, nodeID) && other.Some? && SamePair(p, other.value) && other.value !in retired ==>
                (admitted <==> Preferred(p, other.value))
    {
      if p.dialer != p.acceptor && Joins(p, nodeID) && Current(Remote(nodeID, p)).Some? && SamePair(p, Current(Remote(nodeID, p)).value) {
        VerdictIsPreference(nodeID, p, Current(Remote(nodeID, p)).value);
      }
      var remote := Remote(nodeID, p);
      other := None;
      if remote in peersByID {
        var existing := peersByID[remote];
        if existing !in retired && !Beats(nodeID, p, existing) {
          return false, Some(existing);
        }
        other := Some(existing);
      }
      peersByID := peersByID[remote := p];
      admitted := true;
    }

    /** Retirement takes p out of the ready set only if p is the current entry. */
    method Retire(p: Conn)
      modifies this
      ensures retired == old(retired) + {p}
      ensures peersByID == if old(Current(Remote(nodeID, p))) == Some(p) then old(peersByID) - {Remote(nodeID, p)} else old(peersByID)
    {
      if Remote(nodeID, p) in peersByID && peersByID[Remote(nodeID, p)] == p {
        peersByID := peersByID - {Remote(nodeID, p)};
      }
      retired := retired + {p};
    }
  }

  // ---------------------------------------------------------------------
  // The protocol
  // ---------------------------------------------------------------------

  /** Any number of nodes and connections. A pair (x, c) is endpoint x's side of connection c:
      `entry` is peersByID of every node, `setup` the sides whose admission section is over, `admitted`
      the ones that won it, `condemned` the ones to be closed by a goroutine that has left the ready-set
      lock, `retired` the ones whose peer object is closed, `closed` the sockets closed from either end. */
  datatype State = State(entry: map<(Id, Id), Conn>, setup: set<(Id, Conn)>, admitted: set<(Id, Conn)>,
                         condemned: set<(Id, Conn)>, retired: set<(Id, Conn)>, closed: set<Conn>)

  const INITIAL := State(map[], {}, {}, {}, {}, {})

  function Entry(s: State, x: Id, y: Id): Option<Conn> { if (x, y) in s.entry then Some(s.entry[(x, y)]) else None }

  predicate IsEntry(s: State, x: Id, c: Conn) { Entry(s, x, Remote(x, c)) == Some(c) }

  /** One step of one endpoint on one connection. */
  datatype Step =
    | Setup(x: Id, c: Conn)       // the admission section
    | HelloLost(x: Id, c: Conn)   // the remote closed the socket during the hello
    | Notice(x: Id, c: Conn)      // the read loop sees the socket closed: leave the ready set
    | Leave(x: Id, c: Conn)       // the read loop finds itself superseded
    | Retire(x: Id, c: Conn)      // close the peer object and the socket

  predicate Enabled(conns: set<Conn>, s: State, t: Step) {
    && t.c in conns && Joins(t.c, t.x)
    && match t
       case Setup(x, c) => (x, c) !in s.setup
       case HelloLost(x, c) => (x, c) !in s.setup && c in s.closed
       case Notice(x, c) => (x, c) in s.admitted && (x, c) !in s.condemned && (x, c) !in s.retired && c in s.closed
       case Leave(x, c) => (x, c) in s.admitted && (x, c) !in s.condemned && (x, c) !in s.retired && !IsEntry(s, x, c)
       case Retire(x, c) => (x, c) in s.condemned
  }

  predicate Rejects(s: State, x: Id, c: Conn) {
    var incumbent := Entry(s, x, Remote(x, c));
    Vetoed(x, incumbent, incumbent.Some? && (x, incumbent.value) in s.retired, c)
  }

  function Admitted(s: State, x: Id, c: Conn): State {
    var y := Remote(x, c);
    s.(entry := s.entry[(x, y) := c], setup := s.setup + {(x, c)}, admitted := s.admitted + {(x, c)},
       condemned := if (x, y) in s.entry then s.condemned + {(x, s.entry[(x, y)])} else s.condemned)
  }

  function Next(s: State, t: Step): State {
    var side := (t.x, t.c);
    match t
    case Setup(x, c) =>
      if Rejects(s, x, c) then s.(setup := s.setup + {side}, closed := s.closed + {c})
      else Admitted(s, x, c)
    case HelloLost(_, c) => s.(setup := s.setup + {side}, closed := s.closed + {c})
    case Notice(x, c) =>
      s.(entry := if IsEntry(s, x, c) then s.entry - {(x, Remote(x, c))} else s.entry, condemned := s.condemned + {side})
    case Leave(_, _) => s.(condemned := s.condemned + {side})
    case Retire(_, c) =>
      s.(condemned := s.condemned - {side}, retired := s.retired + {side}, closed := s.closed + {c})
  }

  // ---------------------------------------------------------------------
  // Invariants
  // ---------------------------------------------------------------------

  predicate WellFormed(conns: set<Conn>) { forall c :: c in conns ==> c.dialer != c.acceptor }

  /** m is the newest dial of the lower node of its pair if that node dialed at all, else the newest of the other. */
  predicate IsMax(conns: set<Conn>, m: Conn) {
    m in conns && forall c :: c in conns && SamePair(c, m) && c != m ==> Preferred(m, c)
  }

  predicate EntriesInv(s: State) {
    forall k :: k in s.entry ==>
      var c := s.entry[k];
      Joins(c, k.0) && Remote(k.0, c) == k.1 && (k.0, c) in s.admitted && (k.0, c) !in s.condemned && (k.0, c) !in s.retired
  }

  predicate SidesInv(conns: set<Conn>, s: State) {
    && (forall k :: k in s.setup ==> k.1 in conns && Joins(k.1, k.0))
    && s.condemned <= s.admitted <= s.setup && s.retired <= s.admitted
    && (forall k :: k in s.setup && k !in s.admitted ==> k.1 in s.closed)
    && (forall k :: k in s.retired ==> k.1 in s.closed)
    && (forall k :: k in s.admitted ==> IsEntry(s, k.0, k.1) || k in s.condemned || k in s.retired)
  }

  /** The best connection of a pair is open and no endpoint means to close it. */
  predicate Safe(s: State, m: Conn) {
    m !in s.closed && forall k :: k in s.condemned + s.retired ==> k.1 != m
  }

  ghost predicate Inv(conns: set<Conn>, s: State) {
    && WellFormed(conns) && EntriesInv(s) && SidesInv(conns, s)
    && forall m :: IsMax(conns, m) ==> Safe(s, m)
  }

  lemma MaxBeatsAtBoth(conns: set<Conn>, m: Conn, x: Id, c: Conn)
    requires WellFormed(conns) && IsMax(conns, m) && c in conns && c != m
    requires Joins(m, x) && Joins(c, x) && Remote(x, c) == Remote(x, m)
    ensures Beats(x, m, c) && !Beats(x, c, m)
  {
    assert SamePair(c, m);
    VerdictIsPreference(x, m, c);
    VerdictIsPreference(x, c, m);
  }

  lemma StepEntries(conns: set<Conn>, s: State, t: Step)
    requires EntriesInv(s) && SidesInv(conns, s) && Enabled(conns, s, t)
    ensures EntriesInv(Next(s, t))
  {
  }

  lemma StepSides(conns: set<Conn>, s: State, t: Step)
    requires EntriesInv(s) && SidesInv(conns, s) && Enabled(conns, s, t)
    ensures SidesInv(conns, Next(s, t))
  {
    var s' := Next(s, t);
    forall k | k in s'.admitted ensures IsEntry(s', k.0, k.1) || k in s'.condemned || k in s'.retired {
      if k in s.admitted { assert IsEntry(s, k.0, k.1) || k in s.condemned || k in s.retired; }
    }
  }

  lemma StepSafe(conns: set<Conn>, s: State, t: Step, m: Conn)
    requires Inv(conns, s) && Enabled(conns, s, t) && IsMax(conns, m)
    ensures Safe(Next(s, t), m)
  {
    var e := Entry(s, t.x, Remote(t.x, t.c));
    if t.Setup? && e.Some? {
      assert (t.x, Remote(t.x, t.c)) in s.entry;
      assert e.value in conns && (t.x, e.value) in s.setup;
      if t.c == m { MaxBeatsAtBoth(conns, m, t.x, e.value); }
      if e.value == m { MaxBeatsAtBoth(conns, m, t.x, t.c); }
    }
  }

  lemma StepInv(conns: set<Conn>, s: State, t: Step)
    requires Inv(conns, s) && Enabled(conns, s, t)
    ensures Inv(conns, Next(s, t))
  {
    StepEntries(conns, s, t);
    StepSides(conns, s, t);
    forall m | IsMax(conns, m) ensures Safe(Next(s, t), m) { StepSafe(conns, s, t, m); }
  }

  // ---------------------------------------------------------------------
  // Main results
  // ---------------------------------------------------------------------

  /** Every interleaving of the endpoints' steps. */
  ghost predicate Run(conns: set<Conn>, states: seq<State>, steps: seq<Step>) {
    && WellFormed(conns) && |states| == |steps| + 1 && states[0] == INITIAL
    && forall i :: 0 <= i < |steps| ==> Enabled(conns, states[i], steps[i]) && states[i + 1] == Next(states[i], steps[i])
  }

  lemma {:induction false} RunInv(conns: set<Conn>, states: seq<State>, steps: seq<Step>, i: nat)
    requires Run(conns, states, steps) && i <= |steps|
    ensures Inv(conns, states[i])
    decreases i
  {
    if i > 0 {
      RunInv(conns, states, steps, i - 1);
      StepInv(conns, states[i - 1], steps[i - 1]);
      assert states[i - 1 + 1] == Next(states[i - 1], steps[i - 1]);
    }
  }

  lemma SetupIsKept(s: State, t: Step)
    ensures s.setup <= Next(s, t).setup
  {
  }

  lemma {:induction false} SetupGrows(conns: set<Conn>, states: seq<State>, steps: seq<Step>, i: nat, j: nat)
    requires Run(conns, states, steps) && i <= j <= |steps|
    ensures states[i].setup <= states[j].setup
    decreases j - i
  {
    if i < j {
      SetupGrows(conns, states, steps, i, j - 1);
      SetupIsKept(states[j - 1], steps[j - 1]);
      assert states[j - 1 + 1] == Next(states[j - 1], steps[j - 1]);
    }
  }

  /** The maximum-ranked connection of a pair is never closed by either side, and from the moment an
      endpoint has set it up it is that endpoint's entry for good. */
  lemma {:induction false} MaxWinsForever(conns: set<Conn>, states: seq<State>, steps: seq<Step>, m: Conn, x: Id, i: nat, j: nat)
    requires Run(conns, states, steps) && i <= j <= |steps| && IsMax(conns, m) && Joins(m, x)
    ensures m !in states[j].closed && (x, m) !in states[j].retired
    ensures (x, m) in states[i].setup ==> Entry(states[j], x, Remote(x, m)) == Some(m)
  {
    RunInv(conns, states, steps, j);
    SetupGrows(conns, states, steps, i, j);
  }

  /** When nothing is left to do, both ends of every pair hold the same connection, the maximum, and
      every other connection is closed. */
  lemma {:induction false} QuietMeansConverged(conns: set<Conn>, states: seq<State>, steps: seq<Step>, m: Conn)
    requires Run(conns, states, steps) && IsMax(conns, m)
    requires forall t :: !Enabled(conns, states[|steps|], t)
    ensures var s := states[|steps|];
            && Entry(s, m.dialer, m.acceptor) == Some(m) && Entry(s, m.acceptor, m.dialer) == Some(m)
            && m !in s.closed && forall c :: c in conns && SamePair(c, m) && c != m ==> c in s.closed
  {
    var s := states[|steps|];
    RunInv(conns, states, steps, |steps|);
    forall c | c in conns ensures (c.dialer, c) in s.setup && (c.acceptor, c) in s.setup {
      assert !Enabled(conns, s, Setup(c.dialer, c)) && !Enabled(conns, s, Setup(c.acceptor, c));
    }
    MaxWinsForever(conns, states, steps, m, m.dialer, |steps|, |steps|);
    MaxWinsForever(conns, states, steps, m, m.acceptor, |steps|, |steps|);
    forall c | c in conns && SamePair(c, m) && c != m ensures c in s.closed {
      assert !Enabled(conns, s, Retire(c.dialer, c));
      assert Joins(m, c.dialer) && Remote(c.dialer, c) == Remote(c.dialer, m);
    }
  }

  // Termination -----------------------------------------------------------

  function Sides(conns: set<Conn>): set<(Id, Conn)> {
    (set c | c in conns :: (c.dialer, c)) + (set c | c in conns :: (c.acceptor, c))
  }

  function Live(s: State): set<(Id, Conn)> { s.admitted - s.condemned - s.retired }

  /** What is left to do: admissions, then condemnations, then closings. */
  function Pending(conns: set<Conn>, s: State): nat {
    3 * |Sides(conns) - s.setup| + 2 * |Live(s)| + |s.condemned|
  }

  lemma Removed<T>(a: set<T>, b: set<T>, x: T)
    requires x in a && b == a - {x}
    ensures |a| == |b| + 1
  {
    assert a == b + {x};
  }

  lemma SetupShape(conns: set<Conn>, s: State, t: Step)
    requires EntriesInv(s) && SidesInv(conns, s) && Enabled(conns, s, t) && (t.Setup? || t.HelloLost?)
    ensures var s', side, incumbent := Next(s, t), (t.x, t.c), Entry(s, t.x, Remote(t.x, t.c));
            && side in Sides(conns) - s.setup && Sides(conns) - s'.setup == Sides(conns) - s.setup - {side}
            && side !in Live(s)
            && if s'.admitted == s.admitted then Live(s') == Live(s) && s'.condemned == s.condemned
               else if incumbent.None? then Live(s') - {side} == Live(s) && side in Live(s') && s'.condemned == s.condemned
               else
                 var loser := (t.x, incumbent.value);
                 && loser in Live(s) && side in Live(s') && Live(s') - {side} == Live(s) - {loser}
                 && loser in s'.condemned && s'.condemned - {loser} == s.condemned
  {
    var y := Remote(t.x, t.c);
    if (t.x, y) in s.entry { assert (t.x, s.entry[(t.x, y)]) in Live(s); }
  }

  lemma SetupMakesProgress(conns: set<Conn>, s: State, t: Step)
    requires EntriesInv(s) && SidesInv(conns, s) && Enabled(conns, s, t) && (t.Setup? || t.HelloLost?)
    ensures Pending(conns, Next(s, t)) < Pending(conns, s)
  {
    SetupShape(conns, s, t);
    var s', side, incumbent := Next(s, t), (t.x, t.c), Entry(s, t.x, Remote(t.x, t.c));
    Removed(Sides(conns) - s.setup, Sides(conns) - s'.setup, side);
    if s'.admitted != s.admitted {
      Removed(Live(s'), Live(s') - {side}, side);
      if incumbent.Some? {
        var loser := (t.x, incumbent.value);
        Removed(Live(s), Live(s) - {loser}, loser);
        Removed(s'.condemned, s.condemned, loser);
      }
    }
  }

  lemma ExitShape(conns: set<Conn>, s: State, t: Step)
    requires SidesInv(conns, s) && s.condemned !! s.retired && Enabled(conns, s, t) && !t.Setup? && !t.HelloLost?
    ensures var s', side := Next(s, t), (t.x, t.c);
            && s'.setup == s.setup
            && if t.Retire? then Live(s') == Live(s) && side in s.condemned && s'.condemned == s.condemned - {side}
               else side in Live(s) && Live(s') == Live(s) - {side} && side in s'.condemned && s.condemned == s'.condemned - {side}
  {
  }

  lemma ExitMakesProgress(conns: set<Conn>, s: State, t: Step)
    requires SidesInv(conns, s) && s.condemned !! s.retired && Enabled(conns, s, t) && !t.Setup? && !t.HelloLost?
    ensures Pending(conns, Next(s, t)) < Pending(conns, s)
  {
    ExitShape(conns, s, t);
    var s', side := Next(s, t), (t.x, t.c);
    if t.Retire? {
      Removed(s.condemned, s'.condemned, side);
    } else {
      Removed(Live(s), Live(s'), side);
      Removed(s'.condemned, s.condemned, side);
    }
  }

  lemma {:induction false} StepMakesProgress(conns: set<Conn>, s: State, t: Step)
    requires EntriesInv(s) && SidesInv(conns, s) && s.condemned !! s.retired && Enabled(conns, s, t)
    ensures Pending(conns, Next(s, t)) < Pending(conns, s)
    ensures Next(s, t).condemned !! Next(s, t).retired
  {
    if t.Setup? || t.HelloLost? { SetupMakesProgress(conns, s, t); } else { ExitMakesProgress(conns, s, t); }
    if t.Setup? && Entry(s, t.x, Remote(t.x, t.c)).Some? { assert (t.x, Remote(t.x, t.c)) in s.entry; }
  }

  /** The protocol settles: three steps per side of a connection at most. */
  lemma {:induction false} RunsAreShort(conns: set<Conn>, states: seq<State>, steps: seq<Step>, i: nat)
    requires Run(conns, states, steps) && i <= |steps|
    ensures i + Pending(conns, states[i]) <= 3 * |Sides(conns)|
    ensures states[i].condemned !! states[i].retired
    decreases i
  {
    if i == 0 {
      assert Sides(conns) - {} == Sides(conns);
    } else {
      RunsAreShort(conns, states, steps, i - 1);
      RunInv(conns, states, steps, i - 1);
      StepMakesProgress(conns, states[i - 1], steps[i - 1]);
      assert states[i - 1 + 1] == Next(states[i - 1], steps[i - 1]);
    }
  }

  lemma {:induction false} MaxExists(conns: set<Conn>, c: Conn) returns (m: Conn)
    requires WellFormed(conns) && c in conns
    ensures IsMax(conns, m) && SamePair(m, c)
    decreases |conns|
  {
    if d :| d in conns && SamePair(d, c) && d != c {
      var rest := conns - {c};
      m := MaxExists(rest, d);
      PairEnds(m, c);
      if !Preferred(m, c) {
        forall e | e in conns && SamePair(e, c) && e != c ensures Preferred(c, e) {
          if e != m { assert Preferred(m, e); }
          PairEnds(e, c);
        }
        m := c;
      }
    } else {
      m := c;
    }
  }
}

/** The dialer's nonce source: a compare-and-swap loop on one shared word (tcpmesh/wire.go). */
module ConnNonce {

  const MAX_UINT64 := 0xFFFF_FFFF_FFFF_FFFF

  /** One attempt: the clock reading, bumped past the word that was loaded. */
  function Candidate(old_: nat, now: nat): nat { if now <= old_ then (old_ + 1) % (MAX_UINT64 + 1) else now }

  /** The bump exceeds the loaded word exactly when the word is not the largest one, and is then the smallest such
      word that is no earlier than the clock. */
  lemma {:induction false} CandidateIncreases(old_: nat, now: nat, v: nat)
    requires old_ <= MAX_UINT64 && now <= MAX_UINT64
    ensures Candidate(old_, now) > old_ <==> old_ < MAX_UINT64
    ensures old_ < MAX_UINT64 ==> Candidate(old_, now) >= now && (v > old_ && v >= now ==> Candidate(old_, now) <= v)
    ensures Candidate(old_, now) <= MAX_UINT64
  {
  }

  /** The shared word, each goroutine's attempt in progress, and the nonces returned so far. */
  datatype State = State(last: nat, attempts: map<nat, (nat, nat)>, issued: seq<nat>)

  datatype Step = Load(goroutine: nat, now: nat) | Swap(goroutine: nat)

  predicate Enabled(s: State, t: Step) {
    match t
    case Load(_, now) => now <= MAX_UINT64
    case Swap(g) => g in s.attempts
  }

  function Next(s: State, t: Step): State
    requires Enabled(s, t)
  {
    match t
    case Load(g, now) => s.(attempts := s.attempts[g := (s.last, Candidate(s.last, now))])
    case Swap(g) =>
      var (expected, next) := s.attempts[g];
      if s.last == expected then State(next, s.attempts - {g}, s.issued + [next]) else s.(attempts := s.attempts - {g})
  }

  predicate Increasing(ns: seq<nat>) { forall i, j :: 0 <= i < j < |ns| ==> ns[i] < ns[j] }

  /** The swap goes through. */
  predicate Succeeds(s: State, t: Step) { t.Swap? && t.goroutine in s.attempts && s.last == s.attempts[t.goroutine].0 }

  /** It issues a nonce while the word is at its largest value. */
  predicate Wraps(s: State, t: Step) { Succeeds(s, t) && s.last == MAX_UINT64 }

  /** The word is the last nonce issued, and every attempt rests on what it loaded. */
  predicate Inv(s: State) {
    && (forall g :: g in s.attempts ==> s.attempts[g].1 <= MAX_UINT64 && (s.attempts[g].0 < s.attempts[g].1 || s.attempts[g].0 == MAX_UINT64))
    && s.last == (if s.issued == [] then 0 else s.issued[|s.issued| - 1])
    && (forall i :: 0 <= i < |s.issued| ==> s.issued[i] <= MAX_UINT64)
  }

  ghost predicate Run(states: seq<State>, steps: seq<Step>) {
    && |states| == |steps| + 1 && states[0] == State(0, map[], [])
    && forall i :: 0 <= i < |steps| ==> Enabled(states[i], steps[i]) && states[i + 1] == Next(states[i], steps[i])
  }

  lemma {:induction false} StepInv(s: State, t: Step)
    requires Inv(s) && Enabled(s, t)
    ensures Inv(Next(s, t))
    ensures Increasing(Next(s, t).issued) <==> Increasing(s.issued) && !Wraps(s, t)
  {
    var u := Next(s, t);
    if t.Load? {
      CandidateIncreases(s.last, t.now, 0);
    } else if Succeeds(s, t) {
      var n, old_, new_ := |s.issued|, s.issued, u.issued;
      assert forall i :: 0 <= i < n ==> old_[i] == new_[i];
      if Increasing(new_) {
        assert Increasing(old_);
        if n > 0 { assert new_[n - 1] < new_[n]; }
      }
      if Increasing(old_) && s.last < MAX_UINT64 {
        forall i, j | 0 <= i < j < |new_| ensures new_[i] < new_[j] { if j == n && i < n - 1 { assert old_[i] < old_[n - 1]; } }
      }
    }
  }

  lemma {:induction false} RunInv(states: seq<State>, steps: seq<Step>, k: nat)
    requires Run(states, steps) && k <= |steps|
    ensures Inv(states[k])
    ensures Increasing(states[k].issued) <==> forall i :: 0 <= i < k ==> !Wraps(states[i], steps[i])
    decreases k
  {
    if k > 0 {
      RunInv(states, steps, k - 1);
      StepInv(states[k - 1], steps[k - 1]);
      assert states[k - 1 + 1] == Next(states[k - 1], steps[k - 1]);
    }
  }

  /** However the goroutines interleave, a later dial gets a larger nonce, so no two dials share one, if and
      only if no swap went through on a word at its largest value. */
  lemma {:induction false} NoncesIncreaseIff(states: seq<State>, steps: seq<Step>, k: nat)
    requires Run(states, steps) && k <= |steps|
    ensures Increasing(states[k].issued) <==> forall i :: 0 <= i < k ==> !Wraps(states[i], steps[i])
  {
    RunInv(states, steps, k);
  }

  /** A clock that reads the largest word once: the next dial gets nonce zero. */
  lemma {:induction false} NonceWraps(now: nat) returns (states: seq<State>, steps: seq<Step>)
    requires now <= MAX_UINT64
    ensures Run(states, steps) && states[|steps|].issued == [MAX_UINT64, 0]
  {
    steps := [Load(1, MAX_UINT64), Swap(1), Load(1, now), Swap(1)];
    var s0 := State(0, map[], []);
    var s1 := Next(s0, steps[0]);
    var s2 := Next(s1, steps[1]);
    var s3 := Next(s2, steps[2]);
    var s4 := Next(s3, steps[3]);
    states := [s0, s1, s2, s3, s4];
  }
}
