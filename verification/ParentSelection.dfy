/** The parent choice and the rank it yields: the stale-neighbour sweep, the two candidate passes, MRHOF hysteresis
    and the DAGMaxRankIncrease ceiling of SelectPreferredParent. */
module ParentSelection {
  import opened Lollipop
  import opened RplTypes
  import LinkEtx

  const FRESHNESS_TARGET := 4
  const MAX_PATH_COST := 32768
  const PARENT_SWITCH_THRESHOLD := 192

  /** A neighbour heard advertising the DODAG. */
  datatype Parent = Parent(rank: Rank, dtsn: Byte, lastHeard: Time, freshness: nat, etx: nat, pathEtx: nat)

  /** A router's state in one DODAG it does not root. `window` is two maximum DIO intervals; `temporary` marks a
      route discovery instance. */
  datatype Membership = Membership(
    version: Byte, rank: Rank, pathEtx: nat, mrhof: bool, minHop: nat, maxInc: nat, lowest: Rank,
    window: nat, temporary: bool, parents: map<Address, Parent>, preferred: Address, pathSequence: Byte)

  /** A No-Path DAO withdrawing this router's own address. */
  datatype Withdrawal = Withdrawal(via: Address, pathSequence: Byte)

  // ---------------------------------------------------------------- the specification

  function PathCost(p: Parent): nat {
    p.pathEtx + p.etx
  }

  function RankVia(m: Membership, p: Parent): Rank {
    if p.rank == INFINITE_RANK then INFINITE_RANK
    else
      var hop := p.rank + m.minHop;
      var rank := if m.mrhof && PathCost(p) > hop then PathCost(p) else hop;
      if rank >= INFINITE_RANK then INFINITE_RANK else rank
  }

  predicate Stale(m: Membership, now: Time, p: Parent) {
    !m.temporary && p.lastHeard + m.window < now
  }

  function Live(m: Membership, now: Time): map<Address, Parent> {
    map a | a in m.parents && !Stale(m, now, m.parents[a]) :: m.parents[a]
  }

  predicate Fresh(p: Parent) {
    p.freshness >= FRESHNESS_TARGET
  }

  ghost predicate HaveFresh(m: Membership) {
    exists a :: a in m.parents && Fresh(m.parents[a])
  }

  /** The rank a candidate has to stay below: this router's own, or one hop worse when its parent is not fresh but
      another neighbour is. */
  ghost function EntryBound(m: Membership): Rank {
    if HaveFresh(m) && (m.preferred !in m.parents || !Fresh(m.parents[m.preferred])) then
      (if m.rank + m.minHop >= INFINITE_RANK then INFINITE_RANK else m.rank + m.minHop)
    else m.rank
  }

  predicate Usable(m: Membership, bound: Rank, requireFresh: bool, p: Parent) {
    && (requireFresh ==> Fresh(p))
    && (bound != INFINITE_RANK ==> p.rank < bound)
    && (m.mrhof ==> p.etx <= LinkEtx.MAX_LINK_METRIC)
    && RankVia(m, p) != INFINITE_RANK
    && (m.mrhof ==> PathCost(p) < MAX_PATH_COST)
  }

  predicate Candidate(m: Membership, bound: Rank, requireFresh: bool, a: Address) {
    a in m.parents && Usable(m, bound, requireFresh, m.parents[a])
  }

  function Score(m: Membership, a: Address): nat
    requires a in m.parents
  {
    if m.mrhof then PathCost(m.parents[a]) else RankVia(m, m.parents[a])
  }

  predicate Ahead(m: Membership, a: Address, b: Address)
    requires a in m.parents && b in m.parents
  {
    Score(m, a) < Score(m, b) || (Score(m, a) == Score(m, b) && a < b)
  }

  ghost predicate Least(m: Membership, bound: Rank, requireFresh: bool, best: Address) {
    && Candidate(m, bound, requireFresh, best)
    && forall b :: Candidate(m, bound, requireFresh, b) && b != best ==> Ahead(m, best, b)
  }

  ghost predicate NoCandidate(m: Membership, bound: Rank, requireFresh: bool) {
    forall a :: !Candidate(m, bound, requireFresh, a)
  }

  /** Whether the decisive pass kept to fresh neighbours. */
  ghost predicate DecidedFresh(m: Membership) {
    HaveFresh(m) && !NoCandidate(m, EntryBound(m), true)
  }

  /** MRHOF keeps a current parent that passes the same filters and is within the switch threshold of the best. */
  ghost predicate Holds(m: Membership, best: Address)
    requires best in m.parents
  {
    && m.mrhof
    && Candidate(m, EntryBound(m), DecidedFresh(m), m.preferred)
    && PathCost(m.parents[m.preferred]) < PathCost(m.parents[best]) + PARENT_SWITCH_THRESHOLD
  }

  /** `choice` is the parent the specification asks for, ANY if there is none: the least candidate of the first
      non-empty pass, unless hysteresis keeps the current parent. */
  ghost predicate Chooses(m: Membership, choice: Address) {
    if NoCandidate(m, EntryBound(m), DecidedFresh(m)) then choice == ANY
    else exists best :: Least(m, EntryBound(m), DecidedFresh(m), best)
                        && choice == if Holds(m, best) then m.preferred else best
  }

  function Ceiling(m: Membership, rank: Rank): Rank {
    if rank > m.lowest + m.maxInc then INFINITE_RANK else rank
  }

  /** The membership after committing to `choice`. */
  function Adopt(m: Membership, choice: Address): Membership
    requires choice in m.parents
  {
    var rank := RankVia(m, m.parents[choice]);
    m.(preferred := choice,
       rank := Ceiling(m, rank),
       lowest := if rank <= m.lowest + m.maxInc && rank < m.lowest then rank else m.lowest,
       pathEtx := if m.mrhof then PathCost(m.parents[choice]) else m.pathEtx)
  }

  /** A call of SelectPreferredParent either leaves the DODAG, with `gone` its last state there, or stays in it,
      possibly changed. */
  datatype Verdict = Leaves(gone: Membership) | Stays(m: Membership, changed: bool)

  predicate Unchanged(m: Membership, choice: Address)
    requires choice == ANY || choice in m.parents
  {
    if choice == ANY then m.preferred == ANY && m.rank == INFINITE_RANK
    else
      && choice == m.preferred
      && Ceiling(m, RankVia(m, m.parents[choice])) == m.rank
      && (m.mrhof ==> PathCost(m.parents[choice]) == m.pathEtx)
  }

  /** The sweep: stale neighbours go, and a withdrawal goes to a stale preferred parent. */
  function Sweep(m: Membership, now: Time, hasAddress: bool): Membership {
    var bump := m.preferred in m.parents && Stale(m, now, m.parents[m.preferred]) && hasAddress && !m.temporary;
    m.(parents := Live(m, now), pathSequence := if bump then Increment(m.pathSequence) else m.pathSequence)
  }

  /** A switch away from a parent still held withdraws through it, and every switch then advances the Path Sequence
      for the re-advertisement through the new one. */
  function AfterSwitch(m: Membership, choice: Address, hasAddress: bool): Byte {
    if choice == m.preferred || m.temporary then m.pathSequence
    else if m.preferred != ANY && m.preferred in m.parents && hasAddress then Increment(Increment(m.pathSequence))
    else Increment(m.pathSequence)
  }

  /** Losing the last parent withdraws through the one still held. */
  function AfterLoss(m: Membership, hasAddress: bool): Membership {
    m.(pathSequence := if m.preferred != ANY && m.preferred in m.parents && hasAddress && !m.temporary
                       then Increment(m.pathSequence) else m.pathSequence)
  }

  function Outcome(s: Membership, choice: Address, hasAddress: bool): Verdict
    requires choice == ANY || choice in s.parents
  {
    if Unchanged(s, choice) then Stays(s, false)
    else if choice == ANY then Leaves(AfterLoss(s, hasAddress))
    else Stays(Adopt(s, choice).(pathSequence := AfterSwitch(s, choice, hasAddress)), true)
  }

  ghost predicate Selects(m: Membership, now: Time, hasAddress: bool, v: Verdict) {
    var s := Sweep(m, now, hasAddress);
    exists choice :: Chooses(s, choice) && (choice == ANY || choice in s.parents) && v == Outcome(s, choice, hasAddress)
  }

  // ---------------------------------------------------------------- facts about the specification

  /** The specification determines the choice. */
  lemma ChoiceIsUnique(m: Membership, a: Address, b: Address)
    requires Chooses(m, a) && Chooses(m, b)
    ensures a == b
  {
    if !NoCandidate(m, EntryBound(m), DecidedFresh(m)) {
      var x :| Least(m, EntryBound(m), DecidedFresh(m), x) && a == if Holds(m, x) then m.preferred else x;
      var y :| Least(m, EntryBound(m), DecidedFresh(m), y) && b == if Holds(m, y) then m.preferred else y;
    }
  }

  lemma VerdictIsUnique(m: Membership, now: Time, hasAddress: bool, v: Verdict, w: Verdict)
    requires Selects(m, now, hasAddress, v) && Selects(m, now, hasAddress, w)
    ensures v == w
  {
    var s := Sweep(m, now, hasAddress);
    forall a, b | Chooses(s, a) && Chooses(s, b) ensures a == b {
      ChoiceIsUnique(s, a, b);
    }
  }

  /** The parent chosen was below the entry bound; under OF0 no candidate of the decisive pass has a smaller rank,
      under MRHOF none is cheaper by the switch threshold or more. */
  lemma ChoiceIsOptimal(m: Membership, choice: Address, other: Address)
    requires Chooses(m, choice) && choice != ANY
    requires Candidate(m, EntryBound(m), DecidedFresh(m), other)
    ensures Candidate(m, EntryBound(m), DecidedFresh(m), choice)
    ensures EntryBound(m) != INFINITE_RANK ==> m.parents[choice].rank < EntryBound(m)
    ensures !m.mrhof ==> choice == other || Ahead(m, choice, other)
    ensures m.mrhof ==> PathCost(m.parents[choice]) < PathCost(m.parents[other]) + PARENT_SWITCH_THRESHOLD
  {
    var best :| Least(m, EntryBound(m), DecidedFresh(m), best)
                && choice == if Holds(m, best) then m.preferred else best;
    assert other == best || Ahead(m, best, other);
  }

  lemma ChoiceIsCandidate(m: Membership, choice: Address)
    requires Chooses(m, choice) && choice != ANY
    ensures Candidate(m, EntryBound(m), DecidedFresh(m), choice)
  {
    var best :| Least(m, EntryBound(m), DecidedFresh(m), best)
                && choice == if Holds(m, best) then m.preferred else best;
  }

  // ---------------------------------------------------------------- the search itself

  method AnyFresh(m: Membership) returns (found: bool)
    ensures found == HaveFresh(m)
  {
    found := false;
    var rest := m.parents.Keys;
    while rest != {} && !found
      invariant rest <= m.parents.Keys
      invariant found ==> HaveFresh(m)
      invariant !found ==> forall a :: a in m.parents && a !in rest ==> !Fresh(m.parents[a])
      decreases |rest|
    {
      var a :| a in rest;
      found := Fresh(m.parents[a]);
      rest := rest - {a};
    }
  }

  /** One pass over the neighbours, in any order: ties are broken on the address. */
  method Pass(m: Membership, bound: Rank, requireFresh: bool) returns (best: Address)
    requires ANY !in m.parents
    ensures best == ANY <==> NoCandidate(m, bound, requireFresh)
    ensures best != ANY ==> Least(m, bound, requireFresh, best)
  {
    best := ANY;
    var bestScore := 0;
    var rest := m.parents.Keys;
    while rest != {}
      invariant rest <= m.parents.Keys
      invariant best == ANY ==> forall a :: a in m.parents && a !in rest ==> !Candidate(m, bound, requireFresh, a)
      invariant best != ANY ==> Candidate(m, bound, requireFresh, best) && bestScore == Score(m, best)
      invariant best != ANY ==> forall b | b in m.parents && b !in rest && b != best ::
                                  Candidate(m, bound, requireFresh, b) ==> Ahead(m, best, b)
      decreases |rest|
    {
      var a :| a in rest;
      rest := rest - {a};
      if Usable(m, bound, requireFresh, m.parents[a]) {
        var score := if m.mrhof then PathCost(m.parents[a]) else RankVia(m, m.parents[a]);
        if best == ANY || score < bestScore || (score == bestScore && a < best) {
          best, bestScore := a, score;
        }
      }
    }
  }

  method Choose(m: Membership) returns (choice: Address)
    requires ANY !in m.parents
    ensures Chooses(m, choice)
    ensures choice == ANY || choice in m.parents
  {
    var haveFresh := AnyFresh(m);
    var bound := m.rank;
    if haveFresh && (m.preferred !in m.parents || !Fresh(m.parents[m.preferred])) {
      var childRank := m.rank + m.minHop;
      bound := if childRank >= INFINITE_RANK then INFINITE_RANK else childRank;
    }
    var requireFresh := haveFresh;
    choice := Pass(m, bound, requireFresh);
    if choice == ANY {
      requireFresh := false;
      choice := Pass(m, bound, requireFresh);
    }
    assert bound == EntryBound(m);
    assert choice != ANY ==> requireFresh == DecidedFresh(m);
    assert choice == ANY ==> NoCandidate(m, bound, DecidedFresh(m));
    if m.mrhof && choice != ANY && m.preferred in m.parents
       && Usable(m, bound, requireFresh, m.parents[m.preferred])
       && PathCost(m.parents[m.preferred]) < PathCost(m.parents[choice]) + PARENT_SWITCH_THRESHOLD
    {
      choice := m.preferred;
    }
  }

  // ---------------------------------------------------------------- the rank equation

  /** At the exit of every handler: no parent and INFINITE_RANK, or a parent held and the rank its entry gives, with
      INFINITE_RANK in its place only above the ceiling. */
  predicate RankEquation(m: Membership) {
    if m.preferred == ANY then m.rank == INFINITE_RANK
    else m.preferred in m.parents
         && RankVia(m, m.parents[m.preferred]) != INFINITE_RANK
         && m.rank == Ceiling(m, RankVia(m, m.parents[m.preferred]))
  }

  /** Whatever the state on entry, a router that stays in the DODAG leaves SelectPreferredParent with the rank
      equation restored, and L is the lesser of its former value and the finite rank just adopted, if any. */
  lemma SelectRestoresRankEquation(m: Membership, now: Time, hasAddress: bool, v: Verdict)
    requires ANY !in m.parents
    requires Selects(m, now, hasAddress, v) && v.Stays?
    ensures RankEquation(v.m)
    ensures v.m.rank != INFINITE_RANK ==> v.m.rank <= v.m.lowest + v.m.maxInc
    ensures v.m == m.(parents := Live(m, now), preferred := v.m.preferred, rank := v.m.rank, lowest := v.m.lowest,
                      pathEtx := v.m.pathEtx, pathSequence := v.m.pathSequence)
    ensures v.changed && v.m.rank != INFINITE_RANK ==> v.m.lowest == if v.m.rank < m.lowest then v.m.rank else m.lowest
    ensures !(v.changed && v.m.rank != INFINITE_RANK) ==> v.m.lowest == m.lowest
    ensures !v.changed ==> v.m.rank == m.rank
  {
    hide Chooses, Candidate, PathCost;
    var s := Sweep(m, now, hasAddress);
    var choice :| Chooses(s, choice) && (choice == ANY || choice in s.parents) && v == Outcome(s, choice, hasAddress);
    if choice != ANY {
      ChoiceIsCandidate(s, choice);
      CandidateHasRank(s, EntryBound(s), DecidedFresh(s), choice);
    }
  }

  lemma CandidateHasRank(m: Membership, bound: Rank, requireFresh: bool, a: Address)
    requires Candidate(m, bound, requireFresh, a)
    ensures a in m.parents && RankVia(m, m.parents[a]) != INFINITE_RANK
  {
  }
}
