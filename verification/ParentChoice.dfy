/** What a call of SelectPreferredParent comes to, said of the neighbours themselves: which of them will do, which is
    taken, what rank and Path Sequence follow and who is told. */
module ParentChoice {
  import opened Lollipop
  import opened RplTypes
  import opened ParentSelection
  import opened Router

  /** Heard within the window; route discoveries have none. */
  predicate StillHeard(m: Membership, now: Time, a: Address) {
    a in m.parents && (m.temporary || now <= m.parents[a].lastHeard + m.window)
  }

  predicate Established(m: Membership, now: Time, a: Address) {
    StillHeard(m, now, a) && m.parents[a].freshness >= 4
  }

  /** Another neighbour is established and the parent is not. */
  ghost predicate Loosened(m: Membership, now: Time) {
    (exists a :: Established(m, now, a)) && !Established(m, now, m.preferred)
  }

  /** A neighbour that will do for a parent: nearer the root than this router, or less than one hop further if its own
      parent is in doubt, with a finite rank to give, and under MRHOF not too bad a link or path. */
  ghost predicate Serves(m: Membership, now: Time, a: Address) {
    && StillHeard(m, now, a)
    && var p := m.parents[a];
       && p.rank + m.minHop < 0xFFFF
       && (m.rank == 0xFFFF || p.rank < m.rank + if Loosened(m, now) then m.minHop else 0)
       && (m.mrhof ==> p.etx <= 512 && p.pathEtx + p.etx < 32768)
  }

  ghost predicate ServesFirmly(m: Membership, now: Time, a: Address) {
    Serves(m, now, a) && m.parents[a].freshness >= 4
  }

  lemma LoosenedIs(m: Membership, now: Time, hasAddress: bool)
    ensures var s := Sweep(m, now, hasAddress);
            Loosened(m, now) <==> HaveFresh(s) && (s.preferred !in s.parents || !Fresh(s.parents[s.preferred]))
  {
    var s := Sweep(m, now, hasAddress);
    if a :| Established(m, now, a) {
      assert a in s.parents && Fresh(s.parents[a]);
    }
    if HaveFresh(s) {
      var a :| a in s.parents && Fresh(s.parents[a]);
      assert Established(m, now, a);
    }
  }

  lemma ServesIs(m: Membership, now: Time, hasAddress: bool, a: Address)
    ensures var s := Sweep(m, now, hasAddress);
            && (Candidate(s, EntryBound(s), false, a) <==> Serves(m, now, a))
            && (Candidate(s, EntryBound(s), true, a) <==> ServesFirmly(m, now, a))
  {
    hide HaveFresh, Loosened;
    LoosenedIs(m, now, hasAddress);
  }

  /** A router has a parent after the call if and only if some neighbour serves; it stays without one only if it had
      none, and otherwise leaves. */
  lemma HasParentExactly(m: Membership, now: Time, hasAddress: bool, v: Verdict)
    requires ANY !in m.parents && Selects(m, now, hasAddress, v)
    ensures v.Stays? && v.m.preferred != ANY <==> exists a :: Serves(m, now, a)
    ensures v.Leaves? <==> (forall a :: !Serves(m, now, a)) && !(m.preferred == ANY && m.rank == 0xFFFF)
  {
    hide Serves, Usable, EntryBound;
    var s := Sweep(m, now, hasAddress);
    var choice :| Chooses(s, choice) && (choice == ANY || choice in s.parents) && v == Outcome(s, choice, hasAddress);
    forall a ensures Candidate(s, EntryBound(s), false, a) <==> Serves(m, now, a) {
      ServesIs(m, now, hasAddress, a);
    }
    forall a ensures Candidate(s, EntryBound(s), true, a) ==> Serves(m, now, a) {
      ServesIs(m, now, hasAddress, a);
    }
    if choice != ANY {
      ChoiceIsCandidate(s, choice);
      assert Serves(m, now, choice);
    }
  }

  function Cost(p: Parent): nat {
    p.pathEtx + p.etx
  }

  /** In contention: an established neighbour that serves, or any that serves if none of those does. */
  ghost predicate Contends(m: Membership, now: Time, a: Address) {
    Serves(m, now, a) && (ServesFirmly(m, now, a) || forall b :: !ServesFirmly(m, now, b))
  }

  lemma ContendsIs(m: Membership, now: Time, hasAddress: bool, a: Address)
    ensures var s := Sweep(m, now, hasAddress);
            Candidate(s, EntryBound(s), DecidedFresh(s), a) <==> Contends(m, now, a)
  {
    hide Serves, Usable, EntryBound;
    var s := Sweep(m, now, hasAddress);
    forall b
      ensures Candidate(s, EntryBound(s), false, b) <==> Serves(m, now, b)
      ensures Candidate(s, EntryBound(s), true, b) <==> ServesFirmly(m, now, b)
    {
      ServesIs(m, now, hasAddress, b);
    }
    if !NoCandidate(s, EntryBound(s), true) {
      var b :| Candidate(s, EntryBound(s), true, b);
      assert ServesFirmly(m, now, b);
    }
  }

  /** Under OF0 the parent is the neighbour in contention that is nearest the root, the lowest address among equals. */
  lemma NearestIsChosen(m: Membership, now: Time, hasAddress: bool, v: Verdict, a: Address)
    requires ANY !in m.parents && !m.mrhof && Selects(m, now, hasAddress, v) && Contends(m, now, a)
    ensures v.Stays? && Contends(m, now, v.m.preferred)
    ensures var p := m.parents[v.m.preferred];
            p.rank < m.parents[a].rank || (p.rank == m.parents[a].rank && v.m.preferred <= a)
  {
    var s := Sweep(m, now, hasAddress);
    var choice :| Chooses(s, choice) && (choice == ANY || choice in s.parents) && v == Outcome(s, choice, hasAddress);
    hide Contends, EntryBound, DecidedFresh;
    ContendsIs(m, now, hasAddress, a);
    assert choice != ANY;
    ChoiceIsCandidate(s, choice);
    ContendsIs(m, now, hasAddress, choice);
    ChoiceIsOptimal(s, choice, a);
    assert v.Stays? && v.m.preferred == choice;
  }

  /** Under MRHOF the parent held stays if it is in contention and no other there is cheaper by 192 or more; otherwise
      the cheapest is taken, the lowest address among equals. */
  lemma CheapestIsChosen(m: Membership, now: Time, hasAddress: bool, v: Verdict, a: Address)
    requires ANY !in m.parents && m.mrhof && Selects(m, now, hasAddress, v) && Contends(m, now, a)
    ensures v.Stays? && Contends(m, now, v.m.preferred)
    ensures Cost(m.parents[v.m.preferred]) < Cost(m.parents[a]) + 192
    ensures v.m.preferred != m.preferred ==>
              Cost(m.parents[v.m.preferred]) < Cost(m.parents[a])
              || (Cost(m.parents[v.m.preferred]) == Cost(m.parents[a]) && v.m.preferred <= a)
    ensures Contends(m, now, m.preferred)
            && (forall b :: Contends(m, now, b) ==> Cost(m.parents[m.preferred]) < Cost(m.parents[b]) + 192)
            ==> v.m.preferred == m.preferred
  {
    var s := Sweep(m, now, hasAddress);
    var choice :| Chooses(s, choice) && (choice == ANY || choice in s.parents) && v == Outcome(s, choice, hasAddress);
    hide Contends, EntryBound, DecidedFresh;
    forall b ensures Candidate(s, EntryBound(s), DecidedFresh(s), b) <==> Contends(m, now, b) {
      ContendsIs(m, now, hasAddress, b);
    }
    assert choice != ANY;
    ChoiceIsCandidate(s, choice);
    ChoiceIsOptimal(s, choice, a);
    assert v.Stays? && v.m.preferred == choice;
    var best :| Least(s, EntryBound(s), DecidedFresh(s), best)
                && choice == if Holds(s, best) then s.preferred else best;
    assert a == best || Ahead(s, best, a);
  }

  /** The rank that follows, from the parent's own entry: a hop further, or under MRHOF the path cost if that is more,
      and INFINITE_RANK in its place exactly above L + DAGMaxRankIncrease. */
  lemma RankFollowsParent(m: Membership, now: Time, hasAddress: bool, v: Verdict)
    requires ANY !in m.parents
    requires Selects(m, now, hasAddress, v) && v.Stays? && v.m.preferred != ANY
    ensures v.m.preferred in m.parents && v.m.preferred in v.m.parents
    ensures var p := v.m.parents[v.m.preferred];
            var hop := p.rank + m.minHop;
            var r := if m.mrhof && p.pathEtx + p.etx > hop then p.pathEtx + p.etx else hop;
            && p == m.parents[v.m.preferred] && r < 0xFFFF
            && v.m.rank == (if r <= m.lowest + m.maxInc then r else 0xFFFF)
            && v.m.lowest == (if r <= m.lowest + m.maxInc && r < m.lowest && v.changed then r else m.lowest)
            && (m.mrhof ==> v.m.pathEtx == p.pathEtx + p.etx)
  {
    hide Chooses;
    SelectRestoresRankEquation(m, now, hasAddress, v);
    var s := Sweep(m, now, hasAddress);
    var choice :| Chooses(s, choice) && (choice == ANY || choice in s.parents) && v == Outcome(s, choice, hasAddress);
  }

  /** The withdrawals of a call, by its outcome. */
  function Told(m: Membership, now: Time, hasAddress: bool, v: Verdict): seq<Withdrawal> {
    Withdraws(m, now, if v.Stays? then v.m.preferred else ANY, hasAddress)
  }

  /** A parent still known is told exactly when it went unheard, was lost or gave way to another; each withdrawal takes
      the next Path Sequence, and a new parent the one after, so that its report outranks the withdrawal. */
  lemma SwitchIsTold(m: Membership, now: Time, hasAddress: bool, v: Verdict)
    requires ANY !in m.parents && Selects(m, now, hasAddress, v)
    ensures var out := Told(m, now, hasAddress, v);
            var after := if v.Stays? then v.m.pathSequence else v.gone.pathSequence;
            var switched := v.Stays? && v.m.preferred != m.preferred && !m.temporary;
            && out == (if hasAddress && !m.temporary && m.preferred in m.parents
                          && (now > m.parents[m.preferred].lastHeard + m.window
                              || v.Leaves? || v.m.preferred != m.preferred)
                       then [Withdrawal(m.preferred, Wire(m.pathSequence, 1))] else [])
            && after == Wire(m.pathSequence, |out| + if switched then 1 else 0)
            && (switched && out != [] ==>
                  Newer(after, out[0].pathSequence) && Newer(out[0].pathSequence, m.pathSequence))
  {
    hide Chooses, RankVia, Ceiling;
    assert Wire(m.pathSequence, 1) == Increment(Wire(m.pathSequence, 0));
    assert Wire(m.pathSequence, 2) == Increment(Wire(m.pathSequence, 1));
    WindowIsExact(m.pathSequence, 1, 0);
    WindowIsExact(m.pathSequence, 2, 1);
    var s := Sweep(m, now, hasAddress);
    var choice :| Chooses(s, choice) && (choice == ANY || choice in s.parents) && v == Outcome(s, choice, hasAddress);
  }

}
