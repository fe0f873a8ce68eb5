/** When a second call of SelectPreferredParent at the same instant changes nothing. */
module ParentStability {
  import opened Lollipop
  import opened RplTypes
  import opened ParentSelection
  import LinkEtx

  /** A fresh neighbour the relaxed bound lets back in, once a not yet fresh one has been made parent. */
  ghost predicate Reconsiders(m: Membership) {
    && m.preferred in m.parents && !Fresh(m.parents[m.preferred])
    && exists a :: Candidate(m, EntryBound(m), true, a)
  }

  ghost predicate Settled(m: Membership) {
    m.preferred == ANY || ((m.minHop > 0 || m.rank == INFINITE_RANK) && !Reconsiders(m))
  }

  lemma SweepIsIdempotent(m: Membership, now: Time, hasAddress: bool, v: Verdict)
    requires ANY !in m.parents
    requires Selects(m, now, hasAddress, v) && v.Stays?
    ensures Sweep(v.m, now, hasAddress) == v.m
    ensures v.m.parents == Live(m, now)
  {
    SelectRestoresRankEquation(m, now, hasAddress, v);
    assert v.m.parents == Live(m, now);
    assert Live(v.m, now) == v.m.parents;
  }

  /** Committing to a choice keeps every neighbour's score. */
  lemma {:induction false} SameScores(s: Membership, p: Membership)
    requires p.parents == s.parents && p.mrhof == s.mrhof && p.minHop == s.minHop
    ensures forall a :: a in s.parents ==> Score(p, a) == Score(s, a)
    ensures forall b, f, a :: Candidate(p, b, f, a) == Candidate(s, b, f, a)
  {
  }

  /** The parent just chosen stays the least among those the new rank admits, if it is itself admitted. */
  lemma ChosenStaysLeast(s: Membership, p: Membership, bound: Rank, requireFresh: bool)
    requires !s.mrhof
    requires p.parents == s.parents && p.mrhof == s.mrhof && p.minHop == s.minHop
    requires Least(s, EntryBound(s), DecidedFresh(s), p.preferred)
    requires Candidate(p, bound, requireFresh, p.preferred)
    requires requireFresh || !DecidedFresh(s)
    ensures Least(p, bound, requireFresh, p.preferred)
  {
    SameScores(s, p);
    var c := p.preferred;
    forall b | Candidate(p, bound, requireFresh, b) && b != c
      ensures Ahead(p, c, b)
    {
      var limit := EntryBound(s);
      assert limit != INFINITE_RANK ==> s.parents[c].rank < limit;
      if limit == INFINITE_RANK || s.parents[b].rank < limit {
        assert Candidate(s, limit, DecidedFresh(s), b);
        assert Ahead(s, c, b);
      } else {
        assert s.parents[c].rank < s.parents[b].rank;
      }
    }
  }

  /** A second call at the same instant returns false if and only if the router is settled: it has no parent, or a
      hop costs something (or its rank is already held at infinity) and no fresh neighbour is within the relaxed
      bound of a parent that is not itself fresh. */
  lemma SecondCallIsQuiet(m: Membership, now: Time, hasAddress: bool, v: Verdict, w: Verdict)
    requires !m.mrhof && ANY !in m.parents
    requires Selects(m, now, hasAddress, v) && v.Stays?
    requires Selects(v.m, now, hasAddress, w)
    ensures w == Stays(v.m, false) <==> Settled(v.m)
  {
    var s, p := Sweep(m, now, hasAddress), v.m;
    SweepIsIdempotent(m, now, hasAddress, v);
    SelectRestoresRankEquation(m, now, hasAddress, v);
    var choice :| Chooses(s, choice) && (choice == ANY || choice in s.parents) && v == Outcome(s, choice, hasAddress);
    var again :| Chooses(p, again) && (again == ANY || again in p.parents) && w == Outcome(p, again, hasAddress);
    assert p.preferred == choice;
    if choice == ANY {
      assert p == s;
      ChoiceIsUnique(s, choice, again);
    } else {
      assert w == Stays(p, false) <==> again == choice by { SwitchIsSeen(p, again, hasAddress); }
      AgainIsChoice(s, p, again);
    }
  }

  lemma SwitchIsSeen(p: Membership, again: Address, hasAddress: bool)
    requires RankEquation(p) && p.preferred != ANY
    requires p.mrhof ==> PathCost(p.parents[p.preferred]) == p.pathEtx
    requires again == ANY || again in p.parents
    ensures Unchanged(p, again) <==> again == p.preferred
  {
  }

  lemma AgainIsChoice(s: Membership, p: Membership, again: Address)
    requires !s.mrhof && p.preferred != ANY && p.parents == s.parents && p.mrhof == s.mrhof && p.minHop == s.minHop
    requires ANY !in s.parents
    requires RankEquation(p) && Chooses(s, p.preferred) && Chooses(p, again)
    ensures again == p.preferred <==> Settled(p)
  {
    var c, bound := p.preferred, EntryBound(p);
    SameScores(s, p);
    assert Least(s, EntryBound(s), DecidedFresh(s), c);
    if Reconsiders(p) {
      assert DecidedFresh(p);
      if again == c {
        ChoiceIsCandidate(p, again);
      }
    } else if p.minHop > 0 || p.rank == INFINITE_RANK {
      assert bound != INFINITE_RANK ==> p.parents[c].rank < bound;
      assert Candidate(p, bound, DecidedFresh(p), c);
      assert DecidedFresh(p) || !DecidedFresh(s) by {
        if DecidedFresh(s) {
          assert Candidate(p, bound, true, c);
        }
      }
      ChosenStaysLeast(s, p, bound, DecidedFresh(p));
      assert Chooses(p, c);
      ChoiceIsUnique(p, again, c);
    } else {
      assert !Candidate(p, bound, false, c) && !Candidate(p, bound, true, c);
      if again == c {
        ChoiceIsCandidate(p, again);
      }
    }
  }

  /** With all neighbours on the same side of the freshness threshold and a hop that costs something, a second call
      is always quiet. */
  lemma UniformFreshnessIsQuiet(m: Membership, now: Time, hasAddress: bool, v: Verdict, w: Verdict)
    requires !m.mrhof && ANY !in m.parents && m.minHop > 0
    requires forall a, b :: a in m.parents && b in m.parents ==> Fresh(m.parents[a]) == Fresh(m.parents[b])
    requires Selects(m, now, hasAddress, v) && v.Stays?
    requires Selects(v.m, now, hasAddress, w)
    ensures w == Stays(v.m, false)
  {
    SweepIsIdempotent(m, now, hasAddress, v);
    SelectRestoresRankEquation(m, now, hasAddress, v);
    assert !Reconsiders(v.m);
    SecondCallIsQuiet(m, now, hasAddress, v, w);
  }

  /** A DIO may announce MinHopRankIncrease 0, and nothing refuses it: the parent chosen then no longer has a lower
      rank than this router, and the very next call leaves the DODAG. */
  lemma ZeroHopIncreaseLeaves()
    ensures var m := Membership(0, INFINITE_RANK, 0, false, 0, 1024, INFINITE_RANK, 100, false,
                                map[1 := Parent(128, 0, 10, 1, 128, 0)], ANY, 0);
            exists m' :: Selects(m, 10, true, Stays(m', true)) && m'.preferred == 1 && m'.rank == 128
                         && Selects(m', 10, true, Leaves(m'.(pathSequence := 2)))
  {
    var m := Membership(0, INFINITE_RANK, 0, false, 0, 1024, INFINITE_RANK, 100, false,
                        map[1 := Parent(128, 0, 10, 1, 128, 0)], ANY, 0);
    assert Live(m, 10) == m.parents;
    assert Sweep(m, 10, true) == m;
    assert Candidate(m, EntryBound(m), false, 1);
    assert Least(m, EntryBound(m), DecidedFresh(m), 1);
    assert Chooses(m, 1);
    var m' := Adopt(m, 1).(pathSequence := 1);
    assert Selects(m, 10, true, Stays(m', true));
    assert Live(m', 10) == m'.parents;
    assert Sweep(m', 10, true) == m';
    assert EntryBound(m') == 128;
    assert NoCandidate(m', EntryBound(m'), DecidedFresh(m'));
    assert Chooses(m', ANY);
    assert !Unchanged(m', ANY);
  }

  /** A parent lost, a neighbour not yet fresh in its place: the rank it brings lets a fresh neighbour back in, and the
      second call switches to that. */
  lemma FreshNeighbourReturns()
    ensures var m := Membership(0, 256, 0, false, 128, 1024, 256, 100, false,
                                map[9 := Parent(128, 0, 0, 4, 128, 0), 1 := Parent(300, 0, 200, 1, 128, 0),
                                    2 := Parent(400, 0, 200, 4, 128, 0)], 9, 0);
            exists m', m'' :: Selects(m, 200, true, Stays(m', true)) && m'.preferred == 1 && Reconsiders(m')
                              && Selects(m', 200, true, Stays(m'', true)) && m''.preferred == 2
  {
    var one, two := Parent(300, 0, 200, 1, 128, 0), Parent(400, 0, 200, 4, 128, 0);
    var m := Membership(0, 256, 0, false, 128, 1024, 256, 100, false,
                        map[9 := Parent(128, 0, 0, 4, 128, 0), 1 := one, 2 := two], 9, 0);
    assert Live(m, 200) == map[1 := one, 2 := two];
    var s := Sweep(m, 200, true);
    assert Fresh(s.parents[2]) && EntryBound(s) == 384;
    assert NoCandidate(s, 384, true) && Candidate(s, 384, false, 1);
    assert Least(s, 384, DecidedFresh(s), 1) && Chooses(s, 1);
    var m' := Outcome(s, 1, true).m;
    assert Selects(m, 200, true, Stays(m', true));
    assert Live(m', 200) == m'.parents && Sweep(m', 200, true) == m';
    assert Fresh(m'.parents[2]) && EntryBound(m') == 556;
    assert Candidate(m', 556, true, 2);
    assert Least(m', 556, DecidedFresh(m'), 2) && Chooses(m', 2);
    assert Selects(m', 200, true, Stays(Outcome(m', 2, true).m, true));
  }

  // ---------------------------------------------------------------- under MRHOF

  /** A neighbour the new rank admits, cheaper than the parent by the switch threshold. */
  ghost predicate Undercut(m: Membership)
    requires m.preferred in m.parents
  {
    exists a :: Candidate(m, EntryBound(m), DecidedFresh(m), a)
                && PathCost(m.parents[m.preferred]) >= PathCost(m.parents[a]) + PARENT_SWITCH_THRESHOLD
  }

  ghost predicate SettledOnCost(m: Membership) {
    m.preferred == ANY
    || (&& m.preferred in m.parents && (m.rank == INFINITE_RANK || m.parents[m.preferred].rank < m.rank)
        && !Reconsiders(m) && !Undercut(m))
  }

  /** Under MRHOF a second call returns false if and only if the router has no parent, or its parent is below it, no
      fresh neighbour is within the relaxed bound of a parent that is not, and none admitted undercuts it. */
  lemma SecondCallUnderMrhof(m: Membership, now: Time, hasAddress: bool, v: Verdict, w: Verdict)
    requires m.mrhof && ANY !in m.parents
    requires Selects(m, now, hasAddress, v) && v.Stays?
    requires Selects(v.m, now, hasAddress, w)
    ensures w == Stays(v.m, false) <==> SettledOnCost(v.m)
  {
    hide Reconsiders, Undercut, DecidedFresh, EntryBound, Chooses, RankEquation, RankVia;
    var s, p := Sweep(m, now, hasAddress), v.m;
    SweepIsIdempotent(m, now, hasAddress, v);
    SelectRestoresRankEquation(m, now, hasAddress, v);
    var choice :| Chooses(s, choice) && (choice == ANY || choice in s.parents) && v == Outcome(s, choice, hasAddress);
    var again :| Chooses(p, again) && (again == ANY || again in p.parents) && w == Outcome(p, again, hasAddress);
    assert p.preferred == choice;
    if choice == ANY {
      assert p == s;
      ChoiceIsUnique(s, choice, again);
    } else {
      ChoiceIsCandidate(s, choice);
      assert p.preferred in p.parents && PathCost(p.parents[choice]) == p.pathEtx;
      SwitchIsSeen(p, again, hasAddress);
      AgainIsParent(p, again);
    }
  }

  lemma AgainIsParent(p: Membership, again: Address)
    requires p.mrhof && p.preferred != ANY && ANY !in p.parents && RankEquation(p) && Chooses(p, again)
    requires p.parents[p.preferred].etx <= LinkEtx.MAX_LINK_METRIC && PathCost(p.parents[p.preferred]) < MAX_PATH_COST
    ensures again == p.preferred <==> SettledOnCost(p)
  {
    var c := p.preferred;
    assert Candidate(p, EntryBound(p), DecidedFresh(p), c)
           <==> (p.rank == INFINITE_RANK || p.parents[c].rank < p.rank) && !Reconsiders(p);
    if again == c {
      ChoiceIsCandidate(p, c);
      forall a | Candidate(p, EntryBound(p), DecidedFresh(p), a)
        ensures PathCost(p.parents[c]) < PathCost(p.parents[a]) + PARENT_SWITCH_THRESHOLD
      {
        ChoiceIsOptimal(p, c, a);
      }
    }
  }

  /** The parent chosen can bring so high a rank that it lets in a neighbour further down that undercuts it. */
  lemma CheaperNeighbourReturns()
    ensures var m := Membership(0, 300, 300, true, 128, 1024, 300, 100, false,
                                map[9 := Parent(128, 0, 0, 4, 128, 0), 1 := Parent(200, 0, 200, 4, 200, 800),
                                    2 := Parent(500, 0, 200, 4, 200, 400)], 9, 0);
            exists m', m'' :: Selects(m, 200, true, Stays(m', true)) && m'.preferred == 1
                              && Selects(m', 200, true, Stays(m'', true)) && m''.preferred == 2
  {
    var one, two := Parent(200, 0, 200, 4, 200, 800), Parent(500, 0, 200, 4, 200, 400);
    var m := Membership(0, 300, 300, true, 128, 1024, 300, 100, false,
                        map[9 := Parent(128, 0, 0, 4, 128, 0), 1 := one, 2 := two], 9, 0);
    assert Live(m, 200) == map[1 := one, 2 := two];
    var s := Sweep(m, 200, true);
    assert Fresh(s.parents[2]) && EntryBound(s) == 428;
    assert Candidate(s, 428, true, 1) && DecidedFresh(s);
    assert Least(s, 428, DecidedFresh(s), 1) && Chooses(s, 1);
    var m' := Outcome(s, 1, true).m;
    assert Selects(m, 200, true, Stays(m', true));
    assert Live(m', 200) == m'.parents && Sweep(m', 200, true) == m';
    assert Fresh(m'.parents[1]) && EntryBound(m') == 1000;
    assert Candidate(m', 1000, true, 2) && DecidedFresh(m');
    assert Least(m', 1000, DecidedFresh(m'), 2) && !Holds(m', 2) && Chooses(m', 2);
    assert Selects(m', 200, true, Stays(Outcome(m', 2, true).m, true));
  }
}
