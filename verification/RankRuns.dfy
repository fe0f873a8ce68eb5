/** Whole runs of a router in one DODAG: DIOs, Trickle expirations and interfaces going down in any order, across
    Versions, leaving and rejoining. Every exit keeps the rank equation, and L + DAGMaxRankIncrease is never exceeded
    within the life of a DODAG Version for as long as the router remembers it. */
module RankRuns {
  import opened Lollipop
  import opened RplTypes
  import opened ParentSelection
  import opened Router
  import LinkEtx

  datatype Event =
    | HearDio(dio: Dio, from: Address, sample: nat, at: Time, hasAddress: bool)
    | Fire(at: Time, hasAddress: bool)
    | Down(over: set<Address>, at: Time, hasAddress: bool)

  /** `ledger` holds every finite rank the router has been ready to advertise in a DODAG Version since it last came
      to that Version with no memory of it. */
  datatype World = World(s: State, now: Time, ledger: map<Byte, seq<Rank>>)

  ghost predicate Handles(s: State, e: Event, s': State) {
    match e
    case HearDio(d, from, sample, at, hasAddress) => HandlesDio(s, d, from, sample, at, hasAddress, s')
    case Fire(at, hasAddress) => HandlesFire(s, at, hasAddress, s')
    case Down(over, at, hasAddress) => HandlesDown(s, over, at, hasAddress, s')
  }

  /** An event that brings no finite rank. */
  predicate BringsNoRank(e: Event) {
    e.HearDio? ==> e.dio.rank == INFINITE_RANK
  }

  /** What such an event leaves of a membership to reselect from. */
  function Left(m: Membership, e: Event): Membership
    requires BringsNoRank(e)
  {
    match e
    case HearDio(_, from, _, _, hasAddress) => Poisoned(m, from, hasAddress)
    case Fire(_, _) => m
    case Down(over, _, _) => Disconnected(m, over)
  }

  /** The records in force when event `e` lets the router join, or None if it does not. */
  function JoinsWith(s: State, e: Event): Option<seq<RetainedRank>> {
    if BringsNoRank(e) || Admit(s, e.dio, e.at).None? then None
    else if s.dodag.None? then Some(s.retained)
    else if e.dio.version == s.dodag.value.version || s.dodag.value.temporary then None
    else Some(Leave(s, e.at).retained)
  }

  function Opened(w: World, e: Event): map<Byte, seq<Rank>> {
    var records := JoinsWith(w.s, e);
    if records.Some? && !HoldsRecord(records.value, e.dio.version, e.at) then w.ledger[e.dio.version := []]
    else w.ledger
  }

  function Entered(ledger: map<Byte, seq<Rank>>, s: State): map<Byte, seq<Rank>> {
    if s.dodag.None? || s.dodag.value.rank == INFINITE_RANK || s.dodag.value.version !in ledger then ledger
    else ledger[s.dodag.value.version := ledger[s.dodag.value.version] + [s.dodag.value.rank]]
  }

  ghost predicate Step(w: World, e: Event, w': World) {
    && e.at >= w.now && w'.now == e.at
    && (e.HearDio? ==> e.from != ANY)
    && Handles(w.s, e, w'.s)
    && w'.ledger == Entered(Opened(w, e), w'.s)
  }

  function LeastOf(ranks: seq<Rank>): Rank {
    if ranks == [] then INFINITE_RANK
    else
      var rest := LeastOf(ranks[..|ranks| - 1]);
      var last := ranks[|ranks| - 1];
      if last < rest then last else rest
  }

  /** Every rank was at most the least seen up to it, itself included, plus DAGMaxRankIncrease. */
  ghost predicate UnderCeiling(ranks: seq<Rank>, maxInc: nat) {
    forall i :: 0 <= i < |ranks| ==> ranks[i] <= LeastOf(ranks[..i + 1]) + maxInc
  }

  ghost predicate Sound(w: World, maxInc: nat) {
    && (w.s.dodag.Some? ==> MemberSound(w.s.dodag.value, w.ledger, maxInc))
    && (forall r :: r in w.s.retained && r.expires > w.now && !(w.s.dodag.Some? && w.s.dodag.value.version == r.version)
                    ==> r.version in w.ledger && r.lowest == LeastOf(w.ledger[r.version]))
    && (forall v :: v in w.ledger ==> UnderCeiling(w.ledger[v], maxInc))
  }

  ghost predicate MemberSound(m: Membership, ledger: map<Byte, seq<Rank>>, maxInc: nat) {
    && ANY !in m.parents && !m.temporary && m.maxInc == maxInc
    && m.version in ledger && m.lowest == LeastOf(ledger[m.version])
    && RankEquation(m)
    && (m.rank != INFINITE_RANK ==> m.lowest <= m.rank <= m.lowest + m.maxInc)
  }

  lemma EnterKeepsCeiling(ranks: seq<Rank>, rank: Rank, maxInc: nat)
    requires UnderCeiling(ranks, maxInc)
    requires rank <= LeastOf(ranks + [rank]) + maxInc
    ensures UnderCeiling(ranks + [rank], maxInc)
  {
    forall i | 0 <= i < |ranks + [rank]|
      ensures (ranks + [rank])[i] <= LeastOf((ranks + [rank])[..i + 1]) + maxInc
    {
      if i < |ranks| {
        assert (ranks + [rank])[..i + 1] == ranks[..i + 1];
      } else {
        assert (ranks + [rank])[..i + 1] == ranks + [rank];
      }
    }
  }

  lemma LeastAfter(ranks: seq<Rank>, rank: Rank)
    ensures LeastOf(ranks + [rank]) == if rank < LeastOf(ranks) then rank else LeastOf(ranks)
  {
    assert (ranks + [rank])[..|ranks|] == ranks;
  }

  /** The state a reselection starts from: sound except that the rank equation may be waiting to be restored. */
  ghost predicate Pending(s: State, m: Membership, now: Time, ledger: map<Byte, seq<Rank>>, maxInc: nat) {
    && ANY !in m.parents && !m.temporary && m.maxInc == maxInc
    && m.version in ledger && m.lowest == LeastOf(ledger[m.version])
    && (m.rank != INFINITE_RANK ==> m.lowest <= m.rank <= m.lowest + m.maxInc)
    && (forall r :: r in s.retained && r.expires > now && r.version != m.version
                    ==> r.version in ledger && r.lowest == LeastOf(ledger[r.version]))
    && (forall v :: v in ledger ==> UnderCeiling(ledger[v], maxInc))
  }

  lemma LeaveKeepsRecords(s: State, m: Membership, now: Time, ledger: map<Byte, seq<Rank>>, maxInc: nat)
    requires Pending(s, m, now, ledger, maxInc)
    ensures var left := Leave(s.(dodag := Some(m)), now);
            && left.dodag.None?
            && forall r :: r in left.retained && r.expires > now
                           ==> r.version in ledger && r.lowest == LeastOf(ledger[r.version])
  {
    var left := Leave(s.(dodag := Some(m)), now);
    SurvivingAre(s.retained, m.version, now);
    var kept := Surviving(s.retained, m.version, now);
    var own := RetainedRank(m.version, m.lowest, now + m.window);
    forall r | r in left.retained
      ensures r == own || r in kept
    {
      assert r in kept + [own];
    }
  }

  lemma ReselectIsSound(s: State, m: Membership, now: Time, hasAddress: bool, s': State,
                        ledger: map<Byte, seq<Rank>>, maxInc: nat)
    requires Pending(s, m, now, ledger, maxInc)
    requires Reselects(s, m, now, hasAddress, s')
    ensures Sound(World(s', now, Entered(ledger, s')), maxInc)
  {
    var v :| Selects(m, now, hasAddress, v) && s' == Settle(s, v, now);
    match v
    case Leaves(gone) =>
      LeavingIsSwept(m, now, hasAddress, v);
      LeaveKeepsRecords(s, gone, now, ledger, maxInc);
    case Stays(next, changed) =>
      StayIsSound(s, m, now, hasAddress, v, ledger, maxInc);
  }

  lemma LeavingIsSwept(m: Membership, now: Time, hasAddress: bool, v: Verdict)
    requires Selects(m, now, hasAddress, v) && v.Leaves?
    ensures v.gone == m.(parents := Live(m, now), pathSequence := v.gone.pathSequence)
  {
  }

  lemma StayIsSound(s: State, m: Membership, now: Time, hasAddress: bool, v: Verdict,
                    ledger: map<Byte, seq<Rank>>, maxInc: nat)
    requires Pending(s, m, now, ledger, maxInc)
    requires Selects(m, now, hasAddress, v) && v.Stays?
    ensures var s' := Settle(s, v, now); Sound(World(s', now, Entered(ledger, s')), maxInc)
  {
    hide LeastOf, UnderCeiling, RankEquation;
    SelectRestoresRankEquation(m, now, hasAddress, v);
    hide Selects;
    assert ANY !in v.m.parents;
    if v.m.rank != INFINITE_RANK {
      LeastAfter(ledger[m.version], v.m.rank);
      EnterKeepsCeiling(ledger[m.version], v.m.rank, maxInc);
    }
  }

  /** What event `e` may require of the environment: DIOs of this DODAG, all with the same DAGMaxRankIncrease. */
  predicate Regular(e: Event, maxInc: nat) {
    e.HearDio? ==> !e.dio.temporary && e.dio.conf.maxInc == maxInc
  }

  lemma JoinIsPending(s: State, d: Dio, now: Time, ledger: map<Byte, seq<Rank>>, maxInc: nat)
    requires s.dodag.None? && !d.temporary && d.conf.maxInc == maxInc
    requires forall r :: r in s.retained && r.expires > now
                         ==> r.version in ledger && r.lowest == LeastOf(ledger[r.version])
    requires forall v :: v in ledger ==> UnderCeiling(ledger[v], maxInc)
    ensures var begun := if HoldsRecord(s.retained, d.version, now) then ledger else ledger[d.version := []];
            Pending(Join(s, d, now), Join(s, d, now).dodag.value, now, begun, maxInc)
  {
  }

  /** One event of any kind keeps the world sound. */
  lemma AdmittedIsSound(w: World, e: Event, w': World, maxInc: nat)
    requires Sound(w, maxInc) && Regular(e, maxInc) && Step(w, e, w')
    requires e.HearDio? && e.dio.rank != INFINITE_RANK && Admit(w.s, e.dio, e.at).Some?
    ensures Sound(w', maxInc)
  {
    hide LeastOf, UnderCeiling, RankEquation, Reselects, Remember, Restored, OlderThanRetained;
    var s, now, d := w.s, e.at, e.dio;
    var joined := Admit(s, d, now).value;
    if s.dodag.None? {
      JoinIsPending(s, d, now, w.ledger, maxInc);
    } else if d.version != s.dodag.value.version {
      LeaveKeepsRecords(s, s.dodag.value, now, w.ledger, maxInc);
      JoinIsPending(Leave(s, now), d, now, w.ledger, maxInc);
    }
    ReselectIsSound(joined, Heard(joined.dodag.value, d, e.from, e.sample, now), now, e.hasAddress, w'.s,
                    Opened(w, e), maxInc);
  }

  lemma StepIsSound(w: World, e: Event, w': World, maxInc: nat)
    requires Sound(w, maxInc) && Regular(e, maxInc) && Step(w, e, w')
    ensures Sound(w', maxInc)
  {
    hide LeastOf, UnderCeiling, RankEquation, Reselects;
    var s, now := w.s, e.at;
    if !BringsNoRank(e) && Admit(s, e.dio, now).Some? {
      AdmittedIsSound(w, e, w', maxInc);
    } else if BringsNoRank(e) && s.dodag.Some? {
      ReselectIsSound(s, Left(s.dodag.value, e), now, e.hasAddress, w'.s, w.ledger, maxInc);
    } else {
      IdleKeepsSound(w, w', maxInc);
    }
  }

  /** Advertising the rank already held changes neither L nor the ceiling. */
  lemma IdleKeepsSound(w: World, w': World, maxInc: nat)
    requires Sound(w, maxInc) && w'.s == w.s && w'.now >= w.now && w'.ledger == Entered(w.ledger, w.s)
    ensures Sound(w', maxInc)
  {
    if w.s.dodag.Some? && w.s.dodag.value.rank != INFINITE_RANK {
      var m := w.s.dodag.value;
      LeastAfter(w.ledger[m.version], m.rank);
      EnterKeepsCeiling(w.ledger[m.version], m.rank, maxInc);
    }
  }

  ghost predicate Run(worlds: seq<World>, events: seq<Event>) {
    && |worlds| == |events| + 1
    && worlds[0].s == State(None, [], None) && worlds[0].ledger == map[]
    && forall i :: 0 <= i < |events| ==> Step(worlds[i], events[i], worlds[i + 1])
  }

  /** Over every run with a fixed DAGMaxRankIncrease, at every moment: a member satisfies the rank equation; L is the
      least finite rank it has been ready to advertise in its DODAG Version since it last came to it unremembered;
      its finite rank lies between L and L + DAGMaxRankIncrease; every rank it ever was ready to advertise was under
      the ceiling of that moment; and every record still in force holds the L of the Version it names. */
  lemma {:induction false} RunsStaySound(worlds: seq<World>, events: seq<Event>, maxInc: nat, i: nat)
    requires Run(worlds, events) && i < |worlds|
    requires forall e :: e in events ==> Regular(e, maxInc)
    ensures Sound(worlds[i], maxInc)
  {
    if i > 0 {
      RunsStaySound(worlds, events, maxInc, i - 1);
      assert Step(worlds[i - 1], events[i - 1], worlds[i]);
      StepIsSound(worlds[i - 1], events[i - 1], worlds[i], maxInc);
    }
  }

  /** Rejoining a Version still remembered restores its L, so the first rank adopted is held to the old ceiling. */
  lemma RejoinKeepsCeiling(s: State, d: Dio, from: Address, sample: nat, now: Time, hasAddress: bool, s': State,
                           L: Rank)
    requires s.dodag.None? && d.rank != INFINITE_RANK && from != ANY
    requires HoldsRecord(s.retained, d.version, now)
    requires forall r :: r in s.retained && r.expires > now && r.version == d.version ==> r.lowest == L
    requires HandlesDio(s, d, from, sample, now, hasAddress, s')
    requires s'.dodag.Some? && s'.dodag.value.rank != INFINITE_RANK
    ensures s'.dodag.value.rank <= L + d.conf.maxInc
    ensures s'.dodag.value.lowest <= L
  {
    var joined := Join(s, d, now);
    var m := Heard(joined.dodag.value, d, from, sample, now);
    if Admit(s, d, now).Some? {
      var v :| Selects(m, now, hasAddress, v) && s' == Settle(joined, v, now);
      if v.Stays? {
        SelectRestoresRankEquation(m, now, hasAddress, v);
      }
    }
  }

  // ---------------------------------------------------------------- how long a Version is remembered

  /** How many records stand behind that of `version`, i.e. were made after it. */
  ghost predicate RememberedBehind(records: seq<RetainedRank>, r: RetainedRank, behind: nat) {
    behind < |records| <= RETAINED_VERSIONS && records[|records| - 1 - behind] == r
  }

  /** Leaving another Version moves a record in force back by at most one place, and drops it only from the fourth. */
  lemma RecordSurvives(records: seq<RetainedRank>, r: RetainedRank, behind: nat, next: RetainedRank, now: Time)
    returns (b: nat)
    requires RememberedBehind(records, r, behind)
    requires r.expires > now && next.version != r.version && behind < RETAINED_VERSIONS - 1
    ensures b <= behind + 1 && RememberedBehind(Remember(records, next, now), r, b)
  {
    SurvivingAre(records, next.version, now);
    var kept := Surviving(records, next.version, now);
    b := SurvivesBehind(records, next.version, now, r, behind);
    b := b + 1;
    assert (kept + [next])[|kept + [next]| - 1 - b] == r;
  }

  lemma SurvivesBehind(records: seq<RetainedRank>, version: Byte, now: Time, r: RetainedRank, behind: nat)
    returns (b: nat)
    requires RememberedBehind(records, r, behind) && r.expires > now && r.version != version
    ensures b <= behind && b < |Surviving(records, version, now)|
    ensures Surviving(records, version, now)[|Surviving(records, version, now)| - 1 - b] == r
  {
    hide Surviving;
    var at := |records| - 1 - behind;
    var before, after := Surviving(records[..at], version, now), Surviving(records[at + 1..], version, now);
    SurvivingOneMore(records[..at], r, version, now);
    SurvivingConcat(records[..at] + [r], records[at + 1..], version, now);
    assert records == records[..at] + [r] + records[at + 1..];
    SurvivingAre(records[at + 1..], version, now);
    b := |after|;
    assert (before + [r] + after)[|before|] == r;
  }

  /** A DIO takes the router from one Version to another. */
  predicate Migrates(s: State, e: Event) {
    && e.HearDio? && e.dio.rank != INFINITE_RANK && s.dodag.Some? && !s.dodag.value.temporary
    && e.dio.version != s.dodag.value.version && FollowsVersion(s.dodag.value, e.dio)
  }

  /** The Versions left in one step, in order: the one migrated from, and the one a router ends up outside of. */
  function LeftVersions(s: State, e: Event, s': State): seq<Byte> {
    (if Migrates(s, e) then [s.dodag.value.version] else [])
    + if s'.dodag.Some? then []
      else if e.HearDio? && e.dio.rank != INFINITE_RANK && Admit(s, e.dio, e.at).Some? then [e.dio.version]
      else if s.dodag.Some? then [s.dodag.value.version]
      else []
  }

  lemma SettlingRetains(s: State, m: Membership, now: Time, hasAddress: bool, s': State, r: RetainedRank, behind: nat)
    returns (b: nat)
    requires Reselects(s, m, now, hasAddress, s') && RememberedBehind(s.retained, r, behind) && r.expires > now
    requires s'.dodag.None? ==> m.version != r.version && behind < RETAINED_VERSIONS - 1
    ensures b <= behind + (if s'.dodag.None? then 1 else 0) && RememberedBehind(s'.retained, r, b)
  {
    hide Selects, Remember, RememberedBehind;
    var v :| Selects(m, now, hasAddress, v) && s' == Settle(s, v, now);
    b := behind;
    if v.Leaves? && !v.gone.temporary {
      LeavingIsSwept(m, now, hasAddress, v);
      b := RecordSurvives(s.retained, r, behind, RetainedRank(v.gone.version, v.gone.lowest, now + v.gone.window), now);
    }
  }

  /** Admission itself leaves at most the Version migrated from. */
  lemma AdmissionRetains(s: State, e: Event, r: RetainedRank, behind: nat)
    returns (b: nat)
    requires e.HearDio? && e.dio.rank != INFINITE_RANK && Admit(s, e.dio, e.at).Some?
    requires RememberedBehind(s.retained, r, behind) && r.expires > e.at
    requires s.dodag.Some? ==> !s.dodag.value.temporary
    requires Migrates(s, e) ==> s.dodag.value.version != r.version && behind < RETAINED_VERSIONS - 1
    ensures b <= behind + (if Migrates(s, e) then 1 else 0)
    ensures RememberedBehind(Admit(s, e.dio, e.at).value.retained, r, b)
    ensures Admit(s, e.dio, e.at).value.dodag.Some? && Admit(s, e.dio, e.at).value.dodag.value.version == e.dio.version
  {
    hide RememberedBehind, Remember, OlderThanRetained, Restored;
    b := behind;
    if Migrates(s, e) {
      var m := s.dodag.value;
      b := RecordSurvives(s.retained, r, b, RetainedRank(m.version, m.lowest, e.at + m.window), e.at);
    }
  }

  lemma DioRetains(s: State, e: Event, s': State, r: RetainedRank, behind: nat)
    returns (b: nat)
    requires Handles(s, e, s') && e.HearDio? && e.dio.rank != INFINITE_RANK && Admit(s, e.dio, e.at).Some?
    requires RememberedBehind(s.retained, r, behind) && r.expires > e.at
    requires s.dodag.Some? ==> !s.dodag.value.temporary
    requires r.version !in LeftVersions(s, e, s') && behind + |LeftVersions(s, e, s')| < RETAINED_VERSIONS
    ensures b <= behind + |LeftVersions(s, e, s')| && RememberedBehind(s'.retained, r, b)
  {
    hide Admit, Reselects, RememberedBehind;
    var left := LeftVersions(s, e, s');
    if Migrates(s, e) {
      assert left[0] == s.dodag.value.version;
    }
    if s'.dodag.None? {
      assert left[|left| - 1] == e.dio.version;
    }
    b := AdmissionRetains(s, e, r, behind);
    var joined := Admit(s, e.dio, e.at).value;
    var m := Heard(joined.dodag.value, e.dio, e.from, e.sample, e.at);
    b := SettlingRetains(joined, m, e.at, e.hasAddress, s', r, b);
  }

  lemma StepRetains(w: World, e: Event, w': World, r: RetainedRank, behind: nat)
    returns (b: nat)
    requires Step(w, e, w') && RememberedBehind(w.s.retained, r, behind) && r.expires > w'.now
    requires w.s.dodag.Some? ==> !w.s.dodag.value.temporary
    requires r.version !in LeftVersions(w.s, e, w'.s) && behind + |LeftVersions(w.s, e, w'.s)| < RETAINED_VERSIONS
    ensures b <= behind + |LeftVersions(w.s, e, w'.s)| && RememberedBehind(w'.s.retained, r, b)
  {
    hide Admit, Reselects, RememberedBehind;
    var s := w.s;
    b := behind;
    if !BringsNoRank(e) {
      if Admit(s, e.dio, e.at).Some? {
        b := DioRetains(s, e, w'.s, r, behind);
      }
    } else if s.dodag.Some? {
      var m := Left(s.dodag.value, e);
      if w'.s.dodag.None? {
        assert LeftVersions(s, e, w'.s) == [m.version];
      }
      b := SettlingRetains(s, m, e.at, e.hasAddress, w'.s, r, behind);
    }
  }

  function LeftBetween(worlds: seq<World>, events: seq<Event>, i: nat, j: nat): seq<Byte>
    requires i <= j < |worlds| && |worlds| == |events| + 1
  {
    if i == j then []
    else LeftBetween(worlds, events, i, j - 1) + LeftVersions(worlds[j - 1].s, events[j - 1], worlds[j].s)
  }

  lemma NeverTemporary(worlds: seq<World>, events: seq<Event>, maxInc: nat, i: nat)
    requires Run(worlds, events) && i < |worlds| && forall e :: e in events ==> Regular(e, maxInc)
    ensures worlds[i].s.dodag.Some? ==> !worlds[i].s.dodag.value.temporary
  {
    RunsStaySound(worlds, events, maxInc, i);
  }

  lemma {:induction false} RecordMovesBack(worlds: seq<World>, events: seq<Event>, maxInc: nat, i: nat, j: nat,
                                           r: RetainedRank, behind: nat)
    returns (b: nat)
    requires Run(worlds, events) && i <= j < |worlds| && forall e :: e in events ==> Regular(e, maxInc)
    requires RememberedBehind(worlds[i].s.retained, r, behind) && r.expires > worlds[j].now
    requires r.version !in LeftBetween(worlds, events, i, j)
    requires behind + |LeftBetween(worlds, events, i, j)| < RETAINED_VERSIONS
    ensures b <= behind + |LeftBetween(worlds, events, i, j)| && RememberedBehind(worlds[j].s.retained, r, b)
  {
    hide LeftVersions, Step, Regular, RememberedBehind;
    b := behind;
    if i < j {
      assert Step(worlds[j - 1], events[j - 1], worlds[j]);
      TimeRunsOn(worlds[j - 1], events[j - 1], worlds[j]);
      b := RecordMovesBack(worlds, events, maxInc, i, j - 1, r, behind);
      NeverTemporary(worlds, events, maxInc, j - 1);
      b := StepRetains(worlds[j - 1], events[j - 1], worlds[j], r, b);
    }
  }

  lemma TimeRunsOn(w: World, e: Event, w': World)
    requires Step(w, e, w')
    ensures w.now <= w'.now
  {
  }

  /** Over every run: the record a router makes on leaving a Version is still there, with its L, as long as its two
      maximum DIO intervals have not passed, the Version has not been left again, and at most three others have. */
  lemma LeftVersionIsRemembered(worlds: seq<World>, events: seq<Event>, maxInc: nat, i: nat, j: nat)
    requires Run(worlds, events) && i <= j < |worlds| && forall e :: e in events ==> Regular(e, maxInc)
    requires 0 < |worlds[i].s.retained|
    ensures var records := worlds[i].s.retained;
            var r := records[|records| - 1];
            r.expires > worlds[j].now && r.version !in LeftBetween(worlds, events, i, j)
            && |LeftBetween(worlds, events, i, j)| < RETAINED_VERSIONS
            ==> r in worlds[j].s.retained
                && (!(worlds[j].s.dodag.Some? && worlds[j].s.dodag.value.version == r.version)
                    ==> r.lowest == Restored(worlds[j].s.retained, r.version, worlds[j].now))
  {
    var records := worlds[i].s.retained;
    var r := records[|records| - 1];
    RetainedAreFew(worlds, events, i);
    if r.expires > worlds[j].now && r.version !in LeftBetween(worlds, events, i, j)
       && |LeftBetween(worlds, events, i, j)| < RETAINED_VERSIONS {
      var b := RecordMovesBack(worlds, events, maxInc, i, j, r, 0);
      RunsStaySound(worlds, events, maxInc, j);
      assert HoldsRecord(worlds[j].s.retained, r.version, worlds[j].now);
    }
  }

  lemma {:induction false} RetainedAreFew(worlds: seq<World>, events: seq<Event>, i: nat)
    requires Run(worlds, events) && i < |worlds|
    ensures |worlds[i].s.retained| <= RETAINED_VERSIONS
  {
    if i > 0 {
      RetainedAreFew(worlds, events, i - 1);
      assert Step(worlds[i - 1], events[i - 1], worlds[i]);
      StepKeepsFew(worlds[i - 1], events[i - 1], worlds[i]);
    }
  }

  lemma LeavingKeepsFew(s: State, now: Time)
    requires s.dodag.Some? && |s.retained| <= RETAINED_VERSIONS
    ensures |Leave(s, now).retained| <= RETAINED_VERSIONS
  {
    SurvivingAre(s.retained, s.dodag.value.version, now);
  }

  lemma SettlingKeepsFew(s: State, m: Membership, now: Time, hasAddress: bool, s': State)
    requires Reselects(s, m, now, hasAddress, s') && |s.retained| <= RETAINED_VERSIONS
    ensures |s'.retained| <= RETAINED_VERSIONS
  {
    var v :| Selects(m, now, hasAddress, v) && s' == Settle(s, v, now);
    if v.Leaves? {
      LeavingKeepsFew(s.(dodag := Some(v.gone)), now);
    }
  }

  lemma StepKeepsFew(w: World, e: Event, w': World)
    requires Step(w, e, w') && |w.s.retained| <= RETAINED_VERSIONS
    ensures |w'.s.retained| <= RETAINED_VERSIONS
  {
    var s, now := w.s, e.at;
    if s.dodag.Some? {
      LeavingKeepsFew(s, now);
    }
    hide Leave, Remember, Reselects;
    if BringsNoRank(e) {
      if s.dodag.Some? {
        SettlingKeepsFew(s, Left(s.dodag.value, e), now, e.hasAddress, w'.s);
      }
    } else if Admit(s, e.dio, now).Some? {
      var joined := Admit(s, e.dio, now).value;
      var m := Heard(joined.dodag.value, e.dio, e.from, e.sample, now);
      SettlingKeepsFew(joined, m, now, e.hasAddress, w'.s);
    }
  }

  // ---------------------------------------------------------------- older Versions

  /** This step makes the router a member of a Version it was no member of. */
  predicate Enters(w: World, w': World) {
    w'.s.dodag.Some? && (w.s.dodag.Some? ==> w.s.dodag.value.version != w'.s.dodag.value.version)
  }

  predicate OlderThan(s: State, r: RetainedRank) {
    s.dodag.Some? && Compare(s.dodag.value.version, r.version) == Less
  }

  lemma SettlingKeepsVersion(s: State, m: Membership, now: Time, hasAddress: bool, s': State)
    requires Reselects(s, m, now, hasAddress, s')
    ensures s'.dodag.Some? ==> s'.dodag.value.version == m.version
  {
  }

  /** A router with no parent and no rank stays where it is: finding none is no change. */
  lemma UnrankedStays(s: State, m: Membership, now: Time, hasAddress: bool, s': State)
    requires Reselects(s, m, now, hasAddress, s') && m.preferred == ANY && m.rank == INFINITE_RANK
    ensures s'.dodag.Some?
  {
    hide Chooses;
  }

  /** Over every run a router outside the DODAG never enters a Version strictly older than one it has left and still
      remembers; a member does exactly by migrating there from its own, which the records are not asked about. */
  lemma EntersOlderExactly(worlds: seq<World>, events: seq<Event>, maxInc: nat, i: nat, r: RetainedRank)
    requires Run(worlds, events) && i < |events| && forall e :: e in events ==> Regular(e, maxInc)
    requires r in worlds[i].s.retained && r.expires > worlds[i + 1].now
    ensures Enters(worlds[i], worlds[i + 1]) && OlderThan(worlds[i + 1].s, r)
            <==> Migrates(worlds[i].s, events[i]) && Compare(events[i].dio.version, r.version) == Less
  {
    hide Reselects, Remember, Compare;
    var s, e, s' := worlds[i].s, events[i], worlds[i + 1].s;
    assert Step(worlds[i], e, worlds[i + 1]);
    NeverTemporary(worlds, events, maxInc, i);
    if !BringsNoRank(e) {
      if Admit(s, e.dio, e.at).Some? {
        var joined := Admit(s, e.dio, e.at).value;
        var m := Heard(joined.dodag.value, e.dio, e.from, e.sample, e.at);
        SettlingKeepsVersion(joined, m, e.at, e.hasAddress, s');
        if Migrates(s, e) {
          UnrankedStays(joined, m, e.at, e.hasAddress, s');
        }
      }
    } else if s.dodag.Some? {
      SettlingKeepsVersion(s, Left(s.dodag.value, e), e.at, e.hasAddress, s');
    }
  }

  /** DIOs of one neighbour of rank 128, in Version `v`. */
  function Announced(v: Byte): Dio {
    Dio(v, 128, 0, None, Configuration(false, 128, 1024, 100), false)
  }

  function Announcement(v: Byte, at: Time): Event {
    HearDio(Announced(v), 1, 128, at, true)
  }

  function Arrived(s: State, v: Byte, at: Time): State {
    s.(dodag := Some(Membership(v, 256, 0, false, 128, 1024, 256, 100, false,
                                map[1 := Parent(128, 0, at, 1, 128, 0)], 1,
                                Increment(if s.retainedPathSequence.Some? then s.retainedPathSequence.value else 0))))
  }

  /** A router outside the DODAG takes the neighbour it joins through for its parent. */
  lemma Arrives(s: State, v: Byte, at: Time)
    requires s.dodag.None? && !HoldsRecord(s.retained, v, at)
    ensures var joined := Join(s, Announced(v), at);
            Reselects(joined, Heard(joined.dodag.value, Announced(v), 1, 128, at), at, true, Arrived(s, v, at))
  {
    var joined := Join(s, Announced(v), at);
    var m := Heard(joined.dodag.value, Announced(v), 1, 128, at);
    assert m.parents == map[1 := Parent(128, 0, at, 1, 128, 0)];
    assert Live(m, at) == m.parents && Sweep(m, at, true) == m;
    assert Candidate(m, EntryBound(m), false, 1) && Least(m, EntryBound(m), DecidedFresh(m), 1);
    assert Chooses(m, 1);
    assert Selects(m, at, true, Stays(Arrived(s, v, at).dodag.value, true));
  }

  ghost predicate EndsOlder(worlds: seq<World>, events: seq<Event>) {
    && Run(worlds, events)
    && var w := worlds[|worlds| - 1];
       exists r :: r in w.s.retained && r.expires > w.now && OlderThan(w.s, r)
  }

  function Next(w: World, e: Event, s': State): World {
    World(s', e.at, Entered(Opened(w, e), s'))
  }

  lemma StepsIn(w: World, v: Byte, at: Time)
    requires w.s == State(None, [], None) && at >= w.now
    ensures Step(w, Announcement(v, at), Next(w, Announcement(v, at), Arrived(w.s, v, at)))
  {
    Arrives(w.s, v, at);
  }

  lemma StepsAcross(w: World, v: Byte, at: Time)
    requires at >= w.now && Migrates(w.s, Announcement(v, at)) && !HoldsRecord(Leave(w.s, at).retained, v, at)
    ensures Step(w, Announcement(v, at), Next(w, Announcement(v, at), Arrived(Leave(w.s, at), v, at)))
  {
    hide Reselects;
    Arrives(Leave(w.s, at), v, at);
  }

  lemma FirstTwoRecords()
    ensures var s1 := Arrived(State(None, [], None), 10, 0);
            var s2 := Arrived(Leave(s1, 1), 245, 1);
            && Leave(s1, 1).retained == [RetainedRank(10, 256, 101)]
            && Leave(s2, 2).retained == [RetainedRank(10, 256, 101), RetainedRank(245, 256, 102)]
  {
    var r1 := RetainedRank(10, 256, 101);
    assert Surviving([], 10, 1) == [];
    assert Surviving([r1], 245, 2) == [r1] + Surviving([], 245, 2);
  }

  /** Such a run: Versions 10, 245 and 0, each newer than the one before, and 0 older than 10. */
  lemma MigrationPassesRecords()
    ensures exists worlds, events :: EndsOlder(worlds, events)
  {
    hide Step, Entered, Opened, Leave, Admit;
    var w0 := World(State(None, [], None), 0, map[]);
    var s1 := Arrived(w0.s, 10, 0);
    var s2 := Arrived(Leave(s1, 1), 245, 1);
    var s3 := Arrived(Leave(s2, 2), 0, 2);
    var e0, e1, e2 := Announcement(10, 0), Announcement(245, 1), Announcement(0, 2);
    var w1 := Next(w0, e0, s1);
    var w2 := Next(w1, e1, s2);
    var w3 := Next(w2, e2, s3);
    FirstTwoRecords();
    StepsIn(w0, 10, 0);
    StepsAcross(w1, 245, 1);
    StepsAcross(w2, 0, 2);
    var worlds, events := [w0, w1, w2, w3], [e0, e1, e2];
    assert Run(worlds, events);
    assert RetainedRank(10, 256, 101) in w3.s.retained && OlderThan(w3.s, RetainedRank(10, 256, 101));
    assert EndsOlder(worlds, events);
  }

  // ---------------------------------------------------------------- link metrics

  /** The sample heard with a DIO is one that some frame gives. */
  ghost predicate Sampled(e: Event) {
    e.HearDio? ==> exists f :: LinkEtx.ValidFrame(f) && e.sample == LinkEtx.Sample(f)
  }

  /** The membership an event puts to parent selection, if any. */
  function Weighed(s: State, e: Event): Option<Membership> {
    if !BringsNoRank(e) then
      var joined := Admit(s, e.dio, e.at);
      if joined.None? || joined.value.dodag.None? then None
      else Some(Heard(joined.value.dodag.value, e.dio, e.from, e.sample, e.at))
    else if s.dodag.None? then None
    else Some(Left(s.dodag.value, e))
  }

  predicate Measured(m: Membership) {
    forall a :: a in m.parents ==> LinkEtx.InRange(m.parents[a].etx)
  }

  lemma SettlingKeepsMeasured(s: State, m: Membership, now: Time, hasAddress: bool, s': State)
    requires Reselects(s, m, now, hasAddress, s') && Measured(m)
    ensures s'.dodag.Some? ==> Measured(s'.dodag.value)
  {
    var v :| Selects(m, now, hasAddress, v) && s' == Settle(s, v, now);
    assert forall a :: a in Live(m, now) ==> a in m.parents;
  }

  lemma StepKeepsMeasured(w: World, e: Event, w': World)
    requires Step(w, e, w') && Sampled(e) && (w.s.dodag.Some? ==> Measured(w.s.dodag.value))
    ensures Weighed(w.s, e).Some? ==> Measured(Weighed(w.s, e).value)
    ensures w'.s.dodag.Some? ==> Measured(w'.s.dodag.value)
  {
    hide Reselects;
    var s, m := w.s, Weighed(w.s, e);
    if m.Some? {
      if !BringsNoRank(e) {
        var joined := Admit(s, e.dio, e.at).value.dodag.value;
        assert Measured(joined);
        if e.from in joined.parents {
          LinkEtx.SmoothStaysInRange(joined.parents[e.from].etx, e.sample);
        }
        assert Measured(m.value);
        SettlingKeepsMeasured(Admit(s, e.dio, e.at).value, m.value, e.at, e.hasAddress, w'.s);
      } else {
        SettlingKeepsMeasured(s, m.value, e.at, e.hasAddress, w'.s);
      }
    }
  }

  /** Over every run, in whatever membership an event puts to parent selection, no neighbour's ETX is above
      MAX_LINK_METRIC: the exclusion for it never fires. */
  lemma {:induction false} NeverExcludedByLinkMetric(worlds: seq<World>, events: seq<Event>, i: nat)
    requires Run(worlds, events) && i < |worlds| && forall e :: e in events ==> Sampled(e)
    ensures worlds[i].s.dodag.Some? ==> Measured(worlds[i].s.dodag.value)
    ensures i < |events| && Weighed(worlds[i].s, events[i]).Some? ==> Measured(Weighed(worlds[i].s, events[i]).value)
  {
    hide Step, Sampled, Weighed, Measured;
    if i > 0 {
      NeverExcludedByLinkMetric(worlds, events, i - 1);
      StepKeepsMeasured(worlds[i - 1], events[i - 1], worlds[i]);
    }
    if i < |events| {
      StepKeepsMeasured(worlds[i], events[i], worlds[i + 1]);
    }
  }
}
