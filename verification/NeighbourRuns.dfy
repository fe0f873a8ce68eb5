/** What each event of a run does to a router's neighbours, to the configuration in force and to what it retains. */
module NeighbourRuns {
  import opened Lollipop
  import opened RplTypes
  import opened ParentSelection
  import opened ParentChoice
  import opened Router
  import opened RankRuns

  /** After a call the neighbours held are those still heard, each as it was. */
  lemma SettlingKeepsHeard(s: State, m: Membership, now: Time, hasAddress: bool, s': State, a: Address)
    requires ANY !in m.parents && Reselects(s, m, now, hasAddress, s') && s'.dodag.Some?
    ensures var m' := s'.dodag.value;
            && (a in m'.parents <==> StillHeard(m, now, a)) && (a in m'.parents ==> m'.parents[a] == m.parents[a])
            && (m'.preferred != ANY ==> m'.preferred in m'.parents)
            && m'.version == m.version && m'.mrhof == m.mrhof && m'.minHop == m.minHop && m'.maxInc == m.maxInc
            && m'.window == m.window && m'.temporary == m.temporary
  {
    var v :| Selects(m, now, hasAddress, v) && s' == Settle(s, v, now);
    hide Selects, RankVia;
    SelectRestoresRankEquation(m, now, hasAddress, v);
  }

  /** What an event that brings no rank takes from the neighbours. */
  predicate Takes(e: Event, a: Address) {
    match e
    case HearDio(d, from, _, _, _) => d.rank == 0xFFFF && a == from
    case Fire(_, _) => false
    case Down(over, _, _) => a in over
  }

  /** Over every run: a neighbour that poisons its routes, or that was heard over an interface gone down, is a neighbour
      no more and no parent; every other stays, as it was, exactly while it has been heard within the window. */
  lemma NeighboursLostExactly(worlds: seq<World>, events: seq<Event>, maxInc: nat, i: nat, a: Address)
    requires Run(worlds, events) && i < |events| && forall e :: e in events ==> Regular(e, maxInc)
    requires BringsNoRank(events[i]) && worlds[i].s.dodag.Some? && worlds[i + 1].s.dodag.Some?
    ensures var m, m' := worlds[i].s.dodag.value, worlds[i + 1].s.dodag.value;
            && (a in m'.parents <==>
                  a in m.parents && !Takes(events[i], a) && events[i].at <= m.parents[a].lastHeard + m.window)
            && (a in m'.parents ==> m'.parents[a] == m.parents[a])
            && (Takes(events[i], a) && a != ANY ==> m'.preferred != a)
  {
    var s, e := worlds[i].s, events[i];
    assert Step(worlds[i], e, worlds[i + 1]);
    RunsStaySound(worlds, events, maxInc, i);
    hide Reselects, LeastOf, UnderCeiling, RankEquation;
    SettlingKeepsHeard(s, Left(s.dodag.value, e), e.at, e.hasAddress, worlds[i + 1].s, a);
    var s' := worlds[i + 1].s;
    SettlingKeepsHeard(s, Left(s.dodag.value, e), e.at, e.hasAddress, s', s'.dodag.value.preferred);
  }

  /** The Version a DIO announces is one this router is in, or may enter: from outside unless it remembers a newer one,
      from another if it is newer or, where the two cannot be compared, if the sender is nearer the root. */
  predicate Welcome(s: State, d: Dio, at: Time) {
    if s.dodag.None? then forall r :: r in s.retained && r.expires > at ==> Compare(d.version, r.version) != Less
    else
      var m := s.dodag.value;
      || d.version == m.version || Compare(d.version, m.version) == Greater
      || (Compare(d.version, m.version) == NotComparable && d.rank < m.rank)
  }

  /** Over every run: after a finite DIO of a Version that is welcome the router is in it with the sender for a
      neighbour as the DIO describes it, heard now, the configuration being the DIO's if the Version is new to it; the
      others it knew there stay while heard within the window. Any other finite DIO changes nothing. */
  lemma SenderIsRecorded(worlds: seq<World>, events: seq<Event>, maxInc: nat, i: nat)
    requires Run(worlds, events) && i < |events| && forall e :: e in events ==> Regular(e, maxInc)
    requires events[i].HearDio? && events[i].dio.rank != 0xFFFF
    ensures var s, s', e, d := worlds[i].s, worlds[i + 1].s, events[i], events[i].dio;
            if !Welcome(s, d, e.at) then s' == s
            else if s.dodag.None? || s.dodag.value.version != d.version then
              s'.dodag.Some? && Described(s', e) && Alone(s', e)
            else s'.dodag.Some? ==> Described(s', e) && Beside(s, s', e)
  {
    var s, s', e, d := worlds[i].s, worlds[i + 1].s, events[i], events[i].dio;
    assert Step(worlds[i], e, worlds[i + 1]);
    RunsStaySound(worlds, events, maxInc, i);
    hide Reselects, LeastOf, UnderCeiling, RankEquation, Remember, Restored;
    assert e in events;
    if Welcome(s, d, e.at) {
      var joined := Admit(s, d, e.at).value;
      var m := Heard(joined.dodag.value, d, e.from, e.sample, e.at);
      hide Welcome, Heard, Admit, Described, Alone, Beside;
      if s.dodag.None? || s.dodag.value.version != d.version {
        FirstHeard(joined, m, e, s');
      } else if s'.dodag.Some? {
        HeardAgain(s, m, e, s');
      }
    }
  }

  lemma FirstHeard(joined: State, m: Membership, e: Event, s': State)
    requires e.HearDio? && joined.dodag.Some? && m == Heard(joined.dodag.value, e.dio, e.from, e.sample, e.at)
    requires var j, c := joined.dodag.value, e.dio.conf;
             && j.parents == map[] && j.preferred == ANY && j.rank == INFINITE_RANK && j.version == e.dio.version
             && j.mrhof == c.mrhof && j.minHop == c.minHop && j.maxInc == c.maxInc && j.window == c.window
    requires e.from != ANY && Reselects(joined, m, e.at, e.hasAddress, s')
    ensures s'.dodag.Some? && Described(s', e) && Alone(s', e)
  {
    hide Reselects;
    UnrankedStays(joined, m, e.at, e.hasAddress, s');
    assert m.parents.Keys == {e.from};
    forall a ensures (a in s'.dodag.value.parents <==> a == e.from)
                     && (a == e.from ==> s'.dodag.value.parents[a] == m.parents[a]) {
      SettlingKeepsHeard(joined, m, e.at, e.hasAddress, s', a);
    }
    SettlingKeepsHeard(joined, m, e.at, e.hasAddress, s', e.from);
    assert forall a :: a in s'.dodag.value.parents.Keys <==> a in {e.from};
  }

  lemma HeardAgain(s: State, m: Membership, e: Event, s': State)
    requires e.HearDio? && s.dodag.Some? && m == Heard(s.dodag.value, e.dio, e.from, e.sample, e.at)
    requires ANY !in s.dodag.value.parents && !s.dodag.value.temporary
    requires e.from != ANY && Reselects(s, m, e.at, e.hasAddress, s') && s'.dodag.Some?
    ensures Described(s', e) && Beside(s, s', e)
  {
    hide Reselects;
    forall a ensures (a in s'.dodag.value.parents <==> StillHeard(m, e.at, a))
                     && (a in s'.dodag.value.parents ==> s'.dodag.value.parents[a] == m.parents[a]) {
      SettlingKeepsHeard(s, m, e.at, e.hasAddress, s', a);
    }
    SettlingKeepsHeard(s, m, e.at, e.hasAddress, s', e.from);
  }

  predicate Described(s: State, e: Event)
    requires e.HearDio? && s.dodag.Some?
  {
    && e.from in s.dodag.value.parents
    && var p := s.dodag.value.parents[e.from];
       && p.rank == e.dio.rank && p.dtsn == e.dio.dtsn && p.lastHeard == e.at
       && (e.dio.pathEtx.Some? ==> p.pathEtx == e.dio.pathEtx.value)
  }

  /** The sender is the only neighbour known in the Version it announced, and its configuration is in force. */
  predicate Alone(s: State, e: Event)
    requires e.HearDio? && s.dodag.Some?
  {
    var m, c := s.dodag.value, e.dio.conf;
    && m.parents.Keys == {e.from} && m.version == e.dio.version
    && m.mrhof == c.mrhof && m.minHop == c.minHop && m.maxInc == c.maxInc && m.window == c.window
    && m.parents[e.from].freshness == 1 && m.parents[e.from].etx == e.sample
    && (e.dio.pathEtx.None? ==> m.parents[e.from].pathEtx == 0)
  }

  /** One frame more has been heard from the sender: up to 16 are counted, and the first sets the link ETX that each
      later one shifts by an eighth. An ETX the DIO does not carry is what it was. */
  predicate HeardOnceMore(m: Membership, m': Membership, e: Event)
    requires e.HearDio? && e.from in m'.parents
  {
    var p := m'.parents[e.from];
    if e.from !in m.parents then p.freshness == 1 && p.etx == e.sample && (e.dio.pathEtx.None? ==> p.pathEtx == 0)
    else
      var q := m.parents[e.from];
      && p.freshness == (if q.freshness < 16 then q.freshness + 1 else 16)
      && p.etx == (if q.freshness == 0 then e.sample else q.etx - q.etx / 8 + e.sample / 8)
      && (e.dio.pathEtx.None? ==> p.pathEtx == q.pathEtx)
  }

  /** The sender is one neighbour among those known before, and the configuration is what it was. */
  ghost predicate Beside(s: State, s': State, e: Event)
    requires e.HearDio? && s.dodag.Some? && s'.dodag.Some?
  {
    var m, m' := s.dodag.value, s'.dodag.value;
    && m'.version == m.version && m'.mrhof == m.mrhof && m'.minHop == m.minHop && m'.maxInc == m.maxInc
    && m'.window == m.window && e.from in m'.parents && HeardOnceMore(m, m', e)
    && forall a :: a != e.from ==>
         (a in m'.parents <==> a in m.parents && e.at <= m.parents[a].lastHeard + m.window)
         && (a in m'.parents ==> m'.parents[a] == m.parents[a])
  }

  /** The Path Sequence in force: the membership's, or that of the one left. */
  function PathSequenceOf(s: State): Byte {
    if s.dodag.Some? then s.dodag.value.pathSequence
    else if s.retainedPathSequence.Some? then s.retainedPathSequence.value else 0
  }

  lemma SettlingAdvances(s: State, m: Membership, now: Time, hasAddress: bool, s': State) returns (k: nat)
    requires ANY !in m.parents && !m.temporary && Reselects(s, m, now, hasAddress, s')
    ensures k <= 2 && PathSequenceOf(s') == Wire(m.pathSequence, k)
    ensures m.preferred !in m.parents ==> k <= 1
    ensures s'.dodag.None? ==> k <= 1
  {
    var v :| Selects(m, now, hasAddress, v) && s' == Settle(s, v, now);
    SwitchIsTold(m, now, hasAddress, v);
    k := |Told(m, now, hasAddress, v)| + if v.Stays? && v.m.preferred != m.preferred && !m.temporary then 1 else 0;
    hide Selects, Withdraws;
    if v.Leaves? {
      LeavingIsSwept(m, now, hasAddress, v);
    }
  }

  /** Over every run an event advances the Path Sequence by at most two, through leaving, joining and migrating: what
      this router reports of itself is never taken for older than what it reported before. */
  lemma PathSequenceOnlyAdvances(worlds: seq<World>, events: seq<Event>, maxInc: nat, i: nat) returns (k: nat)
    requires Run(worlds, events) && i < |events| && forall e :: e in events ==> Regular(e, maxInc)
    ensures k <= 2 && PathSequenceOf(worlds[i + 1].s) == Wire(PathSequenceOf(worlds[i].s), k)
    ensures k > 0 ==> Newer(PathSequenceOf(worlds[i + 1].s), PathSequenceOf(worlds[i].s))
  {
    var s, s', e := worlds[i].s, worlds[i + 1].s, events[i];
    assert Step(worlds[i], e, worlds[i + 1]);
    RunsStaySound(worlds, events, maxInc, i);
    hide Reselects, LeastOf, UnderCeiling, RankEquation, Remember, Restored;
    var ps := PathSequenceOf(s);
    assert e in events;
    k := 0;
    if BringsNoRank(e) && s.dodag.Some? {
      var m := s.dodag.value;
      k := SettlingAdvances(s, Left(m, e), e.at, e.hasAddress, s');
      if Left(m, e).pathSequence != m.pathSequence {
        WireFrom(ps, k);
        k := k + 1;
      }
    } else if !BringsNoRank(e) && Admit(s, e.dio, e.at).Some? {
      var joined := Admit(s, e.dio, e.at).value;
      k := SettlingAdvances(joined, Heard(joined.dodag.value, e.dio, e.from, e.sample, e.at), e.at, e.hasAddress, s');
    }
    WindowIsExact(ps, k, 0);
  }

  lemma WireFrom(start: Byte, k: nat)
    ensures Wire(Increment(start), k) == Wire(start, k + 1)
  {
    if k > 0 {
      WireFrom(start, k - 1);
    }
  }

  /** Over every run a Version that is left, for another or for none, is the last on record, with its L and for as long
      as two maximum DIO intervals. */
  lemma LeavingIsRecorded(worlds: seq<World>, events: seq<Event>, maxInc: nat, i: nat)
    requires Run(worlds, events) && i < |events| && forall e :: e in events ==> Regular(e, maxInc)
    requires worlds[i].s.dodag.Some?
    requires worlds[i + 1].s.dodag.Some? ==>
               worlds[i + 1].s.dodag.value.version != worlds[i].s.dodag.value.version
    ensures var m, records := worlds[i].s.dodag.value, worlds[i + 1].s.retained;
            0 < |records| <= 4 && records[|records| - 1] == RetainedRank(m.version, m.lowest, events[i].at + m.window)
  {
    assert Step(worlds[i], events[i], worlds[i + 1]);
    assert events[i] in events;
    NeverTemporary(worlds, events, maxInc, i);
    RetainedAreFew(worlds, events, i + 1);
    LastIsVersionLeft(worlds[i].s, events[i], worlds[i + 1].s);
  }

  lemma LastIsVersionLeft(s: State, e: Event, s': State)
    requires Handles(s, e, s') && s.dodag.Some? && !s.dodag.value.temporary
    requires s'.dodag.Some? ==> s'.dodag.value.version != s.dodag.value.version
    ensures var m, records := s.dodag.value, s'.retained;
            0 < |records| && records[|records| - 1] == RetainedRank(m.version, m.lowest, e.at + m.window)
  {
    var m := s.dodag.value;
    hide Reselects, Remember, Restored, HoldsRecord;
    if BringsNoRank(e) {
      GoneIsRecorded(s, Left(m, e), e.at, e.hasAddress, s');
      SettlingKeepsVersion(s, Left(m, e), e.at, e.hasAddress, s');
    } else {
      if e.dio.version != m.version {
        MigrationIsRecorded(s, e.dio, e.at);
      }
      hide Admit, Heard;
      var joined := Admit(s, e.dio, e.at).value;
      var h := Heard(joined.dodag.value, e.dio, e.from, e.sample, e.at);
      SettlingKeepsVersion(joined, h, e.at, e.hasAddress, s');
      if e.dio.version != m.version {
        UnrankedStays(joined, h, e.at, e.hasAddress, s');
        StayingRecordsNothing(joined, h, e.at, e.hasAddress, s');
      } else {
        GoneIsRecorded(joined, h, e.at, e.hasAddress, s');
      }
    }
  }

  lemma MigrationIsRecorded(s: State, d: Dio, at: Time)
    requires s.dodag.Some? && !s.dodag.value.temporary && d.version != s.dodag.value.version && Admit(s, d, at).Some?
    ensures var m, records := s.dodag.value, Admit(s, d, at).value.retained;
            0 < |records| && records[|records| - 1] == RetainedRank(m.version, m.lowest, at + m.window)
  {
    hide Surviving, Restored;
  }

  lemma StayingRecordsNothing(s: State, m: Membership, now: Time, hasAddress: bool, s': State)
    requires Reselects(s, m, now, hasAddress, s') && s'.dodag.Some?
    ensures s'.retained == s.retained
  {
  }

  lemma GoneIsRecorded(s: State, m: Membership, now: Time, hasAddress: bool, s': State)
    requires Reselects(s, m, now, hasAddress, s') && !m.temporary
    ensures s'.dodag.None? ==>
              0 < |s'.retained| && s'.retained[|s'.retained| - 1] == RetainedRank(m.version, m.lowest, now + m.window)
  {
    hide Selects, Surviving;
    var v :| Selects(m, now, hasAddress, v) && s' == Settle(s, v, now);
    if v.Leaves? {
      LeavingIsSwept(m, now, hasAddress, v);
    }
  }

  /** A preferred parent that poisons its routes is told once, under the next Path Sequence, whatever becomes of the
      router; if it finds another, that one is reported to under the one after. */
  lemma PoisonedParentIsTold(s: State, d: Dio, from: Address, sample: nat, now: Time, hasAddress: bool, s': State,
                             before: seq<Withdrawal>, after: seq<Withdrawal>)
    requires s.dodag.Some? && d.rank == 0xFFFF && from != ANY && from == s.dodag.value.preferred
    requires ANY !in s.dodag.value.parents && !s.dodag.value.temporary && hasAddress
    requires HandlesDio(s, d, from, sample, now, hasAddress, s')
    requires DioReports(s, d, from, sample, now, hasAddress, before, after)
    ensures var ps := s.dodag.value.pathSequence;
            && after == before + [Withdrawal(from, Wire(ps, 1))]
            && PathSequenceOf(s') == Wire(ps, if s'.dodag.Some? then 2 else 1)
  {
    var m := Poisoned(s.dodag.value, from, hasAddress);
    var ps := s.dodag.value.pathSequence;
    var v :| Selects(m, now, hasAddress, v) && s' == Settle(s, v, now);
    SwitchIsTold(m, now, hasAddress, v);
    WireFrom(ps, 0);
    WireFrom(ps, 1);
    hide Selects, Reports, Withdraws;
    assert Wire(ps, 0) == ps;
    if v.Leaves? {
      LeavingIsSwept(m, now, hasAddress, v);
    } else {
      ParentIsHeld(m, now, hasAddress, v);
    }
  }

  lemma ParentIsHeld(m: Membership, now: Time, hasAddress: bool, v: Verdict)
    requires ANY !in m.parents && Selects(m, now, hasAddress, v) && v.Stays?
    ensures v.m.preferred != ANY ==> v.m.preferred in m.parents
    ensures m.preferred != ANY ==> v.m.preferred != ANY
  {
    hide Chooses, RankVia;
    SelectRestoresRankEquation(m, now, hasAddress, v);
  }
}
